/**
 * The photo library hook of the web front end (`usePhotos`): the list of
 * photos, the years photos were taken in, a loading flag and an error
 * message. Every operation is a call to the API whose outcome is a parameter.
 */
module PhotoStore {
  import opened Wrappers
  import opened Text
  import opened Api
  import opened KeyedLists
  import opened Rides
  import opened Photos

  const UploadFailed := "Failed to upload photos"
  const UpdateFailed := "Failed to update photo"
  const DeleteFailed := "Failed to delete photo"

  /** The message of a failed GET: `Failed to fetch <what>: <status>` for a
      non-ok response, the thrown error's own message otherwise. */
  function FetchFailure<T>(what: string, outcome: Remote<T>): (m: string)
    requires !outcome.Ok?
    ensures outcome.Rejected? ==> m == "Failed to fetch " + what + ": " + NatToString(outcome.status)
    ensures outcome.Unreachable? ==> m == outcome.reason
  {
    if outcome.Rejected? then "Failed to fetch " + what + ": " + NatToString(outcome.status)
    else outcome.reason
  }

  /** Different statuses give different messages. */
  lemma FetchFailureNamesStatus<T>(what: string, a: Remote<T>, b: Remote<T>)
    requires a.Rejected? && b.Rejected?
    ensures FetchFailure(what, a) == FetchFailure(what, b) <==> a.status == b.status
  {
    var prefix := "Failed to fetch " + what + ": ";
    if FetchFailure(what, a) == FetchFailure(what, b) {
      assert NatToString(a.status) == FetchFailure(what, a)[|prefix|..];
      assert NatToString(b.status) == FetchFailure(what, b)[|prefix|..];
      NatToStringInjective(a.status, b.status);
    }
  }

  /** The optional metadata of an upload; None where the key is absent. */
  datatype Metadata = Metadata(dateTaken: Option<string>, description: Option<string>, tags: Option<string>)

  /** One part of a `multipart/form-data` body. */
  datatype FormValue = FileValue(file: File) | TextValue(text: string)
  datatype FormEntry = FormEntry(name: string, value: FormValue)

  predicate Truthy(s: Option<string>) { s.Some? && s.value != "" }

  /** One metadata field's part: present only when the field is truthy. */
  function FieldEntry(name: string, v: Option<string>): (r: seq<FormEntry>)
    ensures !Truthy(v) ==> r == []
    ensures Truthy(v) ==> r == [FormEntry(name, TextValue(v.value))]
    ensures FormEntry(name, TextValue(v.GetOr(""))) in r <==> Truthy(v)
  {
    if Truthy(v) then [FormEntry(name, TextValue(v.value))] else []
  }

  /** The position of a metadata field among the parts: dateTaken, description, tags. */
  function MetadataRank(name: string): nat
  {
    if name == "dateTaken" then 0 else if name == "description" then 1 else 2
  }

  /** The metadata parts, in the order they are appended, each only when truthy. */
  function MetadataEntries(m: Metadata): (r: seq<FormEntry>)
    ensures FormEntry("dateTaken", TextValue(m.dateTaken.GetOr(""))) in r <==> Truthy(m.dateTaken)
    ensures FormEntry("description", TextValue(m.description.GetOr(""))) in r <==> Truthy(m.description)
    ensures FormEntry("tags", TextValue(m.tags.GetOr(""))) in r <==> Truthy(m.tags)
    ensures |r| == (if Truthy(m.dateTaken) then 1 else 0) + (if Truthy(m.description) then 1 else 0) +
                   (if Truthy(m.tags) then 1 else 0)
    ensures forall e :: e in r ==> e.name != "photos" && e.value.TextValue?
  {
    var date := FieldEntry("dateTaken", m.dateTaken);
    var description := FieldEntry("description", m.description);
    var tags := FieldEntry("tags", m.tags);
    assert forall e :: e in date + description + tags <==> e in date || e in description || e in tags;
    date + description + tags
  }

  /** The metadata parts are only the three fields, each with its own value. */
  lemma MetadataEntriesOnlyFields(m: Metadata)
    ensures forall e :: e in MetadataEntries(m) ==>
      e == FormEntry("dateTaken", TextValue(m.dateTaken.GetOr(""))) ||
      e == FormEntry("description", TextValue(m.description.GetOr(""))) ||
      e == FormEntry("tags", TextValue(m.tags.GetOr("")))
  {
    var date := FieldEntry("dateTaken", m.dateTaken);
    var description := FieldEntry("description", m.description);
    var tags := FieldEntry("tags", m.tags);
    assert MetadataEntries(m) == date + description + tags;
    forall e | e in date + description + tags
      ensures e in date || e in description || e in tags
    {
    }
  }

  /** The metadata parts come in append order: dateTaken, then description, then tags. */
  lemma MetadataEntriesOrdered(m: Metadata)
    ensures forall i, k :: 0 <= i < k < |MetadataEntries(m)| ==>
      MetadataRank(MetadataEntries(m)[i].name) < MetadataRank(MetadataEntries(m)[k].name)
  {
    var date := FieldEntry("dateTaken", m.dateTaken);
    var description := FieldEntry("description", m.description);
    var tags := FieldEntry("tags", m.tags);
    var r := date + description + tags;
    assert MetadataEntries(m) == r;
    forall i | 0 <= i < |r|
      ensures MetadataRank(r[i].name) ==
        if i < |date| then 0 else if i < |date| + |description| then 1 else 2
    {
      if i < |date| {
        assert r[i] == date[i];
      } else if i < |date| + |description| {
        assert r[i] == description[i - |date|];
      } else {
        assert r[i] == tags[i - |date| - |description|];
      }
    }
  }

  /** The upload request body: every file under `photos`, in input order, then the metadata. */
  method BuildUploadForm(files: seq<File>, metadata: Metadata) returns (form: seq<FormEntry>)
    ensures |form| == |files| + |MetadataEntries(metadata)|
    ensures forall i :: 0 <= i < |files| ==> form[i] == FormEntry("photos", FileValue(files[i]))
    ensures form[|files|..] == MetadataEntries(metadata)
  {
    form := [];
    for i := 0 to |files|
      invariant |form| == i
      invariant forall k :: 0 <= k < i ==> form[k] == FormEntry("photos", FileValue(files[k]))
    {
      form := form + [FormEntry("photos", FileValue(files[i]))];
    }
    ghost var photos := form;
    if Truthy(metadata.dateTaken) {
      form := form + [FormEntry("dateTaken", TextValue(metadata.dateTaken.value))];
    }
    if Truthy(metadata.description) {
      form := form + [FormEntry("description", TextValue(metadata.description.value))];
    }
    if Truthy(metadata.tags) {
      form := form + [FormEntry("tags", TextValue(metadata.tags.value))];
    }
    assert form == photos + (FieldEntry("dateTaken", metadata.dateTaken) +
      FieldEntry("description", metadata.description) + FieldEntry("tags", metadata.tags));
  }

  /** The files of a form are exactly its `photos` parts. */
  lemma FormFilesAreTheUpload(files: seq<File>, metadata: Metadata, form: seq<FormEntry>)
    requires |form| == |files| + |MetadataEntries(metadata)|
    requires forall i :: 0 <= i < |files| ==> form[i] == FormEntry("photos", FileValue(files[i]))
    requires form[|files|..] == MetadataEntries(metadata)
    ensures forall i :: 0 <= i < |form| ==> (form[i].name == "photos" <==> i < |files|)
  {
    forall i | |files| <= i < |form| ensures form[i].name != "photos" {
      assert form[i] == form[|files|..][i - |files|];
      assert form[i] in MetadataEntries(metadata);
    }
  }

  class PhotoLibrary {
    var photos: seq<Photo>
    var availableYears: seq<int>
    var loading: bool
    var error: Option<string>

    /** The hook's initial state, before the mount effect fetches. */
    constructor ()
      ensures photos == [] && availableYears == [] && !loading && error == None
    {
      photos := [];
      availableYears := [];
      loading := false;
      error := None;
    }

    /** Load the photos (the server applies the optional year filter). A
        failure keeps the old list and records the message. */
    method FetchPhotos(remote: Remote<seq<Photo>>)
      modifies this
      ensures !loading && availableYears == old(availableYears)
      ensures remote.Ok? ==> photos == remote.data && error == None
      ensures !remote.Ok? ==> photos == old(photos) && error == Some(FetchFailure("photos", remote))
    {
      loading := true;
      error := None;
      if remote.Ok? {
        photos := remote.data;
      } else {
        error := Some(FetchFailure("photos", remote));
      }
      loading := false;
    }

    /** Load the list of years. A failure records the message; a success
        leaves the error as it was. */
    method FetchAvailableYears(remote: Remote<seq<int>>)
      modifies this`availableYears, this`error
      ensures remote.Ok? ==> availableYears == remote.data && error == old(error)
      ensures !remote.Ok? ==> availableYears == old(availableYears) && error == Some(FetchFailure("years", remote))
    {
      if remote.Ok? {
        availableYears := remote.data;
      } else {
        error := Some(FetchFailure("years", remote));
      }
    }

    /** Upload files: the request body is built, the server's records are
        appended after the existing photos and the years are refreshed. A
        failure of the upload records the message and rejects with it, the
        list unchanged; a failure of the refresh only records its message. */
    method UploadPhotos(files: seq<File>, metadata: Metadata, remote: Remote<seq<Photo>>, years: Remote<seq<int>>)
      returns (form: seq<FormEntry>, r: Settled<seq<Photo>>)
      modifies this
      ensures loading == old(loading)
      ensures |form| == |files| + |MetadataEntries(metadata)| && form[|files|..] == MetadataEntries(metadata)
      ensures forall i :: 0 <= i < |files| ==> form[i] == FormEntry("photos", FileValue(files[i]))
      ensures remote.Ok? ==>
        r == Resolved(remote.data) && photos == old(photos) + remote.data &&
        (years.Ok? ==> availableYears == years.data && error == None) &&
        (!years.Ok? ==> availableYears == old(availableYears) && error == Some(FetchFailure("years", years)))
      ensures !remote.Ok? ==>
        r == Thrown(FailureMessage(remote, UploadFailed)) && error == Some(r.message) &&
        photos == old(photos) && availableYears == old(availableYears)
    {
      error := None;
      form := BuildUploadForm(files, metadata);
      if !remote.Ok? {
        var message := FailureMessage(remote, UploadFailed);
        error := Some(message);
        return form, Thrown(message);
      }
      photos := photos + remote.data;
      FetchAvailableYears(years);
      r := Resolved(remote.data);
    }

    /** Update a photo's metadata: every photo with the REQUESTED id becomes the
        server's record. A failure records the message and rejects with it. */
    method UpdatePhoto(photoId: PhotoId, remote: Remote<Photo>) returns (r: Settled<Photo>)
      modifies this`photos, this`error
      ensures remote.Ok? ==>
        r == Resolved(remote.data) && error == None &&
        photos == ReplaceKey(old(photos), PhotoKey, photoId, remote.data)
      ensures !remote.Ok? ==>
        r == Thrown(FailureMessage(remote, UpdateFailed)) && error == Some(r.message) && photos == old(photos)
    {
      error := None;
      if !remote.Ok? {
        var message := FailureMessage(remote, UpdateFailed);
        error := Some(message);
        return Thrown(message);
      }
      photos := ReplaceKey(photos, PhotoKey, photoId, remote.data);
      r := Resolved(remote.data);
    }

    /** Delete a photo: every photo with the id goes and the years are
        refreshed. A failure records the message and rejects with it. */
    method DeletePhoto(photoId: PhotoId, remote: Remote<()>, years: Remote<seq<int>>) returns (r: Settled<()>)
      modifies this
      ensures loading == old(loading)
      ensures remote.Ok? ==>
        r == Resolved(()) && photos == RemoveKey(old(photos), PhotoKey, photoId) &&
        (years.Ok? ==> availableYears == years.data && error == None) &&
        (!years.Ok? ==> availableYears == old(availableYears) && error == Some(FetchFailure("years", years)))
      ensures !remote.Ok? ==>
        r == Thrown(FailureMessage(remote, DeleteFailed)) && error == Some(r.message) &&
        photos == old(photos) && availableYears == old(availableYears)
    {
      error := None;
      if !remote.Ok? {
        var message := FailureMessage(remote, DeleteFailed);
        error := Some(message);
        return Thrown(message);
      }
      photos := RemoveKey(photos, PhotoKey, photoId);
      FetchAvailableYears(years);
      r := Resolved(());
    }

    /** The photos whose id is among the given ones, in library order. */
    function PhotosByIds(photoIds: seq<PhotoId>): (r: seq<Photo>)
      reads this
      ensures forall p :: p in r <==> p in photos && p.id in photoIds
      ensures forall p :: multiset(r)[p] == if p.id in photoIds then multiset(photos)[p] else 0
      ensures Subsequence(r, photos)
    {
      KeepKeysInIsSubsequence(photos, PhotoKey, photoIds);
      KeepKeysInCounts(photos, PhotoKey, photoIds);
      KeepKeysIn(photos, PhotoKey, photoIds)
    }
  }
}
