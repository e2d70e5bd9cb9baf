/**
 * The upload form of the photo library (`PhotoUpload`): the chosen files and
 * three metadata fields. The upload itself is the callback's outcome, a
 * parameter; the alerts the form shows are returned.
 */
module PhotoUpload {
  import opened Wrappers
  import opened Text
  import opened Api
  import opened KeyedLists
  import opened Photos
  import PhotoStore

  const NotAnImage := "Only image files are allowed!"
  const NothingSelected := "Please select at least one photo to upload."

  predicate IsImage(f: File) { StartsWith(f.mimeType, "image/") }

  /** The files of a selection that are images, in their order. */
  function ImageFiles(files: seq<File>): (r: seq<File>)
    ensures forall f :: f in r <==> f in files && IsImage(f)
    ensures forall f :: multiset(r)[f] == if IsImage(f) then multiset(files)[f] else 0
    ensures Subsequence(r, files)
    ensures |r| == |files| <==> forall i :: 0 <= i < |files| ==> IsImage(files[i])
  {
    assert forall f :: IsImage(f) in [true] <==> IsImage(f);
    KeepKeysInIsSubsequence(files, IsImage, [true]);
    KeepKeysInKeepsAll(files, IsImage, [true]);
    KeepKeysInCounts(files, IsImage, [true]);
    KeepKeysIn(files, IsImage, [true])
  }

  /** The metadata handed to `onUpload`: the date defaults to now when empty. */
  function UploadMetadata(dateTaken: string, description: string, tags: string, now: string): (m: PhotoStore.Metadata)
    ensures m.dateTaken == Some(if dateTaken != "" then dateTaken else now)
    ensures m.description == Some(description) && m.tags == Some(tags)
  {
    PhotoStore.Metadata(Some(if dateTaken != "" then dateTaken else now), Some(description), Some(tags))
  }

  /** The form always sends a date; description and tags only when filled in. */
  lemma UploadSendsDate(dateTaken: string, description: string, tags: string, now: string)
    requires now != ""
    ensures var m := UploadMetadata(dateTaken, description, tags, now);
      PhotoStore.FormEntry("dateTaken", PhotoStore.TextValue(m.dateTaken.value)) in PhotoStore.MetadataEntries(m) &&
      (PhotoStore.FormEntry("description", PhotoStore.TextValue(description)) in PhotoStore.MetadataEntries(m) <==> description != "") &&
      (PhotoStore.FormEntry("tags", PhotoStore.TextValue(tags)) in PhotoStore.MetadataEntries(m) <==> tags != "")
  {
  }

  /** What a press of the upload button did: the call to `onUpload`, if any, and the alert shown. */
  datatype UploadAttempt = UploadAttempt(call: Option<(seq<File>, PhotoStore.Metadata)>, alert: string)

  class UploadForm {
    var selectedFiles: seq<File>
    var dateTaken: string
    var description: string
    var tags: string

    constructor ()
      ensures selectedFiles == [] && dateTaken == "" && description == "" && tags == ""
    {
      selectedFiles := [];
      dateTaken := "";
      description := "";
      tags := "";
    }

    /** Files chosen or dropped: the images are added after the selection;
        the warning is shown exactly when some file was not an image. */
    method SelectFiles(files: seq<File>) returns (warned: bool)
      modifies this`selectedFiles
      ensures selectedFiles == old(selectedFiles) + ImageFiles(files)
      ensures warned <==> exists i :: 0 <= i < |files| && !IsImage(files[i])
    {
      var imageFiles := ImageFiles(files);
      warned := |imageFiles| != |files|;
      selectedFiles := selectedFiles + imageFiles;
    }

    /** The remove button of the file at `index`. */
    method RemoveFile(index: int)
      modifies this`selectedFiles
      ensures 0 <= index < |old(selectedFiles)| ==>
        selectedFiles == old(selectedFiles)[..index] + old(selectedFiles)[index + 1..]
      ensures !(0 <= index < |old(selectedFiles)|) ==> selectedFiles == old(selectedFiles)
    {
      if 0 <= index < |selectedFiles| {
        DropIndexInRange(selectedFiles, index);
      } else {
        DropIndexOutOfRange(selectedFiles, index);
      }
      selectedFiles := DropIndex(selectedFiles, index);
    }

    /** The upload button, with `now` the ISO time and `outcome` how `onUpload` settled. */
    method Upload(now: string, outcome: Settled<()>) returns (attempt: UploadAttempt)
      modifies this
      ensures old(selectedFiles) == [] ==>
        attempt == UploadAttempt(None, NothingSelected) &&
        selectedFiles == [] && dateTaken == old(dateTaken) && description == old(description) && tags == old(tags)
      ensures old(selectedFiles) != [] ==>
        attempt.call == Some((old(selectedFiles), UploadMetadata(old(dateTaken), old(description), old(tags), now)))
      ensures old(selectedFiles) != [] && outcome.Resolved? ==>
        attempt.alert == "Successfully uploaded " + NatToString(|old(selectedFiles)|) + " photo(s)!" &&
        selectedFiles == [] && dateTaken == "" && description == "" && tags == ""
      ensures old(selectedFiles) != [] && outcome.Thrown? ==>
        attempt.alert == "Upload failed: " + outcome.message &&
        selectedFiles == old(selectedFiles) && dateTaken == old(dateTaken) &&
        description == old(description) && tags == old(tags)
    {
      if |selectedFiles| == 0 {
        return UploadAttempt(None, NothingSelected);
      }
      var metadata := UploadMetadata(dateTaken, description, tags, now);
      var call := Some((selectedFiles, metadata));
      if outcome.Resolved? {
        var count := |selectedFiles|;
        selectedFiles := [];
        dateTaken := "";
        description := "";
        tags := "";
        attempt := UploadAttempt(call, "Successfully uploaded " + NatToString(count) + " photo(s)!");
      } else {
        attempt := UploadAttempt(call, "Upload failed: " + outcome.message);
      }
    }
  }
}
