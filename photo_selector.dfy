/**
 * The photo picker of the add-ride form (`PhotoSelector`): a local copy of the
 * selected photo ids that clicks toggle, handed back on save, and a year
 * filter over the library's photos.
 */
module PhotoSelector {
  import opened Wrappers
  import opened KeyedLists
  import opened Rides
  import opened Photos

  function Self(id: PhotoId): PhotoId { id }

  /** The selection after clicking a photo: removed (every occurrence) when
      present, appended when absent. */
  function Toggled(ids: seq<PhotoId>, id: PhotoId): (r: seq<PhotoId>)
    ensures id in ids ==> id !in r && forall x :: x != id ==> (x in r <==> x in ids)
    ensures id !in ids ==> r == ids + [id]
  {
    if id in ids then RemoveKey(ids, Self, id) else ids + [id]
  }

  /** A toggle flips the membership of that id and of no other. */
  lemma ToggleFlips(ids: seq<PhotoId>, id: PhotoId, x: PhotoId)
    ensures x in Toggled(ids, id) <==> (if x == id then x !in ids else x in ids)
  {
  }

  /** Apart from the toggled id, the selection and its order are unchanged. */
  lemma ToggleKeepsOthers(ids: seq<PhotoId>, id: PhotoId)
    ensures RemoveKey(Toggled(ids, id), Self, id) == RemoveKey(ids, Self, id)
  {
    if id in ids {
      RemoveKeyIdempotent(ids, Self, id);
    } else {
      RemoveKeyAppend(ids, [id], Self, id);
      RemoveKeySingleton(id, Self, id);
    }
  }

  /** Selecting a photo and then deselecting it gives back the original selection. */
  lemma ToggleTwiceRestores(ids: seq<PhotoId>, id: PhotoId)
    requires id !in ids
    ensures Toggled(Toggled(ids, id), id) == ids
  {
    assert id in ids + [id];
    RemoveKeyAppend(ids, [id], Self, id);
    RemoveKeySingleton(id, Self, id);
    forall i | 0 <= i < |ids| ensures Self(ids[i]) != id { assert ids[i] in ids; }
    RemoveKeyAbsent(ids, Self, id);
  }

  function PhotoYear(p: Photo): int { p.year }

  /** The photos shown: all of them with no year chosen, else those of that year. */
  function YearFilter(photos: seq<Photo>, year: Option<int>): (r: seq<Photo>)
    ensures year.None? ==> r == photos
    ensures year.Some? ==> forall p :: p in r <==> p in photos && p.year == year.value
    ensures year.Some? ==> forall p :: multiset(r)[p] == if p.year == year.value then multiset(photos)[p] else 0
    ensures Subsequence(r, photos)
  {
    if year.None? then
      SubsequenceRefl(photos);
      photos
    else
      KeepKeysInIsSubsequence(photos, PhotoYear, [year.value]);
      KeepKeysInCounts(photos, PhotoYear, [year.value]);
      KeepKeysIn(photos, PhotoYear, [year.value])
  }

  class Selector {
    /** The library's photos, a prop. */
    var photos: seq<Photo>
    /** The chosen year; None for the empty option. */
    var selectedYear: Option<int>
    var filteredPhotos: seq<Photo>
    var localSelectedIds: seq<PhotoId>

    /** The filter effect has run for the current photos and year. */
    ghost predicate Valid()
      reads this
    {
      filteredPhotos == YearFilter(photos, selectedYear)
    }

    constructor (photos: seq<Photo>, selectedPhotoIds: seq<PhotoId>)
      ensures Valid()
      ensures this.photos == photos && selectedYear == None && filteredPhotos == photos
      ensures localSelectedIds == selectedPhotoIds
    {
      this.photos := photos;
      selectedYear := None;
      filteredPhotos := photos;
      localSelectedIds := selectedPhotoIds;
    }

    /** Choose a year in the drop-down; the filter effect follows. */
    method SelectYear(year: Option<int>)
      modifies this`selectedYear, this`filteredPhotos
      ensures Valid() && selectedYear == year
    {
      selectedYear := year;
      filteredPhotos := YearFilter(photos, selectedYear);
    }

    /** New photos arrive from the parent; the filter effect follows. */
    method ReceivePhotos(photos: seq<Photo>)
      modifies this`photos, this`filteredPhotos
      ensures Valid() && this.photos == photos
    {
      this.photos := photos;
      filteredPhotos := YearFilter(this.photos, selectedYear);
    }

    method TogglePhoto(photoId: PhotoId)
      requires Valid()
      modifies this`localSelectedIds
      ensures Valid()
      ensures localSelectedIds == Toggled(old(localSelectedIds), photoId)
    {
      localSelectedIds := Toggled(localSelectedIds, photoId);
    }

    /** The ids handed to `onSelectionChange`. */
    method Save() returns (ids: seq<PhotoId>)
      ensures ids == localSelectedIds
    {
      ids := localSelectedIds;
    }
  }

  /** Opening the picker and saving straight away hands the selection back unchanged. */
  method OpenAndSave(photos: seq<Photo>, selectedPhotoIds: seq<PhotoId>) returns (ids: seq<PhotoId>)
    ensures ids == selectedPhotoIds
  {
    var selector := new Selector(photos, selectedPhotoIds);
    ids := selector.Save();
  }
}
