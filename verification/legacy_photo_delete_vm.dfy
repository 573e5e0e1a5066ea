/** The earlier review screen's view model (PhotoPurge/PhotoDeleteVM.swift): a cursor, the
    assets selected for deletion and the subtitle, with no decision log and no undo. */
module LegacyReviewSession {
  import opened Media
  import opened DeletionStep
  import RS = ReviewSession

  class PhotoDeleteVM {
    var currentPhotoIndex: int
    const photoAssets: Option<seq<Asset>>
    var photoAssetsToDelete: seq<Asset>
    var subtitle: string

    /** The cursor is −1 (nothing shown yet) or the index of an asset of the list. */
    ghost predicate Valid()
      reads this
    {
      && -1 <= currentPhotoIndex
      && (0 <= currentPhotoIndex ==> photoAssets.Some? && currentPhotoIndex < |photoAssets.value|)
    }

    constructor(photoAssets: Option<seq<Asset>>)
      ensures Valid()
      ensures this.photoAssets == photoAssets && currentPhotoIndex == -1
      ensures photoAssetsToDelete == [] && subtitle == ""
    {
      this.currentPhotoIndex := -1;
      this.photoAssets := photoAssets;
      this.photoAssetsToDelete := [];
      this.subtitle := "";
    }

    predicate HasNextImage()
      reads this
    {
      photoAssets.Some? && currentPhotoIndex + 1 < |photoAssets.value|
    }

    /** The first advance, run when the screen appears. */
    method FetchPhotoInMonth(answer: LibraryAnswer) returns (deletion: Option<DeletionOutcome>)
      requires Valid()
      modifies this
      ensures Valid()
      ensures photoAssets.None? ==> deletion.None? && unchanged(this)
      ensures old(HasNextImage()) ==>
                && currentPhotoIndex == old(currentPhotoIndex) + 1
                && subtitle == RS.Subtitle(currentPhotoIndex, |photoAssets.value|)
                && deletion.None?
      ensures photoAssets.Some? && !old(HasNextImage()) ==>
                && currentPhotoIndex == old(currentPhotoIndex) && subtitle == old(subtitle)
                && deletion == Some(RunDeletion(photoAssetsToDelete, answer))
      ensures photoAssetsToDelete == old(photoAssetsToDelete)
    {
      if photoAssets.None? {
        return None;
      }
      deletion := FetchNewPhotos(answer);
    }

    /** Advances by exactly one and relabels when there is a next asset; otherwise runs the
        deletion step with the cursor left in place; without an asset list does nothing. */
    method FetchNewPhotos(answer: LibraryAnswer) returns (deletion: Option<DeletionOutcome>)
      requires Valid()
      modifies this
      ensures Valid()
      ensures photoAssets.None? ==> deletion.None? && unchanged(this)
      ensures old(HasNextImage()) ==>
                && currentPhotoIndex == old(currentPhotoIndex) + 1
                && subtitle == RS.Subtitle(currentPhotoIndex, |photoAssets.value|)
                && deletion.None?
      ensures photoAssets.Some? && !old(HasNextImage()) ==>
                && currentPhotoIndex == old(currentPhotoIndex) && subtitle == old(subtitle)
                && deletion == Some(RunDeletion(photoAssetsToDelete, answer))
      ensures photoAssetsToDelete == old(photoAssetsToDelete)
    {
      if photoAssets.None? {
        return None;
      }
      if HasNextImage() {
        currentPhotoIndex := currentPhotoIndex + 1;
        subtitle := RS.Subtitle(currentPhotoIndex, |photoAssets.value|);
        var current := FetchPhotosAtIndex(currentPhotoIndex);
        if HasNextImage() {
          var next := FetchPhotosAtIndex(currentPhotoIndex + 1);
        }
        deletion := None;
      } else {
        var outcome := DeletePhotoFromDevice(answer);
        deletion := Some(outcome);
      }
    }

    /** The asset whose image is requested for `index`: none without a list or past its end.
        A negative index inside the list traps. */
    method FetchPhotosAtIndex(index: int) returns (asset: Option<Asset>)
      requires photoAssets.Some? && index < |photoAssets.value| ==> 0 <= index
      ensures asset.None? <==> photoAssets.None? || index >= |photoAssets.value|
      ensures asset.Some? ==> asset.value == photoAssets.value[index]
    {
      if photoAssets.None? {
        return None;
      }
      if index >= |photoAssets.value| {
        return None;
      }
      asset := Some(photoAssets.value[index]);
    }

    method KeepPhoto(answer: LibraryAnswer) returns (deletion: Option<DeletionOutcome>)
      requires Valid()
      modifies this
      ensures Valid()
      ensures photoAssetsToDelete == old(photoAssetsToDelete)
      ensures currentPhotoIndex == old(currentPhotoIndex) + (if old(HasNextImage()) then 1 else 0)
      ensures old(HasNextImage()) ==> subtitle == RS.Subtitle(currentPhotoIndex, |photoAssets.value|)
      ensures !old(HasNextImage()) ==> subtitle == old(subtitle)
      ensures deletion.Some? <==> photoAssets.Some? && !old(HasNextImage())
      ensures deletion.Some? ==> deletion == Some(RunDeletion(photoAssetsToDelete, answer))
    {
      deletion := FetchNewPhotos(answer);
    }

    /** Selects the shown asset (reading it traps while nothing is shown), then advances.
        The selection only ever grows, in decision order. */
    method DeletePhoto(answer: LibraryAnswer) returns (deletion: Option<DeletionOutcome>)
      requires Valid()
      requires photoAssets.Some? ==> 0 <= currentPhotoIndex
      modifies this
      ensures Valid()
      ensures photoAssets.None? ==> deletion.None? && unchanged(this)
      ensures photoAssets.Some? ==>
                photoAssetsToDelete == old(photoAssetsToDelete) + [photoAssets.value[old(currentPhotoIndex)]]
      ensures old(photoAssetsToDelete) <= photoAssetsToDelete
      ensures currentPhotoIndex == old(currentPhotoIndex) + (if old(HasNextImage()) then 1 else 0)
      ensures old(HasNextImage()) ==> subtitle == RS.Subtitle(currentPhotoIndex, |photoAssets.value|)
      ensures !old(HasNextImage()) ==> subtitle == old(subtitle)
      ensures deletion.Some? <==> photoAssets.Some? && !old(HasNextImage())
      ensures deletion.Some? ==> deletion == Some(RunDeletion(photoAssetsToDelete, answer))
    {
      if photoAssets.None? {
        return None;
      }
      photoAssetsToDelete := photoAssetsToDelete + [photoAssets.value[currentPhotoIndex]];
      deletion := FetchNewPhotos(answer);
    }

    /** Goes to the result screen at once on an empty selection, without the library;
        otherwise only after the library reports success. */
    method DeletePhotoFromDevice(answer: LibraryAnswer) returns (outcome: DeletionOutcome)
      ensures outcome == RunDeletion(photoAssetsToDelete, answer)
      ensures photoAssetsToDelete == [] ==> outcome == NothingToDelete && !LibraryChanged(outcome)
      ensures NavigatesToResult(outcome) <==>
              photoAssetsToDelete == [] || (answer.access == Authorized && answer.changesSucceeded)
    {
      if |photoAssetsToDelete| == 0 {
        return NothingToDelete;
      }
      if answer.access == Authorized {
        if answer.changesSucceeded {
          outcome := Deleted(|photoAssetsToDelete|);
        } else {
          outcome := DeleteFailed(answer.errorReported);
        }
      } else {
        outcome := AccessDenied;
      }
    }
  }

  /** This version navigates to a result screen that carries no count. */
  predicate NavigatesToResult(r: DeletionOutcome) {
    r.NothingToDelete? || r.Deleted?
  }
}
