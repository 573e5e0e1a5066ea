/** The review screen's view model (PhotoPurge/VM/PhotoDeleteVM.swift) as a class whose
    fields the methods update in place. Each method is proved to move the state exactly as
    the matching function of ReviewSession does; the deletion step's library answers are
    parameters and its outcome is returned. */
module PhotoDeleteViewModel {
  import opened Media
  import opened DeletionStep
  import RS = ReviewSession

  class PhotoDeleteVM {
    var currentAssetIndex: int
    const assets: Option<seq<Asset>>
    var assetsToDelete: seq<Asset>
    var pastAction: seq<RS.Action>
    var subtitle: string
    var shouldShowUndoButton: bool

    /** The fields as a session value. */
    function State(): RS.Session
      reads this
    {
      RS.Session(assets, currentAssetIndex, pastAction, assetsToDelete, subtitle, shouldShowUndoButton)
    }

    constructor(assets: Option<seq<Asset>>, subtitle: string, shouldShowUndoButton: bool)
      ensures State() == RS.Start(assets, subtitle, shouldShowUndoButton)
    {
      this.currentAssetIndex := -1;
      this.assets := assets;
      this.assetsToDelete := [];
      this.pastAction := [];
      this.subtitle := subtitle;
      this.shouldShowUndoButton := shouldShowUndoButton;
    }

    method KeepPhoto(answer: LibraryAnswer) returns (deletion: Option<DeletionOutcome>)
      requires RS.CanAdvance(State())
      modifies this
      ensures State() == RS.KeepPhoto(old(State()))
      ensures pastAction == old(pastAction) + [RS.Keep] && assetsToDelete == old(assetsToDelete)
      ensures deletion == if RS.RunsDeletionStep(old(State())) then Some(RunDeletion(assetsToDelete, answer)) else None
    {
      pastAction := pastAction + [RS.Keep];
      shouldShowUndoButton := |pastAction| > 0;
      deletion := FetchNewPhotos(answer);
    }

    method DeletePhoto(answer: LibraryAnswer) returns (deletion: Option<DeletionOutcome>)
      requires RS.CanDelete(State())
      modifies this
      ensures State() == RS.DeletePhoto(old(State()))
      ensures pastAction == old(pastAction) + [RS.Delete]
      ensures assetsToDelete == if assets.None? then old(assetsToDelete)
                                else old(assetsToDelete) + [assets.value[old(currentAssetIndex)]]
      ensures deletion == if assets.Some? && RS.RunsDeletionStep(old(State()))
                          then Some(RunDeletion(assetsToDelete, answer)) else None
    {
      pastAction := pastAction + [RS.Delete];
      shouldShowUndoButton := |pastAction| > 0;
      if assets.None? {
        return None;
      }
      assetsToDelete := assetsToDelete + [assets.value[currentAssetIndex]];
      deletion := FetchNewPhotos(answer);
    }

    /** Advances by exactly one when there is a next asset; otherwise runs the deletion step
        and leaves the cursor where it is. */
    method FetchNewPhotos(answer: LibraryAnswer) returns (deletion: Option<DeletionOutcome>)
      requires RS.CanAdvance(State())
      modifies this
      ensures State() == RS.FetchNewPhotos(old(State()))
      ensures currentAssetIndex == old(currentAssetIndex) + (if RS.RunsDeletionStep(old(State())) then 0 else 1)
      ensures deletion == if RS.RunsDeletionStep(old(State())) then Some(RunDeletion(assetsToDelete, answer)) else None
    {
      if RS.HasNextImage(assets, currentAssetIndex) {
        currentAssetIndex := currentAssetIndex + 1;
        FetchAssetAtIndex(currentAssetIndex);
        deletion := None;
      } else {
        var outcome := DeletePhotoFromDevice(answer);
        deletion := Some(outcome);
      }
    }

    /** One position back, whatever the position. */
    method FetchPreviousPhotos()
      requires RS.CanStepBack(State())
      modifies this
      ensures State() == RS.FetchPreviousPhotos(old(State()))
      ensures currentAssetIndex == old(currentAssetIndex) - 1
    {
      currentAssetIndex := currentAssetIndex - 1;
      FetchAssetAtIndex(currentAssetIndex);
    }

    /** The subtitle for `index`; fetching the image or video at `index` and the next image
        go to the library and do not touch this state. */
    method FetchAssetAtIndex(index: int)
      requires RS.AssetFetchInBounds(assets, index) && RS.NextFetchInBounds(assets, index)
      modifies this`subtitle
      ensures State() == RS.SetSubtitle(old(State()), index)
    {
      if assets.Some? {
        subtitle := RS.Subtitle(index, |assets.value|);
      }
    }

    /** Pops the last decision (the empty log is excluded: `removeLast` traps), steps back by
        exactly one whatever the decision was, and for a delete pops the last selected asset. */
    method UndoLatestAction()
      requires |pastAction| > 0 && RS.CanStepBack(State())
      modifies this
      ensures State() == RS.UndoLatestAction(old(State()))
      ensures pastAction == old(pastAction)[..|old(pastAction)| - 1]
      ensures currentAssetIndex == old(currentAssetIndex) - 1
      ensures shouldShowUndoButton == (|pastAction| > 0)
      ensures assetsToDelete == if old(pastAction)[|old(pastAction)| - 1] == RS.Delete && |old(assetsToDelete)| > 0
                                then old(assetsToDelete)[..|old(assetsToDelete)| - 1]
                                else old(assetsToDelete)
    {
      var latestAction := pastAction[|pastAction| - 1];
      pastAction := pastAction[..|pastAction| - 1];
      shouldShowUndoButton := |pastAction| > 0;
      match latestAction
      case Delete => UndoDeletePhoto();
      case Keep => Backtrack();
    }

    method UndoDeletePhoto()
      requires RS.CanStepBack(State())
      modifies this
      ensures currentAssetIndex == old(currentAssetIndex) - 1
      ensures assetsToDelete == if |old(assetsToDelete)| > 0 then old(assetsToDelete)[..|old(assetsToDelete)| - 1]
                                else old(assetsToDelete)
      ensures State() == RS.FetchPreviousPhotos(old(State())).(assetsToDelete := assetsToDelete)
    {
      Backtrack();
      if |assetsToDelete| > 0 {
        assetsToDelete := assetsToDelete[..|assetsToDelete| - 1];
      }
    }

    method Backtrack()
      requires RS.CanStepBack(State())
      modifies this
      ensures State() == RS.FetchPreviousPhotos(old(State()))
    {
      FetchPreviousPhotos();
    }

    /** An empty selection goes straight to the result screen with 0 and never reaches the
        library; a successful deletion reports the number of selected assets; access other
        than authorized, or a failed change request, shows nothing. */
    method DeletePhotoFromDevice(answer: LibraryAnswer) returns (outcome: DeletionOutcome)
      ensures outcome == RunDeletion(assetsToDelete, answer)
      ensures assetsToDelete == [] ==> ResultScreen(outcome) == Some(0) && !LibraryChanged(outcome)
      ensures assetsToDelete != [] && answer.access == Authorized && answer.changesSucceeded
              ==> ResultScreen(outcome) == Some(|assetsToDelete|)
      ensures ResultScreen(outcome).None? <==>
              assetsToDelete != [] && !(answer.access == Authorized && answer.changesSucceeded)
    {
      if |assetsToDelete| == 0 {
        return NothingToDelete;
      }
      if answer.access == Authorized {
        if answer.changesSucceeded {
          outcome := Deleted(|assetsToDelete|);
        } else {
          outcome := DeleteFailed(answer.errorReported);
        }
      } else {
        outcome := AccessDenied;
      }
    }
  }
}
