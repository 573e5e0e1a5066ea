/** The review session of PhotoPurge/VM/PhotoDeleteVM.swift as a state machine over values:
    a cursor into the month's assets, the log of past keep/delete decisions and the assets
    selected for deletion. The class in photo_delete_vm.dfy is the model of the view model
    itself; the functions here are its specification: each maps the session before an
    operation to the session after, each method of the class is proved to follow its
    function, and the lemmas about whole sequences of decisions are stated on them. Fetching the
    image or video for a position goes to the Photos library and does not touch this state:
    only its index arithmetic (the subtitle and the array reads that can trap) is kept. */
module ReviewSession {
  import opened Media
  import Text

  /** One past decision (`LatestAction`). */
  datatype Action = Keep | Delete

  datatype Session = Session(
    assets: Option<seq<Asset>>,
    currentAssetIndex: int,
    pastAction: seq<Action>,
    assetsToDelete: seq<Asset>,
    subtitle: string,
    shouldShowUndoButton: bool)

  /** A fresh session: nothing shown yet (index −1), nothing decided. */
  function Start(assets: Option<seq<Asset>>, subtitle: string, shouldShowUndoButton: bool): Session {
    Session(assets, -1, [], [], subtitle, shouldShowUndoButton)
  }

  predicate HasNextImage(assets: Option<seq<Asset>>, index: int) {
    assets.Some? && index + 1 < |assets.value|
  }

  /** The "i of n" progress label for the asset at `index`. */
  function Subtitle(index: int, count: nat): string {
    Text.IntToString(index + 1) + " of " + Text.IntToString(count)
  }

  lemma SeparatorAfterPosition(position: string, count: nat)
    ensures (position + " of " + Text.IntToString(count))[|position|] == ' '
  {
  }

  /** The label names its position and count unambiguously. */
  lemma SubtitleInjective(i: int, n: nat, j: int, m: nat)
    requires Subtitle(i, n) == Subtitle(j, m)
    ensures i == j && n == m
  {
    var a, b := Text.IntToString(i + 1), Text.IntToString(j + 1);
    var s := Subtitle(i, n);
    if |a| < |b| {
      SeparatorAfterPosition(a, n);
      assert false;
    } else if |b| < |a| {
      SeparatorAfterPosition(b, m);
      assert false;
    }
    assert a == s[..|a|] == b;
    Text.IntToStringInjective(i + 1, j + 1);
    assert Text.IntToString(n) == s[|a| + 4..] == Text.IntToString(m);
    Text.IntToStringInjective(n, m);
  }

  /** `setSubtitle`: nothing happens without an asset list. */
  function SetSubtitle(s: Session, index: int): Session {
    if s.assets.None? then s else s.(subtitle := Subtitle(index, |s.assets.value|))
  }

  /** `fetchAssetAtIndex` reads `assets[index]` once `index < count`; a negative index traps there. */
  predicate AssetFetchInBounds(assets: Option<seq<Asset>>, index: int) {
    assets.Some? && index < |assets.value| ==> 0 <= index
  }

  /** `fetchNextAsset` reads `assets[index + 1]` once there is a next image. */
  predicate NextFetchInBounds(assets: Option<seq<Asset>>, index: int) {
    HasNextImage(assets, index) ==> 0 <= index + 1
  }

  /** Positioning the session on `index`: the two fetches plus the subtitle. */
  function ShowAt(s: Session, index: int): Session
    requires AssetFetchInBounds(s.assets, index) && NextFetchInBounds(s.assets, index)
  {
    SetSubtitle(s.(currentAssetIndex := index), index)
  }

  predicate CanAdvance(s: Session) {
    HasNextImage(s.assets, s.currentAssetIndex) ==> -1 <= s.currentAssetIndex
  }

  /** `fetchNewPhotos`: show the next asset when there is one. Otherwise the deletion step runs
      (see RunsDeletionStep), which leaves this state alone. */
  function FetchNewPhotos(s: Session): Session
    requires CanAdvance(s)
  {
    if HasNextImage(s.assets, s.currentAssetIndex) then ShowAt(s, s.currentAssetIndex + 1) else s
  }

  predicate RunsDeletionStep(s: Session) {
    !HasNextImage(s.assets, s.currentAssetIndex)
  }

  /** Appending to `pastAction`; its observer then shows the undo button. */
  function Record(s: Session, a: Action): Session {
    s.(pastAction := s.pastAction + [a], shouldShowUndoButton := true)
  }

  function KeepPhoto(s: Session): Session
    requires CanAdvance(s)
  {
    FetchNewPhotos(Record(s, Keep))
  }

  /** `deletePhoto` reads `assets[currentAssetIndex]`, which traps outside the list. */
  predicate CanDelete(s: Session) {
    s.assets.Some? ==> 0 <= s.currentAssetIndex < |s.assets.value|
  }

  /** `deletePhoto`: the decision is logged first; without an asset list nothing else happens. */
  function DeletePhoto(s: Session): Session
    requires CanDelete(s)
  {
    var logged := Record(s, Delete);
    if s.assets.None? then logged
    else FetchNewPhotos(logged.(assetsToDelete := logged.assetsToDelete + [s.assets.value[s.currentAssetIndex]]))
  }

  predicate CanStepBack(s: Session) {
    AssetFetchInBounds(s.assets, s.currentAssetIndex - 1) && NextFetchInBounds(s.assets, s.currentAssetIndex - 1)
  }

  /** `fetchPreviousPhotos` (also `backtrack`): one position back, whatever the position. */
  function FetchPreviousPhotos(s: Session): Session
    requires CanStepBack(s)
  {
    ShowAt(s, s.currentAssetIndex - 1)
  }

  /** `undoLatestAction` as written: pop the log (`removeLast` traps on an empty log), step the
      cursor back by one, and for a delete also pop the last selected asset when there is one. */
  function UndoLatestAction(s: Session): Session
    requires |s.pastAction| > 0 && CanStepBack(s)
  {
    var k := |s.pastAction| - 1;
    var back := FetchPreviousPhotos(s.(pastAction := s.pastAction[..k], shouldShowUndoButton := k > 0));
    if s.pastAction[k] == Delete && |back.assetsToDelete| > 0
    then back.(assetsToDelete := back.assetsToDelete[..|back.assetsToDelete| - 1])
    else back
  }

  /** Undo as evidently intended: go back to the position of the undone decision, which is
      one step back except after the final decision, where the cursor never moved. */
  function UndoLatestActionCorrected(s: Session): Session
    requires |s.pastAction| > 0
  {
    var k := |s.pastAction| - 1;
    var back := ShowAt(s.(pastAction := s.pastAction[..k], shouldShowUndoButton := k > 0), k);
    if s.pastAction[k] == Delete && |back.assetsToDelete| > 0
    then back.(assetsToDelete := back.assetsToDelete[..|back.assetsToDelete| - 1])
    else back
  }

  function Decide(s: Session, a: Action): Session
    requires CanAdvance(s) && (a == Delete ==> CanDelete(s))
  {
    match a
    case Keep => KeepPhoto(s)
    case Delete => DeletePhoto(s)
  }

  /** The assets at the delete-tagged positions of `actions`, in order. */
  function Selected(assets: seq<Asset>, actions: seq<Action>): seq<Asset>
    requires |actions| <= |assets|
    decreases |actions|
  {
    if actions == [] then []
    else
      var k := |actions| - 1;
      Selected(assets, actions[..k]) + (if actions[k] == Delete then [assets[k]] else [])
  }

  /** What the session over `assets` looks like once `actions` have been decided. */
  predicate Tracks(s: Session, assets: seq<Asset>, actions: seq<Action>)
    requires |actions| <= |assets|
  {
    && s.assets == Some(assets) && s.pastAction == actions
    && s.assetsToDelete == Selected(assets, actions)
    && s.currentAssetIndex == (if |actions| < |assets| then |actions| else |assets| - 1)
    && s.subtitle == (if assets == [] then "" else Subtitle(s.currentAssetIndex, |assets|))
    && s.shouldShowUndoButton == (actions != [])
  }

  /** One more decision keeps the session tracking the decisions: a session that tracks all
      of `actions` but the last allows that last keep or delete, and deciding it tracks all. */
  lemma DecideTracks(s: Session, assets: seq<Asset>, actions: seq<Action>)
    requires 0 < |actions| <= |assets| && Tracks(s, assets, actions[..|actions| - 1])
    ensures CanAdvance(s) && CanDelete(s)
    ensures Tracks(Decide(s, actions[|actions| - 1]), assets, actions)
  {
    if actions[|actions| - 1] == Keep {
      KeepTracks(s, assets, actions);
    } else {
      DeleteTracks(s, assets, actions);
    }
  }

  /** `keepPhoto` before the last asset: logged, nothing selected, the cursor moves on. */
  lemma KeepTracks(s: Session, assets: seq<Asset>, actions: seq<Action>)
    requires 0 < |actions| <= |assets| && actions[|actions| - 1] == Keep
    requires Tracks(s, assets, actions[..|actions| - 1])
    ensures CanAdvance(s) && Tracks(KeepPhoto(s), assets, actions)
  {
    var k := |actions| - 1;
    assert actions[..k] + [Keep] == actions;
    assert Selected(assets, actions) == Selected(assets, actions[..k]);
  }

  /** `deletePhoto` before the last asset: logged, the shown asset selected, the cursor moves on. */
  lemma DeleteTracks(s: Session, assets: seq<Asset>, actions: seq<Action>)
    requires 0 < |actions| <= |assets| && actions[|actions| - 1] == Delete
    requires Tracks(s, assets, actions[..|actions| - 1])
    ensures CanAdvance(s) && CanDelete(s) && Tracks(DeletePhoto(s), assets, actions)
  {
    var k := |actions| - 1;
    assert actions[..k] + [Delete] == actions;
    assert Selected(assets, actions) == Selected(assets, actions[..k]) + [assets[k]];
  }

  /** The view's initial `fetchNewPhotos` on a fresh session tracks no decisions. */
  lemma StartTracks(assets: seq<Asset>)
    ensures CanAdvance(Start(Some(assets), "", false))
    ensures Tracks(FetchNewPhotos(Start(Some(assets), "", false)), assets, [])
  {
  }

  /** The session over `assets` after the view's initial `fetchNewPhotos` and then one
      keep/delete per element of `actions`. The cursor equals the number of decisions, except
      that the final decision leaves it on the last asset; the log is exactly the decisions;
      the deletion list is exactly the delete-tagged assets, in order. */
  function AfterDecisions(assets: seq<Asset>, actions: seq<Action>): (s: Session)
    requires |actions| <= |assets|
    ensures Tracks(s, assets, actions)
    decreases |actions|
  {
    if actions == [] then
      StartTracks(assets);
      FetchNewPhotos(Start(Some(assets), "", false))
    else
      var k := |actions| - 1;
      var before := AfterDecisions(assets, actions[..k]);
      DecideTracks(before, assets, actions);
      Decide(before, actions[k])
  }

  /** The deletion step runs on the final decision and on no earlier one. */
  lemma DeletionStepOnLastDecisionOnly(assets: seq<Asset>, actions: seq<Action>)
    requires |actions| < |assets|
    ensures RunsDeletionStep(AfterDecisions(assets, actions)) <==> |actions| + 1 == |assets|
  {
  }

  function CountDeletes(actions: seq<Action>): nat {
    if actions == [] then 0
    else CountDeletes(actions[..|actions| - 1]) + (if actions[|actions| - 1] == Delete then 1 else 0)
  }

  /** The deletion list holds one asset per delete decision, and an asset is in it exactly
      when some delete decision was made at a position holding it. */
  lemma {:induction false} SelectedIsDeleteTagged(assets: seq<Asset>, actions: seq<Action>)
    requires |actions| <= |assets|
    ensures |Selected(assets, actions)| == CountDeletes(actions)
    ensures forall x :: x in Selected(assets, actions) <==>
              exists i :: 0 <= i < |actions| && actions[i] == Delete && assets[i] == x
    decreases |actions|
  {
    if actions != [] {
      var k := |actions| - 1;
      var p := actions[..k];
      SelectedIsDeleteTagged(assets, p);
      forall x
        ensures x in Selected(assets, actions) <==>
                exists i :: 0 <= i < |actions| && actions[i] == Delete && assets[i] == x
      {
        if x in Selected(assets, p) {
          var i :| 0 <= i < |p| && p[i] == Delete && assets[i] == x;
          assert actions[i] == Delete;
        }
        if exists i :: 0 <= i < |actions| && actions[i] == Delete && assets[i] == x {
          var i :| 0 <= i < |actions| && actions[i] == Delete && assets[i] == x;
          if i < k {
            assert p[i] == Delete;
          }
        }
      }
    }
  }

  /** Away from the final decision, undo restores the session exactly as it was before the
      decision: delete followed by undo gives the deletion list back, keep followed by undo
      leaves it alone, and the cursor returns to the undone decision's position. */
  lemma UndoRestoresBeforeLastAsset(assets: seq<Asset>, actions: seq<Action>, a: Action)
    requires |actions| + 1 < |assets|
    ensures CanStepBack(AfterDecisions(assets, actions + [a]))
    ensures UndoLatestAction(AfterDecisions(assets, actions + [a])) == AfterDecisions(assets, actions)
  {
    UndoTracks(AfterDecisions(assets, actions + [a]), assets, actions, a);
    TracksDetermines(UndoLatestAction(AfterDecisions(assets, actions + [a])), AfterDecisions(assets, actions), assets, actions);
  }

  /** Before the last asset, undo takes a session tracking one more decision back to one
      tracking the decisions before it. */
  lemma UndoTracks(s: Session, assets: seq<Asset>, actions: seq<Action>, a: Action)
    requires |actions| + 1 < |assets| && Tracks(s, assets, actions + [a])
    ensures CanStepBack(s) && Tracks(UndoLatestAction(s), assets, actions)
  {
    assert (actions + [a])[..|actions|] == actions;
  }

  /** The decisions fix the whole session. */
  lemma TracksDetermines(s: Session, t: Session, assets: seq<Asset>, actions: seq<Action>)
    requires |actions| <= |assets| && Tracks(s, assets, actions) && Tracks(t, assets, actions)
    ensures s == t
  {
  }

  /** As written, undoing the final decision moves the cursor back although that decision
      never moved it forward: the session then shows the asset before the one whose decision
      was undone, and no longer matches the state before that decision. */
  lemma UndoOfFinalDecisionMisplacesCursor(assets: seq<Asset>, actions: seq<Action>, a: Action)
    requires |actions| + 1 == |assets| && |assets| >= 2
    ensures CanStepBack(AfterDecisions(assets, actions + [a]))
    ensures UndoLatestAction(AfterDecisions(assets, actions + [a])).currentAssetIndex == |actions| - 1
    ensures |UndoLatestAction(AfterDecisions(assets, actions + [a])).pastAction| == |actions|
    ensures UndoLatestAction(AfterDecisions(assets, actions + [a])) != AfterDecisions(assets, actions)
  {
    assert (actions + [a])[..|actions|] == actions;
  }

  /** As written, undoing the keep on the second of two assets after a delete on the first
      puts the cursor back on the first asset, with its delete still logged and selected. */
  lemma UndoOfFinalKeepShowsFirstAsset(a: Asset, b: Asset)
    ensures CanStepBack(AfterDecisions([a, b], [Delete, Keep]))
    ensures var u := UndoLatestAction(AfterDecisions([a, b], [Delete, Keep]));
            u.assets == Some([a, b]) && u.currentAssetIndex == 0 && u.pastAction == [Delete] && u.assetsToDelete == [a]
  {
    var actions := [Delete, Keep];
    assert actions[..1] == [Delete];
    assert [Delete][..0] == [];
    assert Selected([a, b], [Delete]) == [a];
    assert Selected([a, b], actions) == [a];
  }

  /** As written, after undoing the final decision of two the session shows the first asset
      again, whose decision is still logged: deciding it again logs a second decision for it
      and none for the second asset, and a delete selects it twice. */
  lemma UndoOfFinalDecisionRedecidesEarlierAsset(a: Asset, b: Asset)
    ensures CanStepBack(AfterDecisions([a, b], [Delete, Keep]))
    ensures CanDelete(UndoLatestAction(AfterDecisions([a, b], [Delete, Keep])))
    ensures var d := DeletePhoto(UndoLatestAction(AfterDecisions([a, b], [Delete, Keep])));
            d.pastAction == [Delete, Delete] && d.assetsToDelete == [a, a] && d.currentAssetIndex == 1
  {
    UndoOfFinalKeepShowsFirstAsset(a, b);
    var u := UndoLatestAction(AfterDecisions([a, b], [Delete, Keep]));
    assert [Delete] + [Delete] == [Delete, Delete];
    assert [a] + [a] == [a, a];
    assert HasNextImage(u.assets, 0);
  }

  /** As written, with a single asset, undoing its decision steps back to index −1, and
      `fetchAssetAtIndex(-1)` passes its `index < count` guard and reads `assets[-1]`. */
  lemma UndoOfOnlyDecisionReadsIndexMinusOne(asset: Asset, a: Action)
    ensures AfterDecisions([asset], [a]).currentAssetIndex == 0
    ensures !CanStepBack(AfterDecisions([asset], [a]))
  {
  }

  /** The corrected undo restores the session before the decision for every decision,
      the final one included. */
  lemma UndoCorrectedRestores(assets: seq<Asset>, actions: seq<Action>, a: Action)
    requires |actions| < |assets|
    ensures UndoLatestActionCorrected(AfterDecisions(assets, actions + [a])) == AfterDecisions(assets, actions)
  {
    assert (actions + [a])[..|actions|] == actions;
  }

  /** While the cursor is on the next undecided position, the corrected undo is the written one. */
  lemma UndoCorrectedAgreesBeforeLastAsset(s: Session)
    requires |s.pastAction| > 0 && s.currentAssetIndex == |s.pastAction|
    ensures CanStepBack(s)
    ensures UndoLatestActionCorrected(s) == UndoLatestAction(s)
  {
  }
}
