/** The step both review sessions run when no asset is left to show: delete the selected
    assets from the library, then move to the result screen. The library's answers (the
    read-write authorization level and the outcome of the change request) are inputs. */
module DeletionStep {
  import opened Media

  /** What the library answers when the session asks it to delete. */
  datatype LibraryAnswer = LibraryAnswer(access: AuthorizationStatus, changesSucceeded: bool, errorReported: bool)

  /** What the deletion step did. */
  datatype DeletionOutcome =
    | NothingToDelete          // empty selection: straight to the result screen, no library call
    | AccessDenied             // authorization other than authorized: nothing visible happens
    | Deleted(count: nat)      // change request succeeded: result screen
    | DeleteFailed(logged: bool) // change request failed: nothing visible happens; the error is logged when there is one

  function RunDeletion(toDelete: seq<Asset>, answer: LibraryAnswer): (r: DeletionOutcome)
    ensures r == NothingToDelete <==> toDelete == []
    ensures r.Deleted? <==> toDelete != [] && answer.access == Authorized && answer.changesSucceeded
    ensures r.Deleted? ==> r.count == |toDelete|
    ensures LibraryChanged(r) <==> toDelete != [] && answer.access == Authorized
  {
    if toDelete == [] then NothingToDelete
    else if answer.access != Authorized then AccessDenied
    else if answer.changesSucceeded then Deleted(|toDelete|)
    else DeleteFailed(answer.errorReported)
  }

  /** Whether a change request was submitted to the library. */
  predicate LibraryChanged(r: DeletionOutcome) {
    r.Deleted? || r.DeleteFailed?
  }

  /** The count the newer session navigates to the result screen with, if it navigates at all. */
  function ResultScreen(r: DeletionOutcome): (n: Option<nat>)
    ensures n.Some? <==> r.NothingToDelete? || r.Deleted?
    ensures r.NothingToDelete? ==> n == Some(0)
    ensures r.Deleted? ==> n == Some(r.count)
  {
    match r
    case NothingToDelete => Some(0)
    case Deleted(count) => Some(count)
    case _ => None
  }
}
