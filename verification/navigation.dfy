/** The navigation stack (PhotoPurge/VM/NavigationPathVM.swift). The main-queue hop of each
    change is modelled as taking effect when the method returns. */
module Navigation {
  import opened Media
  import AssetServiceModel

  datatype Destination =
    | PhotoDelete(assets: Option<seq<Asset>>)
    | Result(summary: AssetServiceModel.DeleteResult)

  class NavigationPathVM {
    var path: seq<Destination>

    constructor()
      ensures path == []
    {
      path := [];
    }

    /** Pushes `destination` on top of the stack; the screens below stay as they were. */
    method NavigateTo(destination: Destination)
      modifies this
      ensures path == old(path) + [destination]
      ensures |path| == |old(path)| + 1 && path[|path| - 1] == destination
    {
      path := path + [destination];
    }

    /** Empties the stack, back to the month picker; doing it twice is the same as once. */
    method PopToRoot()
      modifies this
      ensures path == []
    {
      path := [];
    }
  }
}
