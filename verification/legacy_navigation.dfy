/** The earlier navigation stack (PhotoPurge/NavigationPathVM.swift), whose result screen
    carries no payload. */
module LegacyNavigation {
  import opened Media

  datatype Destination =
    | PhotoDelete(assets: Option<seq<Asset>>)
    | Result

  class NavigationPathVM {
    var path: seq<Destination>

    constructor()
      ensures path == []
    {
      path := [];
    }

    /** Pushes `destination` on top of the stack; the screens below stay as they were. */
    method NavigateTo(destination: Destination)
      modifies this
      ensures path == old(path) + [destination]
      ensures |path| == |old(path)| + 1 && path[|path| - 1] == destination
    {
      path := path + [destination];
    }

    /** Empties the stack. */
    method PopToRoot()
      modifies this
      ensures path == []
    {
      path := [];
    }
  }
}
