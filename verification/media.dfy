/** Types shared by the whole model: the assets the Photos library hands out, the
    authorization statuses it reports, and counting over asset lists. */
module Media {

  datatype Option<T> = None | Some(value: T)

  /** A point in time. The calendar that maps it to a month or a year is not modelled:
      every operation that needs one takes it as a function parameter. */
  type Date = int

  /** The media types of a library asset. */
  datatype MediaType = Unknown | Image | Video | Audio

  /** A library asset: an opaque identifier, its media type and its creation date,
      which the library may not know. */
  datatype Asset = Asset(id: nat, mediaType: MediaType, creationDate: Option<Date>)

  /** The authorization statuses the library reports for read-write access. */
  datatype AuthorizationStatus = NotDetermined | Restricted | Denied | Authorized | Limited

  /** Number of assets in `s` whose media type is `t`. */
  function CountOfType(s: seq<Asset>, t: MediaType): (n: nat)
    ensures n <= |s|
    ensures n == 0 <==> forall i :: 0 <= i < |s| ==> s[i].mediaType != t
  {
    if s == [] then 0
    else CountOfType(s[..|s| - 1], t) + (if s[|s| - 1].mediaType == t then 1 else 0)
  }

  /** Images and videos are counted separately, so together they never exceed the list,
      and they fill it exactly when it holds nothing else. */
  lemma {:induction false} ImagesAndVideosWithinList(s: seq<Asset>)
    ensures CountOfType(s, Image) + CountOfType(s, Video) <= |s|
    ensures CountOfType(s, Image) + CountOfType(s, Video) == |s|
            <==> forall i :: 0 <= i < |s| ==> s[i].mediaType == Image || s[i].mediaType == Video
    decreases |s|
  {
    if s != [] {
      var p := s[..|s| - 1];
      ImagesAndVideosWithinList(p);
      if forall i :: 0 <= i < |s| ==> s[i].mediaType == Image || s[i].mediaType == Video {
        assert forall i :: 0 <= i < |p| ==> p[i] == s[i];
      }
    }
  }
}
