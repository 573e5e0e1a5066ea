/** The asset service (PhotoPurge/Service/AssetService.swift): the access request, the
    month grouping of the whole library, and deletion with its photo / video / byte
    accounting. Library answers (the authorization status, the fetch result, the outcome
    of the change request and each size lookup) are parameters. */
module AssetServiceModel {
  import opened Media
  import opened MonthGrouping

  /** The error values the service reports. */
  datatype Error =
    | Unspecified              // NSError(domain: "", code: 0)
    | Library(code: int)       // the error the library returned

  /** `Result<Void, Error>` handed to a completion. */
  datatype Completion = Success | Failure(error: Error)

  /** The summary of one deletion. */
  datatype DeleteResult = DeleteResult(photosDeleted: nat, videosDeleted: nat, fileSizeDeleted: nat)

  /** What `performChanges` reports for a delete request. */
  datatype ChangeAnswer = ChangeAnswer(success: bool, error: Option<Error>)

  /** `requestAccess`: the completion it calls, if any, for the status the library grants. */
  function RequestAccess(status: AuthorizationStatus): (callback: Option<Completion>)
    ensures callback == Some(Success) <==> status == Authorized
    ensures callback == Some(Failure(Unspecified)) <==> status == Denied
    ensures callback.None? <==> status !in {Authorized, Denied}
  {
    match status
    case Denied => Some(Failure(Unspecified))
    case Authorized => Some(Success)
    case _ => None
  }

  predicate Measured(a: Asset) {
    a.mediaType == Image || a.mediaType == Video
  }

  /** The bytes the size lookups obtained: images and videos whose lookup answered, each
      counted once; a failed lookup and any other media type add nothing. */
  function ObtainedSize(s: seq<Asset>, sizeOf: Asset -> Option<nat>): nat
    decreases |s|
  {
    if s == [] then 0
    else
      var a := s[|s| - 1];
      ObtainedSize(s[..|s| - 1], sizeOf) + (if Measured(a) && sizeOf(a).Some? then sizeOf(a).value else 0)
  }

  lemma {:induction false} ObtainedSizeAppend(a: seq<Asset>, b: seq<Asset>, sizeOf: Asset -> Option<nat>)
    ensures ObtainedSize(a + b, sizeOf) == ObtainedSize(a, sizeOf) + ObtainedSize(b, sizeOf)
    decreases |b|
  {
    if b == [] {
      assert a + b == a;
    } else {
      assert (a + b)[..|a + b| - 1] == a + b[..|b| - 1];
      ObtainedSizeAppend(a, b[..|b| - 1], sizeOf);
    }
  }

  /** The lookups run concurrently and finish in any order; the total does not depend on
      that order, so adding them up one by one gives the same sum. */
  lemma {:induction false} ObtainedSizePermutation(a: seq<Asset>, b: seq<Asset>, sizeOf: Asset -> Option<nat>)
    requires multiset(a) == multiset(b)
    ensures ObtainedSize(a, sizeOf) == ObtainedSize(b, sizeOf)
    decreases |a|
  {
    if a != [] {
      var x := a[|a| - 1];
      assert x in multiset(b);
      var j :| 0 <= j < |b| && b[j] == x;
      var rest := b[..j] + b[j + 1..];
      assert b == b[..j] + [x] + b[j + 1..];
      assert a == a[..|a| - 1] + [x];
      assert multiset(b) == multiset(b[..j]) + multiset{x} + multiset(b[j + 1..]) by {
        assert b == b[..j] + [x] + b[j + 1..];
      }
      assert multiset(rest) == multiset(b[..j]) + multiset(b[j + 1..]);
      assert multiset(a) == multiset(a[..|a| - 1]) + multiset{x};
      assert multiset(a[..|a| - 1]) == multiset(a) - multiset{x};
      assert multiset(rest) == multiset(b) - multiset{x};
      ObtainedSizePermutation(a[..|a| - 1], rest, sizeOf);
      ObtainedSizeAppend(b[..j] + [x], b[j + 1..], sizeOf);
      ObtainedSizeAppend(b[..j], [x], sizeOf);
      ObtainedSizeAppend(b[..j], b[j + 1..], sizeOf);
      assert ObtainedSize([x], sizeOf) == (if Measured(x) && sizeOf(x).Some? then sizeOf(x).value else 0) by {
        assert [x][..0] == [];
      }
    }
  }

  /** A lookup that fails counts exactly as a lookup that answers zero bytes. */
  lemma {:induction false} FailedLookupCountsAsZero(s: seq<Asset>, sizeOf: Asset -> Option<nat>, orZero: Asset -> Option<nat>)
    requires forall a :: orZero(a) == (if sizeOf(a).Some? then sizeOf(a) else Some(0))
    ensures ObtainedSize(s, sizeOf) == ObtainedSize(s, orZero)
    decreases |s|
  {
    if s != [] {
      FailedLookupCountsAsZero(s[..|s| - 1], sizeOf, orZero);
    }
  }

  class AssetService {
    var isLoading: Option<bool>
    var assetsGroupedByMonth: Option<Buckets>
    var deleteResult: Option<DeleteResult>

    constructor()
      ensures isLoading.None? && assetsGroupedByMonth.None? && deleteResult.None?
    {
      isLoading := None;
      assetsGroupedByMonth := None;
      deleteResult := None;
    }

    /** Groups the creation-date ordered fetch `library` by start of month, replacing any
        earlier grouping, and ends with loading off. */
    method FetchAssets(library: seq<Asset>, startOfMonth: Date -> Date)
      modifies this`isLoading, this`assetsGroupedByMonth
      ensures assetsGroupedByMonth == Some(GroupByMonth(library, startOfMonth))
      ensures isLoading == Some(false)
    {
      isLoading := Some(true);
      var groupedByMonth: Buckets := map[];
      var i := 0;
      while i < |library|
        invariant 0 <= i <= |library|
        invariant groupedByMonth == GroupByMonth(library[..i], startOfMonth)
      {
        var asset := library[i];
        assert library[..i + 1][..i] == library[..i];
        if asset.creationDate.Some? {
          var start := startOfMonth(asset.creationDate.value);
          groupedByMonth := groupedByMonth[start := (if start in groupedByMonth then groupedByMonth[start] else []) + [asset]];
        }
        i := i + 1;
      }
      assert library[..|library|] == library;
      assetsGroupedByMonth := Some(groupedByMonth);
      isLoading := Some(false);
    }

    /** Deletes `assetsToDelete`. An empty list fails at once without a library call and
        leaves `deleteResult` alone. On success the result counts the images and the videos
        of the list and the bytes obtained, then the completion reports success. On failure
        the result is left alone and the completion reports the library's error, or is not
        called when there is none. */
    method DeleteAssets(assetsToDelete: seq<Asset>, answer: ChangeAnswer, sizeOf: Asset -> Option<nat>)
      returns (libraryCalled: bool, callback: Option<Completion>)
      modifies this`deleteResult
      ensures libraryCalled <==> assetsToDelete != []
      ensures assetsToDelete == [] ==> callback == Some(Failure(Unspecified)) && deleteResult == old(deleteResult)
      ensures assetsToDelete != [] && answer.success ==>
                && callback == Some(Success)
                && deleteResult == Some(DeleteResult(CountOfType(assetsToDelete, Image),
                                                     CountOfType(assetsToDelete, Video),
                                                     ObtainedSize(assetsToDelete, sizeOf)))
      ensures assetsToDelete != [] && !answer.success ==>
                && deleteResult == old(deleteResult)
                && callback == (if answer.error.Some? then Some(Failure(answer.error.value)) else None)
    {
      if |assetsToDelete| == 0 {
        return false, Some(Failure(Unspecified));
      }
      libraryCalled := true;
      if answer.success {
        var sizeDeleted := CalculateTotalAssetSize(assetsToDelete, sizeOf);
        var photos := CountMediaType(assetsToDelete, Image);
        var videos := CountMediaType(assetsToDelete, Video);
        deleteResult := Some(DeleteResult(photos, videos, sizeDeleted));
        callback := Some(Success);
      } else if answer.error.Some? {
        callback := Some(Failure(answer.error.value));
      } else {
        callback := None;
      }
    }

    /** `assets.count { $0.mediaType == t }` */
    method CountMediaType(assets: seq<Asset>, t: MediaType) returns (n: nat)
      ensures n == CountOfType(assets, t)
    {
      n := 0;
      var i := 0;
      while i < |assets|
        invariant 0 <= i <= |assets|
        invariant n == CountOfType(assets[..i], t)
      {
        assert assets[..i + 1][..i] == assets[..i];
        if assets[i].mediaType == t {
          n := n + 1;
        }
        i := i + 1;
      }
      assert assets[..|assets|] == assets;
    }

    /** Adds up the sizes of the images and videos of `assets` whose lookup answers; a
        failed lookup adds nothing and never fails the sum. */
    method CalculateTotalAssetSize(assets: seq<Asset>, sizeOf: Asset -> Option<nat>) returns (totalSize: nat)
      ensures totalSize == ObtainedSize(assets, sizeOf)
    {
      totalSize := 0;
      for i := 0 to |assets|
        invariant totalSize == ObtainedSize(assets[..i], sizeOf)
      {
        assert assets[..i + 1][..i] == assets[..i];
        var asset := assets[i];
        if asset.mediaType == Image {
          var data := sizeOf(asset);
          if data.Some? {
            totalSize := totalSize + data.value;
          }
        } else if asset.mediaType == Video {
          var fileSize := sizeOf(asset);
          if fileSize.Some? {
            totalSize := totalSize + fileSize.value;
          }
        }
      }
      assert assets[..|assets|] == assets;
    }
  }
}
