/** The earlier month picker (PhotoPurge/MonthPickerVM.swift): asks for library access,
    fetches only images, and groups them by start of month. */
module LegacyMonthPicker {
  import opened Media
  import opened MonthGrouping

  /** `PHAsset.fetchAssets(with: .image, …)`: the images of the library, in fetch order. */
  function Images(library: seq<Asset>): (images: seq<Asset>)
    ensures |images| == CountOfType(library, Image)
    ensures forall i :: 0 <= i < |images| ==> images[i].mediaType == Image
    ensures forall a :: a in images <==> a in library && a.mediaType == Image
    ensures forall x :: multiset(images)[x] == if x.mediaType == Image then multiset(library)[x] else 0
    decreases |library|
  {
    if library == [] then []
    else
      var a := library[|library| - 1];
      assert library == library[..|library| - 1] + [a];
      Images(library[..|library| - 1]) + (if a.mediaType == Image then [a] else [])
  }

  /** Nothing dated before the last asset of a date-sorted fetch is later than it. */
  predicate NoLaterThan(q: seq<Asset>, a: Asset) {
    forall x :: x in q && Dated(x) && Dated(a) ==> x.creationDate.value <= a.creationDate.value
  }

  lemma SortedAppend(q: seq<Asset>, a: Asset)
    requires SortedByDate(q) && NoLaterThan(q, a)
    ensures SortedByDate(q + [a])
  {
    var s := q + [a];
    forall i, j | 0 <= i < j < |s| && Dated(s[i]) && Dated(s[j])
      ensures s[i].creationDate.value <= s[j].creationDate.value
    {
      if j == |q| {
        assert s[i] in q;
      } else {
        assert s[i] == q[i] && s[j] == q[j];
      }
    }
  }

  lemma LastIsLatest(library: seq<Asset>)
    requires library != [] && SortedByDate(library)
    ensures NoLaterThan(library[..|library| - 1], library[|library| - 1])
  {
    var p := library[..|library| - 1];
    forall x | x in p && Dated(x) && Dated(library[|library| - 1])
      ensures x.creationDate.value <= library[|library| - 1].creationDate.value
    {
      var k :| 0 <= k < |p| && p[k] == x;
      assert library[k] == x;
    }
  }

  /** The image-only fetch keeps the library's ascending creation-date order. */
  lemma {:induction false} ImagesKeepFetchOrder(library: seq<Asset>)
    requires SortedByDate(library)
    ensures SortedByDate(Images(library))
    decreases |library|
  {
    if library != [] {
      var p := library[..|library| - 1];
      var a := library[|library| - 1];
      assert SortedByDate(p) by {
        forall i, j | 0 <= i < j < |p| && Dated(p[i]) && Dated(p[j])
          ensures p[i].creationDate.value <= p[j].creationDate.value
        {
          assert p[i] == library[i] && p[j] == library[j];
        }
      }
      ImagesKeepFetchOrder(p);
      if a.mediaType == Image {
        LastIsLatest(library);
        assert NoLaterThan(Images(p), a);
        SortedAppend(Images(p), a);
      }
    }
  }

  class MonthPickerVM {
    var photoGroups: Buckets
    var isLoading: bool

    constructor()
      ensures photoGroups == map[] && !isLoading
    {
      photoGroups := map[];
      isLoading := false;
    }

    /** Without full access only loading is switched off; with it the groups are replaced
        by the month partition of the library's images. */
    method GetPhotosByMonth(status: AuthorizationStatus, library: seq<Asset>, startOfMonth: Date -> Date)
      modifies this
      ensures !isLoading
      ensures status != Authorized ==> photoGroups == old(photoGroups)
      ensures status == Authorized ==> photoGroups == GroupByMonth(Images(library), startOfMonth)
    {
      isLoading := true;
      if status != Authorized {
        isLoading := false;
        return;
      }
      var assets := Images(library);
      var groupedPhotos: Buckets := map[];
      var i := 0;
      while i < |assets|
        invariant 0 <= i <= |assets|
        invariant groupedPhotos == GroupByMonth(assets[..i], startOfMonth)
      {
        assert assets[..i + 1][..i] == assets[..i];
        var asset := assets[i];
        if asset.creationDate.Some? {
          var monthStart := startOfMonth(asset.creationDate.value);
          groupedPhotos := groupedPhotos[monthStart := (if monthStart in groupedPhotos then groupedPhotos[monthStart] else []) + [asset]];
        }
        i := i + 1;
      }
      assert assets[..|assets|] == assets;
      photoGroups := groupedPhotos;
      isLoading := false;
    }
  }

  /** Every grouped asset is an image of the library created in its bucket's month, so no
      video ever reaches this picker. */
  lemma GroupsHoldOnlyImages(library: seq<Asset>, startOfMonth: Date -> Date)
    ensures forall key, x :: key in GroupByMonth(Images(library), startOfMonth) &&
                             x in GroupByMonth(Images(library), startOfMonth)[key] ==>
              x in library && x.mediaType == Image && Dated(x) && startOfMonth(x.creationDate.value) == key
  {
    var g := GroupByMonth(Images(library), startOfMonth);
    GroupByMonthIsPartition(Images(library), startOfMonth);
    forall key | key in g
      ensures forall x :: x in g[key] ==>
                x in library && x.mediaType == Image && Dated(x) && startOfMonth(x.creationDate.value) == key
    {
      InMonthElements(Images(library), startOfMonth, key);
    }
  }

  /** A fetch in ascending creation-date order gives buckets in ascending creation-date order. */
  lemma GroupsKeepFetchOrder(library: seq<Asset>, startOfMonth: Date -> Date)
    requires SortedByDate(library)
    ensures forall key :: key in GroupByMonth(Images(library), startOfMonth) ==>
              SortedByDate(GroupByMonth(Images(library), startOfMonth)[key])
  {
    var g := GroupByMonth(Images(library), startOfMonth);
    ImagesKeepFetchOrder(library);
    GroupByMonthIsPartition(Images(library), startOfMonth);
    forall key | key in g
      ensures SortedByDate(g[key])
    {
      InMonthSorted(Images(library), startOfMonth, key);
    }
  }

  /** The groups hold exactly the dated images of the library. */
  lemma {:induction false} GroupsCountDatedImages(library: seq<Asset>, startOfMonth: Date -> Date)
    ensures SumBy(GroupByMonth(Images(library), startOfMonth), BucketSize) == CountDated(Images(library))
    ensures CountDated(Images(library)) <= CountOfType(library, Image)
  {
    GroupByMonthTotal(Images(library), startOfMonth);
  }
}
