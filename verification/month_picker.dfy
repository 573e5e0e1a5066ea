/** The month picker's view model (PhotoPurge/VM/MonthPickerVM.swift): asks for library
    access, then groups the whole library by year and by start of month. The granted
    status and the fetch (ascending creation date) are parameters; the calendar is the
    pair `yearOf` / `startOfMonth`. */
module MonthPicker {
  import opened Media
  import opened MonthGrouping

  class MonthPickerVM {
    var isLoading: bool
    var groupedByYear: YearBuckets

    constructor(isLoading: bool, groupedByYear: YearBuckets)
      ensures this.isLoading == isLoading && this.groupedByYear == groupedByYear
    {
      this.isLoading := isLoading;
      this.groupedByYear := groupedByYear;
    }

    /** Without full access only loading is switched off; with it the grouping is replaced
        by the year→month partition of the fetch. */
    method GetPhotosByMonth(status: AuthorizationStatus, library: seq<Asset>,
                            yearOf: Date -> int, startOfMonth: Date -> Date)
      modifies this
      ensures !isLoading
      ensures status != Authorized ==> groupedByYear == old(groupedByYear)
      ensures status == Authorized ==> groupedByYear == GroupByYear(library, yearOf, startOfMonth)
    {
      isLoading := true;
      if status != Authorized {
        isLoading := false;
        return;
      }
      var groupedPhotos: YearBuckets := map[];
      var i := 0;
      while i < |library|
        invariant 0 <= i <= |library|
        invariant groupedPhotos == GroupByYear(library[..i], yearOf, startOfMonth)
      {
        assert library[..i + 1][..i] == library[..i];
        var asset := library[i];
        if asset.creationDate.Some? {
          var creationDate := asset.creationDate.value;
          var monthStart := startOfMonth(creationDate);
          var year := yearOf(creationDate);
          if year !in groupedPhotos {
            groupedPhotos := groupedPhotos[year := map[]];
          }
          var months := groupedPhotos[year];
          groupedPhotos := groupedPhotos[year := months[monthStart := (if monthStart in months then months[monthStart] else []) + [asset]]];
        }
        i := i + 1;
      }
      assert library[..|library|] == library;
      groupedByYear := groupedPhotos;
      isLoading := false;
    }
  }

  /** With a calendar whose start of month stays in the same year, the year level adds no
      information: the bucket of a month under its own year is the month bucket the asset
      service builds, and under any other year the month is absent. */
  lemma {:induction false} YearBucketIsMonthBucket(s: seq<Asset>, yearOf: Date -> int, startOfMonth: Date -> Date,
                                                   year: int, key: Date)
    requires forall d :: yearOf(startOfMonth(d)) == yearOf(d)
    ensures InYearMonth(s, yearOf, startOfMonth, year, key) ==
            if yearOf(key) == year then InMonth(s, startOfMonth, key) else []
    decreases |s|
  {
    if s != [] {
      YearBucketIsMonthBucket(s[..|s| - 1], yearOf, startOfMonth, year, key);
      var a := s[|s| - 1];
      if Dated(a) && startOfMonth(a.creationDate.value) == key {
        assert yearOf(key) == yearOf(a.creationDate.value);
      }
    }
  }
}
