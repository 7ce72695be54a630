/**
 * getYearData: the region's rows for one year, sorted by age key with a
 * stable sort and then reversed, so that the oldest bracket comes first.
 */
module YearSelection {
  import opened Wrappers
  import opened AgeLabels
  import opened Sequences
  import opened Records

  /** A row whose age label has a numeric key. */
  predicate WellFormed(x: PopRecord) { AgeKey(x.age).Some? }

  predicate AllWellFormed(s: seq<PopRecord>) { forall x :: x in s ==> WellFormed(x) }

  /**
   * The iteratee given to `_.sortBy`. Only rows with well-formed labels are
   * ever sorted, so the fallback 0 is never used.
   */
  function Key(x: PopRecord): (k: int)
    ensures k >= 0
    ensures WellFormed(x) ==> AgeKey(x.age) == Some(k)
  {
    match AgeKey(x.age)
    case Some(k) => k
    case None => 0
  }

  predicate Descending(s: seq<PopRecord>)
  {
    forall i, j :: 0 <= i < j < |s| ==> Key(s[i]) >= Key(s[j])
  }

  function InYear(year: int): PopRecord -> bool
  {
    (x: PopRecord) => x.year == year
  }

  /** getYearData: the rows of `filtered` for `year`, sorted by age key and reversed. */
  function YearData(filtered: seq<PopRecord>, year: int): (r: seq<PopRecord>)
    requires forall x :: x in filtered && x.year == year ==> WellFormed(x)
    ensures |r| <= |filtered|
  {
    var kept := Filter(filtered, InYear(year));
    var sorted := SortBy(kept, Key);
    assert |sorted| == |multiset(sorted)| == |multiset(kept)| == |kept|;
    Reverse(sorted)
  }

  /**
   * The year's rows are exactly the rows of `filtered` for that year, as many
   * times as they occur there; no match gives no rows.
   */
  lemma YearDataRows(filtered: seq<PopRecord>, year: int)
    requires forall x :: x in filtered && x.year == year ==> WellFormed(x)
    ensures var r := YearData(filtered, year);
      && multiset(r) == multiset(Filter(filtered, InYear(year)))
      && (forall x :: x in r <==> x in filtered && x.year == year)
      && ((forall x :: x in filtered ==> x.year != year) ==> r == [])
  {
    var kept := Filter(filtered, InYear(year));
    FilterContents(filtered, InYear(year));
    var sorted := SortBy(kept, Key);
    ReversePermutes(sorted);
    SameElements(Reverse(sorted), kept);
  }

  /** The year's rows all have age keys and come oldest bracket first. */
  lemma YearDataOrder(filtered: seq<PopRecord>, year: int)
    requires forall x :: x in filtered && x.year == year ==> WellFormed(x)
    ensures AllWellFormed(YearData(filtered, year)) && Descending(YearData(filtered, year))
  {
    YearDataRows(filtered, year);
  }

  /** Rows with equal age keys come out in the reverse of their order in `filtered`. */
  lemma YearDataTies(filtered: seq<PopRecord>, year: int, k: nat)
    requires forall x :: x in filtered && x.year == year ==> WellFormed(x)
    ensures Filter(YearData(filtered, year), KeyIs(Key, k))
         == Reverse(Filter(Filter(filtered, InYear(year)), KeyIs(Key, k)))
  {
    var kept := Filter(filtered, InYear(year));
    SortByStable(kept, Key, k);
    FilterReverse(SortBy(kept, Key), KeyIs(Key, k));
  }
}
