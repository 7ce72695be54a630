/** The loaded rows and the region filter applied to them. */
module Records {
  import opened Sequences

  /** One row of the dataset, as built by initializeData. */
  datatype PopRecord = PopRecord(year: int, age: string, region: string, malePop: nat, femalePop: nat)

  function InRegion(region: string): PopRecord -> bool
  {
    (x: PopRecord) => x.region == region
  }

  /** filterDataByRegion's row selection. */
  function FilterByRegion(data: seq<PopRecord>, region: string): (r: seq<PopRecord>)
    ensures |r| <= |data|
  {
    Filter(data, InRegion(region))
  }

  /** Every kept row is of the region, and every row of the region is kept as often as it was loaded. */
  lemma RegionFilterContents(data: seq<PopRecord>, region: string)
    ensures var r := FilterByRegion(data, region);
      && (forall x :: x in r <==> x in data && x.region == region)
      && (forall x: PopRecord :: x.region == region ==> multiset(r)[x] == multiset(data)[x])
  {
    FilterContents(data, InRegion(region));
  }

  /** The region's rows keep their load order: they are the rows at the matching positions, ascending. */
  lemma RegionFilterKeepsOrder(data: seq<PopRecord>, region: string)
    ensures var r, ix := FilterByRegion(data, region), Matching(data, InRegion(region));
      |r| == |ix| && forall k :: 0 <= k < |r| ==> r[k] == data[ix[k]]
  {
    FilterKeepsOrder(data, InRegion(region));
  }
}
