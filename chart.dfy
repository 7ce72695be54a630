/**
 * The chart's module-level state and the handlers that change it: the year
 * slider, the play button, the animation tick and the region selector, each
 * followed by updateChart.
 */
module Chart {
  import opened AgeLabels
  import opened Records
  import opened YearSelection
  import opened Bars

  const FirstYear: int := 1980
  const LastYear: int := 2023
  const InitialYear: int := 2000
  const InitialDomainMax: nat := 60000000
  const DefaultRegion: string := "Europe"

  /** The population cap of each region, the upper end of both scale domains. */
  const RegionMaxPopulation: map<string, nat> := map[
    "Central and Southern Asia" := 100000000,
    "Sub-Saharan Africa" := 100000000,
    "Eastern Asia" := 80000000,
    "Europe" := 40000000,
    "Northern America" := 20000000,
    "Latin America and the Caribbean" := 60000000,
    "Northern Africa and Western Asia" := 40000000,
    "Oceania" := 2000000,
    "South-Eastern Asia" := 40000000
  ]

  /** The year after one animation tick: one more, wrapping past LastYear to FirstYear. */
  function NextYear(y: int): (r: int)
    ensures FirstYear <= y <= LastYear ==> FirstYear <= r <= LastYear
    ensures y < LastYear ==> r == y + 1
    ensures y >= LastYear ==> r == FirstYear
  {
    if y + 1 > LastYear then FirstYear else y + 1
  }

  /** The year after k ticks while playing. */
  function Ticks(k: nat, y: int): int
  {
    if k == 0 then y else NextYear(Ticks(k - 1, y))
  }

  lemma {:induction false} TicksCompose(a: nat, b: nat, y: int)
    ensures Ticks(a + b, y) == Ticks(b, Ticks(a, y))
    decreases b
  {
    if b > 0 {
      TicksCompose(a, b - 1, y);
    }
  }

  /** Before the wrap, k ticks add k years. */
  lemma {:induction false} TicksAdvance(k: nat, y: int)
    requires y + k <= LastYear
    ensures Ticks(k, y) == y + k
  {
    if k > 0 {
      TicksAdvance(k - 1, y);
    }
  }

  /** Playing visits the 44 years from FirstYear to LastYear in a cycle. */
  lemma TicksCycle(y: int)
    requires FirstYear <= y <= LastYear
    ensures Ticks(LastYear - FirstYear + 1, y) == y
  {
    var toLast := LastYear - y;
    TicksAdvance(toLast, y);
    TicksCompose(toLast, 1, y);
    assert Ticks(toLast + 1, y) == FirstYear;
    TicksAdvance(y - FirstYear, FirstYear);
    TicksCompose(toLast + 1, y - FirstYear, y);
  }

  class PyramidChart {
    /** The loaded rows (`data`), never changed after loading. */
    const data: seq<PopRecord>
    var filteredData: seq<PopRecord>
    /** The value of the region selector. */
    var region: string
    var displayYear: int
    var isPlaying: bool
    var femaleScale: Scale
    var maleScale: Scale
    /** The `g.bar-group` elements under `.bars`, in document order. */
    var bars: seq<BarGroup>

    /** Every loaded label parses, and the filtered rows are loaded rows. */
    ghost predicate RowsLoaded()
      reads this`filteredData
    {
      && AllWellFormed(data)
      && (forall x :: x in filteredData ==> x in data)
    }

    /** Holds from loading on: the rows are loaded and the groups sit at their slots. */
    ghost predicate Loaded()
      reads this`filteredData, this`bars
    {
      RowsLoaded() && Slotted(bars)
    }

    /** Holds once a region is selected: the filter and both scale domains follow it. */
    ghost predicate Valid()
      reads this`filteredData, this`bars, this`region, this`femaleScale, this`maleScale
    {
      && Loaded()
      && region in RegionMaxPopulation
      && filteredData == FilterByRegion(data, region)
      && femaleScale.domainMax == RegionMaxPopulation[region]
      && maleScale.domainMax == RegionMaxPopulation[region]
    }

    /** getYearData. */
    function CurrentYearData(): (r: seq<PopRecord>)
      reads this`filteredData, this`displayYear
      requires RowsLoaded()
      ensures |r| <= |filteredData|
    {
      YearData(filteredData, displayYear)
    }

    /** The groups draw the displayed year's rows, one per row, under the current scales. */
    ghost predicate Displayed()
      reads this`filteredData, this`displayYear, this`bars, this`femaleScale, this`maleScale
      requires Loaded()
    {
      var rows := CurrentYearData();
      |bars| == |rows| && forall i :: 0 <= i < |bars| ==> Shows(bars[i], rows[i], femaleScale, maleScale)
    }

    /** initializeData: the loaded rows, the initial year and scales, no region filtered and nothing drawn yet. */
    constructor (csv: seq<PopRecord>, femaleInterp: (nat, nat) -> real, maleInterp: (nat, nat) -> real)
      requires AllWellFormed(csv)
      ensures Loaded()
      ensures data == csv && filteredData == [] && bars == []
      ensures displayYear == InitialYear && !isPlaying
      ensures femaleScale == Scale(femaleInterp, InitialDomainMax) && maleScale == Scale(maleInterp, InitialDomainMax)
    {
      data := csv;
      filteredData := [];
      region := DefaultRegion;
      displayYear, isPlaying := InitialYear, false;
      femaleScale := Scale(femaleInterp, InitialDomainMax);
      maleScale := Scale(maleInterp, InitialDomainMax);
      bars := [];
    }

    /**
     * The rest of start-up: the default region is filtered at the end of
     * initializeData, and the load callback then draws the chart once more.
     */
    method Start()
      requires Loaded()
      modifies this`region, this`filteredData, this`femaleScale, this`maleScale, this`bars
      ensures Valid() && Displayed()
      ensures region == DefaultRegion && RegionMaxPopulation[region] == 40000000
      ensures femaleScale == old(femaleScale).(domainMax := 40000000)
      ensures maleScale == old(maleScale).(domainMax := 40000000)
      ensures bars == Join(Join(old(bars), CurrentYearData(), femaleScale, maleScale), CurrentYearData(), femaleScale, maleScale)
      ensures old(bars) == [] ==> Labels(bars) == Ages(CurrentYearData())
    {
      assert DefaultRegion in RegionMaxPopulation;
      SelectRegion(DefaultRegion);
      UpdateChart();
      JoinLabels(old(bars), CurrentYearData(), femaleScale, maleScale);
      JoinSettles(old(bars), CurrentYearData(), femaleScale, maleScale);
    }

    /** updateChart: join the displayed year's rows to the bar groups. */
    method UpdateChart()
      requires Valid()
      modifies this`bars
      ensures Valid() && Displayed()
      ensures bars == Join(old(bars), CurrentYearData(), femaleScale, maleScale)
    {
      var rows := CurrentYearData();
      JoinKeepsSlots(bars, rows, femaleScale, maleScale);
      bars := Render(bars, rows, femaleScale, maleScale);
    }

    /** handleYearInputChange: the slider stops the animation and shows its year. */
    method SetYear(value: int)
      requires Valid()
      modifies this`isPlaying, this`displayYear, this`bars
      ensures Valid() && Displayed()
      ensures !isPlaying && displayYear == value
      ensures bars == Join(old(bars), YearData(filteredData, value), femaleScale, maleScale)
    {
      isPlaying := false;
      displayYear := value;
      UpdateChart();
    }

    /** handlePlayButtonClick: flips the playing flag and does nothing else. */
    method TogglePlay()
      modifies this`isPlaying
      ensures isPlaying == !old(isPlaying)
    {
      isPlaying := !isPlaying;
    }

    /** The body of the animation timer: while playing, advance one year (with wrap) and redraw. */
    method Tick()
      requires Valid() && Displayed()
      modifies this`displayYear, this`bars
      ensures Valid() && Displayed()
      ensures !isPlaying ==> displayYear == old(displayYear) && bars == old(bars)
      ensures isPlaying ==> displayYear == NextYear(old(displayYear))
      ensures isPlaying ==> bars == Join(old(bars), YearData(filteredData, displayYear), femaleScale, maleScale)
    {
      if !isPlaying {
        return;
      }
      displayYear := displayYear + 1;
      if displayYear > LastYear {
        displayYear := FirstYear;
      }
      UpdateChart();
    }

    /** filterDataByRegion: select the region's rows, reset both scale domains to its cap, redraw. */
    method SelectRegion(r: string)
      requires Loaded()
      requires r in RegionMaxPopulation
      modifies this`region, this`filteredData, this`femaleScale, this`maleScale, this`bars
      ensures Valid() && Displayed()
      ensures region == r && filteredData == FilterByRegion(data, r)
      ensures femaleScale == old(femaleScale).(domainMax := RegionMaxPopulation[r])
      ensures maleScale == old(maleScale).(domainMax := RegionMaxPopulation[r])
      ensures bars == Join(old(bars), YearData(filteredData, displayYear), femaleScale, maleScale)
    {
      region := r;
      RegionFilterContents(data, r);
      filteredData := FilterByRegion(data, r);
      var cap := RegionMaxPopulation[r];
      femaleScale := femaleScale.(domainMax := cap);
      maleScale := maleScale.(domainMax := cap);
      UpdateChart();
    }
  }

  /** Pressing play twice leaves the chart as it was. */
  method PressPlayTwice(c: PyramidChart)
    modifies c
    ensures c.isPlaying == old(c.isPlaying)
    ensures unchanged(c)
  {
    c.TogglePlay();
    c.TogglePlay();
  }

  /** Moving the slider to LastYear, pressing play and ticking once shows FirstYear. */
  method PlayPastLastYear(c: PyramidChart)
    requires c.Valid()
    modifies c
    ensures c.Valid() && c.Displayed()
    ensures c.isPlaying && c.displayYear == FirstYear
  {
    c.SetYear(LastYear);
    c.TogglePlay();
    c.Tick();
  }
}
