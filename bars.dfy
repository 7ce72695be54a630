/**
 * The rendered bar groups and updateChart's data join. `.data(yearData)` is
 * called without a key function, so groups are matched to rows by position.
 */
module Bars {
  import opened Records

  const BarHeight: int := 20

  /**
   * A linear scale with domain [0, domainMax]. The library's interpolation onto
   * the fixed pixel range is left abstract as `interp(domainMax, population)`.
   */
  datatype Scale = Scale(interp: (nat, nat) -> real, domainMax: nat)
  {
    function Of(pop: nat): real
    {
      interp(domainMax, pop)
    }
  }

  /** One `g.bar-group`: its label text, its vertical offset and its two rects. */
  datatype BarGroup = BarGroup(text: string, y: int, femaleX: real, femaleWidth: real, maleWidth: real)

  /** The group's rects are drawn from record d under the two scales. */
  predicate Shows(g: BarGroup, d: PopRecord, female: Scale, male: Scale)
  {
    && g.femaleX == female.Of(d.femalePop)
    && g.femaleWidth == -female.Of(d.femalePop)
    && g.maleWidth == male.Of(d.malePop)
  }

  /** Every group sits at the vertical slot of its position. */
  predicate Slotted(bars: seq<BarGroup>)
  {
    forall i :: 0 <= i < |bars| ==> bars[i].y == i * BarHeight
  }

  /** An entering group at slot i, after its transform is set and initBarGroup has run: rects without a width yet. */
  function Entered(d: PopRecord, i: nat): (g: BarGroup)
    ensures g.text == d.age
    ensures forall bars :: Slotted(bars) && |bars| == i ==> Slotted(bars + [g])
  {
    BarGroup(d.age, i * BarHeight, 0.0, 0.0, 0.0)
  }

  /** updateBarGroup: only the rects are redrawn from the bound record. */
  function Redrawn(g: BarGroup, d: PopRecord, female: Scale, male: Scale): (h: BarGroup)
    ensures h.text == g.text && h.y == g.y
    ensures Shows(h, d, female, male)
  {
    g.(femaleX := female.Of(d.femalePop), femaleWidth := -female.Of(d.femalePop), maleWidth := male.Of(d.malePop))
  }

  /**
   * The bar groups after updateChart: one per row; the first groups survive with
   * their label and offset, the rest enter at their slot, the extra ones exit,
   * and every group is redrawn from the row at its position.
   */
  function Join(bars: seq<BarGroup>, data: seq<PopRecord>, female: Scale, male: Scale): (r: seq<BarGroup>)
    ensures |r| == |data|
    ensures forall i :: 0 <= i < |r| ==> Shows(r[i], data[i], female, male)
    ensures forall i :: 0 <= i < |r| && i < |bars| ==> r[i].text == bars[i].text && r[i].y == bars[i].y
    ensures forall i :: |bars| <= i < |r| ==> r[i].text == data[i].age && r[i].y == i * BarHeight
  {
    seq(|data|, i requires 0 <= i < |data| =>
      Redrawn(if i < |bars| then bars[i] else Entered(data[i], i), data[i], female, male))
  }

  /** How many groups the join appends. */
  function EnterCount(bars: seq<BarGroup>, data: seq<PopRecord>): nat
  {
    if |data| > |bars| then |data| - |bars| else 0
  }

  /** How many groups the join removes. */
  function ExitCount(bars: seq<BarGroup>, data: seq<PopRecord>): nat
  {
    if |bars| > |data| then |bars| - |data| else 0
  }

  /** Joining the same rows again enters and removes nothing and changes nothing. */
  lemma JoinSettles(bars: seq<BarGroup>, data: seq<PopRecord>, female: Scale, male: Scale)
    ensures var once := Join(bars, data, female, male);
      && |once| == |data|
      && EnterCount(once, data) == 0 && ExitCount(once, data) == 0
      && Join(once, data, female, male) == once
  {
    var once := Join(bars, data, female, male);
    var twice := Join(once, data, female, male);
    forall i | 0 <= i < |data| ensures twice[i] == once[i] {
    }
  }

  /** Groups never move, so the join keeps every group at the slot of its position. */
  lemma JoinKeepsSlots(bars: seq<BarGroup>, data: seq<PopRecord>, female: Scale, male: Scale)
    requires Slotted(bars)
    ensures Slotted(Join(bars, data, female, male))
  {
  }

  function Labels(bars: seq<BarGroup>): (r: seq<string>)
    ensures |r| == |bars| && forall i :: 0 <= i < |bars| ==> r[i] == bars[i].text
  {
    seq(|bars|, i requires 0 <= i < |bars| => bars[i].text)
  }

  function Ages(data: seq<PopRecord>): (r: seq<string>)
    ensures |r| == |data| && forall i :: 0 <= i < |data| ==> r[i] == data[i].age
  {
    seq(|data|, i requires 0 <= i < |data| => data[i].age)
  }

  /**
   * Labels are set only when a group enters, so after the join they name the
   * rows exactly when the surviving groups already carried the ages now at
   * their positions.
   */
  lemma JoinLabels(bars: seq<BarGroup>, data: seq<PopRecord>, female: Scale, male: Scale)
    ensures Labels(Join(bars, data, female, male)) == Ages(data)
        <==> forall i :: 0 <= i < |bars| && i < |data| ==> bars[i].text == data[i].age
  {
    var r := Join(bars, data, female, male);
    if Labels(r) == Ages(data) {
      forall i | 0 <= i < |bars| && i < |data| ensures bars[i].text == data[i].age {
        assert Labels(r)[i] == Ages(data)[i];
      }
    }
  }

  /**
   * A group drawn for "20-24" that survives into a join with a "25-29" row
   * keeps the text "20-24" while its rects show the "25-29" populations.
   */
  lemma StaleLabelExample(female: Scale, male: Scale)
    ensures var young := PopRecord(2000, "20-24", "Europe", 3000000, 2900000);
      var older := PopRecord(2001, "25-29", "Europe", 3100000, 3000000);
      var shown := Join(Join([], [young], female, male), [older], female, male);
      |shown| == 1 && shown[0].text == "20-24" && Shows(shown[0], older, female, male)
  {
  }

  /**
   * The selection work of updateChart on the groups under `.bars`: append the
   * enter selection, redraw the merged selection, remove the exit selection.
   */
  method Render(groups: seq<BarGroup>, rows: seq<PopRecord>, female: Scale, male: Scale)
    returns (result: seq<BarGroup>)
    ensures result == Join(groups, rows, female, male)
  {
    var n := |groups|;
    result := groups;
    // enter: one new group for each row past the existing groups
    if n < |rows| {
      var i := n;
      while i < |rows|
        invariant n <= i <= |rows| && |result| == i
        invariant result[..n] == groups
        invariant forall k :: n <= k < i ==> result[k] == Entered(rows[k], k)
      {
        result := result + [Entered(rows[i], i)];
        i := i + 1;
      }
    }
    // update: redraw every group of the merged selection from the row at its position
    ghost var target := Join(groups, rows, female, male);
    var j := 0;
    while j < |rows|
      invariant j <= |rows| <= |result|
      invariant |result| == if n < |rows| then |rows| else n
      invariant forall k :: 0 <= k < j ==> result[k] == target[k]
      invariant forall k :: j <= k < n ==> result[k] == groups[k]
      invariant forall k :: n <= k < |result| && j <= k ==> result[k] == Entered(rows[k], k)
    {
      result := result[j := Redrawn(result[j], rows[j], female, male)];
      j := j + 1;
    }
    // exit: remove the groups past the last row
    result := result[..|rows|];
  }
}
