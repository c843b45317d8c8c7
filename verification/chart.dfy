/**
 * The allocation chart (components/visual-allocation-chart.tsx): the pie's
 * slices in descending order of value, the five-line legend with its
 * percentages, the "+N more positions" note and the colour cycle.
 */
module AllocationChart {
  import opened Wrappers
  import opened Seqs
  import opened Rounding
  import opened Arith

  /** One line of the portfolio metrics' allocation breakdown (computed outside this model). */
  datatype AllocationEntry = AllocationEntry(symbol: string, labelText: string, value: real)

  /** One slice of the pie; `name` is the symbol. */
  datatype ChartDatum = ChartDatum(name: string, value: real, labelText: string)

  function DatumValue(d: ChartDatum): real {
    d.value
  }

  function ToDatum(e: AllocationEntry): ChartDatum {
    ChartDatum(e.symbol, e.value, e.labelText)
  }

  function ToData(allocation: seq<AllocationEntry>): (r: seq<ChartDatum>)
    ensures |r| == |allocation|
    ensures forall i :: 0 <= i < |r| ==> r[i] == ToDatum(allocation[i])
  {
    seq(|allocation|, i requires 0 <= i < |allocation| => ToDatum(allocation[i]))
  }

  /**
   * data: nothing for an empty breakdown or a zero total; otherwise every
   * entry as a slice, largest value first, ties in breakdown order.
   */
  function ChartData(allocation: seq<AllocationEntry>, totalValue: real): (r: seq<ChartDatum>)
    ensures |allocation| == 0 || totalValue == 0.0 ==> r == []
    ensures |allocation| > 0 && totalValue != 0.0 ==>
              |r| == |allocation| && SortedDesc(DatumValue, r) && multiset(r) == multiset(ToData(allocation))
  {
    if |allocation| == 0 || totalValue == 0.0 then []
    else SortDesc(DatumValue, ToData(allocation))
  }

  /** Slices of equal value appear in the order of the breakdown. */
  lemma ChartDataStable(allocation: seq<AllocationEntry>, totalValue: real, v: real)
    requires |allocation| > 0 && totalValue != 0.0
    ensures Filter(KeyIs(DatumValue, v), ChartData(allocation, totalValue))
            == Filter(KeyIs(DatumValue, v), ToData(allocation))
  {
    SortDescStable(DatumValue, ToData(allocation), v);
  }

  /** The pie's palette, cycled by slice index. */
  const Colors: seq<string> := ["#3d8bff", "#67d9ff", "#7f5dff", "#2ed3b7", "#ff8f6b", "#f5c86c", "#f14668"]

  /** `COLORS[index % COLORS.length]`. */
  function ColorOf(index: nat): (c: string)
    ensures c in Colors
  {
    Colors[index % |Colors|]
  }

  /** The palette has no repeated colour. */
  lemma ColorsDistinct()
    ensures |Colors| == 7
    ensures forall i, j :: 0 <= i < j < |Colors| ==> Colors[i] != Colors[j]
  {
  }

  /** Neighbouring slices, and any seven consecutive slices, never share a colour. */
  lemma ColorCycle(i: nat, j: nat)
    requires i < j < i + |Colors|
    ensures ColorOf(i) != ColorOf(j)
    ensures ColorOf(i + |Colors|) == ColorOf(i)
  {
    ColorsDistinct();
    var a := i % 7;
    var b := j % 7;
    assert i == 7 * (i / 7) + a && j == 7 * (j / 7) + b;
    assert (i + 7) % 7 == a;
  }

  /** The colour of every slice of the pie. */
  function PieColors(data: seq<ChartDatum>): (r: seq<string>)
    ensures |r| == |data|
    ensures forall i :: 0 <= i < |r| ==> r[i] == ColorOf(i)
  {
    seq(|data|, i requires 0 <= i < |data| => ColorOf(i))
  }

  /** How many legend lines there are at most. */
  const LegendSize: nat := 5

  /** One legend line: the label text, the value, the exact share and the share as toFixed(1) prints it. */
  datatype LegendRow = LegendRow(labelText: string, value: real, pct: real, shown: real, color: string)

  /** The legend: the first five slices, each with its share and the colour of its slice. */
  function Legend(data: seq<ChartDatum>, totalValue: real): (r: seq<LegendRow>)
    ensures |r| == Min(LegendSize, |data|)
    ensures forall i :: 0 <= i < |r| ==>
              r[i].labelText == data[i].labelText && r[i].value == data[i].value
              && r[i].pct == PercentOf(data[i].value, totalValue)
              && r[i].shown == RoundTo(r[i].pct, 1)
              && r[i].color == ColorOf(i)
  {
    var shown := Take(data, LegendSize);
    seq(|shown|, i requires 0 <= i < |shown| =>
      var p := PercentOf(shown[i].value, totalValue);
      LegendRow(shown[i].labelText, shown[i].value, p, RoundTo(p, 1), ColorOf(i)))
  }

  /** The "+N more positions" note, shown only when there are more than five slices. */
  function Overflow(data: seq<ChartDatum>): (r: Option<nat>)
    ensures r.Some? <==> |data| > LegendSize
    ensures r.Some? ==> r.value > 0
  {
    if |data| > LegendSize then Some(|data| - LegendSize) else None
  }

  /**
   * Every slice is accounted for, on the legend or in the note; each legend
   * dot has the colour of its slice; and, on sorted data, the legend lists
   * the largest slices.
   */
  lemma LegendAccountsForAll(data: seq<ChartDatum>, totalValue: real)
    ensures |Legend(data, totalValue)| + Overflow(data).GetOr(0) == |data|
    ensures forall i :: 0 <= i < |Legend(data, totalValue)| ==> Legend(data, totalValue)[i].color == PieColors(data)[i]
    ensures SortedDesc(DatumValue, data) ==>
              forall i, j :: 0 <= i < |Legend(data, totalValue)| && LegendSize <= j < |data| ==>
                Legend(data, totalValue)[i].value >= data[j].value
  {
  }

  /** The legend's colours are all different, because it has fewer lines than the palette. */
  lemma LegendColorsDistinct(data: seq<ChartDatum>, totalValue: real)
    ensures forall i, j :: 0 <= i < j < |Legend(data, totalValue)| ==>
              Legend(data, totalValue)[i].color != Legend(data, totalValue)[j].color
  {
    var r := Legend(data, totalValue);
    forall i, j | 0 <= i < j < |r|
      ensures r[i].color != r[j].color
    {
      ColorCycle(i, j);
    }
  }

  function SliceValues(data: seq<ChartDatum>): (r: seq<real>)
    ensures |r| == |data| && forall i :: 0 <= i < |data| ==> r[i] == data[i].value
  {
    seq(|data|, i requires 0 <= i < |data| => data[i].value)
  }

  /** With the total equal to the positive sum of the slice values, the legend shares of all slices add up to 100. */
  lemma SharesSumTo100(data: seq<ChartDatum>, totalValue: real)
    requires totalValue == Sum(SliceValues(data)) && totalValue > 0.0
    ensures Sum(Percentages(SliceValues(data), totalValue)) == 100.0
  {
    PercentagesSumTo100(SliceValues(data), totalValue);
  }
}
