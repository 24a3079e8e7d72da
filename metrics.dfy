/** The metric cards of the overview: elements `metric-1`, `metric-2`, ...,
    filled by position from the payload's `metrics` object. */
module Metrics {
  import opened Payloads

  /** The slots present on the page by number (`metric-n` is slot `n`) and the
      value each shows. */
  type Slots = map<int, Value>

  /** The metric cards after writing `metrics` in order: the `k`-th metric
      (from 1) goes to slot `k` when that slot exists; absent slots are skipped,
      no slot is created, and slots past the last metric keep their value. */
  function WriteMetrics(slots: Slots, metrics: seq<Metric>): (r: Slots)
    ensures r.Keys == slots.Keys
    ensures forall n :: n in slots ==>
      r[n] == if 1 <= n <= |metrics| then metrics[n - 1].value else slots[n]
    decreases |metrics|
  {
    if metrics == [] then slots
    else
      var k := |metrics|;
      var front := metrics[..k - 1];
      var prev := WriteMetrics(slots, front);
      assert forall j :: 0 <= j < k - 1 ==> front[j] == metrics[j];
      if k in prev then prev[k := metrics[k - 1].value] else prev
  }

  /** Placement is by position only: two payloads whose metrics have the same
      values in the same order fill the slots alike, whatever their names. */
  lemma WriteMetricsIgnoresNames(slots: Slots, a: seq<Metric>, b: seq<Metric>)
    requires |a| == |b| && forall i :: 0 <= i < |a| ==> a[i].value == b[i].value
    ensures WriteMetrics(slots, a) == WriteMetrics(slots, b)
  {
    var ra, rb := WriteMetrics(slots, a), WriteMetrics(slots, b);
    assert forall n :: n in ra ==> ra[n] == rb[n];
  }

  /** `metrics: {"Total": 10, "Active": 3}` puts 10 in slot 1 and 3 in slot 2. */
  lemma WriteMetricsExample(slots: Slots)
    requires 1 in slots && 2 in slots
    ensures var r := WriteMetrics(slots, [Metric("Total", Num(10.0)), Metric("Active", Num(3.0))]);
      r[1] == Num(10.0) && r[2] == Num(3.0)
  {
  }
}
