/** The analytics toggle buttons: each `.toggle-btn` carries a `data-series`
    attribute and an `active` class, in document order. */
module Toggles {
  import opened SeriesKeys

  datatype Toggle = Toggle(series: string, active: bool)

  /** The keys plotted when no button is active. */
  const DefaultKeys: seq<string> := ["series_1", "series_2", "series_3"]

  /** `btn.classList.toggle('active')` on button `i`: only that button's flag
      changes. */
  function Flip(t: seq<Toggle>, i: nat): (r: seq<Toggle>)
    requires i < |t|
    ensures |r| == |t|
    ensures r[i].series == t[i].series && r[i].active == !t[i].active
    ensures forall j :: 0 <= j < |t| && j != i ==> r[j] == t[j]
  {
    t[i := t[i].(active := !t[i].active)]
  }

  /** Clicking the same button twice restores every button. */
  lemma FlipTwice(t: seq<Toggle>, i: nat)
    requires i < |t|
    ensures Flip(Flip(t, i), i) == t
  {
  }

  /** Clicks on two buttons commute, so the state (and every key derived from
      it) does not depend on the order of the clicks. */
  lemma FlipsCommute(t: seq<Toggle>, i: nat, j: nat)
    requires i < |t| && j < |t|
    ensures Flip(Flip(t, i), j) == Flip(Flip(t, j), i)
  {
  }

  predicate NoneActive(t: seq<Toggle>) {
    forall i :: 0 <= i < |t| ==> !t[i].active
  }

  /** `querySelectorAll('.toggle-btn.active')` read for their `data-series`:
      the attributes of the active buttons, as a filter over document order. */
  function ActiveSeries(t: seq<Toggle>): (r: seq<string>)
    ensures |r| <= |t|
  {
    if t == [] then []
    else ActiveSeries(t[..|t| - 1]) + (if t[|t| - 1].active then [t[|t| - 1].series] else [])
  }

  /** The positions of the active buttons: strictly increasing, each active,
      and every active position listed. These three facts determine the
      sequence, so it is an independent description of "the active buttons in
      document order". */
  ghost function ActivePositions(t: seq<Toggle>): (p: seq<nat>)
    ensures forall j :: 0 <= j < |p| ==> p[j] < |t| && t[p[j]].active
    ensures forall j, k :: 0 <= j < k < |p| ==> p[j] < p[k]
    ensures forall i :: 0 <= i < |t| && t[i].active ==> i in p
  {
    if t == [] then []
    else
      var front := t[..|t| - 1];
      var p := ActivePositions(front);
      assert forall i :: 0 <= i < |front| ==> front[i] == t[i];
      p + (if t[|t| - 1].active then [|t| - 1] else [])
  }

  /** The filter lists exactly the series of the active positions, in order. */
  lemma {:induction false} ActiveSeriesInDocumentOrder(t: seq<Toggle>)
    ensures |ActiveSeries(t)| == |ActivePositions(t)|
    ensures forall j :: 0 <= j < |ActiveSeries(t)| ==> ActiveSeries(t)[j] == t[ActivePositions(t)[j]].series
  {
    if t != [] {
      var front, last := t[..|t| - 1], t[|t| - 1];
      ActiveSeriesInDocumentOrder(front);
      var a, p := ActiveSeries(front), ActivePositions(front);
      assert ActiveSeries(t) == a + (if last.active then [last.series] else []);
      assert ActivePositions(t) == p + (if last.active then [|t| - 1] else []);
      forall j | 0 <= j < |a|
        ensures ActiveSeries(t)[j] == t[ActivePositions(t)[j]].series
      {
        assert front[p[j]] == t[p[j]];
      }
    }
  }

  /** No position is listed exactly when no button is active. */
  lemma NoActivePositions(t: seq<Toggle>)
    ensures |ActivePositions(t)| == 0 <==> NoneActive(t)
  {
    var p := ActivePositions(t);
    if |p| > 0 {
      assert t[p[0]].active;
    }
  }

  /** The keys `updateTimeSeriesChart` plots: every active button's attribute
      rewritten by `RewriteKey`, in document order, or `DefaultKeys` when no
      button is active. */
  function EffectiveKeys(t: seq<Toggle>): (keys: seq<string>)
    ensures |keys| > 0
    ensures NoneActive(t) ==> keys == DefaultKeys
    ensures !NoneActive(t) ==> |keys| == |ActivePositions(t)|
    ensures !NoneActive(t) ==> forall j {:trigger keys[j]} :: 0 <= j < |keys| ==>
      keys[j] == RewriteKey(t[ActivePositions(t)[j]].series)
  {
    var active := ActiveSeries(t);
    ActiveSeriesInDocumentOrder(t);
    NoActivePositions(t);
    if |active| > 0 then seq(|active|, j requires 0 <= j < |active| => RewriteKey(active[j]))
    else DefaultKeys
  }

  /** A strictly increasing sequence spreads at least one step per element. */
  lemma {:induction false} IncreasingSpread(p: seq<nat>)
    requires forall j, k :: 0 <= j < k < |p| ==> p[j] < p[k]
    ensures |p| > 0 ==> p[|p| - 1] - p[0] >= |p| - 1
  {
    if |p| > 1 {
      IncreasingSpread(p[..|p| - 1]);
      assert p[..|p| - 1][|p| - 2] == p[|p| - 2];
    }
  }

  /** Activating one button when none was active plots that one series alone. */
  lemma SoleActiveButton(t: seq<Toggle>, i: nat)
    requires i < |t| && NoneActive(t)
    ensures EffectiveKeys(Flip(t, i)) == [RewriteKey(t[i].series)]
  {
    var f := Flip(t, i);
    var p := ActivePositions(f);
    assert i in p;
    assert forall j :: 0 <= j < |p| ==> p[j] == i;
    IncreasingSpread(p);
    assert |p| == 1 && p[0] == i;
    assert !NoneActive(f);
  }

  /** Deactivating the last active button falls back to all three keys. */
  lemma LastButtonOff(t: seq<Toggle>, i: nat)
    requires i < |t| && t[i].active
    requires forall j :: 0 <= j < |t| && j != i ==> !t[j].active
    ensures EffectiveKeys(Flip(t, i)) == DefaultKeys
  {
  }
}
