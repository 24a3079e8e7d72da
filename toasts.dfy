/** The error toasts in the `#messages` container, each with the identity of
    its DOM node so that its timed removal can find it. */
module Toasts {

  datatype Toast = Toast(id: nat, message: string)

  /** No two toasts are the same node. */
  predicate UniqueIds(ts: seq<Toast>) {
    forall i, j :: 0 <= i < j < |ts| ==> ts[i].id != ts[j].id
  }

  predicate HasId(ts: seq<Toast>, id: nat) {
    exists i :: 0 <= i < |ts| && ts[i].id == id
  }

  /** `toast.parentNode.removeChild(toast)` guarded by `if (toast.parentNode)`:
      the container without toast `id`; nothing else moves. */
  function RemoveToast(ts: seq<Toast>, id: nat): (r: seq<Toast>)
    ensures forall i :: 0 <= i < |r| ==> r[i].id != id
    ensures |r| <= |ts|
  {
    if ts == [] then []
    else
      var rest := RemoveToast(ts[1..], id);
      if ts[0].id == id then rest else [ts[0]] + rest
  }

  lemma {:induction false} RemoveToastAppend(a: seq<Toast>, b: seq<Toast>, id: nat)
    ensures RemoveToast(a + b, id) == RemoveToast(a, id) + RemoveToast(b, id)
  {
    if a == [] {
      assert a + b == b;
    } else {
      assert (a + b)[0] == a[0];
      assert (a + b)[1..] == a[1..] + b;
      RemoveToastAppend(a[1..], b, id);
    }
  }

  /** Removing a toast that is no longer there changes nothing. */
  lemma {:induction false} RemoveAbsentToast(ts: seq<Toast>, id: nat)
    requires !HasId(ts, id)
    ensures RemoveToast(ts, id) == ts
  {
    if ts != [] {
      assert !HasId(ts[1..], id) by {
        assert forall i :: 0 <= i < |ts| - 1 ==> ts[1..][i] == ts[i + 1];
      }
      RemoveAbsentToast(ts[1..], id);
    }
  }

  /** Expiring the same toast twice is the same as expiring it once. */
  lemma RemoveToastTwice(ts: seq<Toast>, id: nat)
    ensures RemoveToast(RemoveToast(ts, id), id) == RemoveToast(ts, id)
  {
    RemoveAbsentToast(RemoveToast(ts, id), id);
  }

  /** Appending a toast with a new id and then expiring it gives the container
      back exactly as it was. */
  lemma ShowThenExpire(ts: seq<Toast>, id: nat, message: string)
    requires !HasId(ts, id)
    ensures RemoveToast(ts + [Toast(id, message)], id) == ts
  {
    RemoveToastAppend(ts, [Toast(id, message)], id);
    RemoveAbsentToast(ts, id);
  }

  /** With unique ids, expiring the toast at position `k` removes that toast
      only and keeps the others in order. */
  lemma {:induction false} RemovePresentToast(ts: seq<Toast>, k: nat)
    requires UniqueIds(ts) && k < |ts|
    ensures RemoveToast(ts, ts[k].id) == ts[..k] + ts[k + 1..]
  {
    var id := ts[k].id;
    var tail := ts[1..];
    assert forall i :: 0 <= i < |tail| ==> tail[i] == ts[i + 1];
    if k == 0 {
      assert RemoveToast(ts, id) == RemoveToast(tail, id);
      assert !HasId(tail, id) by {
        forall i | 0 <= i < |tail| ensures tail[i].id != id {
          assert ts[i + 1].id != ts[0].id;
        }
      }
      RemoveAbsentToast(tail, id);
    } else {
      assert ts[0].id != id;
      assert RemoveToast(ts, id) == [ts[0]] + RemoveToast(tail, id);
      assert UniqueIds(tail);
      assert tail[k - 1] == ts[k];
      RemovePresentToast(tail, k - 1);
      assert ts[..k] == [ts[0]] + tail[..k - 1];
      assert ts[k + 1..] == tail[k..];
    }
  }

  /** Every toast left was in the container before. */
  lemma {:induction false} RemoveToastFrom(ts: seq<Toast>, id: nat)
    ensures forall i :: 0 <= i < |RemoveToast(ts, id)| ==> RemoveToast(ts, id)[i] in ts
  {
    if ts != [] {
      var tail := ts[1..];
      RemoveToastFrom(tail, id);
      var rest := RemoveToast(tail, id);
      assert forall t :: t in tail ==> t in ts;
      assert forall i :: 0 <= i < |rest| ==> rest[i] in ts;
    }
  }

  /** Expiring a toast keeps the ids unique. */
  lemma {:induction false} RemoveToastUnique(ts: seq<Toast>, id: nat)
    requires UniqueIds(ts)
    ensures UniqueIds(RemoveToast(ts, id))
  {
    if ts != [] {
      var tail := ts[1..];
      assert forall i :: 0 <= i < |tail| ==> tail[i] == ts[i + 1];
      RemoveToastUnique(tail, id);
      RemoveToastFrom(tail, id);
      var rest := RemoveToast(tail, id);
      forall i | 0 <= i < |rest| ensures rest[i].id != ts[0].id {
        var j :| 0 <= j < |tail| && tail[j] == rest[i];
        assert ts[j + 1].id != ts[0].id;
      }
    }
  }

  /** Every id left is below `bound` when every id was, the ids stay unique,
      and every id left was there before. */
  lemma RemoveToastKeepsIds(ts: seq<Toast>, id: nat, bound: nat)
    requires UniqueIds(ts) && forall i :: 0 <= i < |ts| ==> ts[i].id < bound
    ensures var r := RemoveToast(ts, id);
      UniqueIds(r) && (forall i :: 0 <= i < |r| ==> r[i].id < bound)
      && forall i :: 0 <= i < |r| ==> HasId(ts, r[i].id)
  {
    RemoveToastUnique(ts, id);
    RemoveToastFrom(ts, id);
  }
}
