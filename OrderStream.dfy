/**
 * The Redis stream `stream.orders` as consumer group g1, consumer c1 sees it:
 * the entries, how many of them the group has delivered, and the pending
 * entries list (delivered, not yet acknowledged) in delivery order.
 * Entry bodies are already-parsed orders.
 */
module OrderStream {
  import opened OrderStore
  import opened Wrappers

  /** The stream the handler reads and acknowledges on. */
  const QUEUE_NAME: string := "stream.orders"
  /** The key the pending-list drain acknowledges on. */
  const PENDING_ACK_KEY: string := "s1"

  datatype Entry = Entry(id: nat, order: VoucherOrder)

  ghost predicate Increasing(es: seq<Entry>)
  {
    forall i, j :: 0 <= i < j < |es| ==> es[i].id < es[j].id
  }

  datatype Queue = Queue(entries: seq<Entry>, delivered: nat, pending: seq<Entry>)
  {
    /** Stream ids grow; the pending list holds delivered entries, oldest first. */
    ghost predicate Valid()
    {
      && delivered <= |entries|
      && Increasing(entries)
      && Increasing(pending)
      && (forall e :: e in pending ==> e in entries[..delivered])
    }
  }

  /** `XREADGROUP GROUP g1 c1 COUNT 1 STREAMS stream.orders >`: the next undelivered entry. */
  function NextNew(q: Queue): (r: Option<Entry>)
    requires q.Valid()
    ensures r.Some? <==> q.delivered < |q.entries|
    ensures r.Some? ==> r.value == q.entries[q.delivered] && r.value !in q.pending
  {
    if q.delivered < |q.entries| then
      PendingBeforeCursor(q);
      Some(q.entries[q.delivered])
    else None
  }

  /** Every pending entry precedes the group's cursor. */
  lemma PendingBeforeCursor(q: Queue)
    requires q.Valid() && q.delivered < |q.entries|
    ensures forall x :: x in q.pending ==> x.id < q.entries[q.delivered].id
  {
    forall x | x in q.pending ensures x.id < q.entries[q.delivered].id {
      var i :| 0 <= i < q.delivered && q.entries[..q.delivered][i] == x;
    }
  }

  /** The read's side effect: the group's cursor moves on and the entry becomes pending. */
  function Deliver(q: Queue): (r: Queue)
    requires q.Valid() && q.delivered < |q.entries|
    ensures r.Valid()
    ensures r.entries == q.entries && r.delivered == q.delivered + 1
    ensures r.pending == q.pending + [q.entries[q.delivered]]
  {
    var e := q.entries[q.delivered];
    var r := q.(delivered := q.delivered + 1, pending := q.pending + [e]);
    PendingBeforeCursor(q);
    forall x | x in r.pending ensures x in r.entries[..r.delivered] {
      if x != e {
        var i :| 0 <= i < q.delivered && q.entries[..q.delivered][i] == x;
        assert r.entries[..r.delivered][i] == x;
      }
    }
    r
  }

  /** `XREADGROUP GROUP g1 c1 COUNT 1 STREAMS stream.orders 0`: the oldest pending entry. */
  function OldestPending(q: Queue): (r: Option<Entry>)
    requires q.Valid()
    ensures r.None? <==> q.pending == []
    ensures r.Some? ==> r.value in q.pending && forall e :: e in q.pending ==> r.value.id <= e.id
  {
    if q.pending == [] then None else Some(q.pending[0])
  }

  /** The entries of `es` whose id is not `id`. */
  function RemoveId(es: seq<Entry>, id: nat): (r: seq<Entry>)
    ensures forall e :: e in r <==> e in es && e.id != id
    ensures |r| <= |es|
  {
    if es == [] then []
    else if es[0].id == id then RemoveId(es[1..], id)
    else [es[0]] + RemoveId(es[1..], id)
  }

  lemma {:induction false} RemoveIdKeepsOrder(es: seq<Entry>, id: nat)
    requires Increasing(es)
    ensures Increasing(RemoveId(es, id))
  {
    if es != [] {
      RemoveIdKeepsOrder(es[1..], id);
      var rest := RemoveId(es[1..], id);
      if es[0].id != id {
        forall x | x in rest ensures es[0].id < x.id {
          var i :| 0 <= i < |es[1..]| && es[1..][i] == x;
          assert es[i + 1] == x;
        }
      }
    }
  }

  /** In an increasing list, removing the first entry's id removes just that entry. */
  lemma RemoveFirst(es: seq<Entry>)
    requires Increasing(es) && es != []
    ensures RemoveId(es, es[0].id) == es[1..]
  {
    assert forall e :: e in es[1..] ==> e.id != es[0].id;
    RemoveAbsent(es[1..], es[0].id);
  }

  lemma {:induction false} RemoveAbsent(es: seq<Entry>, id: nat)
    requires forall e :: e in es ==> e.id != id
    ensures RemoveId(es, id) == es
  {
    if es != [] {
      assert es[0] in es;
      RemoveAbsent(es[1..], id);
      assert [es[0]] + es[1..] == es;
    }
  }

  /** Removing the id of an entry appended after the others removes just that entry. */
  lemma RemoveIdAppend(es: seq<Entry>, e: Entry)
    requires forall x :: x in es ==> x.id != e.id
    ensures RemoveId(es + [e], e.id) == RemoveId(es, e.id)
  {
    if es == [] {
      assert es + [e] == [e];
    } else {
      assert (es + [e])[1..] == es[1..] + [e];
      assert es[0] in es;
      RemoveIdAppend(es[1..], e);
    }
  }

  /**
   * `XACK key g1 id`. Only an acknowledgement on `stream.orders` touches this
   * stream's pending list; one on any other key leaves it as it was.
   */
  function Ack(q: Queue, key: string, id: nat): (r: Queue)
    requires q.Valid()
    ensures r.Valid()
    ensures r.entries == q.entries && r.delivered == q.delivered
    ensures key == QUEUE_NAME ==> forall e :: e in r.pending <==> e in q.pending && e.id != id
    ensures key != QUEUE_NAME ==> r == q
  {
    if key == QUEUE_NAME then
      RemoveIdKeepsOrder(q.pending, id);
      q.(pending := RemoveId(q.pending, id))
    else q
  }
}
