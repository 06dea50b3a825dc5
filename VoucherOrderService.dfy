/**
 * VoucherOrderServiceImpl: the admission result mapping of seckillVoucher,
 * the per-user lock of handleVoucherOrder, and single passes of the two
 * `while (true)` loops that drain `stream.orders` into the order table.
 * The Lua admission script is not modelled; its reply is an input.
 */
module VoucherOrderService {
  import opened JavaLong
  import opened Wrappers
  import opened IdWorker
  import opened OrderStore
  import opened OrderStream

  /** "Out of stock". */
  const OUT_OF_STOCK_MSG: string := "库存不足"
  /** "No repeated orders". */
  const DUPLICATE_MSG: string := "不能重复下单"
  /** The key prefix seckillVoucher passes to nextId. */
  const ORDER_KEY_PREFIX: string := "order"

  /** What seckillVoucher returns; `Thrown` when nextId throws before the script runs. */
  datatype SeckillResult = Ok(orderId: Long) | Fail(errorMsg: string) | Thrown

  /** The reply of the admission script, read with `intValue()`, mapped to the response. */
  function AdmissionResult(scriptResult: Long, orderId: Long): (r: SeckillResult)
    ensures r.Ok? <==> IntValue(scriptResult) == 0
    ensures r.Ok? ==> r.orderId == orderId
    ensures r.Fail? ==> (r.errorMsg == OUT_OF_STOCK_MSG <==> IntValue(scriptResult) == 1)
    ensures r.Fail? ==> (r.errorMsg == DUPLICATE_MSG <==> IntValue(scriptResult) != 1)
    ensures !r.Thrown?
  {
    if IntValue(scriptResult) != 0 then
      Fail(if IntValue(scriptResult) == 1 then OUT_OF_STOCK_MSG else DUPLICATE_MSG)
    else Ok(orderId)
  }

  /**
   * `intValue()` keeps only the low 32 bits of the reply, so a reply of
   * 2^32 reads as success and 2^32 + 1 as out of stock.
   */
  lemma AdmissionTruncatesReply(orderId: Long)
    ensures AdmissionResult(TWO_32, orderId) == Ok(orderId)
    ensures AdmissionResult(TWO_32 + 1, orderId) == Fail(OUT_OF_STOCK_MSG)
    ensures AdmissionResult(-1, orderId) == Fail(DUPLICATE_MSG)
  {
  }

  /** The Redisson lock name of a user: "order:" + userId. */
  function LockName(userId: int): (name: string)
    ensures |name| >= 7
    ensures name[..6] == "order:" && name[6..] == DecimalString(userId)
    ensures name[6] == '-' <==> userId < 0
  {
    "order:" + DecimalString(userId)
  }

  /** Different users take different locks, so one user's lock never blocks another's order. */
  lemma LockNameInjective(u1: int, u2: int)
    requires LockName(u1) == LockName(u2)
    ensures u1 == u2
  {
    assert DecimalString(u1) == LockName(u1)[6..];
    assert DecimalString(u2) == LockName(u2)[6..];
    DecimalStringInjective(u1, u2);
  }

  /**
   * What handleVoucherOrder does to the durable store: nothing when the lock
   * is held elsewhere; a NullPointerException when `proxy` was never set; else
   * createVoucherOrder through the proxy, inside its transaction.
   */
  function HandleOrder(s: Store, lockHeld: bool, proxySet: bool, o: VoucherOrder, fault: Fault): (a: Attempt)
    ensures a.raised ==> a.store == s
    ensures lockHeld ==> a == Attempt(s, false)
  {
    if lockHeld then Attempt(s, false)
    else if !proxySet then Attempt(s, true)
    else CreateOrderTransactional(s, o, fault)
  }

  lemma HandleOrderKeepsInvariant(s: Store, lockHeld: bool, proxySet: bool, o: VoucherOrder, fault: Fault)
    requires OnePerBuyer(s.orders) && NonNegativeStock(s.stock)
    ensures OnePerBuyer(HandleOrder(s, lockHeld, proxySet, o, fault).store.orders)
    ensures NonNegativeStock(HandleOrder(s, lockHeld, proxySet, o, fault).store.stock)
  {
    CreateOrderKeepsOnePerBuyer(s, o, fault);
    CreateOrderStock(s, o, fault);
  }

  /** The store after createVoucherOrder ran once per fault on one order, as the drain retries it. */
  function RepeatBody(s: Store, o: VoucherOrder, faults: seq<Fault>): Store
  {
    if faults == [] then s
    else CreateOrderBody(RepeatBody(s, o, faults[..|faults| - 1]), o, faults[|faults| - 1]).store
  }

  /** Once the order exists, further passes of the drain over it change nothing. */
  lemma {:induction false} RepeatExistingIsNoop(s: Store, o: VoucherOrder, faults: seq<Fault>)
    requires CountPair(s.orders, o.voucherId, o.userId) > 0
    ensures RepeatBody(s, o, faults) == s
  {
    if faults != [] {
      RepeatExistingIsNoop(s, o, faults[..|faults| - 1]);
    }
  }

  /**
   * The drain as intended: acknowledge on `stream.orders`, run each entry
   * through the transaction, retry an entry whose attempt threw. One fault
   * per attempt; attempts past the end of `faults` succeed.
   */
  function DrainStore(s: Store, pending: seq<Entry>, faults: seq<Fault>): Store
    decreases |pending| + |faults|
  {
    if pending == [] then s
    else
      var f := if faults == [] then NoFault else faults[0];
      var rest := if faults == [] then [] else faults[1..];
      var a := CreateOrderTransactional(s, pending[0].order, f);
      if a.raised then DrainStore(a.store, pending, rest)
      else DrainStore(a.store, pending[1..], rest)
  }

  ghost predicate AllMaterialized(s: Store, pending: seq<Entry>)
  {
    forall e :: e in pending ==> CountPair(s.orders, e.order.voucherId, e.order.userId) >= 1
  }

  /** An attempt never removes an order, so a materialised pair stays materialised. */
  lemma AttemptKeepsOrders(s: Store, o: VoucherOrder, fault: Fault, v: int, u: int)
    ensures CountPair(CreateOrderTransactional(s, o, fault).store.orders, v, u) >= CountPair(s.orders, v, u)
  {
    CountPairAppend(s.orders, o, v, u);
  }

  /** After the corrected drain every drained entry has its order, and the invariant still holds. */
  lemma {:induction false} DrainMaterializesAll(s: Store, pending: seq<Entry>, faults: seq<Fault>)
    ensures AllMaterialized(DrainStore(s, pending, faults), pending)
    ensures OnePerBuyer(s.orders) ==> OnePerBuyer(DrainStore(s, pending, faults).orders)
    ensures forall v, u :: CountPair(DrainStore(s, pending, faults).orders, v, u) >= CountPair(s.orders, v, u)
    decreases |pending| + |faults|
  {
    if pending != [] {
      var f := if faults == [] then NoFault else faults[0];
      var rest := if faults == [] then [] else faults[1..];
      var o := pending[0].order;
      var a := CreateOrderTransactional(s, o, f);
      if OnePerBuyer(s.orders) {
        CreateOrderKeepsOnePerBuyer(s, o, f);
      }
      forall v, u ensures CountPair(a.store.orders, v, u) >= CountPair(s.orders, v, u) {
        AttemptKeepsOrders(s, o, f, v, u);
      }
      if a.raised {
        DrainMaterializesAll(a.store, pending, rest);
      } else {
        CountPairAppend(s.orders, o, o.voucherId, o.userId);
        assert CountPair(a.store.orders, o.voucherId, o.userId) >= 1;
        DrainMaterializesAll(a.store, pending[1..], rest);
        assert pending == [pending[0]] + pending[1..];
      }
    }
  }

  /** Replaying entries whose orders all exist, with any faults, leaves the store unchanged. */
  lemma {:induction false} ReplayMaterializedIsNoop(s: Store, pending: seq<Entry>, faults: seq<Fault>)
    requires AllMaterialized(s, pending)
    ensures DrainStore(s, pending, faults) == s
    decreases |pending| + |faults|
  {
    if pending != [] {
      var f := if faults == [] then NoFault else faults[0];
      var rest := if faults == [] then [] else faults[1..];
      assert pending[0] in pending;
      DuplicateIsNoop(s, pending[0].order, f);
      if f == CountFault {
        ReplayMaterializedIsNoop(s, pending, rest);
      } else {
        assert forall e :: e in pending[1..] ==> e in pending;
        ReplayMaterializedIsNoop(s, pending[1..], rest);
      }
    }
  }

  /** Draining the same entries a second time, as after a crash before the acks, changes nothing. */
  lemma DrainTwiceIsDrainOnce(s: Store, pending: seq<Entry>, faults1: seq<Fault>, faults2: seq<Fault>)
    ensures DrainStore(DrainStore(s, pending, faults1), pending, faults2) == DrainStore(s, pending, faults1)
  {
    DrainMaterializesAll(s, pending, faults1);
    ReplayMaterializedIsNoop(DrainStore(s, pending, faults1), pending, faults2);
  }

  /** The service's state: durable stock and orders, held locks, the stream, and the proxy field. */
  class VoucherOrderService {
    var stock: map<int, int>
    var orders: seq<VoucherOrder>
    /** Redisson locks currently held, by this or any other instance. */
    var locks: set<string>
    var queue: Queue
    /** Whether `proxy` has been assigned (it is null until a seckillVoucher succeeds). */
    var proxySet: bool
    const idWorker: RedisIdWorker

    ghost predicate Valid()
      reads this
    {
      OnePerBuyer(orders) && NonNegativeStock(stock) && queue.Valid()
    }

    function State(): Store
      reads this
    {
      Store(stock, orders)
    }

    constructor(idWorker: RedisIdWorker, stock: map<int, int>, orders: seq<VoucherOrder>,
                locks: set<string>, queue: Queue)
      requires OnePerBuyer(orders) && NonNegativeStock(stock) && queue.Valid()
      ensures Valid()
      ensures this.idWorker == idWorker && State() == Store(stock, orders)
      ensures this.locks == locks && this.queue == queue && !proxySet
    {
      this.idWorker := idWorker;
      this.stock := stock;
      this.orders := orders;
      this.locks := locks;
      this.queue := queue;
      this.proxySet := false;
    }

    /**
     * seckillVoucher for the current user at clock reading `nowSecond` on
     * `date`; `scriptResult` is what the admission script replied. The order
     * id is drawn first, so a rejected request still consumes a count.
     */
    method SeckillVoucher(nowSecond: Long, date: string, scriptResult: Long) returns (r: SeckillResult)
      requires Valid()
      modifies this, idWorker
      ensures Valid()
      ensures idWorker.counters == AfterIncr(old(idWorker.counters), CounterKey(ORDER_KEY_PREFIX, date))
      ensures match NextIdValue(old(idWorker.counters), ORDER_KEY_PREFIX, nowSecond, date)
              case None => r == Thrown
              case Some(id) => r == AdmissionResult(scriptResult, id)
      ensures proxySet == (old(proxySet) || r.Ok?)
      ensures State() == old(State()) && locks == old(locks) && queue == old(queue)
    {
      var orderId := idWorker.NextId(ORDER_KEY_PREFIX, nowSecond, date);
      if orderId.None? {
        r := Thrown;
        return;
      }
      var code := IntValue(scriptResult);
      if code != 0 {
        r := Fail(if code == 1 then OUT_OF_STOCK_MSG else DUPLICATE_MSG);
        return;
      }
      proxySet := true;
      r := Ok(orderId.value);
    }

    /**
     * createVoucherOrder called directly on the service object (no proxy, so
     * no transaction): statements before a throwing one keep their effect.
     */
    method CreateVoucherOrder(o: VoucherOrder, fault: Fault) returns (raised: bool)
      requires Valid()
      modifies this
      ensures Valid()
      ensures Attempt(State(), raised) == CreateOrderBody(old(State()), o, fault)
      ensures locks == old(locks) && queue == old(queue) && proxySet == old(proxySet)
    {
      ghost var before := State();
      CreateOrderKeepsOnePerBuyer(before, o, fault);
      CreateOrderStock(before, o, fault);
      if fault == CountFault {
        return true;
      }
      var count := CountPair(orders, o.voucherId, o.userId);
      if count > 0 {
        return false;
      }
      if fault == UpdateFault {
        return true;
      }
      var success := o.voucherId in stock && stock[o.voucherId] > 0;
      if success {
        stock := stock[o.voucherId := stock[o.voucherId] - 1];
      }
      if fault == SaveFault {
        return true;
      }
      orders := orders + [o];
      raised := false;
    }

    /** handleVoucherOrder: tryLock on "order:" + userId, create through the proxy, unlock. */
    method HandleVoucherOrder(o: VoucherOrder, fault: Fault) returns (raised: bool)
      requires Valid()
      modifies this
      ensures Valid()
      ensures Attempt(State(), raised)
           == HandleOrder(old(State()), LockName(o.userId) in old(locks), old(proxySet), o, fault)
      ensures locks == old(locks) && queue == old(queue) && proxySet == old(proxySet)
    {
      var name := LockName(o.userId);
      if name in locks {
        return false;
      }
      locks := locks + {name};
      if !proxySet {
        raised := true;
      } else {
        var savedStock, savedOrders := stock, orders;
        raised := CreateVoucherOrder(o, fault);
        if raised {
          stock, orders := savedStock, savedOrders;
        }
      }
      locks := locks - {name};
    }

    /**
     * One pass of VoucherOrderHandler.run: read the next new entry; if there is
     * one, handle it and acknowledge it on `stream.orders`. `failed` means the
     * handling threw, the entry stays pending and the catch block runs
     * handlePendingList next.
     */
    method HandlerStep(fault: Fault) returns (failed: bool)
      requires Valid()
      modifies this
      ensures Valid()
      ensures locks == old(locks) && proxySet == old(proxySet)
      ensures old(queue.delivered) == |old(queue.entries)|
              ==> !failed && queue == old(queue) && State() == old(State())
      ensures old(queue.delivered) < |old(queue.entries)| ==>
                var e := old(queue.entries)[old(queue.delivered)];
                && queue.entries == old(queue.entries)
                && queue.delivered == old(queue.delivered) + 1
                && queue.pending == (if failed then old(queue.pending) + [e] else old(queue.pending))
                && Attempt(State(), failed)
                   == HandleOrder(old(State()), LockName(e.order.userId) in old(locks), old(proxySet), e.order, fault)
    {
      var next := NextNew(queue);
      if next.None? {
        return false;
      }
      var e := next.value;
      PendingBeforeCursor(queue);
      queue := Deliver(queue);
      failed := HandleVoucherOrder(e.order, fault);
      if !failed {
        ghost var delivered := queue.pending;
        queue := Ack(queue, QUEUE_NAME, e.id);
        assert queue.pending == old(queue.pending) by {
          RemoveAbsent(old(queue.pending), e.id);
          RemoveIdAppend(old(queue.pending), e);
        }
      }
    }

    /**
     * One pass of handlePendingList as written: take the oldest pending entry,
     * run createVoucherOrder on it directly, and acknowledge on "s1". `done`
     * means the pending list was empty and the loop breaks. Because the
     * acknowledgement names another key, the entry is never removed.
     */
    method PendingStep(fault: Fault) returns (done: bool)
      requires Valid()
      modifies this
      ensures Valid()
      ensures done <==> old(queue.pending) == []
      ensures queue == old(queue)
      ensures done ==> State() == old(State())
      ensures !done ==> State() == CreateOrderBody(old(State()), old(queue.pending)[0].order, fault).store
      ensures locks == old(locks) && proxySet == old(proxySet)
    {
      var next := OldestPending(queue);
      if next.None? {
        return true;
      }
      var e := next.value;
      var raised := CreateVoucherOrder(e.order, fault);
      if !raised {
        queue := Ack(queue, PENDING_ACK_KEY, e.id);
      }
      done := false;
    }

    /**
     * handlePendingList as written, for as many passes as `faults` has
     * elements (the fault of each pass). It exits only when the pending list
     * is empty; otherwise every pass works on the same oldest entry, so the
     * loop never exits once an entry is pending.
     */
    method HandlePendingList(faults: seq<Fault>) returns (exited: bool)
      requires Valid()
      modifies this
      ensures Valid()
      ensures exited <==> old(queue.pending) == [] && faults != []
      ensures queue == old(queue)
      ensures old(queue.pending) == [] ==> State() == old(State())
      ensures old(queue.pending) != [] ==> State() == RepeatBody(old(State()), old(queue.pending)[0].order, faults)
      ensures locks == old(locks) && proxySet == old(proxySet)
    {
      exited := false;
      var i := 0;
      while i < |faults|
        invariant 0 <= i <= |faults|
        invariant Valid()
        invariant queue == old(queue) && locks == old(locks) && proxySet == old(proxySet)
        invariant old(queue.pending) == [] ==> State() == old(State()) && i == 0
        invariant old(queue.pending) != [] ==> State() == RepeatBody(old(State()), old(queue.pending)[0].order, faults[..i])
      {
        var done := PendingStep(faults[i]);
        if done {
          exited := true;
          break;
        }
        assert faults[..i + 1][..i] == faults[..i];
        i := i + 1;
      }
      if !exited {
        assert faults[..i] == faults;
      }
    }

    /**
     * handlePendingList with the acknowledgement on `stream.orders` and each
     * attempt inside the transaction. It ends with an empty pending list and
     * the store DrainStore describes.
     */
    method HandlePendingListCorrected(faults: seq<Fault>)
      requires Valid()
      modifies this
      ensures Valid()
      ensures queue.pending == []
      ensures queue.entries == old(queue.entries) && queue.delivered == old(queue.delivered)
      ensures State() == DrainStore(old(State()), old(queue.pending), faults)
      ensures AllMaterialized(State(), old(queue.pending))
      ensures locks == old(locks) && proxySet == old(proxySet)
    {
      var i := 0;
      while queue.pending != []
        invariant 0 <= i <= |faults|
        invariant Valid()
        invariant queue.entries == old(queue.entries) && queue.delivered == old(queue.delivered)
        invariant locks == old(locks) && proxySet == old(proxySet)
        invariant DrainStore(State(), queue.pending, faults[i..]) == DrainStore(old(State()), old(queue.pending), faults)
        decreases |queue.pending| + (|faults| - i)
      {
        var e := queue.pending[0];
        var fault := if i < |faults| then faults[i] else NoFault;
        ghost var before := State();
        var savedStock, savedOrders := stock, orders;
        var raised := CreateVoucherOrder(e.order, fault);
        if raised {
          stock, orders := savedStock, savedOrders;
        } else {
          RemoveFirst(queue.pending);
          queue := Ack(queue, QUEUE_NAME, e.id);
        }
        assert Attempt(State(), raised) == CreateOrderTransactional(before, e.order, fault);
        CreateOrderKeepsOnePerBuyer(before, e.order, fault);
        if i < |faults| {
          assert faults[i..][1..] == faults[i + 1..];
          i := i + 1;
        }
      }
      DrainMaterializesAll(old(State()), old(queue.pending), faults);
    }
  }
}
