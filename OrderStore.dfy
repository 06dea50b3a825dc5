/**
 * The durable side of the order path: the `seckill_voucher` stock column and
 * the `tb_voucher_order` table, and what one call of createVoucherOrder does
 * to them. The body runs under the user's monitor and, when called through
 * the Spring proxy, inside one transaction; both are taken as one atomic step.
 * A storage error is an input (`Fault`) saying which statement throws.
 */
module OrderStore {

  /** A `tb_voucher_order` row, as the queue entry carries it. */
  datatype VoucherOrder = VoucherOrder(id: int, voucherId: int, userId: int)

  /** Durable state: stock per voucher id, and the order rows in insertion order. */
  datatype Store = Store(stock: map<int, int>, orders: seq<VoucherOrder>)

  /** Which storage statement of createVoucherOrder throws, if any. */
  datatype Fault = NoFault | CountFault | UpdateFault | SaveFault

  /** The store once the body has returned or thrown, before any rollback. */
  datatype Attempt = Attempt(store: Store, raised: bool)

  /** `select count(*) from tb_voucher_order where voucher_id = ? and user_id = ?` */
  function CountPair(orders: seq<VoucherOrder>, voucherId: int, userId: int): nat
  {
    if orders == [] then 0
    else
      var last := orders[|orders| - 1];
      CountPair(orders[..|orders| - 1], voucherId, userId)
        + (if last.voucherId == voucherId && last.userId == userId then 1 else 0)
  }

  /**
   * The count of a pair is at most the number of orders, and zero exactly when
   * no order in the table has that pair.
   */
  lemma {:induction false} CountPairZero(orders: seq<VoucherOrder>, voucherId: int, userId: int)
    ensures CountPair(orders, voucherId, userId) <= |orders|
    ensures CountPair(orders, voucherId, userId) == 0
        <==> forall i :: 0 <= i < |orders| ==> !(orders[i].voucherId == voucherId && orders[i].userId == userId)
  {
    if orders != [] {
      var init := orders[..|orders| - 1];
      CountPairZero(init, voucherId, userId);
      assert forall i :: 0 <= i < |init| ==> init[i] == orders[i];
    }
  }

  /** Number of orders placed for one voucher. */
  function Sold(orders: seq<VoucherOrder>, voucherId: int): nat
  {
    if orders == [] then 0
    else
      Sold(orders[..|orders| - 1], voucherId)
        + (if orders[|orders| - 1].voucherId == voucherId then 1 else 0)
  }

  /** The core invariant: at most one order per (voucher, user) pair. */
  ghost predicate OnePerBuyer(orders: seq<VoucherOrder>)
  {
    forall v, u :: CountPair(orders, v, u) <= 1
  }

  ghost predicate NonNegativeStock(stock: map<int, int>)
  {
    forall v :: v in stock ==> stock[v] >= 0
  }

  /** The WHERE clause of the stock update: the row exists and its stock is positive. */
  predicate CanDecrement(stock: map<int, int>, voucherId: int)
  {
    voucherId in stock && stock[voucherId] > 0
  }

  /** `update seckill_voucher set stock = stock - 1 where voucher_id = ? and stock > 0` */
  function Decrement(stock: map<int, int>, voucherId: int): (r: map<int, int>)
    ensures r.Keys == stock.Keys
    ensures forall v :: v in stock && v != voucherId ==> r[v] == stock[v]
    ensures voucherId in stock ==> r[voucherId] == if stock[voucherId] > 0 then stock[voucherId] - 1 else stock[voucherId]
    ensures NonNegativeStock(stock) ==> NonNegativeStock(r)
  {
    if CanDecrement(stock, voucherId) then stock[voucherId := stock[voucherId] - 1] else stock
  }

  /**
   * The body of createVoucherOrder as written: return on an existing order,
   * otherwise decrement where stock > 0, log if that matched no row, and save
   * the order either way. Statements up to the faulting one take effect.
   */
  function CreateOrderBody(s: Store, o: VoucherOrder, fault: Fault): (a: Attempt)
    ensures a.raised ==> fault != NoFault
    ensures CountPair(s.orders, o.voucherId, o.userId) > 0 ==> a.store == s
  {
    if fault == CountFault then Attempt(s, true)
    else if CountPair(s.orders, o.voucherId, o.userId) > 0 then Attempt(s, false)
    else if fault == UpdateFault then Attempt(s, true)
    else
      var stock := Decrement(s.stock, o.voucherId);
      if fault == SaveFault then Attempt(Store(stock, s.orders), true)
      else Attempt(Store(stock, s.orders + [o]), false)
  }

  /** One fault-free call of createVoucherOrder. */
  function CreateOrder(s: Store, o: VoucherOrder): Store
  {
    CreateOrderBody(s, o, NoFault).store
  }

  /** A call through the Spring proxy: @Transactional rolls back when the body throws. */
  function Transactional(s: Store, a: Attempt): (r: Attempt)
    ensures r.raised == a.raised
    ensures r.raised ==> r.store == s
    ensures !r.raised ==> r.store == a.store
  {
    if a.raised then Attempt(s, true) else a
  }

  function CreateOrderTransactional(s: Store, o: VoucherOrder, fault: Fault): (r: Attempt)
    ensures r.raised == CreateOrderBody(s, o, fault).raised
    ensures r.raised ==> r.store == s
    ensures !r.raised ==> r.store == CreateOrderBody(s, o, fault).store
  {
    Transactional(s, CreateOrderBody(s, o, fault))
  }

  lemma CountPairAppend(orders: seq<VoucherOrder>, o: VoucherOrder, v: int, u: int)
    ensures CountPair(orders + [o], v, u)
         == CountPair(orders, v, u) + (if o.voucherId == v && o.userId == u then 1 else 0)
  {
    assert (orders + [o])[..|orders|] == orders;
  }

  lemma SoldAppend(orders: seq<VoucherOrder>, o: VoucherOrder, v: int)
    ensures Sold(orders + [o], v) == Sold(orders, v) + (if o.voucherId == v then 1 else 0)
  {
    assert (orders + [o])[..|orders|] == orders;
  }

  /** An order for an existing (voucher, user) pair changes neither orders nor stock. */
  lemma DuplicateIsNoop(s: Store, o: VoucherOrder, fault: Fault)
    requires CountPair(s.orders, o.voucherId, o.userId) > 0
    ensures CreateOrderBody(s, o, fault) == Attempt(s, fault == CountFault)
    ensures CreateOrder(s, o) == s
  {
  }

  /** Running the same order n >= 1 times in a row. */
  function Replay(s: Store, o: VoucherOrder, n: nat): Store
    decreases n
  {
    if n == 0 then s else Replay(CreateOrder(s, o), o, n - 1)
  }

  /** Replaying an order any number of times leaves the state that running it once does. */
  lemma {:induction false} ReplayIsIdempotent(s: Store, o: VoucherOrder, n: nat)
    requires n >= 1
    ensures Replay(s, o, n) == CreateOrder(s, o)
    ensures CountPair(Replay(s, o, n).orders, o.voucherId, o.userId) >= 1
    ensures CountPair(s.orders, o.voucherId, o.userId) == 0
        ==> CountPair(Replay(s, o, n).orders, o.voucherId, o.userId) == 1
  {
    var once := CreateOrder(s, o);
    CountPairAppend(s.orders, o, o.voucherId, o.userId);
    assert CountPair(once.orders, o.voucherId, o.userId) >= 1;
    if n > 1 {
      ReplayExisting(once, o, n - 1);
    }
  }

  lemma {:induction false} ReplayExisting(s: Store, o: VoucherOrder, n: nat)
    requires CountPair(s.orders, o.voucherId, o.userId) >= 1
    ensures Replay(s, o, n) == s
  {
    if n > 0 {
      DuplicateIsNoop(s, o, NoFault);
      ReplayExisting(s, o, n - 1);
    }
  }

  /** Every outcome of the body, thrown or not, keeps at most one order per pair. */
  lemma CreateOrderKeepsOnePerBuyer(s: Store, o: VoucherOrder, fault: Fault)
    requires OnePerBuyer(s.orders)
    ensures OnePerBuyer(CreateOrderBody(s, o, fault).store.orders)
    ensures OnePerBuyer(CreateOrderTransactional(s, o, fault).store.orders)
  {
    var a := CreateOrderBody(s, o, fault);
    if a.store.orders != s.orders {
      forall v, u ensures CountPair(a.store.orders, v, u) <= 1 {
        CountPairAppend(s.orders, o, v, u);
      }
    }
  }

  /** With no prior order for the pair, one call adds exactly that order. */
  lemma CreateOrderAddsOne(s: Store, o: VoucherOrder)
    requires CountPair(s.orders, o.voucherId, o.userId) == 0
    ensures CreateOrder(s, o).orders == s.orders + [o]
    ensures CountPair(CreateOrder(s, o).orders, o.voucherId, o.userId) == 1
    ensures forall v, u :: (v, u) != (o.voucherId, o.userId)
              ==> CountPair(CreateOrder(s, o).orders, v, u) == CountPair(s.orders, v, u)
  {
    forall v, u ensures CountPair(CreateOrder(s, o).orders, v, u)
                     == CountPair(s.orders, v, u) + (if o.voucherId == v && o.userId == u then 1 else 0) {
      CountPairAppend(s.orders, o, v, u);
    }
  }

  /**
   * The order's voucher loses exactly one unit iff its stock was positive;
   * every other voucher keeps its stock, and stock never becomes negative.
   */
  lemma CreateOrderStock(s: Store, o: VoucherOrder, fault: Fault)
    ensures var r := CreateOrderBody(s, o, fault).store.stock;
      && r.Keys == s.stock.Keys
      && (forall v :: v in s.stock && v != o.voucherId ==> r[v] == s.stock[v])
      && (o.voucherId in s.stock ==>
            (r[o.voucherId] == s.stock[o.voucherId] - 1 || r[o.voucherId] == s.stock[o.voucherId]))
      && (o.voucherId in s.stock && r[o.voucherId] == s.stock[o.voucherId] - 1 ==> s.stock[o.voucherId] > 0)
      && (NonNegativeStock(s.stock) ==> NonNegativeStock(r))
    ensures CountPair(s.orders, o.voucherId, o.userId) == 0 && CanDecrement(s.stock, o.voucherId)
              && (fault == NoFault || fault == SaveFault)
            ==> CreateOrderBody(s, o, fault).store.stock[o.voucherId] == s.stock[o.voucherId] - 1
  {
  }

  /** When the decrement matches no row, the order is saved all the same. */
  lemma SavedWithoutStock(s: Store, o: VoucherOrder)
    requires CountPair(s.orders, o.voucherId, o.userId) == 0
    requires !CanDecrement(s.stock, o.voucherId)
    ensures CreateOrder(s, o) == Store(s.stock, s.orders + [o])
  {
  }

  /** Stock plus orders sold stays constant for a voucher under a correct order path. */
  ghost predicate Conserves(before: Store, after: Store, voucherId: int)
  {
    voucherId in before.stock && voucherId in after.stock &&
    Sold(after.orders, voucherId) + after.stock[voucherId]
      == Sold(before.orders, voucherId) + before.stock[voucherId]
  }

  /**
   * As written, an order saved without stock breaks conservation: with
   * voucher 1 at stock 0 and no orders, user 7's order is saved and voucher 1
   * has one order more than it ever had stock for.
   */
  lemma OversellWitness()
    ensures var s := Store(map[1 := 0], []);
            var r := CreateOrder(s, VoucherOrder(100, 1, 7));
            r.orders == [VoucherOrder(100, 1, 7)] && r.stock == map[1 := 0] && !Conserves(s, r, 1)
  {
    var s := Store(map[1 := 0], []);
    SoldAppend([], VoucherOrder(100, 1, 7), 1);
  }

  /** Every call on a known voucher that saves an order without stock breaks conservation. */
  lemma {:induction false} SavedWithoutStockOversells(s: Store, o: VoucherOrder)
    requires CountPair(s.orders, o.voucherId, o.userId) == 0
    requires o.voucherId in s.stock && s.stock[o.voucherId] <= 0
    ensures !Conserves(s, CreateOrder(s, o), o.voucherId)
  {
    SoldAppend(s.orders, o, o.voucherId);
  }

  /** createVoucherOrder with a return after the failed decrement, as the log line intends. */
  function CreateOrderCorrected(s: Store, o: VoucherOrder): Store
  {
    if CountPair(s.orders, o.voucherId, o.userId) > 0 then s
    else if !CanDecrement(s.stock, o.voucherId) then s
    else Store(Decrement(s.stock, o.voucherId), s.orders + [o])
  }

  /** The corrected body keeps stock plus sold constant for every known voucher. */
  lemma {:induction false} CorrectedConservesStock(s: Store, o: VoucherOrder, v: int)
    requires v in s.stock
    ensures Conserves(s, CreateOrderCorrected(s, o), v)
    ensures OnePerBuyer(s.orders) ==> OnePerBuyer(CreateOrderCorrected(s, o).orders)
    ensures NonNegativeStock(s.stock) ==> NonNegativeStock(CreateOrderCorrected(s, o).stock)
  {
    var r := CreateOrderCorrected(s, o);
    if r != s {
      SoldAppend(s.orders, o, v);
      forall v', u ensures CountPair(r.orders, v', u)
                        == CountPair(s.orders, v', u) + (if o.voucherId == v' && o.userId == u then 1 else 0) {
        CountPairAppend(s.orders, o, v', u);
      }
    }
  }

  /**
   * Without the proxy's transaction, a failing save leaves the stock
   * decremented for an order that was never written.
   */
  lemma SaveFaultLeaksStock(s: Store, o: VoucherOrder)
    requires CountPair(s.orders, o.voucherId, o.userId) == 0
    requires CanDecrement(s.stock, o.voucherId)
    ensures CreateOrderBody(s, o, SaveFault).raised
    ensures CreateOrderBody(s, o, SaveFault).store.orders == s.orders
    ensures CreateOrderBody(s, o, SaveFault).store.stock[o.voucherId] == s.stock[o.voucherId] - 1
  {
  }

  /** Through the proxy a throwing body leaves orders and stock exactly as they were. */
  lemma TransactionalFaultIsNoop(s: Store, o: VoucherOrder, fault: Fault)
    requires fault != NoFault
    requires CountPair(s.orders, o.voucherId, o.userId) == 0 || fault == CountFault
    ensures CreateOrderTransactional(s, o, fault) == Attempt(s, true)
  {
  }
}
