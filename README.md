# Flash-sale order path: a Dafny model

This project models the order path of the flash-sale ("seckill") service:

- how `RedisIdWorker.nextId` builds an order id. The high bits hold the clock reading minus `BEGIN_TIMESTAMP`. The clock reading is the JVM's local wall clock (`LocalDateTime.now()`) converted to epoch seconds as if it were UTC, so the epoch is local midnight of 2022-01-01 and it matches Unix time only when the default zone is UTC. The low 32 bits hold a Redis `INCR` counter kept per key prefix and per day.
- how `VoucherOrderServiceImpl` turns admitted orders into rows of the order table.
  - `seckillVoucher` maps the admission script's reply to a response. It draws the order id first because the script receives it (VoucherOrderServiceImpl.java:192-195), so a rejected request still consumes a counter value.
  - `handleVoucherOrder` guards each order with a per-user Redisson lock.
  - `createVoucherOrder` enforces one order per (voucher, user) and decrements stock where it is positive.
  - Two loops drain the Redis stream `stream.orders`. The handler reads new entries. The pending-list drain re-reads entries that were delivered but never acknowledged.

Files, one module each:

- `JavaLong.dfy`: Java `long` arithmetic. It covers wrap-around, `<<`, `>>`, `|`, `&`, `intValue()` and `Long.toString`. The bit operators are defined arithmetically on the unsigned 64-bit pattern.
- `Wrappers.dfy`: `Option`.
- `IdWorker.dfy`: the id layout, the epoch constant, the counter key and `INCR`, and class `RedisIdWorker` with method `NextId`.
- `OrderStore.dfy`: the durable stock map and the order table, and what one call of `createVoucherOrder` does to them.
- `OrderStream.dfy`: `stream.orders` as consumer group `g1`, consumer `c1` sees it. That is the entries, the group's cursor and the pending list, plus the Redis commands `XREADGROUP ... >`, `XREADGROUP ... 0` and `XACK`.
- `VoucherOrderService.dfy`: class `VoucherOrderService`. Its fields are the stock map, the orders, the set of held locks, the stream and whether `proxy` is set. It has one method per operation and one method per pass of each loop.

Storage errors are an input of type `Fault`, which names the statement of `createVoucherOrder` that throws. Called through the Spring proxy, the method runs inside `@Transactional` and rolls back on error. The pending-list drain calls it on the object itself. That call bypasses the proxy, so statements that ran before the error keep their effect. A `proxy` that is still null makes `handleVoucherOrder` throw.

Where the code departs from what its own log messages and annotations intend, the model follows the code:

- An order is saved even when the stock update matched no row.
- The pending-list drain acknowledges on `"s1"` rather than on `stream.orders`.

The corrected behaviours are modelled beside the as-written ones; see "## Findings".

## Model

| member | source | states |
|---|---|---|
| IdWorker.BeginIsNewYear2022 | src/main/java/com/hmdp/utils/RedisIdWorker.java:31-36 | BEGIN_TIMESTAMP (1640995200) is the Unix second of 2022-01-01 00:00:00 UTC, counting the days year by year from 1970 |
| IdWorker.Timestamp | src/main/java/com/hmdp/utils/RedisIdWorker.java:21-23 | the timestamp is nowSecond − BEGIN_TIMESTAMP, where nowSecond is the local wall clock read as UTC epoch seconds; it is non-negative for every reading at or after BEGIN_TIMESTAMP (local midnight of 2022-01-01) and negative before it, within the range where the long subtraction does not wrap |
| IdWorker.ComposeId | src/main/java/com/hmdp/utils/RedisIdWorker.java:29 | `timestamp << COUNT_BITS OR count` on longs; for 0 ≤ timestamp < 2^31 and 0 ≤ count < 2^32 it is the number timestamp·2^32 + count |
| IdWorker.ComposeRoundTrip | src/main/java/com/hmdp/utils/RedisIdWorker.java:29 | with both fields in range, `id >> 32` returns the timestamp and `id & (2^32−1)` returns the count |
| IdWorker.ComposeInjective | src/main/java/com/hmdp/utils/RedisIdWorker.java:29 | two in-range (timestamp, count) pairs give the same id exactly when they are the same pair |
| IdWorker.ComposeOrdered | src/main/java/com/hmdp/utils/RedisIdWorker.java:29 | for in-range fields, one id is smaller than another exactly when its timestamp is smaller, or the timestamps are equal and its count is smaller |
| IdWorker.ComposeNegativeFrom2090 | src/main/java/com/hmdp/utils/RedisIdWorker.java:29 | for timestamps from 2^31 up to 2^32 (2090 to 2158), the shift carries the timestamp into the sign bit and the id is negative |
| IdWorker.CounterKey | src/main/java/com/hmdp/utils/RedisIdWorker.java:26-27 | the key is "inc:", then the prefix, then ":", then the date, with the date as its suffix |
| IdWorker.CounterKeyPerDate | src/main/java/com/hmdp/utils/RedisIdWorker.java:26-27 | the counter key "inc:" + prefix + ":" + date differs between two dates, so each day gets its own counter |
| IdWorker.Incr | src/main/java/com/hmdp/utils/RedisIdWorker.java:27 | INCR succeeds exactly when the stored value is below Long.MAX_VALUE; it returns a larger value than the stored one, and 1 for a missing key |
| IdWorker.AfterIncr | src/main/java/com/hmdp/utils/RedisIdWorker.java:27 | INCR stores the new count under its key and leaves every other counter unchanged |
| IdWorker.IncrStrictlyIncreasing | src/main/java/com/hmdp/utils/RedisIdWorker.java:27 | two successive INCRs of one key return strictly increasing counts |
| IdWorker.NextIdValue | src/main/java/com/hmdp/utils/RedisIdWorker.java:19-30 | nextId yields an id exactly when the counter is below Long.MAX_VALUE; with both fields in range, `id >> 32` is the timestamp and `id & (2^32−1)` the incremented count |
| IdWorker.SuccessiveIdsIncrease | src/main/java/com/hmdp/utils/RedisIdWorker.java:19-30 | two successive nextId calls with one prefix on one date, at non-decreasing clock readings within range, return strictly increasing ids |
| IdWorker.RedisIdWorker.NextId | src/main/java/com/hmdp/utils/RedisIdWorker.java:19-30 | returns `(timestamp << 32) OR count` for the incremented count and changes only that key's counter; returns None (Java throws) when Redis refuses the INCR |
| JavaLong.ShiftLeft | src/main/java/com/hmdp/utils/RedisIdWorker.java:29 | `x << n` is x·2^(n mod 64) modulo 2^64, and exactly that product when it fits in a long |
| JavaLong.ShiftRight | src/main/java/com/hmdp/utils/RedisIdWorker.java:29 | `x >> n` is the floor of x / 2^(n mod 64): r·2^(n mod 64) ≤ x < (r+1)·2^(n mod 64) |
| JavaLong.Or | src/main/java/com/hmdp/utils/RedisIdWorker.java:29 | OR of two non-negative longs whose sum fits is at least each operand and at most their sum; its exact value on disjoint bits is OrDisjoint |
| JavaLong.And | src/main/java/com/hmdp/utils/RedisIdWorker.java:29 | AND with a non-negative mask lies between 0 and the mask; its exact value for the low mask is AndLowMask |
| JavaLong.OrDisjoint | src/main/java/com/hmdp/utils/RedisIdWorker.java:29 | OR-ing a value below 2^k into a pattern whose low k bits are clear adds the two |
| JavaLong.AndLowMask | src/main/java/com/hmdp/utils/RedisIdWorker.java:29 | masking m·2^k + b (b < 2^k) with 2^k − 1 gives b back |
| JavaLong.IntValue | src/main/java/com/hmdp/service/impl/VoucherOrderServiceImpl.java:196-197 | `Long.intValue()` gives a 32-bit int congruent to the long modulo 2^32, and the same value when the long fits |
| JavaLong.DecimalString | src/main/java/com/hmdp/service/impl/VoucherOrderServiceImpl.java:84 | `Long.toString` gives a non-empty string that starts with '-' exactly for negative values and is digits otherwise |
| JavaLong.DecimalStringInjective | src/main/java/com/hmdp/service/impl/VoucherOrderServiceImpl.java:84 | distinct user ids print as distinct decimal strings |
| OrderStore.CountPairZero | src/main/java/com/hmdp/service/impl/VoucherOrderServiceImpl.java:233 | the count query for a (voucher, user) pair is at most the table size and is zero exactly when no order has that pair |
| OrderStore.Decrement | src/main/java/com/hmdp/service/impl/VoucherOrderServiceImpl.java:239-243 | the update lowers the voucher's stock by one when it is positive and changes nothing otherwise; other vouchers are untouched and non-negative stock stays non-negative |
| OrderStore.CreateOrderBody | src/main/java/com/hmdp/service/impl/VoucherOrderServiceImpl.java:227-250 | a call throws only when a storage fault occurs, and it leaves the store unchanged whenever an order for the pair already exists |
| OrderStore.Transactional | src/main/java/com/hmdp/service/impl/VoucherOrderServiceImpl.java:227 | through the proxy, a call that throws leaves the store as it was before the call; one that returns keeps its effect |
| OrderStore.CreateOrderTransactional | src/main/java/com/hmdp/service/impl/VoucherOrderServiceImpl.java:94 | `proxy.createVoucherOrder` throws exactly when the body does; a throw leaves the store as it was, a normal return keeps the body's effect |
| OrderStore.DuplicateIsNoop | src/main/java/com/hmdp/service/impl/VoucherOrderServiceImpl.java:233-237 | if an order for the (voucher, user) pair exists, orders and stock stay unchanged, whatever fault occurs |
| OrderStore.ReplayIsIdempotent | src/main/java/com/hmdp/service/impl/VoucherOrderServiceImpl.java:233-237 | running the same order n ≥ 1 times yields the state of running it once, with exactly one order for the pair if there was none |
| OrderStore.CreateOrderKeepsOnePerBuyer | src/main/java/com/hmdp/service/impl/VoucherOrderServiceImpl.java:229-248 | every outcome, thrown or not and with or without the transaction, keeps at most one order per (voucher, user) |
| OrderStore.CreateOrderAddsOne | src/main/java/com/hmdp/service/impl/VoucherOrderServiceImpl.java:229-248 | with no prior order for the pair, one call appends exactly that order and changes no other pair's count |
| OrderStore.CreateOrderStock | src/main/java/com/hmdp/service/impl/VoucherOrderServiceImpl.java:239-243 | the order's voucher loses one unit only if its stock was positive, and does lose it when the update runs; other vouchers keep their stock, and stock never becomes negative |
| OrderStore.SavedWithoutStock | src/main/java/com/hmdp/service/impl/VoucherOrderServiceImpl.java:244-248 | when the stock update matches no row, the order is still appended and stock is unchanged |
| OrderStore.OversellWitness | src/main/java/com/hmdp/service/impl/VoucherOrderServiceImpl.java:244-248 | voucher 1 at stock 0 and an order by user 7: the order is saved, and stock plus sold for voucher 1 goes from 0 to 1 |
| OrderStore.SavedWithoutStockOversells | src/main/java/com/hmdp/service/impl/VoucherOrderServiceImpl.java:244-248 | every save made without stock breaks "stock + orders sold is constant" for that voucher |
| OrderStore.CorrectedConservesStock | src/main/java/com/hmdp/service/impl/VoucherOrderServiceImpl.java:239-248 | with a return after the failed update, stock + sold is constant for every voucher, one order per pair holds, and stock stays non-negative |
| OrderStore.SaveFaultLeaksStock | src/main/java/com/hmdp/service/impl/VoucherOrderServiceImpl.java:173 | without the transaction, a failing save leaves the voucher's stock decremented and no order written |
| OrderStore.TransactionalFaultIsNoop | src/main/java/com/hmdp/service/impl/VoucherOrderServiceImpl.java:227-250 | through the proxy, any storage fault leaves orders and stock exactly as they were |
| OrderStream.NextNew | src/main/java/com/hmdp/service/impl/VoucherOrderServiceImpl.java:127-131 | `XREADGROUP ... >` returns the group's next undelivered entry, which is not yet pending, or nothing when all entries are delivered |
| OrderStream.Deliver | src/main/java/com/hmdp/service/impl/VoucherOrderServiceImpl.java:127-131 | the read advances the group's cursor by one and appends the entry to the pending list, keeping the stream well formed |
| OrderStream.OldestPending | src/main/java/com/hmdp/service/impl/VoucherOrderServiceImpl.java:157-162 | `XREADGROUP ... 0` returns the pending entry with the smallest id, and nothing exactly when no entry is pending |
| OrderStream.Ack | src/main/java/com/hmdp/service/impl/VoucherOrderServiceImpl.java:144 | XACK on `stream.orders` removes exactly the entries with that id from the pending list; XACK on any other key leaves this stream unchanged |
| VoucherOrderService.AdmissionResult | src/main/java/com/hmdp/service/impl/VoucherOrderServiceImpl.java:196-202 | the response is ok(orderId) exactly when the reply's int value is 0; otherwise it fails with "库存不足" exactly when that value is 1, and with "不能重复下单" for any other value |
| VoucherOrderService.AdmissionTruncatesReply | src/main/java/com/hmdp/service/impl/VoucherOrderServiceImpl.java:196-197 | `intValue()` truncates the reply: 2^32 reads as success, 2^32+1 as out of stock, −1 as duplicate |
| VoucherOrderService.LockName | src/main/java/com/hmdp/service/impl/VoucherOrderServiceImpl.java:84 | the lock name is "order:" followed by the decimal user id, with a '-' after the colon exactly for negative ids |
| VoucherOrderService.LockNameInjective | src/main/java/com/hmdp/service/impl/VoucherOrderServiceImpl.java:84 | different users get different lock names "order:" + userId |
| VoucherOrderService.HandleOrder | src/main/java/com/hmdp/service/impl/VoucherOrderServiceImpl.java:80-98 | with the lock held elsewhere nothing changes and nothing is thrown; a call that throws leaves the store unchanged |
| VoucherOrderService.HandleOrderKeepsInvariant | src/main/java/com/hmdp/service/impl/VoucherOrderServiceImpl.java:80-98 | handling an order keeps one order per pair and non-negative stock |
| VoucherOrderService.RepeatExistingIsNoop | src/main/java/com/hmdp/service/impl/VoucherOrderServiceImpl.java:154-185 | once the oldest pending order exists, further passes of the drain over it change nothing |
| VoucherOrderService.DrainMaterializesAll | src/main/java/com/hmdp/service/impl/VoucherOrderServiceImpl.java:154-185 | after the corrected drain, every drained entry has its order, no existing order is lost, and one order per pair still holds, whatever faults occurred |
| VoucherOrderService.ReplayMaterializedIsNoop | src/main/java/com/hmdp/service/impl/VoucherOrderServiceImpl.java:154-185 | replaying entries whose orders all exist changes nothing, with any faults |
| VoucherOrderService.DrainTwiceIsDrainOnce | src/main/java/com/hmdp/service/impl/VoucherOrderServiceImpl.java:154-185 | draining the same pending entries again, as after a crash before the acks, gives the same store as draining them once |
| VoucherOrderService.VoucherOrderService.SeckillVoucher | src/main/java/com/hmdp/service/impl/VoucherOrderServiceImpl.java:187-203 | draws the id from nextId("order") first, so the counter advances whatever the reply; then returns AdmissionResult of the reply, sets `proxy` only on success, and changes no store or stream |
| VoucherOrderService.VoucherOrderService.CreateVoucherOrder | src/main/java/com/hmdp/service/impl/VoucherOrderServiceImpl.java:227-250 | the new store and the thrown flag are those of CreateOrderBody; the invariant holds afterwards |
| VoucherOrderService.VoucherOrderService.HandleVoucherOrder | src/main/java/com/hmdp/service/impl/VoucherOrderServiceImpl.java:80-98 | the store changes as HandleOrder says, and the lock set afterwards equals the lock set before |
| VoucherOrderService.VoucherOrderService.HandlerStep | src/main/java/com/hmdp/service/impl/VoucherOrderServiceImpl.java:124-151 | an empty read changes nothing; otherwise the entry is delivered and handled, and it is acknowledged only if handling returned normally, so a failed entry stays pending |
| VoucherOrderService.VoucherOrderService.PendingStep | src/main/java/com/hmdp/service/impl/VoucherOrderServiceImpl.java:155-184 | a pass stops only on an empty pending list; otherwise it runs createVoucherOrder on the oldest pending order, and the ack on "s1" leaves the stream unchanged |
| VoucherOrderService.VoucherOrderService.HandlePendingList | src/main/java/com/hmdp/service/impl/VoucherOrderServiceImpl.java:154-185 | the drain exits only if nothing was pending; otherwise every pass reworks the same oldest entry and the pending list never shrinks |
| VoucherOrderService.VoucherOrderService.HandlePendingListCorrected | src/main/java/com/hmdp/service/impl/VoucherOrderServiceImpl.java:154-185 | with the ack on `stream.orders` and transactional attempts, the drain terminates with an empty pending list, every drained order exists, and the store is the DrainStore of the old one |

## Findings

| source | as written | input that shows it | evidently intended | confidence | as-written member | corrected member |
|---|---|---|---|---|---|---|
| src/main/java/com/hmdp/service/impl/VoucherOrderServiceImpl.java:244-248 | after the stock update matches no row, the code logs "库存不足" and saves the order anyway | voucher 1 at stock 0, no orders, order 100 by user 7: the order is saved and voucher 1 is oversold | return after the log, so no order is saved without a unit of stock | high (not executed) | OrderStore.SavedWithoutStockOversells | OrderStore.CorrectedConservesStock |
| src/main/java/com/hmdp/service/impl/VoucherOrderServiceImpl.java:175 | the pending-list drain acknowledges on key "s1" while it reads `stream.orders` | any non-empty pending list: the oldest entry is read, processed and read again on every pass, so the loop never exits | acknowledge on `stream.orders`, so the drain removes each entry and terminates; the corrected member also runs each attempt in the transaction, the fix of the row for :173 | high (not executed) | VoucherOrderService.VoucherOrderService.HandlePendingList | VoucherOrderService.VoucherOrderService.HandlePendingListCorrected |
| src/main/java/com/hmdp/service/impl/VoucherOrderServiceImpl.java:173 | the drain calls createVoucherOrder on the object itself, bypassing the proxy, so `@Transactional` does not apply | a pending order whose save throws after the stock update succeeded: one unit of stock is gone and no order was written, and a retry takes another | run the call in the transaction, as the handler does through `proxy` | medium (not executed) | OrderStore.SaveFaultLeaksStock | OrderStore.TransactionalFaultIsNoop |

The class methods other than `HandlePendingListCorrected` model the code as written. The corrected members stand beside them. `DrainStore` and its lemmas describe the corrected drain.

## Left out

- The Lua admission script `seckill.lua` is not part of this model. `SeckillVoucher` takes the script's reply as an input. The script's own Redis effects are not modelled: the advisory stock, the buyer set and the entry it appends to `stream.orders`. The stream's entries are whatever the model is given.
- SeckillVoucher: the voucher id and the user id only go to the script, so they are not parameters. A null reply, which would throw in `intValue()`, is not modelled.
- Concurrency is out of scope: the `synchronized` monitor, the single-thread executor started by `@PostConstruct`, publication of the `proxy` field across threads, and Redisson lock leases, reentrancy and waiting. Each call of `createVoucherOrder` is one atomic step. The lock set stands for locks held anywhere.
- The `while (true)` loops are modelled one pass at a time (`HandlerStep`, `PendingStep`). The catch block that runs `handlePendingList` after a failed pass is not composed into one method; `HandlerStep` returns `failed` for it.
- HandlePendingList: runs a bounded number of passes, one per element of `faults`, because the source loop is unbounded.
- Only three sources of exceptions are modelled: storage errors inside `createVoucherOrder`, the null `proxy`, and `INCR` refused at Long.MAX_VALUE in `nextId` (`NextId` returns None and `SeckillVoucher` returns `Thrown`). Redis errors on the stream read or on XACK, and the 20 ms sleep after a failed pass, are left out.
- The 2-second blocking timeout, `BeanUtil.fillBeanWithMap` parsing and logging are left out. Stream entries carry already-typed orders.
- The order insert always succeeds unless a `SaveFault` is given. Primary-key conflicts in the order table are not modelled.
- The clock and the date formatter are left out: `NextId` takes the epoch second and the `yyyy:MM:dd` date string as parameters.
- Timestamp/NextId: nowSecond is the local wall clock read as UTC. Backward clock steps (a daylight-saving fall-back, an NTP correction) are not modelled; SuccessiveIdsIncrease assumes none occurs through its `now1 <= now2` premise, and ids on one date can decrease when one does.
- HandlePendingListCorrected: its empty pending list at the end relies on attempts past the end of `faults` succeeding. A storage fault that never clears would keep even the corrected drain retrying the same entry forever, as the source would.
- NextId: a counter key holding a non-integer string, which Redis also refuses, is not modelled; counter values are longs.
- The commented-out variants are left out: the blocking in-process queue and the older `seckillVoucher`.
- The shop, user, follow, shop-type services and the login interceptor are out of scope. They are I/O wrappers over Redis and the database.
