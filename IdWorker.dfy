/**
 * Order identifiers (RedisIdWorker.nextId): the clock reading minus
 * BEGIN_TIMESTAMP in the high 32 bits, OR-ed with a counter that Redis INCR keeps per key
 * prefix and per calendar day. The clock reading is the JVM's local wall
 * clock (`LocalDateTime.now()`) read as if it were UTC, so it is Unix time
 * only when the default zone is UTC. It and the formatted date are
 * parameters; the Redis string keys holding counters are a map.
 */
module IdWorker {
  import opened JavaLong
  import opened Wrappers

  /** 2022-01-01T00:00:00Z as Unix seconds. */
  const BEGIN_TIMESTAMP: Long := 1640995200
  /** Width of the counter field in an id. */
  const COUNT_BITS: Long := 32

  const TWO_31: int := 0x8000_0000

  // ---------------------------------------------------------------------------
  // The epoch constant

  predicate IsLeapYear(y: int)
  {
    y % 4 == 0 && (y % 100 != 0 || y % 400 == 0)
  }

  function DaysInYear(y: int): nat
  {
    if IsLeapYear(y) then 366 else 365
  }

  /** Days from 1970-01-01 to January 1st of year `y`, counted year by year. */
  function DaysBeforeYear(y: int): nat
    requires y >= 1970
    decreases y
  {
    if y == 1970 then 0 else DaysBeforeYear(y - 1) + DaysInYear(y - 1)
  }

  /** Unix seconds of midnight UTC on January 1st of year `y`. */
  function NewYearEpochSecond(y: int): (r: nat)
    requires y >= 1970
    ensures r % 86400 == 0
  {
    DaysBeforeYear(y) * 86400
  }

  /** BEGIN_TIMESTAMP is the Unix second of 2022-01-01 00:00:00 UTC. */
  lemma {:induction false} BeginIsNewYear2022()
    ensures NewYearEpochSecond(2022) == BEGIN_TIMESTAMP
  {
    assert DaysBeforeYear(1972) == 730;
    assert DaysBeforeYear(1974) == 1461;
    assert DaysBeforeYear(1976) == 2191;
    assert DaysBeforeYear(1978) == 2922;
    assert DaysBeforeYear(1980) == 3652;
    assert DaysBeforeYear(1982) == 4383;
    assert DaysBeforeYear(1984) == 5113;
    assert DaysBeforeYear(1986) == 5844;
    assert DaysBeforeYear(1988) == 6574;
    assert DaysBeforeYear(1990) == 7305;
    assert DaysBeforeYear(1992) == 8035;
    assert DaysBeforeYear(1994) == 8766;
    assert DaysBeforeYear(1996) == 9496;
    assert DaysBeforeYear(1998) == 10227;
    assert DaysBeforeYear(2000) == 10957;
    assert DaysBeforeYear(2002) == 11688;
    assert DaysBeforeYear(2004) == 12418;
    assert DaysBeforeYear(2006) == 13149;
    assert DaysBeforeYear(2008) == 13879;
    assert DaysBeforeYear(2010) == 14610;
    assert DaysBeforeYear(2012) == 15340;
    assert DaysBeforeYear(2014) == 16071;
    assert DaysBeforeYear(2016) == 16801;
    assert DaysBeforeYear(2018) == 17532;
    assert DaysBeforeYear(2020) == 18262;
    assert DaysBeforeYear(2022) == 18993;
  }

  // ---------------------------------------------------------------------------
  // The id layout

  /** `nowSecond - BEGIN_TIMESTAMP` as a Java long subtraction. */
  function Timestamp(nowSecond: Long): (r: Long)
    ensures nowSecond >= MIN_LONG + BEGIN_TIMESTAMP ==> r == nowSecond - BEGIN_TIMESTAMP
    ensures nowSecond >= BEGIN_TIMESTAMP ==> r >= 0
    ensures MIN_LONG + BEGIN_TIMESTAMP <= nowSecond < BEGIN_TIMESTAMP ==> r < 0
  {
    Wrap(nowSecond - BEGIN_TIMESTAMP)
  }

  /** `timestamp << COUNT_BITS | count` as Java evaluates it on longs. */
  function ComposeId(timestamp: Long, count: Long): (id: Long)
    ensures InRange(timestamp, count) ==> id == timestamp * TWO_32 + count
  {
    if InRange(timestamp, count) then
      Pow2Of32();
      assert ShiftLeft(timestamp, COUNT_BITS) == timestamp * TWO_32;
      OrDisjoint(32, timestamp, count);
      Or(ShiftLeft(timestamp, COUNT_BITS), count)
    else
      Or(ShiftLeft(timestamp, COUNT_BITS), count)
  }

  predicate InRange(timestamp: Long, count: Long)
  {
    0 <= timestamp < TWO_31 && 0 <= count < TWO_32
  }

  /** `id >> 32` gives the timestamp back and `id & (2^32 - 1)` the count. */
  lemma ComposeRoundTrip(timestamp: Long, count: Long)
    requires InRange(timestamp, count)
    ensures ShiftRight(ComposeId(timestamp, count), COUNT_BITS) == timestamp
    ensures And(ComposeId(timestamp, count), TWO_32 - 1) == count
  {
    var id := timestamp * TWO_32 + count;
    Pow2Of32();
    assert ShiftRight(id, COUNT_BITS) == id / TWO_32;
    DivRecovers(timestamp, count);
    AndLowMask(32, timestamp, count);
    assert BitAnd(Unsigned(id), Unsigned(TWO_32 - 1)) == count;
  }

  /** (t * 2^32 + c) / 2^32 is t when c is below 2^32. */
  lemma DivRecovers(t: nat, c: nat)
    requires c < TWO_32
    ensures (t * TWO_32 + c) / TWO_32 == t
  {
    var x := t * TWO_32 + c;
    var q, r := x / TWO_32, x % TWO_32;
    assert x == q * TWO_32 + r && 0 <= r < TWO_32;
    assert (q - t) * TWO_32 == c - r;
    SmallMultiple(q - t);
  }

  /** In-range (timestamp, count) pairs give equal ids exactly when the pairs are equal. */
  lemma ComposeInjective(t1: Long, c1: Long, t2: Long, c2: Long)
    requires InRange(t1, c1) && InRange(t2, c2)
    ensures ComposeId(t1, c1) == ComposeId(t2, c2) <==> t1 == t2 && c1 == c2
  {
    ComposeRoundTrip(t1, c1);
    ComposeRoundTrip(t2, c2);
  }

  /** Ids order by timestamp first and by count within one second, and only so. */
  lemma ComposeOrdered(t1: Long, c1: Long, t2: Long, c2: Long)
    requires InRange(t1, c1) && InRange(t2, c2)
    ensures ComposeId(t1, c1) < ComposeId(t2, c2) <==> t1 < t2 || (t1 == t2 && c1 < c2)
  {
    MonotoneTimes(t1 + 1, t2);
    MonotoneTimes(t2 + 1, t1);
    assert (t1 + 1) * TWO_32 == t1 * TWO_32 + TWO_32;
    assert (t2 + 1) * TWO_32 == t2 * TWO_32 + TWO_32;
  }

  /**
   * For timestamps from 2^31 up to 2^32 (2090 to 2158) the shift carries the
   * timestamp into the sign bit and every id is negative; from 2^32 on the
   * shift drops the high bits instead.
   */
  lemma ComposeNegativeFrom2090(timestamp: Long, count: Long)
    requires TWO_31 <= timestamp < TWO_32 && 0 <= count < TWO_32
    ensures ComposeId(timestamp, count) < 0
  {
    Pow2Of32();
    var shifted := timestamp * TWO_32;
    HighProduct(timestamp);
    WrapHigh(shifted);
    assert ShiftLeft(timestamp, COUNT_BITS) == shifted - TWO_64;
    assert Unsigned(shifted - TWO_64) == shifted;
    OrDisjoint(32, timestamp, count);
    assert BitOr(shifted, count) == shifted + count;
    WrapHigh(shifted + count);
  }

  /** A timestamp in [2^31, 2^32) shifted by 32 lands in [2^63, 2^64 - 2^32]. */
  lemma HighProduct(timestamp: int)
    requires TWO_31 <= timestamp < TWO_32
    ensures MAX_LONG < timestamp * TWO_32 && timestamp * TWO_32 + TWO_32 <= TWO_64
  {
    assert timestamp * TWO_32 >= TWO_31 * TWO_32;
    assert timestamp * TWO_32 <= (TWO_32 - 1) * TWO_32;
  }

  /** The only multiple of 2^32 strictly between -2^32 and 2^32 is 0. */
  lemma SmallMultiple(k: int)
    requires -TWO_32 < k * TWO_32 < TWO_32
    ensures k == 0
  {
    MonotoneTimes(k, 1);
    MonotoneTimes(-1, k);
  }

  /** Multiplying by 2^32 keeps order. */
  lemma MonotoneTimes(a: int, b: int)
    ensures a <= b <==> a * TWO_32 <= b * TWO_32
  {
    assert b * TWO_32 - a * TWO_32 == (b - a) * TWO_32;
  }

  /** A pattern with the sign bit set reads as itself minus 2^64. */
  lemma WrapHigh(x: int)
    requires MAX_LONG < x < TWO_64
    ensures Wrap(x) == x - TWO_64
  {
    assert (x - MIN_LONG) % TWO_64 == x - MIN_LONG - TWO_64;
  }

  // ---------------------------------------------------------------------------
  // The per-day counter

  /** The Redis key of the counter: "inc:" + keyPrefix + ":" + date. */
  function CounterKey(keyPrefix: string, date: string): (key: string)
    ensures |key| == |keyPrefix| + |date| + 5
    ensures key[..4] == "inc:" && key[4..4 + |keyPrefix|] == keyPrefix
    ensures key[4 + |keyPrefix|] == ':'
    ensures key[|key| - |date|..] == date
  {
    "inc:" + keyPrefix + ":" + date
  }

  /** One prefix gets a separate counter on each distinct date. */
  lemma CounterKeyPerDate(keyPrefix: string, d1: string, d2: string)
    requires d1 != d2
    ensures CounterKey(keyPrefix, d1) != CounterKey(keyPrefix, d2)
  {
    var n := |keyPrefix| + 5;
    assert CounterKey(keyPrefix, d1)[n..] == d1;
    assert CounterKey(keyPrefix, d2)[n..] == d2;
  }

  /** The integer a counter key holds; Redis reads a missing key as 0. */
  function CounterValue(counters: map<string, Long>, key: string): Long
  {
    if key in counters then counters[key] else 0
  }

  /**
   * Redis INCR: the incremented value, which is also stored; Redis refuses
   * (and stores nothing) when the increment would overflow a 64-bit integer.
   */
  function Incr(counters: map<string, Long>, key: string): (r: Option<Long>)
    ensures r.Some? <==> CounterValue(counters, key) < MAX_LONG
    ensures r.Some? ==> r.value > CounterValue(counters, key)
    ensures key !in counters ==> r == Some(1)
  {
    var v := CounterValue(counters, key);
    if v < MAX_LONG then Some(v + 1) else None
  }

  /** The counters after an INCR: only the incremented key changes. */
  function AfterIncr(counters: map<string, Long>, key: string): (m: map<string, Long>)
    ensures m.Keys == if Incr(counters, key).Some? then counters.Keys + {key} else counters.Keys
    ensures forall k :: k in counters && k != key ==> k in m && m[k] == counters[k]
    ensures Incr(counters, key).Some? ==> CounterValue(m, key) == Incr(counters, key).value
  {
    match Incr(counters, key)
    case Some(v) => counters[key := v]
    case None => counters
  }

  /** Each successful INCR on one key hands out a larger count than the one before. */
  lemma IncrStrictlyIncreasing(counters: map<string, Long>, key: string)
    requires Incr(counters, key).Some?
    requires Incr(AfterIncr(counters, key), key).Some?
    ensures Incr(counters, key).value < Incr(AfterIncr(counters, key), key).value
  {
  }

  /** The id nextId returns for a given counter store, clock and date, or None when INCR fails. */
  function NextIdValue(counters: map<string, Long>, keyPrefix: string, nowSecond: Long, date: string): (r: Option<Long>)
    ensures r.Some? <==> CounterValue(counters, CounterKey(keyPrefix, date)) < MAX_LONG
    ensures r.Some? && InRange(Timestamp(nowSecond), Incr(counters, CounterKey(keyPrefix, date)).value) ==>
      ShiftRight(r.value, COUNT_BITS) == Timestamp(nowSecond)
      && And(r.value, TWO_32 - 1) == Incr(counters, CounterKey(keyPrefix, date)).value
  {
    match Incr(counters, CounterKey(keyPrefix, date))
    case Some(count) =>
      if InRange(Timestamp(nowSecond), count) then
        ComposeRoundTrip(Timestamp(nowSecond), count);
        Some(ComposeId(Timestamp(nowSecond), count))
      else
        Some(ComposeId(Timestamp(nowSecond), count))
    case None => None
  }

  /**
   * Two successive ids for one prefix on one date, taken at non-decreasing
   * clock readings with timestamps and counts in range, increase strictly.
   */
  lemma SuccessiveIdsIncrease(counters: map<string, Long>, keyPrefix: string, now1: Long, now2: Long, date: string)
    requires BEGIN_TIMESTAMP <= now1 <= now2 < BEGIN_TIMESTAMP + TWO_31
    requires 0 <= CounterValue(counters, CounterKey(keyPrefix, date)) < TWO_32 - 2
    ensures NextIdValue(counters, keyPrefix, now1, date).Some?
    ensures NextIdValue(AfterIncr(counters, CounterKey(keyPrefix, date)), keyPrefix, now2, date).Some?
    ensures NextIdValue(counters, keyPrefix, now1, date).value
          < NextIdValue(AfterIncr(counters, CounterKey(keyPrefix, date)), keyPrefix, now2, date).value
  {
    var key := CounterKey(keyPrefix, date);
    var c1 := Incr(counters, key).value;
    var c2 := Incr(AfterIncr(counters, key), key).value;
    IncrStrictlyIncreasing(counters, key);
    ComposeOrdered(Timestamp(now1), c1, Timestamp(now2), c2);
  }

  /** The shared id generator: the Redis counters it increments. */
  class RedisIdWorker {
    var counters: map<string, Long>

    constructor(counters: map<string, Long>)
      ensures this.counters == counters
    {
      this.counters := counters;
    }

    /**
     * nextId(keyPrefix) at clock reading `nowSecond` (local wall-clock
     * seconds read as UTC epoch seconds) on
     * `date` (formatted yyyy:MM:dd). Returns None where Redis refuses the
     * INCR and Java throws.
     */
    method NextId(keyPrefix: string, nowSecond: Long, date: string) returns (id: Option<Long>)
      modifies this
      ensures id == NextIdValue(old(counters), keyPrefix, nowSecond, date)
      ensures counters == AfterIncr(old(counters), CounterKey(keyPrefix, date))
    {
      var timestamp := Wrap(nowSecond - BEGIN_TIMESTAMP);
      var key := CounterKey(keyPrefix, date);
      var current := if key in counters then counters[key] else 0;
      if current == MAX_LONG {
        id := None;
        return;
      }
      var count := current + 1;
      counters := counters[key := count];
      id := Some(Or(ShiftLeft(timestamp, COUNT_BITS), count));
    }
  }
}
