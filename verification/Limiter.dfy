/** The token bucket in front of a provider, over real arithmetic and a clock in nanoseconds. */
module Limiter {

  const SECOND: real := 1_000_000_000.0
  const FLOOR: nat := 1_000_000

  datatype Bucket = Bucket(tokens: real, capacity: real, refill: real, last: int)

  ghost predicate Valid(b: Bucket) {
    b.capacity >= 1.0 && b.refill > 0.0 && 0.0 <= b.tokens <= b.capacity
  }

  function PerSecond(perMinute: int): real {
    if perMinute <= 0 then 1.0 else perMinute as real / 60.0
  }

  function CapacityOf(perMinute: int): real {
    if PerSecond(perMinute) < 1.0 then 1.0 else PerSecond(perMinute)
  }

  function Gained(b: Bucket, now: int): real {
    if now > b.last then (now - b.last) as real / SECOND * b.refill else 0.0
  }

  function Refilled(b: Bucket, now: int): Bucket {
    var tokens := b.tokens + Gained(b, now);
    b.(tokens := if tokens > b.capacity then b.capacity else tokens, last := if now > b.last then now else b.last)
  }

  function Reserved(b: Bucket, now: int): Bucket {
    var r := Refilled(b, now);
    if r.tokens >= 1.0 then r.(tokens := r.tokens - 1.0) else r
  }

  predicate Grants(b: Bucket, now: int) {
    Refilled(b, now).tokens >= 1.0
  }

  /** Nanoseconds until the bucket holds a token, truncated, and at least a millisecond. */
  function Hint(b: Bucket): nat
    requires Valid(b) && b.tokens < 1.0
  {
    NeedIsPositive(b);
    var wait := ((1.0 - b.tokens) / b.refill * SECOND).Floor;
    if wait < FLOOR then FLOOR else wait
  }

  lemma NeedIsPositive(b: Bucket)
    requires Valid(b) && b.tokens < 1.0
    ensures (1.0 - b.tokens) / b.refill * SECOND > 0.0
  {
  }

  lemma ReservedIsValid(b: Bucket, now: int)
    requires Valid(b)
    ensures Valid(Refilled(b, now)) && Valid(Reserved(b, now))
  {
  }

  class TokenBucket {
    var tokens: real
    var capacity: real
    var refill: real
    var last: int
    var waited: nat

    ghost function View(): Bucket
      reads this
    {
      Bucket(tokens, capacity, refill, last)
    }

    constructor (perMinute: int, now: int)
      ensures View() == Bucket(CapacityOf(perMinute), CapacityOf(perMinute), PerSecond(perMinute), now) && Valid(View())
    {
      tokens, capacity, refill := CapacityOf(perMinute), CapacityOf(perMinute), PerSecond(perMinute);
      last, waited := now, 0;
    }

    /** Adds what was refilled since the bucket was last looked at. */
    method Refill(now: int)
      requires Valid(View())
      modifies this`tokens, this`last
      ensures View() == Refilled(old(View()), now)
    {
      var elapsed := now - last;
      if elapsed > 0 {
        tokens := tokens + elapsed as real / SECOND * refill;
        if tokens > capacity { tokens := capacity; }
        last := now;
      }
    }

    method Delay() returns (delay: nat)
      requires Valid(View()) && tokens < 1.0
      ensures delay == Hint(View())
    {
      NeedIsPositive(View());
      var wait := ((1.0 - tokens) / refill * SECOND).Floor;
      delay := if wait < FLOOR then FLOOR else wait;
    }

    method Reserve(now: int) returns (delay: nat, ok: bool)
      requires Valid(View())
      modifies this
      ensures Valid(View()) && View() == Reserved(old(View()), now)
      ensures ok == Grants(old(View()), now)
      ensures !ok ==> tokens < 1.0 && delay == Hint(View()) && waited == old(waited) + 1
      ensures ok ==> delay == 0 && waited == old(waited)
    {
      ReservedIsValid(View(), now);
      Refill(now);
      if tokens >= 1.0 {
        tokens := tokens - 1.0;
        return 0, true;
      }
      waited := waited + 1;
      delay := Delay();
      ok := false;
    }

    method Allow(now: int) returns (ok: bool)
      requires Valid(View())
      modifies this
      ensures Valid(View()) && View() == Reserved(old(View()), now) && ok == Grants(old(View()), now)
    {
      var _, granted := Reserve(now);
      ok := granted;
    }

    /** A new rate hands out no burst. */
    method SetRate(perMinute: int)
      requires Valid(View())
      modifies this
      ensures Valid(View()) && capacity == CapacityOf(perMinute) && refill == PerSecond(perMinute) && last == old(last)
      ensures tokens == if old(tokens) > capacity then capacity else old(tokens)
    {
      capacity := CapacityOf(perMinute);
      refill := PerSecond(perMinute);
      if tokens > capacity { tokens := capacity; }
    }

    /** A lone caller sleeps as hinted, waking late by as much as it happens to, until it has
        a token or its context is done. Two sleeps always suffice. */
    method Wait(start: int, late: nat -> nat, sleeps: nat) returns (ok: bool, slept: nat)
      requires Valid(View()) && last <= start
      modifies this
      ensures Valid(View())
      ensures ok ==> slept <= 2
      ensures sleeps >= 2 ==> ok
      ensures !ok ==> slept == sleeps && tokens < 1.0
    {
      var now := start;
      slept := 0;
      while true
        invariant Valid(View()) && last <= now && slept <= sleeps
        invariant slept == 1 ==> NearlyThere(View(), now)
        invariant slept >= 2 ==> slept == 2 && Grants(View(), now)
        decreases sleeps - slept
      {
        ghost var before := View();
        var delay, granted := Reserve(now);
        if granted { return true, slept; }
        if slept == sleeps { return false, slept; }
        var woken := now + delay + late(slept);
        if slept == 0 { HintNearlyFills(View(), woken); } else { SecondHintFills(before, now, woken); }
        now := woken;
        slept := slept + 1;
      }
    }
  }

  // ---------- waiting ----------

  /** By now the bucket is within a nanosecond's refill of a token. */
  ghost predicate NearlyThere(b: Bucket, now: int) {
    Refilled(b, now).tokens > 1.0 - b.refill / SECOND
  }

  /** Waiting the truncated time leaves less than one nanosecond's refill missing. */
  lemma Shortfall(need: real, refill: real, wait: int, elapsed: int)
    requires refill > 0.0 && need > 0.0 && wait == (need / refill * SECOND).Floor && elapsed >= wait && elapsed >= 0
    ensures elapsed as real / SECOND * refill > need - refill / SECOND
  {
    var x, q, unit := elapsed as real, need / refill, refill / SECOND;
    Quotient(need, refill);
    Quotient(refill, SECOND);
    Scaled(q, unit, SECOND, refill);
    LessOne(x, q * SECOND, unit, need);
    Regroup(x, refill);
  }

  lemma LessOne(x: real, y: real, unit: real, need: real)
    requires unit > 0.0 && y * unit == need && x > y - 1.0
    ensures x * unit > need - unit
  {
    Positive(x - y + 1.0, unit);
    Spread(x, y, unit);
  }

  lemma Positive(x: real, y: real)
    requires x > 0.0 && y > 0.0
    ensures x * y > 0.0
  {
  }

  lemma Spread(x: real, y: real, unit: real)
    ensures (x - y + 1.0) * unit == x * unit - y * unit + unit
  {
  }

  lemma Scaled(q: real, unit: real, scale: real, whole: real)
    requires unit * scale == whole
    ensures q * scale * unit == q * whole
  {
  }

  lemma Quotient(x: real, y: real)
    requires y > 0.0
    ensures x / y * y == x
  {
  }

  lemma Regroup(x: real, y: real)
    ensures x / SECOND * y == x * (y / SECOND)
  {
  }

  /** Sleeping as hinted brings the bucket within a nanosecond's refill of a token. */
  lemma HintNearlyFills(b: Bucket, now: int)
    requires Valid(b) && b.tokens < 1.0 && now >= b.last + Hint(b)
    ensures NearlyThere(b, now)
  {
    NeedIsPositive(b);
    var wait := ((1.0 - b.tokens) / b.refill * SECOND).Floor;
    Shortfall(1.0 - b.tokens, b.refill, wait, now - b.last);
    assert b.refill / SECOND > 0.0;
  }

  /** And a millisecond more is enough. */
  lemma SecondHintFills(b: Bucket, now: int, later: int)
    requires Valid(b) && NearlyThere(b, now) && b.last <= now && later >= now + FLOOR && !Grants(b, now)
    ensures Grants(Reserved(b, now), later)
  {
    var r := Refilled(b, now);
    ReservedIsValid(b, now);
    assert r.last == now;
    var unit := b.refill / SECOND;
    assert Gained(r, later) == (later - now) as real / SECOND * b.refill == (later - now) as real * unit;
    assert (later - now) as real * unit >= 1.0 * unit;
  }

  lemma SameScale(x: real, y: real, unit: real)
    requires unit > 0.0
    ensures x * unit >= y * unit <==> x >= y
  {
    if x > y { Positive(x - y, unit); }
    if y > x { Positive(y - x, unit); }
  }

  lemma Filled(need: real, refill: real, elapsed: nat)
    requires refill > 0.0 && need > 0.0
    ensures elapsed as real / SECOND * refill >= need <==> elapsed as real >= need / refill * SECOND
  {
    var x, q, unit := elapsed as real, need / refill, refill / SECOND;
    Quotient(need, refill);
    Quotient(refill, SECOND);
    Scaled(q, unit, SECOND, refill);
    Regroup(x, refill);
    SameScale(x, q * SECOND, unit);
  }

  /** Sleeping just as hinted brings a token exactly if the hint is no shorter than the time
      needed: if that is a whole number of nanoseconds, or the floor covers it. */
  lemma OneSleepIsEnoughExactly(b: Bucket)
    requires Valid(b) && b.tokens < 1.0
    ensures Grants(b, b.last + Hint(b)) <==> Hint(b) as real >= (1.0 - b.tokens) / b.refill * SECOND
  {
    Filled(1.0 - b.tokens, b.refill, Hint(b));
  }

  /** At seven calls a minute an empty bucket's hint falls short. */
  lemma OneSleepMayNotBeEnough()
    ensures var b := Bucket(0.0, 1.0, PerSecond(7), 0);
            Valid(b) && !Grants(b, 0) && !Grants(Reserved(b, 0), Hint(Reserved(b, 0)))
  {
    var b := Bucket(0.0, 1.0, PerSecond(7), 0);
    assert 1.0 / PerSecond(7) * SECOND == 60_000_000_000.0 / 7.0;
    assert (60_000_000_000.0 / 7.0).Floor == 8_571_428_571;
    OneSleepIsEnoughExactly(b);
  }

  // ---------- the rate over any interval ----------

  /** The bucket after a run of calls at these times. */
  function After(b: Bucket, times: seq<int>): Bucket {
    if times == [] then b else Reserved(After(b, times[..|times| - 1]), times[|times| - 1])
  }

  /** How many calls between s and t got a token. */
  function Granted(b: Bucket, times: seq<int>, s: int, t: int): nat {
    if times == [] then 0
    else
      var last := times[|times| - 1];
      var rest := times[..|times| - 1];
      Granted(b, rest, s, t) + if s <= last <= t && Grants(After(b, rest), last) then 1 else 0
  }

  ghost predicate InTime(b: Bucket, times: seq<int>) {
    && (forall i :: 0 <= i < |times| ==> b.last <= times[i])
    && (forall i, j :: 0 <= i < j < |times| ==> times[i] <= times[j])
  }

  /** What may be granted from s to t: a full bucket and the refill. */
  function Allowance(b: Bucket, s: int, t: int): real {
    b.capacity + (t - s) as real / SECOND * b.refill
  }

  lemma AfterKeeps(b: Bucket, times: seq<int>)
    requires Valid(b) && InTime(b, times)
    ensures var e := After(b, times);
            && Valid(e) && e.capacity == b.capacity && e.refill == b.refill
            && e.last == if times == [] then b.last else times[|times| - 1]
  {
  }

  /** Tokens granted since s and tokens left are within the allowance so far. */
  ghost predicate Spent(b: Bucket, granted: nat, s: int) {
    if b.last < s then granted == 0 else granted as real + b.tokens <= Allowance(b, s, b.last)
  }

  /** One more call spends no more than was refilled. */
  lemma SpendOne(b: Bucket, granted: nat, s: int, t: int, now: int)
    requires Valid(b) && b.last <= now <= t && Spent(b, granted, s)
    ensures Spent(Reserved(b, now), granted + if s <= now <= t && Grants(b, now) then 1 else 0, s)
  {
  }

  lemma NothingSpent(b: Bucket, s: int)
    requires Valid(b)
    ensures Spent(b, 0, s)
  {
  }

  lemma {:induction false} Spending(b: Bucket, times: seq<int>, s: int, t: int)
    requires Valid(b) && InTime(b, times) && (times == [] || times[|times| - 1] <= t)
    ensures Spent(After(b, times), Granted(b, times, s, t), s)
  {
    if times == [] {
      NothingSpent(b, s);
    } else {
      var rest, now := times[..|times| - 1], times[|times| - 1];
      Spending(b, rest, s, t);
      AfterKeeps(b, rest);
      SpendOne(After(b, rest), Granted(b, rest, s, t), s, t, now);
    }
  }

  /** In every run and every interval, at most a full bucket and the refill are granted. */
  lemma {:induction false} RateIsBounded(b: Bucket, times: seq<int>, s: int, t: int)
    requires Valid(b) && InTime(b, times) && s <= t
    ensures Granted(b, times, s, t) as real <= Allowance(b, s, t)
  {
    if times != [] && times[|times| - 1] > t {
      RateIsBounded(b, times[..|times| - 1], s, t);
    } else {
      Spending(b, times, s, t);
      AfterKeeps(b, times);
      SpentByThen(b, After(b, times), Granted(b, times, s, t), s, t);
    }
  }

  lemma SpentByThen(b: Bucket, e: Bucket, granted: nat, s: int, t: int)
    requires Valid(b) && Valid(e) && e.capacity == b.capacity && e.refill == b.refill && s <= t
    requires Spent(e, granted, s) && (e.last <= t || granted == 0)
    ensures granted as real <= Allowance(b, s, t)
  {
  }

  // ---------- the rate in calls a minute ----------

  const MINUTE: nat := 60_000_000_000

  /** The larger of one and a second's worth of calls. */
  function Burst(perMinute: nat): real {
    if perMinute < 60 then 1.0 else perMinute as real / 60.0
  }

  /** A bucket made for n calls a minute grants at most n and one burst in any minute, whatever it holds. */
  lemma PerMinuteIsBounded(perMinute: nat, b: Bucket, times: seq<int>, s: int)
    requires perMinute > 0 && Valid(b) && InTime(b, times)
    requires b.capacity == CapacityOf(perMinute) && b.refill == PerSecond(perMinute)
    ensures Granted(b, times, s, s + MINUTE) as real <= perMinute as real + Burst(perMinute)
  {
    RateIsBounded(b, times, s, s + MINUTE);
    assert MINUTE as real / SECOND == 60.0;
    assert 60.0 * PerSecond(perMinute) == perMinute as real;
  }

  /** The same moment, n times. */
  function AtOnce(now: int, n: nat): seq<int> {
    seq(n, i => now)
  }

  lemma {:induction false} BurstRun(b: Bucket, n: nat)
    requires Valid(b) && b.tokens == b.capacity
    ensures var granted := if n <= b.capacity.Floor then n else b.capacity.Floor;
            && After(b, AtOnce(b.last, n)) == b.(tokens := b.capacity - granted as real)
            && Granted(b, AtOnce(b.last, n), b.last, b.last) == granted
  {
    if n > 0 {
      BurstRun(b, n - 1);
      assert AtOnce(b.last, n)[..n - 1] == AtOnce(b.last, n - 1);
    }
  }

  /** A full bucket grants its whole burst at once, and not one call more. */
  lemma FullBucketBursts(perMinute: nat, now: int, n: nat)
    requires perMinute > 0
    ensures var b := Bucket(CapacityOf(perMinute), CapacityOf(perMinute), PerSecond(perMinute), now);
            Granted(b, AtOnce(now, n), now, now) ==
            if n <= Burst(perMinute).Floor then n else Burst(perMinute).Floor
  {
    var b := Bucket(CapacityOf(perMinute), CapacityOf(perMinute), PerSecond(perMinute), now);
    assert Burst(perMinute) == CapacityOf(perMinute);
    BurstRun(b, n);
  }
}
