/**
 The SMTP rate limiter's token bucket, over the reals and a clock in whole milliseconds. The stored
 entry expires; that expiry is proved unobservable.
 */
module TokenBucket {
  import opened Common

  const MINUTE_MS := 60000
  const EXPIRY_MS := 120000
  const MIN_RATE := 1
  const MAX_RATE := 60

  datatype Entry = Entry(tokens: real, updatedMs: int)

  datatype Call = Call(now: int, rate: int)

  datatype Acquired = Acquired(entry: Entry, delayMs: int)

  predicate RateOk(rate: int) {
    MIN_RATE <= rate <= MAX_RATE
  }

  /** Tokens that accrue in `elapsed` milliseconds. */
  function Refill(elapsed: int, rate: int): real {
    (elapsed * rate) as real / MINUTE_MS as real
  }

  function Ceil(x: real): int {
    -((-x).Floor)
  }

  /** The tokens a call finds: a full bucket when there is no entry, else topped up, at most `rate`. */
  function Found(entry: Option<Entry>, call: Call): real {
    var tokens := if entry.Some? then entry.value.tokens else call.rate as real;
    var updated := if entry.Some? then entry.value.updatedMs else call.now;
    var elapsed := if call.now > updated then call.now - updated else 0;
    var filled := tokens + Refill(elapsed, call.rate);
    if filled <= call.rate as real then filled else call.rate as real
  }

  predicate Granted(entry: Option<Entry>, call: Call) {
    Found(entry, call) >= 1.0
  }

  /** The script: one token if there is one, else how long until there will be. */
  function Acquire(entry: Option<Entry>, call: Call): Acquired
    requires RateOk(call.rate)
  {
    var tokens := Found(entry, call);
    if tokens >= 1.0 then Acquired(Entry(tokens - 1.0, call.now), 0)
    else Acquired(Entry(tokens, call.now), Ceil((1.0 - tokens) * MINUTE_MS as real / call.rate as real))
  }

  predicate ValidCalls(calls: seq<Call>) {
    && (forall i :: 0 <= i < |calls| ==> RateOk(calls[i].rate))
    && (forall i, j :: 0 <= i < j < |calls| ==> calls[i].now <= calls[j].now)
  }

  /** An entry no call could have left in another shape. */
  predicate Sound(entry: Option<Entry>) {
    entry.Some? ==> 0.0 <= entry.value.tokens <= MAX_RATE as real
  }

  // ---------------------------------------------------------------- arithmetic

  lemma RefillAdds(a: int, b: int, rate: int)
    ensures Refill(a + b, rate) == Refill(a, rate) + Refill(b, rate)
  {
    assert (a + b) * rate == a * rate + b * rate;
  }

  lemma RefillGrows(a: int, b: int, rate: int)
    requires a <= b && 0 <= rate
    ensures Refill(a, rate) <= Refill(b, rate)
    ensures Refill(0, rate) == 0.0
  {
    assert a * rate <= b * rate;
  }

  lemma CeilIsLeast(x: real, n: int)
    ensures Ceil(x) <= n <==> x <= n as real
  {
  }

  /** Waiting `n` milliseconds refills `missing` tokens exactly when `n` reaches the quotient. */
  lemma QuotientIsWait(missing: real, n: int, rate: int)
    requires rate > 0
    ensures missing * MINUTE_MS as real / rate as real <= n as real <==> missing <= Refill(n, rate)
  {
    var r, m := rate as real, missing * MINUTE_MS as real;
    assert (n * rate) as real == n as real * r;
    var q := m / r;
    assert q * r == m;
    if q <= n as real {
      assert q * r <= n as real * r;
    } else {
      assert n as real * r < q * r;
    }
  }

  // ---------------------------------------------------------------- one call

  /** Every call leaves a sound entry: between nothing and the rate it was made with. */
  lemma AcquireIsSound(entry: Option<Entry>, call: Call)
    requires Sound(entry) && RateOk(call.rate)
    ensures 0.0 <= Found(entry, call) <= call.rate as real
    ensures Sound(Some(Acquire(entry, call).entry))
    ensures Acquire(entry, call).entry.tokens <= call.rate as real
    ensures Granted(entry, call) <==> Acquire(entry, call).delayMs == 0
    ensures Acquire(entry, call).delayMs >= 0
  {
    var elapsed := if entry.Some? && call.now > entry.value.updatedMs then call.now - entry.value.updatedMs else 0;
    RefillGrows(0, elapsed, call.rate);
    if !Granted(entry, call) {
      var missing := 1.0 - Found(entry, call);
      CeilIsLeast(missing * MINUTE_MS as real / call.rate as real, 0);
      QuotientIsWait(missing, 0, call.rate);
      RefillGrows(0, 0, call.rate);
    }
  }

  /**
   One call in whole numbers. A missing entry reads as a full bucket; a stored one gains `rate` tokens a minute, that
   is one 60000th of the rate a millisecond, up to `rate`. A call takes a token if there is a whole one. Otherwise it
   takes none and is told the least number of milliseconds in which the missing part accrues.
   */
  lemma AcquireAnswers(entry: Option<Entry>, call: Call)
    requires Sound(entry) && RateOk(call.rate)
    ensures var after := Acquire(entry, call);
            var held := after.entry.tokens + if after.delayMs == 0 then 1.0 else 0.0;
            var since := if entry.Some? then entry.value.updatedMs else call.now;
            var elapsed := if call.now > since then call.now - since else 0;
            && after.entry.updatedMs == call.now
            && (entry.None? ==> held == call.rate as real)
            && (entry.Some? ==>
                  var accrued := 60000.0 * entry.value.tokens + (elapsed * call.rate) as real;
                  60000.0 * held == if accrued <= (60000 * call.rate) as real then accrued
                                    else (60000 * call.rate) as real)
            && (held >= 1.0 <==> after.delayMs == 0)
            && (held < 1.0 ==>
                  && ((after.delayMs - 1) * call.rate) as real < 60000.0 * (1.0 - held)
                  && 60000.0 * (1.0 - held) <= (after.delayMs * call.rate) as real)
  {
    AcquireIsSound(entry, call);
    var after := Acquire(entry, call);
    if after.delayMs != 0 {
      var missing := 1.0 - Found(entry, call);
      var wait := missing * MINUTE_MS as real / call.rate as real;
      CeilIsLeast(wait, after.delayMs);
      CeilIsLeast(wait, after.delayMs - 1);
      QuotientIsWait(missing, after.delayMs, call.rate);
      QuotientIsWait(missing, after.delayMs - 1, call.rate);
    }
  }

  // ---------------------------------------------------------------- runs of calls

  function After(entry: Option<Entry>, calls: seq<Call>): Option<Entry>
    requires ValidCalls(calls)
    decreases |calls|
  {
    if calls == [] then entry else After(Some(Acquire(entry, calls[0]).entry), calls[1..])
  }

  function Grants(entry: Option<Entry>, calls: seq<Call>): nat
    requires ValidCalls(calls)
    decreases |calls|
  {
    if calls == [] then 0
    else (if Granted(entry, calls[0]) then 1 else 0) + Grants(Some(Acquire(entry, calls[0]).entry), calls[1..])
  }

  lemma {:induction false} AfterIsSound(entry: Option<Entry>, calls: seq<Call>)
    requires ValidCalls(calls) && Sound(entry)
    ensures Sound(After(entry, calls))
    decreases |calls|
  {
    if calls != [] {
      AcquireIsSound(entry, calls[0]);
      AfterIsSound(Some(Acquire(entry, calls[0]).entry), calls[1..]);
    }
  }

  predicate SameRate(calls: seq<Call>, rate: int) {
    forall i :: 0 <= i < |calls| ==> calls[i].rate == rate
  }

  /** From a stored entry on, no more is granted than it holds plus what accrues until the last call. */
  lemma {:induction false} GrantsAreBacked(entry: Entry, calls: seq<Call>, rate: int)
    requires ValidCalls(calls) && calls != [] && SameRate(calls, rate) && Sound(Some(entry))
    requires entry.updatedMs <= calls[0].now
    ensures Grants(Some(entry), calls) as real <= entry.tokens + Refill(calls[|calls| - 1].now - entry.updatedMs, rate)
    ensures (60000 * Grants(Some(entry), calls)) as real
            <= 60000.0 * entry.tokens + ((calls[|calls| - 1].now - entry.updatedMs) * rate) as real
    decreases |calls|
  {
    var whole := (calls[|calls| - 1].now - entry.updatedMs) * rate;
    assert Refill(calls[|calls| - 1].now - entry.updatedMs, rate) * 60000.0 == whole as real;
    var first, last := calls[0], calls[|calls| - 1];
    var next := Acquire(Some(entry), first).entry;
    AcquireIsSound(Some(entry), first);
    RefillAdds(first.now - entry.updatedMs, last.now - first.now, rate);
    var spent: real := if Granted(Some(entry), first) then 1.0 else 0.0;
    assert next.tokens + spent <= entry.tokens + Refill(first.now - entry.updatedMs, rate);
    if |calls| > 1 {
      assert calls[1..][|calls| - 2] == last;
      GrantsAreBacked(next, calls[1..], rate);
    } else {
      assert Grants(Some(next), calls[1..]) == 0;
      RefillGrows(0, 0, rate);
    }
  }

  /**
   The window bound: at a fixed rate, whatever happened before, the grants among calls spanning T
   milliseconds never exceed rate + T * rate / 60000.
   */
  lemma WindowBound(entry: Option<Entry>, before: seq<Call>, window: seq<Call>, rate: int)
    requires Sound(entry) && ValidCalls(before + window) && window != [] && SameRate(window, rate)
    ensures ValidCalls(before) && ValidCalls(window)
    ensures 60000 * Grants(After(entry, before), window)
            <= 60000 * rate + (window[|window| - 1].now - window[0].now) * rate
  {
    SplitCalls(before, window);
    hide *;
    AfterIsSound(entry, before);
    WindowFrom(After(entry, before), window, rate);
    InWholeNumbers(Grants(After(entry, before), window), window[|window| - 1].now - window[0].now, rate);
  }

  lemma InWholeNumbers(grants: nat, elapsed: int, rate: int)
    requires grants as real <= rate as real + Refill(elapsed, rate)
    ensures 60000 * grants <= 60000 * rate + elapsed * rate
  {
    var accrued := elapsed * rate;
    assert Refill(elapsed, rate) * 60000.0 == accrued as real;
    assert (60000 * grants) as real <= (60000 * rate + accrued) as real;
  }

  lemma WindowFrom(start: Option<Entry>, window: seq<Call>, rate: int)
    requires Sound(start) && ValidCalls(window) && window != [] && SameRate(window, rate)
    ensures Grants(start, window) as real <= rate as real + Refill(window[|window| - 1].now - window[0].now, rate)
  {
    var first, last := window[0], window[|window| - 1];
    AcquireIsSound(start, first);
    var next := Acquire(start, first).entry;
    RefillGrows(0, last.now - first.now, rate);
    hide Refill, Ceil, Found;
    if |window| > 1 {
      assert window[1..][|window| - 2] == last;
      GrantsAreBacked(next, window[1..], rate);
      assert next.tokens + (if Granted(start, first) then 1.0 else 0.0) <= rate as real;
    } else {
      assert Grants(Some(next), window[1..]) == 0;
    }
  }

  lemma SplitCalls(before: seq<Call>, window: seq<Call>)
    requires ValidCalls(before + window)
    ensures ValidCalls(before) && ValidCalls(window)
  {
    forall i | 0 <= i < |before| ensures (before + window)[i] == before[i] {
    }
    forall i | 0 <= i < |window| ensures (before + window)[|before| + i] == window[i] {
    }
    forall i, j | 0 <= i < j < |window| ensures window[i].now <= window[j].now {
      assert (before + window)[|before| + i].now <= (before + window)[|before| + j].now;
    }
    forall i | 0 <= i < |window| ensures RateOk(window[i].rate) {
      assert RateOk((before + window)[|before| + i].rate);
    }
  }

  // ---------------------------------------------------------------- the returned delay

  /** While calls at one rate are denied, the bucket stays on the refill line through its entry. */
  lemma {:induction false} DeniedStaysOnLine(entry: Entry, calls: seq<Call>, rate: int)
    requires ValidCalls(calls) && SameRate(calls, rate) && RateOk(rate) && Sound(Some(entry))
    requires calls != [] ==> entry.updatedMs <= calls[0].now
    requires Grants(Some(entry), calls) == 0
    ensures After(Some(entry), calls).Some?
    ensures var last := After(Some(entry), calls).value;
            && last.updatedMs == (if calls == [] then entry.updatedMs else calls[|calls| - 1].now)
            && last.tokens == entry.tokens + Refill(last.updatedMs - entry.updatedMs, rate)
    decreases |calls|
  {
    RefillGrows(0, 0, rate);
    if calls != [] {
      var next := Acquire(Some(entry), calls[0]).entry;
      AcquireIsSound(Some(entry), calls[0]);
      DeniedStaysOnLine(next, calls[1..], rate);
      var last := After(Some(next), calls[1..]).value;
      RefillAdds(next.updatedMs - entry.updatedMs, last.updatedMs - next.updatedMs, rate);
    }
  }

  /**
   The delay is exact: if nothing is granted in between, whatever else is denied, a call at the same
   rate is granted precisely when at least the returned delay has passed.
   */
  lemma DelayIsExact(entry: Option<Entry>, denied: Call, between: seq<Call>, retry: Call)
    requires Sound(entry) && RateOk(denied.rate) && !Granted(entry, denied)
    requires ValidCalls(between) && SameRate(between, denied.rate) && retry.rate == denied.rate
    requires denied.now <= retry.now
    requires between != [] ==> denied.now <= between[0].now && between[|between| - 1].now <= retry.now
    requires Grants(Some(Acquire(entry, denied).entry), between) == 0
    ensures var kept := Acquire(entry, denied);
            var answer := Acquire(After(Some(kept.entry), between), retry);
            && (answer.delayMs == 0 <==> retry.now >= denied.now + kept.delayMs)
            && (answer.delayMs == 0 <==>
                  60000.0 * (1.0 - kept.entry.tokens) <= ((retry.now - denied.now) * denied.rate) as real)
  {
    var kept := Acquire(entry, denied);
    var rate := denied.rate;
    AcquireIsSound(entry, denied);
    AfterIsSound(Some(kept.entry), between);
    DeniedStaysOnLine(kept.entry, between, rate);
    var last := After(Some(kept.entry), between).value;
    var waited := retry.now - denied.now;
    RefillAdds(last.updatedMs - denied.now, retry.now - last.updatedMs, rate);
    RefillGrows(0, 0, rate);
    assert Granted(Some(last), retry) <==> kept.entry.tokens + Refill(waited, rate) >= 1.0;
    assert Refill(waited, rate) * 60000.0 == (waited * rate) as real;
    AcquireIsSound(Some(last), retry);
    QuotientIsWait(1.0 - kept.entry.tokens, waited, rate);
    CeilIsLeast((1.0 - kept.entry.tokens) * MINUTE_MS as real / rate as real, waited);
  }

  // ---------------------------------------------------------------- expiry

  /** What is left of an entry at a later time: nothing once its two minutes are over. */
  function Expire(entry: Option<Entry>, now: int): Option<Entry> {
    if entry.Some? && now >= entry.value.updatedMs + EXPIRY_MS then None else entry
  }

  /** The answers of a run: the delay of every call. */
  function Delays(entry: Option<Entry>, calls: seq<Call>): seq<int>
    requires ValidCalls(calls)
    decreases |calls|
  {
    if calls == [] then []
    else [Acquire(entry, calls[0]).delayMs] + Delays(Some(Acquire(entry, calls[0]).entry), calls[1..])
  }

  function ExpiringDelays(entry: Option<Entry>, calls: seq<Call>): seq<int>
    requires ValidCalls(calls)
    decreases |calls|
  {
    if calls == [] then []
    else
      var acquired := Acquire(Expire(entry, calls[0].now), calls[0]);
      [acquired.delayMs] + ExpiringDelays(Some(acquired.entry), calls[1..])
  }

  /** After two minutes any bucket is full again at any rate, which is how a missing entry reads. */
  lemma ExpiredReadsAsFull(entry: Option<Entry>, call: Call)
    requires Sound(entry) && RateOk(call.rate)
    ensures Expire(entry, call.now)
            == if entry.Some? && call.now - entry.value.updatedMs >= 120000 then None else entry
    ensures Acquire(Expire(entry, call.now), call) == Acquire(entry, call)
  {
    if Expire(entry, call.now) != entry {
      var elapsed := call.now - entry.value.updatedMs;
      RefillGrows(EXPIRY_MS, elapsed, call.rate);
      RefillGrows(0, 0, call.rate);
    }
  }

  /** The expiring bucket answers every run of calls as one that never expires, even if the rate changes. */
  lemma {:induction false} ExpiryIsUnobservable(entry: Option<Entry>, calls: seq<Call>)
    requires ValidCalls(calls) && Sound(entry)
    ensures ExpiringDelays(entry, calls) == Delays(entry, calls)
    decreases |calls|
  {
    if calls != [] {
      ExpiredReadsAsFull(entry, calls[0]);
      AcquireIsSound(entry, calls[0]);
      ExpiryIsUnobservable(Some(Acquire(entry, calls[0]).entry), calls[1..]);
    }
  }

  // ---------------------------------------------------------------- the script

  class RedisKey {
    var tokens: Option<real>
    var updatedMs: Option<int>

    ghost predicate Valid()
      reads this
    {
      tokens.Some? <==> updatedMs.Some?
    }

    ghost function View(): Option<Entry>
      reads this
      requires Valid()
    {
      if tokens.Some? then Some(Entry(tokens.value, updatedMs.value)) else None
    }

    constructor ()
      ensures Valid() && View() == None
    {
      tokens, updatedMs := None, None;
    }

    /** `acquire`: refuses a rate outside 1 to 60, else runs the script on the key as it has expired or not. */
    method Eval(nowMs: int, perMinute: int) returns (outcome: Outcome<int>)
      requires Valid()
      modifies this
      ensures Valid()
      ensures RateOk(perMinute) <==> 1 <= perMinute <= 60
      ensures !RateOk(perMinute) ==> outcome == Raised("SMTP rate must be between 1 and 60.") && View() == old(View())
      ensures RateOk(perMinute) ==>
                var acquired := Acquire(Expire(old(View()), nowMs), Call(nowMs, perMinute));
                View() == Some(acquired.entry) && outcome == Done(acquired.delayMs)
    {
      if !(MIN_RATE <= perMinute <= MAX_RATE) {
        return Raised("SMTP rate must be between 1 and 60.");
      }
      if updatedMs.Some? && nowMs >= updatedMs.value + EXPIRY_MS {
        tokens, updatedMs := None, None;
      }
      var available := if tokens.Some? then tokens.value else perMinute as real;
      var updated := if updatedMs.Some? then updatedMs.value else nowMs;
      var elapsed := if nowMs - updated > 0 then nowMs - updated else 0;
      available := available + Refill(elapsed, perMinute);
      if available > perMinute as real {
        available := perMinute as real;
      }
      var delay := 0;
      if available >= 1.0 {
        available := available - 1.0;
      } else {
        delay := Ceil((1.0 - available) * MINUTE_MS as real / perMinute as real);
      }
      tokens, updatedMs := Some(available), Some(nowMs);
      return Done(delay);
    }
  }
}
