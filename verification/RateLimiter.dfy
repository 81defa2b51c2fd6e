/** The token bucket with exact real arithmetic. */
module TokenBuckets {
  /** The bucket when it was last refilled. */
  datatype Bucket = Bucket(rate: nat, burst: nat, tokens: real, last: real)

  function Full(rate: nat, burst: nat, now: real): Bucket {
    Bucket(rate, burst, burst as real, now)
  }

  function Capped(tokens: real, burst: nat): real {
    if tokens > burst as real then burst as real else tokens
  }

  /** What comes in during a time at a rate. */
  function Earned(seconds: real, rate: nat): real {
    seconds * rate as real
  }

  lemma EarnedFacts(a: real, b: real, rate: nat)
    ensures Earned(a + b, rate) == Earned(a, rate) + Earned(b, rate)
    ensures a >= 0.0 ==> Earned(a, rate) >= 0.0
    ensures Earned(0.0, rate) == 0.0
  {
  }

  function Refilled(b: Bucket, now: real): Bucket {
    b.(tokens := Capped(b.tokens + Earned(now - b.last, b.rate), b.burst), last := now)
  }

  /** A request for tokens, or a change of the parameters. */
  datatype Event = Acquiring(n: nat, now: real) | Setting(rate: nat, burst: nat, now: real)

  predicate Grants(b: Bucket, e: Event) {
    e.Acquiring? && Refilled(b, e.now).tokens >= e.n as real
  }

  function Step(b: Bucket, e: Event): Bucket {
    var r := Refilled(b, e.now);
    match e
    case Acquiring(n, _) => if Grants(b, e) then r.(tokens := r.tokens - n as real) else r
    case Setting(rate, burst, _) => Bucket(rate, burst, Capped(r.tokens, burst), r.last)
  }

  ghost predicate Sound(b: Bucket) {
    0.0 <= b.tokens <= b.burst as real
  }

  /** The states passed through; the clock does not run backwards. */
  ghost predicate IsRun(run: seq<Bucket>, events: seq<Event>) {
    && |run| == |events| + 1
    && Sound(run[0])
    && forall k :: 0 <= k < |events| ==> events[k].now >= run[k].last && run[k + 1] == Step(run[k], events[k])
  }

  /** The tokens given out by events `i` to `j - 1`. */
  ghost function Granted(run: seq<Bucket>, events: seq<Event>, i: nat, j: nat): real
    requires |run| == |events| + 1 && i <= j <= |events|
    decreases j
  {
    if i == j then 0.0
    else Granted(run, events, i, j - 1) + if Grants(run[j - 1], events[j - 1]) then events[j - 1].n as real else 0.0
  }

  /** What flows in between states `i` and `j`, at the rates in force. */
  ghost function Inflow(run: seq<Bucket>, events: seq<Event>, i: nat, j: nat): real
    requires |run| == |events| + 1 && i <= j <= |events|
    decreases j
  {
    if i == j then 0.0
    else Inflow(run, events, i, j - 1) + Earned(events[j - 1].now - run[j - 1].last, run[j - 1].rate)
  }

  lemma StepKeepsSound(b: Bucket, e: Event)
    requires Sound(b) && e.now >= b.last
    ensures Sound(Step(b, e))
    ensures Step(b, e).tokens + (if Grants(b, e) then e.n as real else 0.0) <= b.tokens + Earned(e.now - b.last, b.rate)
  {
    hide Earned;
    EarnedFacts(e.now - b.last, 0.0, b.rate);
  }

  /** The bucket never holds less than nothing nor more than the burst size. */
  lemma {:induction false} TokensWithinBurst(run: seq<Bucket>, events: seq<Event>, i: nat)
    requires IsRun(run, events) && i < |run|
    ensures 0.0 <= run[i].tokens <= run[i].burst as real
  {
    if i > 0 {
      TokensWithinBurst(run, events, i - 1);
      StepKeepsSound(run[i - 1], events[i - 1]);
    }
  }

  /** Whatever parameters are set in between: what was granted and what is left does not exceed what there was and what came in. */
  lemma {:induction false} GrantedWithinInflow(run: seq<Bucket>, events: seq<Event>, i: nat, j: nat)
    requires IsRun(run, events) && i <= j < |run|
    ensures run[j].tokens + Granted(run, events, i, j) <= run[i].tokens + Inflow(run, events, i, j)
    decreases j
  {
    if i < j {
      GrantedWithinInflow(run, events, i, j - 1);
      TokensWithinBurst(run, events, j - 1);
      StepKeepsSound(run[j - 1], events[j - 1]);
    }
  }

  ghost predicate OnlyAcquiring(events: seq<Event>, i: nat, j: nat)
    requires i <= j <= |events|
  {
    forall k :: i <= k < j ==> events[k].Acquiring?
  }

  lemma {:induction false} InflowAtConstantRate(run: seq<Bucket>, events: seq<Event>, i: nat, j: nat)
    requires IsRun(run, events) && i <= j < |run| && OnlyAcquiring(events, i, j)
    ensures run[j].rate == run[i].rate && run[j].burst == run[i].burst
    ensures Inflow(run, events, i, j) == Earned(run[j].last - run[i].last, run[i].rate)
    decreases j
  {
    hide Earned, Capped;
    EarnedFacts(0.0, 0.0, run[i].rate);
    if i < j {
      InflowAtConstantRate(run, events, i, j - 1);
      var before, last := run[j - 1].last - run[i].last, events[j - 1].now - run[j - 1].last;
      EarnedFacts(before, last, run[i].rate);
      assert run[j] == Step(run[j - 1], events[j - 1]);
      assert run[j].last - run[i].last == before + last;
    }
  }

  /** In any window with the same parameters, no more is granted than the burst size and what the rate allows for its length. */
  lemma WindowBound(run: seq<Bucket>, events: seq<Event>, i: nat, j: nat)
    requires IsRun(run, events) && i <= j < |run| && OnlyAcquiring(events, i, j)
    ensures Granted(run, events, i, j) <= run[i].burst as real + Earned(run[j].last - run[i].last, run[i].rate)
  {
    GrantedWithinInflow(run, events, i, j);
    InflowAtConstantRate(run, events, i, j);
    TokensWithinBurst(run, events, i);
    TokensWithinBurst(run, events, j);
  }

  /** No more than this was at hand after event `i` had been dealt with, before what it granted. */
  ghost function Limit(run: seq<Bucket>, i: nat): real
    requires i + 1 < |run|
  {
    (if run[i].burst < run[i + 1].burst then run[i].burst else run[i + 1].burst) as real
  }

  /** Granting `n` more at `now` keeps to the limit at event `i` and what has come in since. */
  ghost predicate Conforms(run: seq<Bucket>, events: seq<Event>, i: nat, k: nat, n: real, now: real)
    requires |run| == |events| + 1 && i < k <= |events|
  {
    Granted(run, events, i, k) + n <= Limit(run, i) + Inflow(run, events, i + 1, k) + Earned(now - run[k].last, run[k].rate)
  }

  /** The same for what was at hand at the beginning. */
  ghost predicate ConformsToStart(run: seq<Bucket>, events: seq<Event>, k: nat, n: real, now: real)
    requires |run| == |events| + 1 && k <= |events|
  {
    Granted(run, events, 0, k) + n <= run[0].tokens + Inflow(run, events, 0, k) + Earned(now - run[k].last, run[k].rate)
  }

  ghost predicate AllConform(run: seq<Bucket>, events: seq<Event>, k: nat, n: real, now: real)
    requires |run| == |events| + 1 && k <= |events|
  {
    ConformsToStart(run, events, k, n, now) && forall i :: 0 <= i < k ==> Conforms(run, events, i, k, n, now)
  }

  /** Whether there is room for `n` after event `j` is whether there was room before it for what that leaves. */
  lemma AllConformSnoc(run: seq<Bucket>, events: seq<Event>, j: nat, n: real, now: real)
    requires |run| == |events| + 1 && j < |events| && run[j + 1].last == events[j].now
    ensures var e := events[j];
            var given := if Grants(run[j], e) then e.n as real else 0.0;
            var before := n + given - Earned(now - run[j + 1].last, run[j + 1].rate);
            AllConform(run, events, j + 1, n, now) <==> AllConform(run, events, j, before, e.now) && before <= Limit(run, j)
  {
    hide Earned;
    var e, k := events[j], j + 1;
    var given := if Grants(run[j], e) then e.n as real else 0.0;
    var before := n + given - Earned(now - run[k].last, run[k].rate);
    forall i | 0 <= i < j
      ensures Conforms(run, events, i, k, n, now) <==> Conforms(run, events, i, j, before, e.now)
    {
    }
    assert Granted(run, events, j, j) == 0.0 && Inflow(run, events, k, k) == 0.0;
    assert Conforms(run, events, j, k, n, now) <==> before <= Limit(run, j);
    if AllConform(run, events, k, n, now) {
      forall i | 0 <= i < j
        ensures Conforms(run, events, i, j, before, e.now)
      {
        assert Conforms(run, events, i, k, n, now);
      }
    }
  }

  /** The tokens at hand at `now` are as many as all limits allow. */
  lemma {:induction false} TokensAtHand(run: seq<Bucket>, events: seq<Event>, k: nat, n: real, now: real)
    requires IsRun(run, events) && k < |run|
    ensures Refilled(run[k], now).tokens >= n <==> n <= run[k].burst as real && AllConform(run, events, k, n, now)
    decreases k
  {
    hide Earned, IsRun;
    RunStep(run, events, k);
    if k > 0 {
      var e := events[k - 1];
      RunStep(run, events, k - 1);
      var given := if Grants(run[k - 1], e) then e.n as real else 0.0;
      var before := n + given - Earned(now - run[k].last, run[k].rate);
      TokensAtHand(run, events, k - 1, before, e.now);
      AllConformSnoc(run, events, k - 1, n, now);
    }
  }

  lemma RunStep(run: seq<Bucket>, events: seq<Event>, k: nat)
    requires IsRun(run, events) && k < |run|
    ensures |run| == |events| + 1
    ensures k < |events| ==> events[k].now >= run[k].last && run[k + 1] == Step(run[k], events[k])
  {
  }

  /**
   In any run, with the parameters changed at will: a request is granted exactly when it keeps to the burst size, to what
   was at hand at the beginning, and to the limit at every earlier event, each with what the rates in force have let in
   since. So a change of the parameters takes no tokens away but those above the new burst size.
  */
  lemma GrantsExactly(run: seq<Bucket>, events: seq<Event>, k: nat)
    requires IsRun(run, events) && k < |events| && events[k].Acquiring?
    ensures var n := events[k].n as real;
            Grants(run[k], events[k]) <==> n <= run[k].burst as real && AllConform(run, events, k, n, events[k].now)
  {
    TokensAtHand(run, events, k, events[k].n as real, events[k].now);
  }

  /** The parameters in force are those set last. */
  lemma SettingTakesEffect(run: seq<Bucket>, events: seq<Event>, j: nat, k: nat)
    requires IsRun(run, events) && j < k < |run| && events[j].Setting? && OnlyAcquiring(events, j + 1, k)
    ensures run[k].rate == events[j].rate && run[k].burst == events[j].burst
  {
    RunStep(run, events, j);
    InflowAtConstantRate(run, events, j + 1, k);
  }

  /** With the same parameters all the time, the limit is the burst size and what the rate allows for the time since then. */
  lemma ConformsAtConstantRate(run: seq<Bucket>, events: seq<Event>, i: nat, k: nat, n: real, now: real)
    requires IsRun(run, events) && i < k < |run| && OnlyAcquiring(events, 0, k)
    ensures Conforms(run, events, i, k, n, now) <==>
            Granted(run, events, i, k) + n <= run[0].burst as real + Earned(now - events[i].now, run[0].rate)
  {
    hide Earned, Inflow, Granted;
    InflowAtConstantRate(run, events, 0, i);
    InflowAtConstantRate(run, events, 0, i + 1);
    InflowAtConstantRate(run, events, 0, k);
    InflowAtConstantRate(run, events, i + 1, k);
    EarnedFacts(run[k].last - run[i + 1].last, now - run[k].last, run[0].rate);
    assert run[k].last - run[i + 1].last + (now - run[k].last) == now - events[i].now;
  }
}

module RateLimiter {
  import opened TokenBuckets

  class TokenBucket {
    var ratePerSecond: nat
    var burstSize: nat
    var tokens: real
    var lastRefillTime: real

    function Value(): Bucket
      reads this
    {
      Bucket(ratePerSecond, burstSize, tokens, lastRefillTime)
    }

    ghost predicate Valid()
      reads this
    {
      Sound(Value())
    }

    constructor (rate: nat, burst: nat, now: real)
      ensures Valid() && Value() == Full(rate, burst, now)
      ensures ratePerSecond == rate && burstSize == burst && tokens == burst as real && lastRefillTime == now
    {
      ratePerSecond, burstSize, tokens, lastRefillTime := rate, burst, burst as real, now;
    }

    method Refill(now: real)
      requires Valid() && now >= lastRefillTime
      modifies this`tokens, this`lastRefillTime
      ensures Valid() && Value() == Refilled(old(Value()), now)
    {
      var elapsedSeconds := now - lastRefillTime;
      EarnedFacts(elapsedSeconds, 0.0, ratePerSecond);
      lastRefillTime := now;
      tokens := tokens + Earned(elapsedSeconds, ratePerSecond);
      if tokens > burstSize as real {
        tokens := burstSize as real;
      }
    }

    method Acquire(n: nat, now: real) returns (ok: bool)
      requires Valid() && now >= lastRefillTime
      modifies this`tokens, this`lastRefillTime
      ensures Valid()
      ensures ok == Grants(old(Value()), Acquiring(n, now)) && Value() == Step(old(Value()), Acquiring(n, now))
    {
      Refill(now);
      if tokens >= n as real {
        tokens := tokens - n as real;
        return true;
      }
      return false;
    }

    method SetRate(rate: nat, burst: nat, now: real)
      requires Valid() && now >= lastRefillTime
      modifies this
      ensures Valid() && Value() == Step(old(Value()), Setting(rate, burst, now))
      ensures ratePerSecond == rate && burstSize == burst && lastRefillTime == now
    {
      Refill(now);
      ratePerSecond := rate;
      burstSize := burst;
      if tokens > burst as real {
        tokens := burst as real;
      }
    }
  }
}
