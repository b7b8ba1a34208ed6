/** Per-client token buckets with lazy clean-up
    (crates/polargraph-server/src/rate_limit.rs). Clock readings are inputs. */
module RateLimit {
  import opened Sequences

  type Ip = nat

  const STALE_SECS: real := 60.0
  const CLEANUP_INTERVAL: nat := 1000
  const COUNTER_LIMIT: nat := 0x1_0000_0000_0000_0000

  datatype TokenBucket = TokenBucket(tokens: real, lastRefill: real)

  /** A request with the three clock readings its handling makes. */
  datatype Request = Request(client: Ip, exempt: bool, cleanupAt: real, insertAt: real, now: real)

  datatype State = State(buckets: map<Ip, TokenBucket>, count: nat)

  // ── One request ──────────────────────────────────────────────────────────

  function Min(a: real, b: real): real { if a <= b then a else b }

  /** Tokens earned in `elapsed` seconds: `elapsed` for every unit of the rate. */
  function Gain(elapsed: real, rate: nat): real {
    if rate == 0 then 0.0 else elapsed + Gain(elapsed, rate - 1)
  }

  lemma {:induction false} GainIsProduct(elapsed: real, rate: nat)
    ensures Gain(elapsed, rate) == elapsed * rate as real
  {
    if rate > 0 {
      GainIsProduct(elapsed, rate - 1);
      assert elapsed * rate as real == elapsed + elapsed * (rate - 1) as real;
    }
  }

  lemma {:induction false} GainAdds(a: real, b: real, rate: nat)
    ensures Gain(a + b, rate) == Gain(a, rate) + Gain(b, rate)
  {
    if rate > 0 { GainAdds(a, b, rate - 1); }
  }

  lemma {:induction false} GainGrows(a: real, b: real, rate: nat)
    requires a <= b
    ensures Gain(a, rate) <= Gain(b, rate)
  {
    if rate > 0 { GainGrows(a, b, rate - 1); }
  }

  lemma {:induction false} GainOfSecond(rate: nat)
    ensures Gain(1.0, rate) == rate as real && Gain(0.0, rate) == 0.0
  {
    if rate > 0 { GainOfSecond(rate - 1); }
  }

  lemma GainOverSecond(t: real, rate: nat)
    ensures rate as real + Gain(t, rate) == Gain(1.0 + t, rate)
  {
    GainOfSecond(rate);
    GainAdds(1.0, t, rate);
  }

  function Refill(maxRps: nat, b: TokenBucket, now: real): real {
    Min(b.tokens + Gain(now - b.lastRefill, maxRps), maxRps as real)
  }

  /** The decision and the bucket it leaves. */
  function Take(maxRps: nat, b: TokenBucket, now: real): (bool, TokenBucket) {
    var level := Refill(maxRps, b, now);
    if level >= 1.0 then (true, TokenBucket(level - 1.0, now)) else (false, TokenBucket(level, now))
  }

  function CleanupDue(count: nat): bool { count % CLEANUP_INTERVAL == 0 && count > 0 }

  function Cleaned(buckets: map<Ip, TokenBucket>, at: real): map<Ip, TokenBucket> {
    map c | c in buckets && buckets[c].lastRefill > at - STALE_SECS :: buckets[c]
  }

  function BucketFor(maxRps: nat, buckets: map<Ip, TokenBucket>, r: Request): TokenBucket {
    if r.client in buckets then buckets[r.client] else TokenBucket(maxRps as real, r.insertAt)
  }

  function Serve(maxRps: nat, st: State, r: Request): (bool, State) {
    if maxRps == 0 || r.exempt then (true, st)
    else
      var kept := if CleanupDue(st.count) then Cleaned(st.buckets, r.cleanupAt) else st.buckets;
      var (allowed, b) := Take(maxRps, BucketFor(maxRps, kept, r), r.now);
      (allowed, State(kept[r.client := b], (st.count + 1) % COUNTER_LIMIT))
  }

  class RateLimiter {
    const maxRps: nat
    var buckets: map<Ip, TokenBucket>
    var requestCount: nat

    constructor (maxRps: nat)
      ensures this.maxRps == maxRps && Value() == State(map[], 0)
    {
      this.maxRps := maxRps;
      buckets, requestCount := map[], 0;
    }

    function Value(): State
      reads this
    {
      State(buckets, requestCount)
    }

    method Call(r: Request) returns (allowed: bool)
      modifies this
      ensures (allowed, Value()) == Serve(maxRps, old(Value()), r)
    {
      if maxRps == 0 || r.exempt {
        return true;
      }
      ghost var kept := if CleanupDue(requestCount) then Cleaned(buckets, r.cleanupAt) else buckets;
      var count := requestCount;
      requestCount := (requestCount + 1) % COUNTER_LIMIT;
      if count % CLEANUP_INTERVAL == 0 && count > 0 {
        var cutoff := r.cleanupAt - STALE_SECS;
        buckets := map c | c in buckets && buckets[c].lastRefill > cutoff :: buckets[c];
      }
      assert buckets == kept;
      if r.client !in buckets {
        buckets := buckets[r.client := TokenBucket(maxRps as real, r.insertAt)];
      }
      var bucket := buckets[r.client];
      assert bucket == BucketFor(maxRps, kept, r);
      var elapsed := r.now - bucket.lastRefill;
      var tokens := Min(bucket.tokens + elapsed * maxRps as real, maxRps as real);
      GainIsProduct(elapsed, maxRps);
      assert tokens == Refill(maxRps, bucket, r.now);
      if tokens >= 1.0 {
        tokens := tokens - 1.0;
        allowed := true;
      } else {
        allowed := false;
      }
      assert Take(maxRps, bucket, r.now) == (allowed, TokenBucket(tokens, r.now));
      buckets := buckets[r.client := TokenBucket(tokens, r.now)];
      assert buckets == kept[r.client := TokenBucket(tokens, r.now)];
    }
  }

  // ── Runs ─────────────────────────────────────────────────────────────────

  /** Clock readings never go back, within a request or from one to the next. */
  predicate Clocked(rs: seq<Request>) {
    (forall i :: 0 <= i < |rs| ==> rs[i].cleanupAt <= rs[i].insertAt <= rs[i].now) &&
    forall i, j :: 0 <= i < j < |rs| ==> rs[i].now <= rs[j].cleanupAt
  }

  /** The limiter's state after every request of the run. */
  function After(maxRps: nat, rs: seq<Request>): State {
    if rs == [] then State(map[], 0) else Serve(maxRps, After(maxRps, rs[..|rs| - 1]), rs[|rs| - 1]).1
  }

  /** The limiter's decision on request `i` of the run. */
  function Decision(maxRps: nat, rs: seq<Request>, i: nat): bool
    requires i < |rs|
  {
    Serve(maxRps, After(maxRps, rs[..i]), rs[i]).0
  }

  // ── One client on its own, with no clean-up ever ─────────────────────────

  function TakeAlone(maxRps: nat, b: Option<TokenBucket>, r: Request): (bool, TokenBucket) {
    Take(maxRps, if b.Some? then b.value else TokenBucket(maxRps as real, r.insertAt), r.now)
  }

  /** `c`'s bucket when only its own requests are served and nothing is removed. */
  function Alone(maxRps: nat, rs: seq<Request>, c: Ip): Option<TokenBucket> {
    if rs == [] then None
    else
      var r, before := rs[|rs| - 1], Alone(maxRps, rs[..|rs| - 1], c);
      if r.client == c && !r.exempt then Some(TakeAlone(maxRps, before, r).1) else before
  }

  lemma Gains(elapsed: real, maxRps: nat)
    requires 0.0 <= elapsed
    ensures Gain(elapsed, maxRps) >= 0.0
  {
    GainOfSecond(maxRps);
    GainGrows(0.0, elapsed, maxRps);
  }

  lemma RefillRange(maxRps: nat, b: TokenBucket, now: real)
    requires 0.0 <= b.tokens && b.lastRefill <= now
    ensures 0.0 <= Refill(maxRps, b, now) <= maxRps as real
  {
    Gains(now - b.lastRefill, maxRps);
  }

  /** After a minute a bucket is full, whatever it held. */
  lemma IdleMinuteFills(maxRps: nat, b: TokenBucket, now: real)
    requires 0.0 <= b.tokens && b.lastRefill <= now - STALE_SECS
    ensures Refill(maxRps, b, now) == maxRps as real
  {
    GainOfSecond(maxRps);
    GainGrows(1.0, now - b.lastRefill, maxRps);
  }

  predicate InRange(maxRps: nat, b: TokenBucket, at: real) {
    0.0 <= b.tokens <= maxRps as real && b.lastRefill <= at
  }

  /** The bucket kept for `c` is the one it would have alone; when none is kept,
      the one it would have alone is full again. */
  predicate Mirrors(maxRps: nat, kept: map<Ip, TokenBucket>, c: Ip, alone: Option<TokenBucket>, at: real) {
    (alone.Some? ==> InRange(maxRps, alone.value, at)) &&
    if c in kept then alone == Some(kept[c]) else alone.Some? ==> alone.value.lastRefill <= at - STALE_SECS
  }

  lemma TakeInRange(maxRps: nat, b: TokenBucket, now: real)
    requires maxRps >= 1 && 0.0 <= b.tokens && b.lastRefill <= now
    ensures InRange(maxRps, Take(maxRps, b, now).1, now)
  {
    RefillRange(maxRps, b, now);
  }

  lemma TakesAlike(maxRps: nat, kept: map<Ip, TokenBucket>, r: Request, alone: Option<TokenBucket>, at: real)
    requires maxRps >= 1 && at <= r.cleanupAt <= r.insertAt <= r.now && Mirrors(maxRps, kept, r.client, alone, at)
    ensures Take(maxRps, BucketFor(maxRps, kept, r), r.now) == TakeAlone(maxRps, alone, r)
    ensures InRange(maxRps, TakeAlone(maxRps, alone, r).1, r.now)
  {
    var b := BucketFor(maxRps, kept, r);
    TakeInRange(maxRps, b, r.now);
    if r.client !in kept {
      Gains(r.now - r.insertAt, maxRps);
      if alone.Some? { IdleMinuteFills(maxRps, alone.value, r.now); }
    }
  }

  lemma CleanupMirrors(maxRps: nat, buckets: map<Ip, TokenBucket>, c: Ip, alone: Option<TokenBucket>, at: real,
      cleanupAt: real)
    requires at <= cleanupAt && Mirrors(maxRps, buckets, c, alone, at)
    ensures Mirrors(maxRps, Cleaned(buckets, cleanupAt), c, alone, cleanupAt) &&
            Mirrors(maxRps, buckets, c, alone, cleanupAt)
  {}

  function LastClock(rs: seq<Request>): real { if rs == [] then 0.0 else rs[|rs| - 1].now }

  lemma {:induction false} StateMirrors(maxRps: nat, rs: seq<Request>, c: Ip)
    requires maxRps >= 1 && Clocked(rs)
    ensures Mirrors(maxRps, After(maxRps, rs).buckets, c, Alone(maxRps, rs, c), LastClock(rs))
  {
    if rs != [] {
      var r, before := rs[|rs| - 1], rs[..|rs| - 1];
      StateMirrors(maxRps, before, c);
      StateMirrors(maxRps, before, r.client);
      var st := After(maxRps, before);
      var at := if before == [] then r.cleanupAt else LastClock(before);
      if !r.exempt {
        var kept := if CleanupDue(st.count) then Cleaned(st.buckets, r.cleanupAt) else st.buckets;
        CleanupMirrors(maxRps, st.buckets, r.client, Alone(maxRps, before, r.client), at, r.cleanupAt);
        CleanupMirrors(maxRps, st.buckets, c, Alone(maxRps, before, c), at, r.cleanupAt);
        TakesAlike(maxRps, kept, r, Alone(maxRps, before, r.client), r.cleanupAt);
      }
    }
  }

  /** Clean-up and other clients are unobservable: every decision is the one the
      client's own requests alone would get. */
  lemma CleanupUnobservable(maxRps: nat, rs: seq<Request>, i: nat)
    requires maxRps >= 1 && Clocked(rs) && i < |rs|
    ensures Decision(maxRps, rs, i)
         == (rs[i].exempt || TakeAlone(maxRps, Alone(maxRps, rs[..i], rs[i].client), rs[i]).0)
  {
    var r, before := rs[i], rs[..i];
    var st, alone := After(maxRps, before), Alone(maxRps, before, r.client);
    StateMirrors(maxRps, before, r.client);
    var at := if before == [] then r.cleanupAt else LastClock(before);
    assert at <= r.cleanupAt;
    CleanupMirrors(maxRps, st.buckets, r.client, alone, at, r.cleanupAt);
    if !r.exempt {
      var kept := if CleanupDue(st.count) then Cleaned(st.buckets, r.cleanupAt) else st.buckets;
      TakesAlike(maxRps, kept, r, alone, r.cleanupAt);
    }
  }

  /** Tokens stay between zero and the limit on every run. */
  lemma TokensBounded(maxRps: nat, rs: seq<Request>, c: Ip)
    requires maxRps >= 1 && Clocked(rs) && c in After(maxRps, rs).buckets
    ensures 0.0 <= After(maxRps, rs).buckets[c].tokens <= maxRps as real
  {
    StateMirrors(maxRps, rs, c);
  }

  // ── Admissions in a window ───────────────────────────────────────────────

  predicate Counted(rs: seq<Request>, i: nat, c: Ip)
    requires i < |rs|
  {
    rs[i].client == c && !rs[i].exempt
  }

  /** How many of `c`'s limited requests from `lo` up to `hi` are admitted. */
  function Admitted(maxRps: nat, rs: seq<Request>, c: Ip, lo: nat, hi: nat): nat
    requires lo <= hi <= |rs|
    decreases hi
  {
    if lo == hi then 0
    else Admitted(maxRps, rs, c, lo, hi - 1) + if Counted(rs, hi - 1, c) && Decision(maxRps, rs, hi - 1) then 1 else 0
  }

  /** What `c` has left after the first `hi` requests, refilled up to time `at`. */
  function Left(maxRps: nat, rs: seq<Request>, c: Ip, at: real): real {
    var alone := Alone(maxRps, rs, c);
    if alone.Some? then Refill(maxRps, alone.value, at) else maxRps as real
  }

  lemma RefillInSteps(maxRps: nat, b: TokenBucket, t1: real, t2: real)
    requires b.lastRefill <= t1 <= t2
    ensures Refill(maxRps, b, t2) <= Refill(maxRps, b, t1) + Gain(t2 - t1, maxRps)
  {
    GainAdds(t1 - b.lastRefill, t2 - t1, maxRps);
    Gains(t2 - t1, maxRps);
  }

  lemma TakePays(maxRps: nat, b: TokenBucket, now: real)
    requires maxRps >= 1 && 0.0 <= b.tokens && b.lastRefill <= now
    ensures var (allowed, b') := Take(maxRps, b, now);
            0.0 <= b'.tokens && b'.lastRefill == now &&
            b'.tokens == Refill(maxRps, b, now) - (if allowed then 1.0 else 0.0) && Refill(maxRps, b', now) == b'.tokens
  {
    RefillRange(maxRps, b, now);
    GainOfSecond(maxRps);
    assert now - Take(maxRps, b, now).1.lastRefill == 0.0;
  }

  /** One request moves tokens from what is left to what is admitted. */
  lemma StepPays(maxRps: nat, rs: seq<Request>, c: Ip, k: nat, at: real)
    requires maxRps >= 1 && Clocked(rs) && k < |rs| && (k == 0 || LastClock(rs[..k]) <= at) && at <= rs[k].now
    ensures (if Counted(rs, k, c) && Decision(maxRps, rs, k) then 1.0 else 0.0) +
            Left(maxRps, rs[..k + 1], c, rs[k].now)
         <= Left(maxRps, rs[..k], c, at) + Gain(rs[k].now - at, maxRps)
  {
    var r, before := rs[k], rs[..k];
    assert rs[..k + 1][..k] == before && rs[..k + 1][k] == r;
    Gains(r.now - at, maxRps);
    StateMirrors(maxRps, before, c);
    var alone := Alone(maxRps, before, c);
    if alone.Some? { RefillInSteps(maxRps, alone.value, at, r.now); }
    if Counted(rs, k, c) {
      CleanupUnobservable(maxRps, rs, k);
      var b := if alone.Some? then alone.value else TokenBucket(maxRps as real, r.insertAt);
      TakePays(maxRps, b, r.now);
      RefillRange(maxRps, b, r.now);
    }
  }

  lemma AdmittedGrows(maxRps: nat, rs: seq<Request>, c: Ip, lo: nat, k: nat)
    requires lo <= k < |rs|
    ensures Admitted(maxRps, rs, c, lo, k + 1) as real
         == Admitted(maxRps, rs, c, lo, k) as real + if Counted(rs, k, c) && Decision(maxRps, rs, k) then 1.0 else 0.0
  {}

  lemma {:induction false} WindowPays(maxRps: nat, rs: seq<Request>, c: Ip, lo: nat, hi: nat)
    requires maxRps >= 1 && Clocked(rs) && lo < hi <= |rs|
    ensures Admitted(maxRps, rs, c, lo, hi) as real + Left(maxRps, rs[..hi], c, rs[hi - 1].now)
         <= maxRps as real + Gain(rs[hi - 1].now - rs[lo].now, maxRps)
    decreases hi
  {
    hide Admitted, Left, Decision, Gain;
    if hi == lo + 1 {
      FirstPays(maxRps, rs, c, lo);
    } else {
      WindowPays(maxRps, rs, c, lo, hi - 1);
      NextPays(maxRps, rs, c, lo, hi - 1, rs[hi - 2].now, rs[hi - 1].now);
    }
  }

  lemma NextPays(maxRps: nat, rs: seq<Request>, c: Ip, lo: nat, k: nat, before: real, now: real)
    requires maxRps >= 1 && Clocked(rs) && lo < k < |rs| && before == rs[k - 1].now && now == rs[k].now
    requires Admitted(maxRps, rs, c, lo, k) as real + Left(maxRps, rs[..k], c, before) <= maxRps as real +
             Gain(before - rs[lo].now, maxRps)
    ensures Admitted(maxRps, rs, c, lo, k + 1) as real + Left(maxRps, rs[..k + 1], c, now) <= maxRps as real +
            Gain(now - rs[lo].now, maxRps)
  {
    hide Admitted, Left, Decision, Gain;
    assert rs[..k][k - 1] == rs[k - 1];
    StepPays(maxRps, rs, c, k, before);
    AdmittedGrows(maxRps, rs, c, lo, k);
    GainAdds(before - rs[lo].now, now - before, maxRps);
    assert now - rs[lo].now == (before - rs[lo].now) + (now - before);
  }

  lemma FirstPays(maxRps: nat, rs: seq<Request>, c: Ip, lo: nat)
    requires maxRps >= 1 && Clocked(rs) && lo < |rs|
    ensures Admitted(maxRps, rs, c, lo, lo + 1) as real + Left(maxRps, rs[..lo + 1], c, rs[lo].now)
         <= maxRps as real + Gain(rs[lo].now - rs[lo].now, maxRps)
  {
    GainOfSecond(maxRps);
    StepPays(maxRps, rs, c, lo, rs[lo].now);
    LeftAtMost(maxRps, rs, c, lo, rs[lo].now);
    assert Admitted(maxRps, rs, c, lo, lo) == 0;
  }

  lemma LeftAtMost(maxRps: nat, rs: seq<Request>, c: Ip, k: nat, at: real)
    requires maxRps >= 1 && Clocked(rs) && k <= |rs|
    ensures Left(maxRps, rs[..k], c, at) <= maxRps as real
  {}

  lemma LeftNonNegative(maxRps: nat, rs: seq<Request>, c: Ip, hi: nat)
    requires maxRps >= 1 && Clocked(rs) && 0 < hi <= |rs|
    ensures Left(maxRps, rs[..hi], c, rs[hi - 1].now) >= 0.0
  {
    StateMirrors(maxRps, rs[..hi], c);
    assert LastClock(rs[..hi]) == rs[hi - 1].now;
    var alone := Alone(maxRps, rs[..hi], c);
    if alone.Some? { RefillRange(maxRps, alone.value, rs[hi - 1].now); }
  }

  lemma WindowGains(maxRps: nat, rs: seq<Request>, c: Ip, lo: nat, hi: nat)
    requires maxRps >= 1 && Clocked(rs) && lo < hi <= |rs|
    ensures Admitted(maxRps, rs, c, lo, hi) as real <= Gain(1.0 + (rs[hi - 1].now - rs[lo].now), maxRps)
  {
    WindowPays(maxRps, rs, c, lo, hi);
    LeftNonNegative(maxRps, rs, c, hi);
    GainOverSecond(rs[hi - 1].now - rs[lo].now, maxRps);
  }

  /** In any window of the run a client gets at most `maxRps * (1 + seconds)`
      requests through. */
  lemma WindowBound(maxRps: nat, rs: seq<Request>, c: Ip, lo: nat, hi: nat, seconds: real)
    requires maxRps >= 1 && Clocked(rs) && lo < hi <= |rs| && seconds == rs[hi - 1].now - rs[lo].now
    ensures Admitted(maxRps, rs, c, lo, hi) as real <= maxRps as real * (1.0 + seconds)
  {
    hide Admitted;
    WindowGains(maxRps, rs, c, lo, hi);
    GainIsProduct(1.0 + seconds, maxRps);
  }

  // ── Exactly when a request is admitted ───────────────────────────────────

  /** `c`'s bucket is as the last of its own requests left it. */
  lemma {:induction false} LastTouch(maxRps: nat, rs: seq<Request>, c: Ip) returns (i: nat)
    requires Alone(maxRps, rs, c).Some?
    ensures i < |rs| && Counted(rs, i, c) && rs[i].now == Alone(maxRps, rs, c).value.lastRefill
    ensures NoneCounted(rs, c, i + 1, |rs|) && Alone(maxRps, rs, c) == Alone(maxRps, rs[..i + 1], c)
  {
    var r, before := rs[|rs| - 1], rs[..|rs| - 1];
    if r.client == c && !r.exempt {
      i := |rs| - 1;
      assert rs[..i + 1] == rs;
    } else {
      i := LastTouch(maxRps, before, c);
      assert before[i] == rs[i] && before[..i + 1] == rs[..i + 1];
      forall m | i + 1 <= m < |rs| ensures !Counted(rs, m, c) {
        assert m < |before| ==> before[m] == rs[m] && !Counted(before, m, c);
      }
    }
  }

  /** None of the requests from `lo` up to `hi` is a limited request of `c`. */
  predicate NoneCounted(rs: seq<Request>, c: Ip, lo: nat, hi: nat)
    requires hi <= |rs|
  {
    forall m :: lo <= m < hi ==> !Counted(rs, m, c)
  }

  /** What `c` may still take at request `k`, as far as its requests since `lo` tell:
      a full bucket and the tokens earned since, less the requests admitted. */
  function Allowance(maxRps: nat, rs: seq<Request>, c: Ip, lo: nat, k: nat): real
    requires lo <= k < |rs|
  {
    maxRps as real + Gain(rs[k].now - rs[lo].now, maxRps) - Admitted(maxRps, rs, c, lo, k) as real
  }

  lemma {:induction false} AdmittedNone(maxRps: nat, rs: seq<Request>, c: Ip, lo: nat, mid: nat, hi: nat)
    requires lo <= mid <= hi <= |rs| && NoneCounted(rs, c, mid, hi)
    ensures Admitted(maxRps, rs, c, lo, hi) == Admitted(maxRps, rs, c, lo, mid)
    decreases hi
  {
    if mid < hi { AdmittedNone(maxRps, rs, c, lo, mid, hi - 1); }
  }

  /** From one limited request to the next the allowance grows by the tokens earned
      and shrinks by the request if it was admitted. */
  lemma AllowanceMoves(maxRps: nat, rs: seq<Request>, c: Ip, lo: nat, j: nat, k: nat)
    requires lo <= j < k < |rs| && Counted(rs, j, c) && NoneCounted(rs, c, j + 1, k)
    ensures Allowance(maxRps, rs, c, lo, k)
         == Allowance(maxRps, rs, c, lo, j) - (if Decision(maxRps, rs, j) then 1.0 else 0.0) +
            Gain(rs[k].now - rs[j].now, maxRps)
  {
    hide Decision, Gain;
    AdmittedNone(maxRps, rs, c, lo, j + 1, k);
    AdmittedGrows(maxRps, rs, c, lo, j);
    GainAdds(rs[j].now - rs[lo].now, rs[k].now - rs[j].now, maxRps);
    assert rs[k].now - rs[lo].now == (rs[j].now - rs[lo].now) + (rs[k].now - rs[j].now);
  }

  /** The level `c`'s bucket has refilled to at its request `k`. */
  function Level(maxRps: nat, rs: seq<Request>, c: Ip, k: nat): real
    requires k < |rs|
  {
    Left(maxRps, rs[..k], c, rs[k].now)
  }

  lemma LevelDecides(maxRps: nat, rs: seq<Request>, c: Ip, k: nat)
    requires maxRps >= 1 && Clocked(rs) && k < |rs| && Counted(rs, k, c)
    ensures Decision(maxRps, rs, k) <==> Level(maxRps, rs, c, k) >= 1.0
  {
    CleanupUnobservable(maxRps, rs, k);
    Gains(rs[k].now - rs[k].insertAt, maxRps);
  }

  /** The level before the first request is full, and afterwards what the last
      request left, refilled. */
  lemma LevelMoves(maxRps: nat, rs: seq<Request>, c: Ip, j: nat, k: nat)
    requires maxRps >= 1 && Clocked(rs) && j < k < |rs| && Counted(rs, j, c)
    requires Alone(maxRps, rs[..k], c) == Alone(maxRps, rs[..j + 1], c)
    ensures Level(maxRps, rs, c, k)
         == Min(Level(maxRps, rs, c, j) - (if Decision(maxRps, rs, j) then 1.0 else 0.0) +
              Gain(rs[k].now - rs[j].now, maxRps), maxRps as real)
  {
    assert rs[..j + 1][..j] == rs[..j] && rs[..j + 1][j] == rs[j];
    hide Decision, Gain;
    LevelDecides(maxRps, rs, c, j);
    Gains(rs[j].now - rs[j].insertAt, maxRps);
  }

  predicate Bounds(maxRps: nat, rs: seq<Request>, c: Ip, k: nat, level: real)
    requires k < |rs|
  {
    forall lo :: 0 <= lo <= k && Counted(rs, lo, c) ==> level <= Allowance(maxRps, rs, c, lo, k)
  }

  predicate Attained(maxRps: nat, rs: seq<Request>, c: Ip, k: nat, level: real)
    requires k < |rs|
  {
    exists lo :: 0 <= lo <= k && Counted(rs, lo, c) && level == Allowance(maxRps, rs, c, lo, k)
  }

  /** The level is the least of the allowances. */
  lemma {:induction false} LevelIsLeast(maxRps: nat, rs: seq<Request>, c: Ip, k: nat)
    requires maxRps >= 1 && Clocked(rs) && k < |rs| && Counted(rs, k, c)
    ensures Bounds(maxRps, rs, c, k, Level(maxRps, rs, c, k)) && Attained(maxRps, rs, c, k, Level(maxRps, rs, c, k))
    decreases k
  {
    GainOfSecond(maxRps);
    assert rs[k].now - rs[k].now == 0.0;
    assert Allowance(maxRps, rs, c, k, k) == maxRps as real;
    if Alone(maxRps, rs[..k], c).None? {
      NeverCounted(maxRps, rs[..k], c);
      assert forall lo :: 0 <= lo < k ==> rs[..k][lo] == rs[lo] && !Counted(rs[..k], lo, c);
    } else {
      var j := LastTouch(maxRps, rs[..k], c);
      assert rs[..k][j] == rs[j] && rs[..k][..j + 1] == rs[..j + 1];
      assert forall m :: j < m < k ==> rs[..k][m] == rs[m] && !Counted(rs[..k], m, c);
      LevelIsLeast(maxRps, rs, c, j);
      LevelMoves(maxRps, rs, c, j, k);
      LeastMoves(maxRps, rs, c, j, k);
    }
  }

  lemma {:induction false} NeverCounted(maxRps: nat, rs: seq<Request>, c: Ip)
    requires Alone(maxRps, rs, c).None?
    ensures NoneCounted(rs, c, 0, |rs|)
  {
    if rs != [] {
      var before := rs[..|rs| - 1];
      NeverCounted(maxRps, before, c);
      assert forall m :: 0 <= m < |before| ==> before[m] == rs[m] && !Counted(before, m, c);
    }
  }

  lemma LeastMoves(maxRps: nat, rs: seq<Request>, c: Ip, j: nat, k: nat)
    requires j < k < |rs| && Counted(rs, j, c) && Counted(rs, k, c) && NoneCounted(rs, c, j + 1, k)
    requires Bounds(maxRps, rs, c, j, Level(maxRps, rs, c, j)) && Attained(maxRps, rs, c, j, Level(maxRps, rs, c, j))
    requires Level(maxRps, rs, c, k)
          == Min(Level(maxRps, rs, c, j) - (if Decision(maxRps, rs, j) then 1.0 else 0.0) +
               Gain(rs[k].now - rs[j].now, maxRps), maxRps as real)
    requires Allowance(maxRps, rs, c, k, k) == maxRps as real
    ensures Bounds(maxRps, rs, c, k, Level(maxRps, rs, c, k)) && Attained(maxRps, rs, c, k, Level(maxRps, rs, c, k))
  {
    hide Level, Decision, Allowance, Gain;
    var level := Level(maxRps, rs, c, k);
    forall lo | 0 <= lo <= k && Counted(rs, lo, c) ensures level <= Allowance(maxRps, rs, c, lo, k) {
      if lo <= j { AllowanceMoves(maxRps, rs, c, lo, j, k); }
    }
    if level != maxRps as real {
      var lo :| 0 <= lo <= j && Counted(rs, lo, c) && Level(maxRps, rs, c, j) == Allowance(maxRps, rs, c, lo, j);
      AllowanceMoves(maxRps, rs, c, lo, j, k);
    }
  }

  /** Since `lo`, one more request stays within the burst and the rate. */
  predicate RoomSince(maxRps: nat, rs: seq<Request>, c: Ip, lo: nat, k: nat)
    requires lo <= k < |rs|
  {
    Admitted(maxRps, rs, c, lo, k) as real + 1.0 <= maxRps as real + maxRps as real * (rs[k].now - rs[lo].now)
  }

  /** Exactly when a request is admitted: when nothing limits it, or when from none
      of its client's limited requests on, itself included, more would be admitted
      than a full bucket and the time since then allow. */
  lemma AdmittedExactly(maxRps: nat, rs: seq<Request>, k: nat)
    requires Clocked(rs) && k < |rs|
    ensures Decision(maxRps, rs, k)
       <==> maxRps == 0 || rs[k].exempt ||
            forall lo :: 0 <= lo <= k && Counted(rs, lo, rs[k].client) ==> RoomSince(maxRps, rs, rs[k].client, lo, k)
  {
    if maxRps > 0 && !rs[k].exempt {
      var c := rs[k].client;
      LevelDecides(maxRps, rs, c, k);
      LevelIsLeast(maxRps, rs, c, k);
      RoomIsAllowance(maxRps, rs, c, k);
    }
  }

  lemma RoomIsAllowance(maxRps: nat, rs: seq<Request>, c: Ip, k: nat)
    requires k < |rs| && Bounds(maxRps, rs, c, k, Level(maxRps, rs, c, k)) &&
             Attained(maxRps, rs, c, k, Level(maxRps, rs, c, k))
    ensures Level(maxRps, rs, c, k) >= 1.0
       <==> forall lo :: 0 <= lo <= k && Counted(rs, lo, c) ==> RoomSince(maxRps, rs, c, lo, k)
  {
    hide Level, Admitted;
    forall lo | 0 <= lo <= k ensures RoomSince(maxRps, rs, c, lo, k) <==> Allowance(maxRps, rs, c, lo, k) >= 1.0 {
      GainIsProduct(rs[k].now - rs[lo].now, maxRps);
    }
  }

  // ── Well-spaced requests ─────────────────────────────────────────────────

  /** Consecutive limited requests of `c` are at least `1 / maxRps` seconds apart. */
  predicate Spaced(maxRps: nat, rs: seq<Request>, c: Ip) {
    forall i, j :: 0 <= i < j < |rs| && Counted(rs, i, c) && Counted(rs, j, c) ==>
      Gain(rs[j].now - rs[i].now, maxRps) >= 1.0
  }

  lemma SpacedNeverRejected(maxRps: nat, rs: seq<Request>, c: Ip, k: nat)
    requires maxRps >= 1 && Clocked(rs) && Spaced(maxRps, rs, c) && k < |rs| && Counted(rs, k, c)
    ensures Decision(maxRps, rs, k)
  {
    CleanupUnobservable(maxRps, rs, k);
    var alone := Alone(maxRps, rs[..k], c);
    StateMirrors(maxRps, rs[..k], c);
    if alone.Some? {
      var i := LastTouch(maxRps, rs[..k], c);
      assert rs[..k][i] == rs[i] && Counted(rs, i, c);
    } else {
      Gains(rs[k].now - rs[k].insertAt, maxRps);
    }
  }
}
