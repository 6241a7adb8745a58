/** The token bucket in front of the API: one bucket per caller, refilled at a
  * fixed rate up to a burst, one token per allowed request. Times are seconds
  * and tokens are real numbers.
  */
module RateLimiter {
  import opened ChainEvents

  datatype Limits = Limits(rps: real, burst: real)

  predicate Usable(l: Limits) {
    l.rps > 0.0 && l.burst >= 1.0
  }

  function LimitsFor(requestsPerSecond: real, burst: int): (l: Limits)
    ensures Usable(l)
  {
    Limits(if requestsPerSecond <= 0.0 then 1.0 else requestsPerSecond, if burst < 1 then 1.0 else burst as real)
  }

  datatype Bucket = Bucket(tokens: real, last: real)

  datatype Answer = Allowed | Denied(wait: real)

  /** What a bucket has gained since its last request. */
  function Gained(l: Limits, b: Bucket, now: real): real {
    (now - b.last) * l.rps
  }

  function Refilled(l: Limits, b: Bucket, now: real): real {
    var tokens := b.tokens + Gained(l, b, now);
    if tokens > l.burst then l.burst else tokens
  }

  /** A bucket after a request at `now`. */
  function Spent(l: Limits, b: Bucket, now: real): Bucket {
    var tokens := Refilled(l, b, now);
    Bucket(if tokens >= 1.0 then tokens - 1.0 else tokens, now)
  }

  function BucketAfter(l: Limits, b: Option<Bucket>, now: real): Bucket {
    match b
    case None => Bucket(l.burst - 1.0, now)
    case Some(held) => Spent(l, held, now)
  }

  function Wait(l: Limits, tokens: real): real
    requires l.rps > 0.0
  {
    (1.0 - tokens) / l.rps
  }

  function AnswerTo(l: Limits, b: Option<Bucket>, now: real): Answer
    requires Usable(l)
  {
    match b
    case None => Allowed
    case Some(held) =>
      var tokens := Refilled(l, held, now);
      if tokens >= 1.0 then Allowed else Denied(Wait(l, tokens))
  }

  function BucketOf(buckets: map<string, Bucket>, id: string): Option<Bucket> {
    if id in buckets then Some(buckets[id]) else None
  }

  class Limiter {
    const limits: Limits
    var buckets: map<string, Bucket>

    constructor (requestsPerSecond: real, burst: int)
      ensures limits == LimitsFor(requestsPerSecond, burst) && buckets == map[]
    {
      limits := LimitsFor(requestsPerSecond, burst);
      buckets := map[];
    }

    /** Spends a token of `identity` if it has one, and says how long to wait if
      * not; no other caller's bucket changes. */
    method Allow(identity: string, now: real) returns (ok: bool, wait: real)
      requires Usable(limits)
      modifies this
      ensures buckets == old(buckets)[identity := BucketAfter(limits, BucketOf(old(buckets), identity), now)]
      ensures AnswerTo(limits, BucketOf(old(buckets), identity), now) == if ok then Allowed else Denied(wait)
    {
      if identity !in buckets {
        buckets := buckets[identity := Bucket(limits.burst - 1.0, now)];
        return true, 0.0;
      }
      var b := buckets[identity];
      var tokens := b.tokens + (now - b.last) * limits.rps;
      if tokens > limits.burst {
        tokens := limits.burst;
      }
      assert tokens == Refilled(limits, b, now);
      if tokens >= 1.0 {
        buckets := buckets[identity := Bucket(tokens - 1.0, now)];
        return true, 0.0;
      }
      buckets := buckets[identity := Bucket(tokens, now)];
      ok, wait := false, Wait(limits, tokens);
    }
  }

  // ---- Runs ----

  datatype Request = Request(id: string, at: real)

  /** The buckets after some requests, from none. */
  function Buckets(l: Limits, rs: seq<Request>): map<string, Bucket> {
    if rs == [] then map[] else
      var r := rs[|rs| - 1];
      var before := Buckets(l, rs[..|rs| - 1]);
      before[r.id := BucketAfter(l, BucketOf(before, r.id), r.at)]
  }

  predicate IsAllowed(l: Limits, before: seq<Request>, r: Request)
    requires Usable(l)
  {
    AnswerTo(l, BucketOf(Buckets(l, before), r.id), r.at) == Allowed
  }

  /** Requests of `id` allowed between `lo` and `hi`, both included. */
  function AllowedWithin(l: Limits, rs: seq<Request>, id: string, lo: real, hi: real): nat
    requires Usable(l)
  {
    if rs == [] then 0 else
      var r, before := rs[|rs| - 1], rs[..|rs| - 1];
      AllowedWithin(l, before, id, lo, hi)
      + if r.id == id && lo <= r.at <= hi && IsAllowed(l, before, r) then 1 else 0
  }

  /** The clock never runs backwards. */
  predicate Chronological(rs: seq<Request>) {
    forall i, j :: 0 <= i < j < |rs| ==> rs[i].at <= rs[j].at
  }

  /** What one caller's bucket owes the bound: allowed requests and tokens left
    * never exceed the burst and what was refilled since `lo`. */
  predicate Owes(l: Limits, b: Option<Bucket>, count: nat, lo: real, hi: real, now: real) {
    count as real <= l.burst + (hi - lo) * l.rps
    && match b
       case None => count == 0
       case Some(held) => Holds(l, held, count, lo, hi, now)
  }

  predicate Holds(l: Limits, b: Bucket, count: nat, lo: real, hi: real, now: real) {
    0.0 <= b.tokens <= l.burst && b.last <= now
    && (b.last < lo ==> count == 0)
    && (lo <= b.last <= hi ==> count as real + b.tokens <= l.burst + (b.last - lo) * l.rps)
  }

  lemma Refills(rps: real, a: real, b: real, c: real)
    requires a <= b <= c && rps > 0.0
    ensures (c - a) * rps == (b - a) * rps + (c - b) * rps
    ensures 0.0 <= (b - a) * rps <= (c - a) * rps
  {
  }

  /** The bookkeeping of one request, refills and bounds being given numbers:
    * `gained` since the last request, `since` and `by` from the window's start
    * to the last request and to this one. */
  lemma Balance(burst: real, tokens: real, gained: real, since: real, upto: real, count: nat, inside: bool)
    requires burst >= 1.0 && 0.0 <= tokens <= burst && gained >= 0.0 && upto >= 0.0
    requires if inside then upto == since + gained && count as real + tokens <= burst + since else count == 0
    ensures var full := tokens + gained; var held := if full > burst then burst else full;
      (if held >= 1.0 then (count + 1) as real + (held - 1.0) else count as real + held) <= burst + upto
  {
  }

  lemma RequestInside(l: Limits, b: Bucket, count: nat, lo: real, at: real)
    requires Usable(l) && lo <= at && b.last <= at && 0.0 <= b.tokens <= l.burst
    requires if lo <= b.last then count as real + b.tokens <= l.burst + (b.last - lo) * l.rps else count == 0
    ensures var n := if Refilled(l, b, at) >= 1.0 then count + 1 else count;
      n as real + Spent(l, b, at).tokens <= l.burst + (at - lo) * l.rps
  {
    GainedIsPositive(l, b, at);
    Refills(l.rps, lo, at, at);
    if lo <= b.last {
      Refills(l.rps, lo, b.last, at);
    }
    Balance(l.burst, b.tokens, Gained(l, b, at), (b.last - lo) * l.rps, (at - lo) * l.rps, count, lo <= b.last);
  }

  lemma SpentIsInBounds(l: Limits, b: Bucket, at: real)
    requires Usable(l) && b.last <= at && 0.0 <= b.tokens <= l.burst
    ensures 0.0 <= Spent(l, b, at).tokens <= l.burst && Spent(l, b, at).last == at
  {
    GainedIsPositive(l, b, at);
  }

  lemma GainedIsPositive(l: Limits, b: Bucket, now: real)
    requires Usable(l) && b.last <= now
    ensures Gained(l, b, now) >= 0.0
  {
  }

  lemma FirstRequest(l: Limits, count: nat, lo: real, hi: real, now: real, at: real)
    requires Usable(l) && lo <= hi && now <= at && Owes(l, None, count, lo, hi, now)
    ensures var n := if lo <= at <= hi then count + 1 else count;
      Owes(l, Some(BucketAfter(l, None, at)), n, lo, hi, at)
  {
    if lo <= at <= hi {
      Refills(l.rps, lo, at, hi);
    }
  }

  lemma NextRequest(l: Limits, b: Bucket, count: nat, lo: real, hi: real, now: real, at: real)
    requires Usable(l) && lo <= hi && now <= at && Holds(l, b, count, lo, hi, now)
    requires count as real <= l.burst + (hi - lo) * l.rps
    ensures var n := if lo <= at <= hi && Refilled(l, b, at) >= 1.0 then count + 1 else count;
      Holds(l, Spent(l, b, at), n, lo, hi, at) && n as real <= l.burst + (hi - lo) * l.rps
  {
    SpentIsInBounds(l, b, at);
    if lo <= at <= hi {
      Refills(l.rps, lo, at, hi);
      RequestInside(l, b, count, lo, at);
    }
  }

  lemma OneRequest(l: Limits, b: Option<Bucket>, count: nat, lo: real, hi: real, now: real, at: real)
    requires Usable(l) && lo <= hi && now <= at && Owes(l, b, count, lo, hi, now)
    ensures var n := if lo <= at <= hi && AnswerTo(l, b, at) == Allowed then count + 1 else count;
      Owes(l, Some(BucketAfter(l, b, at)), n, lo, hi, at)
  {
    match b
    case None => FirstRequest(l, count, lo, hi, now, at);
    case Some(held) => NextRequest(l, held, count, lo, hi, now, at);
  }

  /** A request of another caller only lets time pass. */
  lemma TimePasses(l: Limits, b: Option<Bucket>, count: nat, lo: real, hi: real, now: real, later: real)
    requires now <= later && Owes(l, b, count, lo, hi, now)
    ensures Owes(l, b, count, lo, hi, later)
  {
  }

  lemma OwesNothingYet(l: Limits, lo: real, hi: real, now: real)
    requires Usable(l) && lo <= hi
    ensures Owes(l, None, 0, lo, hi, now)
  {
    Refills(l.rps, lo, lo, hi);
  }

  lemma {:induction false} EveryRunOwes(l: Limits, rs: seq<Request>, id: string, lo: real, hi: real, now: real)
    requires Usable(l) && lo <= hi && Chronological(rs) && (rs != [] ==> rs[|rs| - 1].at <= now)
    ensures Owes(l, BucketOf(Buckets(l, rs), id), AllowedWithin(l, rs, id, lo, hi), lo, hi, now)
  {
    if rs == [] {
      OwesNothingYet(l, lo, hi, now);
    } else {
      var r, before := rs[|rs| - 1], rs[..|rs| - 1];
      var b, count := BucketOf(Buckets(l, before), id), AllowedWithin(l, before, id, lo, hi);
      EveryRunOwes(l, before, id, lo, hi, r.at);
      if r.id == id {
        OneRequest(l, b, count, lo, hi, r.at, r.at);
      }
      TimePasses(l, BucketOf(Buckets(l, rs), id), AllowedWithin(l, rs, id, lo, hi), lo, hi, r.at, now);
    }
  }

  /** Whatever others do, one caller gets at most the burst and the refill of
    * any interval through in that interval. */
  lemma RateIsBounded(l: Limits, rs: seq<Request>, id: string, lo: real, hi: real)
    requires Usable(l) && lo <= hi && Chronological(rs)
    ensures AllowedWithin(l, rs, id, lo, hi) as real <= l.burst + (hi - lo) * l.rps
  {
    EveryRunOwes(l, rs, id, lo, hi, if rs == [] then 0.0 else rs[|rs| - 1].at);
  }

  // ---- Retrying ----

  lemma {:induction false} OthersLeaveAlone(l: Limits, rs: seq<Request>, more: seq<Request>, id: string)
    requires forall i :: 0 <= i < |more| ==> more[i].id != id
    ensures BucketOf(Buckets(l, rs + more), id) == BucketOf(Buckets(l, rs), id)
    decreases |more|
  {
    if more == [] {
      assert rs + more == rs;
    } else {
      var n := |more| - 1;
      assert (rs + more)[..|rs| + n] == rs + more[..n];
      OthersLeaveAlone(l, rs, more[..n], id);
    }
  }

  /** Waiting long enough and refilling enough are the same. */
  lemma WaitRefills(l: Limits, tokens: real, dt: real)
    requires Usable(l) && tokens < 1.0
    ensures Wait(l, tokens) > 0.0
    ensures dt >= Wait(l, tokens) <==> dt * l.rps >= 1.0 - tokens
  {
    var wait := Wait(l, tokens);
    assert wait * l.rps == 1.0 - tokens;
    if dt >= wait {
      assert (dt - wait) * l.rps >= 0.0;
    } else {
      assert (wait - dt) * l.rps > 0.0;
    }
  }

  /** One bucket that denies allows again from the delay it returned on. */
  lemma BucketRecovers(l: Limits, b: Option<Bucket>, at: real, wait: real, later: real)
    requires Usable(l) && at <= later && AnswerTo(l, b, at) == Denied(wait)
    ensures wait > 0.0
    ensures AnswerTo(l, Some(BucketAfter(l, b, at)), later) == Allowed <==> later >= at + wait
  {
    var tokens := Refilled(l, b.value, at);
    WaitRefills(l, tokens, later - at);
  }

  lemma BucketStays(l: Limits, rs: seq<Request>, r: Request, others: seq<Request>)
    requires forall i :: 0 <= i < |others| ==> others[i].id != r.id
    ensures BucketOf(Buckets(l, rs + [r] + others), r.id) == Some(BucketAfter(l, BucketOf(Buckets(l, rs), r.id), r.at))
  {
    OthersLeaveAlone(l, rs + [r], others, r.id);
    assert (rs + [r])[..|rs|] == rs;
  }

  /** A denied caller that makes no other request is allowed from the returned
    * delay on, and not before it. */
  lemma RetryIsAllowed(l: Limits, rs: seq<Request>, r: Request, wait: real, others: seq<Request>, later: real)
    requires Usable(l) && r.at <= later
    requires AnswerTo(l, BucketOf(Buckets(l, rs), r.id), r.at) == Denied(wait)
    requires forall i :: 0 <= i < |others| ==> others[i].id != r.id
    ensures wait > 0.0
    ensures IsAllowed(l, rs + [r] + others, Request(r.id, later)) <==> later >= r.at + wait
  {
    BucketStays(l, rs, r, others);
    BucketRecovers(l, BucketOf(Buckets(l, rs), r.id), r.at, wait, later);
  }

  /** The whole seconds the response header carries. */
  function RetryAfter(wait: real): (s: int)
    ensures s >= 1 && s as real >= wait
  {
    var up := if wait.Floor as real == wait then wait.Floor else wait.Floor + 1;
    if up < 1 then 1 else up
  }

  lemma HeaderIsEnough(l: Limits, rs: seq<Request>, r: Request, wait: real, others: seq<Request>)
    requires Usable(l) && AnswerTo(l, BucketOf(Buckets(l, rs), r.id), r.at) == Denied(wait)
    requires forall i :: 0 <= i < |others| ==> others[i].id != r.id
    ensures IsAllowed(l, rs + [r] + others, Request(r.id, r.at + RetryAfter(wait) as real))
  {
    RetryIsAllowed(l, rs, r, wait, others, r.at + RetryAfter(wait) as real);
  }

  /** A caller that leaves at least the refill time of one token between its
    * requests is never denied. */
  lemma SpacedRequestsAreAllowed(l: Limits, rs: seq<Request>, r: Request)
    requires Usable(l) && Chronological(rs + [r])
    requires forall i :: 0 <= i < |rs| && rs[i].id == r.id ==> (r.at - rs[i].at) * l.rps >= 1.0
    ensures IsAllowed(l, rs, r)
  {
    if rs != [] {
      assert rs == (rs + [r])[..|rs|];
      assert (rs + [r])[|rs|] == r;
      EveryRunOwes(l, rs, r.id, r.at, r.at, r.at);
      if r.id in Buckets(l, rs) {
        LastIsARequest(l, rs, r.id);
      }
    }
  }

  lemma {:induction false} LastIsARequest(l: Limits, rs: seq<Request>, id: string)
    requires id in Buckets(l, rs)
    ensures exists i :: 0 <= i < |rs| && rs[i].id == id && Buckets(l, rs)[id].last == rs[i].at
  {
    var n := |rs| - 1;
    if rs[n].id != id {
      LastIsARequest(l, rs[..n], id);
      var i :| 0 <= i < n && rs[..n][i].id == id && Buckets(l, rs[..n])[id].last == rs[..n][i].at;
      assert rs[i].id == id;
    }
  }
}
