/** The per-key token bucket of internal/server/ratelimit.go.

    Tokens and times are reals (seconds); every call reads the clock once. The
    Go map of bucket pointers is the `buckets` map of values.  */
module RateLimit {
  const AUTH_RATE: real := 0.2
  const AUTH_BURST: real := 5.0
  const IDLE: real := 1800.0

  datatype Bucket = Bucket(tokens: real, lastSeen: real)
  type Buckets = map<string, Bucket>

  function Min(x: real, y: real): real { if x < y then x else y }

  /** What `allow` does to the bucket map, and what it answers. */
  function AllowStep(m: Buckets, key: string, now: real): (Buckets, bool) {
    if key !in m then
      (m[key := Bucket(AUTH_BURST - 1.0, now)], true)
    else
      var tokens := Min(AUTH_BURST, m[key].tokens + (now - m[key].lastSeen) * AUTH_RATE);
      if tokens < 1.0 then (m[key := Bucket(tokens, now)], false)
      else (m[key := Bucket(tokens - 1.0, now)], true)
  }

  /** What one turn of the `gc` loop leaves. */
  function GcStep(m: Buckets, now: real): Buckets {
    map k | k in m && m[k].lastSeen >= now - IDLE :: m[k]
  }

  class RateLimiter {
    var buckets: Buckets

    constructor ()
      ensures buckets == map[]
    {
      buckets := map[];
    }

    method Allow(key: string, now: real) returns (ok: bool)
      modifies this
      ensures (buckets, ok) == AllowStep(old(buckets), key, now)
    {
      if key !in buckets {
        buckets := buckets[key := Bucket(AUTH_BURST - 1.0, now)];
        return true;
      }
      var b := buckets[key];
      var elapsed := now - b.lastSeen;
      b := b.(tokens := Min(AUTH_BURST, b.tokens + elapsed * AUTH_RATE));
      b := b.(lastSeen := now);
      if b.tokens < 1.0 {
        buckets := buckets[key := b];
        return false;
      }
      b := b.(tokens := b.tokens - 1.0);
      buckets := buckets[key := b];
      return true;
    }

    /** The body of the collector's loop: it deletes while ranging over the map. */
    method Gc(now: real)
      modifies this
      ensures buckets == GcStep(old(buckets), now)
    {
      var cutoff := now - IDLE;
      var todo := buckets.Keys;
      while todo != {}
        invariant todo <= buckets.Keys <= old(buckets).Keys
        invariant forall k :: k in buckets ==> buckets[k] == old(buckets)[k]
        invariant forall k :: k in old(buckets) && k !in todo ==>
          (k in buckets <==> old(buckets)[k].lastSeen >= cutoff)
        decreases todo
      {
        var k :| k in todo;
        if buckets[k].lastSeen < cutoff {
          buckets := buckets - {k};
        }
        todo := todo - {k};
      }
    }
  }

  // ---------------------------------------------------------------- runs

  datatype Event = Allow(key: string, now: real) | Gc(now: real)

  ghost predicate Monotone(es: seq<Event>) {
    forall i, j :: 0 <= i < j < |es| ==> es[i].now <= es[j].now
  }

  function Step(m: Buckets, e: Event): Buckets {
    match e
    case Allow(key, now) => AllowStep(m, key, now).0
    case Gc(now) => GcStep(m, now)
  }

  /** The decisions a run makes, one per `Allow` event. */
  function Decisions(m: Buckets, es: seq<Event>): seq<bool>
    decreases es
  {
    if es == [] then []
    else
      (if es[0].Allow? then [AllowStep(m, es[0].key, es[0].now).1] else [])
      + Decisions(Step(m, es[0]), es[1..])
  }

  function WithoutGc(es: seq<Event>): seq<Event> {
    if es == [] then []
    else (if es[0].Allow? then [es[0]] else []) + WithoutGc(es[1..])
  }

  /** How many requests for `key` the run grants in the window [a, b]. */
  function Grants(m: Buckets, es: seq<Event>, key: string, a: real, b: real): nat
    decreases es
  {
    if es == [] then 0
    else
      (if es[0].Allow? && es[0].key == key && a <= es[0].now <= b
          && AllowStep(m, key, es[0].now).1 then 1 else 0)
      + Grants(Step(m, es[0]), es[1..], key, a, b)
  }

  /** Every bucket holds between 0 and AUTH_BURST tokens and was seen by time t. */
  ghost predicate Bounded(m: Buckets, t: real) {
    forall k :: k in m ==> 0.0 <= m[k].tokens <= AUTH_BURST && m[k].lastSeen <= t
  }

  ghost predicate From(es: seq<Event>, t: real) {
    Monotone(es) && forall i :: 0 <= i < |es| ==> t <= es[i].now
  }

  lemma FromTail(es: seq<Event>, t: real)
    requires es != [] && From(es, t)
    ensures t <= es[0].now && From(es[1..], es[0].now)
  {
    forall i | 0 <= i < |es[1..]| ensures es[0].now <= es[1..][i].now {
      assert es[1..][i] == es[i + 1];
    }
  }

  lemma StepKeepsBounded(m: Buckets, e: Event, t: real)
    requires Bounded(m, t) && t <= e.now
    ensures Bounded(Step(m, e), e.now)
  {
    if e.Allow? && e.key in m {
      assert 0.0 <= (e.now - m[e.key].lastSeen) * AUTH_RATE;
    }
  }

  function RunTo(m: Buckets, es: seq<Event>): Buckets
    decreases es
  {
    if es == [] then m else RunTo(Step(m, es[0]), es[1..])
  }

  /** After every run under a monotone clock the tokens lie between 0 and 5. */
  lemma {:induction false} TokensBounded(m: Buckets, es: seq<Event>, t: real)
    requires Bounded(m, t) && From(es, t)
    ensures forall k :: k in RunTo(m, es) ==> 0.0 <= RunTo(m, es)[k].tokens <= AUTH_BURST
    decreases es
  {
    if es != [] {
      FromTail(es, t);
      StepKeepsBounded(m, es[0], t);
      TokensBounded(Step(m, es[0]), es[1..], es[0].now);
    }
  }

  // ------------------------------------------ collection is unobservable

  /** `m` is `full` less some buckets that a request at time t or later refills
      to the burst. */
  ghost predicate Collected(m: Buckets, full: Buckets, t: real) {
    && m.Keys <= full.Keys
    && forall k :: k in full ==>
         if k in m then m[k] == full[k]
         else full[k].tokens + (t - full[k].lastSeen) * AUTH_RATE >= AUTH_BURST
  }

  lemma CollectedLater(m: Buckets, full: Buckets, t: real, u: real)
    requires Collected(m, full, t) && t <= u
    ensures Collected(m, full, u)
  {
    forall k | k in full && k !in m
      ensures full[k].tokens + (u - full[k].lastSeen) * AUTH_RATE >= AUTH_BURST
    {
      assert (u - full[k].lastSeen) * AUTH_RATE >= (t - full[k].lastSeen) * AUTH_RATE;
    }
  }

  lemma AllowAgrees(m: Buckets, full: Buckets, key: string, now: real)
    requires Collected(m, full, now)
    ensures AllowStep(m, key, now).1 == AllowStep(full, key, now).1
    ensures Collected(AllowStep(m, key, now).0, AllowStep(full, key, now).0, now)
  {
  }

  lemma GcAgrees(m: Buckets, full: Buckets, now: real)
    requires Collected(m, full, now) && Bounded(full, now)
    ensures Collected(GcStep(m, now), full, now)
  {
    forall k | k in full && k !in GcStep(m, now)
      ensures full[k].tokens + (now - full[k].lastSeen) * AUTH_RATE >= AUTH_BURST
    {
      if k in m {
        assert now - full[k].lastSeen > IDLE;
        assert (now - full[k].lastSeen) * AUTH_RATE >= IDLE * AUTH_RATE;
      }
    }
  }

  lemma {:induction false} GcUnobservableFrom(m: Buckets, full: Buckets, es: seq<Event>, t: real)
    requires Collected(m, full, t) && Bounded(full, t) && From(es, t)
    ensures Decisions(m, es) == Decisions(full, WithoutGc(es))
    decreases es
  {
    if es != [] {
      var e := es[0];
      FromTail(es, t);
      CollectedLater(m, full, t, e.now);
      if e.Allow? {
        AllowAgrees(m, full, e.key, e.now);
        StepKeepsBounded(full, e, t);
        GcUnobservableFrom(Step(m, e), Step(full, e), es[1..], e.now);
        assert ([e] + WithoutGc(es[1..]))[1..] == WithoutGc(es[1..]);
      } else {
        assert Bounded(full, e.now);
        GcAgrees(m, full, e.now);
        assert WithoutGc(es) == WithoutGc(es[1..]);
        GcUnobservableFrom(Step(m, e), full, es[1..], e.now);
      }
    }
  }

  /** For any interleaving of collections with requests under a monotone clock,
      every decision is the one a limiter that never evicts makes. */
  lemma GcUnobservable(es: seq<Event>)
    requires Monotone(es)
    ensures Decisions(map[], es) == Decisions(map[], WithoutGc(es))
  {
    if es != [] {
      GcUnobservableFrom(map[], map[], es, es[0].now);
    }
  }

  // ------------------------------------------------------ the rate bound

  /** The tokens a request for `key` would find at time t. */
  function Available(m: Buckets, key: string, t: real): real {
    if key !in m then AUTH_BURST
    else Min(AUTH_BURST, m[key].tokens + (t - m[key].lastSeen) * AUTH_RATE)
  }

  /** One event at time e.now uses up what it grants and never adds tokens. */
  lemma StepSpends(m: Buckets, e: Event, key: string, t: real)
    requires Bounded(m, t) && t <= e.now
    ensures var granted := e.Allow? && e.key == key && AllowStep(m, key, e.now).1;
      Available(Step(m, e), key, e.now) + (if granted then 1.0 else 0.0)
      <= Available(m, key, t) + (e.now - t) * AUTH_RATE
  {
    if key in m {
      assert (e.now - m[key].lastSeen) * AUTH_RATE
        == (t - m[key].lastSeen) * AUTH_RATE + (e.now - t) * AUTH_RATE;
    }
    if e.Gc? && key in m && key !in Step(m, e) {
      assert Collected(m, m, e.now);
      GcAgrees(m, m, e.now);
    }
  }

  lemma {:induction false} NoGrantsAfter(m: Buckets, es: seq<Event>, key: string, a: real, b: real)
    requires forall i :: 0 <= i < |es| ==> b < es[i].now
    ensures Grants(m, es, key, a, b) == 0
    decreases es
  {
    if es != [] {
      NoGrantsAfter(Step(m, es[0]), es[1..], key, a, b);
    }
  }

  lemma {:induction false} GrantsFromNow(m: Buckets, es: seq<Event>, key: string, a: real, t: real, b: real)
    requires Bounded(m, t) && From(es, t) && a <= t <= b
    ensures Grants(m, es, key, a, b) as real <= Available(m, key, t) + (b - t) * AUTH_RATE
    decreases es
  {
    if es != [] {
      FromTail(es, t);
      var u := es[0].now;
      if b < u {
        NoGrantsAfter(m, es, key, a, b);
        if key in m {
          assert (t - m[key].lastSeen) * AUTH_RATE >= 0.0;
        }
      } else {
        StepKeepsBounded(m, es[0], t);
        StepSpends(m, es[0], key, t);
        GrantsFromNow(Step(m, es[0]), es[1..], key, a, u, b);
        assert (b - t) * AUTH_RATE == (b - u) * AUTH_RATE + (u - t) * AUTH_RATE;
      }
    } else if key in m {
      assert (t - m[key].lastSeen) * AUTH_RATE >= 0.0;
    }
  }

  /** For every key and every window [a, b] of every run, at most
      5 + 0.2 * (b - a) requests are granted. */
  lemma {:induction false} RateBound(m: Buckets, es: seq<Event>, key: string, t: real, a: real, b: real)
    requires Bounded(m, t) && From(es, t) && a <= b
    ensures Grants(m, es, key, a, b) as real <= AUTH_BURST + (b - a) * AUTH_RATE
    decreases es
  {
    if a <= t {
      if t <= b {
        GrantsFromNow(m, es, key, a, t, b);
        assert (b - t) * AUTH_RATE <= (b - a) * AUTH_RATE;
      } else {
        NoGrantsAfter(m, es, key, a, b);
      }
    } else if es != [] {
      FromTail(es, t);
      var u := es[0].now;
      if u < a {
        StepKeepsBounded(m, es[0], t);
        RateBound(Step(m, es[0]), es[1..], key, u, a, b);
      } else {
        assert Bounded(m, a);
        GrantsFromNow(m, es, key, a, a, b);
      }
    }
  }

  // -------------------------------------------- the limiter is not too strict

  /** Requests for `key` arrive at least 1 / AUTH_RATE = 5 seconds apart. */
  ghost predicate Spaced(es: seq<Event>, key: string) {
    forall i, j | 0 <= i < j < |es| :: es[i] == Allow(key, es[i].now) && es[j] == Allow(key, es[j].now)
      ==> es[i].now + 5.0 <= es[j].now
  }

  /** The next request for `key`, whenever it comes, finds a whole token. */
  ghost predicate Ready(m: Buckets, es: seq<Event>, key: string) {
    forall i :: 0 <= i < |es| && es[i].Allow? && es[i].key == key ==>
      Available(m, key, es[i].now) >= 1.0
  }

  lemma StepKeepsReady(m: Buckets, es: seq<Event>, key: string, t: real)
    requires es != [] && Bounded(m, t) && From(es, t) && Spaced(es, key) && Ready(m, es, key)
    ensures Ready(Step(m, es[0]), es[1..], key)
  {
    var e, n := es[0], Step(m, es[0]);
    FromTail(es, t);
    StepKeepsBounded(m, e, t);
    forall i | 0 <= i < |es[1..]| && es[1..][i].Allow? && es[1..][i].key == key
      ensures Available(n, key, es[1..][i].now) >= 1.0
    {
      assert es[1..][i] == es[i + 1];
      if e.Allow? && e.key == key {
        assert (es[i + 1].now - e.now) * AUTH_RATE >= 1.0;
      }
    }
  }

  /** A client that waits five seconds between requests is never refused: all
      of its requests are granted, whatever other keys and the collector do. */
  lemma {:induction false} SpacedAlwaysGranted(m: Buckets, es: seq<Event>, key: string, t: real, i: nat)
    requires Bounded(m, t) && From(es, t) && Spaced(es, key) && Ready(m, es, key)
    requires i < |es| && es[i].Allow? && es[i].key == key
    ensures AllowStep(RunTo(m, es[..i]), key, es[i].now).1
    decreases es
  {
    if i > 0 {
      FromTail(es, t);
      StepKeepsBounded(m, es[0], t);
      StepKeepsReady(m, es, key, t);
      SpacedAlwaysGranted(Step(m, es[0]), es[1..], key, es[0].now, i - 1);
      assert es[..i][1..] == es[1..][..i - 1];
    } else {
      assert es[..i] == [];
      assert Available(m, key, es[0].now) >= 1.0;
    }
  }

  // ------------------------------------------------- one call, and a burst of calls

  /** A request is granted to a new key, and else exactly when what was left, at a fifth
      of a token for each second since, has grown to a whole token. */
  lemma AllowExact(m: Buckets, key: string, now: real)
    ensures var (m', ok) := AllowStep(m, key, now);
      && (ok <==> key !in m || m[key].tokens + (now - m[key].lastSeen) / 5.0 >= 1.0)
      && m'.Keys == m.Keys + {key} && m'[key].lastSeen == now
      && (forall k :: k in m && k != key ==> m'[k] == m[k])
      && (m'[key].tokens + (if ok then 1.0 else 0.0) ==
            if key !in m || m[key].tokens + (now - m[key].lastSeen) / 5.0 >= 5.0 then 5.0
            else m[key].tokens + (now - m[key].lastSeen) / 5.0)
  {
    if key in m {
      assert (now - m[key].lastSeen) / 5.0 == (now - m[key].lastSeen) * AUTH_RATE;
    }
  }

  function Repeated(e: Event, n: nat): seq<Event> { if n == 0 then [] else [e] + Repeated(e, n - 1) }

  lemma DecideNext(m: Buckets, e: Event, rest: seq<Event>)
    requires e.Allow?
    ensures Decisions(m, [e] + rest) == [AllowStep(m, e.key, e.now).1] + Decisions(Step(m, e), rest)
  {
    assert ([e] + rest)[1..] == rest;
  }

  /** With `left` whole tokens, so many of the requests of one instant are granted, and
      the rest refused. */
  lemma {:induction false} BurstLeft(m: Buckets, e: Event, left: nat, n: nat)
    requires e.Allow? && e.key in m && m[e.key].lastSeen == e.now && m[e.key].tokens == left as real <= AUTH_BURST
    ensures |Decisions(m, Repeated(e, n))| == n
    ensures forall i :: 0 <= i < n ==> Decisions(m, Repeated(e, n))[i] == (i < left)
    decreases n
  {
    if n > 0 {
      DecideNext(m, e, Repeated(e, n - 1));
      BurstLeft(Step(m, e), e, if left == 0 then 0 else left - 1, n - 1);
    }
  }

  /** A key that is new, or was idle for twenty-five seconds, is granted five requests at
      once and refused the sixth and all further ones of that instant. */
  lemma BurstExact(m: Buckets, key: string, now: real, n: nat)
    requires key !in m || (0.0 <= m[key].tokens && m[key].lastSeen + 25.0 <= now)
    ensures |Decisions(m, Repeated(Allow(key, now), n))| == n
    ensures forall i :: 0 <= i < n ==> Decisions(m, Repeated(Allow(key, now), n))[i] == (i < 5)
  {
    if n > 0 {
      var e := Allow(key, now);
      if key in m {
        assert (now - m[key].lastSeen) * AUTH_RATE >= 25.0 * AUTH_RATE;
      }
      DecideNext(m, e, Repeated(e, n - 1));
      BurstLeft(Step(m, e), e, 4, n - 1);
    }
  }

  /** The collector drops what was not used for thirty minutes, in seconds. */
  lemma GcExact(m: Buckets, now: real, k: string)
    ensures k in GcStep(m, now) <==> k in m && now - m[k].lastSeen <= 30.0 * 60.0
    ensures k in GcStep(m, now) ==> GcStep(m, now)[k] == m[k]
  {
  }

  // ----------------------------------------- no refusal without cause, over whole runs

  lemma {:induction false} RunToSnoc(m: Buckets, es: seq<Event>, e: Event)
    ensures RunTo(m, es + [e]) == Step(RunTo(m, es), e)
    decreases es
  {
    if es == [] {
      assert es + [e] == [e] && [e][1..] == [];
    } else {
      assert (es + [e])[1..] == es[1..] + [e];
      RunToSnoc(Step(m, es[0]), es[1..], e);
    }
  }

  lemma {:induction false} GrantsSnoc(m: Buckets, es: seq<Event>, e: Event, key: string, a: real, b: real)
    ensures Grants(m, es + [e], key, a, b) == Grants(m, es, key, a, b)
      + if e.Allow? && e.key == key && a <= e.now <= b && AllowStep(RunTo(m, es), key, e.now).1 then 1 else 0
    decreases es
  {
    if es == [] {
      assert es + [e] == [e] && [e][1..] == [];
    } else {
      assert (es + [e])[1..] == es[1..] + [e];
      GrantsSnoc(Step(m, es[0]), es[1..], e, key, a, b);
    }
  }

  /** Since instant a the bucket has lost no more than it granted. */
  ghost predicate Conserves(es: seq<Event>, key: string, a: real, t: real, b: Bucket) {
    && a <= b.lastSeen
    && b.tokens >= AUTH_BURST + (b.lastSeen - a) * AUTH_RATE - Grants(map[], es, key, a, t) as real
  }

  lemma ConservesStep(es: seq<Event>, e: Event, key: string, a: real, t: real) returns (a': real)
    requires e.now <= t && key in Step(RunTo(map[], es), e)
    requires key in RunTo(map[], es) ==> Conserves(es, key, a, t, RunTo(map[], es)[key])
    requires key in RunTo(map[], es) ==> RunTo(map[], es)[key].lastSeen <= e.now
    ensures Conserves(es + [e], key, a', t, Step(RunTo(map[], es), e)[key])
  {
    var m := RunTo(map[], es);
    a' := a;
    if e.Allow? && e.key == key {
      if key in m {
        assert (e.now - a) * AUTH_RATE == (m[key].lastSeen - a) * AUTH_RATE + (e.now - m[key].lastSeen) * AUTH_RATE;
      }
      if key !in m || m[key].tokens + (e.now - m[key].lastSeen) * AUTH_RATE >= AUTH_BURST {
        a' := e.now;
      }
    }
    GrantsSnoc(map[], es, e, key, a', t);
  }

  /** The requests come in order, the last of them not after t. */
  ghost predicate Until(es: seq<Event>, t: real) { Monotone(es) && (es != [] ==> es[|es| - 1].now <= t) }

  lemma UntilFront(front: seq<Event>, e: Event, t: real)
    requires Until(front + [e], t)
    ensures Until(front, e.now) && e.now <= t
  {
    var es := front + [e];
    assert es[|front|] == e && forall i :: 0 <= i < |front| ==> es[i] == front[i];
  }

  lemma SeenNow(m: Buckets, e: Event, key: string)
    requires key in m ==> m[key].lastSeen <= e.now
    ensures key in Step(m, e) ==> Step(m, e)[key].lastSeen <= e.now
  {
  }

  lemma {:induction false} LastSeenPast(m: Buckets, es: seq<Event>, key: string, t: real)
    requires m == RunTo(map[], es) && Until(es, t)
    ensures key in m ==> m[key].lastSeen <= t
    decreases |es|
  {
    if es != [] {
      var front, e := es[..|es| - 1], es[|es| - 1];
      assert es == front + [e];
      UntilFront(front, e, t);
      RunToSnoc(map[], front, e);
      LastSeenPast(RunTo(map[], front), front, key, e.now);
      SeenNow(RunTo(map[], front), e, key);
    }
  }

  lemma {:induction false} ConservesAlong(es: seq<Event>, key: string, u: real, t: real) returns (a: real)
    requires Until(es, u) && u <= t
    ensures key in RunTo(map[], es) ==> Conserves(es, key, a, t, RunTo(map[], es)[key])
    decreases |es|
  {
    a := t;
    if es != [] {
      var front, e := es[..|es| - 1], es[|es| - 1];
      assert es == front + [e];
      UntilFront(front, e, u);
      var b := ConservesAlong(front, key, e.now, t);
      LastSeenPast(RunTo(map[], front), front, key, e.now);
      RunToSnoc(map[], front, e);
      if key in RunTo(map[], es) {
        a := ConservesStep(front, e, key, b, t);
      }
    }
  }

  /** A request is refused only to a client that has, since some instant a, been granted
      more than 4 + 0.2 * (now - a) requests: one more would break the bound. */
  lemma RefusedOnlyAtTheBound(es: seq<Event>, key: string, now: real) returns (a: real)
    requires Until(es, now) && !AllowStep(RunTo(map[], es), key, now).1
    ensures a <= now && Grants(map[], es, key, a, now) as real > 4.0 + (now - a) * 0.2
  {
    a := ConservesAlong(es, key, now, now);
    LastSeenPast(RunTo(map[], es), es, key, now);
    var b := RunTo(map[], es)[key];
    assert (now - a) * AUTH_RATE == (b.lastSeen - a) * AUTH_RATE + (now - b.lastSeen) * AUTH_RATE;
  }
}
