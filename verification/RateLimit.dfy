/**
 The two token-bucket rate limiters (per IP address and per client), with their purge of idle
 buckets. Tokens and times are exact reals; the clock is an input.
 */
module RateLimit {
  import opened Basics

  datatype Bucket = Bucket(tokens: real, lastUpdate: real)

  /** `purgeAbove`: the table size beyond which idle buckets are dropped (1000 or 2000). */
  datatype Config = Config(refill: real, max: real, purgeAbove: nat)

  const IDLE: real := 60.0
  const HTTP_SDP := Config(5.0, 10.0, 1000)
  const DATACHANNEL := Config(100.0, 200.0, 2000)

  predicate Sane(cfg: Config) {
    cfg.refill >= 0.0 && cfg.max >= 0.0
  }

  /** An idle minute refills any bucket completely. */
  predicate RefillsWhileIdle(cfg: Config) {
    IDLE * cfg.refill >= cfg.max
  }

  lemma ShippedSettings()
    ensures Sane(HTTP_SDP) && RefillsWhileIdle(HTTP_SDP)
    ensures Sane(DATACHANNEL) && RefillsWhileIdle(DATACHANNEL)
  {
  }

  // ---------------------------------------------------------------- one bucket

  function Min(a: real, b: real): (r: real) {
    if a <= b then a else b
  }

  function Refilled(cfg: Config, b: Bucket, now: real): (tokens: real) {
    Min(b.tokens + Elapsed(now, b.lastUpdate) * cfg.refill, cfg.max)
  }

  /** The tokens on hand at `now`; a missing bucket starts full. */
  function Level(cfg: Config, ob: Option<Bucket>, now: real): (tokens: real) {
    match ob
    case None => cfg.max
    case Some(b) => Refilled(cfg, b, now)
  }

  function Consume(cfg: Config, ob: Option<Bucket>, now: real): (r: (Bucket, bool)) {
    var tokens := Level(cfg, ob, now);
    if tokens >= 1.0 then (Bucket(tokens - 1.0, now), true) else (Bucket(tokens, now), false)
  }

  predicate InRange(cfg: Config, ob: Option<Bucket>) {
    ob.Some? ==> 0.0 <= ob.value.tokens <= cfg.max
  }

  lemma MulNonNegative(a: real, b: real)
    requires a >= 0.0 && b >= 0.0
    ensures a * b >= 0.0
  {
  }

  lemma LevelInRange(cfg: Config, ob: Option<Bucket>, now: real)
    requires Sane(cfg) && InRange(cfg, ob)
    ensures 0.0 <= Level(cfg, ob, now) <= cfg.max
    ensures InRange(cfg, Some(Consume(cfg, ob, now).0))
  {
    if ob.Some? {
      MulNonNegative(Elapsed(now, ob.value.lastUpdate), cfg.refill);
    }
  }

  /** Forgetting a bucket at this moment, or later, changes nothing. */
  predicate AsGoodAsNew(cfg: Config, ob: Option<Bucket>, now: real) {
    ob.Some? ==> ob.value.lastUpdate <= now && ob.value.tokens + (now - ob.value.lastUpdate) * cfg.refill >= cfg.max
  }

  lemma AsGoodAsNewLater(cfg: Config, ob: Option<Bucket>, now: real, later: real)
    requires Sane(cfg) && AsGoodAsNew(cfg, ob, now) && now <= later
    ensures AsGoodAsNew(cfg, ob, later) && Level(cfg, ob, later) == cfg.max
  {
    if ob.Some? {
      MulNonNegative(later - now, cfg.refill);
      var last := ob.value.lastUpdate;
      assert (later - last) * cfg.refill == (later - now) * cfg.refill + (now - last) * cfg.refill;
    }
  }

  lemma IdleIsAsGoodAsNew(cfg: Config, b: Bucket, now: real)
    requires Sane(cfg) && RefillsWhileIdle(cfg) && InRange(cfg, Some(b)) && Elapsed(now, b.lastUpdate) >= IDLE
    ensures AsGoodAsNew(cfg, Some(b), now)
  {
    var idle := now - b.lastUpdate;
    MulNonNegative(idle - IDLE, cfg.refill);
    assert idle * cfg.refill == (idle - IDLE) * cfg.refill + IDLE * cfg.refill;
  }

  /** Dropping idle buckets is exact for every bucket precisely when a minute refills a whole one. */
  lemma PurgeIsExactWhen(cfg: Config)
    requires Sane(cfg)
    ensures (forall b: Bucket, now: real ::
               InRange(cfg, Some(b)) && Elapsed(now, b.lastUpdate) >= 60.0 ==> Refilled(cfg, b, now) == cfg.max)
       <==> 60.0 * cfg.refill >= cfg.max
  {
    if RefillsWhileIdle(cfg) {
      forall b: Bucket, now: real | InRange(cfg, Some(b)) && Elapsed(now, b.lastUpdate) >= IDLE
        ensures Refilled(cfg, b, now) == cfg.max
      {
        IdleIsAsGoodAsNew(cfg, b, now);
        AsGoodAsNewLater(cfg, Some(b), now, now);
      }
    } else {
      var empty := Bucket(0.0, 0.0);
      assert InRange(cfg, Some(empty)) && Elapsed(IDLE, empty.lastUpdate) >= IDLE;
      assert Refilled(cfg, empty, IDLE) == IDLE * cfg.refill;
    }
  }

  // ---------------------------------------------------------------- the limiter

  type Table<!K> = map<K, Bucket>

  function Lookup<K>(t: Table<K>, k: K): (ob: Option<Bucket>) {
    if k in t then Some(t[k]) else None
  }

  function Purged<K>(t: Table<K>, now: real): (r: Table<K>) {
    map k | k in t && Elapsed(now, t[k].lastUpdate) < IDLE :: t[k]
  }

  /** The table a check works on. */
  function Swept<K>(cfg: Config, t: Table<K>, now: real): (r: Table<K>) {
    if |t| > cfg.purgeAbove then Purged(t, now) else t
  }

  /** One call of `check_and_consume`. */
  function Check<K>(cfg: Config, t: Table<K>, key: K, now: real): (r: (Table<K>, bool)) {
    var swept := Swept(cfg, t, now);
    var (b, ok) := Consume(cfg, Lookup(swept, key), now);
    (swept[key := b], ok)
  }

  class RateLimiter<K(==)> {
    const cfg: Config
    var buckets: map<K, Bucket>

    constructor (cfg: Config)
      ensures this.cfg == cfg && buckets == map[]
    {
      this.cfg := cfg;
      buckets := map[];
    }

    method CheckAndConsume(key: K, now: real) returns (ok: bool)
      modifies this
      ensures (buckets, ok) == Check(cfg, old(buckets), key, now)
    {
      if |buckets| > cfg.purgeAbove {
        buckets := map k | k in buckets && Elapsed(now, buckets[k].lastUpdate) < IDLE :: buckets[k];
      }
      ghost var swept, ob := buckets, Lookup(buckets, key);
      assert swept == Swept(cfg, old(buckets), now);
      if key !in buckets {
        buckets := buckets[key := Bucket(cfg.max, now)];
      }
      var tokens := Min(buckets[key].tokens + Elapsed(now, buckets[key].lastUpdate) * cfg.refill, cfg.max);
      assert tokens == Level(cfg, ob, now);
      if tokens >= 1.0 {
        buckets := buckets[key := Bucket(tokens - 1.0, now)];
        ok := true;
      } else {
        buckets := buckets[key := Bucket(tokens, now)];
        ok := false;
      }
      assert buckets == swept[key := buckets[key]];
    }

    method RemoveClient(key: K)
      modifies this
      ensures buckets == old(buckets) - {key}
    {
      buckets := buckets - {key};
    }
  }

  // ---------------------------------------------------------------- runs

  datatype Event = Ask(now: real) | Forget
  datatype Call<K> = Call(key: K, event: Event)
  datatype Answer = Allowed | Refused | Forgotten

  /** The clock never goes back along the calls. */
  predicate Ordered<K>(calls: seq<Call<K>>, from: real) {
    calls == [] || match calls[0].event
      case Ask(now) => from <= now && Ordered(calls[1..], now)
      case Forget => Ordered(calls[1..], from)
  }

  function Step<K>(cfg: Config, t: Table<K>, c: Call<K>): (r: (Table<K>, Answer)) {
    match c.event
    case Ask(now) =>
      var (t', ok) := Check(cfg, t, c.key, now);
      (t', if ok then Allowed else Refused)
    case Forget => (t - {c.key}, Forgotten)
  }

  /** The answers of the limiter, shared by all keys, to a run of calls. */
  function Answers<K>(cfg: Config, t: Table<K>, calls: seq<Call<K>>): (r: seq<Answer>)
    ensures |r| == |calls|
    decreases |calls|
  {
    if calls == [] then [] else
      var (t', a) := Step(cfg, t, calls[0]);
      [a] + Answers(cfg, t', calls[1..])
  }

  function SoloStep(cfg: Config, ob: Option<Bucket>, e: Event): (r: (Option<Bucket>, Answer)) {
    match e
    case Ask(now) =>
      var (b, ok) := Consume(cfg, ob, now);
      (Some(b), if ok then Allowed else Refused)
    case Forget => (None, Forgotten)
  }

  /** The answers of a private bucket that nobody shares and nothing ever purges. */
  function Solo(cfg: Config, ob: Option<Bucket>, es: seq<Event>): (r: seq<Answer>)
    ensures |r| == |es|
    decreases |es|
  {
    if es == [] then [] else
      var (ob', a) := SoloStep(cfg, ob, es[0]);
      [a] + Solo(cfg, ob', es[1..])
  }

  function EventsOf<K(==)>(calls: seq<Call<K>>, k: K): (es: seq<Event>) {
    if calls == [] then []
    else (if calls[0].key == k then [calls[0].event] else []) + EventsOf(calls[1..], k)
  }

  function AnswersOf<K(==)>(calls: seq<Call<K>>, answers: seq<Answer>, k: K): (r: seq<Answer>)
    requires |answers| == |calls|
  {
    if calls == [] then []
    else (if calls[0].key == k then [answers[0]] else []) + AnswersOf(calls[1..], answers[1..], k)
  }

  /** The shared table stands for the private bucket of `k`: it holds that bucket, or has dropped
      one that is as good as new. */
  predicate StandsFor<K>(cfg: Config, t: Table<K>, k: K, ob: Option<Bucket>, now: real) {
    && InRange(cfg, ob)
    && (ob.Some? ==> ob.value.lastUpdate <= now)
    && (if k in t then ob == Some(t[k]) else AsGoodAsNew(cfg, ob, now))
  }

  lemma SweepStandsFor<K>(cfg: Config, t: Table<K>, k: K, ob: Option<Bucket>, before: real, now: real)
    requires Sane(cfg) && RefillsWhileIdle(cfg) && StandsFor(cfg, t, k, ob, before) && before <= now
    ensures StandsFor(cfg, Swept(cfg, t, now), k, ob, now)
  {
    if k in t {
      if Elapsed(now, t[k].lastUpdate) >= IDLE {
        IdleIsAsGoodAsNew(cfg, t[k], now);
      }
    } else {
      AsGoodAsNewLater(cfg, ob, before, now);
    }
  }

  lemma CheckStandsFor<K>(cfg: Config, t: Table<K>, key: K, k: K, ob: Option<Bucket>, before: real, now: real)
    requires Sane(cfg) && RefillsWhileIdle(cfg) && StandsFor(cfg, t, k, ob, before) && before <= now
    ensures var (t', ok) := Check(cfg, t, key, now);
      if key == k then
        Consume(cfg, ob, now).1 == ok && StandsFor(cfg, t', k, Some(Consume(cfg, ob, now).0), now)
      else StandsFor(cfg, t', k, ob, now)
  {
    var swept := Swept(cfg, t, now);
    SweepStandsFor(cfg, t, k, ob, before, now);
    if key == k {
      LevelInRange(cfg, ob, now);
      if k !in swept {
        AsGoodAsNewLater(cfg, ob, now, now);
      }
    }
  }

  /** A key's answers depend only on its own calls: whatever other keys do, and whatever the
      purge drops, they are those of a private bucket. */
  lemma {:induction false} AnswersAreSolo<K>(
    cfg: Config, t: Table<K>, ob: Option<Bucket>, calls: seq<Call<K>>, k: K, now: real)
    requires Sane(cfg) && RefillsWhileIdle(cfg) && Ordered(calls, now) && StandsFor(cfg, t, k, ob, now)
    ensures AnswersOf(calls, Answers(cfg, t, calls), k) == Solo(cfg, ob, EventsOf(calls, k))
    decreases |calls|
  {
    if calls != [] {
      hide Consume, Check, StandsFor, Ordered;
      var c, rest := calls[0], calls[1..];
      var (t', a) := Step(cfg, t, c);
      var now' := OrderedHead(calls, now);
      assert Answers(cfg, t, calls)[1..] == Answers(cfg, t', rest);
      var ob' := if c.key == k then SoloStep(cfg, ob, c.event).0 else ob;
      StepStandsFor(cfg, t, c, k, ob, now, now');
      AnswersAreSolo(cfg, t', ob', rest, k, now');
      if c.key == k {
        assert EventsOf(calls, k)[1..] == EventsOf(rest, k);
      } else {
        assert EventsOf(calls, k) == EventsOf(rest, k);
      }
    }
  }

  lemma OrderedHead<K>(calls: seq<Call<K>>, from: real) returns (now: real)
    requires calls != [] && Ordered(calls, from)
    ensures from <= now && Ordered(calls[1..], now)
    ensures now == if calls[0].event.Ask? then calls[0].event.now else from
  {
    now := if calls[0].event.Ask? then calls[0].event.now else from;
  }

  lemma StepStandsFor<K>(cfg: Config, t: Table<K>, c: Call<K>, k: K, ob: Option<Bucket>, before: real, now: real)
    requires Sane(cfg) && RefillsWhileIdle(cfg) && StandsFor(cfg, t, k, ob, before) && before <= now
    requires now == if c.event.Ask? then c.event.now else before
    ensures var (t', a) := Step(cfg, t, c);
      if c.key == k then
        var (ob', a') := SoloStep(cfg, ob, c.event);
        a == a' && StandsFor(cfg, t', k, ob', now)
      else StandsFor(cfg, t', k, ob, now)
  {
    if c.event.Ask? {
      CheckStandsFor(cfg, t, c.key, k, ob, before, now);
    }
  }

  /** From an empty table, on every run of calls. */
  lemma NoInterference<K>(cfg: Config, calls: seq<Call<K>>, k: K, start: real)
    requires Sane(cfg) && RefillsWhileIdle(cfg) && Ordered(calls, start)
    ensures AnswersOf(calls, Answers(cfg, map[], calls), k) == Solo(cfg, None, EventsOf(calls, k))
  {
    AnswersAreSolo(cfg, map[], None, calls, k, start);
  }

  // ---------------------------------------------------------------- purging is unobservable

  /** One call on a table that is never purged. */
  function CheckUnpurged<K>(cfg: Config, t: Table<K>, key: K, now: real): (r: (Table<K>, bool)) {
    var (b, ok) := Consume(cfg, Lookup(t, key), now);
    (t[key := b], ok)
  }

  function AnswersUnpurged<K>(cfg: Config, t: Table<K>, calls: seq<Call<K>>): (r: seq<Answer>)
    ensures |r| == |calls|
    decreases |calls|
  {
    if calls == [] then [] else
      match calls[0].event
      case Ask(now) =>
        var (t', ok) := CheckUnpurged(cfg, t, calls[0].key, now);
        [if ok then Allowed else Refused] + AnswersUnpurged(cfg, t', calls[1..])
      case Forget => [Forgotten] + AnswersUnpurged(cfg, t - {calls[0].key}, calls[1..])
  }

  ghost predicate Shadows<K(!new)>(cfg: Config, t: Table<K>, u: Table<K>, now: real) {
    forall k: K :: StandsFor(cfg, t, k, Lookup(u, k), now)
  }

  lemma ShadowStep<K(!new)>(cfg: Config, t: Table<K>, u: Table<K>, key: K, before: real, now: real)
    requires Sane(cfg) && RefillsWhileIdle(cfg) && Shadows(cfg, t, u, before) && before <= now
    ensures Check(cfg, t, key, now).1 == CheckUnpurged(cfg, u, key, now).1
    ensures Shadows(cfg, Check(cfg, t, key, now).0, CheckUnpurged(cfg, u, key, now).0, now)
  {
    var u' := CheckUnpurged(cfg, u, key, now).0;
    CheckStandsFor(cfg, t, key, key, Lookup(u, key), before, now);
    forall k: K ensures StandsFor(cfg, Check(cfg, t, key, now).0, k, Lookup(u', k), now) {
      CheckStandsFor(cfg, t, key, k, Lookup(u, k), before, now);
    }
  }

  /** A limiter that purges answers every run exactly as one that never does. */
  lemma {:induction false} PurgeIsUnobservable<K(!new)>(
    cfg: Config, t: Table<K>, u: Table<K>, calls: seq<Call<K>>, now: real)
    requires Sane(cfg) && RefillsWhileIdle(cfg) && Ordered(calls, now) && Shadows(cfg, t, u, now)
    ensures Answers(cfg, t, calls) == AnswersUnpurged(cfg, u, calls)
    decreases |calls|
  {
    if calls != [] {
      hide Consume, StandsFor, Ordered, Check, CheckUnpurged;
      var c, rest := calls[0], calls[1..];
      var now' := OrderedHead(calls, now);
      match c.event
      case Ask(_) =>
        ShadowStep(cfg, t, u, c.key, now, now');
        PurgeIsUnobservable(cfg, Check(cfg, t, c.key, now').0, CheckUnpurged(cfg, u, c.key, now').0, rest, now');
      case Forget =>
        ForgetShadows(cfg, t, u, c.key, now);
        PurgeIsUnobservable(cfg, t - {c.key}, u - {c.key}, rest, now');
    }
  }

  lemma ForgetShadows<K(!new)>(cfg: Config, t: Table<K>, u: Table<K>, key: K, now: real)
    requires Shadows(cfg, t, u, now)
    ensures Shadows(cfg, t - {key}, u - {key}, now)
  {
    forall k: K ensures StandsFor(cfg, t - {key}, k, Lookup(u - {key}, k), now) {
      assert StandsFor(cfg, t, k, Lookup(u, k), now);
    }
  }

  // ---------------------------------------------------------------- the envelope

  function CountAllowed(answers: seq<Answer>): (n: nat) {
    if answers == [] then 0 else (if answers[0].Allowed? then 1 else 0) + CountAllowed(answers[1..])
  }

  predicate Asks(es: seq<Event>) {
    forall i :: 0 <= i < |es| ==> es[i].Ask?
  }

  predicate InOrder(es: seq<Event>)
    requires Asks(es)
  {
    forall i, j :: 0 <= i <= j < |es| ==> es[i].now <= es[j].now
  }

  /** The tokens one bucket can earn between two moments. */
  function Earned(cfg: Config, from: real, to: real): (tokens: real) {
    (to - from) * cfg.refill
  }

  lemma EarnedAdds(cfg: Config, t0: real, t1: real, t2: real)
    ensures Earned(cfg, t0, t2) == Earned(cfg, t0, t1) + Earned(cfg, t1, t2)
    ensures Earned(cfg, t0, t0) == 0.0
  {
  }

  lemma RefilledIsEarned(cfg: Config, b: Bucket, now: real)
    requires b.lastUpdate <= now
    ensures Refilled(cfg, b, now) == Min(b.tokens + Earned(cfg, b.lastUpdate, now), cfg.max)
  {
  }

  lemma LevelAfterConsume(cfg: Config, ob: Option<Bucket>, t0: real, t1: real)
    requires t0 <= t1
    ensures var (b, ok) := Consume(cfg, ob, t0);
      Level(cfg, Some(b), t1) + (if ok then 1.0 else 0.0) <= Level(cfg, ob, t0) + Earned(cfg, t0, t1)
  {
    RefilledIsEarned(cfg, Consume(cfg, ob, t0).0, t1);
  }

  lemma CountHead(cfg: Config, ob: Option<Bucket>, es: seq<Event>)
    requires es != [] && es[0].Ask?
    ensures var (b, ok) := Consume(cfg, ob, es[0].now);
      CountAllowed(Solo(cfg, ob, es)) == (if ok then 1 else 0) + CountAllowed(Solo(cfg, Some(b), es[1..]))
  {
    assert Solo(cfg, ob, es)[1..] == Solo(cfg, SoloStep(cfg, ob, es[0]).0, es[1..]);
  }

  /** What a bucket allows is paid for by the tokens it starts with and what it earns meanwhile. */
  lemma {:induction false} Conservation(cfg: Config, ob: Option<Bucket>, es: seq<Event>)
    requires Sane(cfg) && InRange(cfg, ob) && es != [] && Asks(es) && InOrder(es)
    ensures CountAllowed(Solo(cfg, ob, es)) as real <=
      Level(cfg, ob, es[0].now) + Earned(cfg, es[0].now, es[|es| - 1].now)
    decreases |es|
  {
    var b, t0, rest := Consume(cfg, ob, es[0].now).0, es[0].now, es[1..];
    LevelInRange(cfg, ob, t0);
    CountHead(cfg, ob, es);
    if rest == [] {
      EarnedAdds(cfg, t0, t0, t0);
    } else {
      hide Level, Earned, CountAllowed, Solo;
      assert forall i :: 0 <= i < |rest| ==> rest[i] == es[i + 1];
      Conservation(cfg, Some(b), rest);
      LevelAfterConsume(cfg, ob, t0, rest[0].now);
      EarnedAdds(cfg, t0, rest[0].now, es[|es| - 1].now);
    }
  }

  /** The bucket of a private run after its first `i` events. */
  function After(cfg: Config, ob: Option<Bucket>, es: seq<Event>, i: nat): (r: Option<Bucket>)
    requires i <= |es|
    decreases i
  {
    if i == 0 then ob else After(cfg, SoloStep(cfg, ob, es[0]).0, es[1..], i - 1)
  }

  lemma {:induction false} SoloSplits(cfg: Config, ob: Option<Bucket>, es: seq<Event>, i: nat)
    requires Sane(cfg) && InRange(cfg, ob) && i <= |es|
    ensures InRange(cfg, After(cfg, ob, es, i))
    ensures Solo(cfg, ob, es)[i..] == Solo(cfg, After(cfg, ob, es, i), es[i..])
    decreases i
  {
    if i == 0 {
      assert es[0..] == es && Solo(cfg, ob, es)[0..] == Solo(cfg, ob, es);
    } else {
      var ob' := SoloStep(cfg, ob, es[0]).0;
      if es[0].Ask? { LevelInRange(cfg, ob, es[0].now); }
      SoloSplits(cfg, ob', es[1..], i - 1);
      assert es[1..][i - 1..] == es[i..];
      assert Solo(cfg, ob, es)[i..] == Solo(cfg, ob', es[1..])[i - 1..];
    }
  }

  lemma {:induction false} SoloPrefix(cfg: Config, ob: Option<Bucket>, es: seq<Event>, n: nat)
    requires n <= |es|
    ensures Solo(cfg, ob, es)[..n] == Solo(cfg, ob, es[..n])
    decreases n
  {
    if n > 0 {
      var ob' := SoloStep(cfg, ob, es[0]).0;
      SoloPrefix(cfg, ob', es[1..], n - 1);
      assert es[..n][1..] == es[1..][..n - 1];
      assert Solo(cfg, ob, es)[..n] == [Solo(cfg, ob, es)[0]] + Solo(cfg, ob', es[1..])[..n - 1];
    }
  }

  /** In any window of calls by one key, between two removals, at most `max + refill * T` are allowed. */
  lemma Envelope(cfg: Config, es: seq<Event>, i: nat, j: nat)
    requires Sane(cfg) && i < j <= |es| && Asks(es[i..j]) && InOrder(es[i..j])
    ensures es[i].Ask? && es[j - 1].Ask?
    ensures CountAllowed(Solo(cfg, None, es)[i..j]) as real <= cfg.max + Earned(cfg, es[i].now, es[j - 1].now)
  {
    hide Solo, CountAllowed, After, Level, InOrder, Earned;
    var window, ob := es[i..j], After(cfg, None, es, i);
    assert window[0] == es[i] && window[|window| - 1] == es[j - 1];
    SoloWindow(cfg, es, i, j);
    Conservation(cfg, ob, window);
    LevelInRange(cfg, ob, es[i].now);
  }

  lemma SoloWindow(cfg: Config, es: seq<Event>, i: nat, j: nat)
    requires Sane(cfg) && i < j <= |es|
    ensures InRange(cfg, After(cfg, None, es, i))
    ensures Solo(cfg, None, es)[i..j] == Solo(cfg, After(cfg, None, es, i), es[i..j])
  {
    hide Solo;
    SoloSplits(cfg, None, es, i);
    SoloPrefix(cfg, After(cfg, None, es, i), es[i..], j - i);
    assert es[i..][..j - i] == es[i..j];
    assert Solo(cfg, None, es)[i..j] == Solo(cfg, None, es)[i..][..j - i];
  }

  /** The questions among the events come in the order of their times, none before `from`. */
  predicate Chronological(es: seq<Event>, from: real) {
    && (forall i :: 0 <= i < |es| && es[i].Ask? ==> from <= es[i].now)
    && (forall i, j :: 0 <= i <= j < |es| && es[i].Ask? && es[j].Ask? ==> es[i].now <= es[j].now)
  }

  lemma {:induction false} OrderedEvents<K>(calls: seq<Call<K>>, k: K, from: real)
    requires Ordered(calls, from)
    ensures Chronological(EventsOf(calls, k), from)
    decreases |calls|
  {
    if calls != [] {
      var now := OrderedHead(calls, from);
      OrderedEvents(calls[1..], k, now);
    }
  }

  /** The same bound for one key of the shared, purging limiter. */
  lemma LimiterEnvelope<K>(cfg: Config, calls: seq<Call<K>>, k: K, start: real, i: nat, j: nat)
    requires Sane(cfg) && RefillsWhileIdle(cfg) && Ordered(calls, start)
    requires var es := EventsOf(calls, k); i < j <= |es| && Asks(es[i..j])
    ensures var es := EventsOf(calls, k);
      var answers := AnswersOf(calls, Answers(cfg, map[], calls), k);
      && es[i].Ask? && es[j - 1].Ask? && |answers| == |es|
      && CountAllowed(answers[i..j]) as real <= cfg.max + Earned(cfg, es[i].now, es[j - 1].now)
  {
    hide Ordered, Answers, Solo, CountAllowed;
    NoInterference(cfg, calls, k, start);
    OrderedEvents(calls, k, start);
    Envelope(cfg, EventsOf(calls, k), i, j);
  }

  /** Calls far enough apart for one token each. */
  predicate Spaced(cfg: Config, es: seq<Event>)
    requires Asks(es)
  {
    |es| >= 2 ==>
      && es[0].now <= es[1].now && Earned(cfg, es[0].now, es[1].now) >= 1.0
      && Spaced(cfg, es[1..])
  }

  lemma SpacedStep(cfg: Config, ob: Option<Bucket>, t0: real, t1: real)
    requires Sane(cfg) && cfg.max >= 1.0 && InRange(cfg, ob)
    requires t0 <= t1 && Earned(cfg, t0, t1) >= 1.0
    ensures Level(cfg, Some(Consume(cfg, ob, t0).0), t1) >= 1.0
  {
    hide Earned, Refilled;
    LevelInRange(cfg, ob, t0);
    RefilledIsEarned(cfg, Consume(cfg, ob, t0).0, t1);
  }

  /** A caller that spaces its calls by at least 1/refill is never refused. */
  lemma {:induction false} SpacedCallerNeverRefused(cfg: Config, ob: Option<Bucket>, es: seq<Event>, i: nat)
    requires Sane(cfg) && cfg.max >= 1.0 && InRange(cfg, ob) && Asks(es) && Spaced(cfg, es) && i < |es|
    requires Level(cfg, ob, es[0].now) >= 1.0
    ensures Solo(cfg, ob, es)[i] == Allowed
    decreases i
  {
    if i > 0 {
      hide Level, Consume;
      LevelInRange(cfg, ob, es[0].now);
      SpacedStep(cfg, ob, es[0].now, es[1].now);
      SpacedCallerNeverRefused(cfg, SoloStep(cfg, ob, es[0]).0, es[1..], i - 1);
    }
  }

  /** So is one key of the shared limiter, whatever the other keys do. */
  lemma LimiterNeverRefusesSpaced<K>(cfg: Config, calls: seq<Call<K>>, k: K, start: real, i: nat)
    requires Sane(cfg) && RefillsWhileIdle(cfg) && cfg.max >= 1.0 && Ordered(calls, start)
    requires var es := EventsOf(calls, k); Asks(es) && Spaced(cfg, es) && i < |es|
    ensures var answers := AnswersOf(calls, Answers(cfg, map[], calls), k);
      i < |answers| && answers[i] == Allowed
  {
    hide Ordered, Answers, Solo, Spaced;
    NoInterference(cfg, calls, k, start);
    SpacedCallerNeverRefused(cfg, None, EventsOf(calls, k), i);
  }

  // ---------------------------------------------------------------- exactly when purging shows

  /** Some run of calls from these two tables on is answered differently with and without purging. */
  ghost predicate Differ(cfg: Config, t: Table<nat>, u: Table<nat>, now: real) {
    exists calls: seq<Call<nat>> :: Ordered(calls, now) && Answers(cfg, t, calls) != AnswersUnpurged(cfg, u, calls)
  }

  lemma DifferNow(cfg: Config, t: Table<nat>, u: Table<nat>, now: real, at: real)
    requires now <= at && Check(cfg, t, 0, at).1 != CheckUnpurged(cfg, u, 0, at).1
    ensures Differ(cfg, t, u, now)
  {
    hide Check, CheckUnpurged;
    var calls := [Call(0, Ask(at))];
    assert calls[1..] == [] && Ordered(calls, now);
    assert Answers(cfg, t, calls)[0] != AnswersUnpurged(cfg, u, calls)[0];
  }

  lemma DifferLater(cfg: Config, t: Table<nat>, u: Table<nat>, key: nat, now: real, at: real)
    requires now <= at && Differ(cfg, Check(cfg, t, key, at).0, CheckUnpurged(cfg, u, key, at).0, at)
    ensures Differ(cfg, t, u, now)
  {
    hide Check, CheckUnpurged;
    var t', u' := Check(cfg, t, key, at).0, CheckUnpurged(cfg, u, key, at).0;
    var rest: seq<Call<nat>> :| Ordered(rest, at) && Answers(cfg, t', rest) != AnswersUnpurged(cfg, u', rest);
    var calls := [Call(key, Ask(at))] + rest;
    assert calls[1..] == rest && Ordered(calls, now);
    assert Answers(cfg, t, calls)[1..] == Answers(cfg, t', rest);
    assert AnswersUnpurged(cfg, u, calls)[1..] == AnswersUnpurged(cfg, u', rest);
  }

  predicate Bursty(cfg: Config) {
    Sane(cfg) && cfg.max >= 1.0 && !RefillsWhileIdle(cfg)
  }

  /** The bucket of key 0 holds `x` tokens as of `now`. */
  predicate HasTokens(t: Table<nat>, x: real, now: real) {
    0 in t && t[0] == Bucket(x, now)
  }

  lemma SpendNow(cfg: Config, t: Table<nat>, x: real, now: real)
    requires HasTokens(t, x, now) && x <= cfg.max
    ensures Check(cfg, t, 0, now).1 == CheckUnpurged(cfg, t, 0, now).1 == (x >= 1.0)
    ensures x >= 1.0 ==> HasTokens(Check(cfg, t, 0, now).0, x - 1.0, now)
    ensures x >= 1.0 ==> HasTokens(CheckUnpurged(cfg, t, 0, now).0, x - 1.0, now)
  {
    assert Elapsed(now, now) * cfg.refill == 0.0;
  }

  /** How long a bucket with `x < 1` tokens takes to earn a whole one. */
  function WaitFor(cfg: Config, x: real): (s: real)
    requires cfg.refill > 0.0
  {
    (1.0 - x) / cfg.refill
  }

  lemma Waited(cfg: Config, x: real)
    requires cfg.refill > 0.0 && x < 1.0
    ensures WaitFor(cfg, x) > 0.0 && WaitFor(cfg, x) * cfg.refill == 1.0 - x
    ensures 1.0 - x <= IDLE * cfg.refill ==> WaitFor(cfg, x) <= IDLE
    ensures 1.0 - x < IDLE * cfg.refill ==> WaitFor(cfg, x) < IDLE
  {
    var s := WaitFor(cfg, x);
    assert s * cfg.refill == (s - IDLE) * cfg.refill + IDLE * cfg.refill;
    if s > IDLE {
      MulPositive(s - IDLE, cfg.refill);
    }
  }

  lemma MulPositive(a: real, b: real)
    requires a > 0.0 && b > 0.0
    ensures a * b > 0.0
  {
  }

  lemma LevelAfterWait(cfg: Config, x: real, now: real, s: real)
    requires s >= 0.0
    ensures Level(cfg, Some(Bucket(x, now)), now + s) == Min(x + s * cfg.refill, cfg.max)
  {
    assert Elapsed(now + s, now) == s;
  }

  /** Once the two tables disagree on what key 0 has, some call tells them apart. */
  lemma {:induction false} UnequalTokensShow(cfg: Config, t: Table<nat>, u: Table<nat>, hi: real, lo: real, now: real)
    requires Bursty(cfg) && cfg.refill > 0.0 && 0.0 <= lo < hi <= cfg.max
    requires HasTokens(t, hi, now) && HasTokens(u, lo, now)
    ensures Differ(cfg, t, u, now)
    decreases hi.Floor
  {
    SpendNow(cfg, t, hi, now);
    SpendNow(cfg, u, lo, now);
    if hi >= 1.0 {
      if lo < 1.0 {
        DifferNow(cfg, t, u, now, now);
      } else {
        var t', u' := Check(cfg, t, 0, now).0, CheckUnpurged(cfg, u, 0, now).0;
        hide Check, CheckUnpurged, Differ, HasTokens;
        UnequalTokensShow(cfg, t', u', hi - 1.0, lo - 1.0, now);
        DifferLater(cfg, t, u, 0, now, now);
      }
    } else {
      LaterShow(cfg, t, u, hi, lo, now);
    }
  }

  lemma LaterShow(cfg: Config, t: Table<nat>, u: Table<nat>, hi: real, lo: real, now: real)
    requires Bursty(cfg) && cfg.refill > 0.0 && 0.0 <= lo < hi < 1.0
    requires HasTokens(t, hi, now) && HasTokens(u, lo, now)
    ensures Differ(cfg, t, u, now)
  {
    var s := WaitFor(cfg, hi);
    Waited(cfg, hi);
    LevelAfterWait(cfg, hi, now, s);
    LevelAfterWait(cfg, lo, now, s);
    hide Level, Differ, WaitFor;
    assert Check(cfg, t, 0, now + s).1;
    assert !CheckUnpurged(cfg, u, 0, now + s).1;
    DifferNow(cfg, t, u, now, now + s);
  }

  /** A minute's pause with enough other keys about: the purge makes the bucket full, time does not. */
  lemma PauseShows(cfg: Config, t: Table<nat>, x: real, now: real)
    requires Bursty(cfg) && HasTokens(t, x, now) && 0.0 <= x < 1.0 && x + IDLE * cfg.refill < cfg.max
    requires |t| > cfg.purgeAbove
    ensures Differ(cfg, t, t, now)
  {
    var at, lo := now + IDLE, x + IDLE * cfg.refill;
    LevelAfterWait(cfg, x, now, IDLE);
    MulNonNegative(IDLE, cfg.refill);
    assert Lookup(Swept(cfg, t, at), 0) == None;
    assert Check(cfg, t, 0, at).1 && HasTokens(Check(cfg, t, 0, at).0, cfg.max - 1.0, at);
    assert CheckUnpurged(cfg, t, 0, at).1 == (lo >= 1.0);
    if lo < 1.0 {
      DifferNow(cfg, t, t, now, at);
    } else {
      assert HasTokens(CheckUnpurged(cfg, t, 0, at).0, lo - 1.0, at);
      hide Check, CheckUnpurged, Differ, HasTokens, Level;
      assert cfg.refill > 0.0;
      UnequalTokensShow(cfg, Check(cfg, t, 0, at).0, CheckUnpurged(cfg, t, 0, at).0, cfg.max - 1.0, lo - 1.0, at);
      DifferLater(cfg, t, t, 0, now, at);
    }
  }

  /** Other keys come in until the table is over its limit. */
  lemma {:induction false} CrowdShows(cfg: Config, t: Table<nat>, x: real, now: real, i: nat)
    requires Bursty(cfg) && HasTokens(t, x, now) && 0.0 <= x < 1.0 && x + IDLE * cfg.refill < cfg.max
    requires |t| == i + 1 && forall k :: k in t ==> k <= i
    ensures Differ(cfg, t, t, now)
    decreases cfg.purgeAbove - i
  {
    if |t| > cfg.purgeAbove {
      PauseShows(cfg, t, x, now);
    } else {
      var t' := Check(cfg, t, i + 1, now).0;
      assert t' == CheckUnpurged(cfg, t, i + 1, now).0;
      assert t'.Keys == t.Keys + {i + 1} && |t'.Keys| == |t'|;
      CrowdShows(cfg, t', x, now, i + 1);
      DifferLater(cfg, t, t, i + 1, now, now);
    }
  }

  /** Key 0 alone spends what it has, down to a level that a minute cannot refill. */
  lemma {:induction false} LonerShows(cfg: Config, x: real, now: real)
    requires Bursty(cfg) && 0.0 <= x <= cfg.max
    ensures Differ(cfg, map[0 := Bucket(x, now)], map[0 := Bucket(x, now)], now)
    decreases x.Floor
  {
    hide Differ, Check, CheckUnpurged, Bursty, WaitFor;
    var t: Table<nat> := map[0 := Bucket(x, now)];
    if x >= 1.0 {
      SpendAlone(cfg, x, now);
      LonerShows(cfg, x - 1.0, now);
      DifferLater(cfg, t, t, 0, now, now);
    } else if x + IDLE * cfg.refill < cfg.max {
      CrowdShows(cfg, t, x, now, 0);
    } else {
      SpendLast(cfg, x, now);
      var at := now + WaitFor(cfg, x);
      BurstyGap(cfg);
      LonerEmpty(cfg, at);
      DifferLater(cfg, t, t, 0, now, at);
    }
  }

  lemma BurstyGap(cfg: Config)
    requires Bursty(cfg)
    ensures 0.0 + IDLE * cfg.refill < cfg.max
  {
  }

  lemma LonerEmpty(cfg: Config, at: real)
    requires Bursty(cfg)
    ensures Differ(cfg, map[0 := Bucket(0.0, at)], map[0 := Bucket(0.0, at)], at)
  {
    hide Differ;
    var t: Table<nat> := map[0 := Bucket(0.0, at)];
    assert |t| == 1;
    CrowdShows(cfg, t, 0.0, at, 0);
  }

  lemma SpentOne(cfg: Config, ob: Option<Bucket>, at: real, x: real)
    requires Level(cfg, ob, at) == x && x >= 1.0
    ensures Consume(cfg, ob, at) == (Bucket(x - 1.0, at), true)
  {
  }

  lemma SpendAlone(cfg: Config, x: real, now: real)
    requires 1.0 <= x <= cfg.max
    ensures var t: Table<nat> := map[0 := Bucket(x, now)];
      Check(cfg, t, 0, now).0 == CheckUnpurged(cfg, t, 0, now).0 == map[0 := Bucket(x - 1.0, now)]
  {
    var t: Table<nat> := map[0 := Bucket(x, now)];
    LevelAfterWait(cfg, x, now, 0.0);
    assert now + 0.0 == now && 0.0 * cfg.refill == 0.0;
    SpentOne(cfg, Some(Bucket(x, now)), now, x);
    assert Purged(t, now) == t;
    hide Level, Consume;
  }

  lemma SpendExactly(cfg: Config, x: real, now: real, s: real)
    requires 0.0 <= s && (s < IDLE || cfg.max == 1.0) && Level(cfg, Some(Bucket(x, now)), now + s) == 1.0
    ensures var t: Table<nat>, at := map[0 := Bucket(x, now)], now + s;
      Check(cfg, t, 0, at).0 == CheckUnpurged(cfg, t, 0, at).0 == map[0 := Bucket(0.0, at)]
  {
    var t: Table<nat>, at := map[0 := Bucket(x, now)], now + s;
    SpentOne(cfg, Some(Bucket(x, now)), at, 1.0);
    if s < IDLE {
      assert Purged(t, at) == t;
    } else {
      SpentOne(cfg, None, at, 1.0);
      assert Purged(t, at) == map[];
    }
    hide Level, Consume;
  }

  /** Waiting for exactly one token and spending it leaves none, purge or no purge. */
  lemma SpendLast(cfg: Config, x: real, now: real)
    requires Bursty(cfg) && 0.0 <= x < 1.0 && x + IDLE * cfg.refill >= cfg.max
    ensures cfg.refill > 0.0 && WaitFor(cfg, x) >= 0.0
    ensures var t: Table<nat>, at := map[0 := Bucket(x, now)], now + WaitFor(cfg, x);
      Check(cfg, t, 0, at).0 == CheckUnpurged(cfg, t, 0, at).0 == map[0 := Bucket(0.0, at)]
  {
    hide Level, WaitFor, Check, CheckUnpurged;
    Waited(cfg, x);
    LevelAfterWait(cfg, x, now, WaitFor(cfg, x));
    SpendExactly(cfg, x, now, WaitFor(cfg, x));
  }

  lemma {:induction false} NothingEverAllowed(cfg: Config, t: Table<nat>, u: Table<nat>, calls: seq<Call<nat>>)
    requires cfg.max < 1.0
    ensures Answers(cfg, t, calls) == AnswersUnpurged(cfg, u, calls)
    decreases |calls|
  {
    if calls != [] {
      var c := calls[0];
      match c.event
      case Ask(now) =>
        NothingEverAllowed(cfg, Check(cfg, t, c.key, now).0, CheckUnpurged(cfg, u, c.key, now).0, calls[1..]);
      case Forget => NothingEverAllowed(cfg, t - {c.key}, u - {c.key}, calls[1..]);
    }
  }

  /** Purging is unobservable, on every run from an empty table, if and only if an idle minute refills
      a whole bucket or a bucket never holds a whole token. */
  lemma PurgeUnobservableExactly(cfg: Config)
    requires Sane(cfg)
    ensures (forall calls: seq<Call<nat>>, start: real :: Ordered(calls, start) ==>
               Answers(cfg, map[], calls) == AnswersUnpurged(cfg, map[], calls))
       <==> 60.0 * cfg.refill >= cfg.max || cfg.max < 1.0
  {
    if RefillsWhileIdle(cfg) || cfg.max < 1.0 {
      forall calls: seq<Call<nat>>, start: real | Ordered(calls, start)
        ensures Answers(cfg, map[], calls) == AnswersUnpurged(cfg, map[], calls)
      {
        if cfg.max < 1.0 {
          NothingEverAllowed(cfg, map[], map[], calls);
        } else {
          PurgeIsUnobservable(cfg, map[], map[], calls, start);
        }
      }
    } else {
      FirstCall(cfg);
      hide Answers, AnswersUnpurged, Ordered;
      var none: Table<nat> := map[];
      var calls: seq<Call<nat>> :| Ordered(calls, 0.0) && Answers(cfg, none, calls) != AnswersUnpurged(cfg, none, calls);
      assert Ordered(calls, 0.0);
    }
  }

  lemma FirstCall(cfg: Config)
    requires Bursty(cfg)
    ensures Differ(cfg, map[], map[], 0.0)
  {
    var t: Table<nat> := map[0 := Bucket(cfg.max - 1.0, 0.0)];
    var none: Table<nat> := map[];
    assert Check(cfg, none, 0, 0.0).0 == t && CheckUnpurged(cfg, none, 0, 0.0).0 == t;
    LonerShows(cfg, cfg.max - 1.0, 0.0);
    DifferLater(cfg, none, none, 0, 0.0, 0.0);
  }
}
