/**
 The anti-replay cache behind signed request headers: window purging, size eviction, and the
 order of checks in header verification. Signature validity is an input of each attempt.
 */
module AntiReplay {

  const MAX_DRIFT := 300
  const MAX_ENTRIES := 10000
  const DROPPED := 5000

  type Cache = map<string, nat>

  function AbsDiff(a: nat, b: nat): (d: nat) {
    if a >= b then a - b else b - a
  }

  /** The entries still inside the drift window. */
  function Retained(m: Cache, now: nat): (r: Cache) {
    map s | s in m && AbsDiff(now, m[s]) <= MAX_DRIFT :: m[s]
  }

  /** `kept` is what an eviction leaves of `m`: all but the oldest half of a full cache. */
  predicate Evicts(m: Cache, kept: Cache) {
    && kept.Keys <= m.Keys && (forall s :: s in kept ==> kept[s] == m[s])
    && |kept| + DROPPED == |m|
    && forall d, s :: d in m && d !in kept && s in kept ==> m[d] <= m[s]
  }

  /** One call of `check_and_insert`, with a flag for size evictions. The order among entries of
      equal age is the hash map's, so an eviction may leave any of several caches. */
  ghost predicate CheckInsert(m: Cache, sig: string, ts: nat, now: nat, m': Cache, ok: bool, evicted: bool) {
    var r := Retained(m, now);
    if sig in r then m' == r && !ok && !evicted
    else if |r| >= MAX_ENTRIES then ok && evicted && exists kept :: Evicts(r, kept) && m' == kept[sig := ts]
    else ok && !evicted && m' == r[sig := ts]
  }

  // ---------------------------------------------------------------- the object

  lemma {:induction false} OldestExists(m: Cache, among: set<string>)
    requires among != {} && among <= m.Keys
    ensures exists s :: s in among && forall j :: j in among ==> m[s] <= m[j]
    decreases |among|
  {
    var s :| s in among;
    var rest := among - {s};
    if rest != {} {
      OldestExists(m, rest);
      var o :| o in rest && forall j :: j in rest ==> m[o] <= m[j];
      var best := if m[o] <= m[s] then o else s;
      assert best in among && forall j :: j in among ==> m[best] <= m[j];
    } else {
      assert among == {s};
    }
  }

  class AntiReplayCache {
    var signatures: Cache

    constructor ()
      ensures signatures == map[]
    {
      signatures := map[];
    }

    method CheckAndInsert(sig: string, ts: nat, now: nat) returns (ok: bool, evicted: bool)
      modifies this
      ensures CheckInsert(old(signatures), sig, ts, now, signatures, ok, evicted)
      ensures |old(signatures)| <= MAX_ENTRIES ==> |signatures| <= MAX_ENTRIES
    {
      RetainedSize(signatures, now);
      signatures := map s | s in signatures && AbsDiff(now, signatures[s]) <= MAX_DRIFT :: signatures[s];
      if sig in signatures {
        return false, false;
      }
      evicted := |signatures| >= MAX_ENTRIES;
      if evicted {
        signatures := Evict(signatures);
      }
      InsertSize(signatures, sig, ts);
      signatures := signatures[sig := ts];
      ok := true;
    }

    method Clear()
      modifies this
      ensures signatures == map[]
    {
      signatures := map[];
    }
  }

  /** Sorting by timestamp and skipping the first half drops the oldest entry so many times. */
  method Evict(m: Cache) returns (kept: Cache)
    requires |m| >= DROPPED
    ensures Evicts(m, kept)
  {
    kept := m;
    for i := 0 to DROPPED
      invariant kept.Keys <= m.Keys && (forall s :: s in kept ==> kept[s] == m[s])
      invariant |kept| + i == |m|
      invariant forall d, s :: d in m && d !in kept && s in kept ==> m[d] <= m[s]
    {
      OldestExists(m, kept.Keys);
      var oldest :| oldest in kept && forall j :: j in kept ==> m[oldest] <= m[j];
      assert (kept - {oldest}).Keys == kept.Keys - {oldest};
      kept := kept - {oldest};
    }
  }

  lemma {:induction false} SubsetSize(a: set<string>, b: set<string>)
    requires a <= b
    ensures |a| <= |b|
    decreases |a|
  {
    if a != {} {
      var x :| x in a;
      SubsetSize(a - {x}, b - {x});
    }
  }

  lemma RetainedSize(m: Cache, now: nat)
    ensures |Retained(m, now)| <= |m|
  {
    SubsetSize(Retained(m, now).Keys, m.Keys);
  }

  lemma InsertSize(m: Cache, sig: string, ts: nat)
    ensures |m[sig := ts]| <= |m| + 1
  {
    assert m[sig := ts].Keys == m.Keys + {sig};
  }

  // ---------------------------------------------------------------- runs of header verification

  /** A header presented at time `now`; `genuine` is the outcome of the signature check. */
  datatype Attempt = Attempt(sig: string, ts: nat, now: nat, genuine: bool)

  datatype Verdict = Accepted | TimestampDrift(diff: nat) | InvalidSignature | ReplayDetected

  /** The verify functions: drift first, then the signature, then the cache. */
  ghost predicate Verify(m: Cache, a: Attempt, m': Cache, v: Verdict, evicted: bool) {
    if AbsDiff(a.now, a.ts) > MAX_DRIFT then v == TimestampDrift(AbsDiff(a.now, a.ts)) && m' == m && !evicted
    else if !a.genuine then v == InvalidSignature && m' == m && !evicted
    else
      && (v == Accepted || v == ReplayDetected)
      && CheckInsert(m, a.sig, a.ts, a.now, m', v == Accepted, evicted)
  }

  datatype Run = Run(caches: seq<Cache>, attempts: seq<Attempt>, verdicts: seq<Verdict>, evictions: seq<bool>)

  ghost predicate IsRun(r: Run) {
    && |r.caches| == |r.attempts| + 1 && |r.verdicts| == |r.attempts| == |r.evictions|
    && r.caches[0] == map[]
    && (forall n :: 0 <= n < |r.attempts| ==>
          Verify(r.caches[n], r.attempts[n], r.caches[n + 1], r.verdicts[n], r.evictions[n]))
  }

  predicate ClockRuns(r: Run) {
    forall i, j :: 0 <= i <= j < |r.attempts| ==> r.attempts[i].now <= r.attempts[j].now
  }

  lemma VerifyBounded(m: Cache, a: Attempt, m': Cache, v: Verdict, evicted: bool)
    requires Verify(m, a, m', v, evicted) && |m| <= MAX_ENTRIES
    ensures |m'| <= MAX_ENTRIES
  {
    var r := Retained(m, a.now);
    RetainedSize(m, a.now);
    if v == Accepted {
      if evicted {
        var kept :| Evicts(r, kept) && m' == kept[a.sig := a.ts];
        InsertSize(kept, a.sig, a.ts);
      } else {
        InsertSize(r, a.sig, a.ts);
      }
    }
  }

  /** The cache never holds more than its maximum. */
  lemma {:induction false} CacheIsBounded(r: Run, n: nat)
    requires IsRun(r) && n < |r.caches|
    ensures |r.caches[n]| <= 10000
  {
    if n > 0 {
      CacheIsBounded(r, n - 1);
      VerifyBounded(r.caches[n - 1], r.attempts[n - 1], r.caches[n], r.verdicts[n - 1], r.evictions[n - 1]);
    }
  }

  /** Window purging never drops an entry that the drift check would still let through. */
  lemma StepKeeps(m: Cache, a: Attempt, m': Cache, v: Verdict, sig: string, ts: nat)
    requires Verify(m, a, m', v, false) && sig in m && m[sig] == ts && AbsDiff(a.now, ts) <= MAX_DRIFT
    ensures sig in m' && m'[sig] == ts
  {
    assert sig in Retained(m, a.now);
  }

  /** `now` lies between two moments at which `ts` is inside the window. */
  lemma WindowIsConvex(t0: nat, now: nat, t1: nat, ts: nat)
    requires t0 <= now <= t1 && AbsDiff(t0, ts) <= MAX_DRIFT && AbsDiff(t1, ts) <= MAX_DRIFT
    ensures AbsDiff(now, ts) <= MAX_DRIFT
  {
  }

  lemma {:induction false} Remembered(r: Run, i: nat, j: nat, n: nat)
    requires IsRun(r) && ClockRuns(r) && i < n <= j < |r.attempts|
    requires r.verdicts[i] == Accepted && AbsDiff(r.attempts[j].now, r.attempts[i].ts) <= 300
    requires forall k :: i < k < n ==> !r.evictions[k]
    ensures r.attempts[i].sig in r.caches[n] && r.caches[n][r.attempts[i].sig] == r.attempts[i].ts
    decreases n
  {
    var a := r.attempts[i];
    if n == i + 1 {
      assert Verify(r.caches[i], a, r.caches[n], Accepted, r.evictions[i]);
    } else {
      Remembered(r, i, j, n - 1);
      assert Verify(r.caches[i], a, r.caches[i + 1], Accepted, r.evictions[i]);
      WindowIsConvex(a.now, r.attempts[n - 1].now, r.attempts[j].now, a.ts);
      StepKeeps(r.caches[n - 1], r.attempts[n - 1], r.caches[n], r.verdicts[n - 1], a.sig, a.ts);
    }
  }

  /** What a second presentation of an accepted header gets: refused as a replay exactly when the
      cache still holds it, drifted out exactly when its window is over. */
  lemma SecondPresentation(r: Run, i: nat, j: nat)
    requires IsRun(r) && ClockRuns(r) && i < j < |r.attempts|
    requires r.attempts[i].sig == r.attempts[j].sig && r.attempts[i].ts == r.attempts[j].ts
    requires r.verdicts[i] == Accepted && r.attempts[j].genuine
    requires forall k :: i < k < j ==> !r.evictions[k]
    ensures r.verdicts[j] == ReplayDetected <==> AbsDiff(r.attempts[j].now, r.attempts[j].ts) <= 300
    ensures r.verdicts[j].TimestampDrift? <==> AbsDiff(r.attempts[j].now, r.attempts[j].ts) > 300
  {
    assert Verify(r.caches[j], r.attempts[j], r.caches[j + 1], r.verdicts[j], r.evictions[j]);
    if AbsDiff(r.attempts[j].now, r.attempts[j].ts) <= MAX_DRIFT {
      Remembered(r, i, j, j);
      assert r.attempts[j].sig in Retained(r.caches[j], r.attempts[j].now);
    }
  }

  /** On every run with a clock that does not go back, the same header is accepted twice only if a
      size eviction happened strictly in between. */
  lemma NoReplayWithoutEviction(r: Run, i: nat, j: nat)
    requires IsRun(r) && ClockRuns(r) && i < j < |r.attempts|
    requires r.attempts[i].sig == r.attempts[j].sig && r.attempts[i].ts == r.attempts[j].ts
    requires r.verdicts[i] == Accepted && r.verdicts[j] == Accepted
    ensures exists k :: i < k < j && r.evictions[k]
  {
    if forall k :: i < k < j ==> !r.evictions[k] {
      assert Verify(r.caches[j], r.attempts[j], r.caches[j + 1], Accepted, r.evictions[j]);
      SecondPresentation(r, i, j);
    }
  }

  // ---------------------------------------------------------------- exactly when a header comes back

  /** No signature like that of attempt `i` is accepted strictly between `i` and `j`. */
  predicate LatestBefore(r: Run, i: nat, j: nat)
    requires i < j <= |r.attempts| && |r.verdicts| == |r.attempts|
  {
    && r.verdicts[i] == Accepted
    && forall k :: i < k < j && r.attempts[k].sig == r.attempts[i].sig ==> r.verdicts[k] != Accepted
  }

  /** The size eviction of attempt `k` throws out a signature that the window purge had left. */
  predicate EvictedAt(r: Run, k: nat, sig: string)
    requires k < |r.attempts| && |r.caches| == |r.attempts| + 1 && |r.evictions| == |r.attempts|
  {
    r.evictions[k] && sig in Retained(r.caches[k], r.attempts[k].now) && sig !in r.caches[k + 1]
  }

  /** What one attempt can do to an entry other than its own: keep it, purge it or evict it. */
  lemma VerifyEntry(m: Cache, a: Attempt, m': Cache, v: Verdict, evicted: bool, sig: string)
    requires Verify(m, a, m', v, evicted) && !(v == Accepted && a.sig == sig)
    ensures sig in m' ==> sig in m && m'[sig] == m[sig]
    ensures sig in m && sig !in m' && AbsDiff(a.now, m[sig]) <= MAX_DRIFT ==> evicted && sig in Retained(m, a.now)
  {
  }

  lemma RunEntry(r: Run, k: nat, sig: string)
    requires IsRun(r) && k < |r.attempts| && !(r.verdicts[k] == Accepted && r.attempts[k].sig == sig)
    ensures sig in r.caches[k + 1] ==> sig in r.caches[k] && r.caches[k + 1][sig] == r.caches[k][sig]
    ensures sig in r.caches[k] && sig !in r.caches[k + 1] && AbsDiff(r.attempts[k].now, r.caches[k][sig]) <= MAX_DRIFT
      ==> EvictedAt(r, k, sig)
    ensures EvictedAt(r, k, sig) ==> sig in r.caches[k] && sig !in r.caches[k + 1]
  {
    VerifyEntry(r.caches[k], r.attempts[k], r.caches[k + 1], r.verdicts[k], r.evictions[k], sig);
  }

  lemma AcceptedIsCached(r: Run, i: nat)
    requires IsRun(r) && i < |r.attempts| && r.verdicts[i] == Accepted
    ensures r.attempts[i].sig in r.caches[i + 1] && r.caches[i + 1][r.attempts[i].sig] == r.attempts[i].ts
    ensures AbsDiff(r.attempts[i].now, r.attempts[i].ts) <= MAX_DRIFT
  {
    assert Verify(r.caches[i], r.attempts[i], r.caches[i + 1], Accepted, r.evictions[i]);
  }

  /** After attempt `n - 1` the cache holds this signature with this timestamp. */
  ghost predicate HeldAt(r: Run, n: nat, sig: string, ts: nat)
    requires IsRun(r) && n < |r.caches|
  {
    sig in r.caches[n] && r.caches[n][sig] == ts
  }

  ghost predicate GoneAt(r: Run, n: nat, sig: string)
    requires IsRun(r) && n < |r.caches|
  {
    sig !in r.caches[n]
  }

  ghost predicate EvictedBetween(r: Run, i: nat, n: nat, sig: string)
    requires IsRun(r) && n <= |r.attempts|
  {
    exists k :: i < k < n && EvictedAt(r, k, sig)
  }

  lemma EntryStep(r: Run, i: nat, j: nat, n: nat)
    requires IsRun(r) && ClockRuns(r) && i < n < j < |r.attempts| && LatestBefore(r, i, j)
    requires AbsDiff(r.attempts[j].now, r.attempts[i].ts) <= MAX_DRIFT
    ensures var sig, ts := r.attempts[i].sig, r.attempts[i].ts;
      && (GoneAt(r, n, sig) ==> GoneAt(r, n + 1, sig))
      && (HeldAt(r, n, sig, ts) && !EvictedAt(r, n, sig) ==> HeldAt(r, n + 1, sig, ts))
      && (EvictedAt(r, n, sig) ==> GoneAt(r, n + 1, sig))
  {
    var a := r.attempts[i];
    AcceptedIsCached(r, i);
    WindowIsConvex(a.now, r.attempts[n].now, r.attempts[j].now, a.ts);
    RunEntry(r, n, a.sig);
  }

  /** Between its acceptance and the next one, a header is in the cache with its own timestamp until
      some eviction throws it out, and never again after that. */
  lemma {:induction false} CachedUntilEvicted(r: Run, i: nat, j: nat, n: nat)
    requires IsRun(r) && ClockRuns(r) && i < n <= j < |r.attempts| && LatestBefore(r, i, j)
    requires AbsDiff(r.attempts[j].now, r.attempts[i].ts) <= MAX_DRIFT
    ensures if EvictedBetween(r, i, n, r.attempts[i].sig) then GoneAt(r, n, r.attempts[i].sig)
      else HeldAt(r, n, r.attempts[i].sig, r.attempts[i].ts)
    decreases n
  {
    if n == i + 1 {
      AcceptedIsCached(r, i);
    } else {
      var before := n - 1;
      CachedUntilEvicted(r, i, j, before);
      EntryStep(r, i, j, before);
      EvictedStep(r, i, before, r.attempts[i].sig);
    }
  }

  lemma EvictedStep(r: Run, i: nat, n: nat, sig: string)
    requires IsRun(r) && i < n < |r.attempts|
    ensures EvictedBetween(r, i, n + 1, sig) <==> EvictedBetween(r, i, n, sig) || EvictedAt(r, n, sig)
  {
    assert |r.caches| == |r.attempts| + 1 && |r.evictions| == |r.attempts|;
    hide IsRun, EvictedAt;
  }

  /** A header presented again inside its window, after its latest acceptance, is accepted again if
      and only if an eviction in between threw it out. */
  lemma AcceptedAgainExactly(r: Run, i: nat, j: nat)
    requires IsRun(r) && ClockRuns(r) && i < j < |r.attempts| && LatestBefore(r, i, j)
    requires r.attempts[j].sig == r.attempts[i].sig && r.attempts[j].ts == r.attempts[i].ts
    requires r.attempts[j].genuine && AbsDiff(r.attempts[j].now, r.attempts[j].ts) <= 300
    ensures r.verdicts[j] == Accepted <==> EvictedBetween(r, i, j, r.attempts[i].sig)
    ensures r.verdicts[j] == ReplayDetected <==> !EvictedBetween(r, i, j, r.attempts[i].sig)
  {
    CachedUntilEvicted(r, i, j, j);
    assert Verify(r.caches[j], r.attempts[j], r.caches[j + 1], r.verdicts[j], r.evictions[j]);
    hide EvictedBetween, IsRun, ClockRuns;
  }

  /** The entries strictly older than `ts`. */
  function Older(m: Cache, ts: nat): (older: set<string>) {
    set s | s in m && m[s] < ts
  }

  /** What an eviction throws out has fewer than 5000 strictly older entries beside it. */
  lemma EvictedIsOld(m: Cache, kept: Cache, sig: string)
    requires Evicts(m, kept) && sig in m && sig !in kept
    ensures |Older(m, m[sig])| < 5000
  {
    var older, gone := Older(m, m[sig]), m.Keys - kept.Keys;
    assert older + {sig} <= gone;
    SubsetSize(older + {sig}, gone);
    Difference(m.Keys, kept.Keys);
    hide Older, Evicts;
  }

  lemma Difference(a: set<string>, b: set<string>)
    requires b <= a
    ensures |a - b| + |b| == |a|
  {
    assert a == (a - b) + b;
  }

  lemma ProtectedStep(r: Run, k: nat, sig: string)
    requires IsRun(r) && k < |r.attempts|
    requires var m := Retained(r.caches[k], r.attempts[k].now); sig in m ==> |Older(m, m[sig])| >= DROPPED
    ensures !EvictedAt(r, k, sig)
  {
    var m := Retained(r.caches[k], r.attempts[k].now);
    assert Verify(r.caches[k], r.attempts[k], r.caches[k + 1], r.verdicts[k], r.evictions[k]);
    if r.evictions[k] && sig in m {
      var kept :| Evicts(m, kept) && r.caches[k + 1] == kept[r.attempts[k].sig := r.attempts[k].ts];
      if sig !in kept {
        EvictedIsOld(m, kept, sig);
      }
    }
  }

  /** A header that at every eviction has 5000 strictly older ones beside it in the cache is never
      accepted a second time. */
  lemma OlderHeadersProtect(r: Run, i: nat, j: nat)
    requires IsRun(r) && ClockRuns(r) && i < j < |r.attempts| && LatestBefore(r, i, j)
    requires r.attempts[j].sig == r.attempts[i].sig && r.attempts[j].ts == r.attempts[i].ts
    requires forall k :: i < k < j && r.evictions[k] ==>
      |Older(Retained(r.caches[k], r.attempts[k].now), r.attempts[i].ts)| >= 5000
    ensures r.verdicts[j] != Accepted
  {
    var a := r.attempts[i];
    assert Verify(r.caches[j], r.attempts[j], r.caches[j + 1], r.verdicts[j], r.evictions[j]);
    if r.attempts[j].genuine && AbsDiff(r.attempts[j].now, a.ts) <= MAX_DRIFT {
      forall k | i < k < j ensures !EvictedAt(r, k, a.sig) {
        CachedUntilEvicted(r, i, j, k);
        if r.evictions[k] {
          ProtectedStep(r, k, a.sig);
        }
      }
      AcceptedAgainExactly(r, i, j);
    }
  }

  // ---------------------------------------------------------------- exactly what a header gets

  /** The cache holds nothing but accepted headers. */
  lemma {:induction false} CachedWasAccepted(r: Run, n: nat, sig: string) returns (i: nat)
    requires IsRun(r) && n < |r.caches| && sig in r.caches[n]
    ensures i < n && r.verdicts[i] == Accepted && r.attempts[i].sig == sig && r.attempts[i].ts == r.caches[n][sig]
  {
    var k := n - 1;
    if r.verdicts[k] == Accepted && r.attempts[k].sig == sig {
      AcceptedIsCached(r, k);
      i := k;
    } else {
      RunEntry(r, k, sig);
      i := CachedWasAccepted(r, k, sig);
    }
  }

  /** A header whose signature has not been accepted before is judged by its age and its signature
      alone: accepted when it is genuine and at most 300 seconds off, whatever else is in the cache. */
  lemma FirstPresentation(r: Run, j: nat)
    requires IsRun(r) && j < |r.attempts|
    requires forall i :: 0 <= i < j && r.attempts[i].sig == r.attempts[j].sig ==> r.verdicts[i] != Accepted
    ensures var a := r.attempts[j];
      && (r.verdicts[j] == Accepted <==> AbsDiff(a.now, a.ts) <= 300 && a.genuine)
      && (r.verdicts[j] == InvalidSignature <==> AbsDiff(a.now, a.ts) <= 300 && !a.genuine)
      && (r.verdicts[j].TimestampDrift? <==> AbsDiff(a.now, a.ts) > 300)
  {
    assert Verify(r.caches[j], r.attempts[j], r.caches[j + 1], r.verdicts[j], r.evictions[j]);
    if r.attempts[j].sig in r.caches[j] {
      var i := CachedWasAccepted(r, j, r.attempts[j].sig);
    }
  }

  /** An eviction strikes only at a new header that finds exactly 10000 live entries, and leaves
      5000 of them beside it. */
  lemma EvictionNeedsFullCache(r: Run, k: nat)
    requires IsRun(r) && k < |r.attempts| && r.evictions[k]
    ensures r.verdicts[k] == Accepted && |r.caches[k]| == 10000 && |r.caches[k + 1]| == 5001
    ensures forall s :: s in r.caches[k] ==> AbsDiff(r.attempts[k].now, r.caches[k][s]) <= 300
  {
    var m, a := r.caches[k], r.attempts[k];
    assert Verify(m, a, r.caches[k + 1], r.verdicts[k], true);
    CacheIsBounded(r, k);
    var live := Retained(m, a.now);
    RetainedSize(m, a.now);
    AllLive(m, a.now);
    var kept :| Evicts(live, kept) && r.caches[k + 1] == kept[a.sig := a.ts];
    assert kept[a.sig := a.ts].Keys == kept.Keys + {a.sig} && a.sig !in kept;
  }

  lemma AllLive(m: Cache, now: nat)
    requires |Retained(m, now)| == |m|
    ensures forall s :: s in m ==> s in Retained(m, now)
  {
    var live := Retained(m, now);
    Difference(m.Keys, live.Keys);
    assert |m.Keys - live.Keys| == 0;
    forall s | s in m ensures s in live {
      assert s !in m.Keys - live.Keys;
    }
  }

  // ---------------------------------------------------------------- the eviction really forgets

  lemma {:induction false} SubsetOfSize(s: set<string>, n: nat) returns (t: set<string>)
    requires n <= |s|
    ensures t <= s && |t| == n
    decreases |s|
  {
    if n == |s| {
      t := s;
    } else {
      var x :| x in s;
      t := SubsetOfSize(s - {x}, n);
    }
  }

  /** The signature used for the `i`-th filler header. */
  function Tally(i: nat): (s: string)
    ensures |s| == i
  {
    if i == 0 then "" else ['1'] + Tally(i - 1)
  }

  /** The cache after `n` filler headers, all stamped `t`. */
  function Fillers(n: nat, t: nat): (m: Cache) {
    if n == 0 then map[] else Fillers(n - 1, t)[Tally(n - 1) := t]
  }

  lemma {:induction false} FillersFacts(n: nat, t: nat)
    ensures |Fillers(n, t)| == n
    ensures forall s :: s in Fillers(n, t) ==> |s| < n && Fillers(n, t)[s] == t
    ensures n > 0 ==> Tally(0) in Fillers(n, t)
    ensures Tally(n) !in Fillers(n, t) && Retained(Fillers(n, t), t) == Fillers(n, t)
  {
    if n > 0 {
      FillersFacts(n - 1, t);
      assert Fillers(n, t).Keys == Fillers(n - 1, t).Keys + {Tally(n - 1)};
    }
  }

  lemma FillerAccepted(n: nat, t: nat)
    requires n < MAX_ENTRIES
    ensures Verify(Fillers(n, t), Attempt(Tally(n), t, t, true), Fillers(n + 1, t), Accepted, false)
  {
    FillersFacts(n, t);
  }

  function CacheAt(n: nat, t: nat, m1: Cache, m2: Cache, i: nat): (m: Cache) {
    if i <= n then Fillers(i, t) else if i == n + 1 then m1 else m2
  }

  function AttemptAt(n: nat, t: nat, i: nat): (a: Attempt) {
    Attempt(Tally(if i <= n then i else 0), t, t, true)
  }

  /** `n` distinct headers at one moment, then one more, then the first one again. */
  function ReplayRun(n: nat, t: nat, m1: Cache, m2: Cache): (r: Run) {
    Run(seq(n + 3, i requires 0 <= i => CacheAt(n, t, m1, m2, i)),
        seq(n + 2, i requires 0 <= i => AttemptAt(n, t, i)),
        seq(n + 2, i => Accepted), seq(n + 2, i => i == n))
  }

  lemma ReplayStep(n: nat, t: nat, m1: Cache, m2: Cache, i: nat)
    requires n <= MAX_ENTRIES && i < n + 2
    requires Verify(Fillers(n, t), Attempt(Tally(n), t, t, true), m1, Accepted, true)
    requires Verify(m1, Attempt(Tally(0), t, t, true), m2, Accepted, false)
    ensures Verify(CacheAt(n, t, m1, m2, i), AttemptAt(n, t, i), CacheAt(n, t, m1, m2, i + 1), Accepted, i == n)
  {
    hide Verify, Fillers, Tally;
    if i < n {
      FillerAccepted(i, t);
    }
  }

  lemma ReplayRunIsRun(n: nat, t: nat, m1: Cache, m2: Cache)
    requires n <= MAX_ENTRIES
    requires Verify(Fillers(n, t), Attempt(Tally(n), t, t, true), m1, Accepted, true)
    requires Verify(m1, Attempt(Tally(0), t, t, true), m2, Accepted, false)
    ensures IsRun(ReplayRun(n, t, m1, m2))
  {
    assert CacheAt(n, t, m1, m2, 0) == map[] by { FillersStart(t); }
    hide Verify, Fillers, Tally, CacheAt, AttemptAt;
    var r := ReplayRun(n, t, m1, m2);
    forall i | 0 <= i < n + 2
      ensures Verify(r.caches[i], r.attempts[i], r.caches[i + 1], r.verdicts[i], r.evictions[i])
    {
      ReplayStep(n, t, m1, m2, i);
    }
  }

  lemma FillersStart(t: nat)
    ensures Fillers(0, t) == map[]
  {
  }

  lemma EvictionDropping(m: Cache, t: nat, s: string) returns (kept: Cache)
    requires |m| == MAX_ENTRIES && s in m && forall k :: k in m ==> m[k] == t
    ensures Evicts(m, kept) && s !in kept && forall k :: k in kept ==> kept[k] == t
  {
    var keys := SubsetOfSize(m.Keys - {s}, DROPPED);
    kept := map k | k in keys :: m[k];
    assert kept.Keys == keys;
  }

  /** A full cache of one age, a new header, and then any old one again: both are accepted. */
  lemma FullCacheForgets(m: Cache, t: nat, s: string, new': string) returns (m1: Cache, m2: Cache)
    requires |m| == MAX_ENTRIES && s in m && new' !in m && forall k :: k in m ==> m[k] == t
    ensures Verify(m, Attempt(new', t, t, true), m1, Accepted, true)
    ensures Verify(m1, Attempt(s, t, t, true), m2, Accepted, false)
  {
    var kept := EvictionDropping(m, t, s);
    assert Retained(m, t) == m;
    m1 := kept[new' := t];
    InsertSize(kept, new', t);
    assert Retained(m1, t) == m1;
    m2 := m1[s := t];
  }

  /** The condition is needed: a full cache evicts, and the very first header, still inside its
      window, is then accepted a second time. */
  lemma EvictionAdmitsReplay(n: nat, t: nat) returns (r: Run)
    requires n == 10000
    ensures IsRun(r) && ClockRuns(r) && |r.attempts| == |r.verdicts| == n + 2
    ensures r.attempts[0] == r.attempts[n + 1]
    ensures r.verdicts[0] == Accepted && r.verdicts[n + 1] == Accepted
  {
    FillersFacts(n, t);
    var m1, m2 := FullCacheForgets(Fillers(n, t), t, Tally(0), Tally(n));
    ReplayRunIsRun(n, t, m1, m2);
    r := ReplayRun(n, t, m1, m2);
  }
}
