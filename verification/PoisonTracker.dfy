/**
 The poison-message detector: a bounded in-memory tracker counts consecutive failures of a job with
 the same signature. The tracker is a list in insertion order, as a JavaScript Map iterates. A log of
 reported failures and dropped jobs gives the counts an independent meaning.
 */
module PoisonTracker {
  import opened Wrappers

  datatype Tracked = Tracked(job: string, signature: string, errorClass: string, firstSeenAt: int, lastSeenAt: int, count: nat)

  datatype Config = Config(threshold: int, ttl: int, limit: nat)

  datatype Verdict = Verdict(isPoison: bool, consecutiveFailures: nat, threshold: int, signature: string, errorClass: string)

  /** One reported failure of some job. */
  datatype Report = Report(signature: string, errorClass: string, at: int)

  // ---------------------------------------------------------------- the tracker as a list

  function Jobs(es: seq<Tracked>): set<string> {
    set e | e in es :: e.job
  }

  ghost predicate Distinct(es: seq<Tracked>) {
    forall i, j :: 0 <= i < j < |es| ==> es[i].job != es[j].job
  }

  function Find(es: seq<Tracked>, job: string): (r: Option<nat>)
    ensures r.Some? ==> r.value < |es| && es[r.value].job == job
    ensures r.None? ==> forall i :: 0 <= i < |es| ==> es[i].job != job
  {
    if es == [] then None
    else if es[|es| - 1].job == job then Some(|es| - 1)
    else Find(es[..|es| - 1], job)
  }

  function Get(es: seq<Tracked>, job: string): (r: Option<Tracked>)
    ensures r.Some? ==> r.value in es && r.value.job == job
    ensures r.None? ==> forall e :: e in es ==> e.job != job
  {
    if Find(es, job).Some? then Some(es[Find(es, job).value]) else None
  }

  /** What stays when some jobs are deleted. */
  function Without(es: seq<Tracked>, jobs: set<string>): seq<Tracked> {
    if es == [] then []
    else Without(es[..|es| - 1], jobs) + (if es[|es| - 1].job in jobs then [] else [es[|es| - 1]])
  }

  predicate Stale(c: Config, e: Tracked, now: int) {
    now - e.lastSeenAt > c.ttl
  }

  function StaleJobs(c: Config, es: seq<Tracked>, now: int): set<string> {
    set e | e in es && Stale(c, e, now) :: e.job
  }

  /** Stable insertion: `x` goes after every entry first seen no later. */
  function Insert(ss: seq<Tracked>, x: Tracked): (r: seq<Tracked>)
    ensures |r| == |ss| + 1
  {
    if ss == [] || ss[|ss| - 1].firstSeenAt <= x.firstSeenAt then ss + [x]
    else Insert(ss[..|ss| - 1], x) + [ss[|ss| - 1]]
  }

  /** `Array.prototype.sort` by `firstSeenAt`, which is stable. */
  function Oldest(es: seq<Tracked>): (r: seq<Tracked>)
    ensures |r| == |es|
  {
    if es == [] then [] else Insert(Oldest(es[..|es| - 1]), es[|es| - 1])
  }

  /** The jobs deleted to bring the tracker back to its limit. */
  function Evicted(limit: nat, es: seq<Tracked>): set<string> {
    if |es| <= limit then {} else Jobs(Oldest(es)[..|es| - limit])
  }

  // ---------------------------------------------------------------- operations

  function JobKey(id: Option<string>): string {
    if id.Some? then id.value else "unknown"
  }

  function Begin(job: string, f: Report): Tracked {
    Tracked(job, f.signature, f.errorClass, f.at, f.at, 1)
  }

  function Next(e: Tracked, f: Report): Tracked {
    if e.signature != f.signature then Begin(e.job, f) else e.(lastSeenAt := f.at, count := e.count + 1)
  }

  function Record(c: Config, es: seq<Tracked>, job: string, f: Report): (seq<Tracked>, Verdict) {
    var i := Find(es, job);
    if i.None? then
      var more := es + [Begin(job, f)];
      (Without(more, Evicted(c.limit, more)), Verdict(false, 1, c.threshold, f.signature, f.errorClass))
    else
      var e := Next(es[i.value], f);
      var poison := es[i.value].signature == f.signature && e.count >= c.threshold;
      (es[i.value := e], Verdict(poison, e.count, c.threshold, f.signature, f.errorClass))
  }

  function Status(c: Config, es: seq<Tracked>, job: string, now: int): (seq<Tracked>, Option<Tracked>) {
    var e := Get(es, job);
    if e.None? then (es, None)
    else if Stale(c, e.value, now) then (Without(es, {job}), None)
    else (es, e)
  }

  function AtThreshold(c: Config, es: seq<Tracked>): (r: seq<Tracked>)
    ensures forall e :: e in r <==> e in es && e.count >= c.threshold
  {
    if es == [] then []
    else AtThreshold(c, es[..|es| - 1]) + (if es[|es| - 1].count >= c.threshold then [es[|es| - 1]] else [])
  }

  class Detector {
    var tracker: seq<Tracked>
    const config: Config

    constructor (config: Config)
      ensures tracker == [] && this.config == config
    {
      this.config, tracker := config, [];
    }

    method RecordFailure(id: Option<string>, f: Report) returns (r: Verdict)
      modifies this
      ensures (tracker, r) == Record(config, old(tracker), JobKey(id), f)
    {
      var job := JobKey(id);
      var i := Find(tracker, job);
      if i.Some? {
        var existing := tracker[i.value];
        if existing.signature != f.signature {
          tracker := tracker[i.value := Tracked(job, f.signature, f.errorClass, f.at, f.at, 1)];
          return Verdict(false, 1, config.threshold, f.signature, f.errorClass);
        }
        var updated := existing.(lastSeenAt := f.at, count := existing.count + 1);
        tracker := tracker[i.value := updated];
        return Verdict(updated.count >= config.threshold, updated.count, config.threshold, f.signature, f.errorClass);
      }
      tracker := tracker + [Tracked(job, f.signature, f.errorClass, f.at, f.at, 1)];
      EnforceTrackerLimit();
      r := Verdict(false, 1, config.threshold, f.signature, f.errorClass);
    }

    method EnforceTrackerLimit()
      modifies this
      ensures tracker == Without(old(tracker), Evicted(config.limit, old(tracker)))
    {
      if |tracker| <= config.limit {
        WithoutNone(tracker);
        return;
      }
      var entries := Oldest(tracker);
      OldestSorts(tracker);
      DeleteAll(entries[..|tracker| - config.limit]);
    }

    method DeleteAll(toEvict: seq<Tracked>)
      modifies this
      ensures tracker == Without(old(tracker), Jobs(toEvict))
    {
      WithoutNone(tracker);
      assert Jobs(toEvict[..0]) == {};
      for i := 0 to |toEvict|
        invariant tracker == Without(old(tracker), Jobs(toEvict[..i]))
      {
        WithoutTwice(old(tracker), Jobs(toEvict[..i]), {toEvict[i].job});
        JobsNext(toEvict, i);
        tracker := Without(tracker, {toEvict[i].job});
      }
      assert toEvict[..|toEvict|] == toEvict;
    }

    method GetPoisonStatus(job: string, now: int) returns (r: Option<Tracked>)
      modifies this
      ensures (tracker, r) == Status(config, old(tracker), job, now)
    {
      r := Get(tracker, job);
      if r.Some? && Stale(config, r.value, now) {
        tracker := Without(tracker, {job});
        r := None;
      }
    }

    method CleanupStaleEntries(now: int)
      modifies this
      ensures tracker == Without(old(tracker), StaleJobs(config, old(tracker), now))
    {
      var entries := tracker;
      WithoutNone(tracker);
      assert StaleJobs(config, entries[..0], now) == {};
      for i := 0 to |entries|
        invariant tracker == Without(entries, StaleJobs(config, entries[..i], now))
      {
        var e := entries[i];
        StaleJobsNext(config, entries, i, now);
        if Stale(config, e, now) {
          WithoutTwice(entries, StaleJobs(config, entries[..i], now), {e.job});
          tracker := Without(tracker, {e.job});
        }
      }
      assert entries[..|entries|] == entries;
    }

    method GetAllPoisonCandidates(now: int) returns (r: seq<Tracked>)
      modifies this
      ensures tracker == Without(old(tracker), StaleJobs(config, old(tracker), now))
      ensures r == AtThreshold(config, tracker)
    {
      CleanupStaleEntries(now);
      r := [];
      for i := 0 to |tracker|
        invariant r == AtThreshold(config, tracker[..i])
      {
        assert tracker[..i + 1][..i] == tracker[..i];
        if tracker[i].count >= config.threshold { r := r + [tracker[i]]; }
      }
      assert tracker[..|tracker|] == tracker;
    }

    method ClearJob(job: string)
      modifies this
      ensures tracker == Without(old(tracker), {job})
    {
      tracker := Without(tracker, {job});
    }

    method Reset()
      modifies this
      ensures tracker == []
    {
      tracker := [];
    }
  }

  // ---------------------------------------------------------------- deletion

  lemma JobsNext(es: seq<Tracked>, i: nat)
    requires i < |es|
    ensures Jobs(es[..i + 1]) == Jobs(es[..i]) + {es[i].job}
  {
    assert es[..i + 1] == es[..i] + [es[i]];
  }

  lemma StaleJobsNext(c: Config, es: seq<Tracked>, i: nat, now: int)
    requires i < |es|
    ensures StaleJobs(c, es[..i + 1], now) ==
              if Stale(c, es[i], now) then StaleJobs(c, es[..i], now) + {es[i].job} else StaleJobs(c, es[..i], now)
  {
    assert es[..i + 1] == es[..i] + [es[i]];
  }

  lemma {:induction false} WithoutMembers(es: seq<Tracked>, jobs: set<string>)
    ensures forall e :: e in Without(es, jobs) <==> e in es && e.job !in jobs
  {
    if es != [] {
      WithoutMembers(es[..|es| - 1], jobs);
      assert es == es[..|es| - 1] + [es[|es| - 1]];
    }
  }

  lemma {:induction false} WithoutNone(es: seq<Tracked>)
    ensures Without(es, {}) == es
  {
    if es != [] {
      WithoutNone(es[..|es| - 1]);
      assert es == es[..|es| - 1] + [es[|es| - 1]];
    }
  }

  lemma WithoutSnoc(es: seq<Tracked>, x: Tracked, jobs: set<string>)
    ensures Without(es + [x], jobs) == Without(es, jobs) + (if x.job in jobs then [] else [x])
  {
    assert (es + [x])[..|es|] == es;
  }

  lemma {:induction false} WithoutTwice(es: seq<Tracked>, a: set<string>, b: set<string>)
    ensures Without(Without(es, a), b) == Without(es, a + b)
  {
    if es != [] {
      var init, x := es[..|es| - 1], es[|es| - 1];
      WithoutTwice(init, a, b);
      if x.job in a {
        assert Without(es, a) == Without(init, a);
      } else {
        WithoutSnoc(Without(init, a), x, b);
      }
    }
  }

  lemma {:induction false} WithoutDistinct(es: seq<Tracked>, jobs: set<string>)
    requires Distinct(es)
    ensures Distinct(Without(es, jobs))
  {
    if es != [] {
      var init, x := es[..|es| - 1], es[|es| - 1];
      WithoutDistinct(init, jobs);
      WithoutMembers(init, jobs);
      var w := Without(init, jobs);
      forall i | 0 <= i < |w| ensures w[i].job != x.job {
        assert w[i] in w;
      }
    }
  }

  /** In a tracker with different jobs the entry of a job is the one that names it. */
  lemma GetIs(es: seq<Tracked>, e: Tracked)
    requires Distinct(es) && e in es
    ensures Get(es, e.job) == Some(e)
  {
    var i :| 0 <= i < |es| && es[i] == e;
    var k := Find(es, e.job).value;
    assert es[i].job == es[k].job;
  }

  lemma GetWithout(es: seq<Tracked>, jobs: set<string>, job: string)
    requires Distinct(es)
    ensures Get(Without(es, jobs), job) == if job in jobs then None else Get(es, job)
  {
    WithoutDistinct(es, jobs);
    WithoutMembers(es, jobs);
    var e := Get(es, job);
    if e.Some? && job !in jobs { GetIs(Without(es, jobs), e.value); }
  }

  // ---------------------------------------------------------------- eviction

  ghost predicate ByAge(ss: seq<Tracked>) {
    forall i, j :: 0 <= i < j < |ss| ==> ss[i].firstSeenAt <= ss[j].firstSeenAt
  }

  lemma {:induction false} InsertSorts(ss: seq<Tracked>, x: Tracked)
    requires ByAge(ss)
    ensures ByAge(Insert(ss, x))
    ensures forall b :: x.firstSeenAt <= b && (ss != [] ==> ss[|ss| - 1].firstSeenAt <= b) ==> NoneAfter(Insert(ss, x), b)
  {
    if ss != [] && ss[|ss| - 1].firstSeenAt > x.firstSeenAt {
      InsertSorts(ss[..|ss| - 1], x);
      assert NoneAfter(Insert(ss[..|ss| - 1], x), ss[|ss| - 1].firstSeenAt);
    }
  }

  ghost predicate NoneAfter(ss: seq<Tracked>, bound: int) {
    forall i :: 0 <= i < |ss| ==> ss[i].firstSeenAt <= bound
  }

  lemma {:induction false} InsertAdds(ss: seq<Tracked>, x: Tracked)
    ensures multiset(Insert(ss, x)) == multiset(ss) + multiset{x}
  {
    if ss != [] && ss[|ss| - 1].firstSeenAt > x.firstSeenAt {
      InsertAdds(ss[..|ss| - 1], x);
      assert ss == ss[..|ss| - 1] + [ss[|ss| - 1]];
    }
  }

  /** The sorted list has the same entries, oldest first. */
  lemma {:induction false} OldestSorts(es: seq<Tracked>)
    ensures ByAge(Oldest(es)) && multiset(Oldest(es)) == multiset(es)
  {
    if es != [] {
      OldestSorts(es[..|es| - 1]);
      InsertSorts(Oldest(es[..|es| - 1]), es[|es| - 1]);
      InsertAdds(Oldest(es[..|es| - 1]), es[|es| - 1]);
      assert es == es[..|es| - 1] + [es[|es| - 1]];
    }
  }

  lemma JobsLast(es: seq<Tracked>)
    requires es != []
    ensures Jobs(es) == Jobs(es[..|es| - 1]) + {es[|es| - 1].job}
  {
    JobsNext(es, |es| - 1);
    assert es[..|es|] == es;
  }

  lemma JobsAbsent(es: seq<Tracked>, job: string)
    ensures job !in Jobs(es) <==> forall i :: 0 <= i < |es| ==> es[i].job != job
  {
    if job !in Jobs(es) {
      forall i | 0 <= i < |es| ensures es[i].job != job { assert es[i] in es; }
    }
  }

  lemma {:induction false} JobsCount(es: seq<Tracked>)
    requires Distinct(es)
    ensures |Jobs(es)| == |es|
  {
    if es != [] {
      var n := |es| - 1;
      JobsCount(es[..n]);
      JobsLast(es);
      JobsAbsent(es[..n], es[n].job);
    }
  }

  lemma {:induction false} DistinctIffCount(es: seq<Tracked>)
    ensures |Jobs(es)| <= |es|
    ensures |Jobs(es)| == |es| ==> Distinct(es)
  {
    if es != [] {
      var n := |es| - 1;
      DistinctIffCount(es[..n]);
      JobsLast(es);
      JobsAbsent(es[..n], es[n].job);
      assert es[n].job in Jobs(es[..n]) ==> Jobs(es) == Jobs(es[..n]);
    }
  }

  lemma OldestDistinct(es: seq<Tracked>)
    requires Distinct(es)
    ensures Distinct(Oldest(es)) && forall e :: e in Oldest(es) <==> e in es
  {
    OldestSorts(es);
    forall e ensures e in Oldest(es) <==> e in es {
      assert e in Oldest(es) <==> e in multiset(Oldest(es));
    }
    JobsCount(es);
    assert Jobs(Oldest(es)) == Jobs(es);
    DistinctIffCount(Oldest(es));
  }

  lemma WithoutCount(es: seq<Tracked>, out: set<string>)
    requires Distinct(es) && out <= Jobs(es)
    ensures |Without(es, out)| == |es| - |out|
  {
    JobsCount(es);
    WithoutDistinct(es, out);
    JobsCount(Without(es, out));
    WithoutMembers(es, out);
    assert Jobs(Without(es, out)) == Jobs(es) - out;
  }

  lemma EvictedCount(limit: nat, es: seq<Tracked>)
    requires Distinct(es) && |es| > limit
    ensures Evicted(limit, es) <= Jobs(es) && |Evicted(limit, es)| == |es| - limit
    ensures Evicted(limit, es) == Jobs(Oldest(es)[..|es| - limit])
  {
    OldestSorts(es);
    OldestDistinct(es);
    JobsCount(Oldest(es)[..|es| - limit]);
    forall job | job in Evicted(limit, es) ensures job in Jobs(es) {
      var e :| e in Oldest(es)[..|es| - limit] && e.job == job;
      assert e in es;
    }
  }

  lemma EvictedOlder(limit: nat, es: seq<Tracked>, e: Tracked, k: Tracked)
    requires Distinct(es) && e in es && e.job in Evicted(limit, es) && k in es && k.job !in Evicted(limit, es)
    ensures e.firstSeenAt <= k.firstSeenAt
  {
    var ss, n := Oldest(es), |es| - limit;
    EvictedCount(limit, es);
    OldestSorts(es);
    OldestDistinct(es);
    forall m | 0 <= m < n ensures ss[m].job in Evicted(limit, es) {
      assert ss[m] in ss[..n];
    }
    EvictedIndex(ss, n, e);
    var i :| 0 <= i < n && ss[i] == e;
    var j :| 0 <= j < |ss| && ss[j] == k;
    assert j >= n;
  }

  /** Eviction leaves exactly `limit` entries, and none that it removed is newer than one that it kept. */
  lemma EvictionByAge(limit: nat, es: seq<Tracked>)
    requires Distinct(es)
    ensures |Without(es, Evicted(limit, es))| == if |es| <= limit then |es| else limit
    ensures forall e, k :: e in es && e.job in Evicted(limit, es) && k in Without(es, Evicted(limit, es)) ==>
              e.firstSeenAt <= k.firstSeenAt
  {
    if |es| <= limit {
      WithoutNone(es);
    } else {
      EvictedCount(limit, es);
      WithoutCount(es, Evicted(limit, es));
      WithoutMembers(es, Evicted(limit, es));
      forall e, k | e in es && e.job in Evicted(limit, es) && k in Without(es, Evicted(limit, es)) ensures e.firstSeenAt <= k.firstSeenAt {
        EvictedOlder(limit, es, e, k);
      }
    }
  }

  lemma EvictedIndex(ss: seq<Tracked>, n: nat, e: Tracked)
    requires Distinct(ss) && n <= |ss| && e in ss && e.job in Jobs(ss[..n])
    ensures exists i :: 0 <= i < n && ss[i] == e
  {
    var f :| f in ss[..n] && f.job == e.job;
    var i :| 0 <= i < n && ss[i] == f;
    GetIs(ss, e);
    GetIs(ss, f);
  }

  // ---------------------------------------------------------------- runs with their log

  datatype LogItem = Failed(job: string, report: Report) | Dropped(jobs: set<string>)

  datatype State = State(tracker: seq<Tracked>, log: seq<LogItem>)

  datatype Event =
    | Fail(id: Option<string>, report: Report)
    | Inspect(job: string, now: int)
    | List(now: int)
    | Clear(job: string)
    | Reset

  /** The failures reported for a job since it was last dropped. */
  function Since(log: seq<LogItem>, job: string): seq<Report> {
    if log == [] then [] else Extended(Since(log[..|log| - 1], job), log[|log| - 1], job)
  }

  function Extended(before: seq<Report>, item: LogItem, job: string): seq<Report> {
    match item
    case Failed(j, f) => if j == job then before + [f] else before
    case Dropped(js) => if job in js then [] else before
  }

  /** `k` is the length of the longest suffix with one signature. */
  ghost predicate Streak(fs: seq<Report>, k: nat) {
    && 1 <= k <= |fs|
    && (forall i :: |fs| - k <= i < |fs| ==> fs[i].signature == fs[|fs| - 1].signature)
    && (k < |fs| ==> fs[|fs| - k - 1].signature != fs[|fs| - 1].signature)
  }

  lemma StreakUnique(fs: seq<Report>, k: nat, m: nat)
    requires Streak(fs, k) && Streak(fs, m)
    ensures k == m
  {
  }

  /** The entry that sums up a job's failures since it was last dropped. */
  ghost predicate SumsUp(e: Tracked, fs: seq<Report>) {
    && Streak(fs, e.count)
    && e.signature == fs[|fs| - 1].signature && e.lastSeenAt == fs[|fs| - 1].at
    && e.firstSeenAt == fs[|fs| - e.count].at && e.errorClass == fs[|fs| - e.count].errorClass
  }

  ghost predicate JobOk(es: seq<Tracked>, log: seq<LogItem>, job: string) {
    match Get(es, job)
    case None => Since(log, job) == []
    case Some(e) => SumsUp(e, Since(log, job))
  }

  ghost predicate Invariant(c: Config, s: State) {
    && Distinct(s.tracker) && |s.tracker| <= c.limit
    && forall job :: JobOk(s.tracker, s.log, job)
  }

  function Drop(s: State, jobs: set<string>): State {
    State(Without(s.tracker, jobs), s.log + [Dropped(jobs)])
  }

  /** The state with a failure noted, before the limit is enforced. */
  function Note(s: State, job: string, f: Report): State {
    var i := Find(s.tracker, job);
    State(
      if i.None? then s.tracker + [Begin(job, f)] else s.tracker[i.value := Next(s.tracker[i.value], f)],
      s.log + [Failed(job, f)])
  }

  /** The log is extended by what the operation reported or deleted; the tracker is what the operation left. */
  function Step(c: Config, s: State, e: Event): State {
    match e
    case Fail(id, f) =>
      var job := JobKey(id);
      var noted := s.log + [Failed(job, f)];
      State(Record(c, s.tracker, job, f).0,
            if Find(s.tracker, job).None? then noted + [Dropped(Evicted(c.limit, s.tracker + [Begin(job, f)]))] else noted)
    case Inspect(job, now) =>
      var after := Status(c, s.tracker, job, now).0;
      State(after, if after == s.tracker then s.log else s.log + [Dropped({job})])
    case List(now) => Drop(s, StaleJobs(c, s.tracker, now))
    case Clear(job) => Drop(s, {job})
    case Reset => State([], s.log + [Dropped(Jobs(s.tracker))])
  }

  function Run(c: Config, s: State, es: seq<Event>): State {
    if es == [] then s else Step(c, Run(c, s, es[..|es| - 1]), es[|es| - 1])
  }

  // ---------------------------------------------------------------- every step keeps the invariant

  lemma SinceSnoc(log: seq<LogItem>, item: LogItem, job: string)
    ensures Since(log + [item], job) == Extended(Since(log, job), item, job)
  {
    assert (log + [item])[..|log|] == log;
  }

  lemma DropKeeps(s: State, jobs: set<string>)
    requires Distinct(s.tracker) && forall job :: JobOk(s.tracker, s.log, job)
    ensures Distinct(Drop(s, jobs).tracker) && forall job :: JobOk(Drop(s, jobs).tracker, Drop(s, jobs).log, job)
  {
    WithoutDistinct(s.tracker, jobs);
    forall job ensures JobOk(Drop(s, jobs).tracker, Drop(s, jobs).log, job) {
      assert JobOk(s.tracker, s.log, job);
      GetWithout(s.tracker, jobs, job);
      SinceSnoc(s.log, Dropped(jobs), job);
    }
  }

  lemma {:induction false} WithoutLength(es: seq<Tracked>, jobs: set<string>)
    ensures |Without(es, jobs)| <= |es|
  {
    if es != [] { WithoutLength(es[..|es| - 1], jobs); }
  }

  /** One more failure: the streak grows by one or starts again. */
  lemma SumsUpNext(e: Tracked, fs: seq<Report>, f: Report)
    requires SumsUp(e, fs)
    ensures SumsUp(Next(e, f), fs + [f])
  {
    var gs := fs + [f];
    forall i | |fs| - e.count <= i < |fs| ensures gs[i].signature == e.signature { }
  }

  lemma NoteTracker(s: State, job: string, f: Report)
    requires Distinct(s.tracker)
    ensures var t := Note(s, job, f).tracker;
            && Distinct(t)
            && (forall j :: j != job ==> Get(t, j) == Get(s.tracker, j))
            && Get(t, job) == Some(if Get(s.tracker, job).None? then Begin(job, f) else Next(Get(s.tracker, job).value, f))
  {
    var t := Note(s, job, f).tracker;
    var i := Find(s.tracker, job);
    var at := if i.Some? then i.value else |s.tracker|;
    assert Distinct(t);
    GetIs(t, t[at]);
    forall j | j != job ensures Get(t, j) == Get(s.tracker, j) {
      var e := Get(s.tracker, j);
      if e.Some? {
        assert e.value in t by {
          var k :| 0 <= k < |s.tracker| && s.tracker[k] == e.value;
          assert t[k] == e.value;
        }
        GetIs(t, e.value);
      } else {
        forall k | 0 <= k < |t| ensures t[k].job != j { }
      }
    }
  }

  lemma NoteKeeps(s: State, job: string, f: Report)
    requires Distinct(s.tracker) && forall j :: JobOk(s.tracker, s.log, j)
    ensures Distinct(Note(s, job, f).tracker) && forall j :: JobOk(Note(s, job, f).tracker, Note(s, job, f).log, j)
  {
    NoteTracker(s, job, f);
    var t := Note(s, job, f);
    forall j ensures JobOk(t.tracker, t.log, j) {
      assert JobOk(s.tracker, s.log, j);
      SinceSnoc(s.log, Failed(job, f), j);
      var e := Get(s.tracker, job);
      if j == job && e.Some? { SumsUpNext(e.value, Since(s.log, job), f); }
    }
  }

  lemma FailKeeps(c: Config, s: State, id: Option<string>, f: Report)
    requires Invariant(c, s)
    ensures Invariant(c, Step(c, s, Fail(id, f)))
  {
    var job := JobKey(id);
    NoteKeeps(s, job, f);
    if Find(s.tracker, job).None? {
      var out := Evicted(c.limit, s.tracker + [Begin(job, f)]);
      DropKeeps(Note(s, job, f), out);
      EvictionByAge(c.limit, s.tracker + [Begin(job, f)]);
    }
  }

  lemma ResetKeeps(c: Config, s: State)
    requires Invariant(c, s)
    ensures Invariant(c, Step(c, s, Reset))
  {
    var t := Step(c, s, Reset);
    forall job ensures JobOk(t.tracker, t.log, job) {
      assert JobOk(s.tracker, s.log, job);
      SinceSnoc(s.log, Dropped(Jobs(s.tracker)), job);
    }
  }

  lemma StepKeepsInvariant(c: Config, s: State, e: Event)
    requires Invariant(c, s)
    ensures Invariant(c, Step(c, s, e))
  {
    match e
    case Fail(id, f) => FailKeeps(c, s, id, f);
    case Inspect(job, now) => DropKeeps(s, {job}); WithoutLength(s.tracker, {job});
    case List(now) =>
      DropKeeps(s, StaleJobs(c, s.tracker, now));
      WithoutLength(s.tracker, StaleJobs(c, s.tracker, now));
    case Clear(job) => DropKeeps(s, {job}); WithoutLength(s.tracker, {job});
    case Reset => ResetKeeps(c, s);
  }

  // ---------------------------------------------------------------- main results

  /**
   In every run each job is tracked exactly when failures were reported since it was last dropped, and
   its entry then holds the longest suffix of these with one signature; the limit is never exceeded.
   */
  lemma {:induction false} RunKeepsInvariant(c: Config, es: seq<Event>)
    ensures Invariant(c, Run(c, State([], []), es))
  {
    if es == [] {
      forall job ensures JobOk([], [], job) { }
    } else {
      RunKeepsInvariant(c, es[..|es| - 1]);
      StepKeepsInvariant(c, Run(c, State([], []), es[..|es| - 1]), es[|es| - 1]);
    }
  }

  /** The count a failure is answered with is its streak. */
  lemma VerdictCountsStreak(c: Config, s: State, job: string, f: Report)
    requires Invariant(c, s)
    ensures Streak(Since(s.log, job) + [f], Record(c, s.tracker, job, f).1.consecutiveFailures)
  {
    assert JobOk(s.tracker, s.log, job);
    NoteKeeps(s, job, f);
    NoteTracker(s, job, f);
    assert JobOk(Note(s, job, f).tracker, Note(s, job, f).log, job);
    SinceSnoc(s.log, Failed(job, f), job);
  }

  /**
   A failure is reported poison when its streak reaches the threshold, exactly when the threshold is
   at least two or the streak is: a first failure is never reported, even with threshold one.
   */
  lemma PoisonIffStreakReachesThreshold(c: Config, es: seq<Event>, job: string, f: Report, k: nat)
    requires Streak(Since(Run(c, State([], []), es).log, job) + [f], k)
    ensures (Record(c, Run(c, State([], []), es).tracker, job, f).1.isPoison <==> k >= c.threshold) <==> (c.threshold >= 2 || k >= 2)
  {
    var s := Run(c, State([], []), es);
    RunKeepsInvariant(c, es);
    VerdictCountsStreak(c, s, job, f);
    StreakUnique(Since(s.log, job) + [f], k, Record(c, s.tracker, job, f).1.consecutiveFailures);
    assert JobOk(s.tracker, s.log, job);
  }

  /** The job is in the answer of `getAllPoisonCandidates`. */
  ghost predicate Listed(c: Config, es: seq<Tracked>, now: int, job: string) {
    exists e :: e in AtThreshold(c, Without(es, StaleJobs(c, es, now))) && e.job == job
  }

  ghost predicate LivePoison(c: Config, fs: seq<Report>, now: int) {
    fs != [] && now - fs[|fs| - 1].at <= c.ttl && exists k: nat :: Streak(fs, k) && k >= c.threshold
  }

  /** Listed candidates: jobs whose streak since their last drop reaches the threshold and is not stale. */
  lemma CandidatesExact(c: Config, es: seq<Event>, now: int, job: string)
    ensures Listed(c, Run(c, State([], []), es).tracker, now, job) <==> LivePoison(c, Since(Run(c, State([], []), es).log, job), now)
  {
    RunKeepsInvariant(c, es);
    CandidateIff(c, Run(c, State([], []), es), now, job);
  }

  lemma CandidateIff(c: Config, s: State, now: int, job: string)
    requires Invariant(c, s)
    ensures Listed(c, s.tracker, now, job) <==> LivePoison(c, Since(s.log, job), now)
  {
    assert JobOk(s.tracker, s.log, job);
    var fs, stale := Since(s.log, job), StaleJobs(c, s.tracker, now);
    WithoutMembers(s.tracker, stale);
    var e := Get(s.tracker, job);
    if e.Some? {
      forall x | x in s.tracker && x.job == job ensures x == e.value { GetIs(s.tracker, x); }
      assert job in stale <==> Stale(c, e.value, now);
      forall k: nat | Streak(fs, k) ensures k == e.value.count { StreakUnique(fs, k, e.value.count); }
    }
  }

  /** Along a clock that does not run backwards a failing job is always tracked afterwards, unless the limit is zero. */
  lemma FailingJobStaysTracked(c: Config, s: State, job: string, f: Report)
    requires Invariant(c, s) && forall e :: e in s.tracker ==> e.firstSeenAt <= f.at
    ensures Get(Record(c, s.tracker, job, f).0, job).Some? <==> c.limit > 0
  {
    NoteTracker(s, job, f);
    if Find(s.tracker, job).None? {
      var more := s.tracker + [Begin(job, f)];
      GetWithout(more, Evicted(c.limit, more), job);
      if |more| > c.limit { NewestEvictedIff(c.limit, s.tracker, Begin(job, f)); }
    } else {
      assert |s.tracker| > 0;
    }
  }

  /** The newest entry is evicted only when nothing may stay. */
  lemma NewestEvictedIff(limit: nat, es: seq<Tracked>, x: Tracked)
    requires Distinct(es + [x]) && |es| >= limit && forall e :: e in es ==> e.firstSeenAt <= x.firstSeenAt
    ensures x.job in Evicted(limit, es + [x]) <==> limit == 0
  {
    var more, ss := es + [x], Oldest(es);
    NewestSortsLast(es, x);
    EvictedCount(limit, more);
    OldestDistinct(more);
    OldestSorts(es);
    LastInPrefix(ss, x, |more| - limit);
  }

  lemma LastInPrefix(ss: seq<Tracked>, x: Tracked, n: nat)
    requires Distinct(ss + [x]) && n <= |ss| + 1
    ensures x.job in Jobs((ss + [x])[..n]) <==> n == |ss| + 1
  {
    var all := ss + [x];
    if n == |ss| + 1 {
      assert all[..n] == all && x in all;
    } else {
      assert all[|ss|] == x;
      forall i | 0 <= i < n ensures all[i].job != x.job { }
    }
  }

  lemma NewestSortsLast(es: seq<Tracked>, x: Tracked)
    requires forall e :: e in es ==> e.firstSeenAt <= x.firstSeenAt
    ensures Oldest(es + [x]) == Oldest(es) + [x]
  {
    assert (es + [x])[..|es|] == es;
    OldestSorts(es);
    var ss := Oldest(es);
    assert ss != [] ==> ss[|ss| - 1] in multiset(es);
  }

  /**
   Inspecting a job is not a pure read: it changes the answer to the job's next failure exactly when the
   entry is stale and that failure would have been reported poison. Recording itself ignores staleness.
   */
  lemma InspectionChangesVerdictIff(c: Config, s: State, job: string, now: int, f: Report)
    requires Invariant(c, s)
    ensures Record(c, Status(c, s.tracker, job, now).0, job, f).1.isPoison != Record(c, s.tracker, job, f).1.isPoison <==>
            (&& Get(s.tracker, job).Some? && Stale(c, Get(s.tracker, job).value, now)
             && Get(s.tracker, job).value.signature == f.signature && Get(s.tracker, job).value.count + 1 >= c.threshold)
  {
    GetWithout(s.tracker, {job}, job);
  }

  /** What the answer to a failure carries: the threshold, and the failure's own signature and error class. */
  lemma VerdictCarries(c: Config, es: seq<Tracked>, job: string, f: Report)
    ensures var r := Record(c, es, job, f).1;
            && r.threshold == c.threshold && r.signature == f.signature && r.errorClass == f.errorClass
            && r.consecutiveFailures >= 1
            && (r.isPoison ==> r.consecutiveFailures >= c.threshold)
  {
  }

  /**
   A job's status is its entry while the last failure is within the time to live. Later, and for a job that is
   not tracked, there is none; a stale entry is gone afterwards, and no other one is.
   */
  lemma StatusIff(c: Config, s: State, job: string, now: int)
    requires Invariant(c, s)
    ensures var (after, r) := Status(c, s.tracker, job, now);
            && (r.Some? <==> exists e :: e in s.tracker && e.job == job && now <= e.lastSeenAt + c.ttl)
            && (r.Some? ==> r.value in s.tracker && r.value.job == job && after == s.tracker)
            && forall e :: e in after <==> e in s.tracker && (e.job == job ==> now <= e.lastSeenAt + c.ttl)
  {
    WithoutMembers(s.tracker, {job});
    forall e | e in s.tracker && e.job == job ensures Get(s.tracker, job) == Some(e) { GetIs(s.tracker, e); }
  }

  /** Jobs without an id share one entry, with a job of the id `unknown`. */
  lemma JobsWithoutIdShareEntry(id: Option<string>, other: Option<string>)
    ensures JobKey(id) == JobKey(other) <==>
            id == other || (id.None? && other == Some("unknown")) || (other.None? && id == Some("unknown"))
  {
  }

  /** Clearing drops exactly the job, listing exactly the stale entries, and a reset all; the log says so. */
  lemma DropsExactly(c: Config, s: State, job: string, now: int)
    requires Invariant(c, s)
    ensures forall e :: e in Step(c, s, Clear(job)).tracker <==> e in s.tracker && e.job != job
    ensures forall e :: e in Step(c, s, List(now)).tracker <==> e in s.tracker && now <= e.lastSeenAt + c.ttl
    ensures Step(c, s, Reset).tracker == []
    ensures Since(Step(c, s, Clear(job)).log, job) == []
  {
    WithoutMembers(s.tracker, {job});
    WithoutMembers(s.tracker, StaleJobs(c, s.tracker, now));
    forall e | e in s.tracker ensures e.job in StaleJobs(c, s.tracker, now) <==> e.lastSeenAt + c.ttl < now {
      forall x | x in s.tracker && x.job == e.job ensures x == e {
        GetIs(s.tracker, x);
        GetIs(s.tracker, e);
      }
    }
    SinceSnoc(s.log, Dropped({job}), job);
  }
}
