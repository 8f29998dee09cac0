/**
 * Concrete runs. They show that the bound on staleness is reached, that each of its
 * causes occurs on its own, and how interleaved writers make the notification log
 * name a version that is not served although every clear succeeds.
 */
module ConcurrentRace {
  import opened Basics
  import opened Store
  import opened Cache
  import opened ServerModel
  import opened Concurrent
  import opened ConcurrentReads
  import opened ConcurrentMerges
  import opened ConcurrentLog

  ghost function Last(r: Run): State
    requires r.states != []
  {
    r.states[|r.states| - 1]
  }

  /** A run in which nothing has failed to clear so far. */
  ghost predicate CleanRun(p: Params, r: Run, u: Uri) {
    IsRun(p, r) && forall m: nat :: !FailedClear(r, m, u)
  }

  // ---- what the labels alone say ----

  predicate FailsToClear(l: Label) {
    l.By? && l.action.Clear? && l.action.fault != Cleared
  }

  predicate Puts(l: Label) {
    l.By? && l.action.PutAndAnswer?
  }

  predicate Swaps(l: Label) {
    l.By? && (l.action.Advance? || l.action.Point?)
  }

  predicate AllCleared(steps: seq<Label>) {
    forall m :: 0 <= m < |steps| ==> !FailsToClear(steps[m])
  }

  predicate NoSwaps(steps: seq<Label>) {
    forall m :: 0 <= m < |steps| ==> !Swaps(steps[m])
  }

  /** Every put comes before every swap. */
  predicate PutsFirst(steps: seq<Label>) {
    forall k, q :: 0 <= k < q < |steps| && Swaps(steps[k]) ==> !Puts(steps[q])
  }

  lemma {:induction false} AllClearedIsClean(p: Params, r: Run, u: Uri)
    requires IsRun(p, r) && AllCleared(r.steps)
    ensures CleanRun(p, r, u)
  {
    forall m: nat ensures !FailedClear(r, m, u) {
      if m < |r.steps| {
        assert !FailsToClear(r.steps[m]);
      }
    }
  }

  lemma {:induction false} PutsFirstIsNoOverlap(p: Params, r: Run, u: Uri)
    requires IsRun(p, r) && PutsFirst(r.steps)
    ensures NoOverlap(r, 0, |r.steps|, u)
  {
    forall l: nat, k: nat, q: nat, tid: Tid, c: Content | l < k < q < |r.steps| && Loads(r, l, tid, u, c) && ConcurrentReads.Puts(r, q, tid, u)
      ensures !MovesHead(r, k, u)
    {
      assert Puts(r.steps[q]);
      assert !Swaps(r.steps[k]);
    }
  }

  // ---- phases of a run ----

  /** r' goes on from r with these steps. */
  ghost predicate Continues(p: Params, r: Run, r': Run) {
    && IsRun(p, r') && |r.states| <= |r'.states| && |r.steps| <= |r'.steps|
    && r'.states[..|r.states|] == r.states && r'.steps[..|r.steps|] == r.steps
  }

  /** What r' adds to r neither swaps, nor puts, nor fails to clear. */
  ghost predicate Harmless(r: Run, r': Run) {
    && (AllCleared(r.steps) ==> AllCleared(r'.steps)) && (NoSwaps(r.steps) ==> NoSwaps(r'.steps))
    && (PutsFirst(r.steps) ==> PutsFirst(r'.steps))
  }

  ghost predicate TablesKept(r: Run, r': Run)
    requires r.states != []
  {
    forall j :: |r.states| <= j < |r'.states| ==> r'.states[j].tables == Last(r).tables
  }

  lemma {:induction false} Extend(p: Params, r: Run, l: Label) returns (r': Run)
    requires IsRun(p, r) && Enabled(p, Last(r), l)
    ensures Continues(p, r, r') && r'.steps == r.steps + [l] && r'.states == r.states + [Apply(p, Last(r), l)]
    ensures Last(r') == Apply(p, Last(r), l)
    ensures AllCleared(r.steps) && !FailsToClear(l) ==> AllCleared(r'.steps)
    ensures NoSwaps(r.steps) && !Swaps(l) ==> NoSwaps(r'.steps)
    ensures PutsFirst(r.steps) && (!Puts(l) || NoSwaps(r.steps)) ==> PutsFirst(r'.steps)
  {
    r' := Run(r.states + [Apply(p, Last(r), l)], r.steps + [l]);
    forall i | 0 <= i < |r'.steps|
      ensures StepAt(p, r', i)
    {
      if i < |r.steps| {
        assert StepAt(p, r, i);
        assert r'.states[i] == r.states[i] && r'.states[i + 1] == r.states[i + 1];
      }
    }
  }

  ghost function With(s: State, tid: Tid, th: Thread): State {
    s.(threads := s.threads[tid := th])
  }

  lemma {:induction false} WithTwice(s: State, tid: Tid, x: Thread, y: Thread)
    ensures With(With(s, tid, x), tid, y) == With(s, tid, y)
  {
    assert s.threads[tid := x][tid := y] == s.threads[tid := y];
  }

  lemma {:induction false} Start(p: Params, t: Tables) returns (r: Run)
    requires Inv(t)
    ensures IsRun(p, r) && r.steps == [] && r.states == [State(t, map[], [], 0, map[])]
    ensures AllCleared(r.steps) && NoSwaps(r.steps) && PutsFirst(r.steps)
  {
    r := Run([State(t, map[], [], 0, map[])], []);
  }

  lemma {:induction false} ContinuesOn(p: Params, r: Run, r1: Run, r2: Run)
    requires r.states != [] && Continues(p, r, r1) && Continues(p, r1, r2)
    ensures Continues(p, r, r2)
    ensures Harmless(r, r1) && Harmless(r1, r2) ==> Harmless(r, r2)
    ensures TablesKept(r, r1) && TablesKept(r1, r2) ==> TablesKept(r, r2)
  {
    assert r2.states[..|r.states|] == r2.states[..|r1.states|][..|r.states|];
    assert r2.steps[..|r.steps|] == r2.steps[..|r1.steps|][..|r.steps|];
    if TablesKept(r, r1) && TablesKept(r1, r2) {
      forall j | |r.states| <= j < |r2.states| ensures r2.states[j].tables == Last(r).tables {
        assert j < |r1.states| ==> r2.states[j] == r1.states[j];
        assert |r1.states| > |r.states| ==> Last(r1) == r1.states[|r1.states| - 1];
        assert |r1.states| == |r.states| ==> r1.states == r.states;
      }
    }
  }

  lemma {:induction false} Arrives(p: Params, r: Run, tid: Tid, th: Thread) returns (r': Run)
    requires IsRun(p, r) && tid !in Last(r).threads && (th.Reading? || th.Started?)
    ensures Continues(p, r, r') && Harmless(r, r') && TablesKept(r, r') && Last(r') == With(Last(r), tid, th)
  {
    r' := Extend(p, r, Spawn(tid, th));
  }

  /** A reader arrives and reads the store. */
  lemma {:induction false} ReaderLoads(p: Params, r: Run, tid: Tid, u: Uri) returns (r': Run)
    requires IsRun(p, r) && tid !in Last(r).threads && u in Last(r).tables.prompts
    ensures Continues(p, r, r') && Harmless(r, r')
    ensures Last(r') == With(Last(r), tid, Holding(u, Last(r).tables.prompts[u], Last(r).now))
  {
    var r1 := Arrives(p, r, tid, Reading(u));
    r' := Extend(p, r1, By(tid, LoadStore));
    ContinuesOn(p, r, r1, r');
    WithTwice(Last(r), tid, Reading(u), Holding(u, Last(r).tables.prompts[u], Last(r).now));
  }

  ghost function AfterPut(p: Params, s: State, tid: Tid, u: Uri, c: Content): State {
    With(s.(cache := s.cache[u := Entry(HeadResponse(u, c), s.now + p.cfg.ttl)]), tid, Answered(u, HeadResponse(u, c)))
  }

  lemma {:induction false} PutNow(p: Params, s: State, tid: Tid, u: Uri, c: Content, at: int)
    requires tid in s.threads && s.threads[tid] == Holding(u, c, at) && s.now <= at + p.wait && p.cfg.valid(u, c)
    ensures Enabled(p, s, By(tid, PutAndAnswer(false))) && Apply(p, s, By(tid, PutAndAnswer(false))) == AfterPut(p, s, tid, u, c)
  {
  }

  /** It puts what it holds, within the wait. */
  lemma {:induction false} ReaderPuts(p: Params, r: Run, tid: Tid, u: Uri, c: Content, at: int) returns (r': Run)
    requires IsRun(p, r) && tid in Last(r).threads && Last(r).threads[tid] == Holding(u, c, at)
    requires Last(r).now <= at + p.wait && p.cfg.valid(u, c)
    ensures Continues(p, r, r') && TablesKept(r, r') && Last(r') == AfterPut(p, Last(r), tid, u, c)
    ensures AllCleared(r.steps) ==> AllCleared(r'.steps)
    ensures NoSwaps(r.steps) ==> NoSwaps(r'.steps) && (PutsFirst(r.steps) ==> PutsFirst(r'.steps))
  {
    PutNow(p, Last(r), tid, u, c, at);
    r' := Extend(p, r, By(tid, PutAndAnswer(false)));
  }

  lemma {:induction false} TimePasses(p: Params, r: Run, dt: nat) returns (r': Run)
    requires IsRun(p, r)
    ensures Continues(p, r, r') && Harmless(r, r') && TablesKept(r, r') && Last(r') == Last(r).(now := Last(r).now + dt)
  {
    r' := Extend(p, r, Tick(dt));
  }

  lemma {:induction false} HitNow(p: Params, s: State, tid: Tid, u: Uri, c: Content)
    requires tid in s.threads && s.threads[tid] == Reading(u)
    requires u in s.cache && s.now <= s.cache[u].expiry && s.cache[u].resp == HeadResponse(u, c)
    ensures Enabled(p, s, By(tid, HitCache)) && Apply(p, s, By(tid, HitCache)) == With(s, tid, Answered(u, HeadResponse(u, c)))
  {
  }

  lemma {:induction false} HitsNow(p: Params, r: Run, tid: Tid, u: Uri, c: Content) returns (r': Run)
    requires IsRun(p, r) && tid in Last(r).threads && Last(r).threads[tid] == Reading(u)
    requires u in Last(r).cache && Last(r).now <= Last(r).cache[u].expiry && Last(r).cache[u].resp == HeadResponse(u, c)
    ensures Continues(p, r, r') && Harmless(r, r') && TablesKept(r, r')
    ensures |r'.steps| >= 1 && Answers(r', |r'.steps| - 1, u, c) && r'.states[|r'.steps| - 1].now == Last(r).now
  {
    HitNow(p, Last(r), tid, u, c);
    r' := Extend(p, r, By(tid, HitCache));
    assert r'.states[|r.steps|] == Last(r);
  }

  /** A reader arrives and is answered from the cache. */
  lemma {:induction false} ReaderHits(p: Params, r: Run, tid: Tid, u: Uri, c: Content) returns (r': Run)
    requires IsRun(p, r) && tid !in Last(r).threads
    requires u in Last(r).cache && Last(r).now <= Last(r).cache[u].expiry && Last(r).cache[u].resp == HeadResponse(u, c)
    ensures Continues(p, r, r') && Harmless(r, r') && TablesKept(r, r')
    ensures |r'.steps| >= 1 && Answers(r', |r'.steps| - 1, u, c) && r'.states[|r'.steps| - 1].now == Last(r).now
  {
    var r1 := Arrives(p, r, tid, Reading(u));
    r' := HitsNow(p, r1, tid, u, c);
    ContinuesOn(p, r, r1, r');
  }

  lemma {:induction false} LooksNow(p: Params, r: Run, tid: Tid, req: Request) returns (r': Run)
    requires IsRun(p, r) && tid in Last(r).threads && Last(r).threads[tid] == Started(req) && req.branch == MAIN
    requires req.PublishTo? ==> Lookup(Last(r).tables.prompts, req.uri) != Some(req.content)
    ensures Continues(p, r, r') && Harmless(r, r')
    ensures Last(r') == With(Last(r), tid, Checked(req, Lookup(Last(r).tables.prompts, req.uri)))
  {
    r' := Extend(p, r, By(tid, Check));
  }

  /** A writer of main arrives and looks at what is served. */
  lemma {:induction false} WriterLooks(p: Params, r: Run, tid: Tid, req: Request) returns (r': Run)
    requires IsRun(p, r) && tid !in Last(r).threads && req.branch == MAIN
    requires req.PublishTo? ==> Lookup(Last(r).tables.prompts, req.uri) != Some(req.content)
    ensures Continues(p, r, r') && Harmless(r, r')
    ensures Last(r') == With(Last(r), tid, Checked(req, Lookup(Last(r).tables.prompts, req.uri)))
  {
    var r1 := Arrives(p, r, tid, Started(req));
    r' := LooksNow(p, r1, tid, req);
    ContinuesOn(p, r, r1, r');
    WithTwice(Last(r), tid, Started(req), Checked(req, Lookup(Last(r).tables.prompts, req.uri)));
  }

  ghost function TipsOf(t: Tables, req: Request, prev: Option<Content>): Thread {
    TipRead(req, prev, t.Tip(req.uri, req.branch), if req.MergeTo? then t.Tip(req.uri, req.from) else None)
  }

  lemma {:induction false} ReadsTips(p: Params, r: Run, tid: Tid, req: Request, prev: Option<Content>) returns (r': Run)
    requires IsRun(p, r) && tid in Last(r).threads && Last(r).threads[tid] == Checked(req, prev) && !req.PointBranch?
    requires req.MergeTo? ==> Last(r).tables.Tip(req.uri, req.branch).Some? && Last(r).tables.Tip(req.uri, req.from).Some?
    ensures Continues(p, r, r') && Harmless(r, r') && Last(r') == With(Last(r), tid, TipsOf(Last(r).tables, req, prev))
  {
    r' := Extend(p, r, By(tid, ReadTip));
  }

  /** No put is added, nothing fails to clear. */
  ghost predicate Tidy(r: Run, r': Run) {
    (AllCleared(r.steps) ==> AllCleared(r'.steps)) && (PutsFirst(r.steps) ==> PutsFirst(r'.steps))
  }

  lemma {:induction false} SwapsNow(p: Params, r: Run, tid: Tid, req: Request, prev: Option<Content>, stamp: Stamp) returns (r': Run)
    requires IsRun(p, r) && tid in Last(r).threads && req.branch == MAIN
    requires Last(r).threads[tid] == TipsOf(Last(r).tables, req, prev)
    requires Fresh(Last(r).tables, stamp) && NewRow(Last(r).tables, Last(r).threads[tid], stamp).Some?
    ensures Continues(p, r, r') && Tidy(r, r')
    ensures var row := NewRow(Last(r).tables, Last(r).threads[tid], stamp).value;
            Last(r') == With(Last(r).(tables := Last(r).tables.Install(MAIN, stamp.id, row)), tid, Committed(req, prev, stamp.id))
  {
    r' := Extend(p, r, By(tid, Advance(stamp)));
  }

  /** It reads the tips and swaps. */
  lemma {:induction false} WriterSwaps(p: Params, r: Run, tid: Tid, req: Request, prev: Option<Content>, stamp: Stamp) returns (r': Run)
    requires IsRun(p, r) && tid in Last(r).threads && Last(r).threads[tid] == Checked(req, prev) && req.branch == MAIN
    requires !req.PointBranch? && Fresh(Last(r).tables, stamp)
    requires req.MergeTo? ==> Last(r).tables.Tip(req.uri, MAIN).Some? && Last(r).tables.Tip(req.uri, req.from).Some?
    requires NewRow(Last(r).tables, TipsOf(Last(r).tables, req, prev), stamp).Some?
    ensures Continues(p, r, r') && Tidy(r, r')
    ensures var row := NewRow(Last(r).tables, TipsOf(Last(r).tables, req, prev), stamp).value;
            Last(r') == With(Last(r).(tables := Last(r).tables.Install(MAIN, stamp.id, row)), tid, Committed(req, prev, stamp.id))
  {
    var s, th := Last(r), TipsOf(Last(r).tables, req, prev);
    var r1 := ReadsTips(p, r, tid, req, prev);
    r' := SwapsNow(p, r1, tid, req, prev, stamp);
    ContinuesOn(p, r, r1, r');
    WithTwice(s.(tables := s.tables.Install(MAIN, stamp.id, NewRow(s.tables, th, stamp).value)), tid, th, Committed(req, prev, stamp.id));
  }

  /** It arrives, looks, reads the tips and swaps. */
  lemma {:induction false} WriterCommits(p: Params, r: Run, tid: Tid, req: Request, stamp: Stamp) returns (r': Run)
    requires IsRun(p, r) && tid !in Last(r).threads && req.branch == MAIN && req.PublishTo?
    requires Lookup(Last(r).tables.prompts, req.uri) != Some(req.content)
    requires Fresh(Last(r).tables, stamp)
    ensures Continues(p, r, r') && Tidy(r, r')
    ensures var t := Last(r).tables;
            Last(r') == With(Last(r).(tables := t.CommitOn(req.uri, MAIN, req.content, req.author, req.message, stamp)), tid,
                             Committed(req, Lookup(t.prompts, req.uri), stamp.id))
  {
    var s, prev := Last(r), Lookup(Last(r).tables.prompts, req.uri);
    var r1 := WriterLooks(p, r, tid, req);
    r' := WriterSwaps(p, r1, tid, req, prev, stamp);
    ContinuesOn(p, r, r1, r');
    WithTwice(s.(tables := Last(r').tables), tid, Checked(req, prev), Committed(req, prev, stamp.id));
  }

  /** A rollback moves main. */
  lemma {:induction false} WriterPoints(p: Params, r: Run, tid: Tid, req: Request, prev: Option<Content>) returns (r': Run)
    requires IsRun(p, r) && tid in Last(r).threads && Last(r).threads[tid] == Checked(req, prev) && req.branch == MAIN
    requires req.PointBranch? && Last(r).tables.PointTo(req.uri, MAIN, req.commit).Ok?
    ensures Continues(p, r, r') && Tidy(r, r')
    ensures Last(r') == With(Last(r).(tables := Last(r).tables.PointTo(req.uri, MAIN, req.commit).value), tid, Committed(req, prev, req.commit))
  {
    r' := Extend(p, r, By(tid, Point));
  }

  lemma {:induction false} WriterClears(p: Params, r: Run, tid: Tid, req: Request, prev: Option<Content>, id: CommitId, fault: Clearing) returns (r': Run)
    requires IsRun(p, r) && tid in Last(r).threads && Last(r).threads[tid] == Committed(req, prev, id)
    ensures Continues(p, r, r') && (PutsFirst(r.steps) ==> PutsFirst(r'.steps))
    ensures fault == Cleared && AllCleared(r.steps) ==> AllCleared(r'.steps)
    ensures Last(r') == With(Last(r).(cache := Dropped(Last(r).cache, req.uri, fault)), tid, Clean(req, prev, id, fault.Cleared?))
    ensures r'.steps == r.steps + [By(tid, Clear(fault))] && r'.states[..|r.states|] == r.states
  {
    r' := Extend(p, r, By(tid, Clear(fault)));
  }

  /** The last event is about u and names c. */
  ghost predicate Names(es: seq<Event>, u: Uri, c: Content) {
    es != [] && es[|es| - 1].uri == u && es[|es| - 1].version == Sha(c)
  }

  /** The log after the announcement. */
  ghost function Said(p: Params, s: State, req: Request, prev: Option<Content>, id: CommitId, ok: bool): seq<Event>
    requires id in s.tables.commits
  {
    var c := s.tables.commits[id].content;
    if Speaks(req, prev, c, ok) then s.events + [Announcement(p.cfg, req, prev, c)] else s.events
  }

  lemma {:induction false} WriterAnnounces(p: Params, r: Run, tid: Tid, req: Request, prev: Option<Content>, id: CommitId, ok: bool) returns (r': Run)
    requires IsRun(p, r) && tid in Last(r).threads && Last(r).threads[tid] == Clean(req, prev, id, ok)
    requires id in Last(r).tables.commits
    ensures Continues(p, r, r') && Tidy(r, r')
    ensures var s, s' := Last(r), Last(r');
            && s' == With(s.(events := s'.events), tid, Done(req, if ok then Succeeded(if req.PointBranch? then None else Some(id)) else NotClearedYet))
            && s'.events == Said(p, s, req, prev, id, ok)
  {
    assert Act(p, Last(r), Last(r).threads[tid], Announce).Some?;
    Announcing(p, Last(r), Last(r).threads[tid]);
    r' := Extend(p, r, By(tid, Announce));
  }

  // ---- the bound on staleness is reached ----

  /** A store serving a from one commit on main. */
  function OneCommit(u: Uri, a: Content): Tables {
    Tables(map[u := a], map["c1" := Commit(u, a, None, None, "author", "", 0)], map[(u, MAIN) := "c1"])
  }

  lemma {:induction false} OneCommitOk(u: Uri, a: Content)
    ensures Inv(OneCommit(u, a)) && Fresh(OneCommit(u, a), Stamp("c2", 1))
  {
    assert "c1"[0] != MAIN[0] && "c2"[0] != MAIN[0] && "c1"[1] != "c2"[1];
  }

  function Publishing(u: Uri, b: Content): Request {
    PublishTo(u, MAIN, b, "author", "")
  }

  /** A writer past its swap clears the cache and announces, and reports success. */
  lemma {:induction false} WriterSettles(p: Params, r: Run, tid: Tid, req: Request, prev: Option<Content>, id: CommitId) returns (r': Run)
    requires IsRun(p, r) && tid in Last(r).threads && Last(r).threads[tid] == Committed(req, prev, id) && id in Last(r).tables.commits
    ensures Continues(p, r, r') && Tidy(r, r')
    ensures var s, s' := Last(r), Last(r');
            && s' == With(s.(events := s'.events, cache := s.cache - {req.uri}), tid, Done(req, Succeeded(if req.PointBranch? then None else Some(id))))
            && s'.events == Said(p, s, req, prev, id, true)
  {
    var r1 := WriterClears(p, r, tid, req, prev, id, Cleared);
    r' := WriterAnnounces(p, r1, tid, req, prev, id, true);
    ContinuesOn(p, r, r1, r');
    WithTwice(Last(r).(events := Last(r').events, cache := Last(r).cache - {req.uri}), tid, Clean(req, prev, id, true),
              Done(req, Succeeded(if req.PointBranch? then None else Some(id))));
  }

  /** A store with a bad version on top of a good one, both on main. */
  function TwoCommits(u: Uri, good: Content, bad: Content): Tables {
    Tables(map[u := bad],
           map["c1" := Commit(u, good, None, None, "author", "", 0), "c2" := Commit(u, bad, Some("c1"), None, "author", "", 1)],
           map[(u, MAIN) := "c2"])
  }

  lemma {:induction false} TwoCommitsOk(u: Uri, good: Content, bad: Content)
    ensures Inv(TwoCommits(u, good, bad)) && "c1" in TwoCommits(u, good, bad).commits && TwoCommits(u, good, bad).commits["c1"].content == good
  {
    assert "c1"[0] != MAIN[0] && "c2"[0] != MAIN[0] && "c1"[1] != "c2"[1];
  }

  /** Request 0 holds what it read at time 0; request 1 has since replaced it, cleared the cache and reported success, still at time 0. */
  ghost predicate Overtaken(p: Params, r: Run, u: Uri, was: Content, now: Content) {
    && IsRun(p, r) && AllCleared(r.steps) && Serves(Last(r), u, now) && Last(r).now == 0 && Last(r).cache == map[]
    && Last(r).threads.Keys == {0, 1} && Last(r).threads[0] == Holding(u, was, 0)
    && Last(r).threads[1].Done? && Last(r).threads[1].outcome.Succeeded?
  }

  lemma {:induction false} PublishOvertakes(p: Params, u: Uri, a: Content, b: Content) returns (r: Run)
    requires a != b
    ensures Overtaken(p, r, u, a, b) && Last(r).threads[1].req == Publishing(u, b)
  {
    OneCommitOk(u, a);
    r := Start(p, OneCommit(u, a));
    r := ReaderLoads(p, r, 0, u);
    r := WriterCommits(p, r, 1, Publishing(u, b), Stamp("c2", 1));
    r := WriterSettles(p, r, 1, Publishing(u, b), Some(a), "c2");
  }

  lemma {:induction false} RollbackOvertakes(p: Params, u: Uri, good: Content, bad: Content) returns (r: Run)
    ensures Overtaken(p, r, u, bad, good) && Last(r).threads[1].req == PointBranch(u, MAIN, "c1")
  {
    TwoCommitsOk(u, good, bad);
    r := Start(p, TwoCommits(u, good, bad));
    r := ReaderLoads(p, r, 0, u);
    r := WriterLooks(p, r, 1, PointBranch(u, MAIN, "c1"));
    r := WriterPoints(p, r, 1, PointBranch(u, MAIN, "c1"), Some(bad));
    r := WriterSettles(p, r, 1, PointBranch(u, MAIN, "c1"), Some(bad), "c1");
  }

  /**
   * From step w on u serves what a writer put there at time 0 and reported done,
   * nothing has failed to clear, and yet at time wait + ttl a reader is answered
   * with the version before.
   */
  ghost predicate LateAnswer(p: Params, r: Run, w: nat, n: nat, u: Uri, was: Content, now: Content) {
    && CleanRun(p, r, u) && w <= n < |r.steps| && r.states[w].now == 0
    && 1 in r.states[w].threads && r.states[w].threads[1].Done? && r.states[w].threads[1].outcome.Succeeded?
    && (forall j :: w <= j <= |r.steps| ==> Lookup(r.states[j].tables.prompts, u) == Some(now))
    && Answers(r, n, u, was) && r.states[n].now == p.wait + p.cfg.ttl
  }

  /** Request 0 waits as long as it may and puts what it read. */
  lemma {:induction false} OvertakenPuts(p: Params, r0: Run, u: Uri, was: Content, now: Content) returns (r: Run)
    requires Overtaken(p, r0, u, was, now) && p.cfg.valid(u, was)
    ensures Continues(p, r0, r) && TablesKept(r0, r) && AllCleared(r.steps)
    ensures Last(r).now == p.wait && Last(r).threads.Keys == {0, 1}
    ensures u in Last(r).cache && Last(r).cache[u] == Entry(HeadResponse(u, was), p.wait + p.cfg.ttl)
  {
    var r1 := TimePasses(p, r0, p.wait);
    r := ReaderPuts(p, r1, 0, u, was, 0);
    ContinuesOn(p, r0, r1, r);
  }

  /** The entry is served up to its expiry. */
  lemma {:induction false} OvertakenAnswersLate(p: Params, r0: Run, u: Uri, was: Content, now: Content) returns (r: Run, n: nat)
    requires Overtaken(p, r0, u, was, now) && p.cfg.ttl > 0 && p.cfg.valid(u, was)
    ensures LateAnswer(p, r, |r0.steps|, n, u, was, now) && Continues(p, r0, r)
  {
    var r1 := OvertakenPuts(p, r0, u, was, now);
    var r2 := TimePasses(p, r1, p.cfg.ttl);
    r := ReaderHits(p, r2, 2, u, was);
    n := |r.steps| - 1;
    ContinuesOn(p, r0, r1, r2);
    ContinuesOn(p, r0, r2, r);
    AllClearedIsClean(p, r, u);
    assert r.states[|r0.steps|] == Last(r0);
  }

  /**
   * The bound of TtlConvergence is exact: a publish is done at time 0 with every
   * clear successful, and at time wait + ttl a reader still gets the old version.
   */
  lemma {:induction false} PublishSeenLate(p: Params, u: Uri, a: Content, b: Content) returns (r: Run, w: nat, n: nat)
    requires a != b && p.cfg.ttl > 0 && p.cfg.valid(u, a)
    ensures LateAnswer(p, r, w, n, u, a, b) && r.states[w].threads[1].req == Publishing(u, b)
  {
    var r0 := PublishOvertakes(p, u, a, b);
    r, n := OvertakenAnswersLate(p, r0, u, a, b);
    w := |r0.steps|;
    assert r.states[w] == Last(r0);
  }

  /** The same after a rollback of a bad version: it is served to a reader at time wait + ttl. */
  lemma {:induction false} RollbackSeenLate(p: Params, u: Uri, good: Content, bad: Content) returns (r: Run, w: nat, n: nat)
    requires good != bad && p.cfg.ttl > 0 && p.cfg.valid(u, bad)
    ensures LateAnswer(p, r, w, n, u, bad, good) && r.states[w].threads[1].req == PointBranch(u, MAIN, "c1")
  {
    var r0 := RollbackOvertakes(p, u, good, bad);
    r, n := OvertakenAnswersLate(p, r0, u, bad, good);
    w := |r0.steps|;
    assert r.states[w] == Last(r0);
  }

  // ---- each cause of staleness occurs on its own ----

  /** The cache holds a for u while b is served. */
  ghost predicate Stale(r: Run, u: Uri, a: Content, b: Content)
    requires r.states != []
  {
    u in Last(r).cache && Last(r).cache[u].resp.content == a && Serves(Last(r), u, b) && a != b
  }

  ghost predicate NobodyInFlight(r: Run, u: Uri)
    requires r.states != []
  {
    forall writer :: !AwaitsClear(Last(r), writer, u)
  }

  /**
   * Request 0 puts what it read: the publish has reported success, no clear
   * failed, no writer is in flight, and the cache holds a version that is no longer served.
   */
  lemma {:induction false} OverlapStrandsOldVersion(p: Params, u: Uri, a: Content, b: Content) returns (r: Run)
    requires a != b && p.cfg.valid(u, a)
    ensures CleanRun(p, r, u) && 1 in Last(r).threads && Last(r).threads[1].Done? && Last(r).threads[1].outcome.Succeeded?
    ensures forall writer :: !AwaitsClear(Last(r), writer, u)
    ensures u in Last(r).cache && Last(r).cache[u].resp.content == a && Serves(Last(r), u, b)
  {
    r := PublishOvertakes(p, u, a, b);
    r := ReaderPuts(p, r, 0, u, a, 0);
    AllClearedIsClean(p, r, u);
  }

  /** A put without overlap, then a swap: only the writer in flight makes the entry stale. */
  lemma {:induction false} InFlightAlone(p: Params, u: Uri, a: Content, b: Content) returns (r: Run)
    requires a != b && p.cfg.valid(u, a)
    ensures CleanRun(p, r, u) && NoOverlap(r, 0, |r.steps|, u) && AwaitsClear(Last(r), 1, u) && Stale(r, u, a, b)
    ensures PutsFirst(r.steps) && Last(r).threads.Keys == {0, 1} && Last(r).threads[0].Answered?
            && Last(r).threads[1] == Committed(Publishing(u, b), Some(a), "c2") && "c2" in Last(r).tables.commits
  {
    OneCommitOk(u, a);
    r := Start(p, OneCommit(u, a));
    r := ReaderLoads(p, r, 0, u);
    r := ReaderPuts(p, r, 0, u, a, 0);
    r := WriterCommits(p, r, 1, Publishing(u, b), Stamp("c2", 1));
    AllClearedIsClean(p, r, u);
    PutsFirstIsNoOverlap(p, r, u);
  }

  /** Its clear then fails: only the failed clear keeps the entry stale. */
  lemma {:induction false} FailedClearAlone(p: Params, u: Uri, a: Content, b: Content) returns (r: Run)
    requires a != b && p.cfg.valid(u, a)
    ensures IsRun(p, r) && NoOverlap(r, 0, |r.steps|, u) && NobodyInFlight(r, u) && Stale(r, u, a, b)
  {
    r := InFlightAlone(p, u, a, b);
    r := WriterClears(p, r, 1, Publishing(u, b), Some(a), "c2", NotCleared(false));
    PutsFirstIsNoOverlap(p, r, u);
  }

  // ---- interleaved writers and the log ----

  /** Everything has succeeded and nobody is in flight, c is served, and the last event names something else. */
  ghost predicate LogIsWrong(p: Params, r: Run, u: Uri, served: Content, told: Content) {
    && CleanRun(p, r, u) && served != told
    && LogAgrees(r.states[0].tables.prompts, r.states[0], u)
    && NobodyUnsettled(Last(r), u)
    && (forall tid :: tid in Last(r).threads ==> Last(r).threads[tid].Done? && Last(r).threads[tid].outcome.Succeeded?)
    && Serves(Last(r), u, served) && Names(Last(r).events, u, told)
    && !LogAgrees(r.states[0].tables.prompts, Last(r), u)
  }

  lemma {:induction false} WrongLog(p: Params, r: Run, u: Uri, served: Content, told: Content)
    requires IsRun(p, r) && AllCleared(r.steps) && served != told && r.states[0].events == []
    requires forall tid :: tid in Last(r).threads ==> Last(r).threads[tid].Done? && Last(r).threads[tid].outcome.Succeeded?
    requires Serves(Last(r), u, served) && Names(Last(r).events, u, told)
    ensures LogIsWrong(p, r, u, served, told)
  {
    AllClearedIsClean(p, r, u);
  }

  /** A store whose main and feature branches are at the same commit. */
  function TwoBranches(u: Uri, a: Content): Tables {
    OneCommit(u, a).(refs := map[(u, MAIN) := "c1", (u, "feature") := "c1"])
  }

  function Merging(u: Uri): Request {
    MergeTo(u, MAIN, "feature", "author", "")
  }

  function AfterPublish(t: Tables, u: Uri, b: Content): Tables {
    t.Install(MAIN, "c2", Tables.NewCommit(u, b, Some("c1"), "author", "", Stamp("c2", 1)))
  }

  lemma {:induction false} TwoBranchesOk(u: Uri, a: Content, b: Content)
    ensures Inv(TwoBranches(u, a)) && Fresh(TwoBranches(u, a), Stamp("c2", 1))
    ensures var t := AfterPublish(TwoBranches(u, a), u, b);
            && Fresh(t, Stamp("c3", 2)) && t.Tip(u, MAIN) == Some("c2") && t.Tip(u, "feature") == Some("c1")
            && "c1" in t.commits && t.commits["c1"].content == a && "c2" in t.commits && t.commits["c2"].content == b
  {
    assert "c1"[0] != MAIN[0] && "c2"[0] != MAIN[0] && "c3"[0] != MAIN[0];
    assert "c1"[1] != "c2"[1] && "c1"[1] != "c3"[1] && "c2"[1] != "c3"[1];
    assert "feature"[0] != MAIN[0];
  }

  /** A merge looks while a is served; a publish of b then runs from start to finish. */
  lemma {:induction false} PublishDuringMerge(p: Params, u: Uri, a: Content, b: Content) returns (r: Run)
    requires a != b
    ensures IsRun(p, r) && AllCleared(r.steps) && r.states[0] == State(TwoBranches(u, a), map[], [], 0, map[])
    ensures Last(r).tables == AfterPublish(TwoBranches(u, a), u, b) && Names(Last(r).events, u, b) && Last(r).threads.Keys == {0, 1}
    ensures Last(r).threads[0] == Checked(Merging(u), Some(a)) && Last(r).threads[1] == Done(Publishing(u, b), Succeeded(Some("c2")))
  {
    TwoBranchesOk(u, a, b);
    r := Start(p, TwoBranches(u, a));
    r := WriterLooks(p, r, 0, Merging(u));
    r := WriterCommits(p, r, 1, Publishing(u, b), Stamp("c2", 1));
    r := WriterSettles(p, r, 1, Publishing(u, b), Some(a), "c2");
  }

  /** The merge then puts a back on main. */
  lemma {:induction false} MergeSwapsBack(p: Params, u: Uri, a: Content, b: Content) returns (r: Run)
    requires a != b
    ensures IsRun(p, r) && AllCleared(r.steps) && r.states[0] == State(TwoBranches(u, a), map[], [], 0, map[])
    ensures Serves(Last(r), u, a) && Names(Last(r).events, u, b) && Last(r).threads.Keys == {0, 1}
    ensures "c3" in Last(r).tables.commits && Last(r).tables.commits["c3"].content == a
    ensures Last(r).threads[0] == Committed(Merging(u), Some(a), "c3") && Last(r).threads[1] == Done(Publishing(u, b), Succeeded(Some("c2")))
  {
    TwoBranchesOk(u, a, b);
    r := PublishDuringMerge(p, u, a, b);
    r := WriterSwaps(p, r, 0, Merging(u), Some(a), Stamp("c3", 2));
  }

  /**
   * A merge loses its event: it looks while a is served, a publish of b comes and
   * goes, and the merge puts a back. What it put equals what it saw, so it is
   * silent, and the last event names b while a is served.
   */
  lemma {:induction false} MergeLosesEvent(p: Params, u: Uri, a: Content, b: Content) returns (r: Run)
    requires a != b
    ensures LogIsWrong(p, r, u, a, b)
  {
    r := MergeSwapsBack(p, u, a, b);
    r := WriterSettles(p, r, 0, Merging(u), Some(a), "c3");
    WrongLog(p, r, u, a, b);
  }

  function AfterBoth(u: Uri, a: Content, b: Content, c: Content): Tables {
    AfterPublish(TwoBranches(u, a), u, b).Install(MAIN, "c3", Tables.NewCommit(u, c, Some("c2"), "author", "", Stamp("c3", 2)))
  }

  lemma {:induction false} BothSwap(p: Params, u: Uri, a: Content, b: Content, c: Content) returns (r: Run)
    requires a != b && b != c
    ensures IsRun(p, r) && AllCleared(r.steps) && r.states[0] == State(TwoBranches(u, a), map[], [], 0, map[])
    ensures Last(r).tables == AfterBoth(u, a, b, c) && Last(r).threads.Keys == {0, 1}
    ensures Last(r).threads[0] == Committed(Publishing(u, b), Some(a), "c2") && Last(r).threads[1] == Committed(Publishing(u, c), Some(b), "c3")
  {
    TwoBranchesOk(u, a, b);
    r := Start(p, TwoBranches(u, a));
    r := WriterCommits(p, r, 0, Publishing(u, b), Stamp("c2", 1));
    assert Last(r).tables == AfterPublish(TwoBranches(u, a), u, b);
    r := WriterCommits(p, r, 1, Publishing(u, c), Stamp("c3", 2));
  }

  lemma {:induction false} AfterBothHolds(u: Uri, a: Content, b: Content, c: Content)
    ensures var t := AfterBoth(u, a, b, c);
            "c2" in t.commits && t.commits["c2"].content == b && "c3" in t.commits && t.commits["c3"].content == c && Lookup(t.prompts, u) == Some(c)
  {
    assert "c2"[1] != "c3"[1];
  }

  /** The second to swap is the first to finish. */
  lemma {:induction false} SecondFinishes(p: Params, u: Uri, a: Content, b: Content, c: Content) returns (r: Run)
    requires a != b && b != c
    ensures IsRun(p, r) && AllCleared(r.steps) && r.states[0] == State(TwoBranches(u, a), map[], [], 0, map[])
    ensures Last(r).tables == AfterBoth(u, a, b, c) && Last(r).threads.Keys == {0, 1}
    ensures Last(r).threads[0] == Committed(Publishing(u, b), Some(a), "c2") && Last(r).threads[1] == Done(Publishing(u, c), Succeeded(Some("c3")))
  {
    AfterBothHolds(u, a, b, c);
    r := BothSwap(p, u, a, b, c);
    r := WriterSettles(p, r, 1, Publishing(u, c), Some(b), "c3");
  }

  /** Two publishes of b and c swap in this order and announce in the other. */
  lemma {:induction false} AnnouncementsSwap(p: Params, u: Uri, a: Content, b: Content, c: Content) returns (r: Run)
    requires a != b && b != c
    ensures LogIsWrong(p, r, u, c, b)
  {
    AfterBothHolds(u, a, b, c);
    r := SecondFinishes(p, u, a, b, c);
    r := WriterSettles(p, r, 0, Publishing(u, b), Some(a), "c2");
    WrongLog(p, r, u, c, b);
  }

  // ---- two first versions ----

  function FirstPublish(u: Uri, b: Content): Tables {
    EMPTY.CommitOn(u, MAIN, b, "author", "", Stamp("c1", 0))
  }

  lemma {:induction false} FirstPublishOk(u: Uri, b: Content)
    ensures Inv(EMPTY) && Fresh(EMPTY, Stamp("c1", 0)) && Fresh(FirstPublish(u, b), Stamp("c2", 1))
  {
    assert "c1"[0] != MAIN[0] && "c2"[0] != MAIN[0] && "c1"[1] != "c2"[1];
  }

  /** Two publishes look while nothing is served; the first goes through. */
  lemma {:induction false} BothSeeNothing(p: Params, u: Uri, b: Content, c: Content) returns (r: Run)
    ensures IsRun(p, r) && AllCleared(r.steps) && r.states[0] == State(EMPTY, map[], [], 0, map[])
    ensures Last(r).tables == FirstPublish(u, b) && Last(r).threads.Keys == {0, 1}
    ensures Last(r).threads[0] == Done(Publishing(u, b), Succeeded(Some("c1"))) && Last(r).threads[1] == Checked(Publishing(u, c), None)
    ensures Last(r).events == [Event(u, Sha(b), "new")]
  {
    FirstPublishOk(u, b);
    r := Start(p, EMPTY);
    r := WriterLooks(p, r, 0, Publishing(u, b));
    r := WriterLooks(p, r, 1, Publishing(u, c));
    r := WriterSwaps(p, r, 0, Publishing(u, b), None, Stamp("c1", 0));
    r := WriterSettles(p, r, 0, Publishing(u, b), None, "c1");
  }

  /**
   * Two overlapping first publishes both announce "new": everybody has succeeded,
   * no clear failed, and the second replaced a version that was served.
   */
  lemma {:induction false} NewTwice(p: Params, u: Uri, b: Content, c: Content) returns (r: Run)
    ensures CleanRun(p, r, u) && r.states[0] == State(EMPTY, map[], [], 0, map[])
    ensures forall tid :: tid in Last(r).threads ==> Last(r).threads[tid].Done? && Last(r).threads[tid].outcome.Succeeded?
    ensures Last(r).events == [Event(u, Sha(b), "new"), Event(u, Sha(c), "new")]
  {
    FirstPublishOk(u, b);
    r := BothSeeNothing(p, u, b, c);
    r := WriterSwaps(p, r, 1, Publishing(u, c), None, Stamp("c2", 1));
    r := WriterSettles(p, r, 1, Publishing(u, c), None, "c2");
    AllClearedIsClean(p, r, u);
  }
}
