/**
 * When the notification log names what is served although requests interleave: as
 * long as nobody else moves a prompt's HEAD between a writer's first look at it and
 * its announcement, and no rollback to other content fails to clear the cache.
 */
module ConcurrentLog {
  import opened Basics
  import opened Store
  import opened ServerModel
  import opened ServerRuns
  import opened Concurrent
  import opened ConcurrentReads
  import opened ConcurrentWrites
  import opened ConcurrentMerges

  function VersionOf(c: Option<Content>): Option<Version> {
    if c.Some? then Some(Sha(c.value)) else None
  }

  /** The last event about u names the version being served. */
  ghost predicate LogAgrees(base: map<Uri, Content>, s: State, u: Uri) {
    Told(base, s.events, u) == VersionOf(Lookup(s.tables.prompts, u))
  }

  /** A writer has moved the HEAD of u and not announced yet. */
  ghost predicate Unsettled(s: State, tid: Tid, u: Uri) {
    tid in s.threads && (s.threads[tid].Committed? || s.threads[tid].Clean?) && s.threads[tid].req.uri == u
  }

  ghost predicate NobodyUnsettled(s: State, u: Uri) {
    forall tid :: !Unsettled(s, tid, u)
  }

  /** What such a writer put is served, what it saw is what subscribers were told, and a failed clear hides nothing new. */
  ghost predicate Pending(base: map<Uri, Content>, s: State, th: Thread, u: Uri)
    requires th.Committed? || th.Clean?
  {
    && Told(base, s.events, u) == VersionOf(th.prev)
    && th.id in s.tables.commits && Lookup(s.tables.prompts, u) == Some(s.tables.commits[th.id].content)
    && (th.Clean? && th.req.PointBranch? && !th.ok ==> th.prev == Some(s.tables.commits[th.id].content))
  }

  // ---- the two ways the log goes wrong ----

  /** A request that moves the HEAD of u by step n finishes before anybody else moves it after its first look. */
  ghost predicate Undisturbed(r: Run, n: nat, u: Uri)
    requires n <= |r.steps| && n < |r.states|
  {
    forall k: nat, m: nat, j: nat :: k < m < n && k < j < n && j != m && Checks(r, k, r.steps[m]) && MovesHead(r, m, u) && MovesHead(r, j, u) ==>
      FinishedBy(r.states[j], r.steps[m])
  }

  /** Step k is the first look of the request that takes step l. */
  ghost predicate Checks(r: Run, k: nat, l: Label) {
    k < |r.steps| && l.By? && r.steps[k] == By(l.tid, Check)
  }

  ghost predicate FinishedBy(s: State, l: Label) {
    l.By? && l.tid in s.threads && s.threads[l.tid].Done?
  }

  /** A rollback of u to other content than it saw, whose clear reports failure: it will not be announced. */
  ghost predicate SilentClear(s: State, l: Label, u: Uri) {
    && l.By? && l.action.Clear? && !l.action.fault.Cleared?
    && l.tid in s.threads && s.threads[l.tid].Committed? && s.threads[l.tid].req.PointBranch? && s.threads[l.tid].req.uri == u
    && s.threads[l.tid].id in s.tables.commits && s.threads[l.tid].prev != Some(s.tables.commits[s.threads[l.tid].id].content)
  }

  // ---- single steps ----

  lemma {:induction false} BecomesUnsettled(p: Params, s: State, th: Thread, a: Action)
    requires Act(p, s, th, a).Some? && (Act(p, s, th, a).value.next.Committed? || Act(p, s, th, a).value.next.Clean?)
    ensures var e := Act(p, s, th, a).value;
            || (&& th.Committed? && a.Clear? && e.next == Clean(th.req, th.prev, th.id, a.fault.Cleared?))
            || (&& e.next.Committed? && e.next.req.branch == MAIN && Carries(th, e.next.req, e.next.prev)
                && (th.TipRead? || th.Checked?) && (a.Advance? || a.Point?) && e.events == s.events
                && e.next.id in e.tables.commits
                && Lookup(e.tables.prompts, e.next.req.uri) == Some(e.tables.commits[e.next.id].content))
  {
  }

  /** An unsettled writer was unsettled before, or has just moved the HEAD. */
  lemma {:induction false} UnsettledStep(p: Params, s: State, l: Label, tid: Tid, u: Uri)
    requires Enabled(p, s, l) && Unsettled(Apply(p, s, l), tid, u)
    ensures var s' := Apply(p, s, l); var th' := s'.threads[tid];
            || (&& Unsettled(s, tid, u) && s.threads[tid].req == th'.req && s.threads[tid].prev == th'.prev && s.threads[tid].id == th'.id
                && (s.threads[tid] == th'
                    || (l.By? && l.tid == tid && l.action.Clear? && s.threads[tid].Committed? && th'.Clean? && th'.ok == l.action.fault.Cleared?)))
            || (&& l.By? && l.tid == tid && Moves(s, l, u, MAIN) && th'.Committed? && th'.req.branch == MAIN
                && tid in s.threads && Carries(s.threads[tid], th'.req, th'.prev) && s'.events == s.events
                && th'.id in s'.tables.commits && Lookup(s'.tables.prompts, u) == Some(s'.tables.commits[th'.id].content))
  {
    if l.By? && l.tid == tid {
      BecomesUnsettled(p, s, s.threads[tid], l.action);
    }
  }

  lemma {:induction false} OnlyCleanSpeaks(p: Params, s: State, th: Thread, a: Action)
    requires Act(p, s, th, a).Some?
    ensures var e := Act(p, s, th, a).value;
            e.events == s.events || (&& a == Announce && th.Clean? && th.id in s.tables.commits
                                     && e.events == s.events + [Announcement(p.cfg, th.req, th.prev, s.tables.commits[th.id].content)])
  {
  }

  /** Only the announcement of an unsettled writer of u changes what u's subscribers were told. */
  lemma {:induction false} ToldStep(p: Params, s: State, l: Label, base: map<Uri, Content>, u: Uri)
    requires Enabled(p, s, l) && !(l.By? && l.action == Announce && Unsettled(s, l.tid, u))
    ensures Told(base, Apply(p, s, l).events, u) == Told(base, s.events, u)
  {
    if l.By? {
      var th := s.threads[l.tid];
      OnlyCleanSpeaks(p, s, th, l.action);
      if Apply(p, s, l).events != s.events {
        ToldSnoc(base, s.events, Announcement(p.cfg, th.req, th.prev, s.tables.commits[th.id].content), u);
      }
    }
  }

  /** An announcement says what is served, or keeps silent because it was said already. */
  lemma {:induction false} AnnouncementAgrees(p: Params, s: State, tid: Tid, base: map<Uri, Content>, u: Uri)
    requires Enabled(p, s, By(tid, Announce)) && Unsettled(s, tid, u) && Pending(base, s, s.threads[tid], u)
    ensures LogAgrees(base, Apply(p, s, By(tid, Announce)), u)
    ensures Apply(p, s, By(tid, Announce)).threads[tid].Done?
  {
    var th := s.threads[tid];
    AnnouncersAreClean(p, s, th);
    Announcing(p, s, th);
    ToldSnoc(base, s.events, Announcement(p.cfg, th.req, th.prev, s.tables.commits[th.id].content), u);
  }

  lemma {:induction false} AnnouncersAreClean(p: Params, s: State, th: Thread)
    requires Act(p, s, th, Announce).Some?
    ensures th.Clean?
  {
  }

  // ---- where an unsettled writer came from ----

  /** It looked, and then moved the HEAD. */
  lemma {:induction false} UnsettledMoved(p: Params, r: Run, i: nat, tid: Tid, u: Uri)
    requires IsRun(p, r) && i <= |r.steps| && Unsettled(r.states[i], tid, u)
    ensures exists k: nat, m: nat :: k < m < i && MovesHead(r, m, u) && r.steps[m].tid == tid && Checks(r, k, r.steps[m])
  {
    if i > 0 {
      var s, l := r.states[i - 1], r.steps[i - 1];
      assert StepAt(p, r, i - 1);
      UnsettledStep(p, s, l, tid, u);
      if Unsettled(s, tid, u) {
        UnsettledMoved(p, r, i - 1, tid, u);
      } else {
        var th := r.states[i].threads[tid];
        CarriedWasServed(p, r, i - 1, tid, th.req, th.prev);
        var k: nat :| k < i - 1 && ChecksHead(r, k, tid, th.req.uri, th.prev);
        assert MovesHead(r, i - 1, u) && Checks(r, k, r.steps[i - 1]);
      }
    }
  }

  lemma {:induction false} DoneForever(p: Params, r: Run, j: nat, i: nat, tid: Tid)
    requires IsRun(p, r) && j <= i <= |r.steps| && tid in r.states[j].threads && r.states[j].threads[tid].Done?
    ensures tid in r.states[i].threads && r.states[i].threads[tid].Done?
    decreases i
  {
    if j < i {
      DoneForever(p, r, j, i - 1, tid);
      assert StepAt(p, r, i - 1);
      DoneStays(p, r.states[i - 1], r.steps[i - 1], tid);
    }
  }

  /** An undisturbed writer about to move the HEAD carries what is served right then. */
  lemma {:induction false} CarriesServed(p: Params, r: Run, n: nat, m: nat, u: Uri, req: Request, prev: Option<Content>)
    requires IsRun(p, r) && n <= |r.steps| && Undisturbed(r, n, u) && m < n && MovesHead(r, m, u)
    requires r.steps[m].tid in r.states[m].threads && Carries(r.states[m].threads[r.steps[m].tid], req, prev)
    requires req.branch == MAIN && req.uri == u
    ensures Lookup(r.states[m].tables.prompts, u) == prev
  {
    var tid := r.steps[m].tid;
    CarriedWasServed(p, r, m, tid, req, prev);
    var k: nat :| k < m && ChecksHead(r, k, tid, u, prev);
    forall j: nat | k <= j < m ensures !MovesHead(r, j, u) {
      if MovesHead(r, j, u) {
        assert Checks(r, k, r.steps[m]) && FinishedBy(r.states[j], r.steps[m]);
        DoneForever(p, r, j, m, tid);
      }
    }
    HeadUnmoved(p, r, k, m, u);
  }

  /** When an undisturbed run moves the HEAD, everybody before has announced. */
  lemma {:induction false} OthersSettled(p: Params, r: Run, n: nat, j: nat, u: Uri)
    requires IsRun(p, r) && n <= |r.steps| && Undisturbed(r, n, u) && j < n && MovesHead(r, j, u)
    ensures NobodyUnsettled(r.states[j], u)
  {
    forall tid ensures !Unsettled(r.states[j], tid, u) {
      if Unsettled(r.states[j], tid, u) {
        UnsettledMoved(p, r, j, tid, u);
      }
    }
  }

  // ---- the invariant ----

  /** Subscribers know what is served, or the one unsettled writer is about to tell them. */
  ghost predicate LogInv(base: map<Uri, Content>, s: State, u: Uri) {
    && (forall tid :: Unsettled(s, tid, u) ==> Pending(base, s, s.threads[tid], u))
    && (forall x, y :: Unsettled(s, x, u) && Unsettled(s, y, u) ==> x == y)
    && (NobodyUnsettled(s, u) ==> LogAgrees(base, s, u))
  }

  lemma {:induction false} MovingKeepsLog(p: Params, r: Run, n: nat, i: nat, base: map<Uri, Content>, u: Uri)
    requires IsRun(p, r) && n <= |r.steps| && Undisturbed(r, n, u) && i < n && MovesHead(r, i, u) && LogInv(base, r.states[i], u)
    ensures LogInv(base, r.states[i + 1], u)
  {
    var s, l, s' := r.states[i], r.steps[i], r.states[i + 1];
    assert StepAt(p, r, i);
    OthersSettled(p, r, n, i, u);
    forall tid | Unsettled(s', tid, u) ensures tid == l.tid && Pending(base, s', s'.threads[tid], u) {
      UnsettledStep(p, s, l, tid, u);
      assert !Unsettled(s, tid, u);
      CarriesServed(p, r, n, i, u, s'.threads[tid].req, s'.threads[tid].prev);
    }
    assert Unsettled(s', l.tid, u);
  }

  lemma {:induction false} AnnouncingKeepsLog(p: Params, s: State, tid: Tid, base: map<Uri, Content>, u: Uri)
    requires Enabled(p, s, By(tid, Announce)) && LogInv(base, s, u) && Unsettled(s, tid, u)
    ensures LogInv(base, Apply(p, s, By(tid, Announce)), u)
  {
    var l := By(tid, Announce);
    AnnouncementAgrees(p, s, tid, base, u);
    forall x ensures !Unsettled(Apply(p, s, l), x, u) {
      if Unsettled(Apply(p, s, l), x, u) {
        UnsettledStep(p, s, l, x, u);
      }
    }
  }

  lemma {:induction false} OtherStepsKeepLog(p: Params, r: Run, i: nat, base: map<Uri, Content>, u: Uri)
    requires IsRun(p, r) && i < |r.steps| && !MovesHead(r, i, u) && LogInv(base, r.states[i], u)
    requires !(r.steps[i].By? && r.steps[i].action == Announce && Unsettled(r.states[i], r.steps[i].tid, u))
    requires !SilentClear(r.states[i], r.steps[i], u)
    ensures LogInv(base, r.states[i + 1], u)
  {
    var s, l, s' := r.states[i], r.steps[i], r.states[i + 1];
    assert StepAt(p, r, i);
    HeadStep(p, r, i, u);
    ToldStep(p, s, l, base, u);
    forall tid | Unsettled(s', tid, u) ensures Unsettled(s, tid, u) && Pending(base, s', s'.threads[tid], u) {
      UnsettledStep(p, s, l, tid, u);
      assert Unsettled(s, tid, u);
      CommitUnchanged(p, r, i, i + 1, s.threads[tid].id);
    }
    if NobodyUnsettled(s', u) {
      forall tid ensures !Unsettled(s, tid, u) {
        if Unsettled(s, tid, u) {
          StaysUnsettled(p, s, l, tid, u);
        }
      }
    }
  }

  lemma {:induction false} LeavesByAnnouncing(p: Params, s: State, th: Thread, a: Action)
    requires (th.Committed? || th.Clean?) && Act(p, s, th, a).Some? && a != Announce
    ensures var next := Act(p, s, th, a).value.next; (next.Committed? || next.Clean?) && next.req == th.req
  {
  }

  lemma {:induction false} StaysUnsettled(p: Params, s: State, l: Label, tid: Tid, u: Uri)
    requires Enabled(p, s, l) && Unsettled(s, tid, u) && l != By(tid, Announce)
    ensures Unsettled(Apply(p, s, l), tid, u)
  {
    if l.By? && l.tid == tid {
      LeavesByAnnouncing(p, s, s.threads[tid], l.action);
    }
  }

  lemma {:induction false} LogInvStep(p: Params, r: Run, n: nat, i: nat, base: map<Uri, Content>, u: Uri)
    requires IsRun(p, r) && i < n <= |r.steps| && Undisturbed(r, n, u) && LogInv(base, r.states[i], u)
    requires !SilentClear(r.states[i], r.steps[i], u)
    ensures LogInv(base, r.states[i + 1], u)
  {
    if MovesHead(r, i, u) {
      MovingKeepsLog(p, r, n, i, base, u);
    } else if r.steps[i].By? && r.steps[i].action == Announce && Unsettled(r.states[i], r.steps[i].tid, u) {
      assert StepAt(p, r, i);
      AnnouncingKeepsLog(p, r.states[i], r.steps[i].tid, base, u);
    } else {
      OtherStepsKeepLog(p, r, i, base, u);
    }
  }

  lemma {:induction false} LogInvStart(p: Params, r: Run, base: map<Uri, Content>, u: Uri)
    requires IsRun(p, r) && LogAgrees(base, r.states[0], u)
    ensures LogInv(base, r.states[0], u)
  {
  }

  lemma {:induction false} LogInvHolds(p: Params, r: Run, n: nat, i: nat, base: map<Uri, Content>, u: Uri)
    requires IsRun(p, r) && i <= n <= |r.steps| && LogAgrees(base, r.states[0], u) && Undisturbed(r, n, u)
    requires forall m :: 0 <= m < n ==> !SilentClear(r.states[m], r.steps[m], u)
    ensures LogInv(base, r.states[i], u)
    decreases i
  {
    if i == 0 {
      LogInvStart(p, r, base, u);
    } else {
      LogInvHolds(p, r, n, i - 1, base, u);
      LogInvStep(p, r, n, i - 1, base, u);
    }
  }

  /**
   * Over any interleaving in which each mover of u's HEAD goes from its first look
   * to its announcement without another move of that HEAD, and no rollback of u to
   * other content fails to clear: whenever nobody is between a move and its announcement, the
   * last event about u names the version served.
   */
  lemma {:induction false} LogTracksHead(p: Params, r: Run, n: nat, base: map<Uri, Content>, u: Uri)
    requires IsRun(p, r) && n <= |r.steps| && LogAgrees(base, r.states[0], u) && Undisturbed(r, n, u)
    requires forall m :: 0 <= m < n ==> !SilentClear(r.states[m], r.steps[m], u)
    requires NobodyUnsettled(r.states[n], u)
    ensures LogAgrees(base, r.states[n], u)
  {
    LogInvHolds(p, r, n, n, base, u);
  }

  // ---- verdicts in such a run ----

  /** Step i speaks about u. */
  ghost predicate SpeaksAt(r: Run, i: nat, u: Uri) {
    && i < |r.steps| && i + 1 < |r.states| && r.steps[i].By? && r.steps[i].action == Announce
    && Unsettled(r.states[i], r.steps[i].tid, u) && r.states[i + 1].events != r.states[i].events
  }

  /**
   * In such a run every event compares the version it names with the one the
   * previous event of its prompt named, and a "new" event is the first of its prompt.
   */
  lemma {:induction false} VerdictsTrackLog(p: Params, r: Run, n: nat, i: nat, base: map<Uri, Content>, u: Uri)
    requires IsRun(p, r) && i < n <= |r.steps| && LogAgrees(base, r.states[0], u) && Undisturbed(r, n, u)
    requires forall m :: 0 <= m < n ==> !SilentClear(r.states[m], r.steps[m], u)
    requires SpeaksAt(r, i, u)
    ensures var es, es' := r.states[i].events, r.states[i + 1].events;
            && |es'| == |es| + 1 && es'[..|es|] == es && es'[|es|].uri == u
            && Compares(p.cfg, FirstWord(r.states[i].threads[r.steps[i].tid].req.PublishTo?), Told(base, es, u), es'[|es|])
            && (VerdictsAreNotNew(p.cfg) && es'[|es|].verdict == "new" ==> forall j :: 0 <= j < |es| ==> es[j].uri != u)
  {
    var s, tid := r.states[i], r.steps[i].tid;
    LogInvHolds(p, r, n, i, base, u);
    assert StepAt(p, r, i);
    AnnouncersAreClean(p, s, s.threads[tid]);
    Announcing(p, s, s.threads[tid]);
    assert Pending(base, s, s.threads[tid], u);
    if VerdictsAreNotNew(p.cfg) && r.states[i + 1].events[|s.events|].verdict == "new" {
      NothingTold(base, s.events, u);
    }
  }

  /** If subscribers were told nothing, there has been no event. */
  lemma {:induction false} NothingTold(base: map<Uri, Content>, es: seq<Event>, u: Uri)
    requires Told(base, es, u).None?
    ensures forall j :: 0 <= j < |es| ==> es[j].uri != u
    decreases |es|
  {
    if es != [] {
      NothingTold(base, es[..|es| - 1], u);
      assert forall j :: 0 <= j < |es| - 1 ==> es[j] == es[..|es| - 1][j];
    }
  }

  // ---- step by step, in every interleaving ----

  /** The step moves the HEAD of u to other content. */
  ghost predicate Replaces(p: Params, s: State, l: Label, u: Uri)
    requires Enabled(p, s, l)
  {
    Moves(s, l, u, MAIN) && Lookup(Apply(p, s, l).tables.prompts, u) != Lookup(s.tables.prompts, u)
  }

  /** A writer of u that would speak, when by now something else is served than what it put. */
  ghost predicate SpeaksLate(s: State, l: Label, u: Uri) {
    && l.By? && l.action == Announce && Unsettled(s, l.tid, u) && s.threads[l.tid].Clean?
    && s.threads[l.tid].id in s.tables.commits
    && var th := s.threads[l.tid]; var c := s.tables.commits[th.id].content;
       Speaks(th.req, th.prev, c, th.ok) && Lookup(s.tables.prompts, u) != Some(c)
  }

  lemma {:induction false} AnnouncementExact(p: Params, s: State, tid: Tid, base: map<Uri, Content>, u: Uri)
    requires Enabled(p, s, By(tid, Announce)) && Unsettled(s, tid, u) && LogAgrees(base, s, u)
    ensures LogAgrees(base, Apply(p, s, By(tid, Announce)), u) <==> !SpeaksLate(s, By(tid, Announce), u)
  {
    var th := s.threads[tid];
    AnnouncersAreClean(p, s, th);
    Announcing(p, s, th);
    ToldSnoc(base, s.events, Announcement(p.cfg, th.req, th.prev, s.tables.commits[th.id].content), u);
  }

  lemma {:induction false} QuietHead(p: Params, s: State, l: Label, u: Uri)
    requires Enabled(p, s, l) && !Moves(s, l, u, MAIN)
    ensures Lookup(Apply(p, s, l).tables.prompts, u) == Lookup(s.tables.prompts, u)
  {
    TablesStep(p, s, l);
  }

  lemma {:induction false} MoversAreNotAnnouncing(s: State, l: Label, u: Uri)
    requires Moves(s, l, u, MAIN)
    ensures l.By? && l.action != Announce && !SpeaksLate(s, l, u)
  {
  }

  /**
   * Whatever else is in flight, one step breaks the agreement of log and HEAD
   * exactly when it replaces what is served, which its writer has yet to announce,
   * or announces what is no longer served.
   */
  lemma {:induction false} LogStepExact(p: Params, s: State, l: Label, base: map<Uri, Content>, u: Uri)
    requires Enabled(p, s, l) && LogAgrees(base, s, u)
    ensures LogAgrees(base, Apply(p, s, l), u) <==> !Replaces(p, s, l, u) && !SpeaksLate(s, l, u)
  {
    if Moves(s, l, u, MAIN) {
      MoversAreNotAnnouncing(s, l, u);
      ToldStep(p, s, l, base, u);
    } else {
      QuietHead(p, s, l, u);
      if l.By? && l.action == Announce && Unsettled(s, l.tid, u) {
        AnnouncementExact(p, s, l.tid, base, u);
      } else {
        ToldStep(p, s, l, base, u);
      }
    }
  }
}
