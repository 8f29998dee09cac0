/**
 * Events of publishes and merges under interleaving. A writer decides on its event
 * and verdict from a HEAD read before its compare-and-swap, so they can be wrong
 * when another write to main falls in between.
 */
module ConcurrentMerges {
  import opened Basics
  import opened Store
  import opened ServerModel
  import opened ServerRuns
  import opened Concurrent
  import opened ConcurrentReads

  /** At step k request tid reads what main of its prompt serves, and finds prev. */
  ghost predicate ChecksHead(r: Run, k: nat, tid: Tid, u: Uri, prev: Option<Content>) {
    k < |r.steps| && k < |r.states| && r.steps[k] == By(tid, Check) && Lookup(r.states[k].tables.prompts, u) == prev
  }

  /** A write to main on its way, carrying the HEAD it read first. */
  ghost predicate Carries(th: Thread, req: Request, prev: Option<Content>) {
    && (th.Checked? || th.TipRead? || th.Committed? || th.Clean?)
    && th.req == req && th.prev == prev
  }

  lemma {:induction false} CarriesStep(p: Params, s: State, th: Thread, a: Action, req: Request, prev: Option<Content>)
    requires req.branch == MAIN && Act(p, s, th, a).Some? && Carries(Act(p, s, th, a).value.next, req, prev)
    ensures Carries(th, req, prev) || (a == Check && Lookup(s.tables.prompts, req.uri) == prev)
  {
  }

  lemma {:induction false} CarriesBefore(p: Params, s: State, l: Label, tid: Tid, req: Request, prev: Option<Content>)
    requires Enabled(p, s, l) && req.branch == MAIN
    requires tid in Apply(p, s, l).threads && Carries(Apply(p, s, l).threads[tid], req, prev)
    ensures || (tid in s.threads && Carries(s.threads[tid], req, prev))
            || (l == By(tid, Check) && Lookup(s.tables.prompts, req.uri) == prev)
  {
    if l.By? && l.tid == tid {
      CarriesStep(p, s, s.threads[tid], l.action, req, prev);
    }
  }

  /** The HEAD a write carries was served when the write looked. */
  lemma {:induction false} CarriedWasServed(p: Params, r: Run, i: nat, tid: Tid, req: Request, prev: Option<Content>)
    requires IsRun(p, r) && i <= |r.steps| && req.branch == MAIN
    requires tid in r.states[i].threads && Carries(r.states[i].threads[tid], req, prev)
    ensures exists k: nat :: k < i && ChecksHead(r, k, tid, req.uri, prev)
  {
    if i > 0 {
      assert StepAt(p, r, i - 1);
      CarriesBefore(p, r.states[i - 1], r.steps[i - 1], tid, req, prev);
      if tid in r.states[i - 1].threads && Carries(r.states[i - 1].threads[tid], req, prev) {
        CarriedWasServed(p, r, i - 1, tid, req, prev);
      } else {
        assert ChecksHead(r, i - 1, tid, req.uri, prev);
      }
    }
  }

  /** Past its compare-and-swap. */
  ghost predicate Swapped(th: Thread, req: Request, prev: Option<Content>, id: CommitId) {
    (th.Committed? || th.Clean?) && th.req == req && th.prev == prev && th.id == id
  }

  /** At step m request tid puts commit id on main, having looked at step k. */
  ghost predicate LooksThenSwaps(r: Run, k: nat, m: nat, tid: Tid, u: Uri, prev: Option<Content>, id: CommitId) {
    && k < m < |r.steps| && m + 1 < |r.states| && ChecksHead(r, k, tid, u, prev)
    && r.steps[m].By? && r.steps[m].tid == tid && Commits(r.states[m], r.steps[m], u, MAIN, id)
    && id in r.states[m + 1].tables.commits
    && Lookup(r.states[m + 1].tables.prompts, u) == Some(r.states[m + 1].tables.commits[id].content)
  }

  lemma {:induction false} SwappedStep(p: Params, s: State, th: Thread, a: Action, req: Request, prev: Option<Content>, id: CommitId)
    requires !req.PointBranch? && Act(p, s, th, a).Some? && Swapped(Act(p, s, th, a).value.next, req, prev, id)
    ensures || Swapped(th, req, prev, id)
            || (th.TipRead? && Carries(th, req, prev) && a.Advance? && a.stamp.id == id)
  {
  }

  /** Advancing main serves the new commit. */
  lemma {:induction false} SwapServes(p: Params, s: State, l: Label)
    requires Enabled(p, s, l) && l.By? && l.action.Advance? && s.threads[l.tid].TipRead?
    requires s.threads[l.tid].req.branch == MAIN
    ensures var t', id := Apply(p, s, l).tables, l.action.stamp.id;
            id in t'.commits && Lookup(t'.prompts, s.threads[l.tid].req.uri) == Some(t'.commits[id].content)
  {
    TablesStep(p, s, l);
  }

  lemma {:induction false} SwappedBefore(p: Params, s: State, l: Label, tid: Tid, req: Request, prev: Option<Content>, id: CommitId)
    requires Enabled(p, s, l) && !req.PointBranch? && req.branch == MAIN
    requires tid in Apply(p, s, l).threads && Swapped(Apply(p, s, l).threads[tid], req, prev, id)
    ensures tid in s.threads
    ensures var t' := Apply(p, s, l).tables;
            || Swapped(s.threads[tid], req, prev, id)
            || (&& Carries(s.threads[tid], req, prev) && l.By? && l.tid == tid && Commits(s, l, req.uri, MAIN, id)
                && id in t'.commits && Lookup(t'.prompts, req.uri) == Some(t'.commits[id].content))
  {
    if l.By? && l.tid == tid {
      SwappedStep(p, s, s.threads[tid], l.action, req, prev, id);
      if !Swapped(s.threads[tid], req, prev, id) {
        SwapServes(p, s, l);
      }
    }
  }

  /** A publish or merge past its swap looked at the HEAD in an earlier step of its own, and carries what it saw. */
  lemma {:induction false} WriterLooked(p: Params, r: Run, i: nat, tid: Tid, req: Request, prev: Option<Content>, id: CommitId)
    requires IsRun(p, r) && i <= |r.steps| && !req.PointBranch? && req.branch == MAIN
    requires tid in r.states[i].threads && Swapped(r.states[i].threads[tid], req, prev, id)
    ensures exists k: nat, m: nat :: m < i && LooksThenSwaps(r, k, m, tid, req.uri, prev, id)
  {
    if i > 0 {
      assert StepAt(p, r, i - 1);
      SwappedBefore(p, r.states[i - 1], r.steps[i - 1], tid, req, prev, id);
      if Swapped(r.states[i - 1].threads[tid], req, prev, id) {
        WriterLooked(p, r, i - 1, tid, req, prev, id);
        var k: nat, m: nat :| m < i - 1 && LooksThenSwaps(r, k, m, tid, req.uri, prev, id);
        assert m < i && LooksThenSwaps(r, k, m, tid, req.uri, prev, id);
      } else {
        CarriedWasServed(p, r, i - 1, tid, req, prev);
        var k: nat :| k < i - 1 && ChecksHead(r, k, tid, req.uri, prev);
        assert LooksThenSwaps(r, k, i - 1, tid, req.uri, prev, id);
      }
    }
  }

  /** What a writer that put content c says: the verdict compares c with what the writer saw. */
  function Announcement(cfg: Config, req: Request, prev: Option<Content>, c: Content): Event {
    Event(req.uri, Sha(c), Judged(cfg, FirstWord(req.PublishTo?), prev, c))
  }

  /** A publish always speaks, a merge when it brings other content than it saw, a rollback when its clear succeeded. */
  predicate Speaks(req: Request, prev: Option<Content>, c: Content, ok: bool) {
    match req
    case PublishTo(_, _, _, _, _) => true
    case MergeTo(_, _, _, _, _) => prev != Some(c)
    case PointBranch(_, _, _) => ok
  }

  /** The announcement step of any writer. */
  lemma {:induction false} Announcing(p: Params, s: State, th: Thread)
    requires th.Clean? && Act(p, s, th, Announce).Some?
    ensures th.id in s.tables.commits
    ensures var c, e := s.tables.commits[th.id].content, Act(p, s, th, Announce).value;
            && e.tables == s.tables && e.next.Done?
            && e.events == if Speaks(th.req, th.prev, c, th.ok) then s.events + [Announcement(p.cfg, th.req, th.prev, c)] else s.events
  {
  }

  /** No step from k up to m moves the HEAD of u. */
  ghost predicate HeadStill(r: Run, k: nat, m: nat, u: Uri) {
    forall j: nat :: k <= j < m ==> !MovesHead(r, j, u)
  }

  /** The announcement step is right about the swap: it says something exactly when the swap changed what is served. */
  ghost predicate RightlyAnnounced(es: seq<Event>, es': seq<Event>, before: Option<Content>, after: Option<Content>) {
    (es' == es) <==> (before == after)
  }

  lemma {:induction false} AnnouncedAt(p: Params, r: Run, i: nat, tid: Tid)
    requires IsRun(p, r) && i < |r.steps| && r.steps[i] == By(tid, Announce)
    requires tid in r.states[i].threads && r.states[i].threads[tid].Clean?
    ensures var s, th, es' := r.states[i], r.states[i].threads[tid], r.states[i + 1].events;
            && th.id in s.tables.commits
            && var c := s.tables.commits[th.id].content;
               es' == if Speaks(th.req, th.prev, c, th.ok) then s.events + [Announcement(p.cfg, th.req, th.prev, c)] else s.events
  {
    assert StepAt(p, r, i);
    Announcing(p, r.states[i], r.states[i].threads[tid]);
  }

  /** When a writer announces: what it saw at step k, what it put at step m, and what it says. */
  lemma {:induction false} WriterSays(p: Params, r: Run, i: nat, tid: Tid, req: Request, prev: Option<Content>, id: CommitId)
      returns (k: nat, m: nat)
    requires IsRun(p, r) && i < |r.steps| && r.steps[i] == By(tid, Announce) && !req.PointBranch? && req.branch == MAIN
    requires tid in r.states[i].threads && r.states[i].threads[tid].Clean? && Swapped(r.states[i].threads[tid], req, prev, id)
    ensures m < i && LooksThenSwaps(r, k, m, tid, req.uri, prev, id)
    ensures var es, es', after := r.states[i].events, r.states[i + 1].events, Lookup(r.states[m + 1].tables.prompts, req.uri);
            && after.Some?
            && es' == if req.MergeTo? && prev == after then es else es + [Announcement(p.cfg, req, prev, after.value)]
    ensures HeadStill(r, k, m, req.uri) ==> prev == Lookup(r.states[m].tables.prompts, req.uri)
  {
    WriterLooked(p, r, i, tid, req, prev, id);
    k, m :| m < i && LooksThenSwaps(r, k, m, tid, req.uri, prev, id);
    AnnouncedAt(p, r, i, tid);
    CommitUnchanged(p, r, m + 1, i, id);
    if HeadStill(r, k, m, req.uri) {
      HeadUnmoved(p, r, k, m, req.uri);
    }
  }

  /**
   * A merge into main looks at the HEAD at some step k and swaps at some step m.
   * It is silent exactly when what it put equals what it saw, and otherwise names
   * what it put. So its event is right exactly when what it saw at k and what it
   * replaced at m are both, or neither, what it put: in particular when nothing
   * moved the HEAD in between, and then its verdict is that of the change it made.
   * This holds whatever happens before, after, and between swap and announcement.
   */
  lemma {:induction false} MergeEventIsExact(p: Params, r: Run, i: nat, tid: Tid, req: Request, prev: Option<Content>, id: CommitId)
      returns (k: nat, m: nat)
    requires IsRun(p, r) && i < |r.steps| && r.steps[i] == By(tid, Announce) && req.MergeTo? && req.branch == MAIN
    requires tid in r.states[i].threads && r.states[i].threads[tid].Clean? && Swapped(r.states[i].threads[tid], req, prev, id)
    ensures m < i && LooksThenSwaps(r, k, m, tid, req.uri, prev, id)
    ensures var es, es' := r.states[i].events, r.states[i + 1].events;
            var before, after := Lookup(r.states[m].tables.prompts, req.uri), Lookup(r.states[m + 1].tables.prompts, req.uri);
            && (es' == es <==> prev == after)
            && (es' != es ==> after.Some? && es' == es + [Event(req.uri, Sha(after.value), Judged(p.cfg, "", prev, after.value))])
            && (RightlyAnnounced(es, es', before, after) <==> ((prev == after) <==> (before == after)))
            && (HeadStill(r, k, m, req.uri) ==> prev == before && RightlyAnnounced(es, es', before, after))
  {
    k, m := WriterSays(p, r, i, tid, req, prev, id);
  }

  /**
   * A publish to main announces exactly one event, naming what it put; the verdict
   * compares that with what it saw at step k, and is "new" exactly when it saw
   * nothing. So "new" is right about the swap at step m exactly when what it saw
   * and what it replaced are both, or neither, nothing. When nothing moved the HEAD
   * between k and m, the whole event is that of the change it made.
   */
  lemma {:induction false} PublishEventIsExact(p: Params, r: Run, i: nat, tid: Tid, req: Request, prev: Option<Content>, id: CommitId)
      returns (k: nat, m: nat)
    requires IsRun(p, r) && i < |r.steps| && r.steps[i] == By(tid, Announce) && req.PublishTo? && req.branch == MAIN
    requires tid in r.states[i].threads && r.states[i].threads[tid].Clean? && Swapped(r.states[i].threads[tid], req, prev, id)
    requires VerdictsAreNotNew(p.cfg)
    ensures m < i && LooksThenSwaps(r, k, m, tid, req.uri, prev, id)
    ensures var es, es' := r.states[i].events, r.states[i + 1].events;
            var before, after := Lookup(r.states[m].tables.prompts, req.uri), Lookup(r.states[m + 1].tables.prompts, req.uri);
            && after.Some?
            && es' == es + [Event(req.uri, Sha(after.value), Judged(p.cfg, "new", prev, after.value))]
            && (es'[|es|].verdict == "new" <==> prev.None?)
            && ((es'[|es|].verdict == "new" <==> before.None?) <==> (prev.None? <==> before.None?))
            && (HeadStill(r, k, m, req.uri) ==> es'[|es|] == Event(req.uri, Sha(after.value), Judged(p.cfg, "new", before, after.value)))
  {
    k, m := WriterSays(p, r, i, tid, req, prev, id);
  }

  lemma {:induction false} CommitUnchanged(p: Params, r: Run, i: nat, j: nat, id: CommitId)
    requires IsRun(p, r) && i <= j <= |r.steps| && id in r.states[i].tables.commits
    ensures id in r.states[j].tables.commits && r.states[j].tables.commits[id] == r.states[i].tables.commits[id]
  {
    StoreGrows(p, r, i, j);
  }
}
