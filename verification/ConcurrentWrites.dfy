/** Writers racing for a branch: a publish that was reported done is never lost, and one that lost the race changed nothing. */
module ConcurrentWrites {
  import opened Basics
  import opened Store
  import opened Concurrent

  /** The commit is on the first-parent history of the branch. */
  ghost predicate OnBranch(t: Tables, u: Uri, b: Branch, id: CommitId)
    requires Inv(t)
  {
    (u, b) in t.refs && id in Chain(t.commits, t.refs[(u, b)])
  }

  /** A SetBranch step on the branch. */
  ghost predicate Repoints(s: State, l: Label, u: Uri, b: Branch) {
    Moves(s, l, u, b) && l.action.Point?
  }

  /** Every step but a SetBranch of that branch keeps what is on its history there. */
  lemma {:induction false} StepKeepsOnBranch(p: Params, s: State, l: Label, u: Uri, b: Branch, id: CommitId)
    requires Enabled(p, s, l) && Inv(s.tables) && TipsOk(s) && OnBranch(s.tables, u, b, id) && !Repoints(s, l, u, b)
    ensures Inv(Apply(p, s, l).tables) && OnBranch(Apply(p, s, l).tables, u, b, id)
  {
    StepKeepsStore(p, s, l);
    var t, t' := s.tables, Apply(p, s, l).tables;
    var tip := t.refs[(u, b)];
    ChainGrows(t.commits, t'.commits, tip);
    TablesStep(p, s, l);
    if t'.refs[(u, b)] != tip {
      var tip' := t'.refs[(u, b)];
      assert t'.commits[tip'].parent == Some(tip);
      assert Chain(t'.commits, tip') == [tip'] + Chain(t'.commits, tip);
    }
  }

  /** The compare-and-swap puts the new commit at the branch's tip. */
  lemma {:induction false} CommitIsOnBranch(p: Params, s: State, l: Label, u: Uri, b: Branch, id: CommitId)
    requires Enabled(p, s, l) && Inv(s.tables) && TipsOk(s) && Commits(s, l, u, b, id)
    ensures Inv(Apply(p, s, l).tables) && OnBranch(Apply(p, s, l).tables, u, b, id)
    ensures s.threads[l.tid].req.PublishTo? ==>
              id in Apply(p, s, l).tables.commits && Apply(p, s, l).tables.commits[id].content == s.threads[l.tid].req.content
  {
    StepKeepsStore(p, s, l);
    TablesStep(p, s, l);
    var t' := Apply(p, s, l).tables;
    assert t'.refs[(u, b)] == id;
    assert Chain(t'.commits, id)[0] == id;
  }

  /** Until a SetBranch moves the branch, what is on its history stays there. */
  lemma {:induction false} StaysOnBranch(p: Params, r: Run, k: nat, j: nat, u: Uri, b: Branch, id: CommitId)
    requires IsRun(p, r) && k <= j <= |r.steps| && Inv(r.states[k].tables) && OnBranch(r.states[k].tables, u, b, id)
    requires forall m :: k <= m < j ==> !Repoints(r.states[m], r.steps[m], u, b)
    ensures Inv(r.states[j].tables) && OnBranch(r.states[j].tables, u, b, id)
    decreases j
  {
    if k < j {
      StaysOnBranch(p, r, k, j - 1, u, b, id);
      StoreInvariant(p, r, j - 1);
      assert StepAt(p, r, j - 1);
      StepKeepsOnBranch(p, r.states[j - 1], r.steps[j - 1], u, b, id);
    }
  }

  lemma {:induction false} CommitAtStep(p: Params, r: Run, k: nat, u: Uri, b: Branch, id: CommitId)
    requires IsRun(p, r) && k < |r.steps| && Commits(r.states[k], r.steps[k], u, b, id)
    ensures Inv(r.states[k + 1].tables) && OnBranch(r.states[k + 1].tables, u, b, id)
  {
    StoreInvariant(p, r, k);
    assert StepAt(p, r, k);
    CommitIsOnBranch(p, r.states[k], r.steps[k], u, b, id);
  }

  /** From its commit on, until a SetBranch moves the branch, a commit stays on the branch's history. */
  lemma {:induction false} CommitStays(p: Params, r: Run, k: nat, j: nat, u: Uri, b: Branch, id: CommitId)
    requires IsRun(p, r) && k < j <= |r.steps| && Commits(r.states[k], r.steps[k], u, b, id)
    requires forall m :: k < m < j ==> !Repoints(r.states[m], r.steps[m], u, b)
    ensures Inv(r.states[j].tables) && OnBranch(r.states[j].tables, u, b, id)
  {
    CommitAtStep(p, r, k, u, b, id);
    StaysOnBranch(p, r, k + 1, j, u, b, id);
  }

  /** The request has committed id and is on its way out. */
  ghost predicate HasCommitted(th: Thread, req: Request, id: CommitId) {
    || (th.Committed? && th.req == req && th.id == id)
    || (th.Clean? && th.req == req && th.id == id)
    || th == Done(req, Succeeded(Some(id)))
  }

  /** A publish past its commit took a compare-and-swap step that wrote exactly that commit. */
  lemma {:induction false} CommittedByAdvance(p: Params, r: Run, i: nat, tid: Tid, req: Request, id: CommitId)
    requires IsRun(p, r) && i <= |r.steps| && tid in r.states[i].threads && HasCommitted(r.states[i].threads[tid], req, id)
    requires req.PublishTo?
    ensures exists k :: 0 <= k < i && r.steps[k].By? && r.steps[k].tid == tid
                        && Commits(r.states[k], r.steps[k], req.uri, req.branch, id) && r.states[k].threads[tid].req == req
  {
    if i > 0 {
      var s, l := r.states[i - 1], r.steps[i - 1];
      assert StepAt(p, r, i - 1);
      if tid in s.threads && HasCommitted(s.threads[tid], req, id) {
        CommittedByAdvance(p, r, i - 1, tid, req, id);
      } else {
        assert Commits(s, l, req.uri, req.branch, id);
      }
    }
  }

  /** The content committed at step k is in every later state, under the same hash. */
  lemma {:induction false} ContentStays(p: Params, r: Run, k: nat, j: nat, req: Request, id: CommitId)
    requires IsRun(p, r) && k < j <= |r.steps| && req.PublishTo?
    requires Commits(r.states[k], r.steps[k], req.uri, req.branch, id) && r.states[k].threads[r.steps[k].tid].req == req
    ensures id in r.states[j].tables.CommitsOf(req.uri) && r.states[j].tables.commits[id].content == req.content
  {
    var s, l := r.states[k], r.steps[k];
    assert StepAt(p, r, k);
    TablesStep(p, s, l);
    var row := NewRow(s.tables, s.threads[l.tid], l.action.stamp).value;
    assert Lookup(r.states[k + 1].tables.commits, id) == Some(row);
    StoreGrows(p, r, k + 1, j);
  }

  /**
   * No publish that reported success is lost: in every later state of every
   * interleaving its commit is in ListCommits with its content, and until a
   * SetBranch moves the branch it is on the branch's first-parent history.
   */
  lemma {:induction false} NoLostPublish(p: Params, r: Run, i: nat, j: nat, tid: Tid, req: Request, id: CommitId)
    requires IsRun(p, r) && i <= j <= |r.steps| && req.PublishTo?
    requires Lookup(r.states[i].threads, tid) == Some(Done(req, Succeeded(Some(id))))
    ensures Inv(r.states[j].tables)
    ensures id in r.states[j].tables.CommitsOf(req.uri) && r.states[j].tables.commits[id].content == req.content
    ensures exists k :: 0 <= k < i && Commits(r.states[k], r.steps[k], req.uri, req.branch, id)
              && ((forall m :: k < m < j ==> !Repoints(r.states[m], r.steps[m], req.uri, req.branch)) ==>
                    OnBranch(r.states[j].tables, req.uri, req.branch, id))
  {
    CommittedByAdvance(p, r, i, tid, req, id);
    var k :| 0 <= k < i && r.steps[k].By? && r.steps[k].tid == tid
             && Commits(r.states[k], r.steps[k], req.uri, req.branch, id) && r.states[k].threads[tid].req == req;
    StoreInvariant(p, r, j);
    ContentStays(p, r, k, j, req, id);
    if forall m :: k < m < j ==> !Repoints(r.states[m], r.steps[m], req.uri, req.branch) {
      CommitStays(p, r, k, j, req.uri, req.branch, id);
    }
  }

  // ---- publishes that report success by repetition ----

  /** The store already holds what the publish brings: served on main, or at the ref elsewhere. */
  predicate Repeats(t: Tables, req: Request)
    requires req.PublishTo?
  {
    if req.branch == MAIN then Lookup(t.prompts, req.uri) == Some(req.content)
    else t.Resolve(req.uri, req.branch).Some? && t.Resolve(req.uri, req.branch).value.content == req.content
  }

  /** At step k request tid found its content in the store. */
  ghost predicate FindsRepeat(r: Run, k: nat, tid: Tid, req: Request)
    requires req.PublishTo?
  {
    k < |r.steps| && k < |r.states| && r.steps[k] == By(tid, Check) && Repeats(r.states[k].tables, req)
  }

  ghost predicate Repeating(th: Thread, req: Request) {
    th == Reclearing(req) || th == Done(req, Succeeded(None))
  }

  lemma {:induction false} RepeatStep(p: Params, s: State, th: Thread, a: Action, req: Request)
    requires req.PublishTo? && Act(p, s, th, a).Some? && Repeating(Act(p, s, th, a).value.next, req)
    ensures Repeating(th, req) || (a == Check && Repeats(s.tables, req))
  {
  }

  /** A publish that reports success without a commit found its content when it looked. */
  lemma {:induction false} RepeatWasFound(p: Params, r: Run, i: nat, tid: Tid, req: Request)
    requires IsRun(p, r) && i <= |r.steps| && req.PublishTo?
    requires tid in r.states[i].threads && Repeating(r.states[i].threads[tid], req)
    ensures exists k: nat :: k < i && FindsRepeat(r, k, tid, req)
  {
    if i > 0 {
      var s, l := r.states[i - 1], r.steps[i - 1];
      assert StepAt(p, r, i - 1);
      if l.By? && l.tid == tid {
        RepeatStep(p, s, s.threads[tid], l.action, req);
      }
      if tid in s.threads && Repeating(s.threads[tid], req) {
        RepeatWasFound(p, r, i - 1, tid, req);
      } else {
        assert FindsRepeat(r, i - 1, tid, req);
      }
    }
  }

  /** The commit a ref names: the branch's tip, else the commit with that hash. */
  function Named(t: Tables, u: Uri, ref: string): Option<CommitId> {
    if (u, ref) in t.refs then Some(t.refs[(u, ref)])
    else if ref in t.commits && t.commits[ref].uri == u then Some(ref)
    else None
  }

  /** The commit found at step k is still listed at state j with the content, and on the branch's history unless a SetBranch moved it. */
  ghost predicate Survives(r: Run, k: nat, j: nat, req: Request, id: CommitId)
    requires req.PublishTo? && k < |r.states| && j < |r.states| && j <= |r.steps| && Inv(r.states[j].tables)
  {
    && id in r.states[j].tables.CommitsOf(req.uri) && r.states[j].tables.commits[id].content == req.content
    && ((req.uri, req.branch) in r.states[k].tables.refs
        && (forall m :: 0 <= k < m < j && m < |r.states| ==> !Repoints(r.states[m], r.steps[m], req.uri, req.branch)) ==>
          OnBranch(r.states[j].tables, req.uri, req.branch, id))
  }

  lemma {:induction false} FoundSurvives(p: Params, r: Run, k: nat, j: nat, tid: Tid, req: Request)
    requires IsRun(p, r) && k < j <= |r.steps| && req.PublishTo? && FindsRepeat(r, k, tid, req)
    ensures Inv(r.states[j].tables)
    ensures var held := Named(r.states[k].tables, req.uri, req.branch);
            if held.Some? then Survives(r, k, j, req, held.value)
            else req.branch == MAIN && !HasHistory(r.states[k].tables)
  {
    StoreInvariant(p, r, k);
    StoreInvariant(p, r, j);
    StoreGrows(p, r, k, j);
    var t := r.states[k].tables;
    if (req.uri, req.branch) in t.refs {
      var id := t.refs[(req.uri, req.branch)];
      assert Chain(t.commits, id)[0] == id;
      if forall m :: k < m < j ==> !Repoints(r.states[m], r.steps[m], req.uri, req.branch) {
        StaysOnBranch(p, r, k, j, req.uri, req.branch, id);
      }
    }
  }

  /**
   * A publish that reports success by repetition is not lost either: in every later
   * state the commit it found is in ListCommits with its content and, if it was a
   * branch's tip, on that branch's history until a SetBranch moves it. The only
   * publish with nothing to keep is one to a served prompt that has no history at
   * all, which no store that started with history can contain.
   */
  lemma {:induction false} NoLostRepeat(p: Params, r: Run, i: nat, j: nat, tid: Tid, req: Request)
    requires IsRun(p, r) && i <= j <= |r.steps| && req.PublishTo?
    requires Lookup(r.states[i].threads, tid) == Some(Done(req, Succeeded(None)))
    ensures Inv(r.states[j].tables)
    ensures exists k: nat :: k < i && FindsRepeat(r, k, tid, req)
              && var held := Named(r.states[k].tables, req.uri, req.branch);
                 && (held.Some? ==> Survives(r, k, j, req, held.value))
                 && (held.None? ==> req.branch == MAIN && !HasHistory(r.states[k].tables) && !HasHistory(r.states[0].tables))
  {
    RepeatWasFound(p, r, i, tid, req);
    var k: nat :| k < i && FindsRepeat(r, k, tid, req);
    FoundSurvives(p, r, k, j, tid, req);
    StoreGrows(p, r, 0, k);
  }

  // ---- writers that lose the race ----

  /** A request that has not committed: it is still preparing, or lost the race, or was refused. */
  ghost predicate Uncommitted(th: Thread) {
    th.Started? || th.Checked? || th.TipRead? || (th.Done? && (th.outcome.Conflicted? || th.outcome.Refused?))
  }

  lemma {:induction false} UncommittedStep(p: Params, s: State, th: Thread, a: Action)
    requires Act(p, s, th, a).Some? && Uncommitted(Act(p, s, th, a).value.next)
    ensures Uncommitted(th)
    ensures var e := Act(p, s, th, a).value; e.tables == s.tables && e.cache == s.cache && e.events == s.events
  {
  }

  /** A step that leaves its request uncommitted touched nothing, and found it uncommitted. */
  lemma {:induction false} QuietUntilCommit(p: Params, s: State, l: Label, tid: Tid)
    requires Enabled(p, s, l) && tid in s.threads
    requires Uncommitted(Apply(p, s, l).threads[tid])
    ensures Uncommitted(s.threads[tid])
    ensures l.By? && l.tid == tid ==>
              var s' := Apply(p, s, l); s'.tables == s.tables && s'.cache == s.cache && s'.events == s.events
  {
    if l.By? && l.tid == tid {
      UncommittedStep(p, s, s.threads[tid], l.action);
    }
  }

  /** A writer whose branch moved under it changes nothing: none of its steps touched the store, the cache or the log. */
  lemma {:induction false} LosersChangeNothing(p: Params, r: Run, i: nat, tid: Tid, k: nat)
    requires IsRun(p, r) && i <= |r.steps| && tid in r.states[i].threads && Uncommitted(r.states[i].threads[tid])
    requires k < i && r.steps[k].By? && r.steps[k].tid == tid
    ensures var s, s' := r.states[k], r.states[k + 1]; s'.tables == s.tables && s'.cache == s.cache && s'.events == s.events
    decreases i
  {
    var s, l := r.states[i - 1], r.steps[i - 1];
    assert StepAt(p, r, i - 1);
    if k < i - 1 {
      assert StepAt(p, r, k);
      StaysKnown(p, r, k + 1, i - 1, tid);
    }
    QuietUntilCommit(p, s, l, tid);
    if k < i - 1 {
      LosersChangeNothing(p, r, i - 1, tid, k);
    }
  }

  /** Once a request exists it stays in the table. */
  lemma {:induction false} StaysKnown(p: Params, r: Run, i: nat, j: nat, tid: Tid)
    requires IsRun(p, r) && i <= j <= |r.steps| && tid in r.states[i].threads
    ensures tid in r.states[j].threads
    decreases j
  {
    if i < j {
      StaysKnown(p, r, i, j - 1, tid);
      assert StepAt(p, r, j - 1);
    }
  }

  /** A writer is told "conflict" exactly when, at its compare-and-swap, the tip is not the one it read. */
  lemma {:induction false} ConflictIffMoved(p: Params, s: State, tid: Tid, stamp: Stamp)
    requires Lookup(s.threads, tid).Some? && s.threads[tid].TipRead? && Fresh(s.tables, stamp)
    requires NewRow(s.tables, s.threads[tid], stamp).Some?
    ensures var th := s.threads[tid]; var moved := s.tables.Tip(th.req.uri, th.req.branch) != th.expected;
            && (Enabled(p, s, By(tid, Action.Conflict)) <==> moved)
            && (Enabled(p, s, By(tid, Advance(stamp))) <==> !moved)
  {
  }

  /** A step that moves the tip of a branch: a swap or SetBranch, or the creation of the branch. */
  ghost predicate MovesTip(s: State, l: Label, u: Uri, b: Branch) {
    Moves(s, l, u, b) || (l.NewBranch? && l.uri == u && l.name == b)
  }

  lemma {:induction false} TipStep(p: Params, s: State, l: Label, u: Uri, b: Branch)
    requires Enabled(p, s, l) && !MovesTip(s, l, u, b)
    ensures Apply(p, s, l).tables.Tip(u, b) == s.tables.Tip(u, b)
  {
    TablesStep(p, s, l);
  }

  /** A tip that differs between two states was moved by a step in between. */
  lemma {:induction false} TipMoved(p: Params, r: Run, k: nat, m: nat, u: Uri, b: Branch)
    requires IsRun(p, r) && k <= m <= |r.steps| && r.states[k].tables.Tip(u, b) != r.states[m].tables.Tip(u, b)
    ensures exists j: nat :: k <= j < m && MovesTip(r.states[j], r.steps[j], u, b)
    decreases m
  {
    if k < m && !MovesTip(r.states[m - 1], r.steps[m - 1], u, b) {
      assert StepAt(p, r, m - 1);
      TipStep(p, r.states[m - 1], r.steps[m - 1], u, b);
      TipMoved(p, r, k, m - 1, u, b);
    }
  }

  /** At step k request tid read this tip of its branch. */
  ghost predicate ReadsTip(r: Run, k: nat, tid: Tid, req: Request, tip: Option<CommitId>) {
    k < |r.steps| && k < |r.states| && r.steps[k] == By(tid, ReadTip) && r.states[k].tables.Tip(req.uri, req.branch) == tip
  }

  lemma {:induction false} TipReadStep(p: Params, s: State, th: Thread, a: Action)
    requires Act(p, s, th, a).Some? && Act(p, s, th, a).value.next.TipRead?
    ensures var next := Act(p, s, th, a).value.next; a == ReadTip && s.tables.Tip(next.req.uri, next.req.branch) == next.expected
  {
  }

  lemma {:induction false} TipWasRead(p: Params, r: Run, i: nat, tid: Tid, th: Thread)
    requires IsRun(p, r) && i <= |r.steps| && Lookup(r.states[i].threads, tid) == Some(th) && th.TipRead?
    ensures exists k: nat :: k < i && ReadsTip(r, k, tid, th.req, th.expected)
  {
    if i > 0 {
      var s, l := r.states[i - 1], r.steps[i - 1];
      assert StepAt(p, r, i - 1);
      if l.By? && l.tid == tid {
        TipReadStep(p, s, s.threads[tid], l.action);
        assert ReadsTip(r, i - 1, tid, th.req, th.expected);
      } else {
        TipWasRead(p, r, i - 1, tid, th);
      }
    }
  }

  lemma {:induction false} ConflictStep(p: Params, s: State, th: Thread, a: Action, req: Request)
    requires Act(p, s, th, a).Some? && Act(p, s, th, a).value.next == Done(req, Conflicted)
    ensures a == Action.Conflict && th.TipRead? && th.req == req && s.tables.Tip(req.uri, req.branch) != th.expected
  {
  }

  /** Between its reading of the tip and its compare-and-swap, somebody else moved the branch. */
  ghost predicate LostRace(r: Run, k: nat, j: nat, m: nat, tid: Tid, req: Request) {
    && k < j < m < |r.steps| && m < |r.states|
    && r.steps[k] == By(tid, ReadTip) && r.steps[m] == By(tid, Action.Conflict)
    && MovesTip(r.states[j], r.steps[j], req.uri, req.branch) && !(r.steps[j].By? && r.steps[j].tid == tid)
  }

  lemma {:induction false} RaceWasLost(p: Params, r: Run, m: nat, tid: Tid, req: Request)
    requires IsRun(p, r) && m < |r.steps| && r.steps[m] == By(tid, Action.Conflict)
    requires tid in r.states[m].threads && r.states[m].threads[tid].TipRead? && r.states[m].threads[tid].req == req
    ensures exists k: nat, j: nat :: LostRace(r, k, j, m, tid, req)
  {
    var th := r.states[m].threads[tid];
    assert StepAt(p, r, m);
    ConflictMeansMoved(p, r.states[m], tid);
    TipWasRead(p, r, m, tid, th);
    var k: nat :| k < m && ReadsTip(r, k, tid, req, th.expected);
    TipMoved(p, r, k, m, req.uri, req.branch);
    var j: nat :| k <= j < m && MovesTip(r.states[j], r.steps[j], req.uri, req.branch);
    if r.steps[j].By? && r.steps[j].tid == tid {
      MoversAreDoneReading(p, r, j, m, tid);
    }
    assert j != k;
    assert LostRace(r, k, j, m, tid, req);
  }

  lemma {:induction false} ConflictMeansMoved(p: Params, s: State, tid: Tid)
    requires Enabled(p, s, By(tid, Action.Conflict))
    ensures s.threads[tid].TipRead? && s.tables.Tip(s.threads[tid].req.uri, s.threads[tid].req.branch) != s.threads[tid].expected
  {
  }

  lemma {:induction false} PastSwapStep(p: Params, s: State, th: Thread, a: Action)
    requires Act(p, s, th, a).Some?
    ensures (a.Advance? || a.Point?) && (th.TipRead? || th.Checked?) ==> PastSwap(Act(p, s, th, a).value.next)
    ensures PastSwap(th) ==> PastSwap(Act(p, s, th, a).value.next)
  {
  }

  ghost predicate PastSwap(th: Thread) {
    th.Committed? || th.Clean? || th.Done?
  }

  lemma {:induction false} PastSwapNow(p: Params, s: State, l: Label, tid: Tid)
    requires Enabled(p, s, l) && tid in s.threads
    requires PastSwap(s.threads[tid])
             || (l.By? && l.tid == tid && (l.action.Advance? || l.action.Point?) && (s.threads[tid].TipRead? || s.threads[tid].Checked?))
    ensures tid in Apply(p, s, l).threads && PastSwap(Apply(p, s, l).threads[tid])
  {
    if l.By? && l.tid == tid {
      PastSwapStep(p, s, s.threads[tid], l.action);
    }
  }

  /** A request that has moved a branch never reads a tip again. */
  lemma {:induction false} MoversAreDoneReading(p: Params, r: Run, j: nat, m: nat, tid: Tid)
    requires IsRun(p, r) && j < m <= |r.steps| && r.steps[j].By? && r.steps[j].tid == tid
    requires (r.steps[j].action.Advance? || r.steps[j].action.Point?)
             && tid in r.states[j].threads && (r.states[j].threads[tid].TipRead? || r.states[j].threads[tid].Checked?)
    ensures tid in r.states[m].threads && PastSwap(r.states[m].threads[tid])
    decreases m
  {
    if j < m - 1 {
      MoversAreDoneReading(p, r, j, m - 1, tid);
    }
    assert StepAt(p, r, m - 1);
    PastSwapNow(p, r.states[m - 1], r.steps[m - 1], tid);
  }

  lemma {:induction false} ConflictedCame(p: Params, r: Run, i: nat, tid: Tid, req: Request)
    requires IsRun(p, r) && i <= |r.steps| && Lookup(r.states[i].threads, tid) == Some(Done(req, Conflicted))
    ensures exists m: nat :: m < i && r.steps[m] == By(tid, Action.Conflict)
                             && tid in r.states[m].threads && r.states[m].threads[tid].TipRead? && r.states[m].threads[tid].req == req
  {
    if i > 0 {
      var s, l := r.states[i - 1], r.steps[i - 1];
      assert StepAt(p, r, i - 1);
      if l.By? && l.tid == tid {
        ConflictStep(p, s, s.threads[tid], l.action, req);
      } else {
        ConflictedCame(p, r, i - 1, tid, req);
      }
    }
  }

  /**
   * A writer is told ABORTED only when somebody else moved its branch between its
   * reading of the tip and its compare-and-swap; and then none of its own steps
   * touched the store, the cache or the log.
   */
  lemma {:induction false} AbortedLostRace(p: Params, r: Run, i: nat, tid: Tid, req: Request)
    requires IsRun(p, r) && i <= |r.steps| && Lookup(r.states[i].threads, tid) == Some(Done(req, Conflicted))
    ensures exists k: nat, j: nat, m: nat :: m < i && LostRace(r, k, j, m, tid, req)
    ensures forall q :: 0 <= q < i && r.steps[q].By? && r.steps[q].tid == tid ==>
              r.states[q + 1].tables == r.states[q].tables && r.states[q + 1].cache == r.states[q].cache && r.states[q + 1].events == r.states[q].events
  {
    ConflictedCame(p, r, i, tid, req);
    var m: nat :| m < i && r.steps[m] == By(tid, Action.Conflict)
                  && tid in r.states[m].threads && r.states[m].threads[tid].TipRead? && r.states[m].threads[tid].req == req;
    RaceWasLost(p, r, m, tid, req);
    forall q | 0 <= q < i && r.steps[q].By? && r.steps[q].tid == tid
      ensures r.states[q + 1].tables == r.states[q].tables && r.states[q + 1].cache == r.states[q].cache && r.states[q + 1].events == r.states[q].events
    {
      LosersChangeNothing(p, r, i, tid, q);
    }
  }

  // ---- announcements ----

  /** Step k is request tid's announcement. */
  ghost predicate Announces(r: Run, k: nat, tid: Tid) {
    k < |r.steps| && r.steps[k] == By(tid, Announce)
  }

  lemma {:induction false} DoneStops(p: Params, s: State, th: Thread, a: Action)
    requires th.Done?
    ensures Act(p, s, th, a).None?
  {
  }

  lemma {:induction false} AnnounceEnds(p: Params, s: State, th: Thread)
    requires Act(p, s, th, Announce).Some?
    ensures Act(p, s, th, Announce).value.next.Done?
  {
  }

  /** A finished request takes no further step. */
  lemma {:induction false} DoneStays(p: Params, s: State, l: Label, tid: Tid)
    requires Enabled(p, s, l) && tid in s.threads && s.threads[tid].Done?
    ensures !(l.By? && l.tid == tid)
    ensures Lookup(Apply(p, s, l).threads, tid) == Some(s.threads[tid])
  {
    if l.By? && l.tid == tid {
      DoneStops(p, s, s.threads[tid], l.action);
    }
  }

  /** A request that has announced is finished, and announces no second time. */
  lemma {:induction false} AnnouncedAtMostOnce(p: Params, r: Run, i: nat, tid: Tid, k: nat)
    requires IsRun(p, r) && k < i <= |r.steps| && Announces(r, k, tid)
    ensures tid in r.states[i].threads && r.states[i].threads[tid].Done?
    ensures forall m :: k < m < i ==> !Announces(r, m, tid)
    decreases i
  {
    var s, l := r.states[i - 1], r.steps[i - 1];
    assert StepAt(p, r, i - 1);
    if k < i - 1 {
      AnnouncedAtMostOnce(p, r, i - 1, tid, k);
      DoneStays(p, s, l, tid);
    } else {
      AnnounceEnds(p, s, s.threads[tid]);
    }
  }

  /** At step k, and at no other before i, request tid announces the content it published. */
  ghost predicate OnlyAnnouncement(r: Run, i: nat, k: nat, tid: Tid, req: Request)
    requires req.PublishTo?
  {
    && k < i && k + 1 < |r.states| && Announces(r, k, tid)
    && (forall m: nat :: m < i && m != k ==> !Announces(r, m, tid))
    && |r.states[k + 1].events| == |r.states[k].events| + 1
    && r.states[k + 1].events[|r.states[k].events|].uri == req.uri
    && r.states[k + 1].events[|r.states[k].events|].version == Sha(req.content)
  }

  /** Between its commit and its announcement. */
  ghost predicate OnItsWay(th: Thread, req: Request, id: CommitId) {
    (th.Committed? || th.Clean?) && th.req == req && th.id == id
  }

  /** A publish to main on its way clears, and then announces whether or not the clear succeeded. */
  lemma {:induction false} WayStep(p: Params, s: State, th: Thread, a: Action, req: Request, id: CommitId)
    requires req.PublishTo? && OnItsWay(th, req, id) && Act(p, s, th, a).Some? && id in s.tables.commits
    ensures var e := Act(p, s, th, a).value;
            if a.Announce? then
              && th.Clean? && e.next == Done(req, if th.ok then Succeeded(Some(id)) else NotClearedYet)
              && |e.events| == |s.events| + 1 && e.events[|s.events|].uri == req.uri
              && e.events[|s.events|].version == Sha(s.tables.commits[id].content)
            else OnItsWay(e.next, req, id)
  {
  }

  lemma {:induction false} WayGoesOn(p: Params, s: State, l: Label, tid: Tid, req: Request, id: CommitId)
    requires req.PublishTo? && Enabled(p, s, l) && tid in s.threads && OnItsWay(s.threads[tid], req, id) && id in s.tables.commits
    ensures var s' := Apply(p, s, l);
            && tid in s'.threads
            && if l == By(tid, Announce) then
                 && (s'.threads[tid] == Done(req, Succeeded(Some(id))) || s'.threads[tid] == Done(req, NotClearedYet))
                 && |s'.events| == |s.events| + 1 && s'.events[|s.events|].uri == req.uri
                 && s'.events[|s.events|].version == Sha(s.tables.commits[id].content)
               else OnItsWay(s'.threads[tid], req, id)
  {
    if l.By? && l.tid == tid {
      WayStep(p, s, s.threads[tid], l.action, req, id);
    }
  }

  lemma {:induction false} CommitStarts(p: Params, r: Run, h: nat, tid: Tid, req: Request, id: CommitId)
    requires IsRun(p, r) && h < |r.steps| && r.steps[h].By? && r.steps[h].tid == tid
    requires Commits(r.states[h], r.steps[h], req.uri, MAIN, id) && r.states[h].threads[tid].req == req && req.branch == MAIN
    ensures tid in r.states[h + 1].threads && OnItsWay(r.states[h + 1].threads[tid], req, id)
    ensures forall m: nat :: m <= h ==> !Announces(r, m, tid)
  {
    assert StepAt(p, r, h);
    forall m: nat | m < h ensures !Announces(r, m, tid) {
      if Announces(r, m, tid) {
        AnnouncedAtMostOnce(p, r, h, tid, m);
      }
    }
  }

  /** On its way with nothing announced, or finished with one announcement. */
  ghost predicate AnnouncedOrNotYet(r: Run, i: nat, tid: Tid, req: Request, id: CommitId)
    requires req.PublishTo? && i < |r.states|
  {
    && tid in r.states[i].threads
    && if OnItsWay(r.states[i].threads[tid], req, id) then forall m: nat :: m < i ==> !Announces(r, m, tid)
       else && (exists k: nat :: OnlyAnnouncement(r, i, k, tid, req))
            && (r.states[i].threads[tid] == Done(req, Succeeded(Some(id))) || r.states[i].threads[tid] == Done(req, NotClearedYet))
  }

  lemma {:induction false} AnnouncingStep(p: Params, r: Run, i: nat, tid: Tid, req: Request, id: CommitId)
    requires IsRun(p, r) && i < |r.steps| && req.PublishTo? && AnnouncedOrNotYet(r, i, tid, req, id)
    requires id in r.states[i].tables.commits && r.states[i].tables.commits[id].content == req.content
    ensures AnnouncedOrNotYet(r, i + 1, tid, req, id)
  {
    assert StepAt(p, r, i);
    if OnItsWay(r.states[i].threads[tid], req, id) {
      WayGoesOn(p, r.states[i], r.steps[i], tid, req, id);
      if r.steps[i] == By(tid, Announce) {
        assert OnlyAnnouncement(r, i + 1, i, tid, req);
      }
    } else {
      DoneStays(p, r.states[i], r.steps[i], tid);
      var k: nat :| OnlyAnnouncement(r, i, k, tid, req);
      assert OnlyAnnouncement(r, i + 1, k, tid, req);
    }
  }

  lemma {:induction false} AnnouncingGoesOn(p: Params, r: Run, h: nat, i: nat, tid: Tid, req: Request, id: CommitId)
    requires IsRun(p, r) && h < i < |r.steps| && req.PublishTo? && req.branch == MAIN && AnnouncedOrNotYet(r, i, tid, req, id)
    requires r.steps[h].By? && r.steps[h].tid == tid && Commits(r.states[h], r.steps[h], req.uri, MAIN, id) && r.states[h].threads[tid].req == req
    ensures AnnouncedOrNotYet(r, i + 1, tid, req, id)
  {
    ContentStays(p, r, h, i, req, id);
    AnnouncingStep(p, r, i, tid, req, id);
  }

  /**
   * A publish that has committed to main has announced nothing as long as it is on
   * its way, and announces its content exactly once before it finishes.
   */
  lemma {:induction false} CommittedAnnouncesOnce(p: Params, r: Run, h: nat, i: nat, tid: Tid, req: Request, id: CommitId)
    requires IsRun(p, r) && h < i <= |r.steps| && req.PublishTo? && req.branch == MAIN
    requires r.steps[h].By? && r.steps[h].tid == tid && Commits(r.states[h], r.steps[h], req.uri, MAIN, id) && r.states[h].threads[tid].req == req
    ensures AnnouncedOrNotYet(r, i, tid, req, id)
    decreases i
  {
    if h == i - 1 {
      CommitStarts(p, r, h, tid, req, id);
    } else {
      CommittedAnnouncesOnce(p, r, h, i - 1, tid, req, id);
      AnnouncingGoesOn(p, r, h, i - 1, tid, req, id);
    }
  }

  /**
   * A publish to main that has committed and finished has announced its content
   * exactly once, whether it reports success or that the cache was not cleared.
   */
  lemma {:induction false} FinishedAnnouncedOnce(p: Params, r: Run, h: nat, i: nat, tid: Tid, req: Request, id: CommitId)
    requires IsRun(p, r) && h < i <= |r.steps| && req.PublishTo? && req.branch == MAIN
    requires r.steps[h].By? && r.steps[h].tid == tid && Commits(r.states[h], r.steps[h], req.uri, MAIN, id) && r.states[h].threads[tid].req == req
    requires tid in r.states[i].threads && r.states[i].threads[tid].Done?
    ensures exists k: nat :: OnlyAnnouncement(r, i, k, tid, req)
    ensures r.states[i].threads[tid].outcome == Succeeded(Some(id)) || r.states[i].threads[tid].outcome == NotClearedYet
  {
    CommittedAnnouncesOnce(p, r, h, i, tid, req, id);
  }

  /** A publish to main that reported its commit has announced it exactly once, naming the content it published. */
  lemma {:induction false} PublishAnnouncedOnce(p: Params, r: Run, i: nat, tid: Tid, req: Request, id: CommitId)
    requires IsRun(p, r) && i <= |r.steps| && req.PublishTo? && req.branch == MAIN
    requires Lookup(r.states[i].threads, tid) == Some(Done(req, Succeeded(Some(id))))
    ensures exists k: nat :: OnlyAnnouncement(r, i, k, tid, req)
  {
    CommittedByAdvance(p, r, i, tid, req, id);
    var h :| 0 <= h < i && r.steps[h].By? && r.steps[h].tid == tid
             && Commits(r.states[h], r.steps[h], req.uri, req.branch, id) && r.states[h].threads[tid].req == req;
    FinishedAnnouncedOnce(p, r, h, i, tid, req, id);
  }
}
