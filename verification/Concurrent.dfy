/**
 * The same server taken apart into small steps, any number of requests at once.
 * A read is: look in the cache, read the store, put and answer. A write is: read
 * what is served, read the branch tip, compare-and-swap, clear the cache, notify.
 * Any step of any request may come next; stores and clears may fail; time passes.
 */
module Concurrent {
  import opened Basics
  import opened Store
  import opened Cache
  import opened ServerModel

  /** wait bounds the time a GetPrompt takes from its store read to its answer. */
  datatype Params = Params(cfg: Config, wait: nat)

  /** A write that passed authorization and validation; the branch is spelled out. */
  datatype Request =
    | PublishTo(uri: Uri, branch: Branch, content: Content, author: string, message: string)
    | MergeTo(uri: Uri, branch: Branch, from: Branch, author: string, message: string)
    | PointBranch(uri: Uri, branch: Branch, commit: CommitId)

  datatype Outcome = Succeeded(id: Option<CommitId>) | Conflicted | NotClearedYet | Refused

  datatype Thread =
    // a read
    | Reading(uri: Uri)
    | Holding(uri: Uri, content: Content, at: int)
    | Answered(uri: Uri, resp: Response)
    | Unanswered(uri: Uri)
    // a write
    | Started(req: Request)
    | Checked(req: Request, prev: Option<Content>)
    | TipRead(req: Request, prev: Option<Content>, expected: Option<CommitId>, theirs: Option<CommitId>)
    | Committed(req: Request, prev: Option<Content>, id: CommitId)
    | Clean(req: Request, prev: Option<Content>, id: CommitId, ok: bool)
    | Reclearing(req: Request)
    | Done(req: Request, outcome: Outcome)

  type Tid = nat

  datatype State = State(tables: Tables, cache: Entries, events: seq<Event>, now: int, threads: map<Tid, Thread>)

  /** One step of one request. */
  datatype Action = HitCache | LoadStore | PutAndAnswer(lost: bool)
                  | Check | ReadTip | Advance(stamp: Stamp) | Conflict | Point | FailStore | Clear(fault: Clearing) | Announce

  datatype Label = Tick(dt: nat)
                 | NewBranch(uri: Uri, name: Branch, from: Branch)
                 | Spawn(tid: Tid, thread: Thread)
                 | By(tid: Tid, action: Action)

  /** What a step leaves of the shared state, and where the request goes next. */
  datatype Effect = Effect(tables: Tables, cache: Entries, events: seq<Event>, next: Thread)

  function Stay(s: State, next: Thread): Option<Effect> {
    Some(Effect(s.tables, s.cache, s.events, next))
  }

  function ReadStep(p: Params, s: State, th: Thread, a: Action): Option<Effect> {
    match (th, a)
    case (Reading(u), HitCache) =>
      (match Hit(s.cache, u, s.now, false)
       case Some(resp) => Stay(s, Answered(u, resp))
       case None => None)
    case (Reading(u), LoadStore) =>
      if u in s.tables.prompts then Stay(s, Holding(u, s.tables.prompts[u], s.now)) else Stay(s, Unanswered(u))
    case (Holding(u, c, at), PutAndAnswer(lost)) =>
      if s.now > at + p.wait then None
      else if !p.cfg.valid(u, c) then Stay(s, Unanswered(u))
      else Some(Effect(s.tables, Stored(s.cache, u, HeadResponse(u, c), s.now + p.cfg.ttl, lost), s.events, Answered(u, HeadResponse(u, c))))
    case _ => None
  }

  /** Before the commit: the idempotence checks and the reading of the tip. */
  function PrepareStep(s: State, th: Thread, a: Action): Option<Effect> {
    match (th, a)
    case (Started(req), Check) =>
      var served := if req.branch == MAIN then Lookup(s.tables.prompts, req.uri) else None;
      if req.PublishTo? && req.branch == MAIN && served == Some(req.content) then Stay(s, Reclearing(req))
      else if req.PublishTo? && req.branch != MAIN && s.tables.Resolve(req.uri, req.branch).Some?
              && s.tables.Resolve(req.uri, req.branch).value.content == req.content then Stay(s, Done(req, Succeeded(None)))
      else Stay(s, Checked(req, served))
    case (Checked(req, prev), ReadTip) =>
      var tip := s.tables.Tip(req.uri, req.branch);
      (match req
       case PublishTo(_, _, _, _, _) => Stay(s, TipRead(req, prev, tip, None))
       case MergeTo(_, _, from, _, _) =>
         var theirs := s.tables.Tip(req.uri, from);
         if tip.Some? && theirs.Some? then Stay(s, TipRead(req, prev, tip, theirs)) else Stay(s, Done(req, Refused))
       case PointBranch(_, _, _) => None)
    case (Checked(req, _), FailStore) => Stay(s, Done(req, Refused))
    case (TipRead(req, _, _, _), FailStore) => Stay(s, Done(req, Refused))
    case _ => None
  }

  /** The row a publish or merge means to write on the tip it read. */
  function NewRow(t: Tables, th: Thread, stamp: Stamp): Option<Commit>
    requires th.TipRead?
  {
    match th.req
    case PublishTo(u, _, c, author, message) => Some(Tables.NewCommit(u, c, th.expected, author, message, stamp))
    case MergeTo(u, _, _, author, message) =>
      if th.expected.Some? && th.theirs.Some? && th.theirs.value in t.commits then
        Some(t.MergeCommit(u, th.expected.value, th.theirs.value, author, message, stamp))
      else None
    case PointBranch(_, _, _) => None
  }

  /** Only main has a cache entry and subscribers to look after. */
  function AfterMove(s: State, t: Tables, req: Request, prev: Option<Content>, id: CommitId, outcome: Outcome): Option<Effect> {
    Some(Effect(t, s.cache, s.events, if req.branch == MAIN then Committed(req, prev, id) else Done(req, outcome)))
  }

  ghost function CommitStep(s: State, th: Thread, a: Action): Option<Effect> {
    match (th, a)
    case (TipRead(req, prev, expected, _), Advance(stamp)) =>
      if Fresh(s.tables, stamp) && NewRow(s.tables, th, stamp).Some? then
        match s.tables.CompareAndSwap(req.branch, expected, stamp.id, NewRow(s.tables, th, stamp).value)
        case Ok(t) => AfterMove(s, t, req, prev, stamp.id, Succeeded(Some(stamp.id)))
        case Err(_) => None
      else None
    case (TipRead(req, _, expected, _), Conflict) =>
      if s.tables.Tip(req.uri, req.branch) != expected then Stay(s, Done(req, Conflicted)) else None
    case (Checked(PointBranch(u, b, id), prev), Point) =>
      (match s.tables.PointTo(u, b, id)
       case Ok(t) => AfterMove(s, t, th.req, prev, id, Succeeded(None))
       case Err(_) => Stay(s, Done(th.req, Refused)))
    case _ => None
  }

  /** After the commit: clear the cache, then tell subscribers. */
  function SettleStep(p: Params, s: State, th: Thread, a: Action): Option<Effect> {
    match (th, a)
    case (Committed(req, prev, id), Clear(fault)) =>
      Some(Effect(s.tables, Dropped(s.cache, req.uri, fault), s.events, Clean(req, prev, id, fault.Cleared?)))
    case (Reclearing(req), Clear(fault)) =>
      Some(Effect(s.tables, Dropped(s.cache, req.uri, fault), s.events,
                  Done(req, if fault.Cleared? then Succeeded(None) else NotClearedYet)))
    case (Clean(req, prev, id, ok), Announce) =>
      if id !in s.tables.commits then None
      else
        var c := s.tables.commits[id].content;
        var oldT := if prev.Some? then prev.value.template else "";
        var verdict := if req.PublishTo? && prev.None? then "new" else Classify(p.cfg, oldT, c.template);
        var tell := match req case PublishTo(_, _, _, _, _) => true case MergeTo(_, _, _, _, _) => prev != Some(c) case PointBranch(_, _, _) => ok;
        Some(Effect(s.tables, s.cache, if tell then s.events + [Event(req.uri, Sha(c), verdict)] else s.events,
                    Done(req, if ok then Succeeded(if req.PointBranch? then None else Some(id)) else NotClearedYet)))
    case _ => None
  }

  ghost function Act(p: Params, s: State, th: Thread, a: Action): Option<Effect> {
    if a.HitCache? || a.LoadStore? || a.PutAndAnswer? then ReadStep(p, s, th, a)
    else if a.Check? || a.ReadTip? || a.FailStore? then PrepareStep(s, th, a)
    else if a.Advance? || a.Conflict? || a.Point? then CommitStep(s, th, a)
    else SettleStep(p, s, th, a)
  }

  ghost predicate Enabled(p: Params, s: State, l: Label) {
    match l
    case Tick(_) => true
    case NewBranch(u, name, from) => s.tables.NewBranch(u, name, from).Ok?
    case Spawn(tid, th) => tid !in s.threads && (th.Reading? || th.Started?)
    case By(tid, a) => tid in s.threads && Act(p, s, s.threads[tid], a).Some?
  }

  ghost function Apply(p: Params, s: State, l: Label): State
    requires Enabled(p, s, l)
  {
    match l
    case Tick(dt) => s.(now := s.now + dt)
    case NewBranch(u, name, from) => s.(tables := s.tables.NewBranch(u, name, from).value)
    case Spawn(tid, th) => s.(threads := s.threads[tid := th])
    case By(tid, a) =>
      var e := Act(p, s, s.threads[tid], a).value;
      State(e.tables, e.cache, e.events, s.now, s.threads[tid := e.next])
  }

  datatype Run = Run(states: seq<State>, steps: seq<Label>)

  ghost predicate StepAt(p: Params, r: Run, i: int) {
    && 0 <= i < |r.steps| && i + 1 < |r.states|
    && Enabled(p, r.states[i], r.steps[i]) && r.states[i + 1] == Apply(p, r.states[i], r.steps[i])
  }

  /** An interleaving: it starts with a consistent store, an empty cache and no requests. */
  ghost predicate IsRun(p: Params, r: Run) {
    && |r.states| == |r.steps| + 1
    && Inv(r.states[0].tables) && r.states[0].cache == map[] && r.states[0].threads == map[]
    && (forall i :: 0 <= i < |r.steps| ==> StepAt(p, r, i))
  }

  // ---- what the commit step does ----

  /** The branch a step moves, if any: a successful compare-and-swap, or a SetBranch. */
  ghost predicate Moves(s: State, l: Label, u: Uri, b: Branch) {
    && l.By? && l.tid in s.threads && (l.action.Advance? || l.action.Point?)
    && (s.threads[l.tid].TipRead? || s.threads[l.tid].Checked?)
    && s.threads[l.tid].req.uri == u && s.threads[l.tid].req.branch == b
  }

  /** The commit a compare-and-swap writes. */
  ghost predicate Commits(s: State, l: Label, u: Uri, b: Branch, id: CommitId) {
    Moves(s, l, u, b) && l.action.Advance? && l.action.stamp.id == id
  }

  /** The store changes only by a commit step or a new branch; every other step leaves it alone. */
  lemma {:induction false} TablesStep(p: Params, s: State, l: Label)
    requires Enabled(p, s, l)
    ensures var t, t' := s.tables, Apply(p, s, l).tables;
            || t' == t
            || (l.NewBranch? && t' == t.NewBranch(l.uri, l.name, l.from).value)
            || (l.By? && l.action.Advance? && s.threads[l.tid].TipRead? && NewRow(t, s.threads[l.tid], l.action.stamp).Some?
                && Fresh(t, l.action.stamp)
                && t.Tip(s.threads[l.tid].req.uri, s.threads[l.tid].req.branch) == s.threads[l.tid].expected
                && t' == t.Install(s.threads[l.tid].req.branch, l.action.stamp.id, NewRow(t, s.threads[l.tid], l.action.stamp).value))
            || (l.By? && l.action.Point? && s.threads[l.tid].Checked? && s.threads[l.tid].req.PointBranch?
                && Ok(t') == t.PointTo(s.threads[l.tid].req.uri, s.threads[l.tid].req.branch, s.threads[l.tid].req.commit))
  {
  }

  /** Branch tips a merge has read are commits of its own prompt. */
  ghost predicate TipsOk(s: State) {
    forall tid :: tid in s.threads ==> TheirsOk(s.tables, s.threads[tid])
  }

  ghost predicate TheirsOk(t: Tables, th: Thread) {
    th.TipRead? && th.theirs.Some? ==> th.theirs.value in t.commits && t.commits[th.theirs.value].uri == th.req.uri
  }

  lemma {:induction false} StepKeepsStore(p: Params, s: State, l: Label)
    requires Enabled(p, s, l) && Inv(s.tables) && TipsOk(s)
    ensures Keeps(s.tables, Apply(p, s, l).tables)
  {
    TablesStep(p, s, l);
    var t := s.tables;
    if Apply(p, s, l).tables != t {
      match l
      case NewBranch(u, name, from) => BranchKeeps(t, u, name, from);
      case By(tid, a) =>
        var th := s.threads[tid];
        assert TheirsOk(t, th);
        if a.Advance? {
          InstallKeeps(t, th.req.branch, a.stamp.id, NewRow(t, th, a.stamp).value);
        } else {
          PointKeeps(t, th.req.uri, th.req.branch, th.req.commit);
        }
    }
  }

  /** The tips a request goes on with were good before, or have just been read. */
  lemma {:induction false} NextTheirsOk(p: Params, s: State, th: Thread, a: Action)
    requires Act(p, s, th, a).Some? && RefsOk(s.tables) && TheirsOk(s.tables, th)
    ensures TheirsOk(s.tables, Act(p, s, th, a).value.next)
  {
  }

  lemma {:induction false} StepKeepsTips(p: Params, s: State, l: Label)
    requires Enabled(p, s, l) && Inv(s.tables) && TipsOk(s)
    ensures TipsOk(Apply(p, s, l))
  {
    StepKeepsStore(p, s, l);
    var s' := Apply(p, s, l);
    forall tid | tid in s'.threads ensures TheirsOk(s'.tables, s'.threads[tid]) {
      if tid in s.threads {
        assert TheirsOk(s.tables, s.threads[tid]);
        if l.By? && l.tid == tid {
          NextTheirsOk(p, s, s.threads[tid], l.action);
        }
      }
    }
  }

  /** In every interleaving, in every state, the store invariant holds. */
  lemma {:induction false} StoreInvariant(p: Params, r: Run, i: nat)
    requires IsRun(p, r) && i <= |r.steps|
    ensures Inv(r.states[i].tables) && TipsOk(r.states[i])
  {
    if i > 0 {
      StoreInvariant(p, r, i - 1);
      assert StepAt(p, r, i - 1);
      StepKeepsStore(p, r.states[i - 1], r.steps[i - 1]);
      StepKeepsTips(p, r.states[i - 1], r.steps[i - 1]);
    }
  }

  /** Nothing committed is ever lost or rewritten. */
  lemma {:induction false} StoreGrows(p: Params, r: Run, i: nat, j: nat)
    requires IsRun(p, r) && i <= j <= |r.steps|
    ensures Keeps(r.states[i].tables, r.states[j].tables)
    decreases j - i
  {
    StoreInvariant(p, r, i);
    if i < j {
      StoreGrows(p, r, i, j - 1);
      StoreInvariant(p, r, j - 1);
      assert StepAt(p, r, j - 1);
      StepKeepsStore(p, r.states[j - 1], r.steps[j - 1]);
      KeepsTransitive(r.states[i].tables, r.states[j - 1].tables, r.states[j].tables);
    }
  }
}
