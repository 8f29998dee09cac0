/**
 * Tenant isolation: who may do anything at all, and that nothing done to other
 * prompts can be seen through the replies, the store, the cache or the events of
 * one's own.
 */
module Tenancy {
  import opened Basics
  import opened Auth
  import opened Store
  import opened Cache
  import opened ServerModel
  import opened ServerRuns
  import opened ServerReaders

  // ---- permission ----

  /** Out of the caller's org, or a write by a reader. */
  predicate Denied(call: Call) {
    call.caller.Identity? &&
    ((call.caller.org != "" && call.caller.org != OrgOf(call.op.uri)) || (!call.op.Get? && !call.caller.write))
  }

  /** A call is denied exactly when its caller lacks the org or the write grant, and then it changes nothing. */
  lemma {:induction false} DeniedChangesNothing(cfg: Config, w: World, call: Call)
    ensures Step(cfg, w, call).1 == Failed(PermissionDenied) <==> Denied(call)
    ensures Denied(call) ==> Step(cfg, w, call).0 == w
  {
    match call.op
    case Publish(_, _, _, _, _) =>
    case Get(_, _) =>
    case Merge(_, _, _, _, _) =>
    case SetBranch(_, _, _) =>
    case CreateBranch(_, _, _) =>
  }

  // ---- one prompt in two worlds ----

  /** Everything about u is the same: what is served and cached, its branches, its commits, its events. */
  ghost predicate SameAt(w: World, x: World, u: Uri) {
    && Lookup(w.tables.prompts, u) == Lookup(x.tables.prompts, u)
    && Lookup(w.cache, u) == Lookup(x.cache, u)
    && (forall b: Branch :: w.tables.Tip(u, b) == x.tables.Tip(u, b))
    && (forall id: CommitId :: OwnCommit(w.tables, u, id) == OwnCommit(x.tables, u, id))
    && EventsOf(w.events, u) == EventsOf(x.events, u)
  }

  /** The commit of that hash, if it is one of u's. */
  function OwnCommit(t: Tables, u: Uri, id: CommitId): Option<Commit> {
    if id in t.commits && t.commits[id].uri == u then Some(t.commits[id]) else None
  }

  lemma {:induction false} SameIsTransitive(w: World, x: World, y: World, u: Uri)
    requires SameAt(w, x, u) && SameAt(x, y, u)
    ensures SameAt(w, y, u)
  {
  }

  // ---- calls on other prompts ----

  /** What the store transaction of a call on another prompt leaves alone. */
  lemma {:induction false} TransactionElsewhere(t: Tables, t': Tables, caller: Caller, op: Op, v: Uri)
    requires OneTransaction(t, t', caller, op) && op.uri != v && ((op.Publish? || op.Merge?) ==> op.stamp.id !in t.commits)
    ensures Lookup(t.prompts, v) == Lookup(t'.prompts, v)
    ensures forall b: Branch :: t.Tip(v, b) == t'.Tip(v, b)
    ensures forall id: CommitId :: OwnCommit(t, v, id) == OwnCommit(t', v, id)
  {
  }

  lemma {:induction false} CacheElsewhere(cfg: Config, w: World, call: Call, v: Uri)
    requires call.op.uri != v
    ensures Lookup(w.cache, v) == Lookup(Step(cfg, w, call).0.cache, v)
  {
    match call.op
    case Publish(_, _, _, _, _) =>
    case Get(_, _) =>
    case Merge(_, _, _, _, _) =>
    case SetBranch(_, _, _) =>
    case CreateBranch(_, _, _) =>
  }

  lemma {:induction false} EventsElsewhere(cfg: Config, w: World, call: Call, v: Uri)
    requires call.op.uri != v
    ensures EventsOf(w.events, v) == EventsOf(Step(cfg, w, call).0.events, v)
  {
    EventStep(cfg, map[], w, call, v);
    var w' := Step(cfg, w, call).0;
    if w'.events != w.events {
      assert w'.events[..|w'.events| - 1] == w.events;
    }
  }

  /** A call on one prompt leaves every other as it was. */
  lemma {:induction false} StepElsewhere(cfg: Config, w: World, call: Call, v: Uri)
    requires Legal(w, call) && call.op.uri != v
    ensures SameAt(w, Step(cfg, w, call).0, v)
  {
    StepIsOneTransaction(cfg, w, call);
    TransactionElsewhere(w.tables, Step(cfg, w, call).0.tables, call.caller, call.op, v);
    CacheElsewhere(cfg, w, call, v);
    EventsElsewhere(cfg, w, call, v);
  }

  // ---- the same call in two worlds that agree on its prompt ----

  lemma {:induction false} SameResolve(w: World, x: World, u: Uri, ref: string)
    requires RefsOk(w.tables) && RefsOk(x.tables) && SameAt(w, x, u)
    ensures w.tables.Resolve(u, ref) == x.tables.Resolve(u, ref)
  {
    assert w.tables.Tip(u, ref) == x.tables.Tip(u, ref);
    assert OwnCommit(w.tables, u, ref) == OwnCommit(x.tables, u, ref);
    if w.tables.Tip(u, ref).Some? {
      var id := w.tables.Tip(u, ref).value;
      assert w.tables.refs[(u, ref)] == id && x.tables.refs[(u, ref)] == id;
      assert OwnCommit(w.tables, u, id) == OwnCommit(x.tables, u, id);
    }
  }

  /** Both worlds answer alike and still agree. */
  ghost predicate Alike(a: (World, Reply), b: (World, Reply), u: Uri) {
    a.1 == b.1 && SameAt(a.0, b.0, u)
  }

  lemma {:induction false} SameInstall(w: World, x: World, u: Uri, branch: Branch, id: CommitId, c: Commit)
    requires SameAt(w, x, u) && c.uri == u
    ensures SameAt(w.(tables := w.tables.Install(branch, id, c)), x.(tables := x.tables.Install(branch, id, c)), u)
  {
    var w', x' := w.(tables := w.tables.Install(branch, id, c)), x.(tables := x.tables.Install(branch, id, c));
    forall b: Branch ensures w'.tables.Tip(u, b) == x'.tables.Tip(u, b) {
      assert w.tables.Tip(u, b) == x.tables.Tip(u, b);
    }
    forall i: CommitId ensures OwnCommit(w'.tables, u, i) == OwnCommit(x'.tables, u, i) {
      assert OwnCommit(w.tables, u, i) == OwnCommit(x.tables, u, i);
    }
  }

  lemma {:induction false} SameInvalidate(cfg: Config, w: World, x: World, u: Uri, fault: Clearing)
    requires SameAt(w, x, u)
    ensures SameAt(Invalidate(cfg, w, u, fault).0, Invalidate(cfg, x, u, fault).0, u)
    ensures Invalidate(cfg, w, u, fault).1 == Invalidate(cfg, x, u, fault).1
  {
  }

  lemma {:induction false} SameNotify(cfg: Config, w: World, x: World, u: Uri, e: Event)
    requires SameAt(w, x, u)
    ensures SameAt(Notify(cfg, w, e), Notify(cfg, x, e), u)
  {
    assert (w.events + [e])[..|w.events|] == w.events && (x.events + [e])[..|x.events|] == x.events;
  }

  lemma {:induction false} GetAlike(cfg: Config, w: World, x: World, caller: Caller, u: Uri, ref: string, now: int, f: Faults)
    requires RefsOk(w.tables) && RefsOk(x.tables) && SameAt(w, x, u)
    ensures Alike(GetRpc(cfg, w, caller, u, ref, now, f), GetRpc(cfg, x, caller, u, ref, now, f), u)
  {
    SameResolve(w, x, u, ref);
    assert w.tables.Tip(u, ref) == x.tables.Tip(u, ref);
  }

  /** Clearing, and then perhaps notifying. */
  lemma {:induction false} SameSettle(cfg: Config, w: World, x: World, u: Uri, fault: Clearing, e: Event)
    requires SameAt(w, x, u)
    ensures Invalidate(cfg, w, u, fault).1 == Invalidate(cfg, x, u, fault).1
    ensures SameAt(Invalidate(cfg, w, u, fault).0, Invalidate(cfg, x, u, fault).0, u)
    ensures SameAt(Notify(cfg, Invalidate(cfg, w, u, fault).0, e), Notify(cfg, Invalidate(cfg, x, u, fault).0, e), u)
  {
    SameInvalidate(cfg, w, x, u, fault);
    SameNotify(cfg, Invalidate(cfg, w, u, fault).0, Invalidate(cfg, x, u, fault).0, u, e);
  }

  /** The publish reaches its transaction. */
  predicate Commits(cfg: Config, w: World, caller: Caller, u: Uri, content: Content, b: Branch, f: Faults) {
    && Authorized(caller, u) && MayWrite(caller) && cfg.valid(u, content) && f.store.None?
    && if b == MAIN then Lookup(w.tables.prompts, u) != Some(content)
       else !(w.tables.Resolve(u, b).Some? && w.tables.Resolve(u, b).value.content == content)
  }

  lemma {:induction false} CommitAlike(cfg: Config, w: World, x: World, caller: Caller, u: Uri, content: Content, branch: Branch,
                                       message: string, stamp: Stamp, f: Faults)
    requires RefsOk(w.tables) && RefsOk(x.tables) && SameAt(w, x, u)
    requires Commits(cfg, w, caller, u, content, BranchOr(branch), f) && Commits(cfg, x, caller, u, content, BranchOr(branch), f)
    ensures Alike(PublishRpc(cfg, w, caller, u, content, branch, message, stamp, f),
                  PublishRpc(cfg, x, caller, u, content, branch, message, stamp, f), u)
  {
    var b := BranchOr(branch);
    assert w.tables.Tip(u, b) == x.tables.Tip(u, b);
    var row := Tables.NewCommit(u, content, w.tables.Tip(u, b), ScopeOf(caller), message, stamp);
    SameInstall(w, x, u, b, stamp.id, row);
    var w1, x1 := w.(tables := w.tables.Install(b, stamp.id, row)), x.(tables := x.tables.Install(b, stamp.id, row));
    var prev := Lookup(w.tables.prompts, u);
    var verdict := if prev.Some? then Classify(cfg, prev.value.template, content.template) else "new";
    SameSettle(cfg, w1, x1, u, f.clear, Event(u, Sha(content), verdict));
  }

  lemma {:induction false} NoCommitAlike(cfg: Config, w: World, x: World, caller: Caller, u: Uri, content: Content, branch: Branch,
                                         message: string, stamp: Stamp, f: Faults)
    requires SameAt(w, x, u) && w.tables.Resolve(u, BranchOr(branch)) == x.tables.Resolve(u, BranchOr(branch))
    requires !Commits(cfg, w, caller, u, content, BranchOr(branch), f)
    ensures Alike(PublishRpc(cfg, w, caller, u, content, branch, message, stamp, f),
                  PublishRpc(cfg, x, caller, u, content, branch, message, stamp, f), u)
  {
    SameInvalidate(cfg, w, x, u, f.clear);
  }

  lemma {:induction false} PublishAlike(cfg: Config, w: World, x: World, caller: Caller, u: Uri, content: Content, branch: Branch,
                                        message: string, stamp: Stamp, f: Faults)
    requires RefsOk(w.tables) && RefsOk(x.tables) && SameAt(w, x, u)
    ensures Alike(PublishRpc(cfg, w, caller, u, content, branch, message, stamp, f),
                  PublishRpc(cfg, x, caller, u, content, branch, message, stamp, f), u)
  {
    SameResolve(w, x, u, BranchOr(branch));
    if Commits(cfg, w, caller, u, content, BranchOr(branch), f) {
      CommitAlike(cfg, w, x, caller, u, content, branch, message, stamp, f);
    } else {
      NoCommitAlike(cfg, w, x, caller, u, content, branch, message, stamp, f);
    }
  }

  /** A merge writes the same row in both worlds, or fails in both. */
  lemma {:induction false} SameMerge(w: World, x: World, u: Uri, into: Branch, from: Branch, author: string, message: string, stamp: Stamp)
    requires RefsOk(w.tables) && RefsOk(x.tables) && SameAt(w, x, u)
    ensures match (w.tables.MergeInto(u, into, from, author, message, stamp), x.tables.MergeInto(u, into, from, author, message, stamp))
            case (Ok(t), Ok(s)) => && stamp.id in t.commits && stamp.id in s.commits && t.commits[stamp.id] == s.commits[stamp.id]
                                   && SameAt(w.(tables := t), x.(tables := s), u)
            case (Err(e), Err(e')) => e == e'
            case _ => false
  {
    assert w.tables.Tip(u, into) == x.tables.Tip(u, into) && w.tables.Tip(u, from) == x.tables.Tip(u, from);
    if w.tables.Tip(u, into).Some? && w.tables.Tip(u, from).Some? {
      var ours, theirs := w.tables.Tip(u, into).value, w.tables.Tip(u, from).value;
      assert w.tables.refs[(u, from)] == theirs && x.tables.refs[(u, from)] == theirs;
      assert OwnCommit(w.tables, u, theirs) == OwnCommit(x.tables, u, theirs);
      SameInstall(w, x, u, into, stamp.id, w.tables.MergeCommit(u, ours, theirs, author, message, stamp));
    }
  }

  lemma {:induction false} MainMergeAlike(cfg: Config, w: World, x: World, caller: Caller, u: Uri, into: Branch, from: Branch,
                                          message: string, stamp: Stamp, f: Faults, t: Tables, s: Tables)
    requires SameAt(w, x, u) && SameAt(w.(tables := t), x.(tables := s), u) && BranchOr(into) == MAIN
    requires Authorized(caller, u) && MayWrite(caller) && f.store.None?
    requires w.tables.MergeInto(u, BranchOr(into), from, ScopeOf(caller), message, stamp) == Ok(t)
    requires x.tables.MergeInto(u, BranchOr(into), from, ScopeOf(caller), message, stamp) == Ok(s)
    requires stamp.id in t.commits && stamp.id in s.commits && t.commits[stamp.id] == s.commits[stamp.id]
    ensures Alike(MergeRpc(cfg, w, caller, u, into, from, message, stamp, f),
                  MergeRpc(cfg, x, caller, u, into, from, message, stamp, f), u)
  {
    var prev, c := Lookup(w.tables.prompts, u), t.commits[stamp.id].content;
    var oldT := if prev.Some? then prev.value.template else "";
    SameSettle(cfg, w.(tables := t), x.(tables := s), u, f.clear, Event(u, Sha(c), Classify(cfg, oldT, c.template)));
  }

  lemma {:induction false} BranchMergeAlike(cfg: Config, w: World, x: World, caller: Caller, u: Uri, into: Branch, from: Branch,
                                            message: string, stamp: Stamp, f: Faults, t: Tables, s: Tables)
    requires SameAt(w, x, u) && SameAt(w.(tables := t), x.(tables := s), u) && BranchOr(into) != MAIN
    requires w.tables.MergeInto(u, BranchOr(into), from, ScopeOf(caller), message, stamp) == Ok(t)
    requires x.tables.MergeInto(u, BranchOr(into), from, ScopeOf(caller), message, stamp) == Ok(s)
    requires stamp.id in t.commits && stamp.id in s.commits && t.commits[stamp.id] == s.commits[stamp.id]
    ensures Alike(MergeRpc(cfg, w, caller, u, into, from, message, stamp, f),
                  MergeRpc(cfg, x, caller, u, into, from, message, stamp, f), u)
  {
  }

  lemma {:induction false} StoppedMergeAlike(cfg: Config, w: World, x: World, caller: Caller, u: Uri, into: Branch, from: Branch,
                                             message: string, stamp: Stamp, f: Faults)
    requires SameAt(w, x, u) && !(Authorized(caller, u) && MayWrite(caller) && f.store.None?)
    ensures Alike(MergeRpc(cfg, w, caller, u, into, from, message, stamp, f),
                  MergeRpc(cfg, x, caller, u, into, from, message, stamp, f), u)
  {
  }

  lemma {:induction false} RefusedMergeAlike(cfg: Config, w: World, x: World, caller: Caller, u: Uri, into: Branch, from: Branch,
                                             message: string, stamp: Stamp, f: Faults, e: StoreError)
    requires SameAt(w, x, u)
    requires w.tables.MergeInto(u, BranchOr(into), from, ScopeOf(caller), message, stamp) == Err(e)
    requires x.tables.MergeInto(u, BranchOr(into), from, ScopeOf(caller), message, stamp) == Err(e)
    ensures Alike(MergeRpc(cfg, w, caller, u, into, from, message, stamp, f),
                  MergeRpc(cfg, x, caller, u, into, from, message, stamp, f), u)
  {
  }

  lemma {:induction false} MergeAlike(cfg: Config, w: World, x: World, caller: Caller, u: Uri, into: Branch, from: Branch,
                                      message: string, stamp: Stamp, f: Faults)
    requires RefsOk(w.tables) && RefsOk(x.tables) && SameAt(w, x, u)
    ensures Alike(MergeRpc(cfg, w, caller, u, into, from, message, stamp, f),
                  MergeRpc(cfg, x, caller, u, into, from, message, stamp, f), u)
  {
    SameMerge(w, x, u, BranchOr(into), from, ScopeOf(caller), message, stamp);
    var a := w.tables.MergeInto(u, BranchOr(into), from, ScopeOf(caller), message, stamp);
    var b := x.tables.MergeInto(u, BranchOr(into), from, ScopeOf(caller), message, stamp);
    if !(Authorized(caller, u) && MayWrite(caller) && f.store.None?) {
      StoppedMergeAlike(cfg, w, x, caller, u, into, from, message, stamp, f);
    } else if a.Ok? {
      if BranchOr(into) == MAIN {
        MainMergeAlike(cfg, w, x, caller, u, into, from, message, stamp, f, a.value, b.value);
      } else {
        BranchMergeAlike(cfg, w, x, caller, u, into, from, message, stamp, f, a.value, b.value);
      }
    } else {
      RefusedMergeAlike(cfg, w, x, caller, u, into, from, message, stamp, f, a.error);
    }
  }

  lemma {:induction false} SamePoint(w: World, x: World, u: Uri, b: Branch, id: CommitId)
    requires SameAt(w, x, u)
    ensures match (w.tables.PointTo(u, b, id), x.tables.PointTo(u, b, id))
            case (Ok(t), Ok(s)) => && id in t.commits && id in s.commits && t.commits[id] == s.commits[id]
                                   && SameAt(w.(tables := t), x.(tables := s), u)
            case (Err(e), Err(e')) => e == e'
            case _ => false
  {
    assert OwnCommit(w.tables, u, id) == OwnCommit(x.tables, u, id);
    if w.tables.PointTo(u, b, id).Ok? {
      var t, s := w.tables.PointTo(u, b, id).value, x.tables.PointTo(u, b, id).value;
      forall c: Branch ensures t.Tip(u, c) == s.Tip(u, c) {
        assert w.tables.Tip(u, c) == x.tables.Tip(u, c);
      }
      forall i: CommitId ensures OwnCommit(t, u, i) == OwnCommit(s, u, i) {
        assert OwnCommit(w.tables, u, i) == OwnCommit(x.tables, u, i);
      }
    }
  }

  lemma {:induction false} SetBranchAlike(cfg: Config, w: World, x: World, caller: Caller, u: Uri, branch: Branch, commit: CommitId, f: Faults)
    requires SameAt(w, x, u)
    ensures Alike(SetBranchRpc(cfg, w, caller, u, branch, commit, f), SetBranchRpc(cfg, x, caller, u, branch, commit, f), u)
  {
    var b := BranchOr(branch);
    SamePoint(w, x, u, b, commit);
    if w.tables.PointTo(u, b, commit).Ok? {
      var w1, x1 := w.(tables := w.tables.PointTo(u, b, commit).value), x.(tables := x.tables.PointTo(u, b, commit).value);
      var c := w1.tables.commits[commit].content;
      var oldT := if u in w.tables.prompts then w.tables.prompts[u].template else "";
      SameSettle(cfg, w1, x1, u, f.clear, Event(u, Sha(c), Classify(cfg, oldT, c.template)));
    }
  }

  lemma {:induction false} CreateBranchAlike(w: World, x: World, caller: Caller, u: Uri, name: Branch, from: Branch, f: Faults)
    requires SameAt(w, x, u)
    ensures Alike(CreateBranchRpc(w, caller, u, name, from, f), CreateBranchRpc(x, caller, u, name, from, f), u)
  {
    var a, b := CreateBranchRpc(w, caller, u, name, from, f), CreateBranchRpc(x, caller, u, name, from, f);
    assert w.tables.Tip(u, name) == x.tables.Tip(u, name) && w.tables.Tip(u, BranchOr(from)) == x.tables.Tip(u, BranchOr(from));
    forall c: Branch ensures a.0.tables.Tip(u, c) == b.0.tables.Tip(u, c) {
      assert w.tables.Tip(u, c) == x.tables.Tip(u, c);
    }
    forall i: CommitId ensures OwnCommit(a.0.tables, u, i) == OwnCommit(b.0.tables, u, i) {
      assert OwnCommit(w.tables, u, i) == OwnCommit(x.tables, u, i);
    }
  }

  lemma {:induction false} StepAlike(cfg: Config, w: World, x: World, call: Call)
    requires RefsOk(w.tables) && RefsOk(x.tables) && SameAt(w, x, call.op.uri)
    ensures Alike(Step(cfg, w, call), Step(cfg, x, call), call.op.uri)
  {
    match call.op
    case Publish(u, content, branch, message, stamp) => PublishAlike(cfg, w, x, call.caller, u, content, branch, message, stamp, call.faults);
    case Get(u, ref) => GetAlike(cfg, w, x, call.caller, u, ref, call.now, call.faults);
    case Merge(u, into, from, message, stamp) => MergeAlike(cfg, w, x, call.caller, u, into, from, message, stamp, call.faults);
    case SetBranch(u, branch, commit) => SetBranchAlike(cfg, w, x, call.caller, u, branch, commit, call.faults);
    case CreateBranch(u, name, from) => CreateBranchAlike(w, x, call.caller, u, name, from, call.faults);
  }

  // ---- whole runs ----

  /** The prompts under one org. */
  predicate Owns(org: string, u: Uri) {
    OrgOf(u) == org
  }

  /** A call on the org's prompts by somebody allowed there. */
  predicate Own(org: string, call: Call) {
    Owns(org, call.op.uri) && !Denied(call)
  }

  function OwnCalls(org: string, calls: seq<Call>): seq<Call> {
    if calls == [] then []
    else if Own(org, calls[0]) then [calls[0]] + OwnCalls(org, calls[1..])
    else OwnCalls(org, calls[1..])
  }

  function OwnReplies(org: string, calls: seq<Call>, replies: seq<Reply>): seq<Reply>
    requires |replies| == |calls|
  {
    if calls == [] then []
    else if Own(org, calls[0]) then [replies[0]] + OwnReplies(org, calls[1..], replies[1..])
    else OwnReplies(org, calls[1..], replies[1..])
  }

  /** The worlds agree on all of the org's prompts; the small one has no commit the other lacks. */
  ghost predicate SameFor(org: string, w: World, x: World) {
    && (forall u :: Owns(org, u) ==> SameAt(w, x, u))
    && (forall id :: id in x.tables.commits ==> id in w.tables.commits && w.tables.commits[id] == x.tables.commits[id])
  }

  lemma {:induction false} ForeignCall(cfg: Config, org: string, w: World, x: World, call: Call)
    requires Inv(w.tables) && Legal(w, call) && SameFor(org, w, x) && !Own(org, call)
    ensures SameFor(org, Step(cfg, w, call).0, x)
  {
    var w' := Step(cfg, w, call).0;
    DeniedChangesNothing(cfg, w, call);
    StepKeepsInv(cfg, w, call);
    if !Denied(call) {
      forall u | Owns(org, u) ensures SameAt(w', x, u) {
        StepElsewhere(cfg, w, call, u);
      }
    }
  }

  lemma {:induction false} LegalInSmall(w: World, x: World, call: Call)
    requires Legal(w, call)
    requires forall id :: id in x.tables.commits ==> id in w.tables.commits && w.tables.commits[id] == x.tables.commits[id]
    ensures Legal(x, call)
  {
  }

  lemma {:induction false} OwnCall(cfg: Config, org: string, w: World, x: World, call: Call)
    requires Inv(w.tables) && Inv(x.tables) && Legal(w, call) && SameFor(org, w, x) && Own(org, call)
    ensures Step(cfg, w, call).1 == Step(cfg, x, call).1
    ensures SameFor(org, Step(cfg, w, call).0, Step(cfg, x, call).0)
  {
    var w', x' := Step(cfg, w, call).0, Step(cfg, x, call).0;
    LegalInSmall(w, x, call);
    StepAlike(cfg, w, x, call);
    forall u | Owns(org, u) ensures SameAt(w', x', u) {
      if u != call.op.uri {
        StepElsewhere(cfg, w, call, u);
        StepElsewhere(cfg, x, call, u);
      }
    }
    CommitsStayWithin(cfg, w, x, call);
  }

  /** The small store still holds nothing the other lacks. */
  lemma {:induction false} CommitsStayWithin(cfg: Config, w: World, x: World, call: Call)
    requires Inv(w.tables) && Inv(x.tables) && Legal(w, call) && Legal(x, call)
    requires SameAt(Step(cfg, w, call).0, Step(cfg, x, call).0, call.op.uri)
    requires forall id :: id in x.tables.commits ==> id in w.tables.commits && w.tables.commits[id] == x.tables.commits[id]
    ensures var t, s := Step(cfg, w, call).0.tables, Step(cfg, x, call).0.tables;
            forall id :: id in s.commits ==> id in t.commits && t.commits[id] == s.commits[id]
  {
    var w', x' := Step(cfg, w, call).0, Step(cfg, x, call).0;
    StepKeepsInv(cfg, w, call);
    StepIsOneTransaction(cfg, x, call);
    forall id | id in x'.tables.commits ensures id in w'.tables.commits && w'.tables.commits[id] == x'.tables.commits[id] {
      NewCommitsAreOwn(x.tables, x'.tables, call.caller, call.op, id);
      assert OwnCommit(w'.tables, call.op.uri, id) == OwnCommit(x'.tables, call.op.uri, id);
    }
  }

  lemma {:induction false} NewCommitsAreOwn(t: Tables, t': Tables, caller: Caller, op: Op, id: CommitId)
    requires OneTransaction(t, t', caller, op) && id in t'.commits
    ensures (id in t.commits && t.commits[id] == t'.commits[id]) || t'.commits[id].uri == op.uri
  {
  }

  /**
   * Tenant isolation: over any run of calls that do not overlap, with any faults,
   * the replies to an org's own calls, and everything there is to see of its
   * prompts afterwards, are those of a server that never received any other call.
   */
  lemma {:induction false} TenantIsolation(cfg: Config, org: string, w: World, x: World, calls: seq<Call>)
    requires Inv(w.tables) && Inv(x.tables) && LegalRun(cfg, w, calls) && SameFor(org, w, x)
    ensures |Replies(cfg, w, calls)| == |calls|
    ensures OwnReplies(org, calls, Replies(cfg, w, calls)) == Replies(cfg, x, OwnCalls(org, calls))
    ensures SameFor(org, Run(cfg, w, calls), Run(cfg, x, OwnCalls(org, calls)))
    decreases |calls|
  {
    if calls != [] {
      var call, w1 := calls[0], Step(cfg, w, calls[0]).0;
      StepKeepsInv(cfg, w, call);
      var rs := Replies(cfg, w, calls);
      assert rs[1..] == Replies(cfg, w1, calls[1..]);
      if Own(org, call) {
        OwnCall(cfg, org, w, x, call);
        LegalInSmall(w, x, call);
        StepKeepsInv(cfg, x, call);
        var own := OwnCalls(org, calls);
        assert own[0] == call && own[1..] == OwnCalls(org, calls[1..]);
        TenantIsolation(cfg, org, w1, Step(cfg, x, call).0, calls[1..]);
      } else {
        ForeignCall(cfg, org, w, x, call);
        TenantIsolation(cfg, org, w1, x, calls[1..]);
      }
    }
  }

  /** In particular from one and the same start: dropping every call but an org's own changes none of its replies. */
  lemma {:induction false} OthersAreInvisible(cfg: Config, org: string, w: World, calls: seq<Call>)
    requires Inv(w.tables) && LegalRun(cfg, w, calls)
    ensures |Replies(cfg, w, calls)| == |calls|
    ensures OwnReplies(org, calls, Replies(cfg, w, calls)) == Replies(cfg, w, OwnCalls(org, calls))
  {
    TenantIsolation(cfg, org, w, w, calls);
  }
}
