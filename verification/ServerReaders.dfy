/** What readers see: retries that heal, caches that refine, branches that stay invisible, pins that never move. */
module ServerReaders {
  import opened Basics
  import opened Auth
  import opened Store
  import opened Cache
  import opened ServerModel
  import opened ServerRuns

  // ---- an OK means the next read sees it ----

  /** What a reader must get for a served prompt: it, or DataLoss when it is malformed. */
  function Serving(cfg: Config, t: Tables, u: Uri): Reply
    requires u in t.prompts
  {
    if cfg.valid(u, t.prompts[u]) then Prompt(HeadResponse(u, t.prompts[u])) else Failed(DataLoss)
  }

  /** A write on main that reports success has cleared the cache, and its prompt is served. */
  lemma {:induction false} OkClears(cfg: Config, w: World, call: Call)
    requires OnMain(call.op) && !Step(cfg, w, call).1.Failed?
    ensures var w', u := Step(cfg, w, call).0, call.op.uri;
            && (cfg.cached ==> u !in w'.cache)
            && (call.op.Publish? ==> Lookup(w'.tables.prompts, u) == Some(call.op.content))
            && (!call.op.Publish? ==> (u, MAIN) in w'.tables.refs)
  {
    match call.op
    case Publish(_, _, _, _, _) =>
    case Merge(_, _, _, _, _) =>
    case SetBranch(_, _, _) =>
  }

  /** A read that finds nothing in the cache answers from the store. */
  lemma {:induction false} MissReadsStore(cfg: Config, w: World, reader: Caller, u: Uri, now: int, f: Faults)
    requires Authorized(reader, u) && u in w.tables.prompts && (cfg.cached ==> u !in w.cache)
    ensures GetRpc(cfg, w, reader, u, "", now, f).1 == Serving(cfg, w.tables, u)
  {
  }

  /**
   * From any cache contents at all, stale ones included: once a publish, merge
   * or rollback on main reports success, the next read returns main's tip.
   */
  lemma {:induction false} OkIsVisible(cfg: Config, w: World, call: Call, reader: Caller, now: int, f: Faults)
    requires Inv(w.tables) && Legal(w, call) && OnMain(call.op) && Authorized(reader, call.op.uri)
    requires !Step(cfg, w, call).1.Failed?
    ensures var w', u := Step(cfg, w, call).0, call.op.uri;
            && u in w'.tables.prompts
            && GetRpc(cfg, w', reader, u, "", now, f).1 == Serving(cfg, w'.tables, u)
            && ((u, MAIN) in w'.tables.refs ==> Lookup(w'.tables.prompts, u) == Some(w'.tables.commits[w'.tables.refs[(u, MAIN)]].content))
            && (call.op.Publish? ==> w'.tables.prompts[u] == call.op.content)
            && (!call.op.Publish? ==> (u, MAIN) in w'.tables.refs)
  {
    StepKeepsInv(cfg, w, call);
    OkClears(cfg, w, call);
    var w' := Step(cfg, w, call).0;
    MissReadsStore(cfg, w', reader, call.op.uri, now, f);
  }

  /**
   * Clearing is not best-effort: a write to main that would succeed is reported
   * Unavailable exactly when there is a cache and its clear fails.
   */
  lemma {:induction false} UnavailableIffClearFails(cfg: Config, w: World, call: Call)
    requires OnMain(call.op)
    requires !Step(cfg, w, call.(faults := call.faults.(clear := Cleared))).1.Failed?
    ensures Step(cfg, w, call).1 == Failed(Unavailable) <==> cfg.cached && call.faults.clear.NotCleared?
    ensures Step(cfg, w, call).1.Failed? ==> Step(cfg, w, call).1 == Failed(Unavailable)
  {
    match call.op
    case Publish(_, _, _, _, _) =>
    case Merge(_, _, _, _, _) =>
    case SetBranch(_, _, _) =>
  }

  /** Cache reads and puts are best-effort: a read fails only as it would without a cache. */
  lemma {:induction false} CacheNeverFailsReads(cfg: Config, w: World, caller: Caller, uri: Uri, ref: string, now: int, f: Faults)
    ensures var r := GetRpc(cfg, w, caller, uri, ref, now, f).1;
            r.Failed? ==> r == GetRpc(cfg.(cached := false), w, caller, uri, ref, now, f).1
  {
  }

  // ---- retries ----

  /** The same request sent again and again: only the hash of the would-be commit, the clock and the faults differ. */
  ghost predicate SameRequest(a: Call, b: Call) {
    a.caller == b.caller &&
    match (a.op, b.op)
    case (Publish(u, c, br, m, _), Publish(u', c', br', m', _)) => u == u' && c == c' && br == br' && m == m'
    case (Merge(u, i, fr, m, _), Merge(u', i', fr', m', _)) => u == u' && i == i' && fr == fr' && m == m'
    case (SetBranch(u, br, id), SetBranch(u', br', id')) => u == u' && br == br' && id == id'
    case _ => false
  }

  ghost predicate Retry(cfg: Config, w: World, calls: seq<Call>) {
    && calls != [] && LegalRun(cfg, w, calls)
    && (forall i :: 0 <= i < |calls| ==> SameRequest(calls[0], calls[i]))
    && |Replies(cfg, w, calls)| == |calls|
    && (forall i :: 0 <= i < |calls| - 1 ==> Replies(cfg, w, calls)[i].Failed?)
    && !Replies(cfg, w, calls)[|calls| - 1].Failed?
  }

  lemma {:induction false} RetryTail(cfg: Config, w: World, calls: seq<Call>)
    requires Retry(cfg, w, calls) && |calls| > 1
    ensures Retry(cfg, Step(cfg, w, calls[0]).0, calls[1..])
    ensures Step(cfg, w, calls[0]).1.Failed?
  {
    var w1 := Step(cfg, w, calls[0]).0;
    var rs := Replies(cfg, w, calls);
    assert rs[0] == Step(cfg, w, calls[0]).1;
    assert rs[1..] == Replies(cfg, w1, calls[1..]);
  }

  /** One attempt of a publish on main either changes nothing, or lands: one commit, one event, and the content is served. */
  lemma {:induction false} PublishAttempt(cfg: Config, w: World, call: Call)
    requires cfg.notifies && call.op.Publish? && OnMain(call.op) && Legal(w, call)
    ensures var (w', r) := Step(cfg, w, call); var u, c := call.op.uri, call.op.content;
            if Lookup(w.tables.prompts, u) == Some(c) || (r.Failed? && Lookup(w'.tables.prompts, u) != Some(c)) then
              w'.tables == w.tables && w'.events == w.events
            else
              && Lookup(w'.tables.prompts, u) == Some(c)
              && w'.tables.commits.Keys == w.tables.commits.Keys + {call.op.stamp.id} && call.op.stamp.id !in w.tables.commits
              && |w'.events| == |w.events| + 1 && w'.events[..|w.events|] == w.events
              && w'.events[|w.events|].uri == u && w'.events[|w.events|].version == Sha(c)
  {
  }

  /**
   * A publish retried until it succeeds, through any store and clearing failures,
   * makes exactly one commit and one event; none when the content was served already.
   */
  lemma {:induction false} PublishRetriedOnce(cfg: Config, w: World, calls: seq<Call>)
    requires cfg.notifies && Retry(cfg, w, calls) && calls[0].op.Publish? && OnMain(calls[0].op)
    ensures var w' := Run(cfg, w, calls); var u, c := calls[0].op.uri, calls[0].op.content;
            if Lookup(w.tables.prompts, u) == Some(c) then w'.tables == w.tables && w'.events == w.events
            else && Lookup(w'.tables.prompts, u) == Some(c)
                 && |w'.tables.commits| == |w.tables.commits| + 1
                 && |w'.events| == |w.events| + 1 && w'.events[..|w.events|] == w.events
                 && w'.events[|w.events|].uri == u && w'.events[|w.events|].version == Sha(c)
    decreases |calls|
  {
    var call := calls[0];
    var w1 := Step(cfg, w, call).0;
    PublishAttempt(cfg, w, call);
    if w1.tables.commits.Keys == w.tables.commits.Keys + {call.op.stamp.id} {
      assert |w1.tables.commits| == |w1.tables.commits.Keys| && |w.tables.commits| == |w.tables.commits.Keys|;
    }
    if |calls| == 1 {
      assert calls[1..] == [];
    } else {
      RetryTail(cfg, w, calls);
      assert SameRequest(call, calls[1]);
      PublishRetriedOnce(cfg, w1, calls[1..]);
    }
  }

  /** One attempt of a merge into main. */
  lemma {:induction false} MergeAttempt(cfg: Config, w: World, call: Call, theirs: Content)
    requires cfg.notifies && call.op.Merge? && OnMain(call.op) && Legal(w, call) && Inv(w.tables)
    requires Brings(w.tables, call.op, theirs)
    ensures var (w', r) := Step(cfg, w, call); var u := call.op.uri;
            && Brings(w'.tables, call.op, theirs)
            && (!r.Failed? ==> Lookup(w'.tables.prompts, u) == Some(theirs))
            && if Lookup(w'.tables.prompts, u) == Lookup(w.tables.prompts, u) then w'.events == w.events
               else && Lookup(w'.tables.prompts, u) == Some(theirs)
                    && |w'.events| == |w.events| + 1 && w'.events[..|w.events|] == w.events
                    && w'.events[|w.events|].uri == u && w'.events[|w.events|].version == Sha(theirs)
  {
  }

  /** The source branch of a merge holds this content. */
  ghost predicate Brings(t: Tables, op: Op, theirs: Content)
    requires op.Merge?
  {
    (op.uri, op.from) in t.refs && t.refs[(op.uri, op.from)] in t.commits && t.commits[t.refs[(op.uri, op.from)]].content == theirs
  }

  /** A merge into main retried until it succeeds makes exactly one event when it brings new content, and none otherwise. */
  lemma {:induction false} MergeRetriedOnce(cfg: Config, w: World, calls: seq<Call>, theirs: Content)
    requires cfg.notifies && Inv(w.tables) && Retry(cfg, w, calls)
    requires calls[0].op.Merge? && OnMain(calls[0].op) && Brings(w.tables, calls[0].op, theirs)
    ensures var w', u := Run(cfg, w, calls), calls[0].op.uri;
            && Lookup(w'.tables.prompts, u) == Some(theirs)
            && if Lookup(w.tables.prompts, u) == Some(theirs) then w'.events == w.events
               else |w'.events| == |w.events| + 1 && w'.events[..|w.events|] == w.events
                    && w'.events[|w.events|].uri == u && w'.events[|w.events|].version == Sha(theirs)
    decreases |calls|
  {
    var w1 := Step(cfg, w, calls[0]).0;
    MergeAttempt(cfg, w, calls[0], theirs);
    StepKeepsInv(cfg, w, calls[0]);
    if |calls| == 1 {
      assert calls[1..] == [];
    } else {
      RetryTail(cfg, w, calls);
      assert SameRequest(calls[0], calls[1]);
      MergeRetriedOnce(cfg, w1, calls[1..], theirs);
    }
  }

  /** One attempt of a rollback: the event comes with the OK and never before it. */
  lemma {:induction false} RollbackAttempt(cfg: Config, w: World, call: Call)
    requires cfg.notifies && call.op.SetBranch? && OnMain(call.op)
    ensures var (w', r) := Step(cfg, w, call); var u, id := call.op.uri, call.op.commit;
            && w'.tables.commits == w.tables.commits
            && if r.Failed? then w'.events == w.events
               else && id in w.tables.commits && Lookup(w'.tables.prompts, u) == Some(w.tables.commits[id].content)
                    && |w'.events| == |w.events| + 1 && w'.events[..|w.events|] == w.events
                    && w'.events[|w.events|].uri == u && w'.events[|w.events|].version == Sha(w.tables.commits[id].content)
  {
  }

  /**
   * A rollback retried until it succeeds, through any failures, serves the commit
   * and announces it exactly once. Its verdict is not claimed: a retry compares
   * against a HEAD the first attempt may already have moved.
   */
  lemma {:induction false} RollbackRetriedOnce(cfg: Config, w: World, calls: seq<Call>)
    requires cfg.notifies && Retry(cfg, w, calls) && calls[0].op.SetBranch? && OnMain(calls[0].op)
    ensures var w' := Run(cfg, w, calls); var u, id := calls[0].op.uri, calls[0].op.commit;
            && id in w.tables.commits && Lookup(w'.tables.prompts, u) == Some(w.tables.commits[id].content)
            && |w'.events| == |w.events| + 1 && w'.events[..|w.events|] == w.events
            && w'.events[|w.events|].uri == u && w'.events[|w.events|].version == Sha(w.tables.commits[id].content)
    decreases |calls|
  {
    RollbackAttempt(cfg, w, calls[0]);
    if |calls| == 1 {
      assert calls[1..] == [];
    } else {
      RetryTail(cfg, w, calls);
      assert SameRequest(calls[0], calls[1]);
      RollbackRetriedOnce(cfg, Step(cfg, w, calls[0]).0, calls[1..]);
    }
  }

  // ---- publishing to another branch ----

  /**
   * After a successful publish to another branch, reading that ref gives the
   * content. The branch itself then exists and holds it, except when no such
   * branch existed and its name is the hash of a commit of this prompt with that
   * very content: then the handler takes the publish for a repetition.
   */
  lemma {:induction false} BranchPublishLands(cfg: Config, w: World, call: Call)
    requires Inv(w.tables) && Legal(w, call) && call.op.Publish? && !OnMain(call.op) && !Step(cfg, w, call).1.Failed?
    ensures var t, t' := w.tables, Step(cfg, w, call).0.tables; var u, b, c := call.op.uri, call.op.branch, call.op.content;
            && t'.Resolve(u, b).Some? && t'.Resolve(u, b).value.content == c
            && t'.prompts == t.prompts
            && ((u, b) in t'.refs <==> !((u, b) !in t.refs && b in t.commits && t.commits[b].uri == u && t.commits[b].content == c))
            && ((u, b) in t'.refs ==> t'.refs[(u, b)] in t'.commits && t'.commits[t'.refs[(u, b)]].content == c)
  {
    StepKeepsInv(cfg, w, call);
  }

  // ---- the cached server refines the uncached one ----

  /** Every cached entry is what a fresh read would answer. */
  ghost predicate Coherent(cfg: Config, w: World) {
    forall u :: u in w.cache ==> CoherentAt(cfg, w, u)
  }

  ghost predicate CoherentAt(cfg: Config, w: World, u: Uri) {
    u in w.cache ==> u in w.tables.prompts && cfg.valid(u, w.tables.prompts[u]) && w.cache[u].resp == HeadResponse(u, w.tables.prompts[u])
  }

  lemma {:induction false} CachedGet(cfg: Config, w: World, plain: World, call: Call)
    requires cfg.cached && CoherentAt(cfg, w, call.op.uri) && w.tables == plain.tables && w.events == plain.events && call.op.Get?
    ensures var (w', r), (plain', r') := Step(cfg, w, call), Step(cfg.(cached := false), plain, call);
            r == r' && w'.tables == plain'.tables && w'.events == plain'.events
  {
  }

  /** The same store and the same log; the caches may differ. */
  predicate Twins(w: World, plain: World) {
    w.tables == plain.tables && w.events == plain.events
  }

  lemma {:induction false} CachedPublish(cfg: Config, w: World, plain: World, caller: Caller, uri: Uri, content: Content, branch: Branch,
                                         message: string, stamp: Stamp, f: Faults)
    requires cfg.cached && Twins(w, plain) && f.clear == Cleared
    ensures var (w', r), (plain', r') := PublishRpc(cfg, w, caller, uri, content, branch, message, stamp, f), PublishRpc(cfg.(cached := false), plain, caller, uri, content, branch, message, stamp, f);
            r == r' && Twins(w', plain')
  {
  }

  lemma {:induction false} CachedMerge(cfg: Config, w: World, plain: World, caller: Caller, uri: Uri, into: Branch, from: Branch,
                                       message: string, stamp: Stamp, f: Faults)
    requires cfg.cached && Twins(w, plain) && f.clear == Cleared
    ensures var (w', r), (plain', r') := MergeRpc(cfg, w, caller, uri, into, from, message, stamp, f), MergeRpc(cfg.(cached := false), plain, caller, uri, into, from, message, stamp, f);
            r == r' && Twins(w', plain')
  {
  }

  lemma {:induction false} CachedSetBranch(cfg: Config, w: World, plain: World, caller: Caller, uri: Uri, branch: Branch, commit: CommitId, f: Faults)
    requires cfg.cached && Twins(w, plain) && f.clear == Cleared
    ensures var (w', r), (plain', r') := SetBranchRpc(cfg, w, caller, uri, branch, commit, f), SetBranchRpc(cfg.(cached := false), plain, caller, uri, branch, commit, f);
            r == r' && Twins(w', plain')
  {
  }

  lemma {:induction false} CachedWrite(cfg: Config, w: World, plain: World, call: Call)
    requires cfg.cached && Twins(w, plain) && call.faults.clear == Cleared && !call.op.Get?
    ensures var (w', r), (plain', r') := Step(cfg, w, call), Step(cfg.(cached := false), plain, call);
            r == r' && Twins(w', plain')
  {
    match call.op
    case Publish(uri, content, branch, message, stamp) => CachedPublish(cfg, w, plain, call.caller, uri, content, branch, message, stamp, call.faults);
    case Merge(uri, into, from, message, stamp) => CachedMerge(cfg, w, plain, call.caller, uri, into, from, message, stamp, call.faults);
    case SetBranch(uri, branch, commit) => CachedSetBranch(cfg, w, plain, call.caller, uri, branch, commit, call.faults);
    case CreateBranch(_, _, _) =>
  }

  lemma {:induction false} MainStepClears(cfg: Config, w: World, call: Call)
    requires cfg.cached && CoherentAt(cfg, w, call.op.uri) && call.faults.clear == Cleared && OnMain(call.op)
    ensures CoherentAt(cfg, Step(cfg, w, call).0, call.op.uri)
  {
  }

  lemma {:induction false} StepKeepsCoherent(cfg: Config, w: World, call: Call)
    requires cfg.cached && Coherent(cfg, w) && call.faults.clear == Cleared
    ensures Coherent(cfg, Step(cfg, w, call).0)
  {
    var w' := Step(cfg, w, call).0;
    forall u ensures CoherentAt(cfg, w', u) {
      assert CoherentAt(cfg, w, u);
      if OnMain(call.op) && call.op.uri == u {
        MainStepClears(cfg, w, call);
      } else {
        QuietStep(cfg, w, call, u);
      }
    }
  }

  /**
   * When clears succeed, no sequential client can tell the cache is there: every
   * reply equals that of the server without one, for any clock and any pattern
   * of lost cache reads and writes.
   */
  lemma {:induction false} CacheIsInvisible(cfg: Config, w: World, plain: World, calls: seq<Call>)
    requires cfg.cached && Coherent(cfg, w) && w.tables == plain.tables && w.events == plain.events
    requires forall i :: 0 <= i < |calls| ==> calls[i].faults.clear == Cleared
    ensures Replies(cfg, w, calls) == Replies(cfg.(cached := false), plain, calls)
    ensures var w', plain' := Run(cfg, w, calls), Run(cfg.(cached := false), plain, calls);
            w'.tables == plain'.tables && w'.events == plain'.events
    decreases |calls|
  {
    if calls != [] {
      if calls[0].op.Get? {
        assert CoherentAt(cfg, w, calls[0].op.uri);
        CachedGet(cfg, w, plain, calls[0]);
      } else {
        CachedWrite(cfg, w, plain, calls[0]);
      }
      StepKeepsCoherent(cfg, w, calls[0]);
      CacheIsInvisible(cfg, Step(cfg, w, calls[0]).0, Step(cfg.(cached := false), plain, calls[0]).0, calls[1..]);
    }
  }

  // ---- branch work is invisible ----

  function EventsOf(events: seq<Event>, u: Uri): seq<Event> {
    if events == [] then []
    else EventsOf(events[..|events| - 1], u) + if events[|events| - 1].uri == u then [events[|events| - 1]] else []
  }

  lemma {:induction false} QuietGet(cfg: Config, w: World, caller: Caller, uri: Uri, ref: string, now: int, f: Faults, u: Uri)
    requires CoherentAt(cfg, w, u)
    ensures var (w', r) := GetRpc(cfg, w, caller, uri, ref, now, f);
            && w'.tables == w.tables && w'.events == w.events && CoherentAt(cfg, w', u)
            && (uri == u && ref == "" && Authorized(caller, u) ==>
                  r == if u in w.tables.prompts then Serving(cfg, w.tables, u) else Failed(NotFoundCode))
  {
  }

  /** u's served HEAD and cache entry are as they were (or the entry is gone), and only others were told anything. */
  ghost predicate LeavesAlone(w: World, w': World, u: Uri) {
    && Lookup(w'.tables.prompts, u) == Lookup(w.tables.prompts, u)
    && (u in w'.cache ==> u in w.cache && w'.cache[u] == w.cache[u])
    && (w'.events == w.events
        || (|w'.events| == |w.events| + 1 && w'.events[..|w.events|] == w.events && w'.events[|w.events|].uri != u))
  }

  lemma {:induction false} QuietPublish(cfg: Config, w: World, caller: Caller, uri: Uri, content: Content, branch: Branch,
                                       message: string, stamp: Stamp, f: Faults, u: Uri)
    requires (branch != "" && branch != MAIN) || uri != u
    ensures LeavesAlone(w, PublishRpc(cfg, w, caller, uri, content, branch, message, stamp, f).0, u)
  {
  }

  lemma {:induction false} QuietMerge(cfg: Config, w: World, caller: Caller, uri: Uri, into: Branch, from: Branch,
                                     message: string, stamp: Stamp, f: Faults, u: Uri)
    requires (into != "" && into != MAIN) || uri != u
    ensures LeavesAlone(w, MergeRpc(cfg, w, caller, uri, into, from, message, stamp, f).0, u)
  {
  }

  lemma {:induction false} QuietSetBranch(cfg: Config, w: World, caller: Caller, uri: Uri, branch: Branch, commit: CommitId, f: Faults, u: Uri)
    requires (branch != "" && branch != MAIN) || uri != u
    ensures LeavesAlone(w, SetBranchRpc(cfg, w, caller, uri, branch, commit, f).0, u)
  {
  }

  /** A write elsewhere leaves u alone. */
  lemma {:induction false} QuietWrite(cfg: Config, w: World, call: Call, u: Uri)
    requires !call.op.Get? && !(OnMain(call.op) && call.op.uri == u)
    ensures LeavesAlone(w, Step(cfg, w, call).0, u)
  {
    match call.op
    case Publish(uri, content, branch, message, stamp) => QuietPublish(cfg, w, call.caller, uri, content, branch, message, stamp, call.faults, u);
    case Merge(uri, into, from, message, stamp) => QuietMerge(cfg, w, call.caller, uri, into, from, message, stamp, call.faults, u);
    case SetBranch(uri, branch, commit) => QuietSetBranch(cfg, w, call.caller, uri, branch, commit, call.faults, u);
    case CreateBranch(_, _, _) =>
  }

  lemma {:induction false} QuietStep(cfg: Config, w: World, call: Call, u: Uri)
    requires CoherentAt(cfg, w, u) && !(OnMain(call.op) && call.op.uri == u)
    ensures var (w', r) := Step(cfg, w, call);
            && Lookup(w'.tables.prompts, u) == Lookup(w.tables.prompts, u)
            && CoherentAt(cfg, w', u)
            && EventsOf(w'.events, u) == EventsOf(w.events, u)
            && (call.op.Get? && call.op.uri == u && call.op.ref == "" && Authorized(call.caller, u) ==>
                  r == if u in w.tables.prompts then Serving(cfg, w.tables, u) else Failed(NotFoundCode))
  {
    if call.op.Get? {
      QuietGet(cfg, w, call.caller, call.op.uri, call.op.ref, call.now, call.faults, u);
    } else {
      QuietWrite(cfg, w, call, u);
      var w' := Step(cfg, w, call).0;
      assert w'.events != w.events ==> w'.events[..|w'.events| - 1] == w.events;
    }
  }

  /**
   * Over any stretch of a run with no write to main of u, however many branches
   * are made, published to and merged into, every read of u answers the same and
   * no event about u is sent, whatever fails.
   */
  lemma {:induction false} BranchWorkInvisible(cfg: Config, w: World, calls: seq<Call>, u: Uri)
    requires CoherentAt(cfg, w, u)
    requires forall i :: 0 <= i < |calls| ==> !(OnMain(calls[i].op) && calls[i].op.uri == u)
    ensures |Replies(cfg, w, calls)| == |calls|
    ensures forall i :: 0 <= i < |calls| && calls[i].op == Get(u, "") && Authorized(calls[i].caller, u) ==>
              Replies(cfg, w, calls)[i] == if u in w.tables.prompts then Serving(cfg, w.tables, u) else Failed(NotFoundCode)
    ensures EventsOf(Run(cfg, w, calls).events, u) == EventsOf(w.events, u)
    ensures Lookup(Run(cfg, w, calls).tables.prompts, u) == Lookup(w.tables.prompts, u)
    decreases |calls|
  {
    if calls != [] {
      var w' := Step(cfg, w, calls[0]).0;
      QuietStep(cfg, w, calls[0], u);
      BranchWorkInvisible(cfg, w', calls[1..], u);
      assert (u in w'.tables.prompts) == (u in w.tables.prompts);
    }
  }

  // ---- pinned versions never move ----

  /** A version pinned by commit id reads the same after any run, unless a branch takes the id as its name. */
  lemma {:induction false} PinNeverMoves(cfg: Config, w: World, calls: seq<Call>, u: Uri, id: CommitId)
    requires Inv(w.tables) && LegalRun(cfg, w, calls)
    requires id in w.tables.commits && w.tables.commits[id].uri == u
    requires (u, id) !in w.tables.refs && (u, id) !in Run(cfg, w, calls).tables.refs
    ensures GetByRef(cfg, Run(cfg, w, calls).tables, u, id) == GetByRef(cfg, w.tables, u, id)
    ensures id in Run(cfg, w, calls).tables.CommitsOf(u)
  {
    RunKeepsInv(cfg, w, calls);
  }

  /**
   * The commit hash in a pinned answer is the one to pin to: after any run,
   * reading that hash gives the very same answer, unless a branch takes the hash
   * as its name.
   */
  lemma {:induction false} PinIsReproducible(cfg: Config, w: World, calls: seq<Call>, u: Uri, ref: string, id: CommitId)
    requires Inv(w.tables) && LegalRun(cfg, w, calls)
    requires var r := GetByRef(cfg, w.tables, u, ref); r.Prompt? && r.resp.commit == Some(id)
    requires (u, id) !in w.tables.refs && (u, id) !in Run(cfg, w, calls).tables.refs
    ensures GetByRef(cfg, Run(cfg, w, calls).tables, u, id) == GetByRef(cfg, w.tables, u, ref)
    ensures id in w.tables.CommitsOf(u) && GetByRef(cfg, w.tables, u, ref).resp.content == w.tables.commits[id].content
  {
    assert id in w.tables.commits && w.tables.commits[id].uri == u;
    PinNeverMoves(cfg, w, calls, u, id);
  }

  /** The branch a write moves or makes. */
  function Target(op: Op): Branch
    requires op.Merge? || op.SetBranch? || op.CreateBranch?
  {
    match op
    case Merge(_, into, _, _, _) => if OnMain(op) then MAIN else into
    case SetBranch(_, branch, _) => if OnMain(op) then MAIN else branch
    case CreateBranch(_, name, _) => name
  }

  /** The commit whose content the target is to read as. */
  function Origin(t: Tables, op: Op): Option<CommitId>
    requires op.Merge? || op.SetBranch? || op.CreateBranch?
  {
    match op
    case Merge(u, _, from, _, _) => t.Tip(u, from)
    case SetBranch(_, _, commit) => Some(commit)
    case CreateBranch(u, _, from) => t.Tip(u, if from == "" then MAIN else from)
  }

  /** The target moved to a commit with the origin's content, and nothing else moved. */
  ghost predicate MovesToOrigin(t: Tables, t': Tables, op: Op)
    requires op.Merge? || op.SetBranch? || op.CreateBranch?
  {
    var u, b, origin := op.uri, Target(op), Origin(t, op);
    && origin.Some? && origin.value in t.commits && t.commits[origin.value].uri == u
    && (u, b) in t'.refs && MovesTo(t, t', u, b, t'.refs[(u, b)])
    && t'.commits[t'.refs[(u, b)]].content == t.commits[origin.value].content
    && if op.Merge? then
         && t'.commits[t'.refs[(u, b)]].parent == t.Tip(u, b)
         && t'.commits[t'.refs[(u, b)]].parent2 == origin
       else t'.commits == t.commits && t'.refs[(u, b)] == origin.value
  }

  lemma {:induction false} TransactionMovesToOrigin(t: Tables, t': Tables, caller: Caller, op: Op)
    requires RefsOk(t) && (op.Merge? || op.SetBranch? || op.CreateBranch?)
    requires match op
             case Merge(u, into, from, message, stamp) => Ok(t') == t.MergeInto(u, BranchOr(into), from, ScopeOf(caller), message, stamp)
             case SetBranch(u, branch, commit) => Ok(t') == t.PointTo(u, BranchOr(branch), commit)
             case CreateBranch(u, name, from) => Ok(t') == t.NewBranch(u, name, BranchOr(from))
             case _ => false
    ensures MovesToOrigin(t, t', op)
  {
    match op
    case Merge(u, into, from, message, stamp) => MergeReadsBack(t, u, BranchOr(into), from, ScopeOf(caller), message, stamp);
    case SetBranch(u, branch, commit) => PointReadsBack(t, u, BranchOr(branch), commit);
    case CreateBranch(u, name, from) => BranchReadsBack(t, u, name, BranchOr(from));
  }

  /** A successful merge, rollback or new branch ran its transaction, and its reply names the result. */
  lemma {:induction false} SuccessRanTransaction(cfg: Config, w: World, call: Call)
    requires (call.op.Merge? || call.op.SetBranch? || call.op.CreateBranch?) && !Step(cfg, w, call).1.Failed?
    ensures var t, t' := w.tables, Step(cfg, w, call).0.tables; var r := Step(cfg, w, call).1;
            match call.op
            case Merge(u, into, from, message, stamp) =>
              Ok(t') == t.MergeInto(u, BranchOr(into), from, ScopeOf(call.caller), message, stamp) && r == CommitHash(stamp.id)
            case SetBranch(u, branch, commit) =>
              Ok(t') == t.PointTo(u, BranchOr(branch), commit) && commit in t.commits && r == Published(Sha(t.commits[commit].content))
            case CreateBranch(u, name, from) =>
              Ok(t') == t.NewBranch(u, name, BranchOr(from)) && (u, name) in t'.refs && r == CommitHash(t'.refs[(u, name)])
            case _ => false
  {
  }

  /**
   * A merge, rollback or new branch that succeeds moves its target branch and
   * nothing else: to a commit with its origin's content. For a rollback and a new
   * branch that is the origin itself, and no commit is added. A merge has the old
   * tip as first parent and the origin as second. The reply names the result.
   */
  lemma {:induction false} MovedBranchReadsBack(cfg: Config, w: World, call: Call)
    requires Inv(w.tables) && (call.op.Merge? || call.op.SetBranch? || call.op.CreateBranch?)
    requires !Step(cfg, w, call).1.Failed?
    ensures var t, t', r := w.tables, Step(cfg, w, call).0.tables, Step(cfg, w, call).1;
            && MovesToOrigin(t, t', call.op)
            && r == if call.op.SetBranch? then Published(Sha(t.commits[Origin(t, call.op).value].content))
                    else CommitHash(t'.refs[(call.op.uri, Target(call.op))])
  {
    SuccessRanTransaction(cfg, w, call);
    TransactionMovesToOrigin(w.tables, Step(cfg, w, call).0.tables, call.caller, call.op);
  }
}
