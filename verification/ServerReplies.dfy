/**
 * What each RPC answers and when, said of the request and the tables themselves:
 * which requests are refused and with which code, what a pinned read returns, whose
 * name a commit carries, and what the store comes to hold.
 */
module ServerReplies {
  import opened Basics
  import opened Auth
  import opened Store
  import opened Cache
  import opened ServerModel
  import opened ServerRuns
  import opened ServerReaders
  import opened Tenancy

  // ---- the branch that is not named ----

  /** The same request with the default branch spelled out. */
  function Spelled(op: Op): Op {
    match op
    case Publish(uri, content, branch, message, stamp) => Publish(uri, content, if branch == "" then "main" else branch, message, stamp)
    case Merge(uri, into, from, message, stamp) => Merge(uri, if into == "" then "main" else into, from, message, stamp)
    case SetBranch(uri, branch, commit) => SetBranch(uri, if branch == "" then "main" else branch, commit)
    case CreateBranch(uri, name, from) => CreateBranch(uri, name, if from == "" then "main" else from)
    case Get(_, _) => op
  }

  /** Naming no branch is naming main, in every respect. */
  lemma {:induction false} NoBranchIsMain(cfg: Config, w: World, call: Call)
    ensures Step(cfg, w, call) == Step(cfg, w, call.(op := Spelled(call.op)))
  {
  }

  /** A named branch is the one that moves: no other ref changes. */
  lemma {:induction false} OnlyTheNamedBranch(cfg: Config, w: World, call: Call, k: (Uri, Branch))
    requires match Spelled(call.op)
             case Publish(u, _, b, _, _) => k != (u, b)
             case Merge(u, b, _, _, _) => k != (u, b)
             case SetBranch(u, b, _) => k != (u, b)
             case CreateBranch(u, b, _) => k != (u, b)
             case Get(_, _) => true
    ensures Lookup(Step(cfg, w, call).0.tables.refs, k) == Lookup(w.tables.refs, k)
  {
    NoBranchIsMain(cfg, w, call);
    StepIsOneTransaction(cfg, w, call.(op := Spelled(call.op)));
    TransactionMovesTarget(w.tables, Step(cfg, w, call).0.tables, call.caller, Spelled(call.op), k);
  }

  lemma {:induction false} TransactionMovesTarget(t: Tables, t': Tables, caller: Caller, op: Op, k: (Uri, Branch))
    requires OneTransaction(t, t', caller, op)
    requires match op
             case Publish(u, _, b, _, _) => b != "" && k != (u, b)
             case Merge(u, b, _, _, _) => b != "" && k != (u, b)
             case SetBranch(u, b, _) => b != "" && k != (u, b)
             case CreateBranch(u, b, _) => k != (u, b)
             case Get(_, _) => true
    ensures Lookup(t'.refs, k) == Lookup(t.refs, k)
  {
  }

  // ---- refusals ----

  /** The statuses after which a client should try again. */
  predicate Retryable(code: Code) {
    code == Aborted || code == Unavailable
  }

  /** A failed transaction changes nothing, and its status says whether to retry and whether something was missing. */
  lemma {:induction false} StoreFaults(cfg: Config, w: World, call: Call, e: StoreError)
    requires call.faults.store == Some(e) && !Denied(call) && !call.op.Get?
    requires Step(cfg, w, call.(faults := call.faults.(store := None))).0.tables != w.tables
    ensures Step(cfg, w, call).0 == w
    ensures match Step(cfg, w, call).1
            case Failed(code) =>
              && (Retryable(code) <==> e == Conflict || e == Down)
              && (code == Aborted <==> e == Conflict)
              && (code == NotFoundCode <==> e == NotFound || e == BranchNotFound)
              && (code == AlreadyExistsCode <==> e == AlreadyExists)
              && (code == Internal <==> e == Other)
            case _ => false
  {
    match call.op
    case Publish(_, _, _, _, _) =>
    case Merge(_, _, _, _, _) =>
    case SetBranch(_, _, _) =>
    case CreateBranch(_, _, _) =>
  }

  /** A publish that is not denied is refused as invalid exactly when its content is not valid, and then nothing changes. */
  lemma {:induction false} InvalidIsRefused(cfg: Config, w: World, call: Call)
    requires call.op.Publish? && !Denied(call)
    ensures Step(cfg, w, call).1 == Failed(InvalidArgument) <==> !cfg.valid(call.op.uri, call.op.content)
    ensures !cfg.valid(call.op.uri, call.op.content) ==> Step(cfg, w, call).0 == w
  {
  }

  /** The content is what main serves already, or what the other branch or commit of that name holds. */
  ghost predicate HeldAlready(t: Tables, u: Uri, branch: Branch, c: Content)
    requires branch != ""
  {
    if branch == MAIN then u in t.prompts && t.prompts[u] == c
    else if (u, branch) in t.refs then t.refs[(u, branch)] in t.commits && t.commits[t.refs[(u, branch)]].content == c
    else branch in t.commits && t.commits[branch].uri == u && t.commits[branch].content == c
  }

  /** Exactly when a publish succeeds, and what it answers and stores. */
  lemma {:induction false} PublishOutcome(cfg: Config, w: World, call: Call)
    requires call.op.Publish? && call.op.branch != ""
    ensures var (w', r) := Step(cfg, w, call); var u, b, c := call.op.uri, call.op.branch, call.op.content;
            var held := HeldAlready(w.tables, u, b, c);
            && (!r.Failed? <==> && !Denied(call) && cfg.valid(u, c) && (held || call.faults.store.None?)
                                && (b != MAIN || !cfg.cached || call.faults.clear.Cleared?))
            && (!r.Failed? ==> r == Published(Sha(c)))
            && (w'.tables != w.tables ==> !held && call.op.stamp.id in w'.tables.commits && w'.tables.Tip(u, b) == Some(call.op.stamp.id))
            && (held ==> w'.tables == w.tables)
  {
    if w.tables != Step(cfg, w, call).0.tables {
      CommitReadsBack(w.tables, call.op.uri, call.op.branch, call.op.content, ScopeOf(call.caller), call.op.message, call.op.stamp);
    }
  }

  /** A merge finds its branches exactly when both exist; a missing one is reported as not found and nothing changes. */
  lemma {:induction false} MergeOutcome(cfg: Config, w: World, call: Call)
    requires RefsOk(w.tables) && call.op.Merge? && call.op.into != "" && !Denied(call) && call.faults.store.None?
    ensures var (w', r) := Step(cfg, w, call); var u := call.op.uri;
            && (r == Failed(NotFoundCode) <==> (u, call.op.into) !in w.tables.refs || (u, call.op.from) !in w.tables.refs)
            && (r == Failed(NotFoundCode) ==> w' == w)
            && (r.Failed? && r != Failed(NotFoundCode) ==> r == Failed(Unavailable) && call.op.into == MAIN && cfg.cached && !call.faults.clear.Cleared?)
  {
  }

  /** A rollback or pin needs a commit of this very prompt. */
  lemma {:induction false} SetBranchOutcome(cfg: Config, w: World, call: Call)
    requires call.op.SetBranch? && call.op.branch != "" && !Denied(call) && call.faults.store.None?
    ensures var (w', r) := Step(cfg, w, call); var u, id := call.op.uri, call.op.commit;
            && (r == Failed(InvalidArgument) <==> id == "")
            && (r == Failed(NotFoundCode) <==> id != "" && !(id in w.tables.commits && w.tables.commits[id].uri == u))
            && (r == Failed(InvalidArgument) || r == Failed(NotFoundCode) ==> w' == w)
            && (r == Failed(Unavailable) <==> && id != "" && id in w.tables.commits && w.tables.commits[id].uri == u
                                              && call.op.branch == MAIN && cfg.cached && !call.faults.clear.Cleared?)
            && (r.Failed? ==> r.code in {InvalidArgument, NotFoundCode, Unavailable})
  {
  }

  /** A new branch needs a name that is free and an origin that exists; main itself is never made this way. */
  lemma {:induction false} CreateBranchOutcome(cfg: Config, w: World, call: Call)
    requires call.op.CreateBranch? && call.op.from != "" && !Denied(call) && call.faults.store.None?
    ensures var (w', r) := Step(cfg, w, call); var u, name, from := call.op.uri, call.op.name, call.op.from;
            && (r == Failed(InvalidArgument) <==> name == "")
            && (r == Failed(AlreadyExistsCode) <==> name != "" && (u, name) in w.tables.refs)
            && (r == Failed(NotFoundCode) <==> name != "" && (u, name) !in w.tables.refs && (u, from) !in w.tables.refs)
            && (!r.Failed? <==> name != "" && name != MAIN && (u, name) !in w.tables.refs && (u, from) in w.tables.refs)
            && (r.Failed? ==> w' == w)
            && (!r.Failed? ==> r == CommitHash(w.tables.refs[(u, from)]) && w'.tables.Tip(u, name) == Some(w.tables.refs[(u, from)]))
  {
  }

  // ---- reads ----

  /** The answer for a commit: its content, its version and its hash; DataLoss when the content is malformed. */
  function AnswerFor(cfg: Config, t: Tables, u: Uri, id: CommitId): Reply
    requires id in t.commits
  {
    var c := t.commits[id].content;
    if cfg.valid(u, c) then Prompt(Response(u, c, Sha(c), Some(id))) else Failed(DataLoss)
  }

  /** A pinned read answers the branch of that name, else this prompt's commit of that hash, else not found. */
  lemma {:induction false} PinnedRead(cfg: Config, w: World, call: Call)
    requires RefsOk(w.tables) && call.op.Get? && call.op.ref != "" && !Denied(call)
    ensures var t, u, ref := w.tables, call.op.uri, call.op.ref; var (w', r) := Step(cfg, w, call);
            && w' == w
            && ((u, ref) in t.refs ==> t.refs[(u, ref)] in t.commits && r == AnswerFor(cfg, t, u, t.refs[(u, ref)]))
            && ((u, ref) !in t.refs && ref in t.commits && t.commits[ref].uri == u ==> r == AnswerFor(cfg, t, u, ref))
            && (r == Failed(NotFoundCode) <==> (u, ref) !in t.refs && !(ref in t.commits && t.commits[ref].uri == u))
  {
  }

  /** An unpinned read that the cache does not answer returns the served HEAD, without a commit hash. */
  lemma {:induction false} HeadRead(cfg: Config, w: World, call: Call)
    requires call.op.Get? && call.op.ref == "" && !Denied(call) && (cfg.cached ==> call.op.uri !in w.cache)
    ensures var t, u, r := w.tables, call.op.uri, Step(cfg, w, call).1;
            && (r == Failed(NotFoundCode) <==> u !in t.prompts)
            && (r == Failed(DataLoss) <==> u in t.prompts && !cfg.valid(u, t.prompts[u]))
            && (u in t.prompts && cfg.valid(u, t.prompts[u]) ==> r == Prompt(Response(u, t.prompts[u], Sha(t.prompts[u]), None)))
  {
  }

  /** The branch a write moves. */
  function Moved(op: Op): Branch
    requires !op.Get?
  {
    match Spelled(op)
    case Publish(_, _, b, _, _) => b
    case Merge(_, b, _, _, _) => b
    case SetBranch(_, b, _) => b
    case CreateBranch(_, b, _) => b
    case Get(_, _) => ""
  }

  /** The content a write brings to that branch. */
  ghost function Brought(t: Tables, op: Op): Option<Content>
    requires !op.Get?
  {
    match Spelled(op)
    case Publish(_, c, _, _, _) => Some(c)
    case Merge(u, _, from, _, _) => if (u, from) in t.refs then ContentAt(t, t.refs[(u, from)]) else None
    case SetBranch(_, _, id) => ContentAt(t, id)
    case CreateBranch(u, _, from) => if (u, from) in t.refs then ContentAt(t, t.refs[(u, from)]) else None
    case Get(_, _) => None
  }

  function ContentAt(t: Tables, id: CommitId): Option<Content> {
    if id in t.commits then Some(t.commits[id].content) else None
  }

  /** After a write that succeeds its branch holds what it brought; only a repeated publish may find no branch to hold it. */
  lemma {:induction false} WriteLands(cfg: Config, w: World, call: Call)
    requires Inv(w.tables) && Legal(w, call) && !call.op.Get? && !Step(cfg, w, call).1.Failed?
    ensures var t, u, b := Step(cfg, w, call).0.tables, call.op.uri, Moved(call.op);
            && Brought(w.tables, call.op).Some?
            && ((u, b) in t.refs ==> ContentAt(t, t.refs[(u, b)]) == Brought(w.tables, call.op))
            && ((u, b) !in t.refs ==> call.op.Publish? && t == w.tables && HeldAlready(t, u, b, call.op.content))
  {
    StepKeepsInv(cfg, w, call);
    NoBranchIsMain(cfg, w, call);
    var spelled := call.(op := Spelled(call.op));
    match spelled.op
    case Publish(u, c, b, message, stamp) =>
      PublishLands(cfg, w, spelled);
    case Merge(u, into, from, message, stamp) => MovedBranchReadsBack(cfg, w, spelled);
    case SetBranch(u, branch, commit) => MovedBranchReadsBack(cfg, w, spelled);
    case CreateBranch(u, name, from) => MovedBranchReadsBack(cfg, w, spelled);
  }

  lemma {:induction false} PublishLands(cfg: Config, w: World, call: Call)
    requires Inv(w.tables) && call.op.Publish? && call.op.branch != "" && !Step(cfg, w, call).1.Failed?
    ensures var t, u, b := Step(cfg, w, call).0.tables, call.op.uri, call.op.branch;
            && ((u, b) in t.refs ==> ContentAt(t, t.refs[(u, b)]) == Some(call.op.content))
            && ((u, b) !in t.refs ==> t == w.tables && HeldAlready(t, u, b, call.op.content))
  {
    if Step(cfg, w, call).0.tables != w.tables {
      CommitReadsBack(w.tables, call.op.uri, call.op.branch, call.op.content, ScopeOf(call.caller), call.op.message, call.op.stamp);
    }
  }

  /** So reading that branch next returns what the write brought, with the hash of a commit that holds it. */
  lemma {:induction false} ReadAfterWrite(cfg: Config, w: World, call: Call, read: Call)
    requires Inv(w.tables) && Legal(w, call) && !call.op.Get? && !Step(cfg, w, call).1.Failed?
    requires read.op == Get(call.op.uri, Moved(call.op)) && !Denied(read) && Moved(call.op) != ""
    ensures var w', u, b := Step(cfg, w, call).0, call.op.uri, Moved(call.op); var r := Step(cfg, w', read).1;
            var c := Brought(w.tables, call.op);
            && c.Some?
            && ((u, b) in w'.tables.refs ==>
                  if cfg.valid(u, c.value) then r == Prompt(Response(u, c.value, Sha(c.value), Some(w'.tables.refs[(u, b)])))
                  else r == Failed(DataLoss))
            && ((u, b) !in w'.tables.refs && b != MAIN ==> r == AnswerFor(cfg, w'.tables, u, b) && ContentAt(w'.tables, b) == c)
  {
    WriteLands(cfg, w, call);
    StepKeepsInv(cfg, w, call);
    PinnedRead(cfg, Step(cfg, w, call).0, read);
  }

  // ---- who wrote it ----

  /** The name a commit carries: the token's subject, else its org, else anonymous. */
  lemma {:induction false} AuthorIsRecorded(cfg: Config, w: World, call: Call)
    requires Legal(w, call) && (call.op.Publish? || call.op.Merge?) && Step(cfg, w, call).0.tables != w.tables
    ensures var t, id := Step(cfg, w, call).0.tables, call.op.stamp.id;
            && id in t.commits && t.commits[id].message == call.op.message && t.commits[id].uri == call.op.uri
            && match call.caller
               case NoIdentity => t.commits[id].author == "anonymous"
               case Identity(org, sub, _) =>
                 && (sub != "" ==> t.commits[id].author == sub)
                 && (sub == "" && org != "" ==> t.commits[id].author == org)
                 && (sub == "" && org == "" ==> t.commits[id].author == "anonymous")
  {
    StepIsOneTransaction(cfg, w, call);
  }

  /** ListCommits gains exactly the commit a publish or merge wrote, for its own prompt only. */
  lemma {:induction false} ListGrowsByOne(cfg: Config, w: World, call: Call, u: Uri)
    requires Legal(w, call)
    ensures var t, t' := w.tables, Step(cfg, w, call).0.tables;
            t'.CommitsOf(u) == t.CommitsOf(u) + (if call.op.uri == u && (call.op.Publish? || call.op.Merge?) && t' != t then {call.op.stamp.id} else {})
    ensures EMPTY.CommitsOf(u) == {}
  {
    StepIsOneTransaction(cfg, w, call);
    CommitsGrow(w.tables, Step(cfg, w, call).0.tables, call.caller, call.op, u);
  }

  lemma {:induction false} CommitsGrow(t: Tables, t': Tables, caller: Caller, op: Op, u: Uri)
    requires OneTransaction(t, t', caller, op) && ((op.Publish? || op.Merge?) ==> op.stamp.id !in t.commits)
    ensures t'.CommitsOf(u) == t.CommitsOf(u) + (if op.uri == u && (op.Publish? || op.Merge?) && t' != t then {op.stamp.id} else {})
  {
  }

  // ---- nothing malformed is ever stored ----

  /** Every commit and every served prompt is valid for its URI. */
  ghost predicate StoreValid(valid: (Uri, Content) -> bool, t: Tables) {
    && (forall id :: id in t.commits ==> valid(t.commits[id].uri, t.commits[id].content))
    && (forall u :: u in t.prompts ==> valid(u, t.prompts[u]))
  }

  lemma {:induction false} InstallKeepsValid(valid: (Uri, Content) -> bool, t: Tables, b: Branch, id: CommitId, c: Commit)
    requires StoreValid(valid, t) && valid(c.uri, c.content)
    ensures StoreValid(valid, t.Install(b, id, c))
  {
  }

  /** What one transaction keeps, given that a publish brings valid content. */
  lemma {:induction false} TransactionKeepsValid(valid: (Uri, Content) -> bool, t: Tables, t': Tables, caller: Caller, op: Op)
    requires RefsOk(t) && StoreValid(valid, t) && OneTransaction(t, t', caller, op)
    requires op.Publish? && t' != t ==> valid(op.uri, op.content)
    ensures StoreValid(valid, t')
  {
    if t' != t {
      match op
      case Publish(u, c, b, message, stamp) =>
        InstallKeepsValid(valid, t, BranchOr(b), stamp.id, Tables.NewCommit(u, c, t.Tip(u, BranchOr(b)), ScopeOf(caller), message, stamp));
      case Merge(u, into, from, message, stamp) =>
        var ours, theirs := t.Tip(u, BranchOr(into)).value, t.Tip(u, from).value;
        assert t.refs[(u, from)] == theirs;
        InstallKeepsValid(valid, t, BranchOr(into), stamp.id, t.MergeCommit(u, ours, theirs, ScopeOf(caller), message, stamp));
      case SetBranch(_, _, _) =>
      case CreateBranch(_, _, _) =>
    }
  }

  /** No RPC stores a malformed prompt. */
  lemma {:induction false} StepKeepsStoreValid(cfg: Config, w: World, call: Call)
    requires Inv(w.tables) && StoreValid(cfg.valid, w.tables)
    ensures StoreValid(cfg.valid, Step(cfg, w, call).0.tables)
  {
    StepIsOneTransaction(cfg, w, call);
    if call.op.Publish? {
      DeniedChangesNothing(cfg, w, call);
      if !Denied(call) {
        InvalidIsRefused(cfg, w, call);
      }
    }
    TransactionKeepsValid(cfg.valid, w.tables, Step(cfg, w, call).0.tables, call.caller, call.op);
  }

  /** A read of a store that holds nothing malformed never reports data loss, pinned or not, cached or not. */
  lemma {:induction false} ValidStoreServes(cfg: Config, w: World, read: Call)
    requires Inv(w.tables) && StoreValid(cfg.valid, w.tables) && read.op.Get?
    ensures Step(cfg, w, read).1 != Failed(DataLoss)
  {
    DeniedChangesNothing(cfg, w, read);
    if !Denied(read) && read.op.ref != "" {
      PinnedRead(cfg, w, read);
    }
  }
}
