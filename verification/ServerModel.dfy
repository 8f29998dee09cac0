/**
 * The RPC handlers as functions on the server's whole state. Every handler runs
 * atomically here; Concurrent.dfy takes the same server apart into small steps.
 */
module ServerModel {
  import opened Basics
  import opened Lines
  import opened Auth
  import opened Store
  import opened Cache

  /** What the server is built with. Validation and the semantic diff live elsewhere and stay uninterpreted. */
  datatype Config = Config(valid: (Uri, Content) -> bool,
                           analyze: Option<(seq<string>, seq<string>) -> string>,
                           cached: bool, notifies: bool, ttl: int)

  datatype Event = Event(uri: Uri, version: Version, verdict: string)

  /** events is the log of what was handed to the notifier. */
  datatype World = World(tables: Tables, cache: Entries, events: seq<Event>)

  datatype Code = PermissionDenied | InvalidArgument | NotFoundCode | AlreadyExistsCode | Aborted | Unavailable | DataLoss | Internal

  datatype Reply = Failed(code: Code) | Published(version: Version) | Prompt(resp: Response) | CommitHash(id: CommitId)

  datatype Op =
    | Publish(uri: Uri, content: Content, branch: Branch, message: string, stamp: Stamp)
    | Get(uri: Uri, ref: string)
    | Merge(uri: Uri, into: Branch, from: Branch, message: string, stamp: Stamp)
    | SetBranch(uri: Uri, branch: Branch, commit: CommitId)
    | CreateBranch(uri: Uri, name: Branch, from: Branch)

  /** The faults one call suffers: a failed store transaction, a failed clear, a lost cache read or write. */
  datatype Faults = Faults(store: Option<StoreError>, clear: Clearing, lostGet: bool, lostPut: bool)

  datatype Call = Call(caller: Caller, now: int, op: Op, faults: Faults)

  function StatusOf(e: StoreError): Code {
    match e
    case NotFound => NotFoundCode
    case BranchNotFound => NotFoundCode
    case AlreadyExists => AlreadyExistsCode
    case Conflict => Aborted
    case Down => Unavailable
    case Other => Internal
  }

  function BranchOr(b: Branch): Branch {
    if b == "" then MAIN else b
  }

  /** The verdict of an edit; empty without an embedder or a prior version. */
  function Classify(cfg: Config, oldT: string, newT: string): string {
    if cfg.analyze.None? || oldT == "" then "" else cfg.analyze.value(SplitLines(oldT), SplitLines(newT))
  }

  function HeadResponse(uri: Uri, c: Content): Response {
    Response(uri, c, Sha(c), None)
  }

  /** Clear one URI; with no cache there is nothing to clear and nothing to fail. */
  function Invalidate(cfg: Config, w: World, uri: Uri, fault: Clearing): (World, bool) {
    if !cfg.cached then (w, true) else (w.(cache := Dropped(w.cache, uri, fault)), fault.Cleared?)
  }

  function Notify(cfg: Config, w: World, e: Event): World {
    if cfg.notifies then w.(events := w.events + [e]) else w
  }

  function GetRpc(cfg: Config, w: World, caller: Caller, uri: Uri, ref: string, now: int, f: Faults): (World, Reply) {
    if !Authorized(caller, uri) then (w, Failed(PermissionDenied))
    else if ref != "" then (w, GetByRef(cfg, w.tables, uri, ref))
    else
      match if cfg.cached then Hit(w.cache, uri, now, f.lostGet) else None
      case Some(resp) => (w, Prompt(resp))
      case None =>
        if uri !in w.tables.prompts then (w, Failed(NotFoundCode))
        else
          var c := w.tables.prompts[uri];
          if !cfg.valid(uri, c) then (w, Failed(DataLoss))
          else (if cfg.cached then w.(cache := Stored(w.cache, uri, HeadResponse(uri, c), now + cfg.ttl, f.lostPut)) else w,
                Prompt(HeadResponse(uri, c)))
  }

  function GetByRef(cfg: Config, t: Tables, uri: Uri, ref: string): Reply {
    match t.Resolve(uri, ref)
    case None => Failed(NotFoundCode)
    case Some(c) =>
      if !cfg.valid(uri, c.content) then Failed(DataLoss)
      else Prompt(Response(uri, c.content, Sha(c.content), Some(if t.Tip(uri, ref).Some? then t.Tip(uri, ref).value else ref)))
  }

  function PublishRpc(cfg: Config, w: World, caller: Caller, uri: Uri, content: Content, branchArg: Branch,
                      message: string, stamp: Stamp, f: Faults): (World, Reply)
  {
    var branch := BranchOr(branchArg);
    var tip := w.tables.Resolve(uri, branch);
    var prev := Lookup(w.tables.prompts, uri);
    if !Authorized(caller, uri) || !MayWrite(caller) then (w, Failed(PermissionDenied))
    else if !cfg.valid(uri, content) then (w, Failed(InvalidArgument))
    else if branch != MAIN && tip.Some? && tip.value.content == content then (w, Published(Sha(content)))
    else if branch == MAIN && prev == Some(content) then
      var (w1, ok) := Invalidate(cfg, w, uri, f.clear);
      (w1, if ok then Published(Sha(content)) else Failed(Unavailable))
    else if f.store.Some? then (w, Failed(StatusOf(f.store.value)))
    else
      var w1 := w.(tables := w.tables.CommitOn(uri, branch, content, ScopeOf(caller), message, stamp));
      if branch != MAIN then (w1, Published(Sha(content)))
      else
        var verdict := if prev.Some? then Classify(cfg, prev.value.template, content.template) else "new";
        var (w2, ok) := Invalidate(cfg, w1, uri, f.clear);
        (Notify(cfg, w2, Event(uri, Sha(content), verdict)), if ok then Published(Sha(content)) else Failed(Unavailable))
  }

  function MergeRpc(cfg: Config, w: World, caller: Caller, uri: Uri, into: Branch, from: Branch,
                    message: string, stamp: Stamp, f: Faults): (World, Reply)
  {
    if !Authorized(caller, uri) || !MayWrite(caller) then (w, Failed(PermissionDenied))
    else if f.store.Some? then (w, Failed(StatusOf(f.store.value)))
    else
      match w.tables.MergeInto(uri, BranchOr(into), from, ScopeOf(caller), message, stamp)
      case Err(e) => (w, Failed(StatusOf(e)))
      case Ok(t) =>
        var w1 := w.(tables := t);
        if BranchOr(into) != MAIN then (w1, CommitHash(stamp.id))
        else
          var prev := Lookup(w.tables.prompts, uri);
          var c := t.commits[stamp.id].content;
          var (w2, ok) := Invalidate(cfg, w1, uri, f.clear);
          var oldT := if prev.Some? then prev.value.template else "";
          (if prev == Some(c) then w2 else Notify(cfg, w2, Event(uri, Sha(c), Classify(cfg, oldT, c.template))),
           if ok then CommitHash(stamp.id) else Failed(Unavailable))
  }

  function SetBranchRpc(cfg: Config, w: World, caller: Caller, uri: Uri, branchArg: Branch, commit: CommitId, f: Faults): (World, Reply) {
    var branch := BranchOr(branchArg);
    if !Authorized(caller, uri) || !MayWrite(caller) then (w, Failed(PermissionDenied))
    else if commit == "" then (w, Failed(InvalidArgument))
    else if f.store.Some? then (w, Failed(StatusOf(f.store.value)))
    else
      match w.tables.PointTo(uri, branch, commit)
      case Err(e) => (w, Failed(StatusOf(e)))
      case Ok(t) =>
        var w1 := w.(tables := t);
        var c := t.commits[commit].content;
        if branch != MAIN then (w1, Published(Sha(c)))
        else
          var (w2, ok) := Invalidate(cfg, w1, uri, f.clear);
          var oldT := if uri in w.tables.prompts then w.tables.prompts[uri].template else "";
          if !ok then (w2, Failed(Unavailable))
          else (Notify(cfg, w2, Event(uri, Sha(c), Classify(cfg, oldT, c.template))), Published(Sha(c)))
  }

  function CreateBranchRpc(w: World, caller: Caller, uri: Uri, name: Branch, from: Branch, f: Faults): (World, Reply) {
    if !Authorized(caller, uri) || !MayWrite(caller) then (w, Failed(PermissionDenied))
    else if name == "" then (w, Failed(InvalidArgument))
    else if f.store.Some? then (w, Failed(StatusOf(f.store.value)))
    else
      match w.tables.NewBranch(uri, name, BranchOr(from))
      case Err(e) => (w, Failed(StatusOf(e)))
      case Ok(t) => (w.(tables := t), CommitHash(t.refs[(uri, name)]))
  }

  function Step(cfg: Config, w: World, call: Call): (World, Reply) {
    match call.op
    case Publish(uri, content, branch, message, stamp) => PublishRpc(cfg, w, call.caller, uri, content, branch, message, stamp, call.faults)
    case Get(uri, ref) => GetRpc(cfg, w, call.caller, uri, ref, call.now, call.faults)
    case Merge(uri, into, from, message, stamp) => MergeRpc(cfg, w, call.caller, uri, into, from, message, stamp, call.faults)
    case SetBranch(uri, branch, commit) => SetBranchRpc(cfg, w, call.caller, uri, branch, commit, call.faults)
    case CreateBranch(uri, name, from) => CreateBranchRpc(w, call.caller, uri, name, from, call.faults)
  }

  // ---- sequential runs ----

  /** New commits get new hashes. */
  ghost predicate Legal(w: World, call: Call) {
    (call.op.Publish? || call.op.Merge?) ==> Fresh(w.tables, call.op.stamp)
  }

  function Run(cfg: Config, w: World, calls: seq<Call>): World
    decreases |calls|
  {
    if calls == [] then w else Run(cfg, Step(cfg, w, calls[0]).0, calls[1..])
  }

  function Replies(cfg: Config, w: World, calls: seq<Call>): seq<Reply>
    decreases |calls|
  {
    if calls == [] then [] else var (w1, r) := Step(cfg, w, calls[0]); [r] + Replies(cfg, w1, calls[1..])
  }

  ghost predicate LegalRun(cfg: Config, w: World, calls: seq<Call>)
    decreases |calls|
  {
    calls != [] ==> Legal(w, calls[0]) && LegalRun(cfg, Step(cfg, w, calls[0]).0, calls[1..])
  }
}
