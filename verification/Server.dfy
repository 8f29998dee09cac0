/** The server object: handlers that work step by step on a store, a cache and a notifier. */
module Server {
  import opened Basics
  import opened Auth
  import opened Store
  import opened Cache
  import opened Databases
  import opened ServerModel

  /** The notifier: an append-only log of change events. */
  class Bus {
    var events: seq<Event>

    constructor ()
      ensures events == []
    {
      events := [];
    }

    method Publish(uri: Uri, version: Version, verdict: string)
      modifies this
      ensures events == old(events) + [Event(uri, version, verdict)]
    {
      events := events + [Event(uri, version, verdict)];
    }
  }

  class PromptServer {
    const cfg: Config
    const db: Database
    const cache: TtlCache?
    const bus: Bus?

    /** The configuration says which parts are wired in. */
    ghost predicate Valid()
    {
      && cfg.cached == (cache != null)
      && cfg.notifies == (bus != null)
      && (cache != null ==> cache.ttl == cfg.ttl)
    }

    /** The server's whole state as one value. */
    ghost function State(): World
      reads db, cache, bus
    {
      World(db.t, if cache != null then cache.m else map[], if bus != null then bus.events else [])
    }

    constructor (cfg: Config)
      ensures Valid() && fresh(db) && (cache != null ==> fresh(cache)) && (bus != null ==> fresh(bus))
      ensures this.cfg == cfg && State() == World(EMPTY, map[], [])
    {
      this.cfg := cfg;
      db := new Database();
      if cfg.cached {
        cache := new TtlCache(cfg.ttl);
      } else {
        cache := null;
      }
      if cfg.notifies {
        bus := new Bus();
      } else {
        bus := null;
      }
    }

    method ClearCache(uri: Uri, fault: Clearing) returns (ok: bool)
      requires Valid()
      modifies cache
      ensures (State(), ok) == ServerModel.Invalidate(cfg, old(State()), uri, fault)
    {
      if cache == null {
        return true;
      }
      ok := cache.Invalidate(uri, fault);
    }

    method GetPrompt(caller: Caller, uri: Uri, ref: string, now: int, f: Faults) returns (reply: Reply)
      requires Valid()
      modifies cache
      ensures (State(), reply) == GetRpc(cfg, old(State()), caller, uri, ref, now, f)
    {
      if !Authorized(caller, uri) {
        return Failed(PermissionDenied);
      }
      if ref != "" {
        reply := GetPinned(uri, ref);
        return;
      }
      if cache != null {
        var hit := cache.Get(uri, now, f.lostGet);
        if hit.Some? {
          return Prompt(hit.value);
        }
      }
      if uri !in db.t.prompts {
        return Failed(NotFoundCode);
      }
      var p := db.t.prompts[uri];
      if !cfg.valid(uri, p) {
        return Failed(DataLoss);
      }
      var resp := Response(uri, p, Sha(p), None);
      if cache != null {
        cache.Put(uri, resp, now, f.lostPut);
      }
      return Prompt(resp);
    }

    method GetPinned(uri: Uri, ref: string) returns (reply: Reply)
      ensures reply == GetByRef(cfg, db.t, uri, ref)
    {
      var c := db.t.Resolve(uri, ref);
      if c.None? {
        return Failed(NotFoundCode);
      }
      if !cfg.valid(uri, c.value.content) {
        return Failed(DataLoss);
      }
      var tip := db.t.Tip(uri, ref);
      return Prompt(Response(uri, c.value.content, Sha(c.value.content), Some(if tip.Some? then tip.value else ref)));
    }

    method PublishPrompt(caller: Caller, uri: Uri, content: Content, branchArg: Branch, message: string, stamp: Stamp, f: Faults)
      returns (reply: Reply)
      requires Valid()
      modifies db, cache, bus
      ensures (State(), reply) == PublishRpc(cfg, old(State()), caller, uri, content, branchArg, message, stamp, f)
    {
      if !Authorized(caller, uri) || !MayWrite(caller) {
        return Failed(PermissionDenied);
      }
      if !cfg.valid(uri, content) {
        return Failed(InvalidArgument);
      }
      var branch := BranchOr(branchArg);
      var onMain := branch == MAIN;
      var verdict := "";
      if !onMain {
        var tip := db.t.Resolve(uri, branch);
        if tip.Some? && tip.value.content == content {
          return Published(Sha(content));
        }
      } else if uri in db.t.prompts {
        var prev := db.t.prompts[uri];
        if prev == content {
          var ok := ClearCache(uri, f.clear);
          return if ok then Published(Sha(content)) else Failed(Unavailable);
        }
        verdict := Classify(cfg, prev.template, content.template);
      } else {
        verdict := "new";
      }
      var committed := db.Commit(uri, branch, content, ScopeOf(caller), message, stamp, f.store);
      if committed.Err? {
        return Failed(StatusOf(committed.error));
      }
      if onMain {
        var ok := ClearCache(uri, f.clear);
        if bus != null {
          bus.Publish(uri, Sha(content), verdict);
        }
        if !ok {
          return Failed(Unavailable);
        }
      }
      return Published(Sha(content));
    }

    method MergeBranch(caller: Caller, uri: Uri, into: Branch, from: Branch, message: string, stamp: Stamp, f: Faults)
      returns (reply: Reply)
      requires Valid()
      modifies db, cache, bus
      ensures (State(), reply) == MergeRpc(cfg, old(State()), caller, uri, into, from, message, stamp, f)
    {
      if !Authorized(caller, uri) || !MayWrite(caller) {
        return Failed(PermissionDenied);
      }
      var onMain := BranchOr(into) == MAIN;
      var prevVersion, prevTemplate := NoVersion, "";
      if onMain && uri in db.t.prompts {
        prevVersion, prevTemplate := Sha(db.t.prompts[uri]), db.t.prompts[uri].template;
      }
      var merged := db.Merge(uri, BranchOr(into), from, ScopeOf(caller), message, stamp, f.store);
      if merged.Err? {
        return Failed(StatusOf(merged.error));
      }
      if onMain {
        var ok := ClearCache(uri, f.clear);
        if bus != null {
          var c := db.t.commits[merged.value];
          if Sha(c.content) != prevVersion {
            bus.Publish(uri, Sha(c.content), Classify(cfg, prevTemplate, c.content.template));
          }
        }
        if !ok {
          return Failed(Unavailable);
        }
      }
      return CommitHash(merged.value);
    }

    method SetBranch(caller: Caller, uri: Uri, branchArg: Branch, commit: CommitId, f: Faults) returns (reply: Reply)
      requires Valid()
      modifies db, cache, bus
      ensures (State(), reply) == SetBranchRpc(cfg, old(State()), caller, uri, branchArg, commit, f)
    {
      if !Authorized(caller, uri) || !MayWrite(caller) {
        return Failed(PermissionDenied);
      }
      if commit == "" {
        return Failed(InvalidArgument);
      }
      var branch := BranchOr(branchArg);
      var prevTemplate := "";
      if branch == MAIN && uri in db.t.prompts {
        prevTemplate := db.t.prompts[uri].template;
      }
      var moved := db.SetBranch(uri, branch, commit, f.store);
      if moved.Err? {
        return Failed(StatusOf(moved.error));
      }
      var c := moved.value.content;
      if branch == MAIN {
        var ok := ClearCache(uri, f.clear);
        if !ok {
          return Failed(Unavailable);
        }
        if bus != null {
          bus.Publish(uri, Sha(c), Classify(cfg, prevTemplate, c.template));
        }
      }
      return Published(Sha(c));
    }

    method CreateBranch(caller: Caller, uri: Uri, name: Branch, from: Branch, f: Faults) returns (reply: Reply)
      requires Valid()
      modifies db
      ensures (State(), reply) == CreateBranchRpc(old(State()), caller, uri, name, from, f)
    {
      if !Authorized(caller, uri) || !MayWrite(caller) {
        return Failed(PermissionDenied);
      }
      if name == "" {
        return Failed(InvalidArgument);
      }
      var made := db.Branch(uri, name, BranchOr(from), f.store);
      if made.Err? {
        return Failed(StatusOf(made.error));
      }
      return CommitHash(made.value);
    }
  }
}
