/** The two models agree: a request whose small steps run without interruption does exactly what its handler does. */
module Atomicity {
  import opened Basics
  import opened Auth
  import opened Store
  import opened Cache
  import opened ServerModel
  import opened Concurrent

  /** What the handlers see of a state: without a notifier there is no log. */
  ghost function View(p: Params, s: State): World {
    World(s.tables, s.cache, if p.cfg.notifies then s.events else [])
  }

  /** A server without a cache is one whose cache stays empty: puts are lost and clears succeed. */
  ghost predicate Fits(p: Params, s: State) {
    p.cfg.cached || s.cache == map[]
  }

  function ClearOf(p: Params, f: Faults): Clearing {
    if p.cfg.cached then f.clear else Cleared
  }

  /** A request's steps, one after the other with nothing in between. */
  ghost function Alone(p: Params, s: State, th: Thread, actions: seq<Action>): Option<(State, Thread)>
    decreases |actions|
  {
    if actions == [] then Some((s, th))
    else
      match Act(p, s, th, actions[0])
      case None => None
      case Some(e) => Alone(p, s.(tables := e.tables, cache := e.cache, events := e.events), e.next, actions[1..])
  }

  lemma {:induction false} AloneStep(p: Params, s: State, th: Thread, a: Action, rest: seq<Action>)
    requires Act(p, s, th, a).Some?
    ensures var e := Act(p, s, th, a).value;
            Alone(p, s, th, [a] + rest) == Alone(p, s.(tables := e.tables, cache := e.cache, events := e.events), e.next, rest)
  {
    assert ([a] + rest)[1..] == rest;
  }

  /** How a finished write reports to its caller. */
  predicate Reports(outcome: Outcome, reply: Reply) {
    match outcome
    case Succeeded(_) => !reply.Failed?
    case NotClearedYet => reply == Failed(Unavailable)
    case Conflicted => reply == Failed(Aborted)
    case Refused => reply.Failed?
  }

  ghost predicate Matches(p: Params, end: Option<(State, Thread)>, result: (World, Reply)) {
    end.Some? && View(p, end.value.0) == result.0 && end.value.1.Done? && Reports(end.value.1.outcome, result.1)
  }

  /** Clearing and announcing, from the commit on. */
  lemma {:induction false} SettleAlone(p: Params, s: State, req: Request, prev: Option<Content>, id: CommitId, clear: Clearing)
    requires id in s.tables.commits
    ensures var s1 := s.(cache := Dropped(s.cache, req.uri, clear));
            var e := Act(p, s1, Clean(req, prev, id, clear.Cleared?), Announce);
            e.Some? && Alone(p, s, Committed(req, prev, id), [Clear(clear)] + [Announce])
                       == Some((s1.(events := e.value.events), e.value.next))
  {
    var s1 := s.(cache := Dropped(s.cache, req.uri, clear));
    AloneStep(p, s, Committed(req, prev, id), Clear(clear), [Announce]);
    assert [Announce] == [Announce] + [];
    AloneStep(p, s1, Clean(req, prev, id, clear.Cleared?), Announce, []);
  }

  /** Check, read the tip, compare-and-swap: uninterrupted, the swap always succeeds. */
  lemma {:induction false} CommitAlone(p: Params, s: State, req: Request, stamp: Stamp, t: Tables, tail: seq<Action>)
    requires Fresh(s.tables, stamp)
    requires var served := if req.branch == MAIN then Lookup(s.tables.prompts, req.uri) else None;
             match req
             case PublishTo(u, b, c, author, message) =>
               && (b == MAIN ==> served != Some(c))
               && (b != MAIN ==> s.tables.Resolve(u, b).None? || s.tables.Resolve(u, b).value.content != c)
               && t == s.tables.CommitOn(u, b, c, author, message, stamp)
             case MergeTo(u, b, from, author, message) => Ok(t) == s.tables.MergeInto(u, b, from, author, message, stamp)
             case PointBranch(_, _, _) => false
    ensures var served := if req.branch == MAIN then Lookup(s.tables.prompts, req.uri) else None;
            Alone(p, s, Started(req), [Check] + ([ReadTip] + ([Advance(stamp)] + tail)))
            == Alone(p, s.(tables := t),
                     if req.branch == MAIN then Committed(req, served, stamp.id) else Done(req, Succeeded(Some(stamp.id))), tail)
  {
    var served := if req.branch == MAIN then Lookup(s.tables.prompts, req.uri) else None;
    var theirs := if req.MergeTo? then s.tables.Tip(req.uri, req.from) else None;
    var th := TipRead(req, served, s.tables.Tip(req.uri, req.branch), theirs);
    AloneStep(p, s, Started(req), Check, [ReadTip] + ([Advance(stamp)] + tail));
    AloneStep(p, s, Checked(req, served), ReadTip, [Advance(stamp)] + tail);
    AloneStep(p, s, th, Advance(stamp), tail);
  }

  /** A write whose transaction fails, or that has nothing to merge or point at, stops there and changes nothing. */
  lemma {:induction false} RefusedAlone(p: Params, s: State, req: Request, a: Action)
    requires req.PublishTo? && req.branch == MAIN ==> Lookup(s.tables.prompts, req.uri) != Some(req.content)
    requires req.PublishTo? && req.branch != MAIN ==>
               !(s.tables.Resolve(req.uri, req.branch).Some? && s.tables.Resolve(req.uri, req.branch).value.content == req.content)
    requires || a.FailStore?
             || (a.ReadTip? && req.MergeTo? && (s.tables.Tip(req.uri, req.branch).None? || s.tables.Tip(req.uri, req.from).None?))
             || (a.Point? && req.PointBranch? && s.tables.PointTo(req.uri, req.branch, req.commit).Err?)
    ensures Alone(p, s, Started(req), [Check] + ([a] + [])) == Some((s, Done(req, Refused)))
  {
    var served := if req.branch == MAIN then Lookup(s.tables.prompts, req.uri) else None;
    AloneStep(p, s, Started(req), Check, [a] + []);
    AloneStep(p, s, Checked(req, served), a, []);
  }

  /** A publish alone, of content that is served already, is the publish handler. */
  lemma {:induction false} RepublishAlone(p: Params, s: State, caller: Caller, u: Uri, c: Content, b: Branch, message: string, stamp: Stamp, f: Faults)
    requires Fits(p, s)
    requires Authorized(caller, u) && MayWrite(caller) && p.cfg.valid(u, c)
    requires BranchOr(b) == MAIN && Lookup(s.tables.prompts, u) == Some(c)
    ensures Matches(p, Alone(p, s, Started(PublishTo(u, MAIN, c, ScopeOf(caller), message)), [Check] + ([Clear(ClearOf(p, f))] + [])),
                    PublishRpc(p.cfg, View(p, s), caller, u, c, b, message, stamp, f))
  {
    var req := PublishTo(u, MAIN, c, ScopeOf(caller), message);
    AloneStep(p, s, Started(req), Check, [Clear(ClearOf(p, f))] + []);
    AloneStep(p, s, Reclearing(req), Clear(ClearOf(p, f)), []);
  }

  /** The steps of a write that commits: to main it goes on to clear and announce. */
  function Script(p: Params, b: Branch, stamp: Stamp, f: Faults): seq<Action> {
    if f.store.Some? then [Check] + ([FailStore] + [])
    else [Check] + ([ReadTip] + ([Advance(stamp)] + Rest(p, b, f)))
  }

  function Rest(p: Params, b: Branch, f: Faults): seq<Action> {
    if b == MAIN then [Clear(ClearOf(p, f))] + [Announce] else []
  }

  /** A publish alone, of new content for main, is the publish handler. */
  lemma {:induction false} PublishAlone(p: Params, s: State, caller: Caller, u: Uri, c: Content, b: Branch, message: string, stamp: Stamp, f: Faults)
    requires Fits(p, s) && Fresh(s.tables, stamp)
    requires Authorized(caller, u) && MayWrite(caller) && p.cfg.valid(u, c)
    requires BranchOr(b) == MAIN && Lookup(s.tables.prompts, u) != Some(c)
    ensures Matches(p, Alone(p, s, Started(PublishTo(u, MAIN, c, ScopeOf(caller), message)), Script(p, MAIN, stamp, f)),
                    PublishRpc(p.cfg, View(p, s), caller, u, c, b, message, stamp, f))
  {
    var req := PublishTo(u, MAIN, c, ScopeOf(caller), message);
    if f.store.Some? {
      RefusedAlone(p, s, req, FailStore);
    } else {
      var t := s.tables.CommitOn(u, MAIN, c, ScopeOf(caller), message, stamp);
      CommitAlone(p, s, req, stamp, t, Rest(p, MAIN, f));
      SettleAlone(p, s.(tables := t), req, Lookup(s.tables.prompts, u), stamp.id, ClearOf(p, f));
    }
  }

  /** A publish alone, to another branch, is the publish handler. */
  lemma {:induction false} BranchPublishAlone(p: Params, s: State, caller: Caller, u: Uri, c: Content, b: Branch, message: string, stamp: Stamp, f: Faults)
    requires Fits(p, s) && Fresh(s.tables, stamp)
    requires Authorized(caller, u) && MayWrite(caller) && p.cfg.valid(u, c) && BranchOr(b) != MAIN
    ensures var held := s.tables.Resolve(u, b).Some? && s.tables.Resolve(u, b).value.content == c;
            Matches(p, Alone(p, s, Started(PublishTo(u, b, c, ScopeOf(caller), message)),
                             if held then [Check] + [] else Script(p, b, stamp, f)),
                    PublishRpc(p.cfg, View(p, s), caller, u, c, b, message, stamp, f))
  {
    var req := PublishTo(u, b, c, ScopeOf(caller), message);
    if s.tables.Resolve(u, b).Some? && s.tables.Resolve(u, b).value.content == c {
      AloneStep(p, s, Started(req), Check, []);
    } else if f.store.Some? {
      RefusedAlone(p, s, req, FailStore);
    } else {
      CommitAlone(p, s, req, stamp, s.tables.CommitOn(u, b, c, ScopeOf(caller), message, stamp), []);
    }
  }

  lemma {:induction false} AcceptedMergeAlone(p: Params, s: State, caller: Caller, u: Uri, into: Branch, from: Branch, message: string, stamp: Stamp, f: Faults)
    requires Fits(p, s) && Fresh(s.tables, stamp) && f.store.None? && Authorized(caller, u) && MayWrite(caller)
    requires s.tables.MergeInto(u, BranchOr(into), from, ScopeOf(caller), message, stamp).Ok?
    ensures Matches(p, Alone(p, s, Started(MergeTo(u, BranchOr(into), from, ScopeOf(caller), message)), Script(p, BranchOr(into), stamp, f)),
                    MergeRpc(p.cfg, View(p, s), caller, u, into, from, message, stamp, f))
  {
    var b := BranchOr(into);
    var req := MergeTo(u, b, from, ScopeOf(caller), message);
    var t := s.tables.MergeInto(u, b, from, ScopeOf(caller), message, stamp).value;
    CommitAlone(p, s, req, stamp, t, Rest(p, b, f));
    if b == MAIN {
      SettleAlone(p, s.(tables := t), req, Lookup(s.tables.prompts, u), stamp.id, ClearOf(p, f));
    }
  }

  /** A merge alone, into any branch, accepted or refused, is the merge handler. */
  lemma {:induction false} MergeAlone(p: Params, s: State, caller: Caller, u: Uri, into: Branch, from: Branch, message: string, stamp: Stamp, f: Faults)
    requires Fits(p, s) && Fresh(s.tables, stamp) && RefsOk(s.tables)
    requires Authorized(caller, u) && MayWrite(caller)
    ensures var b := BranchOr(into);
            var refused := f.store.None? && s.tables.MergeInto(u, b, from, ScopeOf(caller), message, stamp).Err?;
            Matches(p, Alone(p, s, Started(MergeTo(u, b, from, ScopeOf(caller), message)),
                             if refused then [Check] + ([ReadTip] + []) else Script(p, b, stamp, f)),
                    MergeRpc(p.cfg, View(p, s), caller, u, into, from, message, stamp, f))
  {
    var b := BranchOr(into);
    var req := MergeTo(u, b, from, ScopeOf(caller), message);
    if f.store.Some? {
      RefusedAlone(p, s, req, FailStore);
    } else if s.tables.MergeInto(u, b, from, ScopeOf(caller), message, stamp).Err? {
      RefusedAlone(p, s, req, ReadTip);
    } else {
      AcceptedMergeAlone(p, s, caller, u, into, from, message, stamp, f);
    }
  }

  lemma {:induction false} PointAlone(p: Params, s: State, req: Request, tail: seq<Action>)
    requires req.PointBranch? && s.tables.PointTo(req.uri, req.branch, req.commit).Ok?
    ensures var served := if req.branch == MAIN then Lookup(s.tables.prompts, req.uri) else None;
            Alone(p, s, Started(req), [Check] + ([Point] + tail))
            == Alone(p, s.(tables := s.tables.PointTo(req.uri, req.branch, req.commit).value),
                     if req.branch == MAIN then Committed(req, served, req.commit) else Done(req, Succeeded(None)), tail)
  {
    var served := if req.branch == MAIN then Lookup(s.tables.prompts, req.uri) else None;
    AloneStep(p, s, Started(req), Check, [Point] + tail);
    AloneStep(p, s, Checked(req, served), Point, tail);
  }

  lemma {:induction false} AcceptedPointAlone(p: Params, s: State, caller: Caller, u: Uri, branch: Branch, id: CommitId, f: Faults)
    requires Fits(p, s) && Authorized(caller, u) && MayWrite(caller) && id != "" && f.store.None?
    requires s.tables.PointTo(u, BranchOr(branch), id).Ok?
    ensures var b := BranchOr(branch);
            Matches(p, Alone(p, s, Started(PointBranch(u, b, id)), [Check] + ([Point] + Rest(p, b, f))),
                    SetBranchRpc(p.cfg, View(p, s), caller, u, branch, id, f))
  {
    var b := BranchOr(branch);
    var req := PointBranch(u, b, id);
    PointAlone(p, s, req, Rest(p, b, f));
    if b == MAIN {
      SettleAlone(p, s.(tables := s.tables.PointTo(u, b, id).value), req, Lookup(s.tables.prompts, u), id, ClearOf(p, f));
    }
  }

  /** A rollback or pin alone, of any branch, accepted or refused, is the SetBranch handler. */
  lemma {:induction false} SetBranchAlone(p: Params, s: State, caller: Caller, u: Uri, branch: Branch, id: CommitId, f: Faults)
    requires Fits(p, s) && Authorized(caller, u) && MayWrite(caller) && id != ""
    ensures var b := BranchOr(branch);
            Matches(p, Alone(p, s, Started(PointBranch(u, b, id)),
                             if f.store.Some? then [Check] + ([FailStore] + [])
                             else if s.tables.PointTo(u, b, id).Err? then [Check] + ([Point] + [])
                             else [Check] + ([Point] + Rest(p, b, f))),
                    SetBranchRpc(p.cfg, View(p, s), caller, u, branch, id, f))
  {
    var b := BranchOr(branch);
    var req := PointBranch(u, b, id);
    if f.store.Some? {
      RefusedAlone(p, s, req, FailStore);
    } else if s.tables.PointTo(u, b, id).Err? {
      RefusedAlone(p, s, req, Point);
    } else {
      AcceptedPointAlone(p, s, caller, u, branch, id, f);
    }
  }

  /** A read alone is the read handler: a hit, or a load, put and answer. */
  lemma {:induction false} ReadAlone(p: Params, s: State, caller: Caller, u: Uri, f: Faults)
    requires Fits(p, s) && Authorized(caller, u)
    ensures var (w', reply) := GetRpc(p.cfg, View(p, s), caller, u, "", s.now, f);
            var hit := Hit(s.cache, u, s.now, f.lostGet);
            var lost := f.lostPut || !p.cfg.cached;
            var script := if hit.Some? then [HitCache] + [] else if u in s.tables.prompts then [LoadStore] + ([PutAndAnswer(lost)] + []) else [LoadStore] + [];
            var end := Alone(p, s, Reading(u), script);
            && end.Some? && View(p, end.value.0) == w'
            && (reply.Prompt? ==> end.value.1 == Answered(u, reply.resp))
            && (reply.Failed? ==> end.value.1 == Unanswered(u))
  {
    var lost := f.lostPut || !p.cfg.cached;
    if Hit(s.cache, u, s.now, f.lostGet).Some? {
      AloneStep(p, s, Reading(u), HitCache, []);
    } else if u in s.tables.prompts {
      AloneStep(p, s, Reading(u), LoadStore, [PutAndAnswer(lost)] + []);
      AloneStep(p, s, Holding(u, s.tables.prompts[u], s.now), PutAndAnswer(lost), []);
    } else {
      AloneStep(p, s, Reading(u), LoadStore, []);
    }
  }
}
