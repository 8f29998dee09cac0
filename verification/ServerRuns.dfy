/** What every sequential run of the server keeps, with store transactions and cache clears failing at will. */
module ServerRuns {
  import opened Basics
  import opened Lines
  import opened Auth
  import opened Store
  import opened Cache
  import opened ServerModel

  /** A write that targets the served HEAD: it names main, or no branch at all. */
  predicate OnMain(op: Op) {
    match op
    case Publish(_, _, branch, _, _) => branch == "" || branch == MAIN
    case Merge(_, into, _, _, _) => into == "" || into == MAIN
    case SetBranch(_, branch, _) => branch == "" || branch == MAIN
    case _ => false
  }

  // ---- the store invariant over runs ----

  /** A call runs at most one store transaction. */
  ghost predicate OneTransaction(t: Tables, t': Tables, caller: Caller, op: Op) {
    t' == t ||
    match op
    case Publish(uri, content, branch, message, stamp) =>
      t' == t.CommitOn(uri, BranchOr(branch), content, ScopeOf(caller), message, stamp)
    case Merge(uri, into, from, message, stamp) =>
      Ok(t') == t.MergeInto(uri, BranchOr(into), from, ScopeOf(caller), message, stamp)
    case SetBranch(uri, branch, commit) => Ok(t') == t.PointTo(uri, BranchOr(branch), commit)
    case CreateBranch(uri, name, from) => Ok(t') == t.NewBranch(uri, name, BranchOr(from))
    case Get(_, _) => false
  }

  lemma {:induction false} StepIsOneTransaction(cfg: Config, w: World, call: Call)
    ensures OneTransaction(w.tables, Step(cfg, w, call).0.tables, call.caller, call.op)
  {
  }

  lemma {:induction false} TransactionKeepsInv(t: Tables, t': Tables, caller: Caller, op: Op)
    requires Inv(t) && OneTransaction(t, t', caller, op)
    requires (op.Publish? || op.Merge?) ==> Fresh(t, op.stamp)
    ensures Keeps(t, t')
  {
    if t' != t {
      match op
      case Publish(uri, content, branch, message, stamp) => CommitKeeps(t, uri, BranchOr(branch), content, ScopeOf(caller), message, stamp);
      case Merge(uri, into, from, message, stamp) => MergeKeeps(t, uri, BranchOr(into), from, ScopeOf(caller), message, stamp);
      case SetBranch(uri, branch, commit) => PointKeeps(t, uri, BranchOr(branch), commit);
      case CreateBranch(uri, name, from) => BranchKeeps(t, uri, name, BranchOr(from));
    }
  }

  /** One RPC keeps the store invariant and only ever adds commits. */
  lemma {:induction false} StepKeepsInv(cfg: Config, w: World, call: Call)
    requires Inv(w.tables) && Legal(w, call)
    ensures Keeps(w.tables, Step(cfg, w, call).0.tables)
  {
    StepIsOneTransaction(cfg, w, call);
    TransactionKeepsInv(w.tables, Step(cfg, w, call).0.tables, call.caller, call.op);
  }

  lemma {:induction false} RunKeepsInv(cfg: Config, w: World, calls: seq<Call>)
    requires Inv(w.tables) && LegalRun(cfg, w, calls)
    ensures Keeps(w.tables, Run(cfg, w, calls).tables)
    decreases |calls|
  {
    if calls != [] {
      StepKeepsInv(cfg, w, calls[0]);
      RunKeepsInv(cfg, Step(cfg, w, calls[0]).0, calls[1..]);
    }
  }

  // ---- no invalid prompt is cached or served ----

  /** Every cached response is a validated head response for its own key. */
  ghost predicate Validated(cfg: Config, w: World) {
    forall u :: u in w.cache ==> w.cache[u].resp == HeadResponse(u, w.cache[u].resp.content) && cfg.valid(u, w.cache[u].resp.content)
  }

  /** A write can only take entries away. */
  ghost predicate OnlyDrops(c: Entries, c': Entries) {
    forall u :: u in c' ==> u in c && c'[u] == c[u]
  }

  lemma {:induction false} WritesOnlyDrop(cfg: Config, w: World, call: Call)
    requires !call.op.Get?
    ensures OnlyDrops(w.cache, Step(cfg, w, call).0.cache) && !Step(cfg, w, call).1.Prompt?
  {
    match call.op
    case Publish(_, _, _, _, _) =>
    case Merge(_, _, _, _, _) =>
    case SetBranch(_, _, _) =>
    case CreateBranch(_, _, _) =>
  }

  lemma {:induction false} GetKeepsValidated(cfg: Config, w: World, caller: Caller, uri: Uri, ref: string, now: int, f: Faults)
    requires Validated(cfg, w)
    ensures var (w', r) := GetRpc(cfg, w, caller, uri, ref, now, f);
            Validated(cfg, w') && (r.Prompt? ==> cfg.valid(uri, r.resp.content) && r.resp.uri == uri)
  {
  }

  lemma {:induction false} StepKeepsValidated(cfg: Config, w: World, call: Call)
    requires Validated(cfg, w)
    ensures Validated(cfg, Step(cfg, w, call).0)
    ensures var r := Step(cfg, w, call).1; r.Prompt? ==> cfg.valid(call.op.uri, r.resp.content) && r.resp.uri == call.op.uri
  {
    if call.op.Get? {
      GetKeepsValidated(cfg, w, call.caller, call.op.uri, call.op.ref, call.now, call.faults);
    } else {
      WritesOnlyDrop(cfg, w, call);
    }
  }

  /** In any run, whatever fails, every prompt handed out is valid for the URI it was asked for. */
  lemma {:induction false} OnlyValidServed(cfg: Config, w: World, calls: seq<Call>)
    requires Validated(cfg, w)
    ensures Validated(cfg, Run(cfg, w, calls))
    ensures |Replies(cfg, w, calls)| == |calls|
    ensures forall i :: 0 <= i < |calls| && Replies(cfg, w, calls)[i].Prompt? ==>
              cfg.valid(calls[i].op.uri, Replies(cfg, w, calls)[i].resp.content)
    decreases |calls|
  {
    if calls != [] {
      StepKeepsValidated(cfg, w, calls[0]);
      OnlyValidServed(cfg, Step(cfg, w, calls[0]).0, calls[1..]);
    }
  }

  // ---- the notification log tracks the served version ----

  /** The version subscribers of u last heard of; before any event, the one that was served at the start. */
  function Told(base: map<Uri, Content>, events: seq<Event>, u: Uri): Option<Version> {
    if events == [] then VersionAt(base, u)
    else if events[|events| - 1].uri == u then Some(events[|events| - 1].version)
    else Told(base, events[..|events| - 1], u)
  }

  function VersionAt(prompts: map<Uri, Content>, u: Uri): Option<Version> {
    if u in prompts then Some(Sha(prompts[u])) else None
  }

  ghost predicate Agrees(base: map<Uri, Content>, w: World, u: Uri) {
    Told(base, w.events, u) == VersionAt(w.tables.prompts, u)
  }

  /**
   * A rollback of main to different content whose cache clear fails: the move is
   * stored, and the handler returns before it notifies.
   */
  ghost predicate SilentMove(cfg: Config, w: World, call: Call) {
    && call.op.SetBranch? && OnMain(call.op)
    && Authorized(call.caller, call.op.uri) && MayWrite(call.caller) && call.op.commit != ""
    && call.op.commit in w.tables.commits && w.tables.commits[call.op.commit].uri == call.op.uri
    && Lookup(w.tables.prompts, call.op.uri) != Some(w.tables.commits[call.op.commit].content)
    && cfg.cached && call.faults.store.None? && !call.faults.clear.Cleared?
  }

  lemma {:induction false} ToldSnoc(base: map<Uri, Content>, events: seq<Event>, e: Event, u: Uri)
    ensures Told(base, events + [e], u) == if e.uri == u then Some(e.version) else Told(base, events, u)
  {
    assert (events + [e])[..|events|] == events;
  }

  /** One event naming u's new version if what is served changed, none if not; no other prompt moved. */
  ghost predicate OneEvent(w: World, w': World, u: Uri) {
    if w'.tables.prompts == w.tables.prompts then w'.events == w.events
    else |w'.events| == |w.events| + 1 && w'.events[..|w.events|] == w.events
         && u in w'.tables.prompts
         && w'.events[|w.events|].uri == u && w'.events[|w.events|].version == Sha(w'.tables.prompts[u])
         && w'.tables.prompts == w.tables.prompts[u := w'.tables.prompts[u]]
  }

  lemma {:induction false} PublishOneEvent(cfg: Config, w: World, caller: Caller, uri: Uri, content: Content, branch: Branch,
                                           message: string, stamp: Stamp, f: Faults)
    requires cfg.notifies
    ensures OneEvent(w, PublishRpc(cfg, w, caller, uri, content, branch, message, stamp, f).0, uri)
  {
    var w' := PublishRpc(cfg, w, caller, uri, content, branch, message, stamp, f).0;
    if w'.events != w.events {
      assert Lookup(w'.tables.prompts, uri) != Lookup(w.tables.prompts, uri);
    }
  }

  lemma {:induction false} MergeOneEvent(cfg: Config, w: World, caller: Caller, uri: Uri, into: Branch, from: Branch,
                                         message: string, stamp: Stamp, f: Faults)
    requires cfg.notifies && Inv(w.tables) && Fresh(w.tables, stamp)
    ensures OneEvent(w, MergeRpc(cfg, w, caller, uri, into, from, message, stamp, f).0, uri)
  {
    var w' := MergeRpc(cfg, w, caller, uri, into, from, message, stamp, f).0;
    if w'.events != w.events {
      assert Lookup(w'.tables.prompts, uri) != Lookup(w.tables.prompts, uri);
    } else if w'.tables != w.tables && BranchOr(into) == MAIN {
      assert (uri, MAIN) in w.tables.refs;
      assert w'.tables.prompts == w.tables.prompts;
    }
  }

  /**
   * A publish or merge appends exactly one event when it changes what is served
   * (naming the new version), and none otherwise, whether or not the clear fails.
   */
  lemma {:induction false} OneEventPerChange(cfg: Config, w: World, call: Call)
    requires cfg.notifies && Inv(w.tables) && Legal(w, call) && (call.op.Publish? || call.op.Merge?)
    ensures OneEvent(w, Step(cfg, w, call).0, call.op.uri)
  {
    match call.op
    case Publish(uri, content, branch, message, stamp) => PublishOneEvent(cfg, w, call.caller, uri, content, branch, message, stamp, call.faults);
    case Merge(uri, into, from, message, stamp) => MergeOneEvent(cfg, w, call.caller, uri, into, from, message, stamp, call.faults);
  }

  /**
   * One call keeps "the last event names the served version" for a URI exactly
   * when it is not a silent move of that URI.
   */
  lemma {:induction false} AgreementStep(cfg: Config, base: map<Uri, Content>, w: World, call: Call, u: Uri)
    requires cfg.notifies && Inv(w.tables) && Legal(w, call) && Agrees(base, w, u)
    ensures Agrees(base, Step(cfg, w, call).0, u) <==> !(SilentMove(cfg, w, call) && call.op.uri == u)
  {
    EventStep(cfg, base, w, call, u);
    if call.op.Publish? || call.op.Merge? {
      OneEventPerChange(cfg, w, call);
    }
  }

  /** What one call does to what u's subscribers were told: nothing, or exactly its last event. */
  lemma {:induction false} EventStep(cfg: Config, base: map<Uri, Content>, w: World, call: Call, u: Uri)
    ensures var w' := Step(cfg, w, call).0;
            || w'.events == w.events
            || (&& |w'.events| == |w.events| + 1 && w'.events == w.events + [w'.events[|w.events|]]
                && w'.events[|w.events|].uri == call.op.uri
                && Told(base, w'.events, u) == if call.op.uri == u then Some(w'.events[|w.events|].version) else Told(base, w.events, u))
  {
    var w' := Step(cfg, w, call).0;
    if w'.events != w.events {
      ToldSnoc(base, w.events, w'.events[|w.events|], u);
    }
  }

  /** The URIs moved silently with no event since. */
  ghost function Unannounced(cfg: Config, w: World, calls: seq<Call>, silent: set<Uri>): set<Uri>
    decreases |calls|
  {
    if calls == [] then silent
    else
      var w' := Step(cfg, w, calls[0]).0;
      var u := calls[0].op.uri;
      Unannounced(cfg, w', calls[1..],
                  if SilentMove(cfg, w, calls[0]) then silent + {u}
                  else if w'.events != w.events then silent - {u}
                  else silent)
  }

  /**
   * Over any run, with stores and clears failing at will, the last event of every
   * URI names the version being served, except where a rollback failed to clear
   * the cache and nothing has been said since.
   */
  lemma {:induction false} LogTracksServed(cfg: Config, base: map<Uri, Content>, w: World, calls: seq<Call>, silent: set<Uri>, u: Uri)
    requires cfg.notifies && Inv(w.tables) && LegalRun(cfg, w, calls)
    requires u !in silent ==> Agrees(base, w, u)
    ensures u !in Unannounced(cfg, w, calls, silent) ==> Agrees(base, Run(cfg, w, calls), u)
    decreases |calls|
  {
    if calls != [] {
      var call := calls[0];
      var w' := Step(cfg, w, call).0;
      StepKeepsInv(cfg, w, call);
      var silent' := if SilentMove(cfg, w, call) then silent + {call.op.uri}
                     else if w'.events != w.events then silent - {call.op.uri}
                     else silent;
      if u !in silent' {
        if u in silent {
          AnnouncedAgrees(cfg, base, w, call);
        } else {
          AgreementStep(cfg, base, w, call, u);
        }
      }
      LogTracksServed(cfg, base, w', calls[1..], silent', u);
    }
  }

  /** Whenever a call says anything, what it says is what is served. */
  lemma {:induction false} AnnouncedAgrees(cfg: Config, base: map<Uri, Content>, w: World, call: Call)
    requires cfg.notifies && Inv(w.tables) && Legal(w, call)
    requires Step(cfg, w, call).0.events != w.events
    ensures Agrees(base, Step(cfg, w, call).0, call.op.uri)
  {
    EventStep(cfg, base, w, call, call.op.uri);
    if call.op.Publish? || call.op.Merge? {
      OneEventPerChange(cfg, w, call);
    }
  }

  /** A "new" event is the first of its URI, so there is at most one; every event is about a stored prompt. */
  ghost predicate NewIsFirst(w: World) {
    && (forall i :: 0 <= i < |w.events| ==> w.events[i].uri in w.tables.prompts)
    && (forall i, j :: 0 <= i < j < |w.events| && w.events[j].verdict == "new" ==> w.events[i].uri != w.events[j].uri)
  }

  /** The embedder never answers "new". */
  ghost predicate VerdictsAreNotNew(cfg: Config) {
    cfg.analyze.Some? ==> forall a, b :: cfg.analyze.value(a, b) != "new"
  }

  lemma {:induction false} NewStaysFirst(cfg: Config, w: World, calls: seq<Call>)
    requires VerdictsAreNotNew(cfg) && Inv(w.tables) && LegalRun(cfg, w, calls) && NewIsFirst(w)
    ensures NewIsFirst(Run(cfg, w, calls))
    decreases |calls|
  {
    if calls != [] {
      var call, w' := calls[0], Step(cfg, w, calls[0]).0;
      StepKeepsInv(cfg, w, call);
      NewFirstStep(cfg, w, call);
      NewStaysFirst(cfg, w', calls[1..]);
    }
  }

  lemma {:induction false} NewFirstStep(cfg: Config, w: World, call: Call)
    requires VerdictsAreNotNew(cfg) && Inv(w.tables) && Legal(w, call) && NewIsFirst(w)
    ensures NewIsFirst(Step(cfg, w, call).0)
  {
    var w' := Step(cfg, w, call).0;
    StepKeepsInv(cfg, w, call);
    EventStep(cfg, map[], w, call, call.op.uri);
    if w'.events != w.events {
      var e := w'.events[|w.events|];
      if e.verdict == "new" {
        NewMeansAbsent(cfg, w, call);
      }
      AboutServed(cfg, w, call);
      NewFirstSnoc(w, w', e);
    }
  }

  /** An event is about a prompt that is served after the call. */
  lemma {:induction false} AboutServed(cfg: Config, w: World, call: Call)
    requires Step(cfg, w, call).0.events != w.events
    ensures call.op.uri in Step(cfg, w, call).0.tables.prompts
  {
  }

  lemma {:induction false} NewFirstSnoc(w: World, w': World, e: Event)
    requires NewIsFirst(w) && w'.events == w.events + [e] && e.uri in w'.tables.prompts
    requires forall u :: u in w.tables.prompts ==> u in w'.tables.prompts
    requires e.verdict == "new" ==> e.uri !in w.tables.prompts
    ensures NewIsFirst(w')
  {
  }

  lemma {:induction false} NewMeansAbsent(cfg: Config, w: World, call: Call)
    requires VerdictsAreNotNew(cfg) && Legal(w, call)
    requires |Step(cfg, w, call).0.events| == |w.events| + 1
    requires Step(cfg, w, call).0.events[|w.events|].verdict == "new"
    ensures call.op.uri !in w.tables.prompts
  {
  }

  // ---- what a verdict is a verdict of ----

  /**
   * The verdict that belongs to a change of the served version: the analysis of the
   * old lines against the new ones; nothing without an embedder or an old text;
   * and the given word when nothing was served before.
   */
  function Judged(cfg: Config, first: string, before: Option<Content>, after: Content): string {
    match before
    case None => first
    case Some(prior) =>
      if cfg.analyze.None? || prior.template == "" then ""
      else cfg.analyze.value(SplitLines(prior.template), SplitLines(after.template))
  }

  /** Only a publish calls a first version "new". */
  function FirstWord(publish: bool): string {
    if publish then "new" else ""
  }

  /** The content a version names. */
  function ContentOf(v: Option<Version>): Option<Content> {
    if v.Some? && v.value.Sha? then Some(v.value.content) else None
  }

  /** The event names a version and its verdict compares that version with the given one. */
  ghost predicate Compares(cfg: Config, first: string, before: Option<Version>, e: Event) {
    e.version.Sha? && e.verdict == Judged(cfg, first, ContentOf(before), e.version.content)
  }

  lemma {:induction false} PublishVerdict(cfg: Config, w: World, caller: Caller, uri: Uri, content: Content, branch: Branch,
                                          message: string, stamp: Stamp, f: Faults)
    ensures var w' := PublishRpc(cfg, w, caller, uri, content, branch, message, stamp, f).0;
            w'.events != w.events ==>
              w'.events == w.events + [Event(uri, Sha(content), Judged(cfg, "new", Lookup(w.tables.prompts, uri), content))]
  {
  }

  lemma {:induction false} MergeVerdict(cfg: Config, w: World, caller: Caller, uri: Uri, into: Branch, from: Branch,
                                        message: string, stamp: Stamp, f: Faults)
    requires Inv(w.tables) && Fresh(w.tables, stamp)
    ensures var w' := MergeRpc(cfg, w, caller, uri, into, from, message, stamp, f).0;
            w'.events != w.events ==>
              && uri in w.tables.prompts && uri in w'.tables.prompts
              && var c := w'.tables.prompts[uri];
                 w'.events == w.events + [Event(uri, Sha(c), Judged(cfg, "", Lookup(w.tables.prompts, uri), c))]
  {
  }

  lemma {:induction false} SetBranchVerdict(cfg: Config, w: World, caller: Caller, uri: Uri, branch: Branch, commit: CommitId, f: Faults)
    ensures var w' := SetBranchRpc(cfg, w, caller, uri, branch, commit, f).0;
            w'.events != w.events ==>
              && uri in w'.tables.prompts
              && var c := w'.tables.prompts[uri];
                 w'.events == w.events + [Event(uri, Sha(c), Judged(cfg, "", Lookup(w.tables.prompts, uri), c))]
  {
  }

  /** An event compares what is served after the call with what was served before it. */
  lemma {:induction false} VerdictOfChange(cfg: Config, w: World, call: Call)
    requires Inv(w.tables) && Legal(w, call) && Step(cfg, w, call).0.events != w.events
    ensures var w', u := Step(cfg, w, call).0, call.op.uri;
            && u in w'.tables.prompts
            && var c := w'.tables.prompts[u];
               w'.events == w.events + [Event(u, Sha(c), Judged(cfg, FirstWord(call.op.Publish?), Lookup(w.tables.prompts, u), c))]
  {
    match call.op
    case Publish(uri, content, branch, message, stamp) => PublishVerdict(cfg, w, call.caller, uri, content, branch, message, stamp, call.faults);
    case Merge(uri, into, from, message, stamp) => MergeVerdict(cfg, w, call.caller, uri, into, from, message, stamp, call.faults);
    case SetBranch(uri, branch, commit) => SetBranchVerdict(cfg, w, call.caller, uri, branch, commit, call.faults);
    case Get(_, _) =>
    case CreateBranch(_, _, _) =>
  }

  /** No call of the run moves u silently. */
  ghost predicate NoSilentMove(cfg: Config, w: World, calls: seq<Call>, u: Uri)
    decreases |calls|
  {
    calls != [] ==> !(SilentMove(cfg, w, calls[0]) && calls[0].op.uri == u) && NoSilentMove(cfg, Step(cfg, w, calls[0]).0, calls[1..], u)
  }

  /** Event i, if it is about u, compares its version with what u's subscribers had been told before it. */
  ghost predicate ComparesWithTold(cfg: Config, base: map<Uri, Content>, events: seq<Event>, i: nat, u: Uri)
    requires i < |events|
  {
    events[i].uri == u ==>
      || Compares(cfg, "new", Told(base, events[..i], u), events[i])
      || Compares(cfg, "", Told(base, events[..i], u), events[i])
  }

  lemma {:induction false} VerdictStep(cfg: Config, base: map<Uri, Content>, w: World, call: Call, u: Uri)
    requires Inv(w.tables) && Legal(w, call) && Agrees(base, w, u)
    ensures var es, es' := w.events, Step(cfg, w, call).0.events;
            es' == es || (|es'| == |es| + 1 && es'[..|es|] == es && ComparesWithTold(cfg, base, es', |es|, u))
  {
    if Step(cfg, w, call).0.events != w.events {
      VerdictOfChange(cfg, w, call);
    }
  }

  /**
   * Over any run of calls that do not overlap, with any faults, every event's
   * verdict compares the version it names with the one the previous event of that
   * URI named, as long as no rollback moved the URI silently.
   */
  lemma {:induction false} VerdictsCompareWithTold(cfg: Config, base: map<Uri, Content>, w: World, calls: seq<Call>, u: Uri)
    requires cfg.notifies && Inv(w.tables) && LegalRun(cfg, w, calls) && Agrees(base, w, u) && NoSilentMove(cfg, w, calls, u)
    ensures var es := Run(cfg, w, calls).events;
            && |w.events| <= |es| && es[..|w.events|] == w.events
            && forall i: nat :: |w.events| <= i < |es| ==> ComparesWithTold(cfg, base, es, i, u)
    decreases |calls|
  {
    if calls != [] {
      var w1 := Step(cfg, w, calls[0]).0;
      StepKeepsInv(cfg, w, calls[0]);
      AgreementStep(cfg, base, w, calls[0], u);
      VerdictStep(cfg, base, w, calls[0], u);
      VerdictsCompareWithTold(cfg, base, w1, calls[1..], u);
      VerdictsExtend(cfg, base, w.events, w1.events, Run(cfg, w, calls).events, u);
    }
  }

  lemma {:induction false} VerdictsExtend(cfg: Config, base: map<Uri, Content>, es0: seq<Event>, es1: seq<Event>, es: seq<Event>, u: Uri)
    requires es1 == es0 || (|es1| == |es0| + 1 && es1[..|es0|] == es0 && ComparesWithTold(cfg, base, es1, |es0|, u))
    requires |es1| <= |es| && es[..|es1|] == es1
    requires forall i: nat :: |es1| <= i < |es| ==> ComparesWithTold(cfg, base, es, i, u)
    ensures |es0| <= |es| && es[..|es0|] == es0
    ensures forall i: nat :: |es0| <= i < |es| ==> ComparesWithTold(cfg, base, es, i, u)
  {
    assert es[..|es0|] == es[..|es1|][..|es0|];
    if es1 != es0 {
      assert es[|es0|] == es1[|es0|];
    }
  }
}
