/** Every writer of the store at once: RPCs, put and import (both through commitMain), and the first-start seed. */
module Writers {
  import opened Basics
  import opened Store
  import opened ServerModel
  import opened ServerRuns
  import opened ServerReplies
  import opened Import

  datatype Action =
    | Rpc(call: Call)
    | MainWrite(uri: Uri, content: Content, message: string, attempt: Attempt)
    | Seed(attempt: Attempt)

  function Act(cfg: Config, w: World, a: Action): World {
    match a
    case Rpc(call) => Step(cfg, w, call).0
    case MainWrite(uri, content, message, attempt) => w.(tables := CommitMain(cfg.valid, w.tables, uri, content, message, attempt).0)
    case Seed(attempt) => w.(tables := SeedDemo(w.tables, attempt))
  }

  ghost predicate LegalAction(w: World, a: Action) {
    match a
    case Rpc(call) => Legal(w, call)
    case MainWrite(_, _, _, attempt) => Fresh(w.tables, attempt.stamp)
    case Seed(attempt) => Fresh(w.tables, attempt.stamp)
  }

  function ActAll(cfg: Config, w: World, actions: seq<Action>): World
    decreases |actions|
  {
    if actions == [] then w else ActAll(cfg, Act(cfg, w, actions[0]), actions[1..])
  }

  ghost predicate LegalActions(cfg: Config, w: World, actions: seq<Action>)
    decreases |actions|
  {
    actions != [] ==> LegalAction(w, actions[0]) && LegalActions(cfg, Act(cfg, w, actions[0]), actions[1..])
  }

  lemma {:induction false} ActKeeps(cfg: Config, w: World, a: Action)
    requires Inv(w.tables) && LegalAction(w, a)
    ensures Keeps(w.tables, Act(cfg, w, a).tables)
  {
    match a
    case Rpc(call) => StepKeepsInv(cfg, w, call);
    case MainWrite(uri, content, message, attempt) => CommitMainKeeps(cfg.valid, w.tables, uri, content, message, attempt);
    case Seed(attempt) => CommitKeeps(w.tables, DEMO_URI, MAIN, DEMO, AUTHOR, "seed: demo prompt", attempt.stamp);
  }

  /** Whatever mix of writers runs, the store invariant holds and nothing committed is lost. */
  lemma {:induction false} AllWritersKeepInv(cfg: Config, w: World, actions: seq<Action>)
    requires Inv(w.tables) && LegalActions(cfg, w, actions)
    ensures Keeps(w.tables, ActAll(cfg, w, actions).tables)
    decreases |actions|
  {
    if actions != [] {
      var w1 := Act(cfg, w, actions[0]);
      ActKeeps(cfg, w, actions[0]);
      AllWritersKeepInv(cfg, w1, actions[1..]);
      KeepsTransitive(w.tables, w1.tables, ActAll(cfg, w, actions).tables);
    }
  }

  /**
   * From an empty store: in every state any writers can reach, each branch's
   * history is a duplicate-free list of that prompt's own commits, newest first,
   * and what main's history starts with is what is served.
   */
  lemma {:induction false} HistoryInEveryState(cfg: Config, actions: seq<Action>, u: Uri, b: Branch)
    requires LegalActions(cfg, World(EMPTY, map[], []), actions)
    ensures var t := ActAll(cfg, World(EMPTY, map[], []), actions).tables;
            && Inv(t) && HasHistory(t)
            && ((u, b) in t.refs ==>
                  var log := Chain(t.commits, t.refs[(u, b)]);
                  && log[0] == t.refs[(u, b)]
                  && (forall k :: 0 <= k < |log| ==> log[k] in t.CommitsOf(u))
                  && (forall j, k :: 0 <= j < k < |log| ==>
                        log[j] != log[k] && log[j] in t.commits && log[k] in t.commits && t.commits[log[k]].rank < t.commits[log[j]].rank)
                  && (b == MAIN ==> Lookup(t.prompts, u) == Some(t.commits[log[0]].content)))
  {
    AllWritersKeepInv(cfg, World(EMPTY, map[], []), actions);
    var t := ActAll(cfg, World(EMPTY, map[], []), actions).tables;
    if (u, b) in t.refs {
      ChainIsHistory(t, t.refs[(u, b)]);
    }
  }

  /** Seeding again changes nothing, and an existing demo prompt is never touched. */
  lemma {:induction false} SeedIdempotent(t: Tables, a: Attempt, again: Attempt)
    ensures a.fault.None? ==> SeedDemo(SeedDemo(t, a), again) == SeedDemo(t, a)
    ensures DEMO_URI in t.prompts ==> SeedDemo(t, a) == t
  {
  }

  /** The demo is committed to main exactly when its URI is absent and the store does not fail. */
  lemma {:induction false} SeedWritesDemo(t: Tables, a: Attempt)
    ensures var t' := SeedDemo(t, a); var u := "priompt://acme/onboarding/welcome";
            if u in t.prompts || a.fault.Some? then t' == t
            else && Lookup(t'.prompts, u) == Some(Content("Hi {name}, welcome to {org}!\n", ["name", "org"]))
                 && t'.Tip(u, MAIN) == Some(a.stamp.id) && a.stamp.id in t'.commits
                 && t'.commits[a.stamp.id].author == "priompt" && t'.commits[a.stamp.id].content == t'.prompts[u]
  {
  }

  // ---- nothing malformed is ever stored or served ----

  lemma {:induction false} ActKeepsStoreValid(cfg: Config, w: World, a: Action)
    requires Inv(w.tables) && StoreValid(cfg.valid, w.tables) && cfg.valid(DEMO_URI, DEMO)
    ensures StoreValid(cfg.valid, Act(cfg, w, a).tables)
  {
    match a
    case Rpc(call) => StepKeepsStoreValid(cfg, w, call);
    case MainWrite(uri, content, message, attempt) =>
      InstallKeepsValidIf(cfg.valid, w.tables, uri, content, message, attempt);
    case Seed(attempt) =>
      InstallKeepsValid(cfg.valid, w.tables, MAIN, attempt.stamp.id,
                        Tables.NewCommit(DEMO_URI, DEMO, w.tables.Tip(DEMO_URI, MAIN), AUTHOR, "seed: demo prompt", attempt.stamp));
  }

  lemma {:induction false} InstallKeepsValidIf(valid: Validator, t: Tables, uri: Uri, content: Content, message: string, a: Attempt)
    requires StoreValid(valid, t)
    ensures StoreValid(valid, CommitMain(valid, t, uri, content, message, a).0)
  {
    if valid(uri, content) {
      InstallKeepsValid(valid, t, MAIN, a.stamp.id, Tables.NewCommit(uri, content, t.Tip(uri, MAIN), AUTHOR, message, a.stamp));
    }
  }

  lemma {:induction false} AllWritersKeepValid(cfg: Config, w: World, actions: seq<Action>)
    requires Inv(w.tables) && LegalActions(cfg, w, actions) && StoreValid(cfg.valid, w.tables) && cfg.valid(DEMO_URI, DEMO)
    ensures StoreValid(cfg.valid, ActAll(cfg, w, actions).tables)
    decreases |actions|
  {
    if actions != [] {
      ActKeeps(cfg, w, actions[0]);
      ActKeepsStoreValid(cfg, w, actions[0]);
      AllWritersKeepValid(cfg, Act(cfg, w, actions[0]), actions[1..]);
    }
  }

  /**
   * From an empty store, whatever mix of writers runs and whatever fails: every
   * commit and every served prompt is valid, and no read, pinned or not, ever
   * reports data loss.
   */
  lemma {:induction false} NoDataLossEver(cfg: Config, actions: seq<Action>, read: Call)
    requires LegalActions(cfg, World(EMPTY, map[], []), actions) && cfg.valid(DEMO_URI, DEMO) && read.op.Get?
    ensures var w := ActAll(cfg, World(EMPTY, map[], []), actions);
            StoreValid(cfg.valid, w.tables) && Step(cfg, w, read).1 != Reply.Failed(DataLoss)
  {
    var start := World(EMPTY, map[], []);
    AllWritersKeepInv(cfg, start, actions);
    AllWritersKeepValid(cfg, start, actions);
    ValidStoreServes(cfg, ActAll(cfg, start, actions), read);
  }
}
