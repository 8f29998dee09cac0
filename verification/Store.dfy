/**
 * A reference model of the prompt store: three tables, and the transactions the
 * server and the CLI run against them. The store library itself is not part of
 * the repository, so this is its documented contract: one transaction updates
 * commits, refs and (for main) prompts; advancing a branch is a compare-and-swap
 * on the tip that was read; a merge takes theirs and records two parents.
 */
module Store {
  import opened Basics

  const MAIN := "main"

  type Uri = string
  type Branch = string
  type CommitId = string

  datatype Content = Content(template: string, slots: seq<string>)

  /** version_hash, idealised as an injective function of the content; NoVersion is the empty hash. */
  datatype Version = NoVersion | Sha(content: Content)

  /** rank is the insertion order of the row; it plays the part of created_at. */
  datatype Commit = Commit(uri: Uri, content: Content, parent: Option<CommitId>, parent2: Option<CommitId>,
                           author: string, message: string, rank: nat)

  /** What the store adds to a new commit: its hash (opaque) and its place in the insertion order. */
  datatype Stamp = Stamp(id: CommitId, rank: nat)

  datatype StoreError = NotFound | BranchNotFound | AlreadyExists | Conflict | Down | Other

  datatype Tables = Tables(prompts: map<Uri, Content>,
                           commits: map<CommitId, Commit>,
                           refs: map<(Uri, Branch), CommitId>)
  {
    function Tip(uri: Uri, branch: Branch): Option<CommitId> {
      Lookup(refs, (uri, branch))
    }

    /** A branch name first, else the hash of a commit of this very prompt. */
    function Resolve(uri: Uri, ref: string): Option<Commit> {
      match Tip(uri, ref)
      case Some(id) => Lookup(commits, id)
      case None => if ref in commits && commits[ref].uri == uri then Some(commits[ref]) else None
    }

    /** One transaction: the commit row, the branch tip and, on main, the served HEAD. */
    function Install(branch: Branch, id: CommitId, c: Commit): Tables {
      Tables(if branch == MAIN then prompts[c.uri := c.content] else prompts,
             commits[id := c],
             refs[(c.uri, branch) := id])
    }

    /** Advance a branch only if its tip is still the one the writer read. */
    function CompareAndSwap(branch: Branch, expected: Option<CommitId>, id: CommitId, c: Commit): Result<Tables, StoreError> {
      if Tip(c.uri, branch) == expected then Ok(Install(branch, id, c)) else Err(Conflict)
    }

    /** The row Commit writes on top of the given parent. */
    static function NewCommit(uri: Uri, content: Content, parent: Option<CommitId>, author: string, message: string, stamp: Stamp): Commit {
      Commit(uri, content, parent, None, author, message, stamp.rank)
    }

    function CommitOn(uri: Uri, branch: Branch, content: Content, author: string, message: string, stamp: Stamp): Tables {
      Install(branch, stamp.id, NewCommit(uri, content, Tip(uri, branch), author, message, stamp))
    }

    /** The row Merge writes: content from theirs, ours as first parent, theirs as second. */
    function MergeCommit(uri: Uri, ours: CommitId, theirs: CommitId, author: string, message: string, stamp: Stamp): Commit
      requires theirs in commits
    {
      Commit(uri, commits[theirs].content, Some(ours), Some(theirs), author, message, stamp.rank)
    }

    function MergeInto(uri: Uri, into: Branch, from: Branch, author: string, message: string, stamp: Stamp): Result<Tables, StoreError> {
      match (Tip(uri, into), Tip(uri, from))
      case (Some(ours), Some(theirs)) =>
        if theirs in commits then
          Ok(Install(into, stamp.id, MergeCommit(uri, ours, theirs, author, message, stamp)))
        else
          Err(Other)
      case _ => Err(BranchNotFound)
    }

    /** Point a branch at an existing commit of the same prompt. */
    function PointTo(uri: Uri, branch: Branch, id: CommitId): Result<Tables, StoreError> {
      if id in commits && commits[id].uri == uri then
        Ok(Tables(if branch == MAIN then prompts[uri := commits[id].content] else prompts,
                  commits,
                  refs[(uri, branch) := id]))
      else
        Err(NotFound)
    }

    /** Create a branch at another branch's tip. Creating main anew is not modelled and is refused. */
    function NewBranch(uri: Uri, name: Branch, from: Branch): Result<Tables, StoreError> {
      if Tip(uri, name).Some? then Err(AlreadyExists)
      else if Tip(uri, from).None? then Err(BranchNotFound)
      else if name == MAIN then Err(Other)
      else Ok(this.(refs := refs[(uri, name) := refs[(uri, from)]]))
    }

    /** ListCommits: every commit of the prompt, reachable or not. */
    function CommitsOf(uri: Uri): set<CommitId> {
      set id | id in commits && commits[id].uri == uri
    }
  }

  const EMPTY := Tables(map[], map[], map[])

  // ---- the store invariant ----

  /** A parent link names an existing, older commit of the same prompt. */
  ghost predicate LinkOk(commits: map<CommitId, Commit>, c: Commit, p: Option<CommitId>) {
    p.Some? ==> p.value in commits && commits[p.value].uri == c.uri && commits[p.value].rank < c.rank
  }

  ghost predicate ParentsOk(commits: map<CommitId, Commit>) {
    forall id :: id in commits ==> LinkOk(commits, commits[id], commits[id].parent) && LinkOk(commits, commits[id], commits[id].parent2)
  }

  /** No ref dangles or crosses to another prompt. */
  ghost predicate RefsOk(t: Tables) {
    forall k :: k in t.refs ==> t.refs[k] in t.commits && t.commits[t.refs[k]].uri == k.0
  }

  /** The served HEAD is the content of main's tip. */
  ghost predicate HeadOk(t: Tables) {
    forall u :: (u, MAIN) in t.refs ==> t.refs[(u, MAIN)] in t.commits && Lookup(t.prompts, u) == Some(t.commits[t.refs[(u, MAIN)]].content)
  }

  ghost predicate Inv(t: Tables) {
    ParentsOk(t.commits) && RefsOk(t) && HeadOk(t) && MAIN !in t.commits
  }

  /** Every served prompt has a main branch; files without history break only this. */
  ghost predicate HasHistory(t: Tables) {
    forall u :: u in t.prompts ==> (u, MAIN) in t.refs
  }

  /** A new hash collides with nothing (nor spells the default branch), and the new row comes after every other row. */
  ghost predicate Fresh(t: Tables, s: Stamp) {
    s.id !in t.commits && s.id != MAIN && forall id :: id in t.commits ==> t.commits[id].rank < s.rank
  }

  /** Nothing is ever deleted: commits stay as they are, served prompts stay served. */
  ghost predicate Extends(t: Tables, t': Tables) {
    && (forall id :: id in t.commits ==> id in t'.commits && t'.commits[id] == t.commits[id])
    && (forall u :: u in t.prompts ==> u in t'.prompts)
  }

  /** What every transaction keeps. */
  ghost predicate Keeps(t: Tables, t': Tables) {
    Inv(t') && Extends(t, t') && (HasHistory(t) ==> HasHistory(t'))
  }

  lemma {:induction false} KeepsTransitive(t: Tables, t1: Tables, t2: Tables)
    requires Keeps(t, t1) && Keeps(t1, t2)
    ensures Keeps(t, t2)
  {
  }

  lemma {:induction false} InstallKeepsParents(commits: map<CommitId, Commit>, id: CommitId, c: Commit)
    requires ParentsOk(commits) && id !in commits && LinkOk(commits, c, c.parent) && LinkOk(commits, c, c.parent2)
    ensures ParentsOk(commits[id := c])
  {
    var after := commits[id := c];
    forall i | i in after ensures LinkOk(after, after[i], after[i].parent) && LinkOk(after, after[i], after[i].parent2) {
      if i != id {
        assert LinkOk(commits, commits[i], commits[i].parent) && LinkOk(commits, commits[i], commits[i].parent2);
      }
    }
  }

  lemma {:induction false} InstallKeepsHead(t: Tables, branch: Branch, id: CommitId, c: Commit)
    requires RefsOk(t) && HeadOk(t) && id !in t.commits
    ensures RefsOk(t.Install(branch, id, c)) && HeadOk(t.Install(branch, id, c))
  {
  }

  lemma {:induction false} InstallKeeps(t: Tables, branch: Branch, id: CommitId, c: Commit)
    requires Inv(t) && Fresh(t, Stamp(id, c.rank))
    requires LinkOk(t.commits, c, c.parent) && LinkOk(t.commits, c, c.parent2)
    ensures Keeps(t, t.Install(branch, id, c))
  {
    InstallKeepsParents(t.commits, id, c);
    InstallKeepsHead(t, branch, id, c);
  }

  lemma {:induction false} CommitKeeps(t: Tables, uri: Uri, branch: Branch, content: Content, author: string, message: string, stamp: Stamp)
    requires Inv(t) && Fresh(t, stamp)
    ensures Keeps(t, t.CommitOn(uri, branch, content, author, message, stamp))
  {
    InstallKeeps(t, branch, stamp.id, Tables.NewCommit(uri, content, t.Tip(uri, branch), author, message, stamp));
  }

  lemma {:induction false} MergeKeeps(t: Tables, uri: Uri, into: Branch, from: Branch, author: string, message: string, stamp: Stamp)
    requires Inv(t) && Fresh(t, stamp) && t.MergeInto(uri, into, from, author, message, stamp).Ok?
    ensures Keeps(t, t.MergeInto(uri, into, from, author, message, stamp).value)
  {
    var ours, theirs := t.Tip(uri, into).value, t.Tip(uri, from).value;
    InstallKeeps(t, into, stamp.id, t.MergeCommit(uri, ours, theirs, author, message, stamp));
  }

  lemma {:induction false} PointKeeps(t: Tables, uri: Uri, branch: Branch, id: CommitId)
    requires Inv(t) && t.PointTo(uri, branch, id).Ok?
    ensures Keeps(t, t.PointTo(uri, branch, id).value)
  {
  }

  lemma {:induction false} BranchKeeps(t: Tables, uri: Uri, name: Branch, from: Branch)
    requires Inv(t) && t.NewBranch(uri, name, from).Ok?
    ensures Keeps(t, t.NewBranch(uri, name, from).value)
  {
  }

  // ---- what a transaction means to its caller ----

  /** The target branch reads as its origin did; no other ref and no other served HEAD moved. */
  ghost predicate ReadsBack(t: Tables, t': Tables, u: Uri, b: Branch, origin: string) {
    && t.Resolve(u, origin).Some? && (u, b) in t'.refs && t'.refs[(u, b)] in t'.commits
    && t'.commits[t'.refs[(u, b)]].content == t.Resolve(u, origin).value.content
    && (forall k :: k != (u, b) ==> Lookup(t'.refs, k) == Lookup(t.refs, k))
    && (forall v :: v != u || b != MAIN ==> Lookup(t'.prompts, v) == Lookup(t.prompts, v))
  }

  /** The branch alone has moved, to this commit; main also serves it. */
  ghost predicate MovesTo(t: Tables, t': Tables, u: Uri, b: Branch, id: CommitId) {
    && t'.Tip(u, b) == Some(id) && id in t'.commits
    && (forall k :: k != (u, b) ==> Lookup(t'.refs, k) == Lookup(t.refs, k))
    && (forall i :: i != id ==> Lookup(t'.commits, i) == Lookup(t.commits, i))
    && (forall v :: Lookup(t'.prompts, v) == if v == u && b == MAIN then Some(t'.commits[id].content) else Lookup(t.prompts, v))
  }

  /** After a commit the branch reads back the content, on top of what it was, and nothing else has moved. */
  lemma {:induction false} CommitReadsBack(t: Tables, u: Uri, b: Branch, c: Content, author: string, message: string, stamp: Stamp)
    ensures var t' := t.CommitOn(u, b, c, author, message, stamp);
            && MovesTo(t, t', u, b, stamp.id)
            && t'.Resolve(u, b) == Some(Commit(u, c, t.Tip(u, b), None, author, message, stamp.rank))
  {
  }

  /** After a merge the target reads as the source did; the old tip and the source's are its parents. */
  lemma {:induction false} MergeReadsBack(t: Tables, u: Uri, into: Branch, from: Branch, author: string, message: string, stamp: Stamp)
    requires t.MergeInto(u, into, from, author, message, stamp).Ok?
    ensures var t' := t.MergeInto(u, into, from, author, message, stamp).value;
            && MovesTo(t, t', u, into, stamp.id) && ReadsBack(t, t', u, into, from)
            && t'.commits[stamp.id].parent == t.Tip(u, into) && t'.commits[stamp.id].parent2 == t.Tip(u, from)
  {
  }

  /** After a rollback or pin the branch is at that very commit, and no commit is added or lost. */
  lemma {:induction false} PointReadsBack(t: Tables, u: Uri, b: Branch, id: CommitId)
    requires t.PointTo(u, b, id).Ok?
    ensures var t' := t.PointTo(u, b, id).value;
            && MovesTo(t, t', u, b, id) && t'.commits == t.commits
            && ((u, id) !in t.refs ==> ReadsBack(t, t', u, b, id))
  {
  }

  /**
   * Pointing the branch back at its old tip undoes whatever moved it, a publish or
   * a merge: branches and served HEADs are as before, and the commit made in
   * between is still there to roll forward to.
   */
  lemma {:induction false} RollbackUndoes(t: Tables, t': Tables, u: Uri, b: Branch, id: CommitId)
    requires Inv(t) && id !in t.commits && (u, b) in t.refs && MovesTo(t, t', u, b, id)
    ensures var back := t'.PointTo(u, b, t.refs[(u, b)]);
            back.Ok? && back.value == t.(commits := t.commits[id := t'.commits[id]])
  {
    var tip, back := t.refs[(u, b)], t'.PointTo(u, b, t.refs[(u, b)]);
    assert Lookup(t'.commits, tip) == Lookup(t.commits, tip);
    SameLookups(back.value.refs, t.refs);
    SameLookups(back.value.prompts, t.prompts);
    SameLookups(t'.commits, t.commits[id := t'.commits[id]]);
  }

  lemma {:induction false} SameLookups<K, V>(a: map<K, V>, b: map<K, V>)
    requires forall k :: Lookup(a, k) == Lookup(b, k)
    ensures a == b
  {
    forall k ensures (k in a <==> k in b) && (k in a ==> a[k] == b[k]) {
      assert Lookup(a, k) == Lookup(b, k);
    }
  }

  lemma {:induction false} BranchReadsBack(t: Tables, u: Uri, name: Branch, from: Branch)
    requires RefsOk(t) && t.NewBranch(u, name, from).Ok?
    ensures var t' := t.NewBranch(u, name, from).value; ReadsBack(t, t', u, name, from) && t'.commits == t.commits
    ensures (u, from) in t.refs && MovesTo(t, t.NewBranch(u, name, from).value, u, name, t.refs[(u, from)])
  {
    assert t.refs[(u, from)] in t.commits;
  }

  // ---- first-parent history ----

  /** The first-parent chain from a commit, newest first: what History returns. */
  function Chain(commits: map<CommitId, Commit>, id: CommitId): seq<CommitId>
    requires ParentsOk(commits) && id in commits
    decreases commits[id].rank
  {
    match commits[id].parent
    case None => [id]
    case Some(p) =>
      assert LinkOk(commits, commits[id], commits[id].parent);
      [id] + Chain(commits, p)
  }

  /** History of a branch lies within ListCommits and never repeats a commit. */
  lemma {:induction false} ChainIsHistory(t: Tables, id: CommitId)
    requires ParentsOk(t.commits) && id in t.commits
    ensures forall k :: 0 <= k < |Chain(t.commits, id)| ==>
              Chain(t.commits, id)[k] in t.CommitsOf(t.commits[id].uri)
    ensures forall j, k :: 0 <= j < k < |Chain(t.commits, id)| ==>
              var newer, older := Chain(t.commits, id)[j], Chain(t.commits, id)[k];
              newer in t.commits && older in t.commits && t.commits[older].rank < t.commits[newer].rank
    ensures forall j, k :: 0 <= j < k < |Chain(t.commits, id)| ==> Chain(t.commits, id)[j] != Chain(t.commits, id)[k]
    decreases t.commits[id].rank
  {
    var c := t.commits[id];
    assert LinkOk(t.commits, c, c.parent);
    if c.parent.Some? {
      ChainIsHistory(t, c.parent.value);
      assert Chain(t.commits, c.parent.value)[0] == c.parent.value;
    }
  }

  /** Adding rows never rewrites history. */
  lemma {:induction false} ChainGrows(before: map<CommitId, Commit>, after: map<CommitId, Commit>, id: CommitId)
    requires ParentsOk(before) && ParentsOk(after) && id in before
    requires forall i :: i in before ==> i in after && after[i] == before[i]
    ensures Chain(after, id) == Chain(before, id)
    decreases before[id].rank
  {
    assert LinkOk(before, before[id], before[id].parent);
    if before[id].parent.Some? {
      ChainGrows(before, after, before[id].parent.value);
    }
  }

  /** History leaves nothing out: each entry is the parent of the one before it, and the last has no parent. */
  lemma {:induction false} ChainIsWhole(commits: map<CommitId, Commit>, id: CommitId)
    requires ParentsOk(commits) && id in commits
    ensures var log := Chain(commits, id);
            && |log| >= 1 && log[0] == id
            && (forall k :: 0 <= k < |log| ==> log[k] in commits)
            && (forall k :: 0 <= k < |log| - 1 ==> commits[log[k]].parent == Some(log[k + 1]))
            && commits[log[|log| - 1]].parent == None
    decreases commits[id].rank
  {
    assert LinkOk(commits, commits[id], commits[id].parent);
    if commits[id].parent.Some? {
      ChainIsWhole(commits, commits[id].parent.value);
    }
  }
}
