/** Full backup and restore: the three tables as a stream of tagged records. */
module Backup {
  import opened Basics
  import opened Store
  import opened Databases

  const VERSION := 1

  /** One line of a backup file; None stands for a tagged line without its payload. */
  datatype Record =
    | Header(version: int)
    | CommitRecord(commit: Option<(CommitId, Commit)>)
    | RefRecord(ref: Option<(Uri, Branch, CommitId)>)
    | PromptRecord(prompt: Option<(Uri, Content)>)
    | Untagged(bare: Option<(Uri, Content)>)
    | UnknownKind(kind: string)
    | Undecodable

  type CommitRows = seq<(CommitId, Commit)>
  type RefRows = seq<(Uri, Branch, CommitId)>
  type PromptRows = seq<(Uri, Content)>

  function CommitRecords(rows: CommitRows): seq<Record> {
    if rows == [] then [] else [CommitRecord(Some(rows[0]))] + CommitRecords(rows[1..])
  }

  function RefRecords(rows: RefRows): seq<Record> {
    if rows == [] then [] else [RefRecord(Some(rows[0]))] + RefRecords(rows[1..])
  }

  function PromptRecords(rows: PromptRows): seq<Record> {
    if rows == [] then [] else [PromptRecord(Some(rows[0]))] + PromptRecords(rows[1..])
  }

  /** Commits first, then the refs that name them, then the served prompts. */
  function Stream(commits: CommitRows, refs: RefRows, prompts: PromptRows): seq<Record> {
    [Header(VERSION)] + CommitRecords(commits) + RefRecords(refs) + PromptRecords(prompts)
  }

  ghost predicate IsCommitDump(rows: CommitRows, m: map<CommitId, Commit>) {
    && (forall i :: 0 <= i < |rows| ==> Lookup(m, rows[i].0) == Some(rows[i].1))
    && (forall id :: id in m ==> exists i :: 0 <= i < |rows| && rows[i].0 == id)
  }

  ghost predicate IsRefDump(rows: RefRows, m: map<(Uri, Branch), CommitId>) {
    && (forall i :: 0 <= i < |rows| ==> Lookup(m, (rows[i].0, rows[i].1)) == Some(rows[i].2))
    && (forall k :: k in m ==> exists i :: 0 <= i < |rows| && (rows[i].0, rows[i].1) == k)
  }

  ghost predicate IsPromptDump(rows: PromptRows, m: map<Uri, Content>) {
    && (forall i :: 0 <= i < |rows| ==> Lookup(m, rows[i].0) == Some(rows[i].1))
    && (forall u :: u in m ==> exists i :: 0 <= i < |rows| && rows[i].0 == u)
  }

  /** Each dump lists exactly the rows of its table, in any order. */
  ghost predicate IsDump(t: Tables, commits: CommitRows, refs: RefRows, prompts: PromptRows) {
    IsCommitDump(commits, t.commits) && IsRefDump(refs, t.refs) && IsPromptDump(prompts, t.prompts)
  }

  /** Write the stream, one loop per table. */
  method WriteBackup(commits: CommitRows, refs: RefRows, prompts: PromptRows) returns (out: seq<Record>)
    ensures out == Stream(commits, refs, prompts)
  {
    out := [Header(VERSION)];
    for i := 0 to |commits|
      invariant out + CommitRecords(commits[i..]) == [Header(VERSION)] + CommitRecords(commits)
    {
      assert commits[i..][1..] == commits[i + 1..];
      out := out + [CommitRecord(Some(commits[i]))];
    }
    assert commits[|commits|..] == [];
    assert out == [Header(VERSION)] + CommitRecords(commits);
    ghost var before := out;
    for i := 0 to |refs|
      invariant out + RefRecords(refs[i..]) == before + RefRecords(refs)
    {
      assert refs[i..][1..] == refs[i + 1..];
      out := out + [RefRecord(Some(refs[i]))];
    }
    assert refs[|refs|..] == [];
    assert out == before + RefRecords(refs);
    before := out;
    for i := 0 to |prompts|
      invariant out + PromptRecords(prompts[i..]) == before + PromptRecords(prompts)
    {
      assert prompts[i..][1..] == prompts[i + 1..];
      out := out + [PromptRecord(Some(prompts[i]))];
    }
    assert prompts[|prompts|..] == [];
    assert out == before + PromptRecords(prompts);
  }

  // ---- restore ----

  datatype Counts = Counts(prompts: nat, commits: nat, refs: nat, legacy: nat)

  datatype Progress = Progress(t: Tables, n: Counts, fatal: bool)

  /** One record. A fatal one stops the restore and leaves what was written before it. */
  function Apply(p: Progress, r: Record): Progress {
    match r
    case Header(v) => if v > VERSION then p.(fatal := true) else p
    case CommitRecord(Some((id, c))) => Progress(p.t.(commits := p.t.commits[id := c]), p.n.(commits := p.n.commits + 1), false)
    case RefRecord(Some((u, b, id))) => Progress(p.t.(refs := p.t.refs[(u, b) := id]), p.n.(refs := p.n.refs + 1), false)
    case PromptRecord(Some((u, c))) => Progress(p.t.(prompts := p.t.prompts[u := c]), p.n.(prompts := p.n.prompts + 1), false)
    case Untagged(Some((u, c))) =>
      if u == "" then p.(fatal := true)
      else Progress(p.t.(prompts := p.t.prompts[u := c]), p.n.(prompts := p.n.prompts + 1, legacy := p.n.legacy + 1), false)
    case Untagged(None) => p.(fatal := true)
    case UnknownKind(_) => p.(fatal := true)
    case Undecodable => p.(fatal := true)
    case _ => p
  }

  function ApplyAll(p: Progress, rs: seq<Record>): Progress
    decreases |rs|
  {
    if p.fatal || rs == [] then p else ApplyAll(Apply(p, rs[0]), rs[1..])
  }

  /** A store that already has commits is refused unless forced. */
  function Restored(t: Tables, force: bool, rs: seq<Record>): Progress {
    var start := Progress(t, Counts(0, 0, 0, 0), false);
    if |t.commits| > 0 && !force then start.(fatal := true) else ApplyAll(start, rs)
  }

  method Restore(db: Database, force: bool, rs: seq<Record>) returns (n: Counts, fatal: bool)
    modifies db
    ensures Progress(db.t, n, fatal) == Restored(old(db.t), force, rs)
  {
    var nP: nat, nC: nat, nR: nat, legacy: nat := 0, 0, 0, 0;
    if |db.t.commits| > 0 && !force {
      return Counts(0, 0, 0, 0), true;
    }
    assert rs[0..] == rs;
    for i := 0 to |rs|
      invariant ApplyAll(Progress(db.t, Counts(nP, nC, nR, legacy), false), rs[i..])
             == ApplyAll(Progress(old(db.t), Counts(0, 0, 0, 0), false), rs)
    {
      assert rs[i..][0] == rs[i] && rs[i..][1..] == rs[i + 1..];
      match rs[i] {
        case Header(v) =>
          if v > VERSION {
            return Counts(nP, nC, nR, legacy), true;
          }
        case CommitRecord(row) =>
          if row.Some? {
            db.PutCommit(row.value.0, row.value.1);
            nC := nC + 1;
          }
        case RefRecord(row) =>
          if row.Some? {
            db.PutRef(row.value.0, row.value.1, row.value.2);
            nR := nR + 1;
          }
        case PromptRecord(row) =>
          if row.Some? {
            db.Put(row.value.0, row.value.1);
            nP := nP + 1;
          }
        case Untagged(row) =>
          if row.None? || row.value.0 == "" {
            return Counts(nP, nC, nR, legacy), true;
          }
          db.Put(row.value.0, row.value.1);
          nP := nP + 1;
          legacy := legacy + 1;
        case _ => return Counts(nP, nC, nR, legacy), true;
      }
    }
    return Counts(nP, nC, nR, legacy), false;
  }

  // ---- a stream, section by section ----

  lemma {:induction false} ApplyAllSplits(p: Progress, xs: seq<Record>, ys: seq<Record>)
    ensures ApplyAll(p, xs + ys) == ApplyAll(ApplyAll(p, xs), ys)
    decreases |xs|
  {
    if xs == [] {
      assert xs + ys == ys;
    } else {
      assert (xs + ys)[1..] == xs[1..] + ys;
      if !p.fatal {
        ApplyAllSplits(Apply(p, xs[0]), xs[1..], ys);
      }
    }
  }

  /** Rows of src may have overridden what was there; every other key is as it was. */
  ghost predicate Overrides<K, V>(before: map<K, V>, after: map<K, V>, src: map<K, V>) {
    && (forall k :: k in before ==> k in after)
    && (forall k :: k in after ==> (k in src && after[k] == src[k]) || (k in before && after[k] == before[k]))
  }

  lemma {:induction false} CommitCount(p: Progress, rows: CommitRows)
    requires !p.fatal
    ensures ApplyAll(p, CommitRecords(rows)).n == p.n.(commits := p.n.commits + |rows|)
    decreases |rows|
  {
    if rows != [] {
      var rs := CommitRecords(rows);
      assert rs[1..] == CommitRecords(rows[1..]);
      CommitCount(Apply(p, rs[0]), rows[1..]);
    }
  }

  lemma {:induction false} CommitSection(p: Progress, rows: CommitRows, src: map<CommitId, Commit>)
    requires !p.fatal && forall i :: 0 <= i < |rows| ==> Lookup(src, rows[i].0) == Some(rows[i].1)
    ensures var q := ApplyAll(p, CommitRecords(rows));
            && !q.fatal && q.t.refs == p.t.refs && q.t.prompts == p.t.prompts
            && Overrides(p.t.commits, q.t.commits, src)
            && (forall i :: 0 <= i < |rows| ==> Lookup(q.t.commits, rows[i].0) == Some(rows[i].1))
    decreases |rows|
  {
    if rows != [] {
      var rs := CommitRecords(rows);
      assert rs[1..] == CommitRecords(rows[1..]);
      var p1 := Apply(p, rs[0]);
      CommitSection(p1, rows[1..], src);
      var q := ApplyAll(p, rs);
      forall i | 0 <= i < |rows| ensures Lookup(q.t.commits, rows[i].0) == Some(rows[i].1) {
        if i > 0 {
          assert rows[i] == rows[1..][i - 1];
        } else {
          assert rows[0].0 in q.t.commits;
        }
      }
    }
  }

  lemma {:induction false} RefCount(p: Progress, rows: RefRows)
    requires !p.fatal
    ensures ApplyAll(p, RefRecords(rows)).n == p.n.(refs := p.n.refs + |rows|)
    decreases |rows|
  {
    if rows != [] {
      var rs := RefRecords(rows);
      assert rs[1..] == RefRecords(rows[1..]);
      RefCount(Apply(p, rs[0]), rows[1..]);
    }
  }

  lemma {:induction false} RefSection(p: Progress, rows: RefRows, src: map<(Uri, Branch), CommitId>)
    requires !p.fatal && forall i :: 0 <= i < |rows| ==> Lookup(src, (rows[i].0, rows[i].1)) == Some(rows[i].2)
    ensures var q := ApplyAll(p, RefRecords(rows));
            && !q.fatal && q.t.commits == p.t.commits && q.t.prompts == p.t.prompts
            && Overrides(p.t.refs, q.t.refs, src)
            && (forall i :: 0 <= i < |rows| ==> Lookup(q.t.refs, (rows[i].0, rows[i].1)) == Some(rows[i].2))
    decreases |rows|
  {
    if rows != [] {
      var rs := RefRecords(rows);
      assert rs[1..] == RefRecords(rows[1..]);
      var p1 := Apply(p, rs[0]);
      RefSection(p1, rows[1..], src);
      var q := ApplyAll(p, rs);
      forall i | 0 <= i < |rows| ensures Lookup(q.t.refs, (rows[i].0, rows[i].1)) == Some(rows[i].2) {
        if i > 0 {
          assert rows[i] == rows[1..][i - 1];
        } else {
          assert (rows[0].0, rows[0].1) in q.t.refs;
        }
      }
    }
  }

  lemma {:induction false} PromptCount(p: Progress, rows: PromptRows)
    requires !p.fatal
    ensures ApplyAll(p, PromptRecords(rows)).n == p.n.(prompts := p.n.prompts + |rows|)
    decreases |rows|
  {
    if rows != [] {
      var rs := PromptRecords(rows);
      assert rs[1..] == PromptRecords(rows[1..]);
      PromptCount(Apply(p, rs[0]), rows[1..]);
    }
  }

  lemma {:induction false} PromptSection(p: Progress, rows: PromptRows, src: map<Uri, Content>)
    requires !p.fatal && forall i :: 0 <= i < |rows| ==> Lookup(src, rows[i].0) == Some(rows[i].1)
    ensures var q := ApplyAll(p, PromptRecords(rows));
            && !q.fatal && q.t.commits == p.t.commits && q.t.refs == p.t.refs
            && Overrides(p.t.prompts, q.t.prompts, src)
            && (forall i :: 0 <= i < |rows| ==> Lookup(q.t.prompts, rows[i].0) == Some(rows[i].1))
    decreases |rows|
  {
    if rows != [] {
      var rs := PromptRecords(rows);
      assert rs[1..] == PromptRecords(rows[1..]);
      var p1 := Apply(p, rs[0]);
      PromptSection(p1, rows[1..], src);
      var q := ApplyAll(p, rs);
      forall i | 0 <= i < |rows| ensures Lookup(q.t.prompts, rows[i].0) == Some(rows[i].1) {
        if i > 0 {
          assert rows[i] == rows[1..][i - 1];
        } else {
          assert rows[0].0 in q.t.prompts;
        }
      }
    }
  }

  // ---- round trip ----

  lemma {:induction false} ApplyStream(p: Progress, commits: CommitRows, refs: RefRows, prompts: PromptRows)
    requires !p.fatal
    ensures ApplyAll(p, Stream(commits, refs, prompts))
         == ApplyAll(ApplyAll(ApplyAll(p, CommitRecords(commits)), RefRecords(refs)), PromptRecords(prompts))
  {
    var head := [Header(VERSION)];
    ApplyAllSplits(p, head + CommitRecords(commits) + RefRecords(refs), PromptRecords(prompts));
    ApplyAllSplits(p, head + CommitRecords(commits), RefRecords(refs));
    ApplyAllSplits(p, head, CommitRecords(commits));
    assert head[1..] == [];
    assert ApplyAll(p, head) == p;
  }

  /** b's rows laid over s. */
  function Overlay(s: Tables, b: Tables): Tables {
    Tables(s.prompts + b.prompts, s.commits + b.commits, s.refs + b.refs)
  }

  lemma {:induction false} OverridesWhole<K, V>(before: map<K, V>, after: map<K, V>, src: map<K, V>)
    requires Overrides(before, after, src)
    requires forall k :: k in src ==> Lookup(after, k) == Some(src[k])
    ensures after == before + src
  {
  }

  lemma {:induction false} CommitsWhole(p: Progress, rows: CommitRows, src: map<CommitId, Commit>)
    requires !p.fatal && IsCommitDump(rows, src)
    ensures ApplyAll(p, CommitRecords(rows))
         == Progress(p.t.(commits := p.t.commits + src), p.n.(commits := p.n.commits + |rows|), false)
  {
    CommitSection(p, rows, src);
    CommitCount(p, rows);
    forall id | id in src ensures Lookup(ApplyAll(p, CommitRecords(rows)).t.commits, id) == Some(src[id]) {
      var i :| 0 <= i < |rows| && rows[i].0 == id;
    }
    OverridesWhole(p.t.commits, ApplyAll(p, CommitRecords(rows)).t.commits, src);
  }

  lemma {:induction false} RefsWhole(p: Progress, rows: RefRows, src: map<(Uri, Branch), CommitId>)
    requires !p.fatal && IsRefDump(rows, src)
    ensures ApplyAll(p, RefRecords(rows))
         == Progress(p.t.(refs := p.t.refs + src), p.n.(refs := p.n.refs + |rows|), false)
  {
    RefSection(p, rows, src);
    RefCount(p, rows);
    forall k | k in src ensures Lookup(ApplyAll(p, RefRecords(rows)).t.refs, k) == Some(src[k]) {
      var i :| 0 <= i < |rows| && (rows[i].0, rows[i].1) == k;
    }
    OverridesWhole(p.t.refs, ApplyAll(p, RefRecords(rows)).t.refs, src);
  }

  lemma {:induction false} PromptsWhole(p: Progress, rows: PromptRows, src: map<Uri, Content>)
    requires !p.fatal && IsPromptDump(rows, src)
    ensures ApplyAll(p, PromptRecords(rows))
         == Progress(p.t.(prompts := p.t.prompts + src), p.n.(prompts := p.n.prompts + |rows|), false)
  {
    PromptSection(p, rows, src);
    PromptCount(p, rows);
    forall u | u in src ensures Lookup(ApplyAll(p, PromptRecords(rows)).t.prompts, u) == Some(src[u]) {
      var i :| 0 <= i < |rows| && rows[i].0 == u;
    }
    OverridesWhole(p.t.prompts, ApplyAll(p, PromptRecords(rows)).t.prompts, src);
  }

  /** Restoring a full backup lays its rows over the target, whatever order the dumps came in, and counts them. */
  lemma {:induction false} RestoreOverlays(s: Tables, b: Tables, commits: CommitRows, refs: RefRows, prompts: PromptRows)
    requires IsDump(b, commits, refs, prompts)
    ensures ApplyAll(Progress(s, Counts(0, 0, 0, 0), false), Stream(commits, refs, prompts))
         == Progress(Overlay(s, b), Counts(|prompts|, |commits|, |refs|, 0), false)
  {
    var p := Progress(s, Counts(0, 0, 0, 0), false);
    ApplyStream(p, commits, refs, prompts);
    CommitsWhole(p, commits, b.commits);
    var p1 := ApplyAll(p, CommitRecords(commits));
    RefsWhole(p1, refs, b.refs);
    PromptsWhole(ApplyAll(p1, RefRecords(refs)), prompts, b.prompts);
  }

  lemma {:induction false} OverlayIdentities(t: Tables)
    ensures Overlay(EMPTY, t) == t && Overlay(t, t) == t
  {
    assert EMPTY.prompts + t.prompts == t.prompts && EMPTY.commits + t.commits == t.commits && EMPTY.refs + t.refs == t.refs;
    assert t.prompts + t.prompts == t.prompts && t.commits + t.commits == t.commits && t.refs + t.refs == t.refs;
  }

  /**
   * Backup then restore into an empty store rebuilds all three tables exactly,
   * commit hashes verbatim; restoring again, forced, changes nothing.
   */
  lemma {:induction false} BackupRoundTrip(t: Tables, commits: CommitRows, refs: RefRows, prompts: PromptRows)
    requires IsDump(t, commits, refs, prompts)
    ensures Restored(EMPTY, false, Stream(commits, refs, prompts)) == Progress(t, Counts(|prompts|, |commits|, |refs|, 0), false)
    ensures Restored(t, true, Stream(commits, refs, prompts)).t == t
  {
    OverlayIdentities(t);
    RestoreOverlays(EMPTY, t, commits, refs, prompts);
    RestoreOverlays(t, t, commits, refs, prompts);
  }

  // ---- interrupted restores ----

  /** Two stores agree on the commits they share, as content-addressed hashes do. */
  ghost predicate Agree(a: map<CommitId, Commit>, b: map<CommitId, Commit>) {
    forall id :: id in a && id in b ==> a[id] == b[id]
  }

  lemma {:induction false} CutRecords(commits: CommitRows, refs: RefRows, prompts: PromptRows)
    ensures |CommitRecords(commits)| == |commits| && |RefRecords(refs)| == |refs| && |PromptRecords(prompts)| == |prompts|
    ensures forall k :: 0 <= k <= |commits| ==> CommitRecords(commits)[..k] == CommitRecords(commits[..k])
    ensures forall k :: 0 <= k <= |refs| ==> RefRecords(refs)[..k] == RefRecords(refs[..k])
    ensures forall k :: 0 <= k <= |prompts| ==> PromptRecords(prompts)[..k] == PromptRecords(prompts[..k])
  {
    CutCommits(commits);
    CutRefs(refs);
    CutPrompts(prompts);
  }

  lemma {:induction false} CutCommits(rows: CommitRows)
    ensures |CommitRecords(rows)| == |rows|
    ensures forall k :: 0 <= k <= |rows| ==> CommitRecords(rows)[..k] == CommitRecords(rows[..k])
  {
    if rows != [] {
      CutCommits(rows[1..]);
      forall k | 0 < k <= |rows| ensures CommitRecords(rows)[..k] == CommitRecords(rows[..k]) {
        assert rows[..k][1..] == rows[1..][..k - 1];
        assert CommitRecords(rows)[..k] == [CommitRecord(Some(rows[0]))] + CommitRecords(rows[1..])[..k - 1];
      }
    }
  }

  lemma {:induction false} CutRefs(rows: RefRows)
    ensures |RefRecords(rows)| == |rows|
    ensures forall k :: 0 <= k <= |rows| ==> RefRecords(rows)[..k] == RefRecords(rows[..k])
  {
    if rows != [] {
      CutRefs(rows[1..]);
      forall k | 0 < k <= |rows| ensures RefRecords(rows)[..k] == RefRecords(rows[..k]) {
        assert rows[..k][1..] == rows[1..][..k - 1];
        assert RefRecords(rows)[..k] == [RefRecord(Some(rows[0]))] + RefRecords(rows[1..])[..k - 1];
      }
    }
  }

  lemma {:induction false} CutPrompts(rows: PromptRows)
    ensures |PromptRecords(rows)| == |rows|
    ensures forall k :: 0 <= k <= |rows| ==> PromptRecords(rows)[..k] == PromptRecords(rows[..k])
  {
    if rows != [] {
      CutPrompts(rows[1..]);
      forall k | 0 < k <= |rows| ensures PromptRecords(rows)[..k] == PromptRecords(rows[..k]) {
        assert rows[..k][1..] == rows[1..][..k - 1];
        assert PromptRecords(rows)[..k] == [PromptRecord(Some(rows[0]))] + PromptRecords(rows[1..])[..k - 1];
      }
    }
  }

  /** A prefix of a stream is a stream of prefixes: later sections start only when earlier ones are whole. */
  lemma {:induction false} PrefixIsStream(commits: CommitRows, refs: RefRows, prompts: PromptRows, k: nat) returns (a: nat, b: nat, c: nat)
    requires 1 <= k <= |Stream(commits, refs, prompts)|
    ensures a <= |commits| && b <= |refs| && c <= |prompts|
    ensures (b > 0 ==> a == |commits|) && (c > 0 ==> b == |refs|)
    ensures Stream(commits, refs, prompts)[..k] == Stream(commits[..a], refs[..b], prompts[..c])
  {
    CutRecords(commits, refs, prompts);
    var n, m := |commits|, |refs|;
    a := if k - 1 < n then k - 1 else n;
    b := if k - 1 - a < m then k - 1 - a else m;
    c := k - 1 - a - b;
    var head := [Header(VERSION)];
    assert CommitRecords(commits)[..n] == CommitRecords(commits) && RefRecords(refs)[..m] == RefRecords(refs);
    assert Stream(commits, refs, prompts)[..k]
        == head + CommitRecords(commits)[..a] + RefRecords(refs)[..b] + PromptRecords(prompts)[..c];
  }

  /** While refs are still missing, the commits written so far keep every ref of the target sound. */
  lemma {:induction false} CommitPrefixIsSafe(p: Progress, rows: CommitRows, src: map<CommitId, Commit>)
    requires !p.fatal && RefsOk(p.t) && Agree(p.t.commits, src)
    requires forall i :: 0 <= i < |rows| ==> Lookup(src, rows[i].0) == Some(rows[i].1)
    ensures var q := ApplyAll(p, CommitRecords(rows)); !q.fatal && RefsOk(q.t) && q.t.refs == p.t.refs
  {
    CommitSection(p, rows, src);
  }

  /** Once all commits are in, each ref written names one of them. */
  lemma {:induction false} RefPrefixIsSafe(p: Progress, rows: RefRows, src: Tables)
    requires !p.fatal && RefsOk(p.t) && RefsOk(src)
    requires forall id :: id in src.commits ==> Lookup(p.t.commits, id) == Some(src.commits[id])
    requires forall i :: 0 <= i < |rows| ==> Lookup(src.refs, (rows[i].0, rows[i].1)) == Some(rows[i].2)
    ensures var q := ApplyAll(p, RefRecords(rows)); !q.fatal && RefsOk(q.t)
  {
    RefSection(p, rows, src.refs);
  }

  lemma {:induction false} SectionsAreSafe(p: Progress, t: Tables, commits: CommitRows, refs: RefRows, prompts: PromptRows, a: nat, b: nat, c: nat)
    requires IsDump(t, commits, refs, prompts) && RefsOk(t) && !p.fatal && RefsOk(p.t) && Agree(p.t.commits, t.commits)
    requires a <= |commits| && b <= |refs| && c <= |prompts| && (b > 0 ==> a == |commits|)
    ensures RefsOk(ApplyAll(p, Stream(commits[..a], refs[..b], prompts[..c])).t)
  {
    ApplyStream(p, commits[..a], refs[..b], prompts[..c]);
    CommitPrefixIsSafe(p, commits[..a], t.commits);
    var p1 := ApplyAll(p, CommitRecords(commits[..a]));
    if b > 0 {
      assert commits[..a] == commits;
      CommitsWhole(p, commits, t.commits);
      RefPrefixIsSafe(p1, refs[..b], t);
    } else {
      assert RefRecords(refs[..b]) == [];
    }
    PromptSection(ApplyAll(p1, RefRecords(refs[..b])), prompts[..c], t.prompts);
  }

  /**
   * A restore cut off anywhere, into an empty store or over one with agreeing
   * hashes, leaves no dangling ref.
   */
  lemma {:induction false} EveryPrefixIsSafe(s: Tables, t: Tables, force: bool, commits: CommitRows, refs: RefRows, prompts: PromptRows, k: nat)
    requires IsDump(t, commits, refs, prompts) && RefsOk(t) && RefsOk(s) && Agree(s.commits, t.commits)
    requires k <= |Stream(commits, refs, prompts)|
    ensures RefsOk(Restored(s, force, Stream(commits, refs, prompts)[..k]).t)
  {
    if k > 0 {
      var a, b, c := PrefixIsStream(commits, refs, prompts, k);
      SectionsAreSafe(Progress(s, Counts(0, 0, 0, 0), false), t, commits, refs, prompts, a, b, c);
    }
  }

  // ---- restoring again ----

  lemma {:induction false} OverriddenUnderneath<K, V>(before: map<K, V>, after: map<K, V>, src: map<K, V>)
    requires Overrides(before, after, src)
    ensures after + src == before + src
  {
  }

  /** Whatever part of the backup has been laid over the target, laying all of it over that gives the same. */
  lemma {:induction false} PartsAreCovered(p: Progress, t: Tables, commits: CommitRows, refs: RefRows, prompts: PromptRows, a: nat, b: nat, c: nat)
    requires IsDump(t, commits, refs, prompts) && !p.fatal
    requires a <= |commits| && b <= |refs| && c <= |prompts|
    ensures Overlay(ApplyAll(p, Stream(commits[..a], refs[..b], prompts[..c])).t, t) == Overlay(p.t, t)
  {
    ApplyStream(p, commits[..a], refs[..b], prompts[..c]);
    CommitSection(p, commits[..a], t.commits);
    var p1 := ApplyAll(p, CommitRecords(commits[..a]));
    RefSection(p1, refs[..b], t.refs);
    var p2 := ApplyAll(p1, RefRecords(refs[..b]));
    PromptSection(p2, prompts[..c], t.prompts);
    OverriddenUnderneath(p.t.commits, p1.t.commits, t.commits);
    OverriddenUnderneath(p.t.refs, p2.t.refs, t.refs);
    OverriddenUnderneath(p.t.prompts, ApplyAll(p2, PromptRecords(prompts[..c])).t.prompts, t.prompts);
  }

  /**
   * Restoring is idempotent into any store: after a restore cut off anywhere, or
   * refused, or complete, restoring the whole backup with force ends exactly where
   * restoring it once would have, counters included.
   */
  lemma {:induction false} RestoreResumes(s: Tables, t: Tables, force: bool, commits: CommitRows, refs: RefRows, prompts: PromptRows, k: nat)
    requires IsDump(t, commits, refs, prompts) && k <= |Stream(commits, refs, prompts)|
    ensures var all := Stream(commits, refs, prompts);
            Restored(Restored(s, force, all[..k]).t, true, all) == Restored(s, true, all)
  {
    var all := Stream(commits, refs, prompts);
    var first := Restored(s, force, all[..k]).t;
    RestoreOverlays(s, t, commits, refs, prompts);
    RestoreOverlays(first, t, commits, refs, prompts);
    if k > 0 {
      var a, b, c := PrefixIsStream(commits, refs, prompts, k);
      PartsAreCovered(Progress(s, Counts(0, 0, 0, 0), false), t, commits, refs, prompts, a, b, c);
    }
  }

  // ---- forced restores into a live history ----

  /**
   * No prompt of the backup that lacks a main branch there overrides a prompt
   * that main serves here. Backups whose prompts all have history satisfy it.
   */
  ghost predicate NoOrphanOverrides(s: Tables, b: Tables) {
    forall u :: u in b.prompts ==> NoOrphanAt(s, b, u)
  }

  ghost predicate NoOrphanAt(s: Tables, b: Tables, u: Uri)
    requires u in b.prompts
  {
    (u, MAIN) !in b.refs && (u, MAIN) in s.refs ==> Lookup(s.prompts, u) == Some(b.prompts[u])
  }

  /**
   * Merging a consistent backup into a consistent store by force keeps parents and
   * refs sound, keeps "what is served is main's tip" exactly when no orphan prompt
   * overrides a served one, and leaves every key the backup does not name untouched.
   */
  lemma {:induction false} ForcedRestore(s: Tables, b: Tables, commits: CommitRows, refs: RefRows, prompts: PromptRows)
    requires Inv(s) && Inv(b) && Agree(s.commits, b.commits) && IsDump(b, commits, refs, prompts)
    ensures var t := Restored(s, true, Stream(commits, refs, prompts)).t;
            && ParentsOk(t.commits) && RefsOk(t)
            && (HeadOk(t) <==> NoOrphanOverrides(s, b))
            && (HasHistory(b) ==> Inv(t))
            && (forall u :: u !in b.prompts ==> Lookup(t.prompts, u) == Lookup(s.prompts, u))
            && (forall id :: id !in b.commits ==> Lookup(t.commits, id) == Lookup(s.commits, id))
            && (forall k :: k !in b.refs ==> Lookup(t.refs, k) == Lookup(s.refs, k))
  {
    RestoreOverlays(s, b, commits, refs, prompts);
    OverlayParents(s, b);
    OverlayHead(s, b);
    OverlayFrame(s, b);
  }

  lemma {:induction false} OverlayFrame(s: Tables, b: Tables)
    requires Inv(s) && Inv(b) && Agree(s.commits, b.commits)
    ensures var t := Overlay(s, b);
            && (HasHistory(b) ==> NoOrphanOverrides(s, b)) && MAIN !in t.commits
            && (forall u :: u !in b.prompts ==> Lookup(t.prompts, u) == Lookup(s.prompts, u))
            && (forall id :: id !in b.commits ==> Lookup(t.commits, id) == Lookup(s.commits, id))
            && (forall k :: k !in b.refs ==> Lookup(t.refs, k) == Lookup(s.refs, k))
  {
  }

  lemma {:induction false} OverlayParents(s: Tables, b: Tables)
    requires Inv(s) && Inv(b) && Agree(s.commits, b.commits)
    ensures ParentsOk(Overlay(s, b).commits) && RefsOk(Overlay(s, b))
  {
    var all := Overlay(s, b).commits;
    forall id | id in all ensures LinkOk(all, all[id], all[id].parent) && LinkOk(all, all[id], all[id].parent2) {
      if id in b.commits {
        assert LinkOk(b.commits, b.commits[id], b.commits[id].parent) && LinkOk(b.commits, b.commits[id], b.commits[id].parent2);
      } else {
        assert LinkOk(s.commits, s.commits[id], s.commits[id].parent) && LinkOk(s.commits, s.commits[id], s.commits[id].parent2);
      }
    }
  }

  /** What is served at u is the content of main's tip, if u has a main. */
  ghost predicate HeadAt(t: Tables, u: Uri) {
    (u, MAIN) in t.refs ==> t.refs[(u, MAIN)] in t.commits && Lookup(t.prompts, u) == Some(t.commits[t.refs[(u, MAIN)]].content)
  }

  lemma {:induction false} OverlayHeadAt(s: Tables, b: Tables, u: Uri)
    requires HeadAt(s, u) && HeadAt(b, u) && Agree(s.commits, b.commits)
    ensures HeadAt(Overlay(s, b), u) <==> (u in b.prompts ==> NoOrphanAt(s, b, u))
  {
    var t := Overlay(s, b);
    if (u, MAIN) in b.refs {
      assert t.refs[(u, MAIN)] == b.refs[(u, MAIN)];
    } else if (u, MAIN) in s.refs {
      var id := s.refs[(u, MAIN)];
      assert t.refs[(u, MAIN)] == id && t.commits[id] == s.commits[id];
    }
  }

  lemma {:induction false} HeadOkIsPointwise(t: Tables)
    ensures HeadOk(t) <==> forall u :: HeadAt(t, u)
  {
    if HeadOk(t) {
      forall u ensures HeadAt(t, u) {
      }
    }
    if forall u :: HeadAt(t, u) {
      forall u | (u, MAIN) in t.refs
        ensures t.refs[(u, MAIN)] in t.commits && Lookup(t.prompts, u) == Some(t.commits[t.refs[(u, MAIN)]].content)
      {
        assert HeadAt(t, u);
      }
    }
  }

  lemma {:induction false} OverlayHead(s: Tables, b: Tables)
    requires HeadOk(s) && HeadOk(b) && Agree(s.commits, b.commits)
    ensures HeadOk(Overlay(s, b)) <==> NoOrphanOverrides(s, b)
  {
    HeadOkIsPointwise(s);
    HeadOkIsPointwise(b);
    HeadOkIsPointwise(Overlay(s, b));
    forall u ensures HeadAt(Overlay(s, b), u) <==> (u in b.prompts ==> NoOrphanAt(s, b, u)) {
      OverlayHeadAt(s, b, u);
    }
  }

  /** A file without history restores its prompts and nothing else: content is served, no commit or branch exists. */
  lemma {:induction false} LegacyHasNoHistory(p: Progress, rs: seq<Record>)
    requires forall i :: 0 <= i < |rs| ==> rs[i].Untagged?
    ensures var q := ApplyAll(p, rs);
            q.t.commits == p.t.commits && q.t.refs == p.t.refs && q.n.legacy - p.n.legacy == q.n.prompts - p.n.prompts
    decreases |rs|
  {
    if !p.fatal && rs != [] {
      LegacyHasNoHistory(Apply(p, rs[0]), rs[1..]);
    }
  }

  function LegacyRecords(rows: PromptRows): seq<Record> {
    if rows == [] then [] else [Untagged(Some(rows[0]))] + LegacyRecords(rows[1..])
  }

  /** A file without tags restores exactly what the same prompts would with tags, and says how many they were. */
  lemma {:induction false} LegacyIsPrompts(p: Progress, rows: PromptRows)
    requires !p.fatal && forall i :: 0 <= i < |rows| ==> rows[i].0 != ""
    ensures ApplyAll(p, LegacyRecords(rows)).t == ApplyAll(p, PromptRecords(rows)).t
    ensures !ApplyAll(p, LegacyRecords(rows)).fatal
    ensures ApplyAll(p, LegacyRecords(rows)).n
         == Counts(p.n.prompts + |rows|, p.n.commits, p.n.refs, p.n.legacy + |rows|)
    decreases |rows|
  {
    if rows != [] {
      var l, t := LegacyRecords(rows), PromptRecords(rows);
      assert l[1..] == LegacyRecords(rows[1..]) && t[1..] == PromptRecords(rows[1..]);
      var p1, p2 := Apply(p, l[0]), Apply(p, t[0]);
      LegacyIsPrompts(p1, rows[1..]);
      CountsDoNotMatter(p1, p2, t[1..]);
    }
  }

  /** Whether a record stops the restore, and what it writes, does not depend on the counters. */
  lemma {:induction false} CountsDoNotMatter(p: Progress, q: Progress, rs: seq<Record>)
    requires p.t == q.t && p.fatal == q.fatal
    ensures ApplyAll(p, rs).t == ApplyAll(q, rs).t && ApplyAll(p, rs).fatal == ApplyAll(q, rs).fatal
    decreases |rs|
  {
    if !p.fatal && rs != [] {
      CountsDoNotMatter(Apply(p, rs[0]), Apply(q, rs[0]), rs[1..]);
    }
  }

  /** The content of the last row about u. */
  function LastRow(rows: PromptRows, u: Uri): Option<Content> {
    if rows == [] then None
    else if rows[|rows| - 1].0 == u then Some(rows[|rows| - 1].1)
    else LastRow(rows[..|rows| - 1], u)
  }

  /** Each prompt ends with its last row; a prompt without a row keeps what it had. */
  lemma {:induction false} LastRowServes(p: Progress, rows: PromptRows, u: Uri)
    requires !p.fatal
    ensures !ApplyAll(p, PromptRecords(rows)).fatal
    ensures Lookup(ApplyAll(p, PromptRecords(rows)).t.prompts, u)
         == if LastRow(rows, u).Some? then LastRow(rows, u) else Lookup(p.t.prompts, u)
    decreases |rows|
  {
    if rows != [] {
      var n := |rows| - 1;
      LastRowServes(p, rows[..n], u);
      PromptsSnoc(rows);
      ApplyAllSplits(p, PromptRecords(rows[..n]), [PromptRecord(Some(rows[n]))]);
      var q := ApplyAll(p, PromptRecords(rows[..n]));
      assert [PromptRecord(Some(rows[n]))][1..] == [];
      assert ApplyAll(q, [PromptRecord(Some(rows[n]))]) == Apply(q, PromptRecord(Some(rows[n])));
    }
  }

  lemma {:induction false} PromptsSnoc(rows: PromptRows)
    requires rows != []
    ensures PromptRecords(rows) == PromptRecords(rows[..|rows| - 1]) + [PromptRecord(Some(rows[|rows| - 1]))]
    decreases |rows|
  {
    if |rows| == 1 {
      assert rows[1..] == [] && rows[..0] == [];
    } else {
      PromptsSnoc(rows[1..]);
      assert rows[1..][..|rows| - 2] == rows[..|rows| - 1][1..];
    }
  }

  // ---- when a restore is refused or stops ----

  /** A store that holds commits is refused untouched unless forced; otherwise force makes no difference. */
  lemma {:induction false} RefusedUnlessForced(t: Tables, force: bool, rs: seq<Record>)
    ensures |t.commits| > 0 && !force ==>
              Restored(t, force, rs).fatal && Restored(t, force, rs).t == t && Restored(t, force, rs).n == Counts(0, 0, 0, 0)
    ensures |t.commits| == 0 || force ==> Restored(t, force, rs) == Restored(t, true, rs)
  {
  }

  /** A line the restore cannot go on from: a newer format, no usable prompt, a foreign kind, or no JSON at all. */
  predicate Bad(r: Record) {
    match r
    case Header(v) => v > 1
    case Untagged(row) => row.None? || row.value.0 == ""
    case UnknownKind(_) => true
    case Undecodable => true
    case _ => false
  }

  /** A forced restore of good lines reaches the end; a bad line stops it, keeping what the lines before it wrote. */
  lemma {:induction false} StopsAtFirstBad(t: Tables, good: seq<Record>, rest: seq<Record>)
    requires forall i :: 0 <= i < |good| ==> !Bad(good[i])
    requires rest != [] ==> Bad(rest[0])
    ensures !Restored(t, true, good).fatal
    ensures Restored(t, true, good + rest) == Restored(t, true, good).(fatal := rest != [])
  {
    var start := Progress(t, Counts(0, 0, 0, 0), false);
    GoodGoesOn(start, good);
    ApplyAllSplits(start, good, rest);
  }

  lemma {:induction false} GoodGoesOn(p: Progress, good: seq<Record>)
    requires !p.fatal && forall i :: 0 <= i < |good| ==> !Bad(good[i])
    ensures !ApplyAll(p, good).fatal
    decreases |good|
  {
    if good != [] {
      assert !Bad(good[0]);
      GoodGoesOn(Apply(p, good[0]), good[1..]);
    }
  }

  /** A tagged line without its payload is skipped. */
  lemma {:induction false} EmptyTagsAreSkipped(p: Progress, rs: seq<Record>)
    requires forall i :: 0 <= i < |rs| ==> rs[i] == CommitRecord(None) || rs[i] == RefRecord(None) || rs[i] == PromptRecord(None)
    ensures ApplyAll(p, rs) == p
    decreases |rs|
  {
    if !p.fatal && rs != [] {
      EmptyTagsAreSkipped(p, rs[1..]);
    }
  }

  // ---- the shape of a backup ----

  /** A version 1 header, then every commit, every ref and every prompt, each table in the order its dump lists it. */
  lemma {:induction false} StreamShape(commits: CommitRows, refs: RefRows, prompts: PromptRows)
    ensures var s, n, m := Stream(commits, refs, prompts), |commits|, |refs|;
            && |s| == 1 + n + m + |prompts| && s[0] == Header(1)
            && (forall i :: 0 <= i < n ==> s[1 + i] == CommitRecord(Some(commits[i])))
            && (forall i :: 0 <= i < m ==> s[1 + n + i] == RefRecord(Some(refs[i])))
            && (forall i :: 0 <= i < |prompts| ==> s[1 + n + m + i] == PromptRecord(Some(prompts[i])))
  {
    CommitRecordsAt(commits);
    RefRecordsAt(refs);
    PromptRecordsAt(prompts);
  }

  lemma {:induction false} CommitRecordsAt(rows: CommitRows)
    ensures |CommitRecords(rows)| == |rows|
    ensures forall i :: 0 <= i < |rows| ==> CommitRecords(rows)[i] == CommitRecord(Some(rows[i]))
  {
    if rows != [] {
      CommitRecordsAt(rows[1..]);
    }
  }

  lemma {:induction false} RefRecordsAt(rows: RefRows)
    ensures |RefRecords(rows)| == |rows|
    ensures forall i :: 0 <= i < |rows| ==> RefRecords(rows)[i] == RefRecord(Some(rows[i]))
  {
    if rows != [] {
      RefRecordsAt(rows[1..]);
    }
  }

  lemma {:induction false} PromptRecordsAt(rows: PromptRows)
    ensures |PromptRecords(rows)| == |rows|
    ensures forall i :: 0 <= i < |rows| ==> PromptRecords(rows)[i] == PromptRecord(Some(rows[i]))
  {
    if rows != [] {
      PromptRecordsAt(rows[1..]);
    }
  }
}
