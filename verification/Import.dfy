/** CLI writers: commitMain, the first-start seed, and importing a JSON-lines file onto main. */
module Import {
  import opened Basics
  import opened Lines
  import opened Store
  import opened Databases

  type Validator = (Uri, Content) -> bool

  const AUTHOR := "priompt"

  /** Fresh hash and fate of one attempted commit. */
  datatype Attempt = Attempt(stamp: Stamp, fault: Option<StoreError>)

  datatype Outcome = Invalid | Unchanged | Wrote | Failed(error: StoreError)

  /** Validate, skip content main already holds, else commit on main. */
  function CommitMain(valid: Validator, t: Tables, uri: Uri, content: Content, message: string, a: Attempt): (Tables, Outcome) {
    var tip := t.Resolve(uri, MAIN);
    if !valid(uri, content) then (t, Invalid)
    else if tip.Some? && tip.value.content == content then (t, Unchanged)
    else if a.fault.Some? then (t, Failed(a.fault.value))
    else (t.CommitOn(uri, MAIN, content, AUTHOR, message, a.stamp), Wrote)
  }

  method CommitMainTo(db: Database, valid: Validator, uri: Uri, content: Content, message: string, a: Attempt) returns (o: Outcome)
    modifies db
    ensures (db.t, o) == CommitMain(valid, old(db.t), uri, content, message, a)
  {
    if !valid(uri, content) {
      return Invalid;
    }
    var tip := db.t.Resolve(uri, MAIN);
    if tip.Some? && tip.value.content == content {
      return Unchanged;
    }
    var r := db.Commit(uri, MAIN, content, AUTHOR, message, a.stamp, a.fault);
    return match r case Ok(_) => Wrote case Err(e) => Failed(e);
  }

  const DEMO_URI := "priompt://acme/onboarding/welcome"
  const DEMO := Content("Hi {name}, welcome to {org}!\n", ["name", "org"])

  /** The demo prompt is committed only when its URI is absent; a failed seed is only logged. */
  function SeedDemo(t: Tables, a: Attempt): Tables {
    if DEMO_URI in t.prompts || a.fault.Some? then t else t.CommitOn(DEMO_URI, MAIN, DEMO, AUTHOR, "seed: demo prompt", a.stamp)
  }

  // ---- import ----

  /** One decoded line of the file; Malformed is one the JSON decoder rejects. */
  datatype Line = Malformed | Line(uri: Uri, template: string, slots: seq<string>)

  datatype Item = Item(uri: Uri, content: Content)

  datatype Report = Report(n: nat, same: nat, failed: bool)

  /** The first three bytes: a UTF-8 mark is skipped, UTF-16 refused. */
  predicate HeadAccepted(head: string) {
    head == BOM || NormalizeTemplate(head).Ok?
  }

  /** The whole file, normalised and validated, or nothing. */
  function Accepted(valid: Validator, lines: seq<Line>): Option<seq<Item>> {
    if lines == [] then Some([])
    else
      match Checked(valid, lines[0])
      case None => None
      case Some(item) =>
        match Accepted(valid, lines[1..])
        case None => None
        case Some(rest) => Some([item] + rest)
  }

  function Checked(valid: Validator, line: Line): Option<Item> {
    match line
    case Malformed => None
    case Line(uri, template, slots) =>
      match NormalizeTemplate(template)
      case Err(_) => None
      case Ok(text) => if valid(uri, Content(text, slots)) then Some(Item(uri, Content(text, slots))) else None
  }

  /** Commit the accepted items one after the other, stopping at a failed write. */
  function CommitAll(valid: Validator, t: Tables, items: seq<Item>, attempts: seq<Attempt>, r: Report): (Tables, Report)
    requires |attempts| == |items|
    decreases |items|
  {
    if items == [] then (t, r)
    else
      var (t', o) := CommitMain(valid, t, items[0].uri, items[0].content, "import", attempts[0]);
      match o
      case Wrote => CommitAll(valid, t', items[1..], attempts[1..], r.(n := r.n + 1))
      case Unchanged => CommitAll(valid, t', items[1..], attempts[1..], r.(same := r.same + 1))
      case _ => (t', r.(failed := true))
  }

  lemma {:induction false} AcceptedSnoc(valid: Validator, lines: seq<Line>, line: Line)
    ensures Accepted(valid, lines + [line]) ==
            match (Accepted(valid, lines), Checked(valid, line))
            case (Some(items), Some(item)) => Some(items + [item])
            case _ => None
    decreases |lines|
  {
    if lines == [] {
      assert [line][1..] == [] && lines + [line] == [line];
      assert Accepted(valid, [line][1..]) == Some([]);
      assert forall item: Item :: [item] + [] == [item] && [] + [item] == [item];
    } else {
      var all := lines + [line];
      assert all[0] == lines[0] && all[1..] == lines[1..] + [line];
      AcceptedSnoc(valid, lines[1..], line);
      match (Checked(valid, lines[0]), Accepted(valid, lines[1..]), Checked(valid, line)) {
        case (Some(a), Some(rest), Some(b)) => assert [a] + (rest + [b]) == ([a] + rest) + [b];
        case _ =>
      }
    }
  }

  lemma {:induction false} RejectedStaysRejected(valid: Validator, lines: seq<Line>, k: nat)
    requires k <= |lines| && Accepted(valid, lines[..k]).None?
    ensures Accepted(valid, lines).None?
    decreases |lines| - k
  {
    if k == |lines| {
      assert lines[..k] == lines;
    } else {
      assert lines[..k + 1] == lines[..k] + [lines[k]];
      AcceptedSnoc(valid, lines[..k], lines[k]);
      RejectedStaysRejected(valid, lines, k + 1);
    }
  }

  /** Two loops: decode and validate the whole file, then commit each prompt onto main. */
  method ImportPrompts(db: Database, valid: Validator, head: string, lines: seq<Line>, attempts: seq<Attempt>) returns (r: Report)
    requires |attempts| == |lines|
    modifies db
    ensures !HeadAccepted(head) || Accepted(valid, lines).None? ==> db.t == old(db.t) && r == Report(0, 0, true)
    ensures HeadAccepted(head) && Accepted(valid, lines).Some? ==>
              |Accepted(valid, lines).value| == |lines|
              && (db.t, r) == CommitAll(valid, old(db.t), Accepted(valid, lines).value, attempts, Report(0, 0, false))
  {
    if !HeadAccepted(head) {
      return Report(0, 0, true);
    }
    var items: seq<Item> := [];
    for i := 0 to |lines|
      invariant Accepted(valid, lines[..i]) == Some(items) && |items| == i
      invariant db.t == old(db.t)
    {
      assert lines[..i + 1] == lines[..i] + [lines[i]];
      AcceptedSnoc(valid, lines[..i], lines[i]);
      var item := Checked(valid, lines[i]);
      if item.None? {
        RejectedStaysRejected(valid, lines, i + 1);
        return Report(0, 0, true);
      }
      items := items + [item.value];
    }
    assert lines[..|lines|] == lines;
    r := Report(0, 0, false);
    assert items[0..] == items && attempts[0..] == attempts;
    for i := 0 to |items|
      invariant CommitAll(valid, db.t, items[i..], attempts[i..], r) == CommitAll(valid, old(db.t), items, attempts, Report(0, 0, false))
      invariant !r.failed
    {
      assert items[i..][1..] == items[i + 1..] && attempts[i..][1..] == attempts[i + 1..];
      var o := CommitMainTo(db, valid, items[i].uri, items[i].content, "import", attempts[i]);
      match o {
        case Wrote => r := r.(n := r.n + 1);
        case Unchanged => r := r.(same := r.same + 1);
        case _ => return r.(failed := true);
      }
    }
  }

  // ---- properties ----

  /** The hashes an import will use collide with nothing and come in order. */
  ghost predicate FreshSupply(t: Tables, attempts: seq<Attempt>) {
    && (forall i :: 0 <= i < |attempts| ==> Fresh(t, attempts[i].stamp))
    && (forall i, j :: 0 <= i < j < |attempts| ==>
          attempts[i].stamp.id != attempts[j].stamp.id && attempts[i].stamp.rank < attempts[j].stamp.rank)
  }

  /** One commitMain keeps the invariant; unless it fails, main of the URI then holds and serves the content, and nothing else moved. */
  lemma {:induction false} CommitMainKeeps(valid: Validator, t: Tables, uri: Uri, content: Content, message: string, a: Attempt)
    requires Inv(t) && Fresh(t, a.stamp)
    ensures var (t', o) := CommitMain(valid, t, uri, content, message, a);
            && Keeps(t, t')
            && (o.Wrote? || o.Unchanged? ==> Lookup(t'.prompts, uri) == Some(content) && HoldsMain(t', uri, content))
            && (!o.Wrote? ==> t' == t)
            && (forall u :: u != uri ==> Lookup(t'.prompts, u) == Lookup(t.prompts, u))
            && (forall k :: k != (uri, MAIN) ==> Lookup(t'.refs, k) == Lookup(t.refs, k))
            && (o.Unchanged? <==> valid(uri, content) && HoldsMain(t, uri, content))
            && (o.Wrote? ==> t'.commits.Keys == t.commits.Keys + {a.stamp.id})
  {
    if CommitMain(valid, t, uri, content, message, a).1.Wrote? {
      CommitKeeps(t, uri, MAIN, content, AUTHOR, message, a.stamp);
    }
  }

  /** main of the URI points at this content. */
  ghost predicate HoldsMain(t: Tables, uri: Uri, content: Content) {
    (uri, MAIN) in t.refs && t.refs[(uri, MAIN)] in t.commits && t.commits[t.refs[(uri, MAIN)]].content == content
  }

  /** The last record of a URI in the file. */
  function LastOf(items: seq<Item>, u: Uri): Option<Content> {
    if items == [] then None
    else if LastOf(items[1..], u).Some? then LastOf(items[1..], u)
    else if items[0].uri == u then Some(items[0].content)
    else None
  }

  /** With every item valid, as Accepted guarantees. */
  ghost predicate AllValid(valid: Validator, items: seq<Item>) {
    forall i :: 0 <= i < |items| ==> valid(items[i].uri, items[i].content)
  }

  lemma {:induction false} AcceptedIsValid(valid: Validator, lines: seq<Line>)
    ensures Accepted(valid, lines).Some? ==> |Accepted(valid, lines).value| == |lines| && AllValid(valid, Accepted(valid, lines).value)
    ensures Accepted(valid, lines).Some? <==> forall i :: 0 <= i < |lines| ==> Checked(valid, lines[i]).Some?
  {
    if lines != [] {
      AcceptedIsValid(valid, lines[1..]);
      forall i | 0 <= i < |lines[1..]| ensures lines[1..][i] == lines[i + 1] {}
      if forall i :: 0 <= i < |lines| ==> Checked(valid, lines[i]).Some? {
        assert Checked(valid, lines[0]).Some?;
      }
      if Accepted(valid, lines).Some? {
        forall i | 0 <= i < |lines| ensures Checked(valid, lines[i]).Some? {
          if i > 0 {
            assert Checked(valid, lines[1..][i - 1]).Some?;
          }
        }
      }
    }
  }

  /** The text of a line that is not UTF-16: without one leading byte-order mark, CRLF as LF. */
  function TextOf(template: string): string {
    ReplaceCrlf(if |template| >= 3 && template[..3] == BOM then template[3..] else template)
  }

  /** Either byte-order mark of UTF-16, or a zero byte. */
  predicate LooksUtf16(template: string) {
    ['\U{FF}', '\U{FE}'] <= template || ['\U{FE}', '\U{FF}'] <= template || '\0' in template
  }

  /** The prompt a line stands for: its uri, its normalised text and its own slots. */
  function Meant(line: Line): Item
    requires line.Line?
  {
    Item(line.uri, Content(TextOf(line.template), line.slots))
  }

  /** A good line decodes, is not UTF-16, and stands for a valid prompt. */
  predicate GoodLine(valid: Validator, line: Line) {
    line.Line? && !LooksUtf16(line.template) && valid(line.uri, Meant(line).content)
  }

  lemma {:induction false} CheckedMeansGood(valid: Validator, line: Line)
    ensures Checked(valid, line) == if GoodLine(valid, line) then Some(Meant(line)) else None
  {
    if line.Line? && |line.template| >= 3 {
      assert BOM <= line.template <==> line.template[..3] == BOM;
    }
  }

  /** A file is accepted exactly when every line is good, and then item i is what line i stands for. */
  lemma {:induction false} AcceptedMeansLines(valid: Validator, lines: seq<Line>)
    ensures Accepted(valid, lines).Some? <==> forall i :: 0 <= i < |lines| ==> GoodLine(valid, lines[i])
    ensures Accepted(valid, lines).Some? ==>
              && |Accepted(valid, lines).value| == |lines|
              && forall i :: 0 <= i < |lines| ==> lines[i].Line? && Accepted(valid, lines).value[i] == Meant(lines[i])
  {
    if lines != [] {
      CheckedMeansGood(valid, lines[0]);
      AcceptedMeansLines(valid, lines[1..]);
      assert forall i :: 0 <= i < |lines[1..]| ==> lines[1..][i] == lines[i + 1];
      assert forall i :: 0 < i < |lines| ==> lines[i] == lines[1..][i - 1];
    }
  }

  /** The last good line about a prompt. */
  function LastLine(lines: seq<Line>, u: Uri): Option<Content> {
    if lines == [] then None
    else if LastLine(lines[1..], u).Some? then LastLine(lines[1..], u)
    else if lines[0].Line? && lines[0].uri == u then Some(Meant(lines[0]).content)
    else None
  }

  lemma {:induction false} LastOfLines(valid: Validator, lines: seq<Line>, u: Uri)
    requires Accepted(valid, lines).Some?
    ensures LastOf(Accepted(valid, lines).value, u) == LastLine(lines, u)
  {
    if lines != [] {
      CheckedMeansGood(valid, lines[0]);
      LastOfLines(valid, lines[1..], u);
      assert Accepted(valid, lines).value[1..] == Accepted(valid, lines[1..]).value;
    }
  }

  ghost predicate Ready(valid: Validator, t: Tables, items: seq<Item>, attempts: seq<Attempt>) {
    |attempts| == |items| && Inv(t) && FreshSupply(t, attempts) && AllValid(valid, items)
  }

  /** The report after one item that did not fail. */
  function Tally(r: Report, o: Outcome): Report {
    if o.Wrote? then r.(n := r.n + 1) else r.(same := r.same + 1)
  }

  lemma {:induction false} SupplyShrinks(t: Tables, t1: Tables, attempts: seq<Attempt>)
    requires attempts != [] && FreshSupply(t, attempts)
    requires t1 == t || exists c: Commit :: c.rank == attempts[0].stamp.rank && t1.commits == t.commits[attempts[0].stamp.id := c]
    ensures FreshSupply(t1, attempts[1..])
  {
    forall i | 0 <= i < |attempts[1..]| ensures Fresh(t1, attempts[1..][i].stamp) {
      assert Fresh(t, attempts[i + 1].stamp);
    }
  }

  lemma {:induction false} MainCommitOnly(valid: Validator, t: Tables, uri: Uri, content: Content, a: Attempt)
    ensures var t1 := CommitMain(valid, t, uri, content, "import", a).0;
            t1 == t || exists c: Commit :: c.rank == a.stamp.rank && t1.commits == t.commits[a.stamp.id := c]
  {
    var c := Tables.NewCommit(uri, content, t.Tip(uri, MAIN), AUTHOR, "import", a.stamp);
    assert t.CommitOn(uri, MAIN, content, AUTHOR, "import", a.stamp).commits == t.commits[a.stamp.id := c];
  }

  /** One item that did not fail, and what it leaves for the rest. */
  lemma {:induction false} ImportStep(valid: Validator, t: Tables, items: seq<Item>, attempts: seq<Attempt>, r: Report)
    requires Ready(valid, t, items, attempts) && items != []
    requires var o := CommitMain(valid, t, items[0].uri, items[0].content, "import", attempts[0]).1;
             o.Wrote? || o.Unchanged? || !CommitAll(valid, t, items, attempts, r).1.failed
    ensures var (t1, o) := CommitMain(valid, t, items[0].uri, items[0].content, "import", attempts[0]);
            && (o.Wrote? || o.Unchanged?)
            && Ready(valid, t1, items[1..], attempts[1..])
            && CommitAll(valid, t, items, attempts, r) == CommitAll(valid, t1, items[1..], attempts[1..], Tally(r, o))
  {
    var t1 := CommitMain(valid, t, items[0].uri, items[0].content, "import", attempts[0]).0;
    MainCommitOnly(valid, t, items[0].uri, items[0].content, attempts[0]);
    SupplyShrinks(t, t1, attempts);
    assert Inv(t1) by {
      CommitMainKeeps(valid, t, items[0].uri, items[0].content, "import", attempts[0]);
    }
  }

  /** An import keeps the store invariant and every commit there was, even when it stops at a failed write. */
  lemma {:induction false} ImportKeeps(valid: Validator, t: Tables, items: seq<Item>, attempts: seq<Attempt>, r: Report)
    requires Ready(valid, t, items, attempts)
    ensures Keeps(t, CommitAll(valid, t, items, attempts, r).0)
    decreases |items|
  {
    if items != [] {
      var (t1, o) := CommitMain(valid, t, items[0].uri, items[0].content, "import", attempts[0]);
      CommitMainKeeps(valid, t, items[0].uri, items[0].content, "import", attempts[0]);
      if o.Wrote? || o.Unchanged? {
        ImportStep(valid, t, items, attempts, r);
        ImportKeeps(valid, t1, items[1..], attempts[1..], Tally(r, o));
        KeepsTransitive(t, t1, CommitAll(valid, t, items, attempts, r).0);
      }
    }
  }

  lemma {:induction false} WroteOne(valid: Validator, t: Tables, uri: Uri, content: Content, a: Attempt)
    requires Inv(t) && Fresh(t, a.stamp)
    ensures var (t1, o) := CommitMain(valid, t, uri, content, "import", a);
            |t1.commits| == |t.commits| + if o.Wrote? then 1 else 0
  {
    CommitMainKeeps(valid, t, uri, content, "import", a);
    var t1 := CommitMain(valid, t, uri, content, "import", a).0;
    assert |t1.commits| == |t1.commits.Keys| && |t.commits| == |t.commits.Keys|;
  }

  /** An import that does not fail accounts for every record and adds exactly n commits. */
  lemma {:induction false} ImportCounts(valid: Validator, t: Tables, items: seq<Item>, attempts: seq<Attempt>, r: Report)
    requires Ready(valid, t, items, attempts) && !CommitAll(valid, t, items, attempts, r).1.failed
    ensures var (t', r') := CommitAll(valid, t, items, attempts, r);
            && r'.n + r'.same == r.n + r.same + |items|
            && |t'.commits| - |t.commits| == r'.n - r.n
    decreases |items|
  {
    if items != [] {
      var (t1, o) := CommitMain(valid, t, items[0].uri, items[0].content, "import", attempts[0]);
      ImportStep(valid, t, items, attempts, r);
      WroteOne(valid, t, items[0].uri, items[0].content, attempts[0]);
      ImportCounts(valid, t1, items[1..], attempts[1..], Tally(r, o));
    }
  }

  /** What an import leaves on one URI: its last record served from main, or, when it is not named, everything as it was. */
  ghost predicate Settled(t: Tables, t': Tables, items: seq<Item>, u: Uri) {
    && (match LastOf(items, u)
        case Some(c) => Lookup(t'.prompts, u) == Some(c) && HoldsMain(t', u, c)
        case None => Lookup(t'.prompts, u) == Lookup(t.prompts, u) && Lookup(t'.refs, (u, MAIN)) == Lookup(t.refs, (u, MAIN)))
    && (forall b :: b != MAIN ==> Lookup(t'.refs, (u, b)) == Lookup(t.refs, (u, b)))
  }

  lemma {:induction false} SettledStep(t: Tables, t1: Tables, t': Tables, items: seq<Item>, u: Uri)
    requires items != [] && Settled(t1, t', items[1..], u)
    requires Lookup(t1.prompts, items[0].uri) == Some(items[0].content) && HoldsMain(t1, items[0].uri, items[0].content)
    requires forall v :: v != items[0].uri ==> Lookup(t1.prompts, v) == Lookup(t.prompts, v)
    requires forall k :: k != (items[0].uri, MAIN) ==> Lookup(t1.refs, k) == Lookup(t.refs, k)
    requires forall id :: id in t1.commits ==> id in t'.commits && t'.commits[id] == t1.commits[id]
    ensures Settled(t, t', items, u)
  {
    if LastOf(items[1..], u).None? && items[0].uri == u {
      assert Lookup(t'.refs, (u, MAIN)) == Some(t1.refs[(u, MAIN)]);
    }
  }

  /** An import that does not fail serves the last record of every named URI and touches nothing else. */
  lemma {:induction false} ImportLastWins(valid: Validator, t: Tables, items: seq<Item>, attempts: seq<Attempt>, r: Report, u: Uri)
    requires Ready(valid, t, items, attempts) && !CommitAll(valid, t, items, attempts, r).1.failed
    ensures Settled(t, CommitAll(valid, t, items, attempts, r).0, items, u)
    decreases |items|
  {
    if items != [] {
      var (t1, o) := CommitMain(valid, t, items[0].uri, items[0].content, "import", attempts[0]);
      ImportStep(valid, t, items, attempts, r);
      ImportLastWins(valid, t1, items[1..], attempts[1..], Tally(r, o), u);
      ImportKeeps(valid, t1, items[1..], attempts[1..], Tally(r, o));
      CommitMainKeeps(valid, t, items[0].uri, items[0].content, "import", attempts[0]);
      SettledStep(t, t1, CommitAll(valid, t, items, attempts, r).0, items, u);
    }
  }

  /**
   * What importing a file does, said of its lines: an accepted file that does not
   * fail serves, for each prompt, the text and slots of the last line about it, and
   * leaves every prompt without a line alone.
   */
  lemma {:induction false} ImportServesLastLine(valid: Validator, t: Tables, lines: seq<Line>, attempts: seq<Attempt>, u: Uri)
    requires Accepted(valid, lines).Some? && |attempts| == |lines| && Inv(t) && FreshSupply(t, attempts)
    requires |Accepted(valid, lines).value| == |lines|
    requires !CommitAll(valid, t, Accepted(valid, lines).value, attempts, Report(0, 0, false)).1.failed
    ensures var t' := CommitAll(valid, t, Accepted(valid, lines).value, attempts, Report(0, 0, false)).0;
            match LastLine(lines, u)
            case Some(c) => Lookup(t'.prompts, u) == Some(c) && HoldsMain(t', u, c)
            case None => Lookup(t'.prompts, u) == Lookup(t.prompts, u) && Lookup(t'.refs, (u, MAIN)) == Lookup(t.refs, (u, MAIN))
  {
    AcceptedIsValid(valid, lines);
    LastOfLines(valid, lines, u);
    ImportLastWins(valid, t, Accepted(valid, lines).value, attempts, Report(0, 0, false), u);
  }

  /** Exactly when commitMain refuses, skips, fails and writes; a row it writes is its own. */
  lemma {:induction false} CommitMainOutcome(valid: Validator, t: Tables, uri: Uri, content: Content, message: string, a: Attempt)
    requires RefsOk(t) && MAIN !in t.commits
    ensures var (t', o) := CommitMain(valid, t, uri, content, message, a); var held := HoldsMain(t, uri, content);
            && (o.Invalid? <==> !valid(uri, content))
            && (o.Unchanged? <==> valid(uri, content) && held)
            && (o.Failed? <==> valid(uri, content) && !held && a.fault.Some?)
            && (o.Failed? ==> Some(o.error) == a.fault)
            && (o.Wrote? <==> valid(uri, content) && !held && a.fault.None?)
            && (o.Wrote? ==> Lookup(t'.commits, a.stamp.id) == Some(Commit(uri, content, t.Tip(uri, MAIN), None, "priompt", message, a.stamp.rank)))
            && (!o.Wrote? ==> t' == t)
  {
  }

  /** Every commit an import adds is by "priompt" with the message "import". */
  lemma {:induction false} ImportSigns(valid: Validator, t: Tables, items: seq<Item>, attempts: seq<Attempt>, r: Report, id: CommitId)
    requires Ready(valid, t, items, attempts) && id !in t.commits
    ensures var t' := CommitAll(valid, t, items, attempts, r).0;
            id in t'.commits ==> t'.commits[id].author == "priompt" && t'.commits[id].message == "import"
    decreases |items|
  {
    if items != [] {
      var (t1, o) := CommitMain(valid, t, items[0].uri, items[0].content, "import", attempts[0]);
      CommitMainOutcome(valid, t, items[0].uri, items[0].content, "import", attempts[0]);
      if o.Wrote? || o.Unchanged? {
        ImportStep(valid, t, items, attempts, r);
        if id !in t1.commits {
          ImportSigns(valid, t1, items[1..], attempts[1..], Tally(r, o), id);
        } else {
          SignedStays(valid, t1, items[1..], attempts[1..], Tally(r, o), id);
        }
      }
    }
  }

  lemma {:induction false} SignedStays(valid: Validator, t: Tables, items: seq<Item>, attempts: seq<Attempt>, r: Report, id: CommitId)
    requires |attempts| == |items| && id in t.commits && t.commits[id].author == "priompt" && t.commits[id].message == "import"
    ensures var t' := CommitAll(valid, t, items, attempts, r).0;
            id in t'.commits && t'.commits[id].author == "priompt" && t'.commits[id].message == "import"
    decreases |items|
  {
    if items != [] {
      var (t1, o) := CommitMain(valid, t, items[0].uri, items[0].content, "import", attempts[0]);
      if o.Wrote? || o.Unchanged? {
        SignedStays(valid, t1, items[1..], attempts[1..], Tally(r, o), id);
      }
    }
  }

  /** No URI appears with two different contents. */
  ghost predicate OneContentEach(items: seq<Item>) {
    forall i, j :: 0 <= i < |items| && 0 <= j < |items| && items[i].uri == items[j].uri ==> items[i].content == items[j].content
  }

  /** An import writes nothing exactly when main already holds every record. */
  lemma {:induction false} NothingToImport(valid: Validator, t: Tables, items: seq<Item>, attempts: seq<Attempt>, r: Report)
    requires Ready(valid, t, items, attempts) && !CommitAll(valid, t, items, attempts, r).1.failed
    ensures CommitAll(valid, t, items, attempts, r).1.n >= r.n
    ensures CommitAll(valid, t, items, attempts, r).1.n == r.n <==>
            forall i :: 0 <= i < |items| ==> HoldsMain(t, items[i].uri, items[i].content)
    decreases |items|
  {
    if items != [] {
      var (t1, o) := CommitMain(valid, t, items[0].uri, items[0].content, "import", attempts[0]);
      ImportStep(valid, t, items, attempts, r);
      assert o.Unchanged? <==> HoldsMain(t, items[0].uri, items[0].content) by {
        CommitMainKeeps(valid, t, items[0].uri, items[0].content, "import", attempts[0]);
      }
      NothingToImport(valid, t1, items[1..], attempts[1..], Tally(r, o));
      assert forall i :: 0 <= i < |items[1..]| ==> items[1..][i] == items[i + 1];
      assert forall i :: 0 < i < |items| ==> items[i] == items[1..][i - 1];
    }
  }

  /**
   * Importing the same file again writes nothing exactly when no URI appears in
   * it with two different contents.
   */
  lemma {:induction false} ReimportIdempotent(valid: Validator, t: Tables, items: seq<Item>, first: seq<Attempt>, second: seq<Attempt>)
    requires |second| == |items| && Ready(valid, t, items, first)
    requires !CommitAll(valid, t, items, first, Report(0, 0, false)).1.failed
    requires var t' := CommitAll(valid, t, items, first, Report(0, 0, false)).0;
             FreshSupply(t', second) && !CommitAll(valid, t', items, second, Report(0, 0, false)).1.failed
    ensures var t' := CommitAll(valid, t, items, first, Report(0, 0, false)).0;
            CommitAll(valid, t', items, second, Report(0, 0, false)).1.n == 0 <==> OneContentEach(items)
  {
    var r0 := Report(0, 0, false);
    var t' := CommitAll(valid, t, items, first, r0).0;
    ImportKeeps(valid, t, items, first, r0);
    NothingToImport(valid, t', items, second, r0);
    forall i | 0 <= i < |items|
      ensures LastOf(items, items[i].uri).Some? && HoldsMain(t', items[i].uri, LastOf(items, items[i].uri).value)
    {
      LastOfAny(items, items[i].uri);
      ImportLastWins(valid, t, items, first, r0, items[i].uri);
    }
    if OneContentEach(items) {
      forall i | 0 <= i < |items| ensures HoldsMain(t', items[i].uri, items[i].content) {
        LastOfAny(items, items[i].uri);
      }
    }
  }

  const TWICE := [Item("priompt://acme/a", Content("one", [])), Item("priompt://acme/a", Content("two", []))]

  lemma {:induction false} TwiceIsTwoContents()
    ensures !OneContentEach(TWICE)
  {
    assert "one"[0] != "two"[0];
    assert TWICE[0].uri == TWICE[1].uri && TWICE[0].content != TWICE[1].content;
  }

  /** A two-line file that names one prompt twice: importing it a second time writes again. */
  lemma {:induction false} RepeatedUriWritesAgain(valid: Validator, t: Tables, first: seq<Attempt>, second: seq<Attempt>)
    requires |second| == |TWICE| && Ready(valid, t, TWICE, first)
    requires !CommitAll(valid, t, TWICE, first, Report(0, 0, false)).1.failed
    requires var t' := CommitAll(valid, t, TWICE, first, Report(0, 0, false)).0;
             FreshSupply(t', second) && !CommitAll(valid, t', TWICE, second, Report(0, 0, false)).1.failed
    ensures var t' := CommitAll(valid, t, TWICE, first, Report(0, 0, false)).0;
            CommitAll(valid, t', TWICE, second, Report(0, 0, false)).1.n != 0
  {
    ReimportIdempotent(valid, t, TWICE, first, second);
    TwiceIsTwoContents();
  }

  /** The last record of a URI is one of its records, and exists when the URI appears. */
  lemma {:induction false} LastOfAny(items: seq<Item>, u: Uri)
    ensures LastOf(items, u).Some? <==> exists i :: 0 <= i < |items| && items[i].uri == u
    ensures LastOf(items, u).Some? ==> exists i :: 0 <= i < |items| && items[i] == Item(u, LastOf(items, u).value)
  {
    if items != [] {
      LastOfAny(items[1..], u);
      if LastOf(items[1..], u).Some? {
        var i :| 0 <= i < |items[1..]| && items[1..][i] == Item(u, LastOf(items[1..], u).value);
        assert items[i + 1] == Item(u, LastOf(items, u).value);
      } else {
        assert forall j :: 0 <= j < |items[1..]| ==> items[1..][j] == items[j + 1];
        assert forall i :: 0 < i < |items| ==> items[i] == items[1..][i - 1];
        if items[0].uri == u {
          assert items[0] == Item(u, LastOf(items, u).value);
        }
      }
    }
  }

  // ---- an import that stops ----

  /** The head of a file is refused exactly when it looks like UTF-16. */
  lemma {:induction false} HeadIsNotUtf16(head: string)
    ensures HeadAccepted(head) <==> !LooksUtf16(head)
  {
    assert BOM[0] as int == 0xEF && BOM[1] as int == 0xBB && BOM[2] as int == 0xBF;
    assert ['\U{FF}', '\U{FE}'][0] as int == 0xFF && ['\U{FE}', '\U{FF}'][0] as int == 0xFE;
    assert '\0' as int == 0 && '\0' !in BOM;
  }

  /** An import is its first k items, and then the rest unless one of them failed. */
  lemma {:induction false} ImportSplits(valid: Validator, t: Tables, items: seq<Item>, attempts: seq<Attempt>, r: Report, k: nat)
    requires |attempts| == |items| && k <= |items| && !r.failed
    ensures var (t1, r1) := CommitAll(valid, t, items[..k], attempts[..k], r);
            CommitAll(valid, t, items, attempts, r)
            == if r1.failed then (t1, r1) else CommitAll(valid, t1, items[k..], attempts[k..], r1)
    decreases k
  {
    if k == 0 {
      assert items[..0] == [] && items[0..] == items && attempts[0..] == attempts;
    } else {
      var (t1, o) := CommitMain(valid, t, items[0].uri, items[0].content, "import", attempts[0]);
      assert items[..k][1..] == items[1..][..k - 1] && attempts[..k][1..] == attempts[1..][..k - 1];
      assert items[1..][k - 1..] == items[k..] && attempts[1..][k - 1..] == attempts[k..];
      if o.Wrote? || o.Unchanged? {
        ImportSplits(valid, t1, items[1..], attempts[1..], Tally(r, o), k - 1);
      }
    }
  }

  /** An item whose write fails stops the import there, keeping what came before and touching nothing else. */
  lemma {:induction false} ImportStopsAtFailure(valid: Validator, t: Tables, items: seq<Item>, attempts: seq<Attempt>, r: Report, k: nat)
    requires |attempts| == |items| && k < |items| && !r.failed
    requires var (t1, r1) := CommitAll(valid, t, items[..k], attempts[..k], r);
             !r1.failed && valid(items[k].uri, items[k].content) && RefsOk(t1) && MAIN !in t1.commits
             && !HoldsMain(t1, items[k].uri, items[k].content) && attempts[k].fault.Some?
    ensures var (t1, r1) := CommitAll(valid, t, items[..k], attempts[..k], r);
            CommitAll(valid, t, items, attempts, r) == (t1, r1.(failed := true))
  {
    ImportSplits(valid, t, items, attempts, r, k);
    var t1 := CommitAll(valid, t, items[..k], attempts[..k], r).0;
    CommitMainOutcome(valid, t1, items[k].uri, items[k].content, "import", attempts[k]);
  }
}
