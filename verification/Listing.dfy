/** ListPrompts: browse the served prompts under a URI prefix without crossing the org boundary. */
module Listing {
  import opened Basics
  import opened Text
  import opened Auth
  import opened Store

  datatype Row = Row(uri: Uri, version: Version)

  /** Byte order on URIs, the order of the store's listing. */
  predicate Before(a: string, b: string) {
    b != [] && (a == [] || a[0] < b[0] || (a[0] == b[0] && Before(a[1..], b[1..])))
  }

  /** The store's answer for a prefix: the served prompts that start with it, each once, in URI order. */
  ghost predicate IsStoreListing(t: Tables, prefix: string, rows: seq<Row>) {
    && (forall i :: 0 <= i < |rows| ==> HasPrefix(rows[i].uri, prefix) && Lookup(t.prompts, rows[i].uri).Some?
                                        && rows[i].version == Sha(t.prompts[rows[i].uri]))
    && (forall u :: u in t.prompts && HasPrefix(u, prefix) ==> exists i :: 0 <= i < |rows| && rows[i].uri == u)
    && Sorted(rows)
  }

  /** The prefix actually asked of the store: an empty one means everything the caller can read. */
  function EffectivePrefix(caller: Caller, prefix: string): string {
    if prefix == "" && Scope(caller) != "" then SCHEME + Scope(caller) + "/" else prefix
  }

  /** The order-preserving filter of a listing by a test on the URI. */
  function Filter(keep: Uri -> bool, rows: seq<Row>): seq<Row> {
    if rows == [] then []
    else
      var rest := Filter(keep, rows[1..]);
      if keep(rows[0].uri) then [rows[0]] + rest else rest
  }

  /** The rows of a listing that belong to the caller's org, in the same order. */
  function InScopeRows(caller: Caller, rows: seq<Row>): seq<Row> {
    Filter(u => Authorized(caller, u), rows)
  }

  lemma {:induction false} FilterSnoc(keep: Uri -> bool, rows: seq<Row>, r: Row)
    ensures Filter(keep, rows + [r]) == Filter(keep, rows) + if keep(r.uri) then [r] else []
  {
    if rows == [] {
      assert [] + [r] == [r];
      assert [r][1..] == [];
    } else {
      FilterSnoc(keep, rows[1..], r);
      assert (rows + [r])[1..] == rows[1..] + [r];
    }
  }

  /** The handler's filter loop, over the rows the store returned for the effective prefix. */
  method ListPrompts(caller: Caller, prefix: string, rows: seq<Row>) returns (entries: Option<seq<Row>>)
    ensures entries.Some? <==> PrefixAuthorized(caller, EffectivePrefix(caller, prefix))
    ensures entries.Some? ==> entries.value == InScopeRows(caller, rows)
  {
    if !PrefixAuthorized(caller, EffectivePrefix(caller, prefix)) {
      return None;
    }
    var out: seq<Row> := [];
    for i := 0 to |rows|
      invariant out == InScopeRows(caller, rows[..i])
    {
      assert rows[..i + 1] == rows[..i] + [rows[i]];
      FilterSnoc(u => Authorized(caller, u), rows[..i], rows[i]);
      if Authorized(caller, rows[i].uri) {
        out := out + [rows[i]];
      }
    }
    assert rows[..|rows|] == rows;
    return Some(out);
  }

  lemma {:induction false} FilterMembers(keep: Uri -> bool, rows: seq<Row>)
    ensures forall r :: r in Filter(keep, rows) <==> r in rows && keep(r.uri)
  {
    if rows != [] {
      FilterMembers(keep, rows[1..]);
      assert rows == [rows[0]] + rows[1..];
    }
  }

  ghost predicate Sorted(rows: seq<Row>) {
    forall i, j :: 0 <= i < j < |rows| ==> Before(rows[i].uri, rows[j].uri)
  }

  lemma {:induction false} FilterSorted(keep: Uri -> bool, rows: seq<Row>)
    requires Sorted(rows)
    ensures Sorted(Filter(keep, rows))
  {
    if rows != [] {
      var rest := Filter(keep, rows[1..]);
      FilterSorted(keep, rows[1..]);
      FilterMembers(keep, rows[1..]);
      forall j | 0 <= j < |rest| ensures Before(rows[0].uri, rest[j].uri) {
        assert rest[j] in rows[1..];
      }
    }
  }

  /** Sound and complete: exactly the served prompts under the prefix that the caller may read, in order. */
  lemma {:induction false} ListingExact(t: Tables, caller: Caller, prefix: string, rows: seq<Row>)
    requires IsStoreListing(t, EffectivePrefix(caller, prefix), rows)
    ensures var out := InScopeRows(caller, rows);
            && (forall u, v :: Row(u, v) in out <==> u in t.prompts && v == Sha(t.prompts[u])
                                                      && HasPrefix(u, EffectivePrefix(caller, prefix)) && Authorized(caller, u))
            && Sorted(out)
  {
    FilterMembers(u => Authorized(caller, u), rows);
    FilterSorted(u => Authorized(caller, u), rows);
    forall u, v | u in t.prompts && v == Sha(t.prompts[u]) && HasPrefix(u, EffectivePrefix(caller, prefix))
      ensures Row(u, v) in rows
    {
      var i :| 0 <= i < |rows| && rows[i].uri == u;
      assert rows[i] == Row(u, v);
    }
  }

  lemma {:induction false} OrgHasNoSlash(uri: string)
    ensures '/' !in OrgOf(uri)
  {
    JoinOfSplit(TrimPrefix(uri, SCHEME), '/');
    assert OrgOf(uri) in Segments(uri);
  }

  /**
   * Below the separator after the caller's scope everything the string test matches
   * is in scope, unless the scope itself holds a slash and is no org's name: then
   * the filter after it drops everything. The one other authorized prefix is the
   * bare org, where the filter does the separating.
   */
  lemma {:induction false} FilterOnlyMattersAtBareOrg(caller: Caller, prefix: string, uri: string)
    requires Scope(caller) != ""
    requires PrefixAuthorized(caller, prefix) && prefix != SCHEME + Scope(caller) && HasPrefix(uri, prefix)
    ensures Authorized(caller, uri) <==> '/' !in Scope(caller)
  {
    OrgHasNoSlash(uri);
    if '/' !in Scope(caller) {
      assert HasPrefix(uri, SCHEME + Scope(caller) + "/");
      OrgPrefixIsParsedOrg(uri, Scope(caller));
    }
  }

  /** An empty prefix lists, for a scoped token, exactly its own org's scheme-carrying prompts. */
  lemma {:induction false} EmptyPrefixIsOwnOrg(t: Tables, caller: Caller, rows: seq<Row>, uri: string)
    requires Scope(caller) != ""
    requires IsStoreListing(t, EffectivePrefix(caller, ""), rows)
    ensures PrefixAuthorized(caller, EffectivePrefix(caller, ""))
    ensures (exists v :: Row(uri, v) in InScopeRows(caller, rows)) <==>
              uri in t.prompts && HasPrefix(uri, SCHEME) && OrgOf(uri) == Scope(caller) && |Segments(uri)| >= 2
  {
    ListingExact(t, caller, "", rows);
    OrgHasNoSlash(uri);
    if '/' !in Scope(caller) {
      OrgPrefixIsParsedOrg(uri, Scope(caller));
    }
    if uri in t.prompts && HasPrefix(uri, EffectivePrefix(caller, "")) && Authorized(caller, uri) {
      assert Row(uri, Sha(t.prompts[uri])) in InScopeRows(caller, rows);
    }
  }

  // ---- which prefixes ----

  /**
   * Which requests are accepted, and what is listed: an unscoped caller gets what
   * it asks for; a scoped one may ask for nothing in particular, for its bare org,
   * or for anything below its org.
   */
  lemma {:induction false} PrefixAccepted(caller: Caller, prefix: string)
    ensures var effective := EffectivePrefix(caller, prefix);
            && (prefix != "" || Scope(caller) == "" ==> effective == prefix)
            && (prefix == "" && Scope(caller) != "" ==> effective == "priompt://" + Scope(caller) + "/")
            && (PrefixAuthorized(caller, effective) <==>
                  || Scope(caller) == "" || prefix == "" || prefix == "priompt://" + Scope(caller)
                  || exists rest :: prefix == "priompt://" + Scope(caller) + "/" + rest)
  {
    var want := "priompt://" + Scope(caller) + "/";
    if want <= prefix {
      assert prefix == want + prefix[|want|..];
    }
  }

  /**
   * The rule is as strict as it must be and no stricter: a prefix under the scheme
   * is accepted, the bare org aside, exactly when every URI it can match is in the
   * caller's scope.
   */
  lemma {:induction false} PrefixRuleIsExact(caller: Caller, prefix: string)
    requires Scope(caller) != "" && '/' !in Scope(caller) && HasPrefix(prefix, SCHEME)
    ensures PrefixAuthorized(caller, prefix) && prefix != SCHEME + Scope(caller) <==>
              forall uri :: HasPrefix(uri, prefix) ==> Authorized(caller, uri)
  {
    if PrefixAuthorized(caller, prefix) && prefix != SCHEME + Scope(caller) {
      forall uri | HasPrefix(uri, prefix) ensures Authorized(caller, uri) {
        FilterOnlyMattersAtBareOrg(caller, prefix, uri);
      }
    }
    if forall uri :: HasPrefix(uri, prefix) ==> Authorized(caller, uri) {
      assert HasPrefix(prefix, prefix) && HasPrefix(prefix + "x", prefix);
      assert Authorized(caller, prefix) && Authorized(caller, prefix + "x");
      OnlyBelowTheOrg(prefix, Scope(caller));
    }
  }

  /** A URI of one segment changes its org when it is extended by a letter. */
  lemma {:induction false} OneSegment(uri: string)
    requires HasPrefix(uri, SCHEME) && |Segments(uri)| == 1
    ensures OrgOf(uri + "x") != OrgOf(uri)
  {
    var org := OrgOf(uri);
    UriIsItsSegments(uri);
    OrgHasNoSlash(uri);
    assert TrimPrefix(uri + "x", SCHEME) == org + "x";
    SplitOfJoin([org + "x"], '/');
    assert |OrgOf(uri + "x")| == |org| + 1;
  }

  /** If a URI and its extension by a letter have the same org, the URI goes below that org. */
  lemma {:induction false} OnlyBelowTheOrg(uri: string, org: string)
    requires HasPrefix(uri, SCHEME) && OrgOf(uri) == org && OrgOf(uri + "x") == org
    ensures HasPrefix(uri, SCHEME + org + "/") && uri != SCHEME + org
  {
    if |Segments(uri)| == 1 {
      OneSegment(uri);
    }
    ParsedHasPrefix(uri, org);
  }

  /** The order of a listing is strict, so no URI is listed twice. */
  lemma {:induction false} BeforeIsStrict(a: string)
    ensures !Before(a, a)
  {
    if a != [] {
      BeforeIsStrict(a[1..]);
    }
  }

  lemma {:induction false} ListedOnce(rows: seq<Row>, i: nat, j: nat)
    requires Sorted(rows) && i < j < |rows|
    ensures rows[i].uri != rows[j].uri
  {
    BeforeIsStrict(rows[i].uri);
  }
}
