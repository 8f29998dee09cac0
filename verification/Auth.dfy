/** Authorization policy: org scoping by the parsed URI, and the write grant. */
module Auth {
  import opened Text

  const SCHEME := "priompt://"

  /** Who the interceptor says is calling; NoIdentity means auth is disabled. */
  datatype Caller = NoIdentity | Identity(org: string, sub: string, write: bool)

  /** The org scope; empty for an admin or when auth is disabled. */
  function Scope(caller: Caller): string {
    if caller.Identity? then caller.org else ""
  }

  /** Who to record as the author of a commit: subject, else org, else anonymous. */
  function ScopeOf(caller: Caller): string {
    if caller.Identity? && caller.sub != "" then caller.sub
    else if Scope(caller) != "" then Scope(caller)
    else "anonymous"
  }

  predicate MayWrite(caller: Caller) {
    caller.Identity? ==> caller.write
  }

  /** The path segments of a URI, with or without its scheme. */
  function Segments(uri: string): (segs: seq<string>)
    ensures |segs| >= 1
  {
    Split(TrimPrefix(uri, SCHEME), '/')
  }

  /** The owning org: the first path segment. */
  function OrgOf(uri: string): string {
    Segments(uri)[0]
  }

  predicate Authorized(caller: Caller, uri: string) {
    Scope(caller) == "" || Scope(caller) == OrgOf(uri)
  }

  /** A prefix is only as narrow as its separator: it must be the org itself or stop below it. */
  predicate PrefixAuthorized(caller: Caller, prefix: string) {
    var want := SCHEME + Scope(caller);
    Scope(caller) == "" || prefix == want || HasPrefix(prefix, want + "/")
  }

  /** A URI is its scheme and its segments. */
  lemma {:induction false} UriIsItsSegments(uri: string)
    requires HasPrefix(uri, SCHEME)
    ensures uri == SCHEME + Join(Segments(uri), '/')
  {
    JoinOfSplit(TrimPrefix(uri, SCHEME), '/');
  }

  lemma {:induction false} SegmentsUnderOrg(org: string, rest: string)
    requires '/' !in org
    ensures Segments(SCHEME + org + "/" + rest) == [org] + Split(rest, '/')
  {
    var path := org + (['/'] + rest);
    assert SCHEME + org + "/" + rest == SCHEME + path;
    assert TrimPrefix(SCHEME + path, SCHEME) == path;
    SplitPrefix(org, ['/'] + rest, '/');
    assert (['/'] + rest)[1..] == rest;
    assert Split(['/'] + rest, '/') == [[]] + Split(rest, '/');
    assert org + [] == org;
  }

  /** A URI whose text starts with its org's prefix parses to that org, with a path below it. */
  lemma {:induction false} PrefixParses(uri: string, org: string)
    requires '/' !in org && HasPrefix(uri, SCHEME + org + "/")
    ensures HasPrefix(uri, SCHEME) && OrgOf(uri) == org && |Segments(uri)| >= 2
  {
    var want := SCHEME + org + "/";
    assert HasPrefix(want, SCHEME);
    assert uri == want + uri[|want|..];
    SegmentsUnderOrg(org, uri[|want|..]);
  }

  lemma {:induction false} ParsedHasPrefix(uri: string, org: string)
    requires HasPrefix(uri, SCHEME) && OrgOf(uri) == org && |Segments(uri)| >= 2
    ensures HasPrefix(uri, SCHEME + org + "/")
  {
    UriIsItsSegments(uri);
    assert uri == (SCHEME + org + "/") + Join(Segments(uri)[1..], '/');
  }

  /** The string test "scheme, org, slash" and the parsed org agree: acme never captures acmecorp. */
  lemma {:induction false} OrgPrefixIsParsedOrg(uri: string, org: string)
    requires '/' !in org
    ensures HasPrefix(uri, SCHEME + org + "/") <==> HasPrefix(uri, SCHEME) && OrgOf(uri) == org && |Segments(uri)| >= 2
  {
    if HasPrefix(uri, SCHEME + org + "/") {
      PrefixParses(uri, org);
    }
    if HasPrefix(uri, SCHEME) && OrgOf(uri) == org && |Segments(uri)| >= 2 {
      ParsedHasPrefix(uri, org);
    }
  }

  /** The org is what stands before the first slash of the path, with or without the scheme. */
  lemma {:induction false} OrgIsUpToSlash(uri: string)
    ensures var path := if |uri| >= 10 && uri[..10] == "priompt://" then uri[10..] else uri;
            && OrgOf(uri) <= path && '/' !in OrgOf(uri)
            && (path == OrgOf(uri) || path[|OrgOf(uri)|] == '/')
  {
    var path := TrimPrefix(uri, SCHEME);
    assert path == if |uri| >= 10 && uri[..10] == "priompt://" then uri[10..] else uri by {
      if |uri| >= 10 {
        assert SCHEME <= uri <==> uri[..10] == "priompt://";
      }
    }
    var segs := Segments(uri);
    JoinOfSplit(path, '/');
    assert OrgOf(uri) in segs;
    if |segs| > 1 {
      assert Join(segs, '/') == segs[0] + ['/'] + Join(segs[1..], '/');
    }
  }
}
