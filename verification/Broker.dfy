/** NATS subject matching, and who may subscribe to or publish what. */
module Broker {
  import opened Basics
  import opened Text
  import opened Auth
  import opened Subjects

  // ---- wildcard matching, token by token ----

  /** "*" stands for one token, a final ">" for one or more. */
  predicate TokensMatch(pattern: seq<string>, subject: seq<string>) {
    if pattern == [] then subject == []
    else if pattern == [">"] then |subject| >= 1
    else |subject| >= 1 && (pattern[0] == "*" || pattern[0] == subject[0]) && TokensMatch(pattern[1..], subject[1..])
  }

  predicate Matches(pattern: string, subject: string) {
    TokensMatch(Split(pattern, '.'), Split(subject, '.'))
  }

  /** A subject permission: an empty allow list allows everything; a deny always wins. */
  datatype Permission = Permission(allow: seq<string>, deny: seq<string>)
  {
    predicate Permits(subject: string) {
      && (allow == [] || exists p :: p in allow && Matches(p, subject))
      && !(exists p :: p in deny && Matches(p, subject))
    }
  }

  datatype Rights = Rights(subscribe: Permission, publish: Permission)

  const EVERYTHING := "priompt.>"

  /** One credential of the users list, and the org it may watch. */
  datatype User = User(name: string, password: string, org: string, publish: bool)

  datatype BrokerUser = BrokerUser(name: string, password: string, rights: Rights)

  function RightsOf(u: User): Rights {
    Rights(Permission([if u.org != "" then OrgSubject(u.org) else EVERYTHING], []),
           if u.publish then Permission([EVERYTHING], []) else Permission([], [">"]))
  }

  /** The users branch of the broker options, filled in a loop. */
  method OptionsUsers(users: seq<User>) returns (out: seq<BrokerUser>)
    ensures |out| == |users|
    ensures forall i :: 0 <= i < |users| ==> out[i] == BrokerUser(users[i].name, users[i].password, RightsOf(users[i]))
  {
    out := [];
    for k := 0 to |users|
      invariant |out| == k
      invariant forall i :: 0 <= i < k ==> out[i] == BrokerUser(users[i].name, users[i].password, RightsOf(users[i]))
    {
      var u := users[k];
      var rights := Rights(Permission([EVERYTHING], []), Permission([], [">"]));
      if u.org != "" {
        rights := rights.(subscribe := Permission([OrgSubject(u.org)], []));
      }
      if u.publish {
        rights := rights.(publish := Permission([EVERYTHING], []));
      }
      out := out + [BrokerUser(u.name, u.password, rights)];
    }
  }

  /** The broker token has full rights; a valid API credential may only watch its org; anything else is refused. */
  function CheckClient(token: string, brokerToken: string, check: string -> Option<string>): Option<Rights> {
    if token == brokerToken then Some(Rights(Permission([], []), Permission([], [])))
    else if token == "" then None
    else
      match check(token)
      case None => None
      case Some(org) => Some(Rights(Permission([if org != "" then OrgSubject(org) else EVERYTHING], []), Permission([], [">"])))
  }

  // ---- subscription scope is API scope ----

  lemma {:induction false} SplitRoot(body: string)
    ensures Split(ROOT + body, '.') == ["priompt"] + Split(body, '.')
  {
    SplitPrefix("priompt", "." + body, '.');
    assert ROOT + body == "priompt" + ("." + body);
    assert ("." + body)[1..] == body;
    assert Split("." + body, '.') == [[]] + Split(body, '.');
    assert "priompt" + [] == "priompt";
  }

  lemma {:induction false} SplitSubject(uri: string)
    ensures Split(Subject(uri), '.') == ["priompt"] + Tokens(Segments(uri))
  {
    SubjectTokens(uri);
    assert Subject(uri) == ROOT + Subject(uri)[|ROOT|..];
    SplitRoot(Subject(uri)[|ROOT|..]);
  }

  lemma {:induction false} SplitOrgSubject(org: string)
    ensures Split(OrgSubject(org), '.') == ["priompt", Token(org), ">"]
  {
    TokenIsPlain(org);
    SplitOfJoin([Token(org), ">"], '.');
    assert [Token(org), ">"][1..] == [">"];
    assert Join([Token(org), ">"], '.') == Token(org) + ['.'] + ">";
    assert Token(org) + ".>" == Token(org) + ['.'] + ">";
    assert OrgSubject(org) == ROOT + (Token(org) + ".>");
    SplitRoot(Token(org) + ".>");
  }

  /** The org wildcard matches exactly the subjects of that org's prompts. */
  lemma {:induction false} OrgSubjectIsApiScope(org: string, uri: string)
    requires IsBytes(org) && IsBytes(uri)
    ensures Matches(OrgSubject(org), Subject(uri)) <==> OrgOf(uri) == org && |Segments(uri)| >= 2
  {
    SplitSubject(uri);
    SplitOrgSubject(org);
    TokensAt(Segments(uri));
    var segs: seq<string> := Segments(uri);
    SplitKeepsBytes(TrimPrefix(uri, SCHEME), '/');
    TokenIsPlain(org);
    TokenRoundTrip(org);
    TokenRoundTrip(segs[0]);
    var p, s := ["priompt", Token(org), ">"], ["priompt"] + Tokens(segs);
    assert p[1..] == [Token(org), ">"] && p[1..][1..] == [">"];
    assert s[1..] == Tokens(segs) && |s[1..][1..]| == |segs| - 1;
    assert TokensMatch([">"], s[1..][1..]) <==> |segs| >= 2;
    assert Token(org) != "*";
    assert TokensMatch([Token(org), ">"], s[1..]) <==> Token(org) == Token(segs[0]) && |segs| >= 2;
    assert TokensMatch(p, s) <==> TokensMatch(p[1..], s[1..]);
  }

  lemma {:induction false} EverythingMatches(uri: string)
    ensures Matches(EVERYTHING, Subject(uri))
  {
    SplitSubject(uri);
    SplitRoot(">");
    assert EVERYTHING == ROOT + ">";
    SplitOfJoin([">"], '.');
    var p, s := ["priompt", ">"], ["priompt"] + Tokens(Segments(uri));
    TokensAt(Segments(uri));
    assert p[1..] == [">"] && |s[1..]| >= 1;
  }

  lemma {:induction false} AllowOne(p: string, subject: string)
    ensures Permission([p], []).Permits(subject) <==> Matches(p, subject)
  {
    assert p in [p];
  }

  lemma {:induction false} DenyAll(subject: string)
    ensures !Permission([], [">"]).Permits(subject)
  {
    SplitOfJoin([">"], '.');
    assert Matches(">", subject);
    assert ">" in [">"];
  }

  /**
   * An API credential sees exactly the events of the prompts the API lets it
   * read (an org credential needs a path below the org), and publishes nothing.
   */
  lemma {:induction false} ApiCredentialScope(token: string, brokerToken: string, check: string -> Option<string>, uri: string, subject: string)
    requires token != brokerToken && token != "" && check(token).Some?
    requires IsBytes(check(token).value) && IsBytes(uri)
    ensures var rights := CheckClient(token, brokerToken, check).value; var org := check(token).value;
            && (rights.subscribe.Permits(Subject(uri)) <==>
                  Authorized(Identity(org, "", false), uri) && (org != "" ==> |Segments(uri)| >= 2))
            && !rights.publish.Permits(subject)
  {
    var org := check(token).value;
    DenyAll(subject);
    if org == "" {
      EverythingMatches(uri);
      AllowOne(EVERYTHING, Subject(uri));
    } else {
      OrgSubjectIsApiScope(org, uri);
      AllowOne(OrgSubject(org), Subject(uri));
    }
  }

  /** The users list draws the same line, and only a publisher may publish change events. */
  lemma {:induction false} UserScope(u: User, uri: string)
    requires IsBytes(u.org) && IsBytes(uri)
    ensures RightsOf(u).subscribe.Permits(Subject(uri)) <==> u.org == "" || (OrgOf(uri) == u.org && |Segments(uri)| >= 2)
    ensures RightsOf(u).publish.Permits(Subject(uri)) <==> u.publish
  {
    EverythingMatches(uri);
    AllowOne(EVERYTHING, Subject(uri));
    DenyAll(Subject(uri));
    OrgSubjectIsApiScope(u.org, uri);
    AllowOne(OrgSubject(u.org), Subject(uri));
  }

  // ---- who is admitted ----

  /** A client is turned away exactly when its token is not the broker's and is empty or refused by the credential check. */
  lemma {:induction false} RefusedExactly(token: string, brokerToken: string, check: string -> Option<string>)
    ensures CheckClient(token, brokerToken, check).None? <==> token != brokerToken && (token == "" || check(token).None?)
  {
  }

  /** The broker's own token may do everything; nobody admitted with another token may publish anything. */
  lemma {:induction false} AdmittedRights(token: string, brokerToken: string, check: string -> Option<string>, subject: string)
    requires CheckClient(token, brokerToken, check).Some?
    ensures var rights := CheckClient(token, brokerToken, check).value;
            && (token == brokerToken ==> rights.subscribe.Permits(subject) && rights.publish.Permits(subject))
            && (token != brokerToken ==> !rights.publish.Permits(subject))
  {
    DenyAll(subject);
  }

  // ---- what a pattern matches ----

  /** Without ">" a pattern matches token by token, "*" standing for any one. */
  lemma {:induction false} MatchIsPointwise(pattern: seq<string>, subject: seq<string>)
    requires ">" !in pattern
    ensures TokensMatch(pattern, subject) <==>
              |pattern| == |subject| && forall i :: 0 <= i < |pattern| ==> pattern[i] == "*" || pattern[i] == subject[i]
  {
    if pattern != [] && subject != [] {
      assert pattern[0] in pattern;
      MatchIsPointwise(pattern[1..], subject[1..]);
      assert forall i :: 0 <= i < |pattern[1..]| ==> pattern[1..][i] == pattern[i + 1];
      assert forall i :: 0 <= i < |subject[1..]| ==> subject[1..][i] == subject[i + 1];
      if |pattern| == |subject| && forall i :: 0 <= i < |pattern| ==> pattern[i] == "*" || pattern[i] == subject[i] {
        assert pattern[0] == "*" || pattern[0] == subject[0];
        assert forall i :: 0 <= i < |pattern[1..]| ==> pattern[1..][i] == "*" || pattern[1..][i] == subject[1..][i];
      }
      if TokensMatch(pattern, subject) {
        forall i | 0 <= i < |pattern| ensures pattern[i] == "*" || pattern[i] == subject[i] {
          if i > 0 {
            assert pattern[i] == pattern[1..][i - 1] && subject[i] == subject[1..][i - 1];
          }
        }
      }
    }
  }

  /** A final ">" stands for one or more further tokens. */
  lemma {:induction false} TailMatchesMore(pattern: seq<string>, subject: seq<string>)
    requires ">" !in pattern
    ensures TokensMatch(pattern + [">"], subject) <==> |subject| > |pattern| && TokensMatch(pattern, subject[..|pattern|])
  {
    if pattern == [] {
      assert pattern + [">"] == [">"];
    } else {
      assert pattern[0] in pattern && (pattern + [">"])[1..] == pattern[1..] + [">"];
      if subject != [] {
        TailMatchesMore(pattern[1..], subject[1..]);
        if |subject| > |pattern| {
          assert subject[..|pattern|][1..] == subject[1..][..|pattern| - 1];
        }
      }
    }
  }

  // ---- every right, on every subject ----

  /** "priompt.>" covers every subject below "priompt", and nothing else. */
  lemma {:induction false} EverythingCovers(subject: string)
    ensures var s := Split(subject, '.'); Matches("priompt.>", subject) <==> |s| >= 2 && s[0] == "priompt"
  {
    var s := Split(subject, '.');
    assert "priompt.>" == ROOT + ">";
    SplitRoot(">");
    SplitOfJoin([">"], '.');
    assert Split("priompt.>", '.') == ["priompt"] + [">"];
    assert "priompt"[0] == 'p' && ">"[0] == '>';
    TailMatchesMore(["priompt"], s);
    if |s| > 1 {
      MatchIsPointwise(["priompt"], s[..1]);
      assert "*"[0] == '*';
    }
  }

  /** An org's wildcard covers every subject below that org's token, and nothing else. */
  lemma {:induction false} OrgSubjectCovers(org: string, subject: string)
    ensures var s := Split(subject, '.'); Matches(OrgSubject(org), subject) <==> |s| >= 3 && s[0] == "priompt" && s[1] == Token(org)
  {
    var s := Split(subject, '.');
    var p := ["priompt", Token(org)];
    SplitOrgSubject(org);
    assert Split(OrgSubject(org), '.') == p + [">"];
    TokenIsPlain(org);
    assert "priompt"[0] == 'p' && ">"[0] == '>' && "*"[0] == '*';
    assert Token(org) != ">" && Token(org) != "*";
    TailMatchesMore(p, s);
    if |s| > 2 {
      MatchIsPointwise(p, s[..2]);
      assert p[0] == "priompt" && p[1] == Token(org);
    }
  }

  /** The subjects a credential for this org may watch: below "priompt", and below its own token unless it is an admin's. */
  ghost predicate Watches(org: string, subject: string) {
    var s := Split(subject, '.');
    |s| >= 2 && s[0] == "priompt" && (org != "" ==> |s| >= 3 && s[1] == Token(org))
  }

  /** A configured user may watch exactly its org's subjects, and publish exactly below "priompt" if it is a publisher. */
  lemma {:induction false} UserRights(u: User, subject: string)
    ensures RightsOf(u).subscribe.Permits(subject) <==> Watches(u.org, subject)
    ensures var s := Split(subject, '.'); RightsOf(u).publish.Permits(subject) <==> u.publish && |s| >= 2 && s[0] == "priompt"
  {
    EverythingCovers(subject);
    OrgSubjectCovers(u.org, subject);
    AllowOne(EVERYTHING, subject);
    AllowOne(OrgSubject(u.org), subject);
    DenyAll(subject);
  }

  /** A client admitted by credential may watch exactly its org's subjects. */
  lemma {:induction false} ClientRights(token: string, brokerToken: string, check: string -> Option<string>, subject: string)
    requires token != brokerToken && token != "" && check(token).Some?
    ensures CheckClient(token, brokerToken, check).Some?
    ensures CheckClient(token, brokerToken, check).value.subscribe.Permits(subject) <==> Watches(check(token).value, subject)
  {
    var org := check(token).value;
    EverythingCovers(subject);
    OrgSubjectCovers(org, subject);
    AllowOne(EVERYTHING, subject);
    AllowOne(OrgSubject(org), subject);
  }
}
