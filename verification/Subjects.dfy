/** Prompt URIs as NATS subjects: split on "/", percent-encode each segment byte by byte, join with ".". */
module Subjects {
  import opened Basics
  import opened Text
  import opened Auth

  /** Go strings are byte strings: every element of the model's strings stands for one byte. */
  predicate IsBytes(s: string) {
    forall i :: 0 <= i < |s| ==> s[i] as int < 256
  }

  const ROOT := "priompt."

  predicate Plain(c: char) {
    'a' <= c <= 'z' || 'A' <= c <= 'Z' || '0' <= c <= '9' || c == '_' || c == '-'
  }

  function HexDigit(n: int): char
    requires 0 <= n < 16
  {
    "0123456789ABCDEF"[n]
  }

  function HexValue(c: char): Option<int> {
    if '0' <= c <= '9' then Some(c as int - '0' as int)
    else if 'A' <= c <= 'F' then Some(c as int - 'A' as int + 10)
    else None
  }

  /** One byte of a token: itself when plain, else %XX (section 2.1 of RFC 3986). */
  function EncodeByte(c: char): string {
    if Plain(c) then [c] else ['%', HexDigit(c as int / 16 % 16), HexDigit(c as int % 16)]
  }

  function Token(s: string): string {
    if s == [] then [] else EncodeByte(s[0]) + Token(s[1..])
  }

  /** Percent-decoding, None on anything Token cannot have produced. */
  function DecodeToken(t: string): Option<string> {
    if t == [] then Some([])
    else if Plain(t[0]) then
      match DecodeToken(t[1..])
      case None => None
      case Some(rest) => Some([t[0]] + rest)
    else if t[0] == '%' && |t| >= 3 && HexValue(t[1]).Some? && HexValue(t[2]).Some? then
      match DecodeToken(t[3..])
      case None => None
      case Some(rest) => Some([(HexValue(t[1]).value * 16 + HexValue(t[2]).value) as char] + rest)
    else None
  }

  lemma {:induction false} HexRoundTrip(n: int)
    requires 0 <= n < 16
    ensures HexValue(HexDigit(n)) == Some(n) && Plain(HexDigit(n))
  {
    assert HexDigit(n) == "0123456789ABCDEF"[n];
  }

  lemma {:induction false} HexDigits(c: char)
    requires c as int < 256
    ensures var hi, lo := HexValue(HexDigit(c as int / 16 % 16)), HexValue(HexDigit(c as int % 16));
            hi.Some? && lo.Some? && (hi.value * 16 + lo.value) as char == c
  {
    HexRoundTrip(c as int / 16 % 16);
    HexRoundTrip(c as int % 16);
  }

  /** Decoding reads back one encoded byte and goes on with the rest. */
  lemma {:induction false} DecodeEncoded(c: char, t: string)
    requires c as int < 256
    ensures DecodeToken(EncodeByte(c) + t) == match DecodeToken(t) case None => None case Some(rest) => Some([c] + rest)
  {
    var all := EncodeByte(c) + t;
    if Plain(c) {
      assert all[0] == c && all[1..] == t;
    } else {
      HexDigits(c);
      assert all[0] == '%' && all[1] == HexDigit(c as int / 16 % 16) && all[2] == HexDigit(c as int % 16) && all[3..] == t;
    }
  }

  /** The token decodes to the segment. */
  lemma {:induction false} TokenRoundTrip(s: string)
    requires IsBytes(s)
    ensures DecodeToken(Token(s)) == Some(s)
  {
    if s != [] {
      TokenRoundTrip(s[1..]);
      DecodeEncoded(s[0], Token(s[1..]));
      assert s == [s[0]] + s[1..];
    }
  }

  predicate TokenChars(t: string) {
    forall i :: 0 <= i < |t| ==> Plain(t[i]) || t[i] == '%'
  }

  /** A token holds no separator and no wildcard. */
  lemma {:induction false} TokenIsPlain(s: string)
    ensures TokenChars(Token(s))
    ensures '.' !in Token(s) && '*' !in Token(s) && '>' !in Token(s)
  {
    if s != [] {
      TokenIsPlain(s[1..]);
      HexRoundTrip(s[0] as int / 16 % 16);
      HexRoundTrip(s[0] as int % 16);
    }
  }

  // ---- subjects ----

  function Tokens(segs: seq<string>): seq<string> {
    if segs == [] then [] else [Token(segs[0])] + Tokens(segs[1..])
  }

  lemma {:induction false} TokensAt(segs: seq<string>)
    ensures |Tokens(segs)| == |segs|
    ensures forall i :: 0 <= i < |segs| ==> Tokens(segs)[i] == Token(segs[i])
  {
    if segs != [] {
      TokensAt(segs[1..]);
    }
  }

  lemma {:induction false} TokensAre(segs: seq<string>, out: seq<string>)
    requires |out| == |segs| && forall i :: 0 <= i < |segs| ==> out[i] == Token(segs[i])
    ensures out == Tokens(segs)
  {
    TokensAt(segs);
  }

  /** The subject of a URI, as a value; the method below computes it as the broker does. */
  function Subject(uri: string): string {
    ROOT + Join(Tokens(Segments(uri)), '.')
  }

  lemma {:induction false} SplitKeepsBytes(s: string, sep: char)
    requires IsBytes(s)
    ensures forall i :: 0 <= i < |Split(s, sep)| ==> IsBytes(Split(s, sep)[i])
  {
    if s != [] {
      SplitKeepsBytes(s[1..], sep);
      assert IsBytes(Split(s[1..], sep)[0]);
    }
  }

  /** Encode one segment, appending to a builder byte by byte. */
  method SubjectToken(s: string) returns (b: string)
    ensures b == Token(s)
  {
    b := "";
    var i := 0;
    while i < |s|
      invariant 0 <= i <= |s|
      invariant b + Token(s[i..]) == Token(s)
    {
      assert s[i..][1..] == s[i + 1..];
      b := b + EncodeByte(s[i]);
      i := i + 1;
    }
  }

  lemma {:induction false} SubjectFromTokens(uri: string, tokens: seq<string>)
    requires |tokens| == |Segments(uri)| && forall i :: 0 <= i < |tokens| ==> tokens[i] == Token(Segments(uri)[i])
    ensures Subject(uri) == ROOT + Join(tokens, '.')
  {
    TokensAre(Segments(uri), tokens);
  }

  /** Rewrite the segments in place, one token each. */
  method EncodeSegments(segs: array<string>)
    modifies segs
    ensures forall j :: 0 <= j < segs.Length ==> segs[j] == Token(old(segs[j]))
  {
    for i := 0 to segs.Length
      invariant forall j :: 0 <= j < i ==> segs[j] == Token(old(segs[j]))
      invariant forall j :: i <= j < segs.Length ==> segs[j] == old(segs[j])
    {
      var token := SubjectToken(segs[i]);
      segs[i] := token;
    }
  }

  /** Map a URI to its subject. */
  method SubjectOf(uri: string) returns (subject: string)
    ensures subject == Subject(uri)
  {
    var parts := Segments(uri);
    var segs := new string[|parts|](i requires 0 <= i < |parts| => parts[i]);
    EncodeSegments(segs);
    SubjectFromTokens(uri, segs[..]);
    subject := ROOT + Join(segs[..], '.');
  }

  /** The wildcard covering every prompt of one org. */
  function OrgSubject(org: string): string {
    ROOT + Token(org) + ".>"
  }

  // ---- injectivity ----

  function DecodeAll(tokens: seq<string>): Option<seq<string>> {
    if tokens == [] then Some([])
    else
      match (DecodeToken(tokens[0]), DecodeAll(tokens[1..]))
      case (Some(s), Some(rest)) => Some([s] + rest)
      case _ => None
  }

  /** The path a subject came from: split on ".", percent-decode each token, join with "/". */
  function DecodeSubject(subject: string): Option<string> {
    if !HasPrefix(subject, ROOT) then None
    else
      match DecodeAll(Split(subject[|ROOT|..], '.'))
      case None => None
      case Some(segs) => Some(Join(segs, '/'))
  }

  lemma {:induction false} DecodeAllTokens(segs: seq<string>)
    requires forall i :: 0 <= i < |segs| ==> IsBytes(segs[i])
    ensures DecodeAll(Tokens(segs)) == Some(segs)
  {
    if segs != [] {
      DecodeAllTokens(segs[1..]);
      TokenRoundTrip(segs[0]);
      var ts := Tokens(segs);
      assert ts[0] == Token(segs[0]) && ts[1..] == Tokens(segs[1..]);
      assert segs == [segs[0]] + segs[1..];
    }
  }

  /** Splitting a subject body on "." gives back one token per URI segment. */
  lemma {:induction false} SubjectTokens(uri: string)
    ensures HasPrefix(Subject(uri), ROOT)
    ensures Split(Subject(uri)[|ROOT|..], '.') == Tokens(Segments(uri))
  {
    TokensAt(Segments(uri));
    forall t | t in Tokens(Segments(uri)) ensures '.' !in t {
      var i :| 0 <= i < |Tokens(Segments(uri))| && Tokens(Segments(uri))[i] == t;
      TokenIsPlain(Segments(uri)[i]);
    }
    SplitOfJoin(Tokens(Segments(uri)), '.');
    assert Subject(uri)[|ROOT|..] == Join(Tokens(Segments(uri)), '.');
  }

  /** The decoder inverts Subject on every byte string, up to the scheme. */
  lemma {:induction false} SubjectDecodes(uri: string)
    requires IsBytes(uri)
    ensures DecodeSubject(Subject(uri)) == Some(TrimPrefix(uri, SCHEME))
    ensures HasPrefix(uri, SCHEME) ==> uri == SCHEME + DecodeSubject(Subject(uri)).value
  {
    SubjectTokens(uri);
    SplitKeepsBytes(TrimPrefix(uri, SCHEME), '/');
    DecodeAllTokens(Segments(uri));
    JoinOfSplit(TrimPrefix(uri, SCHEME), '/');
  }

  /** Two URIs share a subject exactly when they differ at most by the scheme. */
  lemma {:induction false} SubjectInjective(a: string, b: string)
    requires IsBytes(a) && IsBytes(b)
    ensures Subject(a) == Subject(b) <==> TrimPrefix(a, SCHEME) == TrimPrefix(b, SCHEME)
    ensures HasPrefix(a, SCHEME) && HasPrefix(b, SCHEME) ==> (Subject(a) == Subject(b) <==> a == b)
  {
    SubjectDecodes(a);
    SubjectDecodes(b);
  }

  // ---- the encoding itself ----

  /** A letter, a digit, an underscore or a hyphen, by its code. */
  predicate IsUnreserved(c: char) {
    var n := c as int;
    97 <= n <= 122 || 65 <= n <= 90 || 48 <= n <= 57 || n == 95 || n == 45
  }

  lemma {:induction false} PlainIsUnreserved(c: char)
    ensures Plain(c) <==> IsUnreserved(c)
  {
  }

  /** An unreserved byte stands for itself; any other is "%" and its two upper-case hexadecimal digits. */
  lemma {:induction false} ByteEncoding(c: char)
    requires c as int < 256
    ensures IsUnreserved(c) ==> EncodeByte(c) == [c]
    ensures !IsUnreserved(c) ==> EncodeByte(c) == ['%', "0123456789ABCDEF"[c as int / 16], "0123456789ABCDEF"[c as int % 16]]
  {
    PlainIsUnreserved(c);
  }

  /** A segment is its own token exactly when it is made of unreserved bytes. */
  lemma {:induction false} PlainStays(s: string)
    ensures |Token(s)| >= |s|
    ensures Token(s) == s <==> forall i :: 0 <= i < |s| ==> IsUnreserved(s[i])
  {
    if s != [] {
      PlainStays(s[1..]);
      PlainIsUnreserved(s[0]);
      assert forall i :: 0 <= i < |s[1..]| ==> s[1..][i] == s[i + 1];
      assert forall i :: 0 < i < |s| ==> s[i] == s[1..][i - 1];
      if Plain(s[0]) {
        assert Token(s)[1..] == Token(s[1..]);
      }
    }
  }

  /** Segments are encoded byte by byte. */
  lemma {:induction false} TokenAppend(s: string, t: string)
    ensures Token(s + t) == Token(s) + Token(t)
  {
    if s == [] {
      assert s + t == t;
    } else {
      assert (s + t)[1..] == s[1..] + t;
      TokenAppend(s[1..], t);
    }
  }

  /** A path's segments become the subject's tokens, in order. */
  lemma {:induction false} SubjectOfPath(segs: seq<string>)
    requires segs != [] && forall i :: 0 <= i < |segs| ==> '/' !in segs[i]
    ensures Subject("priompt://" + Join(segs, '/')) == "priompt." + Join(Tokens(segs), '.')
  {
    SplitOfJoin(segs, '/');
  }
}
