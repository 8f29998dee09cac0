/** Line endings: how templates are normalised on input and split for the semantic diff. */
module Lines {
  import opened Basics
  import opened Text

  const BOM := ['\U{EF}', '\U{BB}', '\U{BF}']

  /** strings.ReplaceAll(s, "\r\n", "\n"). */
  function ReplaceCrlf(s: string): string {
    if |s| >= 2 && s[0] == '\r' && s[1] == '\n' then ['\n'] + ReplaceCrlf(s[2..])
    else if s == [] then []
    else [s[0]] + ReplaceCrlf(s[1..])
  }

  predicate EndsIn(s: string, c: char) {
    s != [] && s[|s| - 1] == c
  }

  /** The newline-normalised text: LF endings, and exactly the terminator a file would have. */
  function Norm(s: string): string {
    var t := ReplaceCrlf(s);
    if EndsIn(t, '\n') then t else t + ['\n']
  }

  function SplitLines(s: string): seq<string> {
    Split(Norm(s), '\n')
  }

  /** Refuse UTF-16, drop a UTF-8 byte-order mark, turn CRLF into LF. */
  function NormalizeTemplate(t: string): Result<string, string> {
    if HasPrefix(t, ['\U{FF}', '\U{FE}']) || HasPrefix(t, ['\U{FE}', '\U{FF}']) || '\0' in t then
      Err("file is UTF-16; save as UTF-8")
    else
      Ok(ReplaceCrlf(TrimPrefix(t, BOM)))
  }

  /** Does p occur anywhere in s? */
  predicate Occurs(p: string, s: string) {
    exists i :: 0 <= i <= |s| && p <= s[i..]
  }

  // ---- SplitLines decides newline-normalised equality ----

  lemma {:induction false} SplitLinesIsNorm(a: string, b: string)
    ensures Join(SplitLines(a), '\n') == Norm(a)
    ensures forall line :: line in SplitLines(a) ==> '\n' !in line
    ensures SplitLines(a) == SplitLines(b) <==> Norm(a) == Norm(b)
  {
    JoinOfSplit(Norm(a), '\n');
    JoinOfSplit(Norm(b), '\n');
  }

  /** A character that does not open a CRLF is kept; a CRLF becomes one LF. */
  lemma {:induction false} ReplaceCons(c: char, t: string)
    requires !(c == '\r' && t != [] && t[0] == '\n')
    ensures ReplaceCrlf([c] + t) == [c] + ReplaceCrlf(t)
  {
    assert ([c] + t)[1..] == t;
  }

  lemma {:induction false} ReplacePair(t: string)
    ensures ReplaceCrlf(['\r', '\n'] + t) == ['\n'] + ReplaceCrlf(t)
  {
    assert (['\r', '\n'] + t)[2..] == t;
  }

  lemma {:induction false} Regroup(x: string, y: string, z: string)
    ensures x + (y + z) == (x + y) + z
  {
  }

  /** Text appended after anything but a lone CR is replaced on its own. */
  lemma {:induction false} ReplaceAppend(s: string, t: string)
    requires !(EndsIn(s, '\r') && t != [] && t[0] == '\n')
    ensures ReplaceCrlf(s + t) == ReplaceCrlf(s) + ReplaceCrlf(t)
    decreases |s|, 1
  {
    if s == [] {
      assert s + t == t;
    } else if |s| >= 2 && s[0] == '\r' && s[1] == '\n' {
      AppendAfterPair(s, t);
    } else {
      AppendAfterChar(s, t);
    }
  }

  lemma {:induction false} AppendAfterPair(s: string, t: string)
    requires !(EndsIn(s, '\r') && t != [] && t[0] == '\n')
    requires |s| >= 2 && s[0] == '\r' && s[1] == '\n'
    ensures ReplaceCrlf(s + t) == ReplaceCrlf(s) + ReplaceCrlf(t)
    decreases |s|, 0
  {
    var rest := s[2..];
    ReplaceAppend(rest, t);
    assert s == ['\r', '\n'] + rest;
    assert s + t == ['\r', '\n'] + (rest + t);
    ReplacePair(rest + t);
    ReplacePair(rest);
    Regroup(['\n'], ReplaceCrlf(rest), ReplaceCrlf(t));
  }

  lemma {:induction false} AppendAfterChar(s: string, t: string)
    requires !(EndsIn(s, '\r') && t != [] && t[0] == '\n')
    requires s != [] && !(|s| >= 2 && s[0] == '\r' && s[1] == '\n')
    ensures ReplaceCrlf(s + t) == ReplaceCrlf(s) + ReplaceCrlf(t)
    decreases |s|, 0
  {
    var c, rest := s[0], s[1..];
    ReplaceAppend(rest, t);
    assert s == [c] + rest;
    assert s + t == [c] + (rest + t);
    ReplaceCons(c, rest + t);
    ReplaceCons(c, rest);
    Regroup([c], ReplaceCrlf(rest), ReplaceCrlf(t));
  }

  /** Replacing keeps the last character unless it was half of a CRLF, and it always keeps a final LF. */
  lemma {:induction false} ReplaceEnd(s: string)
    ensures ReplaceCrlf(s) == [] <==> s == []
    ensures EndsIn(s, '\n') <==> EndsIn(ReplaceCrlf(s), '\n')
    decreases |s|
  {
    if |s| >= 2 && s[0] == '\r' && s[1] == '\n' {
      ReplaceEnd(s[2..]);
    } else if s != [] {
      ReplaceEnd(s[1..]);
    }
  }

  lemma {:induction false} NormAppendLf(s: string)
    ensures Norm(s + "\n") == if EndsIn(s, '\r') then ReplaceCrlf(s[..|s| - 1]) + "\n" else ReplaceCrlf(s) + "\n"
  {
    if EndsIn(s, '\r') {
      assert s + "\n" == s[..|s| - 1] + "\r\n";
      ReplaceAppend(s[..|s| - 1], "\r\n");
      assert "\r\n"[2..] == "";
    } else {
      ReplaceAppend(s, "\n");
      assert "\n"[1..] == "";
    }
  }

  lemma {:induction false} NormAppendCrlf(s: string)
    ensures Norm(s + "\r\n") == ReplaceCrlf(s) + "\n"
  {
    ReplaceAppend(s, "\r\n");
    assert "\r\n"[2..] == "";
  }

  /**
   * A final LF is invisible to the diff exactly when the text does not already
   * end in LF or CR; a final CRLF, exactly when it does not end in LF.
   */
  lemma {:induction false} TrailingNewline(s: string)
    ensures SplitLines(s + "\n") == SplitLines(s) <==> !EndsIn(s, '\n') && !EndsIn(s, '\r')
    ensures SplitLines(s + "\r\n") == SplitLines(s) <==> !EndsIn(s, '\n')
  {
    TrailingLf(s);
    TrailingCrlf(s);
  }

  lemma {:induction false} TrailingCrlf(s: string)
    ensures SplitLines(s + "\r\n") == SplitLines(s) <==> !EndsIn(s, '\n')
  {
    SplitLinesIsNorm(s + "\r\n", s);
    NormAppendCrlf(s);
    ReplaceEnd(s);
  }

  lemma {:induction false} TrailingLf(s: string)
    ensures SplitLines(s + "\n") == SplitLines(s) <==> !EndsIn(s, '\n') && !EndsIn(s, '\r')
  {
    SplitLinesIsNorm(s + "\n", s);
    NormAppendLf(s);
    ReplaceEnd(s);
    if EndsIn(s, '\r') {
      KeepsFinalCr(s);
    }
  }

  /** A CR at the end of the text is no CRLF. */
  lemma {:induction false} KeepsFinalCr(s: string)
    requires EndsIn(s, '\r')
    ensures ReplaceCrlf(s) == ReplaceCrlf(s[..|s| - 1]) + "\r"
  {
    var body := s[..|s| - 1];
    assert s == body + "\r";
    ReplaceAppend(body, "\r");
    assert "\r"[1..] == "";
  }

  // ---- normalising on input ----

  /** Replacing twice changes the text further exactly when some CR precedes a CRLF. */
  lemma {:induction false} ReplaceTwice(t: string)
    ensures ReplaceCrlf(ReplaceCrlf(t)) == ReplaceCrlf(t) <==> !Occurs("\r\r\n", t)
    ensures |ReplaceCrlf(ReplaceCrlf(t))| <= |ReplaceCrlf(t)|
    decreases |t|
  {
    var r := ReplaceCrlf(t);
    if t == [] {
    } else if |t| >= 2 && t[0] == '\r' && t[1] == '\n' {
      ReplaceTwice(t[2..]);
      assert r[1..] == ReplaceCrlf(t[2..]);
      OccursStep("\r\r\n", t);
      OccursStep("\r\r\n", t[1..]);
      assert t[1..][1..] == t[2..];
    } else {
      ReplaceTwice(t[1..]);
      assert r[1..] == ReplaceCrlf(t[1..]);
      OccursStep("\r\r\n", t);
      ReplaceShrinks(r);
      if t[0] == '\r' && |t| >= 3 && t[1] == '\r' && t[2] == '\n' {
        assert t[1..][2..] == t[3..];
        assert r[1] == '\n';
      } else {
        NoNewCrlf(t);
      }
    }
  }

  lemma {:induction false} ReplaceShrinks(s: string)
    ensures |ReplaceCrlf(s)| <= |s|
    decreases |s|
  {
    if |s| >= 2 && s[0] == '\r' && s[1] == '\n' {
      ReplaceShrinks(s[2..]);
    } else if s != [] {
      ReplaceShrinks(s[1..]);
    }
  }

  lemma {:induction false} NoNewCrlf(t: string)
    requires t != [] && !(|t| >= 2 && t[0] == '\r' && t[1] == '\n')
    requires !("\r\r\n" <= t)
    ensures var r := ReplaceCrlf(t); !(|r| >= 2 && r[0] == '\r' && r[1] == '\n')
  {
    if t[0] == '\r' && |t| >= 2 {
      var rest := t[1..];
      if |rest| >= 2 && rest[0] == '\r' && rest[1] == '\n' {
        assert false;
      }
    }
  }

  lemma {:induction false} OccursStep(p: string, s: string)
    requires s != [] && p != []
    ensures Occurs(p, s) <==> p <= s || Occurs(p, s[1..])
  {
    if Occurs(p, s) && !(p <= s) {
      var i :| 0 <= i <= |s| && p <= s[i..];
      assert s[i..] == s[1..][i - 1..];
    }
    if Occurs(p, s[1..]) {
      var i :| 0 <= i <= |s[1..]| && p <= s[1..][i..];
      assert s[1..][i..] == s[i + 1..];
    }
    assert s[0..] == s;
  }

  /** Text is refused exactly when it looks like UTF-16: either byte-order mark of it, or a zero byte anywhere. */
  lemma {:induction false} RefusedIsUtf16(t: string)
    ensures NormalizeTemplate(t).Err? <==>
              || (|t| >= 2 && t[0] as int == 0xFF && t[1] as int == 0xFE)
              || (|t| >= 2 && t[0] as int == 0xFE && t[1] as int == 0xFF)
              || exists i :: 0 <= i < |t| && t[i] as int == 0
  {
    if '\0' in t {
      var i :| 0 <= i < |t| && t[i] == '\0';
      assert t[i] as int == 0;
    }
    if exists i :: 0 <= i < |t| && t[i] as int == 0 {
      var i :| 0 <= i < |t| && t[i] as int == 0;
      assert t[i] == '\0' && t[i] in t;
    }
  }

  /** One leading UTF-8 byte-order mark is dropped, and CRLF becomes LF; nothing else changes. */
  lemma {:induction false} AcceptedIsUnmarked(t: string)
    requires NormalizeTemplate(t).Ok?
    ensures var marked := |t| >= 3 && t[0] as int == 0xEF && t[1] as int == 0xBB && t[2] as int == 0xBF;
            NormalizeTemplate(t).value == ReplaceCrlf(if marked then t[3..] else t)
  {
    if |t| >= 3 {
      assert t[..3] == [t[0], t[1], t[2]];
    }
  }

  /** Normalising a template on input is invisible to the diff exactly when no CR precedes a CRLF. */
  lemma {:induction false} NormalizeIsInvisible(t: string)
    requires NormalizeTemplate(t).Ok? && !HasPrefix(t, BOM)
    ensures SplitLines(NormalizeTemplate(t).value) == SplitLines(t) <==> !Occurs("\r\r\n", t)
  {
    SplitLinesIsNorm(NormalizeTemplate(t).value, t);
    ReplaceTwice(t);
    var once, twice := ReplaceCrlf(t), ReplaceCrlf(ReplaceCrlf(t));
    ReplaceEnd(once);
    assert (once + ['\n'])[..|once|] == once && (twice + ['\n'])[..|twice|] == twice;
  }
}
