/**
 * The JavaScript string operations the recipient editor and the token-metadata
 * cleaner rely on: `split` on one character, `trim`, and `split` on the regular
 * expression `/[\s,]+/` (maximal runs of whitespace and commas).
 */
module Text {

  /**
   * JavaScript's WhiteSpace and LineTerminator code points: what `trim` removes
   * and `\s` matches. Tab to carriage return, space, no-break space, ogham space
   * mark, the en quad to hair space block, line and paragraph separators, narrow
   * no-break space, medium mathematical space, ideographic space and the byte
   * order mark.
   */
  predicate IsWhite(c: char) {
    || '\t' <= c <= '\r'
    || c == ' '
    || c == '\U{00A0}'
    || c == '\U{1680}'
    || '\U{2000}' <= c <= '\U{200A}'
    || c == '\U{2028}'
    || c == '\U{2029}'
    || c == '\U{202F}'
    || c == '\U{205F}'
    || c == '\U{3000}'
    || c == '\U{FEFF}'
  }

  /** A character of the class `[\s,]`. */
  predicate IsSeparator(c: char) {
    IsWhite(c) || c == ','
  }

  predicate NoSeparator(s: string) {
    forall i :: 0 <= i < |s| ==> !IsSeparator(s[i])
  }

  /** No leading and no trailing whitespace. */
  predicate IsTrimmed(s: string) {
    s == [] || (!IsWhite(s[0]) && !IsWhite(s[|s| - 1]))
  }

  /**
   * `s.length`: JavaScript counts UTF-16 code units, so a character outside the
   * Basic Multilingual Plane (above U+FFFF) counts twice.
   */
  function Utf16Length(s: string): (n: nat)
    ensures |s| <= n <= 2 * |s|
  {
    if s == [] then 0 else Utf16Length(s[..|s| - 1]) + (if s[|s| - 1] as int > 0xFFFF then 2 else 1)
  }

  /** On text in the Basic Multilingual Plane, such as base58, the JavaScript length is the character count. */
  lemma {:induction false} Utf16LengthBmp(s: string)
    requires forall i :: 0 <= i < |s| ==> s[i] as int <= 0xFFFF
    ensures Utf16Length(s) == |s|
  {
    if s != [] {
      Utf16LengthBmp(s[..|s| - 1]);
    }
  }

  /** Outside the Basic Multilingual Plane every character counts twice. */
  lemma {:induction false} Utf16LengthAstral(s: string)
    requires forall i :: 0 <= i < |s| ==> s[i] as int > 0xFFFF
    ensures Utf16Length(s) == 2 * |s|
  {
    if s != [] {
      Utf16LengthAstral(s[..|s| - 1]);
    }
  }

  /** Number of occurrences of `d` in `s`. */
  function Count(s: string, d: char): nat {
    if s == [] then 0 else (if s[0] == d then 1 else 0) + Count(s[1..], d)
  }

  /** `s.split(d)` for a one-character separator `d`. */
  function Split(s: string, d: char): (parts: seq<string>)
    ensures |parts| >= 1
  {
    if s == [] then [[]]
    else
      var rest := Split(s[1..], d);
      if s[0] == d then [[]] + rest
      else [[s[0]] + rest[0]] + rest[1..]
  }

  /** No piece holds the separator, and the first piece is the prefix of `s` up to its first separator. */
  lemma {:induction false} SplitFields(s: string, d: char)
    ensures var parts := Split(s, d);
      && (forall i :: 0 <= i < |parts| ==> d !in parts[i])
      && |parts[0]| <= |s| && parts[0] == s[..|parts[0]|]
      && (|parts[0]| < |s| ==> s[|parts[0]|] == d)
  {
    if s != [] {
      SplitFields(s[1..], d);
    }
  }

  /** `parts.join(d)`. */
  function Join(parts: seq<string>, d: char): string
    requires |parts| >= 1
  {
    if |parts| == 1 then parts[0] else parts[0] + [d] + Join(parts[1..], d)
  }

  /** Gluing a character onto the first piece glues it onto the joined string. */
  lemma {:induction false} JoinPrepend(parts: seq<string>, c: char, d: char)
    requires |parts| >= 1
    ensures Join([[c] + parts[0]] + parts[1..], d) == [c] + Join(parts, d)
  {
    var p := [[c] + parts[0]] + parts[1..];
    if |parts| > 1 {
      assert p[1..] == parts[1..];
      assert Join(p, d) == p[0] + [d] + Join(parts[1..], d);
    }
  }

  /** Joining the pieces of a split with the same separator gives back the string. */
  lemma {:induction false} JoinSplit(s: string, d: char)
    ensures Join(Split(s, d), d) == s
  {
    if s != [] {
      var rest := Split(s[1..], d);
      JoinSplit(s[1..], d);
      assert s == [s[0]] + s[1..];
      if s[0] == d {
        assert Split(s, d) == [[]] + rest;
        assert ([[]] + rest)[1..] == rest;
        assert Join([[]] + rest, d) == [d] + Join(rest, d);
      } else {
        assert Split(s, d) == [[s[0]] + rest[0]] + rest[1..];
        JoinPrepend(rest, s[0], d);
      }
    }
  }

  /** A split yields one piece more than there are separators. */
  lemma {:induction false} SplitCount(s: string, d: char)
    ensures |Split(s, d)| == Count(s, d) + 1
  {
    if s != [] {
      SplitCount(s[1..], d);
    }
  }

  /** A string without the separator splits into itself alone. */
  lemma {:induction false} SplitWithout(s: string, d: char)
    requires d !in s
    ensures Split(s, d) == [s]
  {
    if s != [] {
      assert d !in s[1..];
      SplitWithout(s[1..], d);
      assert [s[0]] + s[1..] == s;
    }
  }

  predicate AllWhite(s: string) {
    forall i :: 0 <= i < |s| ==> IsWhite(s[i])
  }

  /** `s.trim()`: whitespace is removed at either end until none is left there. */
  function Trim(s: string): (r: string)
    ensures IsTrimmed(r) && |r| <= |s|
    ensures IsTrimmed(s) ==> r == s
    decreases |s|
  {
    if s != [] && IsWhite(s[0]) then Trim(s[1..])
    else if s != [] && IsWhite(s[|s| - 1]) then Trim(s[..|s| - 1])
    else s
  }

  lemma {:induction false} AllWhiteAppend(a: string, b: string)
    requires AllWhite(a) && AllWhite(b)
    ensures AllWhite(a + b)
  {
    forall i | 0 <= i < |a + b| ensures IsWhite((a + b)[i]) {
      if i >= |a| {
        assert (a + b)[i] == b[i - |a|];
      }
    }
  }

  /** `r` sits at position `k` of `s`, with only whitespace around it. */
  predicate WhiteAround(s: string, r: string, k: nat) {
    k + |r| <= |s| && r == s[k..k + |r|] && AllWhite(s[..k]) && AllWhite(s[k + |r|..])
  }

  lemma {:induction false} WhiteAroundFront(s: string, r: string, k: nat)
    requires s != [] && IsWhite(s[0]) && WhiteAround(s[1..], r, k)
    ensures WhiteAround(s, r, k + 1)
  {
    var t := s[1..];
    assert s[k + 1..k + 1 + |r|] == t[k..k + |r|];
    assert s[k + 1 + |r|..] == t[k + |r|..];
    assert s[1..k + 1] == t[..k];
    assert s[..k + 1] == s[..1] + s[1..k + 1];
    assert s[..1] == [s[0]];
    AllWhiteAppend([s[0]], t[..k]);
  }

  lemma {:induction false} WhiteAroundBack(s: string, r: string, k: nat)
    requires s != [] && IsWhite(s[|s| - 1]) && WhiteAround(s[..|s| - 1], r, k)
    ensures WhiteAround(s, r, k)
  {
    var t := s[..|s| - 1];
    assert s[k..k + |r|] == t[k..k + |r|];
    assert s[..k] == t[..k];
    assert s[k + |r|..] == t[k + |r|..] + [s[|s| - 1]];
    AllWhiteAppend(t[k + |r|..], [s[|s| - 1]]);
  }

  /** What trimming removes is whitespace, from the two ends only. */
  lemma {:induction false} TrimIsInfix(s: string)
    ensures exists k: nat :: WhiteAround(s, Trim(s), k)
    decreases |s|
  {
    var r := Trim(s);
    if s != [] && IsWhite(s[0]) {
      TrimIsInfix(s[1..]);
      var k: nat :| WhiteAround(s[1..], r, k);
      WhiteAroundFront(s, r, k);
    } else if s != [] && IsWhite(s[|s| - 1]) {
      TrimIsInfix(s[..|s| - 1]);
      var k: nat :| WhiteAround(s[..|s| - 1], r, k);
      WhiteAroundBack(s, r, k);
    } else {
      assert s[0..0 + |r|] == s;
      assert WhiteAround(s, r, 0);
    }
  }

  /** Trimming adds no character. */
  lemma {:induction false} TrimKeepsOut(s: string, c: char)
    requires c !in s
    ensures c !in Trim(s)
    decreases |s|
  {
    if s != [] && IsWhite(s[0]) {
      assert c !in s[1..];
      TrimKeepsOut(s[1..], c);
    } else if s != [] && IsWhite(s[|s| - 1]) {
      assert c !in s[..|s| - 1];
      TrimKeepsOut(s[..|s| - 1], c);
    }
  }

  /** Length of the run of separators at the front of `s`. */
  function SeparatorRun(s: string): (n: nat)
    ensures n <= |s|
    ensures forall i :: 0 <= i < n ==> IsSeparator(s[i])
    ensures n < |s| ==> !IsSeparator(s[n])
  {
    if s != [] && IsSeparator(s[0]) then 1 + SeparatorRun(s[1..]) else 0
  }

  /**
   * `s.split(/[\s,]+/)`: the fields between maximal runs of separators; a run
   * at either end gives an empty field there, and `""` gives `[""]`.
   */
  function SplitRuns(s: string): (fields: seq<string>)
    ensures |fields| >= 1
    decreases |s|
  {
    if s == [] then [[]]
    else if IsSeparator(s[0]) then [[]] + SplitRuns(s[SeparatorRun(s)..])
    else
      var rest := SplitRuns(s[1..]);
      [[s[0]] + rest[0]] + rest[1..]
  }

  /**
   * No field holds a separator, and the first field is the longest
   * separator-free prefix of `s`.
   */
  lemma {:induction false} SplitRunsFields(s: string)
    ensures var fields := SplitRuns(s);
      && (forall i :: 0 <= i < |fields| ==> NoSeparator(fields[i]))
      && |fields[0]| <= |s| && fields[0] == s[..|fields[0]|]
      && (|fields[0]| < |s| ==> IsSeparator(s[|fields[0]|]))
    decreases |s|
  {
    if s != [] && IsSeparator(s[0]) {
      SplitRunsFields(s[SeparatorRun(s)..]);
    } else if s != [] {
      var rest := SplitRuns(s[1..]);
      SplitRunsFields(s[1..]);
      var f := [s[0]] + rest[0];
      assert s[..|f|] == [s[0]] + s[1..][..|rest[0]|];
      assert |f| < |s| ==> s[|f|] == s[1..][|rest[0]|];
      assert forall i :: 1 <= i < |f| ==> f[i] == rest[0][i - 1];
    }
  }

  /**
   * There is a second field exactly when the first one stops short of the end
   * of `s`, and the fields after the first are those of what follows the
   * separator run that ends it.
   */
  lemma {:induction false} SplitRunsTail(s: string)
    ensures var fields := SplitRuns(s); |fields| > 1 <==> |fields[0]| < |s|
    ensures var fields := SplitRuns(s);
      |fields[0]| < |s| ==> var u := s[|fields[0]|..]; fields[1..] == SplitRuns(u[SeparatorRun(u)..])
    decreases |s|
  {
    if s != [] && IsSeparator(s[0]) {
      assert s[0..] == s;
    } else if s != [] {
      var rest := SplitRuns(s[1..]);
      SplitRunsTail(s[1..]);
      SplitRunsFields(s[1..]);
      assert s[1..][|rest[0]|..] == s[|rest[0]| + 1..];
    }
  }

  /** The piece of `s` before its first NUL character: `s.split('\u0000')[0]`. */
  function CutAtNul(s: string): (r: string)
    ensures '\0' !in r
    ensures r <= s
    ensures |r| < |s| ==> s[|r|] == '\0'
  {
    SplitFields(s, '\0');
    Split(s, '\0')[0]
  }

  /** `s.split('\u0000')[0].trim()`, the sanitisation applied to token metadata. */
  function Clean(s: string): (r: string)
    ensures '\0' !in r
    ensures IsTrimmed(r)
  {
    TrimKeepsOut(CutAtNul(s), '\0');
    Trim(CutAtNul(s))
  }

  /** Cleaning is idempotent. */
  lemma {:induction false} CleanIdempotent(s: string)
    ensures Clean(Clean(s)) == Clean(s)
  {
    var c := Clean(s);
    SplitWithout(c, '\0');
  }
}
