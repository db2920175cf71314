/** The Python string built-ins the helpers rely on: `str.isspace`, `str.strip`,
    `str.lower`, `str.split(sep)`, `sep.join(...)`, substring `in` and `str(int)`. */
module PyStr {

  // ---------------------------------------------------------------------------
  // Whitespace and strip
  // ---------------------------------------------------------------------------

  /** `c.isspace()`: the Unicode characters Python treats as whitespace. */
  predicate IsSpace(c: char) {
    ('\t' <= c <= '\r') || ('\U{1C}' <= c <= ' ') || c == '\U{85}' || c == '\U{A0}'
    || c == '\U{1680}' || ('\U{2000}' <= c <= '\U{200A}') || c == '\U{2028}' || c == '\U{2029}'
    || c == '\U{202F}' || c == '\U{205F}' || c == '\U{3000}'
  }

  predicate AllSpace(s: string) {
    forall i :: 0 <= i < |s| ==> IsSpace(s[i])
  }

  /** `s.lstrip()`. */
  function TrimStart(s: string): string {
    if s != [] && IsSpace(s[0]) then TrimStart(s[1..]) else s
  }

  /** `s.rstrip()`. */
  function TrimEnd(s: string): string {
    if s != [] && IsSpace(s[|s| - 1]) then TrimEnd(s[..|s| - 1]) else s
  }

  /** `s.strip()`. */
  function Strip(s: string): string {
    TrimEnd(TrimStart(s))
  }

  lemma AllSpaceConcat(a: string, b: string)
    ensures AllSpace(a + b) <==> AllSpace(a) && AllSpace(b)
  {
    if AllSpace(a) && AllSpace(b) {
      forall i | 0 <= i < |a + b| ensures IsSpace((a + b)[i]) {
        if i < |a| { assert (a + b)[i] == a[i]; } else { assert (a + b)[i] == b[i - |a|]; }
      }
    }
    if AllSpace(a + b) {
      forall i | 0 <= i < |a| ensures IsSpace(a[i]) { assert (a + b)[i] == a[i]; }
      forall i | 0 <= i < |b| ensures IsSpace(b[i]) { assert (a + b)[|a| + i] == b[i]; }
    }
  }

  /** `TrimStart` drops exactly the longest whitespace prefix. */
  lemma {:induction false} TrimStartCut(s: string) returns (lo: nat)
    ensures lo <= |s| && TrimStart(s) == s[lo..]
    ensures AllSpace(s[..lo])
    ensures lo < |s| ==> !IsSpace(s[lo])
  {
    if s != [] && IsSpace(s[0]) {
      var k := TrimStartCut(s[1..]);
      lo := k + 1;
      assert s[1..][k..] == s[lo..];
      assert s[..lo] == [s[0]] + s[1..][..k];
      AllSpaceConcat([s[0]], s[1..][..k]);
    } else {
      lo := 0;
    }
  }

  /** `TrimEnd` drops exactly the longest whitespace suffix. */
  lemma {:induction false} TrimEndCut(s: string) returns (hi: nat)
    ensures hi <= |s| && TrimEnd(s) == s[..hi]
    ensures AllSpace(s[hi..])
    ensures hi > 0 ==> !IsSpace(s[hi - 1])
  {
    if s != [] && IsSpace(s[|s| - 1]) {
      var s' := s[..|s| - 1];
      hi := TrimEndCut(s');
      assert s'[..hi] == s[..hi];
      assert s[hi..] == s'[hi..] + [s[|s| - 1]];
      AllSpaceConcat(s'[hi..], [s[|s| - 1]]);
    } else {
      hi := |s|;
    }
  }

  /** Where `Strip` cuts: a whitespace prefix `s[..lo]`, a middle with non-blank ends and
      a whitespace suffix `s[hi..]`. */
  lemma StripBounds(s: string) returns (lo: nat, hi: nat)
    ensures lo <= hi <= |s|
    ensures Strip(s) == s[lo..hi]
    ensures AllSpace(s[..lo]) && AllSpace(s[hi..])
    ensures lo < hi ==> !IsSpace(s[lo]) && !IsSpace(s[hi - 1])
  {
    lo := TrimStartCut(s);
    var t := s[lo..];
    var k := TrimEndCut(t);
    hi := lo + k;
    assert t[..k] == s[lo..hi];
    assert t[k..] == s[hi..];
    if lo < hi {
      assert t[k - 1] == s[hi - 1];
    }
  }

  /** The strip of a string is empty exactly when the string is blank, and otherwise
      begins and ends with a non-blank character. */
  lemma StripShape(s: string)
    ensures |Strip(s)| <= |s|
    ensures Strip(s) == [] <==> AllSpace(s)
    ensures Strip(s) != [] ==> !IsSpace(Strip(s)[0]) && !IsSpace(Strip(s)[|Strip(s)| - 1])
  {
    var lo, hi := StripBounds(s);
    if lo == hi {
      assert s == s[..lo] + s[hi..];
      AllSpaceConcat(s[..lo], s[hi..]);
    } else {
      assert Strip(s)[0] == s[lo] && Strip(s)[hi - lo - 1] == s[hi - 1];
    }
  }

  /** `TrimStart` stops at the first non-blank character, wherever that is. */
  lemma {:induction false} TrimStartAt(s: string, lo: nat)
    requires lo <= |s| && AllSpace(s[..lo])
    requires lo < |s| ==> !IsSpace(s[lo])
    ensures TrimStart(s) == s[lo..]
  {
    if lo > 0 {
      assert s[..lo][0] == s[0];
      assert s[1..][..lo - 1] == s[1..lo];
      assert forall i :: 0 <= i < lo - 1 ==> s[1..lo][i] == s[..lo][i + 1];
      TrimStartAt(s[1..], lo - 1);
    }
  }

  /** `TrimEnd` stops at the last non-blank character, wherever that is. */
  lemma {:induction false} TrimEndAt(s: string, hi: nat)
    requires hi <= |s| && AllSpace(s[hi..])
    requires hi > 0 ==> !IsSpace(s[hi - 1])
    ensures TrimEnd(s) == s[..hi]
    decreases |s| - hi
  {
    if hi < |s| {
      assert s[hi..][|s| - 1 - hi] == s[|s| - 1];
      var s' := s[..|s| - 1];
      assert s[hi..] == s'[hi..] + [s[|s| - 1]];
      AllSpaceConcat(s'[hi..], [s[|s| - 1]]);
      TrimEndAt(s', hi);
      assert s'[..hi] == s[..hi];
    }
  }

  /** Any cut into a whitespace prefix, a middle with non-blank ends and a whitespace
      suffix is the one `Strip` makes: `Strip` is determined by these three facts. */
  lemma StripUnique(s: string, lo: nat, hi: nat)
    requires lo <= hi <= |s|
    requires AllSpace(s[..lo]) && AllSpace(s[hi..])
    requires lo < hi ==> !IsSpace(s[lo]) && !IsSpace(s[hi - 1])
    ensures Strip(s) == s[lo..hi]
  {
    if lo == hi {
      assert s == s[..lo] + s[hi..];
      AllSpaceConcat(s[..lo], s[hi..]);
      StripShape(s);
    } else {
      TrimStartAt(s, lo);
      var t := s[lo..];
      assert t[hi - lo..] == s[hi..];
      assert t[hi - lo - 1] == s[hi - 1];
      TrimEndAt(t, hi - lo);
      assert t[..hi - lo] == s[lo..hi];
    }
  }

  /** A string with non-blank ends (or the empty string) is its own strip. */
  lemma StripFixed(t: string)
    requires t != [] ==> !IsSpace(t[0]) && !IsSpace(t[|t| - 1])
    ensures Strip(t) == t
  {
    assert t[..0] == [] && t[|t|..] == [];
    StripUnique(t, 0, |t|);
    assert t[0..|t|] == t;
  }

  lemma StripIdempotent(s: string)
    ensures Strip(Strip(s)) == Strip(s)
  {
    StripShape(s);
    StripFixed(Strip(s));
  }

  /** Whitespace in front of a string never survives `Strip`. */
  lemma StripLeadingSpace(c: char, s: string)
    requires IsSpace(c)
    ensures Strip([c] + s) == Strip(s)
  {
    assert ([c] + s)[1..] == s;
  }

  // ---------------------------------------------------------------------------
  // lower
  // ---------------------------------------------------------------------------

  predicate IsUpper(c: char) {
    'A' <= c <= 'Z'
  }

  function LowerChar(c: char): (d: char)
    ensures !IsUpper(d)
    ensures IsSpace(d) <==> IsSpace(c)
  {
    if IsUpper(c) then (c as int + 32) as char else c
  }

  /** `s.lower()` restricted to the ASCII letters. */
  function Lower(s: string): (r: string)
    ensures |r| == |s|
    ensures forall i :: 0 <= i < |r| ==> r[i] == LowerChar(s[i])
  {
    if s == [] then [] else [LowerChar(s[0])] + Lower(s[1..])
  }

  /** A lower-cased string holds no upper-case letter, so lowering again changes nothing. */
  lemma LowerIdempotent(s: string)
    ensures forall i :: 0 <= i < |s| ==> !IsUpper(Lower(s)[i])
    ensures Lower(Lower(s)) == Lower(s)
  {
  }

  /** Lower-casing and stripping commute, so `s.strip().lower()` is stripped. */
  lemma {:induction false} StripLowerCommute(s: string)
    ensures Strip(Lower(s)) == Lower(Strip(s))
  {
    var lo, hi := StripBounds(s);
    LowerCut(s, lo, hi);
    StripUnique(Lower(s), lo, hi);
    LowerSlice(s, lo, hi);
  }

  /** Lower-casing keeps the cut `Strip` makes. */
  lemma LowerCut(s: string, lo: nat, hi: nat)
    requires lo <= hi <= |s|
    requires AllSpace(s[..lo]) && AllSpace(s[hi..])
    requires lo < hi ==> !IsSpace(s[lo]) && !IsSpace(s[hi - 1])
    ensures AllSpace(Lower(s)[..lo]) && AllSpace(Lower(s)[hi..])
    ensures lo < hi ==> !IsSpace(Lower(s)[lo]) && !IsSpace(Lower(s)[hi - 1])
  {
    var t := Lower(s);
    forall i | 0 <= i < lo ensures IsSpace(t[..lo][i]) {
      assert s[..lo][i] == s[i];
    }
    forall j | 0 <= j < |s| - hi ensures IsSpace(t[hi..][j]) {
      assert s[hi..][j] == s[hi + j];
    }
  }

  lemma LowerSlice(s: string, i: nat, j: nat)
    requires i <= j <= |s|
    ensures Lower(s)[i..j] == Lower(s[i..j])
  {
    var a, b := Lower(s)[i..j], Lower(s[i..j]);
    forall k | 0 <= k < j - i ensures a[k] == b[k] {
      assert s[i..j][k] == s[i + k];
    }
  }

  // ---------------------------------------------------------------------------
  // split and join
  // ---------------------------------------------------------------------------

  /** `glue.join(parts)`. */
  function Join(parts: seq<string>, glue: string): string {
    if |parts| == 0 then ""
    else if |parts| == 1 then parts[0]
    else parts[0] + glue + Join(parts[1..], glue)
  }

  /** `s.split(sep)` for a one-character separator; there is always at least one part. */
  function Split(s: string, sep: char): (parts: seq<string>)
    ensures |parts| >= 1
  {
    if s == [] then [""]
    else
      var rest := Split(s[1..], sep);
      if s[0] == sep then [""] + rest
      else [[s[0]] + rest[0]] + rest[1..]
  }

  /** No part of a split holds the separator, and there is one more part than there
      are separators. */
  lemma {:induction false} SplitParts(s: string, sep: char)
    ensures |Split(s, sep)| == multiset(s)[sep] + 1
    ensures forall p | p in Split(s, sep) :: sep !in p
  {
    if s != [] {
      SplitParts(s[1..], sep);
      assert s == [s[0]] + s[1..];
      var rest := Split(s[1..], sep);
      if s[0] != sep {
        assert forall p | p in rest[1..] :: p in rest;
        assert sep !in rest[0];
      }
    }
  }

  /** Joining the parts of a split with the separator gives back the string. */
  lemma {:induction false} JoinSplit(s: string, sep: char)
    ensures Join(Split(s, sep), [sep]) == s
  {
    if s != [] {
      var rest := Split(s[1..], sep);
      JoinSplit(s[1..], sep);
      if s[0] != sep {
        assert Split(s, sep)[1..] == rest[1..];
        if |rest| > 1 {
          assert rest == [rest[0]] + rest[1..];
        }
      }
    }
  }

  /** A string without the separator splits into itself alone. */
  lemma {:induction false} SplitNoSeparator(s: string, sep: char)
    requires sep !in s
    ensures Split(s, sep) == [s]
  {
    if s != [] {
      SplitNoSeparator(s[1..], sep);
      assert [s[0]] + s[1..] == s;
    }
  }

  /** A separator between `a` and `b` is a cut between their parts: the parts keep order. */
  lemma {:induction false} SplitConcat(a: string, sep: char, b: string)
    ensures Split(a + [sep] + b, sep) == Split(a, sep) + Split(b, sep)
  {
    var x := a + [sep] + b;
    if a == [] {
      assert x[0] == sep && x[1..] == b;
    } else {
      var t := a[1..] + [sep] + b;
      assert x[0] == a[0] && x[1..] == t;
      SplitConcat(a[1..], sep, b);
      if a[0] != sep {
        FirstPartGrows([a[0]], Split(a[1..], sep), Split(b, sep));
      }
    }
  }

  /** Growing the first part of a list of parts commutes with appending more parts. It is a
      separate lemma so that the proof of `SplitConcat` gets this one regrouping instead of
      searching for it, which keeps that proof cheap. */
  lemma FirstPartGrows(h: string, ra: seq<string>, rb: seq<string>)
    requires |ra| >= 1
    ensures [h + (ra + rb)[0]] + (ra + rb)[1..] == ([h + ra[0]] + ra[1..]) + rb
  {
    assert (ra + rb)[0] == ra[0];
    assert (ra + rb)[1..] == ra[1..] + rb;
  }

  /** Splitting a join of separator-free parts gives back the parts. */
  lemma {:induction false} SplitJoin(parts: seq<string>, sep: char)
    requires |parts| >= 1
    requires forall p | p in parts :: sep !in p
    ensures Split(Join(parts, [sep]), sep) == parts
  {
    SplitNoSeparator(parts[0], sep);
    if |parts| > 1 {
      assert forall p | p in parts[1..] :: p in parts;
      SplitJoin(parts[1..], sep);
      SplitConcat(parts[0], sep, Join(parts[1..], [sep]));
      assert parts == [parts[0]] + parts[1..];
    }
  }

  // ---------------------------------------------------------------------------
  // substring containment
  // ---------------------------------------------------------------------------

  /** `a in b` for strings. */
  ghost predicate IsInfix(a: string, b: string) {
    exists i :: InfixAt(a, b, i)
  }

  predicate InfixAt(a: string, b: string, i: int) {
    0 <= i && i + |a| <= |b| && b[i..i + |a|] == a
  }

  /** A string placed between two others occurs right after the first. */
  lemma InfixMiddle(pre: string, a: string, post: string)
    ensures InfixAt(a, pre + a + post, |pre|)
  {
    assert (pre + a + post)[|pre|..|pre| + |a|] == a;
  }

  /** Both halves of a concatenation occur in it. */
  lemma InfixConcat(a: string, b: string)
    ensures InfixAt(a, a + b, 0) && InfixAt(b, a + b, |a|)
  {
    assert (a + b)[..|a|] == a;
    assert (a + b)[|a|..] == b;
  }

  /** An occurrence inside an occurrence is an occurrence. */
  lemma InfixTrans(a: string, b: string, c: string, i: int, j: int)
    requires InfixAt(a, b, i) && InfixAt(b, c, j)
    ensures InfixAt(a, c, j + i)
  {
    forall k | 0 <= k < |a| ensures c[j + i + k] == a[k] {
      assert a[k] == b[i + k];
      assert b[i + k] == c[j + (i + k)];
    }
  }

  /** Every part of a join occurs in the joined string. */
  lemma {:induction false} JoinContains(parts: seq<string>, glue: string, k: nat)
    requires k < |parts|
    ensures IsInfix(parts[k], Join(parts, glue))
  {
    var j := Join(parts, glue);
    if |parts| == 1 {
      assert InfixAt(parts[k], j, 0);
    } else if k == 0 {
      assert j == parts[0] + (glue + Join(parts[1..], glue));
      assert InfixAt(parts[k], j, 0);
    } else {
      JoinContains(parts[1..], glue, k - 1);
      var rest := Join(parts[1..], glue);
      assert parts[1..][k - 1] == parts[k];
      var i :| InfixAt(parts[k], rest, i);
      var off := |parts[0] + glue|;
      assert j == (parts[0] + glue) + rest;
      assert j[off + i..off + i + |parts[k]|] == rest[i..i + |parts[k]|];
      assert InfixAt(parts[k], j, off + i);
    }
  }

  // ---------------------------------------------------------------------------
  // str(int)
  // ---------------------------------------------------------------------------

  predicate IsDigit(c: char) {
    '0' <= c <= '9'
  }

  function DigitChar(d: nat): (c: char)
    requires d < 10
    ensures IsDigit(c)
  {
    ('0' as int + d) as char
  }

  function NatDigits(n: nat): (s: string)
    ensures |s| >= 1
    ensures forall i :: 0 <= i < |s| ==> IsDigit(s[i])
  {
    if n < 10 then [DigitChar(n)] else NatDigits(n / 10) + [DigitChar(n % 10)]
  }

  /** `str(n)` for an integer: decimal digits, with a leading minus when negative. */
  function Decimal(n: int): (s: string)
    ensures |s| >= 1
    ensures n >= 0 ==> forall i :: 0 <= i < |s| ==> IsDigit(s[i])
    ensures n < 0 ==> s[0] == '-' && forall i :: 1 <= i < |s| ==> IsDigit(s[i])
  {
    if n < 0 then "-" + NatDigits(-n) else NatDigits(n)
  }

  // ---------------------------------------------------------------------------
  // The parser shape `[x.strip() for x in parts if x.strip()]`
  // ---------------------------------------------------------------------------

  /** The parser's contribution of one part: its strip, unless that is empty. */
  function Kept(p: string): seq<string> {
    var t := Strip(p);
    if t != [] then [t] else []
  }

  /** The stripped parts that are not blank, in their original order. */
  function StrippedNonBlank(parts: seq<string>): (r: seq<string>)
    ensures |r| <= |parts|
  {
    if parts == [] then [] else Kept(parts[0]) + StrippedNonBlank(parts[1..])
  }

  /** Every item the parser keeps is non-empty and equal to its own strip. */
  lemma {:induction false} StrippedNonBlankItems(parts: seq<string>)
    ensures forall t | t in StrippedNonBlank(parts) :: t != [] && Strip(t) == t
  {
    if parts != [] {
      StrippedNonBlankItems(parts[1..]);
      StripIdempotent(parts[0]);
    }
  }

  /** The parser works part by part: order is kept across a concatenation. */
  lemma {:induction false} StrippedNonBlankConcat(a: seq<string>, b: seq<string>)
    ensures StrippedNonBlank(a + b) == StrippedNonBlank(a) + StrippedNonBlank(b)
  {
    if a == [] {
      assert a + b == b;
    } else {
      var ab := a + b;
      assert ab[0] == a[0];
      assert ab[1..] == a[1..] + b;
      StrippedNonBlankConcat(a[1..], b);
    }
  }

  /** A string is kept exactly when it is the non-blank strip of some part. */
  lemma {:induction false} StrippedNonBlankMembers(parts: seq<string>, x: string)
    ensures x in StrippedNonBlank(parts) <==> x != [] && exists p :: p in parts && Strip(p) == x
  {
    if parts != [] {
      StrippedNonBlankMembers(parts[1..], x);
      assert forall p :: p in parts <==> p == parts[0] || p in parts[1..];
    }
  }

  /** Nothing is kept exactly when every part is blank. */
  lemma {:induction false} StrippedNonBlankEmpty(parts: seq<string>)
    ensures StrippedNonBlank(parts) == [] <==> forall p | p in parts :: AllSpace(p)
  {
    if parts != [] {
      StrippedNonBlankEmpty(parts[1..]);
      StripShape(parts[0]);
      assert forall p :: p in parts <==> p == parts[0] || p in parts[1..];
    }
  }

  /** A join of blank parts with a blank glue is blank, and conversely. */
  lemma {:induction false} AllSpaceJoin(parts: seq<string>, glue: string)
    requires |parts| >= 1 && AllSpace(glue)
    ensures AllSpace(Join(parts, glue)) <==> forall p | p in parts :: AllSpace(p)
  {
    if |parts| > 1 {
      AllSpaceJoin(parts[1..], glue);
      var rest := Join(parts[1..], glue);
      AllSpaceConcat(parts[0], glue + rest);
      AllSpaceConcat(glue, rest);
      assert Join(parts, glue) == parts[0] + (glue + rest);
      assert forall p :: p in parts <==> p == parts[0] || p in parts[1..];
    }
  }
}
