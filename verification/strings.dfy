/**
 * The handful of JavaScript string operations the core relies on:
 * `trim`, `split` on a character class, `join`, `includes`, `startsWith`,
 * ASCII `toLowerCase`, character replacement and decimal `toString`.
 */
module Strings {

  /** The characters `String.prototype.trim` removes (ECMAScript WhiteSpace and LineTerminator). */
  predicate IsSpace(c: char)
  {
    c == ' ' || c == '\t' || c == '\n' || c == '\r' || c == '\U{000B}' || c == '\U{000C}'
    || c == '\U{00A0}' || c == '\U{FEFF}' || c == '\U{1680}' || ('\U{2000}' <= c <= '\U{200A}')
    || c == '\U{2028}' || c == '\U{2029}' || c == '\U{202F}' || c == '\U{205F}' || c == '\U{3000}'
  }

  predicate AllSpace(s: string)
  {
    forall i :: 0 <= i < |s| ==> IsSpace(s[i])
  }

  /** Neither end of `s` is whitespace. */
  predicate IsTrimmed(s: string)
  {
    s == [] || (!IsSpace(s[0]) && !IsSpace(s[|s| - 1]))
  }

  /** The number of whitespace characters `s` starts with. */
  function LeadingSpaces(s: string): (n: nat)
    ensures n <= |s|
    ensures AllSpace(s[..n])
    ensures n < |s| ==> !IsSpace(s[n])
    decreases |s|
  {
    if s == [] || !IsSpace(s[0]) then 0 else 1 + LeadingSpaces(s[1..])
  }

  /** The number of whitespace characters `s` ends with. */
  function TrailingSpaces(s: string): (n: nat)
    ensures n <= |s|
    ensures AllSpace(s[|s| - n..])
    ensures n < |s| ==> !IsSpace(s[|s| - n - 1])
    decreases |s|
  {
    if s == [] || !IsSpace(s[|s| - 1]) then 0 else 1 + TrailingSpaces(s[..|s| - 1])
  }

  function TrimStart(s: string): (r: string)
    ensures r == [] || !IsSpace(r[0])
  {
    s[LeadingSpaces(s)..]
  }

  function TrimEnd(s: string): (r: string)
    ensures r == [] || !IsSpace(r[|r| - 1])
  {
    s[..|s| - TrailingSpaces(s)]
  }

  /** `s.trim()`: the longest infix of `s` whose ends are not whitespace. */
  function Trim(s: string): (r: string)
    ensures IsTrimmed(r)
    ensures |r| <= |s|
  {
    TrimEnd(TrimStart(s))
  }

  /** Trimming removes only whitespace: the result is empty exactly when `s` is all whitespace. */
  lemma TrimEmptyIff(s: string)
    ensures Trim(s) == [] <==> AllSpace(s)
  {
    if Trim(s) == [] {
      TrimEmptyAllSpace(s);
    }
    if AllSpace(s) {
      AllSpaceTrimEmpty(s);
    }
  }

  /** What trimming removes from the front and from the back is whitespace, so an empty trim means all of it was. */
  lemma TrimEmptyAllSpace(s: string)
    requires Trim(s) == []
    ensures AllSpace(s)
  {
    var n := LeadingSpaces(s);
    var t := s[n..];
    var m := TrailingSpaces(t);
    assert t[..|t| - m] == [];
    assert t[|t| - m..] == t;
    assert n == |s|;
    assert s[..n] == s;
  }

  /** A text of whitespace only is all leading whitespace, and trims to nothing. */
  lemma AllSpaceTrimEmpty(s: string)
    requires AllSpace(s)
    ensures Trim(s) == []
  {
    var n := LeadingSpaces(s);
    assert n == |s|;
    assert s[n..] == [];
  }

  /** Trimming keeps only characters of the input: a text free of some characters stays free of them. */
  lemma TrimNoneOf(s: string, seps: set<char>)
    requires NoneOf(s, seps)
    ensures NoneOf(Trim(s), seps)
  {
    var t := TrimStart(s);
    var k := |s| - |t|;
    forall i | 0 <= i < |t| ensures t[i] !in seps {
      assert t[i] == s[k + i];
    }
    var r := TrimEnd(t);
    forall i | 0 <= i < |r| ensures r[i] !in seps {
      assert r[i] == t[i];
    }
  }

  /** A string that is already trimmed is its own trim. */
  lemma TrimTrimmed(s: string)
    requires IsTrimmed(s)
    ensures Trim(s) == s
  {
  }

  /** Leading whitespace never survives a trim. */
  lemma TrimLeadingSpace(c: char, s: string)
    requires IsSpace(c)
    ensures Trim([c] + s) == Trim(s)
  {
    assert ([c] + s)[1..] == s;
  }

  /** `s.startsWith(p)`. */
  predicate StartsWith(s: string, p: string)
  {
    |p| <= |s| && s[..|p|] == p
  }

  /** `s.includes(sub)`: `sub` is a prefix of some suffix of `s`. */
  predicate Contains(s: string, sub: string)
    decreases |s|
  {
    StartsWith(s, sub) || (|s| > 0 && Contains(s[1..], sub))
  }

  /** An occurrence at position `i` is found by `Contains`. */
  lemma {:induction false} ContainsAt(s: string, sub: string, i: nat)
    requires i + |sub| <= |s| && s[i..i + |sub|] == sub
    ensures Contains(s, sub)
    decreases i
  {
    if i > 0 {
      assert s[1..][i - 1..i - 1 + |sub|] == sub;
      ContainsAt(s[1..], sub, i - 1);
    }
  }

  /** Every string contains itself, and the empty string is in every string. */
  lemma ContainsSelf(s: string)
    ensures Contains(s, s) && Contains(s, [])
  {
    assert s[..|s|] == s;
  }

  /** `s.indexOf(sub)`: the first position where `sub` occurs, or -1. */
  function IndexOf(s: string, sub: string): (r: int)
    ensures -1 <= r <= |s|
    ensures r >= 0 ==> r + |sub| <= |s| && s[r..r + |sub|] == sub
    ensures r == -1 <==> !Contains(s, sub)
    decreases |s|
  {
    if StartsWith(s, sub) then 0
    else if s == [] then -1
    else
      var k := IndexOf(s[1..], sub);
      if k < 0 then -1
      else
        assert s[k + 1..k + 1 + |sub|] == s[1..][k..k + |sub|];
        k + 1
  }

  /** Text without the first character of `sub` in front of `sub` puts its first occurrence right after that text. */
  lemma {:induction false} IndexOfAfter(a: string, sub: string, b: string)
    requires |sub| > 0 && NoneOf(a, {sub[0]})
    ensures IndexOf(a + sub + b, sub) == |a|
    decreases |a|
  {
    if a == [] {
      assert a + sub + b == sub + b;
      assert (sub + b)[..|sub|] == sub;
    } else {
      assert (a + sub + b)[1..] == a[1..] + sub + b;
      IndexOfAfter(a[1..], sub, b);
    }
  }

  /** ASCII `toLowerCase`; other letters are left alone. */
  function LowerChar(c: char): (r: char)
    ensures 'A' <= c <= 'Z' ==> 'a' <= r <= 'z'
    ensures !('A' <= c <= 'Z') ==> r == c
  {
    if 'A' <= c <= 'Z' then (c as int - 'A' as int + 'a' as int) as char else c
  }

  function Lower(s: string): (r: string)
    ensures |r| == |s|
    ensures forall i :: 0 <= i < |s| ==> r[i] == LowerChar(s[i])
  {
    seq(|s|, i requires 0 <= i < |s| => LowerChar(s[i]))
  }

  /** Lower-casing twice changes nothing more. */
  lemma LowerIdempotent(s: string)
    ensures Lower(Lower(s)) == Lower(s)
  {
  }

  /** Every character of `s` that is in `from` becomes `to`; all others stay. */
  function ReplaceChars(s: string, from: set<char>, to: char): (r: string)
    ensures |r| == |s|
    ensures forall i :: 0 <= i < |s| ==> r[i] == (if s[i] in from then to else s[i])
  {
    seq(|s|, i requires 0 <= i < |s| => if s[i] in from then to else s[i])
  }

  /** `s.replace(/c/g, rep)`: every occurrence of the character `c` becomes the text `rep`. */
  function ReplaceAll(s: string, c: char, rep: string): (r: string)
    ensures c !in rep ==> c !in r
    ensures forall ch :: ch != c && ch !in rep && ch in r ==> ch in s
    decreases |s|
  {
    if s == [] then []
    else (if s[0] == c then rep else [s[0]]) + ReplaceAll(s[1..], c, rep)
  }

  /** Replacing in a concatenation replaces in each part. */
  lemma {:induction false} ReplaceAllAppend(a: string, b: string, c: char, rep: string)
    ensures ReplaceAll(a + b, c, rep) == ReplaceAll(a, c, rep) + ReplaceAll(b, c, rep)
    decreases |a|
  {
    if a == [] {
      assert a + b == b;
    } else {
      assert (a + b)[0] == a[0];
      assert (a + b)[1..] == a[1..] + b;
      ReplaceAllAppend(a[1..], b, c, rep);
      var head := if a[0] == c then rep else [a[0]];
      assert ReplaceAll(a + b, c, rep) == head + ReplaceAll(a[1..] + b, c, rep);
      assert ReplaceAll(a, c, rep) == head + ReplaceAll(a[1..], c, rep);
    }
  }

  /** Text without the character is left as it is. */
  lemma {:induction false} ReplaceAllAbsent(s: string, c: char, rep: string)
    requires c !in s
    ensures ReplaceAll(s, c, rep) == s
    decreases |s|
  {
    if s != [] {
      ReplaceAllAbsent(s[1..], c, rep);
    }
  }

  /**
   * `s.split(/[seps]/)`: the pieces between separator characters. There is
   * always at least one piece, and the empty string splits into `[""]`.
   */
  function Split(s: string, seps: set<char>): (r: seq<string>)
    ensures |r| >= 1
    ensures forall k :: 0 <= k < |r| ==> forall j :: 0 <= j < |r[k]| ==> r[k][j] !in seps
    decreases |s|
  {
    if s == [] then [[]]
    else
      var rest := Split(s[1..], seps);
      if s[0] in seps then [[]] + rest
      else [[s[0]] + rest[0]] + rest[1..]
  }

  predicate NoneOf(s: string, seps: set<char>)
  {
    forall j :: 0 <= j < |s| ==> s[j] !in seps
  }

  lemma NoneOfAppend(a: string, b: string, seps: set<char>)
    requires NoneOf(a, seps) && NoneOf(b, seps)
    ensures NoneOf(a + b, seps)
  {
  }

  /** A string without separators splits into itself. */
  lemma {:induction false} SplitNoSep(s: string, seps: set<char>)
    requires NoneOf(s, seps)
    ensures Split(s, seps) == [s]
    decreases |s|
  {
    if s != [] {
      SplitNoSep(s[1..], seps);
      assert [s[0]] + s[1..] == s;
    }
  }

  /** A separator ends the first piece: `a + c + b` splits into `a` followed by the pieces of `b`. */
  lemma {:induction false} SplitAtSep(a: string, c: char, b: string, seps: set<char>)
    requires NoneOf(a, seps) && c in seps
    ensures Split(a + [c] + b, seps) == [a] + Split(b, seps)
    decreases |a|
  {
    if a == [] {
      assert a + [c] + b == [c] + b;
      assert ([c] + b)[1..] == b;
    } else {
      SplitAtSep(a[1..], c, b, seps);
      assert (a + [c] + b)[1..] == a[1..] + [c] + b;
      assert [a[0]] + a[1..] == a;
    }
  }

  /** A non-separator in front extends only the first piece. */
  lemma SplitCons(c: char, s: string, seps: set<char>)
    requires c !in seps
    ensures Split([c] + s, seps) == [[c] + Split(s, seps)[0]] + Split(s, seps)[1..]
  {
    assert ([c] + s)[1..] == s;
  }

  /** Splitting around a separator: the pieces of `a` followed by the pieces of `b`. */
  lemma {:induction false} SplitConcat(a: string, c: char, b: string, seps: set<char>)
    requires c in seps
    ensures Split(a + [c] + b, seps) == Split(a, seps) + Split(b, seps)
    decreases |a|
  {
    if a == [] {
      assert a + [c] + b == [c] + b;
      assert ([c] + b)[1..] == b;
    } else {
      var t := a[1..] + [c] + b;
      assert a + [c] + b == [a[0]] + t;
      assert a == [a[0]] + a[1..];
      SplitConcat(a[1..], c, b, seps);
      if a[0] in seps {
        SplitSepFront(a[0], t, seps);
        SplitSepFront(a[0], a[1..], seps);
        ConsAssoc([], Split(a[1..], seps), Split(b, seps));
      } else {
        SplitCons(a[0], t, seps);
        SplitCons(a[0], a[1..], seps);
        ConsMerge(a[0], Split(a[1..], seps), Split(b, seps));
      }
    }
  }

  /** A separator in front starts with an empty piece. */
  lemma SplitSepFront(x: char, s: string, seps: set<char>)
    requires x in seps
    ensures Split([x] + s, seps) == [[]] + Split(s, seps)
  {
    assert ([x] + s)[1..] == s;
  }

  lemma ConsAssoc<T>(x: T, f: seq<T>, g: seq<T>)
    ensures [x] + (f + g) == ([x] + f) + g
  {
  }

  /** Extending the first piece of `f + g` extends the first piece of `f`. */
  lemma ConsMerge<T>(x: T, f: seq<seq<T>>, g: seq<seq<T>>)
    requires |f| >= 1
    ensures [[x] + (f + g)[0]] + (f + g)[1..] == ([[x] + f[0]] + f[1..]) + g
  {
    assert (f + g)[0] == f[0] && (f + g)[1..] == f[1..] + g;
  }

  /** The text after the last separator: `s.split(c).pop()`. */
  function LastPiece(s: string, seps: set<char>): (r: string)
    ensures NoneOf(r, seps)
  {
    var parts := Split(s, seps);
    parts[|parts| - 1]
  }

  /** The last piece of `a + c + b` is that of `b`; a piece without separators is its own last piece. */
  lemma LastPieceAfter(a: string, c: char, b: string, seps: set<char>)
    requires c in seps
    ensures LastPiece(a + [c] + b, seps) == LastPiece(b, seps)
    ensures NoneOf(b, seps) ==> LastPiece(b, seps) == b
  {
    SplitConcat(a, c, b, seps);
    if NoneOf(b, seps) {
      SplitNoSep(b, seps);
    }
  }

  /** `parts.join(sep)`. */
  function Join(parts: seq<string>, sep: string): (r: string)
    ensures parts == [] ==> r == []
    ensures |parts| == 1 ==> r == parts[0]
    decreases |parts|
  {
    if parts == [] then []
    else if |parts| == 1 then parts[0]
    else parts[0] + sep + Join(parts[1..], sep)
  }

  /** A join of two or more parts is the first part, the separator, and the join of the rest. */
  lemma JoinCons(parts: seq<string>, sep: string)
    requires |parts| >= 2
    ensures Join(parts, sep) == parts[0] + sep + Join(parts[1..], sep)
  {
  }

  /** Joining with a separator character and splitting on it again gives back the pieces. */
  lemma {:induction false} SplitJoin(parts: seq<string>, c: char, seps: set<char>)
    requires |parts| >= 1 && c in seps
    requires forall k :: 0 <= k < |parts| ==> NoneOf(parts[k], seps)
    ensures Split(Join(parts, [c]), seps) == parts
    decreases |parts|
  {
    if |parts| == 1 {
      SplitNoSep(parts[0], seps);
    } else {
      SplitJoin(parts[1..], c, seps);
      SplitAtSep(parts[0], c, Join(parts[1..], [c]), seps);
      assert parts == [parts[0]] + parts[1..];
    }
  }

  /** Splitting and joining on one separator character gives back the text. */
  lemma {:induction false} JoinSplit(s: string, c: char)
    ensures Join(Split(s, {c}), [c]) == s
    decreases |s|
  {
    if s != [] {
      var rest := Split(s[1..], {c});
      JoinSplit(s[1..], c);
      if s[0] == c {
        assert Split(s, {c}) == [[]] + rest;
        JoinEmptyFirst(rest, [c]);
      } else {
        assert Split(s, {c}) == [[s[0]] + rest[0]] + rest[1..];
        JoinGrowFirst(s[0], rest, [c]);
      }
      assert s == [s[0]] + s[1..];
    }
  }

  /** An empty first part puts the separator in front of the join of the others. */
  lemma JoinEmptyFirst(rest: seq<string>, sep: string)
    requires |rest| >= 1
    ensures Join([[]] + rest, sep) == sep + Join(rest, sep)
  {
    var p := [[]] + rest;
    assert p[1..] == rest;
    assert p[0] + sep == sep;
  }

  /** A character put in front of the first part is put in front of the join. */
  lemma JoinGrowFirst(x: char, rest: seq<string>, sep: string)
    requires |rest| >= 1
    ensures Join([[x] + rest[0]] + rest[1..], sep) == [x] + Join(rest, sep)
  {
    var p := [[x] + rest[0]] + rest[1..];
    if |rest| > 1 {
      assert p[1..] == rest[1..];
      JoinCons(rest, sep);
      JoinCons(p, sep);
    }
  }

  /** All but the last element, and the last element, of a list with one more element in front. */
  lemma InitOfCons(parts: seq<string>, x: string, t: seq<string>)
    requires |t| >= 1 && parts == [x] + t
    ensures parts[..|parts| - 1] == [x] + t[..|t| - 1]
    ensures parts[|parts| - 1] == t[|t| - 1]
  {
  }

  /** Decimal digits of a natural number, `n.toString()`. */
  function NatToString(n: nat): (r: string)
    ensures |r| >= 1
    ensures forall i :: 0 <= i < |r| ==> '0' <= r[i] <= '9'
    ensures r[0] == '0' ==> n == 0
    decreases n
  {
    if n < 10 then [DigitChar(n)] else NatToString(n / 10) + [DigitChar(n % 10)]
  }

  function DigitChar(d: nat): (r: char)
    requires d < 10
    ensures '0' <= r <= '9' && r as int - '0' as int == d
  {
    ('0' as int + d) as char
  }

  /** Reading the digits back, the inverse of `NatToString`. */
  function DigitsValue(s: string): (r: nat)
    requires forall i :: 0 <= i < |s| ==> '0' <= s[i] <= '9'
    decreases |s|
  {
    if s == [] then 0 else DigitsValue(s[..|s| - 1]) * 10 + (s[|s| - 1] as int - '0' as int)
  }

  /** `NatToString` loses nothing: its digits read back as the number. */
  lemma {:induction false} NatToStringRoundTrip(n: nat)
    ensures DigitsValue(NatToString(n)) == n
    decreases n
  {
    if n >= 10 {
      NatToStringRoundTrip(n / 10);
      var s := NatToString(n);
      assert s[..|s| - 1] == NatToString(n / 10);
    }
  }

  /** Distinct numbers print differently. */
  lemma NatToStringInjective(m: nat, n: nat)
    requires NatToString(m) == NatToString(n)
    ensures m == n
  {
    NatToStringRoundTrip(m);
    NatToStringRoundTrip(n);
  }

  /** `String(n)` for an integer: a '-' in front of the digits of a negative number. */
  function IntToString(n: int): (r: string)
    ensures |r| >= 1
    ensures n >= 0 ==> r == NatToString(n)
    ensures n < 0 ==> r[0] == '-' && r[1..] == NatToString(-n)
  {
    if n >= 0 then NatToString(n) else "-" + NatToString(-n)
  }

  /** Distinct integers print differently. */
  lemma IntToStringInjective(m: int, n: int)
    requires IntToString(m) == IntToString(n)
    ensures m == n
  {
    if m >= 0 && n >= 0 {
      NatToStringInjective(m, n);
    } else if m < 0 && n < 0 {
      NatToStringInjective(-m, -n);
    }
  }
}
