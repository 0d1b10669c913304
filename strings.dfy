/** The JavaScript string operations the route and the page rely on:
    `trim`, `length` (in UTF-16 code units), `startsWith`, `indexOf`,
    `split` with a string separator, and `join`. A Dafny `char` is a Unicode
    scalar value; everything except `Utf16Length` and `Utf16` works on
    those, which is the same as working on code units because every
    separator used is a character of the Basic Multilingual Plane. */
module Strings {
  import opened Wrappers

  /** The code points `String.prototype.trim` removes: the WhiteSpace and
      LineTerminator productions of ECMAScript (tab, vertical tab, form feed,
      space, no-break space, byte order mark, the Zs category, LF, CR,
      line separator and paragraph separator). */
  predicate IsWhitespace(c: char) {
    || c == '\t' || c == '\U{B}' || c == '\U{C}' || c == ' '
    || c == '\U{A0}' || c == '\U{FEFF}' || c == '\U{1680}'
    || ('\U{2000}' <= c <= '\U{200A}')
    || c == '\U{202F}' || c == '\U{205F}' || c == '\U{3000}'
    || c == '\n' || c == '\r' || c == '\U{2028}' || c == '\U{2029}'
  }

  /** A string that `trim` turns into the empty string. */
  predicate IsBlank(s: string) {
    forall i :: 0 <= i < |s| ==> IsWhitespace(s[i])
  }

  /** The length of the run of whitespace that starts `s`. */
  function LeadingSpace(s: string): (n: nat)
    ensures n <= |s|
  {
    if s != [] && IsWhitespace(s[0]) then 1 + LeadingSpace(s[1..]) else 0
  }

  /** The length of the run of whitespace that ends `s`. */
  function TrailingSpace(s: string): (n: nat)
    ensures n <= |s|
  {
    if s != [] && IsWhitespace(s[|s| - 1]) then 1 + TrailingSpace(s[..|s| - 1]) else 0
  }

  lemma {:induction false} LeadingSpaceIsMaximal(s: string)
    ensures forall i :: 0 <= i < LeadingSpace(s) ==> IsWhitespace(s[i])
    ensures LeadingSpace(s) < |s| ==> !IsWhitespace(s[LeadingSpace(s)])
  {
    if s != [] && IsWhitespace(s[0]) {
      LeadingSpaceIsMaximal(s[1..]);
    }
  }

  lemma {:induction false} TrailingSpaceIsMaximal(s: string)
    ensures forall i :: |s| - TrailingSpace(s) <= i < |s| ==> IsWhitespace(s[i])
    ensures TrailingSpace(s) < |s| ==> !IsWhitespace(s[|s| - 1 - TrailingSpace(s)])
  {
    if s != [] && IsWhitespace(s[|s| - 1]) {
      TrailingSpaceIsMaximal(s[..|s| - 1]);
    }
  }

  /** `String.prototype.trim`: `s` without its leading and trailing
      whitespace. */
  function Trim(s: string): (r: string)
    ensures |r| <= |s|
  {
    var t := s[LeadingSpace(s)..];
    t[..|t| - TrailingSpace(t)]
  }

  /** Trimming removes a blank run from each end and nothing else. */
  lemma TrimRemovesEnds(s: string)
    ensures var a := LeadingSpace(s);
      a + |Trim(s)| <= |s| && Trim(s) == s[a..a + |Trim(s)|] &&
      IsBlank(s[..a]) && IsBlank(s[a + |Trim(s)|..])
  {
    var a := LeadingSpace(s);
    var t := s[a..];
    LeadingSpaceIsMaximal(s);
    TrailingSpaceIsMaximal(t);
    var r := Trim(s);
    assert r == s[a..a + |r|];
    var tail := s[a + |r|..];
    forall i | 0 <= i < |tail| ensures IsWhitespace(tail[i]) {
      assert tail[i] == t[|r| + i];
    }
  }

  /** Trimming removes a blank run from each end and nothing else: it gives
      the empty string exactly for blank input, and otherwise a string that
      neither starts nor ends with whitespace. */
  lemma TrimSpec(s: string)
    ensures var a := LeadingSpace(s);
      a + |Trim(s)| <= |s| && Trim(s) == s[a..a + |Trim(s)|] &&
      IsBlank(s[..a]) && IsBlank(s[a + |Trim(s)|..])
    ensures Trim(s) == [] <==> IsBlank(s)
    ensures Trim(s) != [] ==> !IsWhitespace(Trim(s)[0]) && !IsWhitespace(Trim(s)[|Trim(s)| - 1])
  {
    TrimRemovesEnds(s);
    var a := LeadingSpace(s);
    var t := s[a..];
    LeadingSpaceIsMaximal(s);
    TrailingSpaceIsMaximal(t);
    var r := Trim(s);
    if r == [] {
      assert |t| == 0;
      forall i | 0 <= i < |s| ensures IsWhitespace(s[i]) {
      }
    } else {
      assert r[0] == t[0] == s[a];
      assert r[|r| - 1] == t[|t| - 1 - TrailingSpace(t)];
    }
  }

  /** The number of UTF-16 code units that encode `s` (JavaScript's
      `length`): one per character of the Basic Multilingual Plane, two per
      character above it. */
  function Utf16Length(s: string): (n: nat)
    ensures |s| <= n <= 2 * |s|
    ensures (forall i :: 0 <= i < |s| ==> s[i] as int < 0x1_0000) ==> n == |s|
  {
    if s == [] then 0
    else (if s[0] as int < 0x1_0000 then 1 else 2) + Utf16Length(s[1..])
  }

  /** A UTF-16 code unit: an element of a JavaScript string. */
  type CodeUnit = x: int | 0 <= x < 0x1_0000

  /** The UTF-16 encoding of one character: itself in the Basic
      Multilingual Plane, a surrogate pair above it. */
  function EncodeChar(c: char): (u: seq<CodeUnit>)
    ensures |u| == if c as int < 0x1_0000 then 1 else 2
  {
    if c as int < 0x1_0000 then [c as int]
    else
      var v := c as int - 0x1_0000;
      [0xD800 + v / 0x400, 0xDC00 + v % 0x400]
  }

  /** The JavaScript string (a sequence of UTF-16 code units) holding the
      text `s`; its length is `s.length`. */
  function Utf16(s: string): (u: seq<CodeUnit>)
    ensures |u| == Utf16Length(s)
  {
    if s == [] then [] else EncodeChar(s[0]) + Utf16(s[1..])
  }

  /** Encoding distributes over concatenation, so the code units of the
      chunks received one by one are those of the whole text. */
  lemma {:induction false} Utf16Append(a: string, b: string)
    ensures Utf16(a + b) == Utf16(a) + Utf16(b)
  {
    if a == [] {
      assert a + b == b;
    } else {
      assert (a + b)[0] == a[0] && (a + b)[1..] == a[1..] + b;
      Utf16Append(a[1..], b);
    }
  }

  /** JavaScript truthiness of a value that is either missing or a string:
      `undefined`, `null` and the empty string are falsy. */
  predicate IsTruthy(o: Option<string>) {
    o.Some? && o.value != ""
  }

  predicate StartsWith(s: string, prefix: string) {
    |prefix| <= |s| && s[..|prefix|] == prefix
  }

  /** `d` occurs in `s` starting at index `i`. */
  predicate OccursAt(s: string, d: string, i: int) {
    0 <= i && i + |d| <= |s| && s[i..i + |d|] == d
  }

  /** `s.indexOf(d)`: the first index at which `d` occurs, or None (see
      IndexOfSpec). */
  function IndexOf(s: string, d: string): (r: Option<nat>)
    requires d != []
    ensures r.Some? ==> r.value + |d| <= |s|
    decreases |s|
  {
    if |s| < |d| then None
    else if s[..|d|] == d then Some(0)
    else
      match IndexOf(s[1..], d)
      case None => None
      case Some(i) => Some(i + 1)
  }

  /** IndexOf finds an occurrence exactly when there is one, and the one it
      finds is the first. */
  lemma {:induction false} IndexOfSpec(s: string, d: string)
    requires d != []
    ensures IndexOf(s, d).None? <==> forall i :: !OccursAt(s, d, i)
    ensures IndexOf(s, d).Some? ==> OccursAt(s, d, IndexOf(s, d).value)
    ensures IndexOf(s, d).Some? ==>
      forall j :: 0 <= j < IndexOf(s, d).value ==> !OccursAt(s, d, j)
    decreases |s|
  {
    if |s| < |d| {
    } else if s[..|d|] == d {
      assert OccursAt(s, d, 0) by { assert s[0..|d|] == s[..|d|]; }
    } else {
      IndexOfSpec(s[1..], d);
      assert !OccursAt(s, d, 0) by { assert s[0..|d|] == s[..|d|]; }
      forall j | 1 <= j ensures OccursAt(s, d, j) <==> OccursAt(s[1..], d, j - 1) {
        if j + |d| <= |s| {
          var here, there := s[j..j + |d|], s[1..][j - 1..j - 1 + |d|];
          assert forall t :: 0 <= t < |d| ==> here[t] == there[t];
          assert here == there;
        }
      }
      match IndexOf(s[1..], d)
      case None =>
      case Some(i) =>
        assert OccursAt(s, d, i + 1);
    }
  }

  /** An occurrence found in `s` stays the first one when text is appended. */
  lemma IndexOfAppend(s: string, c: string, d: string)
    requires d != [] && IndexOf(s, d).Some?
    ensures IndexOf(s + c, d) == IndexOf(s, d)
  {
    var i := IndexOf(s, d).value;
    assert OccursAt(s, d, i) by { IndexOfSpec(s, d); }
    assert (s + c)[i..i + |d|] == s[i..i + |d|];
    assert OccursAt(s + c, d, i);
    forall j | 0 <= j < i ensures !OccursAt(s + c, d, j) {
      assert !OccursAt(s, d, j) by { IndexOfSpec(s, d); }
      assert (s + c)[j..j + |d|] == s[j..j + |d|];
    }
    IndexOfSpec(s + c, d);
  }

  /** `s.split(d)` for a non-empty string separator: the pieces between the
      occurrences of `d` found from left to right; there is always at least
      one. */
  function Split(s: string, d: string): (r: seq<string>)
    requires d != []
    ensures |r| >= 1
    decreases |s|
  {
    match IndexOf(s, d)
    case None => [s]
    case Some(i) => [s[..i]] + Split(s[i + |d|..], d)
  }

  /** No piece of a split contains the separator. */
  lemma {:induction false} SplitPiecesFree(s: string, d: string, k: nat)
    requires d != [] && k < |Split(s, d)|
    ensures IndexOf(Split(s, d)[k], d).None?
    decreases |s|
  {
    match IndexOf(s, d)
    case None =>
    case Some(i) =>
      if k == 0 {
        var head := s[..i];
        forall j ensures !OccursAt(head, d, j) {
          if 0 <= j && j + |d| <= |head| {
            var here, there := head[j..j + |d|], s[j..j + |d|];
            assert forall t :: 0 <= t < |d| ==> here[t] == there[t];
            assert here == there;
            assert !OccursAt(s, d, j) by { IndexOfSpec(s, d); }
          }
        }
        IndexOfSpec(head, d);
      } else {
        SplitPiecesFree(s[i + |d|..], d, k - 1);
      }
  }

  /** `parts.join(d)`. */
  function Join(parts: seq<string>, d: string): string {
    if |parts| == 0 then ""
    else if |parts| == 1 then parts[0]
    else parts[0] + d + Join(parts[1..], d)
  }

  lemma {:induction false} JoinSnoc(parts: seq<string>, last: string, d: string)
    requires parts != []
    ensures Join(parts + [last], d) == Join(parts, d) + d + last
  {
    if |parts| == 1 {
      assert parts + [last] == [parts[0], last];
    } else {
      assert (parts + [last])[1..] == parts[1..] + [last];
      JoinSnoc(parts[1..], last, d);
    }
  }

  /** Joining the pieces of a split with the same separator gives back the
      original string. */
  lemma {:induction false} SplitJoin(s: string, d: string)
    requires d != []
    ensures Join(Split(s, d), d) == s
    decreases |s|
  {
    match IndexOf(s, d)
    case None =>
    case Some(i) =>
      var rest := s[i + |d|..];
      var qs := Split(rest, d);
      var ps := [s[..i]] + qs;
      assert Split(s, d) == ps;
      assert |ps| >= 2 && ps[0] == s[..i] && ps[1..] == qs;
      assert Join(ps, d) == s[..i] + d + Join(qs, d);
      SplitJoin(rest, d);
      assert s[i..i + |d|] == d by { IndexOfSpec(s, d); }
      assert s == s[..i] + s[i..i + |d|] + rest;
  }

  /** Splitting is incremental: appending `c` to `s` can only re-split the
      last piece of `s`; every earlier piece stays as it was. */
  lemma {:induction false} SplitAppend(s: string, c: string, d: string)
    requires d != []
    ensures var ps := Split(s, d);
      Split(s + c, d) == ps[..|ps| - 1] + Split(ps[|ps| - 1] + c, d)
    decreases |s|
  {
    match IndexOf(s, d)
    case None =>
    case Some(i) =>
      IndexOfAppend(s, c, d);
      var rest := s[i + |d|..];
      assert (s + c)[..i] == s[..i];
      assert (s + c)[i + |d|..] == rest + c;
      SplitAppend(rest, c, d);
      var qs := Split(rest, d);
      var ps := Split(s, d);
      assert ps == [s[..i]] + qs;
      assert ps[..|ps| - 1] == [s[..i]] + qs[..|qs| - 1];
      assert ps[|ps| - 1] == qs[|qs| - 1];
      assert Split(s + c, d) == [s[..i]] + Split(rest + c, d);
  }

  /** A one-character separator occurs exactly where that character is. */
  lemma OccursAtOne(s: string, d: string, i: int)
    requires |d| == 1
    ensures OccursAt(s, d, i) <==> 0 <= i < |s| && s[i] == d[0]
  {
    if 0 <= i < |s| {
      assert s[i..i + 1] == [s[i]];
    }
  }

  /** For a one-character separator that occurs in none of the pieces,
      splitting the joined pieces gives the pieces back. */
  lemma {:induction false} JoinSplit(parts: seq<string>, d: string)
    requires |d| == 1 && parts != []
    requires forall k, j :: 0 <= k < |parts| && 0 <= j < |parts[k]| ==> parts[k][j] != d[0]
    ensures Split(Join(parts, d), d) == parts
  {
    var s := Join(parts, d);
    IndexOfSpec(s, d);
    if |parts| == 1 {
      forall i ensures !OccursAt(s, d, i) {
        OccursAtOne(s, d, i);
      }
    } else {
      var p := parts[0];
      var rest := Join(parts[1..], d);
      assert s == p + d + rest;
      assert s[|p|..|p| + 1] == d;
      assert OccursAt(s, d, |p|);
      forall j | 0 <= j < |p| ensures !OccursAt(s, d, j) {
        OccursAtOne(s, d, j);
        assert s[j] == p[j];
      }
      assert IndexOf(s, d) == Some(|p|);
      assert s[..|p|] == p;
      assert s[|p| + 1..] == rest;
      JoinSplit(parts[1..], d);
    }
  }

  /** The concatenation of a sequence of strings, in order. */
  function Concat(cs: seq<string>): string {
    if cs == [] then "" else Concat(cs[..|cs| - 1]) + cs[|cs| - 1]
  }

  lemma {:induction false} ConcatAppend(a: seq<string>, b: seq<string>)
    ensures Concat(a + b) == Concat(a) + Concat(b)
    decreases |b|
  {
    if b == [] {
      assert a + b == a;
    } else {
      var init := b[..|b| - 1];
      var last := b[|b| - 1];
      assert (a + b)[..|a + b| - 1] == a + init;
      assert (a + b)[|a + b| - 1] == last;
      assert Concat(a + b) == Concat(a + init) + last;
      ConcatAppend(a, init);
      assert Concat(b) == Concat(init) + last;
    }
  }

  /** Concatenation splits at any index. */
  lemma ConcatSplit(cs: seq<string>, i: nat)
    requires i <= |cs|
    ensures Concat(cs) == Concat(cs[..i]) + Concat(cs[i..])
  {
    assert cs[..i] + cs[i..] == cs;
    ConcatAppend(cs[..i], cs[i..]);
  }
}
