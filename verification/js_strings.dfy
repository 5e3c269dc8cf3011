/** The JavaScript string operations the application relies on, over `string`
    (a `seq<char>`): `split` and `join` on a one-character separator, `trim`,
    ASCII case folding, substring search and the decimal rendering `String(n)`. */
module JsStrings {

  // ---------------------------------------------------------------------------
  // split / join
  // ---------------------------------------------------------------------------

  /** `s.split(d)`: the pieces of `s` between occurrences of `d`, in order.
      The empty string splits into one empty piece, as in JavaScript. */
  function Split(s: string, d: char): (parts: seq<string>)
    ensures |parts| >= 1
    ensures forall i :: 0 <= i < |parts| ==> d !in parts[i]
    decreases |s|
  {
    if |s| == 0 then [""]
    else
      assert s == [s[0]] + s[1..];
      var rest := Split(s[1..], d);
      if s[0] == d then [""] + rest
      else [[s[0]] + rest[0]] + rest[1..]
  }

  /** `parts.join(d)`: the pieces with `d` between consecutive ones; `[].join(d)` is "". */
  function Join(parts: seq<string>, d: char): string
  {
    if |parts| == 0 then ""
    else if |parts| == 1 then parts[0]
    else parts[0] + [d] + Join(parts[1..], d)
  }

  /** There is one more piece than there are separators. */
  lemma {:induction false} SplitCount(s: string, d: char)
    ensures |Split(s, d)| == multiset(s)[d] + 1
    decreases |s|
  {
    if |s| > 0 {
      SplitCount(s[1..], d);
      assert s == [s[0]] + s[1..];
      assert multiset(s) == multiset{s[0]} + multiset(s[1..]);
    }
  }

  /** Joining a leading empty piece puts the separator first. */
  lemma JoinEmptyFirst(rest: seq<string>, d: char)
    requires |rest| >= 1
    ensures Join([""] + rest, d) == [d] + Join(rest, d)
  {
    assert ([""] + rest)[1..] == rest;
  }

  /** Gluing a character onto the first piece glues it onto the join. */
  lemma JoinExtendFirst(c: char, parts: seq<string>, d: char)
    requires |parts| >= 1
    ensures Join([[c] + parts[0]] + parts[1..], d) == [c] + Join(parts, d)
  {
    var glued := [[c] + parts[0]] + parts[1..];
    if |parts| >= 2 {
      assert glued[1..] == parts[1..];
    }
  }

  /** Joining the pieces of a split restores the original string. */
  lemma {:induction false} JoinOfSplit(s: string, d: char)
    ensures Join(Split(s, d), d) == s
    decreases |s|
  {
    if |s| > 0 {
      var rest := Split(s[1..], d);
      JoinOfSplit(s[1..], d);
      assert [s[0]] + s[1..] == s;
      if s[0] == d {
        assert Split(s, d) == [""] + rest;
        JoinEmptyFirst(rest, d);
      } else {
        assert Split(s, d) == [[s[0]] + rest[0]] + rest[1..];
        JoinExtendFirst(s[0], rest, d);
      }
    }
  }

  /** A string without the separator splits into itself alone. */
  lemma {:induction false} SplitWithoutSeparator(s: string, d: char)
    requires d !in s
    ensures Split(s, d) == [s]
    decreases |s|
  {
    if |s| > 0 {
      SplitWithoutSeparator(s[1..], d);
      assert [s[0]] + s[1..] == s;
    }
  }

  /** Splitting `p + [d] + t`, where `p` has no separator, yields `p` followed by the pieces of `t`. */
  lemma {:induction false} SplitAfterPiece(p: string, t: string, d: char)
    requires d !in p
    ensures Split(p + [d] + t, d) == [p] + Split(t, d)
    decreases |p|
  {
    var s := p + [d] + t;
    if |p| == 0 {
      assert s == [d] + t;
      assert s[1..] == t;
    } else {
      assert s[1..] == p[1..] + [d] + t;
      SplitAfterPiece(p[1..], t, d);
      assert [p[0]] + p[1..] == p;
    }
  }

  /** Splitting a join of separator-free pieces recovers the pieces; at least one piece is
      needed because `[].join(d)` and `[""].join(d)` are both "". */
  lemma {:induction false} SplitOfJoin(parts: seq<string>, d: char)
    requires |parts| >= 1
    requires forall i :: 0 <= i < |parts| ==> d !in parts[i]
    ensures Split(Join(parts, d), d) == parts
    decreases |parts|
  {
    if |parts| == 1 {
      SplitWithoutSeparator(parts[0], d);
    } else {
      SplitOfJoin(parts[1..], d);
      SplitAfterPiece(parts[0], Join(parts[1..], d), d);
      assert [parts[0]] + parts[1..] == parts;
    }
  }

  /** The join is empty exactly when there are no pieces, provided no piece is empty. */
  lemma JoinEmpty(parts: seq<string>, d: char)
    requires forall i :: 0 <= i < |parts| ==> parts[i] != ""
    ensures Join(parts, d) == "" <==> |parts| == 0
  {
    if |parts| >= 2 {
      assert |Join(parts, d)| >= |parts[0] + [d]|;
    }
  }

  // ---------------------------------------------------------------------------
  // trim
  // ---------------------------------------------------------------------------

  /** The white space and line terminators that `String.prototype.trim` removes. */
  predicate IsSpace(c: char) {
    || c == ' ' || c == '\t' || c == '\n' || c == '\r'
    || c == '\U{000B}' || c == '\U{000C}' || c == '\U{00A0}' || c == '\U{1680}'
    || ('\U{2000}' <= c <= '\U{200A}')
    || c == '\U{2028}' || c == '\U{2029}' || c == '\U{202F}' || c == '\U{205F}'
    || c == '\U{3000}' || c == '\U{FEFF}'
  }

  /** The first position at or after `i` that does not hold white space, or `|s|`. */
  function SkipSpaceFrom(s: string, i: nat): (n: nat)
    requires i <= |s|
    ensures i <= n <= |s|
    ensures forall k :: i <= k < n ==> IsSpace(s[k])
    ensures n < |s| ==> !IsSpace(s[n])
    decreases |s| - i
  {
    if i < |s| && IsSpace(s[i]) then SkipSpaceFrom(s, i + 1) else i
  }

  /** The end of `s[lo..hi]` once its trailing white space is removed. */
  function SkipSpaceBack(s: string, lo: nat, hi: nat): (e: nat)
    requires lo <= hi <= |s|
    ensures lo <= e <= hi
    ensures forall k :: e <= k < hi ==> IsSpace(s[k])
    ensures e > lo ==> !IsSpace(s[e - 1])
    decreases hi
  {
    if hi > lo && IsSpace(s[hi - 1]) then SkipSpaceBack(s, lo, hi - 1) else hi
  }

  /** `r` sits at offset `i` of `s` and everything of `s` around it is white space. */
  ghost predicate TrimmedAt(s: string, r: string, i: int) {
    && 0 <= i && i + |r| <= |s| && s[i..i + |r|] == r
    && (forall k :: 0 <= k < i ==> IsSpace(s[k]))
    && (forall k :: i + |r| <= k < |s| ==> IsSpace(s[k]))
  }

  /** Neither end of `s` is white space. */
  predicate Unpadded(s: string) {
    s == [] || (!IsSpace(s[0]) && !IsSpace(s[|s| - 1]))
  }

  /** `r` is `s` with white space removed from both ends. */
  ghost predicate TrimmedFrom(s: string, r: string) {
    exists i :: TrimmedAt(s, r, i)
  }

  /** `s.trim()`: the infix of `s` left after removing white space at both ends. */
  function Trim(s: string): (r: string)
    ensures TrimmedFrom(s, r)
    ensures Unpadded(r)
  {
    var a := SkipSpaceFrom(s, 0);
    var e := SkipSpaceBack(s, a, |s|);
    assert TrimmedAt(s, s[a..e], a);
    s[a..e]
  }

  /** A string without white space at either end is left as it is. */
  lemma TrimUnpadded(s: string)
    requires Unpadded(s)
    ensures Trim(s) == s
  {
    assert SkipSpaceFrom(s, 0) == 0;
    assert s[0..|s|] == s;
  }

  /** Trimming only removes characters: one absent before is absent after. */
  lemma TrimKeepsOut(s: string, c: char)
    requires c !in s
    ensures c !in Trim(s)
  {
    var a := SkipSpaceFrom(s, 0);
    var e := SkipSpaceBack(s, a, |s|);
    forall k | 0 <= k < e - a ensures s[a..e][k] != c {
      assert s[a..e][k] == s[a + k];
    }
  }

  /** Every piece of `parts`, trimmed. */
  function TrimAll(parts: seq<string>): (r: seq<string>)
    ensures |r| == |parts|
    ensures forall i :: 0 <= i < |parts| ==> r[i] == Trim(parts[i])
  {
    if |parts| == 0 then [] else [Trim(parts[0])] + TrimAll(parts[1..])
  }

  /** The pieces of `s` between separators `d`, each trimmed: one more than there are
      separators, each the infix its piece has after trimming, none holding a separator and
      none padded. */
  lemma TrimmedSplit(s: string, d: char)
    ensures |TrimAll(Split(s, d))| == multiset(s)[d] + 1
    ensures forall i :: 0 <= i < |Split(s, d)| ==> TrimmedFrom(Split(s, d)[i], TrimAll(Split(s, d))[i])
    ensures forall i :: 0 <= i < |Split(s, d)| ==> d !in TrimAll(Split(s, d))[i]
    ensures forall i :: 0 <= i < |Split(s, d)| ==> Unpadded(TrimAll(Split(s, d))[i])
  {
    var parts := Split(s, d);
    SplitCount(s, d);
    forall i | 0 <= i < |parts| ensures d !in Trim(parts[i]) {
      TrimKeepsOut(parts[i], d);
    }
  }

  /** Pieces none of which is padded are left as they are. */
  lemma TrimAllUnpadded(parts: seq<string>)
    requires forall i :: 0 <= i < |parts| ==> Unpadded(parts[i])
    ensures TrimAll(parts) == parts
  {
    forall i | 0 <= i < |parts| ensures TrimAll(parts)[i] == parts[i] {
      TrimUnpadded(parts[i]);
    }
  }

  // ---------------------------------------------------------------------------
  // case folding and substring search
  // ---------------------------------------------------------------------------

  /** ASCII lower case; every other character is left alone. */
  function LowerChar(c: char): (l: char)
    ensures !('A' <= l <= 'Z')
    ensures 'A' <= c <= 'Z' ==> l as int == c as int + 32
    ensures !('A' <= c <= 'Z') ==> l == c
  {
    if 'A' <= c <= 'Z' then (c as int + 32) as char else c
  }

  function Lower(s: string): (r: string)
    ensures |r| == |s|
    ensures forall i :: 0 <= i < |s| ==> r[i] == LowerChar(s[i])
  {
    seq(|s|, i requires 0 <= i < |s| => LowerChar(s[i]))
  }

  /** `needle` occurs in `hay` at some offset: the reference definition of substring. */
  ghost predicate Contains(hay: string, needle: string) {
    exists i :: OccursAt(hay, needle, i)
  }

  ghost predicate OccursAt(hay: string, needle: string, i: int) {
    0 <= i && i + |needle| <= |hay| && hay[i..i + |needle|] == needle
  }

  /** Left-to-right scan for `needle` in `hay`. */
  predicate Occurs(hay: string, needle: string)
    decreases |hay|
  {
    if |needle| > |hay| then false
    else if hay[..|needle|] == needle then true
    else |hay| > 0 && Occurs(hay[1..], needle)
  }

  /** An occurrence in the tail of `hay` is an occurrence in `hay` one place further on. */
  lemma OccursInTail(hay: string, needle: string, i: int)
    requires |hay| > 0 && i >= 0
    ensures OccursAt(hay[1..], needle, i) <==> OccursAt(hay, needle, i + 1)
  {
    if i + |needle| <= |hay| - 1 {
      assert hay[1..][i..i + |needle|] == hay[i + 1..i + 1 + |needle|];
    }
  }

  /** The scan finds `needle` exactly when it occurs somewhere in `hay`. */
  lemma {:induction false} OccursIffContains(hay: string, needle: string)
    ensures Occurs(hay, needle) <==> Contains(hay, needle)
    decreases |hay|
  {
    if |needle| <= |hay| && hay[..|needle|] != needle && |hay| > 0 {
      OccursIffContains(hay[1..], needle);
      if Occurs(hay[1..], needle) {
        var i :| OccursAt(hay[1..], needle, i);
        OccursInTail(hay, needle, i);
      }
      if Contains(hay, needle) {
        var i :| OccursAt(hay, needle, i);
        assert i != 0;
        OccursInTail(hay, needle, i - 1);
      }
    } else if |needle| <= |hay| && hay[..|needle|] == needle {
      assert OccursAt(hay, needle, 0);
    }
  }

  /** Case-insensitive substring test, ASCII letters folded on both sides. */
  predicate ContainsIgnoreCase(hay: string, needle: string) {
    Occurs(Lower(hay), Lower(needle))
  }

  /** The case-insensitive test is the reference substring relation on lower-cased text. */
  lemma ContainsIgnoreCaseMeaning(hay: string, needle: string)
    ensures ContainsIgnoreCase(hay, needle) <==> Contains(Lower(hay), Lower(needle))
  {
    OccursIffContains(Lower(hay), Lower(needle));
  }

  // ---------------------------------------------------------------------------
  // decimal rendering, String(n)
  // ---------------------------------------------------------------------------

  predicate IsDigit(c: char) {
    '0' <= c <= '9'
  }

  function DigitChar(d: nat): (c: char)
    requires d < 10
    ensures IsDigit(c) && c as int - '0' as int == d
  {
    (d + '0' as int) as char
  }

  /** The decimal digits of `n`, without leading zeros. */
  function NatToDecimal(n: nat): (s: string)
    ensures |s| >= 1
    ensures forall i :: 0 <= i < |s| ==> IsDigit(s[i])
    ensures s[0] == '0' ==> n == 0
  {
    if n < 10 then [DigitChar(n)] else NatToDecimal(n / 10) + [DigitChar(n % 10)]
  }

  /** `String(n)` for an integer `n`. */
  function IntToDecimal(n: int): string {
    if n < 0 then "-" + NatToDecimal(-n) else NatToDecimal(n)
  }

  function DigitValue(c: char): (v: nat)
    requires IsDigit(c)
    ensures v < 10
  {
    c as int - '0' as int
  }

  /** The number a string of decimal digits denotes. */
  function DecimalValue(s: string): nat
    requires forall i :: 0 <= i < |s| ==> IsDigit(s[i])
  {
    if |s| == 0 then 0
    else DecimalValue(s[..|s| - 1]) * 10 + DigitValue(s[|s| - 1])
  }

  /** Reading back the rendered digits gives the number. */
  lemma {:induction false} DecimalRoundTrip(n: nat)
    ensures DecimalValue(NatToDecimal(n)) == n
  {
    if n >= 10 {
      DecimalRoundTrip(n / 10);
      var s := NatToDecimal(n);
      assert s[..|s| - 1] == NatToDecimal(n / 10);
    }
  }

  /** The rendering starts with a minus sign exactly for negative numbers, and the rest is
      the digits of the magnitude. */
  lemma DecimalSign(n: int)
    ensures |IntToDecimal(n)| >= 1
    ensures IntToDecimal(n)[0] == '-' <==> n < 0
    ensures n < 0 ==> IntToDecimal(n)[1..] == NatToDecimal(-n)
  {
    if n >= 0 {
      assert IsDigit(NatToDecimal(n)[0]);
    }
  }

  /** Distinct integers render differently. */
  lemma DecimalInjective(m: int, n: int)
    requires IntToDecimal(m) == IntToDecimal(n)
    ensures m == n
  {
    DecimalSign(m);
    DecimalSign(n);
    var a, b := if m < 0 then -m else m, if n < 0 then -n else n;
    assert NatToDecimal(a) == NatToDecimal(b);
    DecimalRoundTrip(a);
    DecimalRoundTrip(b);
  }
}
