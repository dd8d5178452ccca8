/** The JavaScript string built-ins the core relies on, over `seq<char>`:
    `split` by one character, `includes`, `replace` of the first occurrence
    of a plain string, removal of every occurrence of a character
    (`replace(/"/g, '')`), `trim`, `padStart` and the decimal rendering of
    integers done by template strings. */
module Text {

  import opened Types

  /** `parts.join(sep)` for a non-empty list of parts. */
  function Join(parts: seq<string>, sep: char): (s: string)
    requires |parts| >= 1
    decreases |parts|
  {
    if |parts| == 1 then parts[0] else parts[0] + [sep] + Join(parts[1..], sep)
  }

  /** `s.split(sep)`: the maximal runs between occurrences of `sep`; an empty
      string gives one empty part. */
  function Split(s: string, sep: char): (parts: seq<string>)
    ensures |parts| >= 1
    decreases |s|
  {
    if s == [] then [[]]
    else
      var rest := Split(s[1..], sep);
      if s[0] == sep then [[]] + rest else [[s[0]] + rest[0]] + rest[1..]
  }

  /** `s.includes(c)` for a one-character pattern. */
  predicate Includes(s: string, c: char) {
    exists i :: 0 <= i < |s| && s[i] == c
  }

  /** Joining the parts of a split gives the string back. */
  lemma {:induction false} SplitJoin(s: string, sep: char)
    ensures Join(Split(s, sep), sep) == s
    decreases |s|
  {
    if s != [] {
      SplitJoin(s[1..], sep);
      SplitJoinStep(s, sep);
    }
  }

  /** One step of `SplitJoin`: the first character is restored in front of
      the join of the rest. */
  lemma SplitJoinStep(s: string, sep: char)
    requires s != []
    requires Join(Split(s[1..], sep), sep) == s[1..]
    ensures Join(Split(s, sep), sep) == s
  {
    var rest := Split(s[1..], sep);
    if s[0] == sep {
      JoinEmptyHead(rest, sep);
    } else {
      JoinConsHead(s[0], rest, sep);
    }
    assert [s[0]] + s[1..] == s;
  }

  /** A leading empty part contributes only its separator. */
  lemma JoinEmptyHead(parts: seq<string>, sep: char)
    requires |parts| >= 1
    ensures Join([[]] + parts, sep) == [sep] + Join(parts, sep)
  {
    assert ([[]] + parts)[1..] == parts;
  }

  /** A character put in front of the first part comes first in the join. */
  lemma JoinConsHead(c: char, parts: seq<string>, sep: char)
    requires |parts| >= 1
    ensures Join([[c] + parts[0]] + parts[1..], sep) == [c] + Join(parts, sep)
  {
    var q := [[c] + parts[0]] + parts[1..];
    if |parts| > 1 {
      assert q[1..] == parts[1..];
    }
  }

  /** No part of a split contains the separator. */
  lemma {:induction false} SplitPartsFree(s: string, sep: char)
    ensures forall k, i :: 0 <= k < |Split(s, sep)| && 0 <= i < |Split(s, sep)[k]| ==> Split(s, sep)[k][i] != sep
    decreases |s|
  {
    if s != [] {
      SplitPartsFree(s[1..], sep);
      var rest := Split(s[1..], sep);
      if s[0] != sep {
        var parts := Split(s, sep);
        forall k, i | 0 <= k < |parts| && 0 <= i < |parts[k]|
          ensures parts[k][i] != sep
        {
          if k == 0 && i > 0 {
            assert parts[0][i] == rest[0][i - 1];
          } else if k > 0 {
            assert parts[k] == rest[k];
          }
        }
      }
    }
  }

  /** A string splits into two or more parts exactly when it contains the
      separator; that is what makes `line.split('=')[1]` safe behind
      `line.includes('=')`. */
  lemma {:induction false} SplitIncludes(s: string, sep: char)
    ensures |Split(s, sep)| >= 2 <==> Includes(s, sep)
    decreases |s|
  {
    if s != [] {
      SplitIncludes(s[1..], sep);
      if Includes(s[1..], sep) {
        var i :| 0 <= i < |s[1..]| && s[1..][i] == sep;
        assert s[i + 1] == sep;
      }
      if Includes(s, sep) && s[0] != sep {
        var i :| 0 <= i < |s| && s[i] == sep;
        assert s[1..][i - 1] == sep;
      }
    }
  }

  /** Splitting at the first separator: the text before it is the first
      part and the rest splits on its own. */
  lemma {:induction false} SplitCons(a: string, sep: char, b: string)
    requires forall i :: 0 <= i < |a| ==> a[i] != sep
    ensures Split(a + [sep] + b, sep) == [a] + Split(b, sep)
    decreases |a|
  {
    if a != [] {
      assert (a + [sep] + b)[1..] == a[1..] + [sep] + b;
      SplitCons(a[1..], sep, b);
      assert [a[0]] + a[1..] == a;
    } else {
      assert (a + [sep] + b)[1..] == b;
    }
  }

  /** The first part of a split is the text before the first separator. */
  lemma SplitHead(a: string, sep: char, b: string)
    requires forall i :: 0 <= i < |a| ==> a[i] != sep
    ensures Split(a + [sep] + b, sep)[0] == a
  {
    SplitCons(a, sep, b);
  }

  /** A string without the separator splits into itself. */
  lemma {:induction false} SplitNone(s: string, sep: char)
    requires forall i :: 0 <= i < |s| ==> s[i] != sep
    ensures Split(s, sep) == [s]
    decreases |s|
  {
    if s != [] {
      SplitNone(s[1..], sep);
      assert [s[0]] + s[1..] == s;
    }
  }

  /** `s.replace(/c/g, '')`: `s` with every occurrence of `c` removed. */
  function RemoveAll(s: string, c: char): (r: string)
    ensures |r| <= |s|
    ensures forall i :: 0 <= i < |r| ==> r[i] != c
    ensures multiset(r) == multiset(s)[c := 0]
    decreases |s|
  {
    if s == [] then []
    else
      assert s == [s[0]] + s[1..];
      if s[0] == c then RemoveAll(s[1..], c) else [s[0]] + RemoveAll(s[1..], c)
  }

  /** `s` does not contain `c`. */
  predicate Free(s: string, c: char) {
    forall i :: 0 <= i < |s| ==> s[i] != c
  }

  /** Splitting a join of separator-free parts gives the parts back. */
  lemma {:induction false} SplitOfJoin(parts: seq<string>, sep: char)
    requires |parts| >= 1
    requires forall k :: 0 <= k < |parts| ==> Free(parts[k], sep)
    ensures Split(Join(parts, sep), sep) == parts
    decreases |parts|
  {
    if |parts| == 1 {
      SplitNone(parts[0], sep);
    } else {
      SplitOfJoin(parts[1..], sep);
      SplitCons(parts[0], sep, Join(parts[1..], sep));
    }
  }

  /** A join of parts that lack `c`, with a separator other than `c`,
      lacks `c`. */
  lemma {:induction false} JoinFree(parts: seq<string>, sep: char, c: char)
    requires |parts| >= 1 && sep != c
    requires forall k :: 0 <= k < |parts| ==> Free(parts[k], c)
    ensures Free(Join(parts, sep), c)
    decreases |parts|
  {
    if |parts| > 1 {
      JoinFree(parts[1..], sep, c);
      var rest := Join(parts[1..], sep);
      var j := Join(parts, sep);
      assert j == parts[0] + [sep] + rest;
      forall i | 0 <= i < |j| ensures j[i] != c {
        if i < |parts[0]| {
          assert j[i] == parts[0][i];
        } else if i > |parts[0]| {
          assert j[i] == rest[i - |parts[0]| - 1];
        }
      }
    }
  }

  /** Removing `c` from text that lacks it changes nothing. */
  lemma {:induction false} RemoveAllFree(s: string, c: char)
    requires Free(s, c)
    ensures RemoveAll(s, c) == s
    decreases |s|
  {
    if s != [] {
      RemoveAllFree(s[1..], c);
    }
  }

  /** Removing `c` distributes over concatenation. */
  lemma {:induction false} RemoveAllAppend(a: string, b: string, c: char)
    ensures RemoveAll(a + b, c) == RemoveAll(a, c) + RemoveAll(b, c)
    decreases |a|
  {
    if a != [] {
      assert (a + b)[1..] == a[1..] + b;
      RemoveAllAppend(a[1..], b, c);
    } else {
      assert a + b == b;
    }
  }

  /** Concatenation regrouped around a quoted middle. */
  lemma Regroup(a: string, c: char, q: char, body: string)
    ensures a + [c] + [q] + body + [q] == a + [c] + ([q] + body + [q])
  {
  }

  /** Text that lacks the separator, after the first separator, is the
      second part of the split. */
  lemma SplitSecond(a: string, sep: char, b: string)
    requires Free(a, sep) && Free(b, sep)
    ensures Includes(a + [sep] + b, sep)
    ensures Split(a + [sep] + b, sep) == [a, b]
  {
    assert (a + [sep] + b)[|a|] == sep;
    SplitCons(a, sep, b);
    SplitNone(b, sep);
  }

  /** Wrapping text in a character other than `c` keeps it free of `c`. */
  lemma WrapFree(q: char, body: string, c: char)
    requires Free(body, c) && q != c
    ensures Free([q] + body + [q], c)
  {
    var w := [q] + body + [q];
    forall i | 0 <= i < |w| ensures w[i] != c {
      if 0 < i < |w| - 1 {
        assert w[i] == body[i - 1];
      }
    }
  }

  /** Removing the quote character from quoted text without quotes inside
      gives the text. */
  lemma Unquote(q: char, body: string)
    requires Free(body, q)
    ensures RemoveAll([q] + body + [q], q) == body
  {
    RemoveAllAppend([q] + body, [q], q);
    RemoveAllAppend([q], body, q);
    RemoveAllFree(body, q);
    assert RemoveAll([q], q) == [];
  }

  /** `pat` occurs in `s` starting at index `j`. */
  predicate OccursAt(s: string, pat: string, j: int) {
    0 <= j && j + |pat| <= |s| && s[j..j + |pat|] == pat
  }

  lemma OccursAtTail(s: string, pat: string, j: int)
    requires s != [] && j >= 1
    ensures OccursAt(s, pat, j) <==> OccursAt(s[1..], pat, j - 1)
  {
    if j + |pat| <= |s| {
      var a, b := s[j..j + |pat|], s[1..][j - 1..j - 1 + |pat|];
      assert |a| == |b|;
      forall k | 0 <= k < |a| ensures a[k] == b[k] {
        assert a[k] == s[j + k];
        assert b[k] == s[1..][j - 1 + k];
      }
      assert a == b;
    }
  }

  /** Index of the first occurrence of `pat` in `s`, if any. */
  function IndexOf(s: string, pat: string): (r: Option<nat>)
    ensures r.Some? ==> OccursAt(s, pat, r.value)
    ensures r.Some? ==> forall j :: 0 <= j < r.value ==> !OccursAt(s, pat, j)
    ensures r.None? ==> forall j :: !OccursAt(s, pat, j)
    decreases |s|
  {
    if |pat| > |s| then None
    else if s[..|pat|] == pat then Some(0)
    else
      var t := IndexOf(s[1..], pat);
      assert forall j :: j >= 1 ==> (OccursAt(s, pat, j) <==> OccursAt(s[1..], pat, j - 1)) by {
        forall j | j >= 1 ensures OccursAt(s, pat, j) <==> OccursAt(s[1..], pat, j - 1) {
          OccursAtTail(s, pat, j);
        }
      }
      if t.None? then None else Some(t.value + 1)
  }

  /** `s.replace(pat, rep)` with a string pattern: only the first occurrence
      is replaced. */
  function ReplaceFirst(s: string, pat: string, rep: string): (r: string)
    ensures (forall j :: !OccursAt(s, pat, j)) ==> r == s
    ensures forall i :: OccursAt(s, pat, i) && (forall j :: 0 <= j < i ==> !OccursAt(s, pat, j)) ==>
      r == s[..i] + rep + s[i + |pat|..]
  {
    match IndexOf(s, pat)
    case None => s
    case Some(i) => s[..i] + rep + s[i + |pat|..]
  }

  /** The characters `String.prototype.trim` strips: ECMAScript WhiteSpace
      and LineTerminator code points. */
  predicate IsSpace(c: char) {
    var n := c as int;
    n == 0x09 || n == 0x0A || n == 0x0B || n == 0x0C || n == 0x0D || n == 0x20 ||
    n == 0xA0 || n == 0x1680 || (0x2000 <= n <= 0x200A) || n == 0x2028 ||
    n == 0x2029 || n == 0x202F || n == 0x205F || n == 0x3000 || n == 0xFEFF
  }

  predicate AllSpace(s: string) {
    forall i :: 0 <= i < |s| ==> IsSpace(s[i])
  }

  /** The index of the first non-white-space character at or after `k`,
      or `|s|`. */
  function SkipSpace(s: string, k: nat): (i: nat)
    requires k <= |s|
    ensures k <= i <= |s|
    ensures forall m :: k <= m < i ==> IsSpace(s[m])
    ensures i == |s| || !IsSpace(s[i])
    decreases |s| - k
  {
    if k < |s| && IsSpace(s[k]) then SkipSpace(s, k + 1) else k
  }

  /** The index just after the last non-white-space character before `j`
      and at or after `lo`, or `lo`. */
  function SkipSpaceBack(s: string, lo: nat, j: nat): (e: nat)
    requires lo <= j <= |s|
    ensures lo <= e <= j
    ensures forall m :: e <= m < j ==> IsSpace(s[m])
    ensures e == lo || !IsSpace(s[e - 1])
    decreases j - lo
  {
    if lo < j && IsSpace(s[j - 1]) then SkipSpaceBack(s, lo, j - 1) else j
  }

  /** `s.trim()`: the part of `s` between its leading and trailing white
      space, which it neither starts nor ends with. */
  function Trim(s: string): (r: string)
    ensures exists i :: (0 <= i <= i + |r| <= |s| && r == s[i..i + |r|] &&
      AllSpace(s[..i]) && AllSpace(s[i + |r|..]))
    ensures r == [] || (!IsSpace(r[0]) && !IsSpace(r[|r| - 1]))
  {
    var i := SkipSpace(s, 0);
    var e := SkipSpaceBack(s, i, |s|);
    TrimBounds(s, i, e);
    s[i..e]
  }

  /** The slice between white space on both sides that neither starts nor
      ends with white space has the properties of `trim`. */
  lemma TrimBounds(s: string, i: nat, e: nat)
    requires i <= e <= |s|
    requires forall m :: 0 <= m < i ==> IsSpace(s[m])
    requires forall m :: e <= m < |s| ==> IsSpace(s[m])
    requires i == |s| || !IsSpace(s[i])
    requires e == i || !IsSpace(s[e - 1])
    ensures exists k :: (0 <= k <= k + |s[i..e]| <= |s| && s[i..e] == s[k..k + |s[i..e]|] &&
      AllSpace(s[..k]) && AllSpace(s[k + |s[i..e]|..]))
    ensures s[i..e] == [] || (!IsSpace(s[i..e][0]) && !IsSpace(s[i..e][|s[i..e]| - 1]))
  {
    var r := s[i..e];
    assert |r| == e - i;
    assert AllSpace(s[..i]);
    assert AllSpace(s[e..]);
    assert 0 <= i <= i + |r| <= |s| && r == s[i..i + |r|];
  }

  /** Trimming yields the empty string exactly for all-white-space input. */
  lemma TrimEmptyIffAllSpace(s: string)
    ensures Trim(s) == [] <==> AllSpace(s)
  {
    var i := SkipSpace(s, 0);
    var e := SkipSpaceBack(s, i, |s|);
    assert Trim(s) == s[i..e];
    if i < |s| {
      assert !IsSpace(s[i]);
      assert e != i;
    } else {
      assert e == i;
    }
  }

  lemma TrimIdempotent(s: string)
    ensures Trim(Trim(s)) == Trim(s)
  {
    var r := Trim(s);
    assert SkipSpace(r, 0) == 0;
    assert SkipSpaceBack(r, 0, |r|) == |r|;
    assert r[0..|r|] == r;
  }

  function DigitChar(d: nat): (c: char)
    requires d < 10
    ensures '0' <= c <= '9'
  {
    (('0' as int) + d) as char
  }

  function DigitValue(c: char): (d: nat)
    requires '0' <= c <= '9'
    ensures d < 10 && DigitChar(d) == c
  {
    (c as int) - ('0' as int)
  }

  /** Decimal digits of a natural number, without leading zeros. */
  function NatToDecimal(n: nat): (s: string)
    ensures |s| >= 1
    ensures forall i :: 0 <= i < |s| ==> '0' <= s[i] <= '9'
    decreases n
  {
    if n < 10 then [DigitChar(n)] else NatToDecimal(n / 10) + [DigitChar(n % 10)]
  }

  /** The value of a string of decimal digits. */
  function DecimalValue(s: string): (n: nat)
    requires forall i :: 0 <= i < |s| ==> '0' <= s[i] <= '9'
    decreases |s|
  {
    if s == [] then 0 else 10 * DecimalValue(s[..|s| - 1]) + DigitValue(s[|s| - 1])
  }

  lemma {:induction false} DecimalRoundTrip(n: nat)
    ensures DecimalValue(NatToDecimal(n)) == n
    decreases n
  {
    var s := NatToDecimal(n);
    if n >= 10 {
      DecimalRoundTrip(n / 10);
      assert s[..|s| - 1] == NatToDecimal(n / 10);
      assert DigitValue(s[|s| - 1]) == n % 10;
      assert n == 10 * (n / 10) + n % 10;
    } else {
      assert DigitValue(s[0]) == n;
    }
  }

  /** Leading zeros do not change the value of a digit string. */
  lemma {:induction false} DecimalLeadingZeros(z: nat, s: string)
    requires forall i :: 0 <= i < |s| ==> '0' <= s[i] <= '9'
    ensures DecimalValue(seq(z, _ => '0') + s) == DecimalValue(s)
    decreases |s|
  {
    var t := seq(z, _ => '0') + s;
    if s == [] {
      ZerosValue(z);
      assert t == seq(z, _ => '0');
    } else {
      DecimalLeadingZeros(z, s[..|s| - 1]);
      assert t[..|t| - 1] == seq(z, _ => '0') + s[..|s| - 1];
    }
  }

  lemma {:induction false} ZerosValue(z: nat)
    ensures DecimalValue(seq(z, _ => '0')) == 0
    decreases z
  {
    if z > 0 {
      ZerosValue(z - 1);
      assert seq(z, _ => '0')[..z - 1] == seq(z - 1, _ => '0');
    }
  }

  /** `String(n)` for an integer: a minus sign before negative values. */
  function IntToDecimal(n: int): (s: string)
    ensures |s| >= 1
  {
    if n >= 0 then NatToDecimal(n) else "-" + NatToDecimal(-n)
  }
}
