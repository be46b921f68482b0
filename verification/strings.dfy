/** Python `str` operations used by the scripts: `int()`, `str(int)`, `split`, `replace`, and `sorted`. */
module Strings {
  import opened Wrappers

  predicate IsDigit(c: char)
  {
    '0' <= c <= '9'
  }

  predicate AllDigits(s: string)
  {
    forall i :: 0 <= i < |s| ==> IsDigit(s[i])
  }

  /** The ASCII characters Python's `str.isspace` accepts (tab to carriage return, the four separators, space). */
  predicate IsSpace(c: char)
  {
    c == ' ' || ('\t' <= c <= '\r') || ('\U{1C}' <= c <= '\U{1F}')
  }

  function DigitValue(c: char): nat
    requires IsDigit(c)
  {
    c as int - '0' as int
  }

  function DigitChar(d: nat): (c: char)
    requires d < 10
    ensures IsDigit(c) && DigitValue(c) == d
  {
    (d + '0' as int) as char
  }

  /** Decimal digits of a natural number, most significant first, without leading zeros. */
  function NatToString(n: nat): (s: string)
    ensures |s| > 0 && AllDigits(s)
  {
    if n < 10 then [DigitChar(n)] else NatToString(n / 10) + [DigitChar(n % 10)]
  }

  /** `str(i)` for a Python `int`. */
  function IntToString(i: int): (s: string)
    ensures |s| > 0 && !IsSpace(s[0]) && !IsSpace(s[|s| - 1])
  {
    if i < 0 then "-" + NatToString(-i) else NatToString(i)
  }

  /** The value of a string of decimal digits (leading zeros allowed). */
  function DigitsValue(s: string): nat
    requires AllDigits(s)
  {
    if |s| == 0 then 0 else DigitsValue(s[..|s| - 1]) * 10 + DigitValue(s[|s| - 1])
  }

  function StripLeft(s: string): (r: string)
    ensures |r| <= |s|
    ensures |r| > 0 ==> !IsSpace(r[0])
    ensures r == s[|s| - |r|..]
  {
    if |s| > 0 && IsSpace(s[0]) then StripLeft(s[1..]) else s
  }

  function StripRight(s: string): (r: string)
    ensures |r| <= |s|
    ensures |r| > 0 ==> !IsSpace(r[|r| - 1])
    ensures r == s[..|r|]
  {
    if |s| > 0 && IsSpace(s[|s| - 1]) then StripRight(s[..|s| - 1]) else s
  }

  /** `s.strip()` restricted to ASCII whitespace. */
  function Strip(s: string): string
  {
    StripRight(StripLeft(s))
  }

  /**
   * Python `int(s)` on a string: surrounding whitespace, then an optional sign,
   * then at least one decimal digit. `None` stands for the `ValueError` it raises.
   */
  function ParseInt(s: string): (r: Option<int>)
    ensures r.Some? ==> |Strip(s)| > 0
  {
    var t := Strip(s);
    if |t| > 0 && (t[0] == '-' || t[0] == '+') then
      var d := t[1..];
      if |d| > 0 && AllDigits(d) then
        var v: int := DigitsValue(d);
        Some(if t[0] == '-' then -v else v)
      else None
    else if |t| > 0 && AllDigits(t) then Some(DigitsValue(t))
    else None
  }

  lemma {:induction false} NatToStringValue(n: nat)
    ensures DigitsValue(NatToString(n)) == n
  {
    if n >= 10 {
      NatToStringValue(n / 10);
      var s := NatToString(n / 10) + [DigitChar(n % 10)];
      assert s[..|s| - 1] == NatToString(n / 10);
    }
  }

  lemma StripNoSpace(s: string)
    requires |s| > 0 && !IsSpace(s[0]) && !IsSpace(s[|s| - 1])
    ensures Strip(s) == s
  {
  }

  /** `int(str(i)) == i`: formatting an integer and parsing it back is the identity. */
  lemma ParseIntToString(i: int)
    ensures ParseInt(IntToString(i)) == Some(i)
  {
    var s := IntToString(i);
    StripNoSpace(s);
    if i < 0 {
      NatToStringValue(-i);
      assert s[1..] == NatToString(-i);
    } else {
      NatToStringValue(i);
    }
  }

  /** Parsing a run of digits yields its decimal value. */
  lemma ParseDigits(d: string)
    requires |d| > 0 && AllDigits(d)
    ensures ParseInt(d) == Some(DigitsValue(d))
  {
    assert !IsSpace(d[0]) && !IsSpace(d[|d| - 1]);
    StripNoSpace(d);
  }

  /** `s.split(c)[-1]` when `c` occurs in `s`: the text after the last `c`. */
  function AfterLast(s: string, c: char): (r: string)
    requires c in s
    ensures c !in r
    ensures exists k :: 0 <= k < |s| && s[k] == c && r == s[k + 1..]
  {
    if s[|s| - 1] == c then
      assert s[|s|..] == [];
      []
    else
      var init := s[..|s| - 1];
      var r := AfterLast(init, c) + [s[|s| - 1]];
      ghost var k :| 0 <= k < |init| && init[k] == c && AfterLast(init, c) == init[k + 1..];
      assert s[k] == c && r == s[k + 1..];
      r
  }

  /** `s.split(c)[0]` when `c` occurs in `s`: the text before the first `c`. */
  function BeforeFirst(s: string, c: char): (r: string)
    requires c in s
    ensures c !in r
    ensures |r| < |s| && s[|r|] == c && r == s[..|r|]
  {
    if s[0] == c then [] else [s[0]] + BeforeFirst(s[1..], c)
  }

  /** `s.split(c)`: the pieces between occurrences of `c`. */
  function Split(s: string, c: char): (r: seq<string>)
    ensures |r| > 0
    ensures forall i :: 0 <= i < |r| ==> c !in r[i]
    decreases |s|
  {
    if c !in s then [s]
    else
      var head := BeforeFirst(s, c);
      [head] + Split(s[|head| + 1..], c)
  }

  /** `sep.join(parts)` */
  function Join(sep: string, parts: seq<string>): (r: string)
    ensures |parts| > 0 ==> StartsWith(r, parts[0])
  {
    if |parts| == 0 then ""
    else if |parts| == 1 then parts[0]
    else parts[0] + sep + Join(sep, parts[1..])
  }

  /** Joining with a separator that no part contains, then splitting on it, gives the parts back. */
  lemma {:induction false} SplitJoin(parts: seq<string>, c: char)
    requires |parts| > 0
    requires forall i :: 0 <= i < |parts| ==> c !in parts[i]
    ensures Split(Join([c], parts), c) == parts
  {
    if |parts| > 1 {
      var head, rest := parts[0], Join([c], parts[1..]);
      assert Join([c], parts) == head + ([c] + rest);
      SplitAtFirst(head, rest, c);
      SplitJoin(parts[1..], c);
      assert parts == [head] + parts[1..];
    }
  }

  /** Splitting at the first separator peels off the part before it. */
  lemma SplitAtFirst(head: string, rest: string, c: char)
    requires c !in head
    ensures Split(head + ([c] + rest), c) == [head] + Split(rest, c)
  {
    var s := head + ([c] + rest);
    BeforeFirstAfterFree(head, [c] + rest, c);
    assert s[|head| + 1..] == rest;
  }

  /** A separator-joined string holds a character only if the separator or a part does. */
  lemma {:induction false} JoinFree(sep: string, parts: seq<string>, c: char)
    requires c !in sep
    requires forall i :: 0 <= i < |parts| ==> c !in parts[i]
    ensures c !in Join(sep, parts)
  {
    if |parts| > 1 {
      JoinFree(sep, parts[1..], c);
    }
  }

  lemma IntToStringFree(i: int, c: char)
    requires c != '-' && !IsDigit(c)
    ensures c !in IntToString(i)
  {
    var d := NatToString(if i < 0 then -i else i);
    assert c !in d;
  }

  lemma BeforeFirstAfterFree(x: string, y: string, c: char)
    requires c !in x && |y| > 0 && y[0] == c
    ensures c in x + y && BeforeFirst(x + y, c) == x
  {
    var s := x + y;
    assert s[|x|] == c;
    var r := BeforeFirst(s, c);
    assert forall i :: 0 <= i < |x| ==> s[i] == x[i];
    assert forall i :: 0 <= i < |r| ==> s[i] == r[i];
    assert s[..|x|] == x;
  }

  predicate StartsWith(s: string, prefix: string)
  {
    |prefix| <= |s| && s[..|prefix|] == prefix
  }

  predicate EndsWith(s: string, suffix: string)
  {
    |suffix| <= |s| && s[|s| - |suffix|..] == suffix
  }

  /** `pat` occurs in `s` starting at position `k`. */
  predicate OccursAt(s: string, pat: string, k: nat)
  {
    k + |pat| <= |s| && s[k..k + |pat|] == pat
  }

  /** `s.replace(pat, "")`: every leftmost, non-overlapping occurrence of `pat` removed. */
  function RemoveAll(s: string, pat: string): (r: string)
    requires |pat| > 0
    ensures |r| <= |s|
    decreases |s|
  {
    if |s| < |pat| then s
    else if s[..|pat|] == pat then RemoveAll(s[|pat|..], pat)
    else [s[0]] + RemoveAll(s[1..], pat)
  }

  /** Removal leaves a prefix alone when no occurrence of `pat` starts inside it. */
  lemma {:induction false} RemoveAllKeepsPrefix(x: string, y: string, pat: string)
    requires |pat| > 0
    requires forall k :: 0 <= k < |x| ==> !OccursAt(x + y, pat, k)
    ensures RemoveAll(x + y, pat) == x + RemoveAll(y, pat)
  {
    var s := x + y;
    if |x| == 0 {
      assert s == y;
    } else {
      assert !OccursAt(s, pat, 0);
      var t := s[1..];
      assert t == x[1..] + y;
      forall k | 0 <= k < |x| - 1
        ensures !OccursAt(t, pat, k)
      {
        ShiftOccurrence(s, pat, k);
      }
      RemoveAllKeepsPrefix(x[1..], y, pat);
      assert RemoveAll(s, pat) == [s[0]] + RemoveAll(t, pat);
    }
  }

  lemma ShiftOccurrence(s: string, pat: string, k: nat)
    requires |s| > 0
    ensures OccursAt(s[1..], pat, k) <==> OccursAt(s, pat, k + 1)
  {
    if k + |pat| <= |s| - 1 {
      assert s[1..][k..k + |pat|] == s[k + 1..k + 1 + |pat|];
    }
  }

  /** Python's `<` on strings: lexicographic order of code points. */
  predicate Less(a: string, b: string)
  {
    if |a| == 0 then |b| > 0
    else if |b| == 0 then false
    else if a[0] != b[0] then a[0] < b[0]
    else Less(a[1..], b[1..])
  }

  lemma {:induction false} LessIrreflexive(a: string)
    ensures !Less(a, a)
  {
    if |a| > 0 {
      LessIrreflexive(a[1..]);
    }
  }

  lemma {:induction false} LessAsymmetric(a: string, b: string)
    ensures !(Less(a, b) && Less(b, a))
  {
    if |a| > 0 && |b| > 0 && a[0] == b[0] {
      LessAsymmetric(a[1..], b[1..]);
    }
  }

  lemma {:induction false} LessTransitive(a: string, b: string, c: string)
    requires Less(a, b) && Less(b, c)
    ensures Less(a, c)
  {
    if |a| > 0 && |b| > 0 && |c| > 0 && a[0] == b[0] && b[0] == c[0] {
      LessTransitive(a[1..], b[1..], c[1..]);
    }
  }

  lemma {:induction false} LessTotal(a: string, b: string)
    requires a != b
    ensures Less(a, b) || Less(b, a)
  {
    if |a| > 0 && |b| > 0 && a[0] == b[0] {
      assert a == [a[0]] + a[1..] && b == [b[0]] + b[1..];
      LessTotal(a[1..], b[1..]);
    }
  }

  /** Strictly increasing in Python's string order (so also free of duplicates). */
  predicate StrictlySorted(s: seq<string>)
  {
    forall i, j :: 0 <= i < j < |s| ==> Less(s[i], s[j])
  }

  /** Inserts `x` into a strictly sorted sequence, keeping it strictly sorted. */
  function Insert(s: seq<string>, x: string): (r: seq<string>)
    requires StrictlySorted(s)
    ensures StrictlySorted(r)
    ensures forall y :: y in r <==> y in s || y == x
    ensures x !in s ==> |r| == |s| + 1
  {
    if |s| == 0 then [x]
    else if x == s[0] then s
    else if Less(x, s[0]) then
      forall j | 0 < j < |s| { LessTransitive(x, s[0], s[j]); }
      [x] + s
    else
      LessTotal(x, s[0]);
      var rest := Insert(s[1..], x);
      assert forall y :: y in rest ==> Less(s[0], y);
      [s[0]] + rest
  }

  /** Two strictly sorted sequences with the same elements are equal: `sorted` of a set is unique. */
  lemma {:induction false} SortedUnique(a: seq<string>, b: seq<string>)
    requires StrictlySorted(a) && StrictlySorted(b)
    requires forall y :: y in a <==> y in b
    ensures a == b
  {
    NonEmptyTogether(a, b);
    NonEmptyTogether(b, a);
    if |a| > 0 && |b| > 0 {
      assert a[0] in a && b[0] in b;
      if a[0] != b[0] {
        LessTotal(a[0], b[0]);
        if Less(a[0], b[0]) {
          var j :| 0 <= j < |a| && a[j] == b[0];
          LessIrreflexive(a[0]);
          LessAsymmetric(a[0], a[j]);
        }
      }
      TailSameElements(a, b);
      SortedUnique(a[1..], b[1..]);
    }
  }

  lemma NonEmptyTogether(a: seq<string>, b: seq<string>)
    requires forall y :: y in a <==> y in b
    ensures |a| > 0 ==> |b| > 0
  {
    if |a| > 0 {
      assert a[0] in a;
    }
  }

  lemma TailSameElements(a: seq<string>, b: seq<string>)
    requires StrictlySorted(a) && StrictlySorted(b) && |a| > 0 && |b| > 0 && a[0] == b[0]
    requires forall y :: y in a <==> y in b
    ensures forall y :: y in a[1..] <==> y in b[1..]
  {
    LessIrreflexive(a[0]);
    forall y | y in a[1..] ensures y in b[1..] {
      var i :| 1 <= i < |a| && a[i] == y;
      assert a[i] in a;
      var j :| 0 <= j < |b| && b[j] == y;
      assert j != 0;
      assert b[1..][j - 1] == y;
    }
    forall y | y in b[1..] ensures y in a[1..] {
      var i :| 1 <= i < |b| && b[i] == y;
      assert b[i] in b;
      var j :| 0 <= j < |a| && a[j] == y;
      assert j != 0;
      assert a[1..][j - 1] == y;
    }
  }

  /** The strictly sorted sequence of a set of names: what `sorted` returns for it. */
  ghost function SortedSeq(names: set<string>): (r: seq<string>)
    ensures StrictlySorted(r)
    ensures forall y :: y in r <==> y in names
    ensures |r| == |names|
    decreases names
  {
    if names == {} then []
    else
      var x :| x in names;
      Insert(SortedSeq(names - {x}), x)
  }

  /** Python's `sorted(names)` for a collection of distinct strings. */
  method SortedNames(names: set<string>) returns (r: seq<string>)
    ensures r == SortedSeq(names)
  {
    r := [];
    var rest := names;
    while rest != {}
      invariant rest <= names
      invariant StrictlySorted(r)
      invariant forall y :: y in r <==> y in names && y !in rest
      decreases rest
    {
      var x :| x in rest;
      r := Insert(r, x);
      rest := rest - {x};
    }
    SortedUnique(r, SortedSeq(names));
  }
}
