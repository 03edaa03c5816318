/** The few string operations of the Go standard library that the operator relies on. */
module Strings {

  function Lower(c: char): char {
    if 'A' <= c <= 'Z' then c - 'A' + 'a' else c
  }

  /** Lower case, over ASCII letters. */
  function ToLower(s: string): string {
    seq(|s|, i requires 0 <= i < |s| => Lower(s[i]))
  }

  /** `t` is `s` with code points 65 to 90 moved up by 32. */
  predicate Lowered(s: string, t: string) {
    && |t| == |s|
    && forall i | 0 <= i < |s| ::
         t[i] as int == if 65 <= s[i] as int <= 90 then s[i] as int + 32 else s[i] as int
  }

  lemma ToLowerIs(s: string)
    ensures Lowered(s, ToLower(s))
    ensures forall c | c in ToLower(s) :: !(65 <= c as int <= 90)
  {
    forall i | 0 <= i < |s|
      ensures ToLower(s)[i] as int == if 65 <= s[i] as int <= 90 then s[i] as int + 32 else s[i] as int
    {
      assert ToLower(s)[i] == Lower(s[i]);
    }
  }

  lemma ToLowerConcat(a: string, b: string)
    ensures ToLower(a + b) == ToLower(a) + ToLower(b)
  {
  }

  lemma ToLowerKeeps(s: string, c: char)
    requires !('a' <= c <= 'z')
    requires c !in s
    ensures c !in ToLower(s)
  {
    forall i | 0 <= i < |s|
      ensures ToLower(s)[i] != c
    {
      assert s[i] in s;
    }
  }

  /** Where a separator that occurs in neither head first appears is fixed by the whole. */
  lemma CutUnique(a: string, x: string, b: string, y: string, sep: char)
    requires sep !in a && sep !in b
    requires a + [sep] + x == b + [sep] + y
    ensures a == b && x == y
  {
    var s := a + [sep] + x;
    assert s[|a|] == sep && s[|b|] == sep;
    assert forall i | 0 <= i < |a| :: s[i] == a[i] && a[i] != sep;
    assert forall i | 0 <= i < |b| :: s[i] == b[i] && b[i] != sep;
    assert |a| == |b|;
    assert a == s[..|a|] == s[..|b|] == b;
    assert x == s[|a| + 1..] == s[|b| + 1..] == y;
  }

  // ---------- splitting ----------

  /** Where a character first occurs, or the length of the string. */
  function IndexOf(s: string, c: char): (i: nat)
    ensures i <= |s| && c !in s[..i] && (i < |s| ==> s[i] == c)
  {
    if s == [] || s[0] == c then 0
    else
      var j := IndexOf(s[1..], c);
      assert s[..j + 1] == [s[0]] + s[1..][..j];
      j + 1
  }

  function Split(s: string, sep: char): (parts: seq<string>)
    ensures |parts| > 0
    decreases s
  {
    var i := IndexOf(s, sep);
    if i == |s| then [s] else [s[..i]] + Split(s[i + 1..], sep)
  }

  function Count(s: string, c: char): nat {
    if s == [] then 0 else (if s[0] == c then 1 else 0) + Count(s[1..], c)
  }

  lemma {:induction false} CountConcat(a: string, b: string, c: char)
    ensures Count(a + b, c) == Count(a, c) + Count(b, c)
  {
    if a == [] {
      assert a + b == b;
    } else {
      assert (a + b)[1..] == a[1..] + b;
      CountConcat(a[1..], b, c);
    }
  }

  lemma {:induction false} CountZero(s: string, c: char)
    ensures Count(s, c) == 0 <==> c !in s
  {
    if s != [] {
      CountZero(s[1..], c);
    }
  }

  lemma SplitAlone(s: string, sep: char)
    requires sep !in s
    ensures Split(s, sep) == [s]
  {
  }

  lemma SplitFirst(a: string, b: string, sep: char)
    requires sep !in a
    ensures Split(a + [sep] + b, sep) == [a] + Split(b, sep)
  {
    var s := a + [sep] + b;
    var i := IndexOf(s, sep);
    assert forall k | 0 <= k < |a| :: s[k] == a[k] && a[k] != sep;
    assert forall k | 0 <= k < i :: s[..i][k] == s[k];
    assert s[|a|] == sep;
    assert i == |a|;
    assert s[..i] == a && s[i + 1..] == b;
  }

  lemma {:induction false} SplitLength(s: string, sep: char)
    ensures |Split(s, sep)| == 1 + Count(s, sep)
    decreases s
  {
    var i := IndexOf(s, sep);
    CountZero(s[..i], sep);
    if i < |s| {
      assert s == s[..i] + ([sep] + s[i + 1..]);
      CountConcat(s[..i], [sep] + s[i + 1..], sep);
      assert ([sep] + s[i + 1..])[1..] == s[i + 1..];
      SplitLength(s[i + 1..], sep);
    } else {
      assert s[..i] == s;
    }
  }

  lemma {:induction false} SplitPartsFree(s: string, sep: char)
    ensures forall part | part in Split(s, sep) :: sep !in part
    decreases s
  {
    var i := IndexOf(s, sep);
    if i < |s| {
      SplitPartsFree(s[i + 1..], sep);
    } else {
      assert s[..i] == s;
    }
  }

  // ---------- trimming ----------

  const SPACES: set<char> := {'\t', '\n', '\U{0B}', '\U{0C}', '\r', ' ', '\U{85}', '\U{A0}', '\U{1680}',
    '\U{2000}', '\U{2001}', '\U{2002}', '\U{2003}', '\U{2004}', '\U{2005}', '\U{2006}', '\U{2007}',
    '\U{2008}', '\U{2009}', '\U{200A}', '\U{2028}', '\U{2029}', '\U{202F}', '\U{205F}', '\U{3000}'}

  /** Go's Unicode spaces, by code point. */
  lemma SpacesAre(c: char)
    ensures c in SPACES <==>
              var n := c as int;
              9 <= n <= 13 || n == 32 || n == 0x85 || n == 0xA0 || n == 0x1680 || 0x2000 <= n <= 0x200A
              || n == 0x2028 || n == 0x2029 || n == 0x202F || n == 0x205F || n == 0x3000
  {
  }

  function TrimLeft(s: string, cut: set<char>): string {
    if s != [] && s[0] in cut then TrimLeft(s[1..], cut) else s
  }

  function TrimRight(s: string, cut: set<char>): string {
    if s != [] && s[|s| - 1] in cut then TrimRight(s[..|s| - 1], cut) else s
  }

  function Trim(s: string, cut: set<char>): string {
    TrimRight(TrimLeft(s, cut), cut)
  }

  function TrimSpace(s: string): string {
    Trim(s, SPACES)
  }

  /** Neither end is to be cut. */
  predicate Bare(s: string, cut: set<char>) {
    s != [] ==> s[0] !in cut && s[|s| - 1] !in cut
  }

  lemma {:induction false} TrimLeftSuffix(s: string, cut: set<char>)
    ensures |TrimLeft(s, cut)| <= |s| && TrimLeft(s, cut) == s[|s| - |TrimLeft(s, cut)|..]
  {
    if s != [] && s[0] in cut {
      TrimLeftSuffix(s[1..], cut);
    }
  }

  lemma {:induction false} TrimRightPrefix(s: string, cut: set<char>)
    ensures |TrimRight(s, cut)| <= |s| && TrimRight(s, cut) == s[..|TrimRight(s, cut)|]
  {
    if s != [] && s[|s| - 1] in cut {
      TrimRightPrefix(s[..|s| - 1], cut);
    }
  }

  /** Trimming changes nothing exactly when there is nothing to cut at either end. */
  lemma TrimIdentity(s: string, cut: set<char>)
    ensures Trim(s, cut) == s <==> Bare(s, cut)
    ensures |Trim(s, cut)| <= |s| && (|Trim(s, cut)| == |s| ==> Trim(s, cut) == s)
    ensures forall c | c in Trim(s, cut) :: c in s
  {
    TrimLeftSuffix(s, cut);
    TrimRightPrefix(TrimLeft(s, cut), cut);
    if s != [] && s[0] in cut {
      TrimLeftSuffix(s[1..], cut);
    } else if s != [] && s[|s| - 1] in cut {
      TrimRightPrefix(s[..|s| - 1], cut);
    }
  }

  lemma {:induction false} TrimLeftEnd(s: string, d: char, cut: set<char>)
    requires d in cut
    ensures TrimRight(TrimLeft(s + [d], cut), cut) == TrimRight(TrimLeft(s, cut), cut)
  {
    if s == [] {
      assert s + [d] == [d];
      assert [d][1..] == [];
    } else if s[0] in cut {
      assert (s + [d])[1..] == s[1..] + [d];
      TrimLeftEnd(s[1..], d, cut);
    } else {
      assert (s + [d])[..|s|] == s;
    }
  }

  lemma TrimLead(c: char, s: string, cut: set<char>)
    requires c in cut
    ensures Trim([c] + s, cut) == Trim(s, cut)
  {
    assert ([c] + s)[1..] == s;
  }

  /** What is added at the ends from the cut set is cut off again. */
  lemma TrimWrapped(c: char, s: string, d: char, cut: set<char>)
    requires c in cut && d in cut
    ensures Trim([c] + s + [d], cut) == Trim(s, cut)
  {
    assert ([c] + s + [d])[1..] == s + [d];
    TrimLeftEnd(s, d, cut);
  }
}
