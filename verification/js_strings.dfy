/**
 * The few JavaScript string operations the application relies on:
 * `indexOf`/`includes`, `trim` (to decide whether the prompt is blank) and
 * `length` (counted in UTF-16 code units). A JavaScript string is modelled as
 * a sequence of Unicode code points.
 */
module JsStrings {
  import opened Wrappers

  /** Pattern `p` occurs in `s` starting at index `i`. */
  predicate Occurs(s: string, p: string, i: int) {
    0 <= i && i + |p| <= |s| && s[i..i + |p|] == p
  }

  /** `s.indexOf(p, from)`: the first occurrence of `p` at or after `from`. */
  function IndexOf(s: string, p: string, from: nat): (r: Option<nat>)
    decreases |s| - from
    ensures r.Some? ==> from <= r.value && Occurs(s, p, r.value)
    ensures r.Some? ==> forall j :: from <= j < r.value ==> !Occurs(s, p, j)
    ensures r.None? ==> forall j :: from <= j ==> !Occurs(s, p, j)
  {
    if from + |p| > |s| then None
    else if s[from..from + |p|] == p then Some(from)
    else IndexOf(s, p, from + 1)
  }

  /** An occurrence at `i` with none between `from` and `i` is the one `indexOf` finds. */
  lemma IndexOfFirst(s: string, p: string, from: nat, i: nat)
    requires from <= i && Occurs(s, p, i)
    requires forall j :: from <= j < i ==> !Occurs(s, p, j)
    ensures IndexOf(s, p, from) == Some(i)
  {
  }

  /** `s.includes(p)`: holds exactly when `p` occurs somewhere in `s`. */
  predicate Includes(s: string, p: string): (b: bool)
    ensures b <==> exists i :: Occurs(s, p, i)
  {
    var r := IndexOf(s, p, 0);
    assert r.Some? ==> Occurs(s, p, r.value);
    r.Some?
  }

  /** A string that has `p` written inside it includes `p`. */
  lemma IncludesInfix(a: string, p: string, b: string)
    ensures Includes(a + p + b, p)
  {
    var s := a + p + b;
    assert s[|a|..|a| + |p|] == p;
    assert Occurs(s, p, |a|);
  }

  /** An occurrence lying wholly inside the prefix `s` is unaffected by what follows. */
  lemma OccursInPrefix(s: string, t: string, p: string, i: int)
    requires i + |p| <= |s|
    ensures Occurs(s + t, p, i) <==> Occurs(s, p, i)
  {
    if 0 <= i {
      assert (s + t)[i..i + |p|] == s[i..i + |p|];
    }
  }

  /** Occurrences in the suffix `t` are those of `s + t` shifted by `|s|`. */
  lemma OccursInSuffix(s: string, t: string, p: string, i: nat)
    ensures Occurs(s + t, p, |s| + i) <==> Occurs(t, p, i)
  {
    if i + |p| <= |t| {
      assert (s + t)[|s| + i..|s| + i + |p|] == t[i..i + |p|];
    }
  }

  /** Appending text cannot change a search that already succeeded. */
  lemma {:induction false} IndexOfExtend(s: string, t: string, p: string, from: nat)
    requires IndexOf(s, p, from).Some?
    ensures IndexOf(s + t, p, from) == IndexOf(s, p, from)
    decreases |s| - from
  {
    OccursInPrefix(s, t, p, from);
    if !Occurs(s, p, from) {
      IndexOfExtend(s, t, p, from + 1);
    }
  }

  /** The characters `String.prototype.trim` removes: WhiteSpace and LineTerminator of ECMA-262. */
  predicate IsSpace(c: char) {
    || c == '\t' || c == '\n' || c == '\U{000B}' || c == '\U{000C}' || c == '\r' || c == ' '
    || c == '\U{00A0}' || c == '\U{1680}' || ('\U{2000}' <= c <= '\U{200A}')
    || c == '\U{2028}' || c == '\U{2029}' || c == '\U{202F}' || c == '\U{205F}'
    || c == '\U{3000}' || c == '\U{FEFF}'
  }

  /** Every character of `s` is white space. */
  ghost predicate AllSpace(s: string) {
    forall i :: 0 <= i < |s| ==> IsSpace(s[i])
  }

  /** The characters of `s` from `lo` up to `hi` are white space. */
  ghost predicate SpaceBetween(s: string, lo: int, hi: int) {
    forall k :: lo <= k < hi && 0 <= k < |s| ==> IsSpace(s[k])
  }

  /** `s` with leading white space removed. */
  function TrimStart(s: string): (r: string)
    ensures |r| <= |s| && r == s[|s| - |r|..]
    ensures SpaceBetween(s, 0, |s| - |r|)
    ensures r == [] <==> AllSpace(s)
    ensures r != [] ==> !IsSpace(r[0])
  {
    if s != [] && IsSpace(s[0]) then TrimStart(s[1..]) else s
  }

  /** `s` with trailing white space removed. */
  function TrimEnd(s: string): (r: string)
    ensures |r| <= |s| && r == s[..|r|]
    ensures SpaceBetween(s, |r|, |s|)
    ensures r == [] <==> AllSpace(s)
    ensures r != [] ==> !IsSpace(r[|r| - 1])
  {
    if s != [] && IsSpace(s[|s| - 1]) then TrimEnd(s[..|s| - 1]) else s
  }

  /**
   * A prefix `r` of a suffix `t` of `s`, where white space alone was cut
   * off on either side, is a slice of `s` with white space alone around it.
   */
  lemma SpaceAround(s: string, t: string, r: string)
    requires |t| <= |s| && t == s[|s| - |t|..] && SpaceBetween(s, 0, |s| - |t|)
    requires |r| <= |t| && r == t[..|r|] && SpaceBetween(t, |r|, |t|)
    ensures exists i :: (0 <= i && i + |r| <= |s| && r == s[i..i + |r|]
      && SpaceBetween(s, 0, i) && SpaceBetween(s, i + |r|, |s|))
  {
    var i := |s| - |t|;
    forall k | i + |r| <= k < |s|
      ensures IsSpace(s[k])
    {
      assert s[k] == t[k - i];
    }
    assert r == s[i..i + |r|];
  }

  /**
   * `s.trim()` is a slice of `s` with only white space before and after
   * it.
   */
  lemma TrimIsWindow(s: string)
    ensures exists i :: (0 <= i && i + |Trim(s)| <= |s| && Trim(s) == s[i..i + |Trim(s)|]
      && SpaceBetween(s, 0, i) && SpaceBetween(s, i + |Trim(s)|, |s|))
  {
    SpaceAround(s, TrimStart(s), Trim(s));
  }

  /** Trimming at both ends leaves nothing exactly when `s` is all white space. */
  lemma TrimEmpty(s: string)
    ensures TrimEnd(TrimStart(s)) == [] <==> AllSpace(s)
  {
    var t := TrimStart(s);
    if t == [] {
      assert AllSpace(s);
    }
  }

  /** Trimming at both ends leaves, when anything, a text that starts and ends with a character that is not white space. */
  lemma TrimEnds(s: string)
    ensures TrimEnd(TrimStart(s)) != [] ==>
      !IsSpace(TrimEnd(TrimStart(s))[0]) && !IsSpace(TrimEnd(TrimStart(s))[|TrimEnd(TrimStart(s))| - 1])
  {
    var t := TrimStart(s);
    var r := TrimEnd(t);
    if r != [] {
      assert r[0] == t[0];
    }
  }

  /**
   * `s.trim()`: the part of `s` between leading and trailing white space.
   * It is empty exactly when `s` is all white space, and otherwise starts
   * and ends with a character that is not.
   */
  function Trim(s: string): (r: string)
    ensures |r| <= |s|
    ensures r == [] <==> AllSpace(s)
    ensures r != [] ==> !IsSpace(r[0]) && !IsSpace(r[|r| - 1])
  {
    TrimEmpty(s);
    TrimEnds(s);
    TrimEnd(TrimStart(s))
  }

  /** `s.length`: the number of UTF-16 code units, two for a code point above U+FFFF. */
  function Utf16Length(s: string): (n: nat)
    ensures |s| <= n <= 2 * |s|
    ensures n == |s| <==> forall i :: 0 <= i < |s| ==> s[i] as int <= 0xFFFF
  {
    if s == [] then 0
    else (if s[0] as int > 0xFFFF then 2 else 1) + Utf16Length(s[1..])
  }

  /** A single code point takes two code units above U+FFFF and one otherwise. */
  lemma Utf16LengthOfChar(c: char)
    ensures Utf16Length([c]) == if c as int > 0xFFFF then 2 else 1
  {
    assert [c][1..] == [];
  }

  /** The code units of a concatenation are those of its parts. */
  lemma {:induction false} Utf16LengthConcat(a: string, b: string)
    ensures Utf16Length(a + b) == Utf16Length(a) + Utf16Length(b)
    decreases |a|
  {
    if a != [] {
      assert (a + b)[1..] == a[1..] + b;
      Utf16LengthConcat(a[1..], b);
    } else {
      assert a + b == b;
    }
  }
}
