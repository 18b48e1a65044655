/** The few `java.lang.String` operations the services rely on: `isBlank`,
    `trim`, `toUpperCase`/`toLowerCase`, `equalsIgnoreCase` and
    `replace` of one character by nothing. Case mapping is modelled for
    the ASCII letters only. */
module JavaText {

  /** `Character.isWhitespace`: the ASCII controls TAB..CR and FS..US, the
      space, and the Unicode space, line and paragraph separators other than
      the no-break spaces U+00A0, U+2007 and U+202F. */
  predicate IsWhitespace(c: char) {
    var n := c as int;
    || n == 0x20
    || 0x09 <= n <= 0x0D
    || 0x1C <= n <= 0x1F
    || n == 0x1680
    || 0x2000 <= n <= 0x2006
    || 0x2008 <= n <= 0x200A
    || n == 0x2028 || n == 0x2029 || n == 0x205F || n == 0x3000
  }

  /** `String.isBlank`: empty, or whitespace only. Every ASCII character
      of a blank string is one that `trim` cuts. */
  predicate IsBlank(s: string)
    ensures s == [] ==> IsBlank(s)
    ensures IsBlank(s) ==> forall i | 0 <= i < |s| && s[i] as int <= 0x7F :: Trimmable(s[i])
  {
    forall i | 0 <= i < |s| :: IsWhitespace(s[i])
  }

  /** `String.trim` removes every leading and trailing character whose code
      point is at most U+0020. */
  predicate Trimmable(c: char) {
    c <= ' '
  }

  /** Every character of `p` is trimmable. */
  predicate AllTrimmable(p: string) {
    forall k | 0 <= k < |p| :: Trimmable(p[k])
  }

  /** `s[i..j]` is what is left of `s` once trimmable characters only are
      cut from its front (the first `i`) and its back (from `j` on). */
  predicate TrimsTo(s: string, i: int, j: int) {
    0 <= i <= j <= |s| && AllTrimmable(s[..i]) && AllTrimmable(s[j..])
  }

  function TrimStart(s: string): (r: string)
    ensures |r| <= |s| && r == s[|s| - |r|..]
    ensures forall i | 0 <= i < |s| - |r| :: Trimmable(s[i])
    ensures r == [] || !Trimmable(r[0])
  {
    if s != [] && Trimmable(s[0]) then TrimStart(s[1..]) else s
  }

  function TrimEnd(s: string): (r: string)
    ensures |r| <= |s| && r == s[..|r|]
    ensures forall i | |r| <= i < |s| :: Trimmable(s[i])
    ensures r == [] || !Trimmable(r[|r| - 1])
  {
    if s != [] && Trimmable(s[|s| - 1]) then TrimEnd(s[..|s| - 1]) else s
  }

  /** `TrimStart` cuts a trimmable prefix. */
  lemma TrimStartCut(s: string)
    ensures AllTrimmable(s[..|s| - |TrimStart(s)|])
  {
    var p := s[..|s| - |TrimStart(s)|];
    assert forall k | 0 <= k < |p| :: p[k] == s[k];
  }

  /** `TrimEnd` cuts a trimmable suffix. */
  lemma TrimEndCut(t: string)
    ensures AllTrimmable(t[|TrimEnd(t)|..])
  {
    var q := t[|TrimEnd(t)|..];
    assert forall k | 0 <= k < |q| :: q[k] == t[|TrimEnd(t)| + k];
  }

  /** A trimmable prefix cut, then a trimmable suffix cut of what is left,
      is one slice of the whole cut at trimmable characters only. */
  lemma CutTwice(s: string, i: int, t: string, r: string)
    requires 0 <= i <= |s| && t == s[i..] && |r| <= |t| && r == t[..|r|]
    requires AllTrimmable(s[..i]) && AllTrimmable(t[|r|..])
    ensures TrimsTo(s, i, i + |r|) && r == s[i..i + |r|]
  {
    assert s[i + |r|..] == t[|r|..];
  }

  /** `String.trim`. */
  function Trim(s: string): (r: string)
    ensures |r| <= |s|
    ensures r == [] || (!Trimmable(r[0]) && !Trimmable(r[|r| - 1]))
    ensures forall c | c in r :: c in s
  {
    var t := TrimStart(s);
    assert forall c | c in t :: c in s;
    TrimEnd(t)
  }

  /** `trim` answers a slice of its input cut at trimmable characters only;
      with the contract of `Trim` (the slice neither starts nor ends with a
      trimmable character) this pins the result down completely. */
  lemma TrimIsSlice(s: string)
    ensures exists i, j :: TrimsTo(s, i, j) && Trim(s) == s[i..j]
  {
    var t := TrimStart(s);
    TrimStartCut(s);
    TrimEndCut(t);
    CutTwice(s, |s| - |t|, t, Trim(s));
  }

  /** `Character.toUpperCase` on the ASCII letters; other characters are kept. */
  function UpperChar(c: char): char {
    if 'a' <= c <= 'z' then (c as int - 32) as char else c
  }

  /** `Character.toLowerCase` on the ASCII letters; other characters are kept. */
  function LowerChar(c: char): char {
    if 'A' <= c <= 'Z' then (c as int + 32) as char else c
  }

  /** `String.toUpperCase`. */
  function ToUpper(s: string): (r: string)
    ensures |r| == |s|
    ensures forall i | 0 <= i < |s| :: r[i] == UpperChar(s[i])
  {
    seq(|s|, i requires 0 <= i < |s| => UpperChar(s[i]))
  }

  /** `String.toLowerCase`. */
  function ToLower(s: string): (r: string)
    ensures |r| == |s|
    ensures forall i | 0 <= i < |s| :: r[i] == LowerChar(s[i])
  {
    seq(|s|, i requires 0 <= i < |s| => LowerChar(s[i]))
  }

  /** `String.equalsIgnoreCase`: same length and, position by position, the
      same character once both are upper-cased. */
  predicate EqualsIgnoreCase(a: string, b: string)
    ensures a == b ==> EqualsIgnoreCase(a, b)
    ensures EqualsIgnoreCase(a, b) ==> |a| == |b|
  {
    |a| == |b| && forall i | 0 <= i < |a| :: UpperChar(a[i]) == UpperChar(b[i])
  }

  /** Two texts are equal ignoring case exactly when their upper cases are
      equal. */
  lemma EqualsIgnoreCaseIff(a: string, b: string)
    ensures EqualsIgnoreCase(a, b) <==> ToUpper(a) == ToUpper(b)
  {
    if ToUpper(a) == ToUpper(b) {
      forall i | 0 <= i < |a| ensures UpperChar(a[i]) == UpperChar(b[i]) {
        assert ToUpper(a)[i] == ToUpper(b)[i];
      }
    }
  }

  /** `s.replace(String.valueOf(c), "")`: every occurrence of `c` removed,
      the other characters kept in order. */
  function RemoveAll(s: string, c: char): (r: string)
    ensures c !in r
    ensures |r| <= |s|
    ensures c !in s ==> r == s
  {
    if s == [] then []
    else if s[0] == c then RemoveAll(s[1..], c)
    else [s[0]] + RemoveAll(s[1..], c)
  }

  lemma {:induction false} RemoveAllAppend(a: string, b: string, c: char)
    ensures RemoveAll(a + b, c) == RemoveAll(a, c) + RemoveAll(b, c)
  {
    if a != [] {
      assert (a + b)[1..] == a[1..] + b;
      RemoveAllAppend(a[1..], b, c);
    } else {
      assert a + b == b;
    }
  }

  /** A string whose ends are not trimmable is its own trim. */
  lemma TrimKeeps(s: string)
    requires s == [] || (!Trimmable(s[0]) && !Trimmable(s[|s| - 1]))
    ensures Trim(s) == s
  {
  }

  /** `trim` skips any run of trimmable characters in front of a string
      that does not start with one. */
  lemma {:induction false} TrimStartSkips(p: string, t: string)
    requires AllTrimmable(p)
    requires t == [] || !Trimmable(t[0])
    ensures TrimStart(p + t) == t
  {
    if p == [] {
      assert p + t == t;
    } else {
      assert (p + t)[1..] == p[1..] + t;
      TrimStartSkips(p[1..], t);
    }
  }

  /** `trim` drops any run of trimmable characters behind a string that
      does not end with one. */
  lemma {:induction false} TrimEndSkips(t: string, q: string)
    requires AllTrimmable(q)
    requires t == [] || !Trimmable(t[|t| - 1])
    ensures TrimEnd(t + q) == t
  {
    if q == [] {
      assert t + q == t;
    } else {
      assert (t + q)[..|t + q| - 1] == t + q[..|q| - 1];
      TrimEndSkips(t, q[..|q| - 1]);
    }
  }

  /** Any trimmable padding around a word whose ends are not trimmable is
      removed by `trim`, and nothing more. */
  lemma TrimPadded(p: string, w: string, q: string)
    requires AllTrimmable(p) && AllTrimmable(q)
    requires w != [] && !Trimmable(w[0]) && !Trimmable(w[|w| - 1])
    ensures Trim(p + w + q) == w
  {
    assert p + w + q == p + (w + q);
    TrimStartSkips(p, w + q);
    TrimEndSkips(w, q);
  }

  /** Upper-casing keeps every character above U+0020 above it, so a
      string whose ends are not trimmable keeps them so. */
  lemma ToUpperKeepsEnds(s: string)
    requires s == [] || (!Trimmable(s[0]) && !Trimmable(s[|s| - 1]))
    ensures var u := ToUpper(s);
            u == [] || (!Trimmable(u[0]) && !Trimmable(u[|u| - 1]))
  {
  }

  /** Upper-casing twice is upper-casing once. */
  lemma ToUpperIdempotent(s: string)
    ensures ToUpper(ToUpper(s)) == ToUpper(s)
  {
  }

  /** Against an upper-case string, `equalsIgnoreCase` of an upper-cased
      string is plain equality. */
  lemma EqualsIgnoreCaseOfUpper(a: string, b: string)
    requires ToUpper(b) == b
    ensures EqualsIgnoreCase(ToUpper(a), b) <==> ToUpper(a) == b
  {
    if EqualsIgnoreCase(ToUpper(a), b) {
      forall i | 0 <= i < |b| ensures ToUpper(a)[i] == b[i] {
        assert UpperChar(ToUpper(a)[i]) == UpperChar(b[i]);
      }
    }
  }

  /** A blank string does not start with an ASCII character once trimmed:
      `trim` removes the whitespace at or below U+0020, and what can
      remain in front is a Unicode space, which case mapping leaves alone. */
  lemma TrimmedBlankStartsNonAscii(s: string)
    requires IsBlank(s)
    ensures var t := ToUpper(Trim(s));
            t == [] || t[0] as int > 0x7F
  {
    var r := Trim(s);
    if r != [] {
      assert r[0] in s;
    }
  }
}
