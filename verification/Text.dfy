/** Strings as the two languages see them: code-point order, trimming, decimal digits. */
module Text {

  // ----- Order -----

  /** Python's < on str: lexicographic by code point. */
  predicate Before(a: string, b: string) {
    b != [] && (a == [] || a[0] < b[0] || (a[0] == b[0] && Before(a[1..], b[1..])))
  }

  lemma {:induction false} BeforeTrans(a: string, b: string, c: string)
    requires Before(a, b) && Before(b, c)
    ensures Before(a, c)
  {
    if a != [] && a[0] == b[0] && b[0] == c[0] {
      BeforeTrans(a[1..], b[1..], c[1..]);
    }
  }

  lemma {:induction false} BeforeTotal(a: string, b: string)
    ensures a == b || Before(a, b) || Before(b, a)
    ensures !(Before(a, b) && Before(b, a)) && !Before(a, a)
  {
    if a != [] && b != [] && a[0] == b[0] {
      BeforeTotal(a[1..], b[1..]);
      assert a == [a[0]] + a[1..] && b == [b[0]] + b[1..];
    }
    if a != [] {
      BeforeTotal(a[1..], a[1..]);
    }
  }

  /** a and b agree on their first k characters, and there a ends or has the smaller character. */
  predicate DiffersAt(a: string, b: string, k: int) {
    0 <= k <= |a| && k < |b| && a[..k] == b[..k] && (k == |a| || a[k] < b[k])
  }

  lemma {:induction false} BeforeMeans(a: string, b: string)
    ensures Before(a, b) <==> exists k :: DiffersAt(a, b, k)
  {
    if b != [] && (a == [] || a[0] < b[0]) {
      assert DiffersAt(a, b, 0);
    } else if b != [] && a[0] == b[0] {
      BeforeMeans(a[1..], b[1..]);
      if Before(a[1..], b[1..]) {
        var k :| DiffersAt(a[1..], b[1..], k);
        assert a[..k + 1] == [a[0]] + a[1..][..k] && b[..k + 1] == [b[0]] + b[1..][..k];
        assert DiffersAt(a, b, k + 1);
      }
      if k :| DiffersAt(a, b, k) {
        assert k > 0;
        assert a[1..][..k - 1] == a[..k][1..] && b[1..][..k - 1] == b[..k][1..];
        assert DiffersAt(a[1..], b[1..], k - 1);
      }
    } else if b != [] {
      forall k ensures !DiffersAt(a, b, k) {
        if 0 < k <= |a| && k < |b| {
          assert a[..k][0] == a[0] && b[..k][0] == b[0];
        }
      }
    }
  }

  // ----- Trimming -----

  /** What Go's strings.TrimSpace removes: the Unicode White_Space characters. */
  predicate GoSpace(c: char) {
    || '\U{09}' <= c <= '\U{0D}' || c == ' ' || c == '\U{85}' || c == '\U{A0}' || c == '\U{1680}'
    || '\U{2000}' <= c <= '\U{200A}' || c == '\U{2028}' || c == '\U{2029}' || c == '\U{202F}'
    || c == '\U{205F}' || c == '\U{3000}'
  }

  /** The four separators that Python's str.strip removes and Go's TrimSpace keeps. */
  predicate Separator(c: char) {
    '\U{1C}' <= c <= '\U{1F}'
  }

  predicate PySpace(c: char) {
    GoSpace(c) || Separator(c)
  }

  /** The first position from i on that is not a space. */
  function LeftEdge(s: string, space: char -> bool, i: nat): (l: nat)
    requires i <= |s|
    ensures i <= l <= |s|
    ensures forall k :: i <= k < l ==> space(s[k])
    ensures l < |s| ==> !space(s[l])
    decreases |s| - i
  {
    if i < |s| && space(s[i]) then LeftEdge(s, space, i + 1) else i
  }

  /** The position after the last character in s[i..j] that is not a space. */
  function RightEdge(s: string, space: char -> bool, i: nat, j: nat): (r: nat)
    requires i <= j <= |s|
    ensures i <= r <= j
    ensures forall k :: r <= k < j ==> space(s[k])
    ensures i < r ==> !space(s[r - 1])
    decreases j
  {
    if i < j && space(s[j - 1]) then RightEdge(s, space, i, j - 1) else j
  }

  function Trim(s: string, space: char -> bool): string {
    var l := LeftEdge(s, space, 0);
    s[l..RightEdge(s, space, l, |s|)]
  }

  /** str.strip() */
  function Strip(s: string): string {
    Trim(s, PySpace)
  }

  /** strings.TrimSpace */
  function TrimSpace(s: string): string {
    Trim(s, GoSpace)
  }

  predicate Blank(s: string) {
    Strip(s) == []
  }

  /** A trim is a slice with solid ends; only spaces lie outside it. */
  lemma TrimShape(s: string, space: char -> bool) returns (i: nat, j: nat)
    ensures i <= j <= |s| && Trim(s, space) == s[i..j]
    ensures forall k :: 0 <= k < i || j <= k < |s| ==> space(s[k])
    ensures i < j ==> !space(s[i]) && !space(s[j - 1])
  {
    i := LeftEdge(s, space, 0);
    j := RightEdge(s, space, i, |s|);
  }

  /** There is only one such slice. */
  lemma TrimUnique(s: string, space: char -> bool, i: nat, j: nat)
    requires i < j <= |s|
    requires forall k :: 0 <= k < i || j <= k < |s| ==> space(s[k])
    requires !space(s[i]) && !space(s[j - 1])
    ensures Trim(s, space) == s[i..j]
  {
    var a, b := TrimShape(s, space);
  }

  /** What Python strips has solid ends, in Python's sense. */
  lemma StripEnds(s: string)
    ensures Strip(s) != [] ==> !PySpace(Strip(s)[0]) && !PySpace(Strip(s)[|Strip(s)| - 1])
  {
    hide PySpace;
    var a, b := TrimShape(s, PySpace);
  }

  /** All of a string that Go trims to nothing is space to Python too. */
  lemma GoBlankIsBlank(s: string)
    requires TrimSpace(s) == []
    ensures Strip(s) == []
  {
    var i, j := TrimShape(s, GoSpace);
    assert forall k :: 0 <= k < |s| ==> GoSpace(s[k]);
    StripEnds(s);
    var a, b := TrimShape(s, PySpace);
    hide GoSpace, Separator;
    assert a < b ==> PySpace(s[a]);
  }

  lemma SolidEndsAgree(s: string)
    requires var g := TrimSpace(s); g != [] && !Separator(g[0]) && !Separator(g[|g| - 1])
    ensures Strip(s) == TrimSpace(s)
  {
    var i, j := TrimShape(s, GoSpace);
    hide GoSpace, Separator;
    assert TrimSpace(s)[0] == s[i] && TrimSpace(s)[|TrimSpace(s)| - 1] == s[j - 1];
    TrimUnique(s, PySpace, i, j);
  }

  /** The two languages trim a string alike exactly when Go leaves no separator at either end. */
  lemma TrimsAgree(s: string)
    ensures Strip(s) == TrimSpace(s) <==>
      var g := TrimSpace(s); g == [] || (!Separator(g[0]) && !Separator(g[|g| - 1]))
  {
    var g := TrimSpace(s);
    StripEnds(s);
    hide GoSpace, Strip, TrimSpace;
    if g == [] {
      GoBlankIsBlank(s);
    } else if !Separator(g[0]) && !Separator(g[|g| - 1]) {
      SolidEndsAgree(s);
    }
  }

  // ----- Decimal numbers -----

  function Digit(d: nat): (c: char)
    requires d < 10
    ensures '0' <= c <= '9' && c != ':'
    ensures c as int == d + '0' as int
  {
    (d + '0' as int) as char
  }

  function Decimal(n: nat): (s: string)
    ensures s != [] && forall i :: 0 <= i < |s| ==> s[i] != ':'
  {
    if n < 10 then [Digit(n)] else Decimal(n / 10) + [Digit(n % 10)]
  }

  /** Reading digits back, most significant first. */
  function Value(s: string): int {
    if s == [] then 0 else Value(s[..|s| - 1]) * 10 + (s[|s| - 1] as int - '0' as int)
  }

  lemma {:induction false} DecimalValue(n: nat)
    ensures Value(Decimal(n)) == n
  {
    var s := Decimal(n);
    if n < 10 {
      assert s == [Digit(n)] && s[..0] == [];
      assert Value(s) == Value(s[..0]) * 10 + n;
    } else {
      DecimalValue(n / 10);
      assert s[..|s| - 1] == Decimal(n / 10);
    }
  }

  lemma {:induction false} DecimalInjective(m: nat, n: nat)
    requires Decimal(m) == Decimal(n)
    ensures m == n
    decreases m
  {
    var s := Decimal(m);
    assert s[|s| - 1] == Digit(m % 10) == Digit(n % 10);
    assert m < 10 <==> |s| == 1;
    assert n < 10 <==> |s| == 1;
    if m >= 10 {
      assert Decimal(m / 10) == s[..|s| - 1] == Decimal(n / 10);
      DecimalInjective(m / 10, n / 10);
    }
  }

  /** Text after the last colon is determined. */
  lemma LastColon(a: string, x: string, b: string, y: string)
    requires a + ":" + x == b + ":" + y
    requires forall i :: 0 <= i < |x| ==> x[i] != ':'
    requires forall i :: 0 <= i < |y| ==> y[i] != ':'
    ensures a == b && x == y
  {
    var s := a + ":" + x;
    assert forall k :: |a| < k < |s| ==> s[k] == x[k - |a| - 1];
    assert forall k :: |b| < k < |s| ==> s[k] == y[k - |b| - 1];
    assert s[|a|] == ':' && s[|b|] == ':';
    assert a == s[..|a|] && b == s[..|b|];
    assert x == s[|a| + 1..] && y == s[|b| + 1..];
  }
}
