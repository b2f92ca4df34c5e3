/**
 * The two pieces of Python's text conversion the bot relies on:
 * `int(s)` on a decimal string (how Etherscan's gas prices are read), and
 * `str(x)` / an f-string field on an `int` or on a price in tenths of a gwei
 * (how every number reaches the status line and the embed).
 */
module PyText {
  import opened Wrappers

  predicate IsDigit(c: char) { '0' <= c <= '9' }

  function DigitValue(c: char): (v: nat)
    requires IsDigit(c)
    ensures v < 10
  {
    c as int - '0' as int
  }

  function DigitChar(d: nat): (c: char)
    requires d < 10
    ensures IsDigit(c) && DigitValue(c) == d
  {
    ('0' as int + d) as char
  }

  /**
   * The whitespace `int()` strips from both ends: the ASCII tab, line feed,
   * vertical tab, form feed, carriage return and space, and every non-ASCII
   * character `str.isspace()` accepts. The ASCII separators U+001C to U+001F,
   * which `str.isspace()` also accepts, are not stripped: `int()` rejects them.
   */
  predicate IsPySpace(c: char) {
    ('\t' <= c <= '\r') || c == ' ' || c == '\U{85}' || c == '\U{A0}'
    || c == '\U{1680}' || ('\U{2000}' <= c <= '\U{200A}') || c == '\U{2028}' || c == '\U{2029}'
    || c == '\U{202F}' || c == '\U{205F}' || c == '\U{3000}'
  }

  predicate AllSpace(s: string) {
    forall i :: 0 <= i < |s| ==> IsPySpace(s[i])
  }

  /** The characters a string accepted by `int()` in base 10 may contain. */
  predicate IsLiteralChar(c: char) {
    IsDigit(c) || IsPySpace(c) || c == '+' || c == '-' || c == '_'
  }

  // ---------------------------------------------------------------------------
  // str() of an integer

  /** The decimal digits of `n`, most significant first, without leading zeros. */
  function ShowNat(n: nat): (s: string)
    ensures |s| > 0
    ensures forall i :: 0 <= i < |s| ==> IsDigit(s[i])
  {
    if n < 10 then [DigitChar(n)] else ShowNat(n / 10) + [DigitChar(n % 10)]
  }

  /** Python's `str(n)` for an `int`. */
  function ShowInt(n: int): (s: string)
    ensures |s| > 0 && (IsDigit(s[0]) || s[0] == '-') && IsDigit(s[|s| - 1])
    ensures forall i :: 0 < i < |s| ==> IsDigit(s[i])
    ensures (s[0] == '-') == (n < 0)
  {
    if n < 0 then "-" + ShowNat(-n) else ShowNat(n)
  }

  // ---------------------------------------------------------------------------
  // int() of a string

  /** The body of a base-10 literal: digits, with single underscores allowed between digits. */
  predicate IsDigitGroups(s: string) {
    |s| > 0 && IsDigit(s[0]) && IsDigit(s[|s| - 1]) && IsGroupChars(s) && NoDoubleUnderscore(s)
  }

  /** Every character is a digit or an underscore. */
  predicate IsGroupChars(s: string) {
    forall i :: 0 <= i < |s| ==> IsDigit(s[i]) || s[i] == '_'
  }

  predicate NoDoubleUnderscore(s: string) {
    |s| < 2 || (!(s[0] == '_' && s[1] == '_') && NoDoubleUnderscore(s[1..]))
  }

  lemma {:induction false} DigitsHaveNoDoubleUnderscore(s: string)
    requires forall i :: 0 <= i < |s| ==> IsDigit(s[i])
    ensures NoDoubleUnderscore(s)
  {
    if |s| >= 2 {
      DigitsHaveNoDoubleUnderscore(s[1..]);
    }
  }

  /** The number a string of digits and underscores denotes; underscores are skipped. */
  function Magnitude(s: string): nat
    requires IsGroupChars(s)
  {
    if s == [] then 0
    else if s[|s| - 1] == '_' then Magnitude(s[..|s| - 1])
    else 10 * Magnitude(s[..|s| - 1]) + DigitValue(s[|s| - 1])
  }

  function ParseMagnitude(s: string): (r: Option<nat>)
    ensures r.Some? <==> IsDigitGroups(s)
  {
    if IsDigitGroups(s) then Some(Magnitude(s)) else None
  }

  /** `s` without its leading whitespace. */
  function StripLeading(s: string): (r: string)
    ensures |r| <= |s| && r == s[|s| - |r|..]
    ensures r == [] || !IsPySpace(r[0])
  {
    if |s| > 0 && IsPySpace(s[0]) then StripLeading(s[1..]) else s
  }

  /** `s` without its trailing whitespace. */
  function StripTrailing(s: string): (r: string)
    ensures |r| <= |s| && r == s[..|r|]
    ensures r == [] || !IsPySpace(r[|r| - 1])
  {
    if |s| > 0 && IsPySpace(s[|s| - 1]) then StripTrailing(s[..|s| - 1]) else s
  }

  /** Python's `s.strip()`: whitespace removed from both ends. */
  function Strip(s: string): (r: string)
    ensures r == [] || (!IsPySpace(r[0]) && !IsPySpace(r[|r| - 1]))
  {
    StripTrailing(StripLeading(s))
  }

  /** Everything `StripLeading` drops from the front is whitespace. */
  lemma {:induction false} StripLeadingDropsSpace(s: string)
    ensures forall k :: 0 <= k < |s| - |StripLeading(s)| ==> IsPySpace(s[k])
  {
    if |s| > 0 && IsPySpace(s[0]) {
      StripLeadingDropsSpace(s[1..]);
      assert forall k :: 1 <= k < |s| ==> s[k] == s[1..][k - 1];
    }
  }

  /** Everything `StripTrailing` drops from the back is whitespace. */
  lemma {:induction false} StripTrailingDropsSpace(s: string)
    ensures forall k :: |StripTrailing(s)| <= k < |s| ==> IsPySpace(s[k])
  {
    if |s| > 0 && IsPySpace(s[|s| - 1]) {
      StripTrailingDropsSpace(s[..|s| - 1]);
      assert forall k :: 0 <= k < |s| - 1 ==> s[k] == s[..|s| - 1][k];
    }
  }

  /**
   * `strip()` keeps a slice of `s` and drops only whitespace around it; with
   * `Strip`'s own contract (the slice neither starts nor ends with whitespace)
   * this determines the result.
   */
  lemma StripShape(s: string)
    ensures exists i, j :: 0 <= i <= j <= |s| && Strip(s) == s[i..j] && AllSpace(s[..i]) && AllSpace(s[j..])
  {
    var l := StripLeading(s);
    StripLeadingDropsSpace(s);
    StripTrailingDropsSpace(l);
    TrimmedSlice(s, l, StripTrailing(l));
  }

  /** A suffix `l` of `s` and a prefix `t` of `l`, each cut off at whitespace, make `t` a trimmed slice of `s`. */
  lemma TrimmedSlice(s: string, l: string, t: string)
    requires |l| <= |s| && l == s[|s| - |l|..]
    requires |t| <= |l| && t == l[..|t|]
    requires forall k :: 0 <= k < |s| - |l| ==> IsPySpace(s[k])
    requires forall k :: |t| <= k < |l| ==> IsPySpace(l[k])
    ensures exists i, j :: 0 <= i <= j <= |s| && t == s[i..j] && AllSpace(s[..i]) && AllSpace(s[j..])
  {
    var i := |s| - |l|;
    var j := i + |t|;
    assert t == s[i..j];
    assert forall k :: j <= k < |s| ==> s[k] == l[k - i];
    assert AllSpace(s[..i]) && AllSpace(s[j..]);
  }

  predicate IsSign(c: char) { c == '+' || c == '-' }

  /** A stripped base-10 literal as `int()` accepts it: an optional sign, then digit groups. */
  predicate IsIntLiteral(t: string) {
    if |t| > 0 && IsSign(t[0]) then IsDigitGroups(t[1..]) else IsDigitGroups(t)
  }

  /** The value of an already stripped literal, or `None` when it is not one. */
  function ParseLiteral(t: string): (r: Option<int>)
    ensures r.Some? <==> IsIntLiteral(t)
  {
    if |t| > 0 && IsSign(t[0]) then
      match ParseMagnitude(t[1..])
      case None => None
      case Some(m) => Some(if t[0] == '-' then -(m as int) else m as int)
    else
      match ParseMagnitude(t)
      case None => None
      case Some(m) => Some(m as int)
  }

  /**
   * Python's `int(s)` in base 10: `Some(n)` where it returns `n`, `None` where
   * it raises `ValueError`. Surrounding whitespace, one sign and single
   * underscores between digits are accepted; anything else is not.
   */
  function ParseInt(s: string): (r: Option<int>)
    ensures r.Some? <==> IsIntLiteral(Strip(s))
  {
    ParseLiteral(Strip(s))
  }

  lemma IntLiteralChars(t: string)
    requires IsIntLiteral(t)
    ensures forall c :: c in t ==> IsLiteralChar(c)
    ensures IsDigit(t[|t| - 1])
  {
    if IsSign(t[0]) {
      var b := t[1..];
      assert t == [t[0]] + b;
      assert forall c :: c in b ==> IsDigit(c) || c == '_';
      assert t[|t| - 1] == b[|b| - 1];
    } else {
      assert forall c :: c in t ==> IsDigit(c) || c == '_';
    }
  }

  /** A string `int()` accepts holds a digit and nothing outside the literal alphabet. */
  lemma ParseIntAlphabet(s: string)
    requires ParseInt(s).Some?
    ensures forall c :: c in s ==> IsLiteralChar(c)
    ensures exists c :: c in s && IsDigit(c)
  {
    var t := Strip(s);
    IntLiteralChars(t);
    StripMembers(s);
    assert t[|t| - 1] in t;
  }

  /** Every character of `s` is kept by `Strip` or is whitespace. */
  lemma StripMembers(s: string)
    ensures forall c :: c in s ==> c in Strip(s) || IsPySpace(c)
    ensures forall c :: c in Strip(s) ==> c in s
  {
    StripLeadingMembers(s);
    StripTrailingMembers(StripLeading(s));
  }

  lemma {:induction false} StripLeadingMembers(s: string)
    ensures forall c :: c in s ==> c in StripLeading(s) || IsPySpace(c)
    ensures forall c :: c in StripLeading(s) ==> c in s
  {
    if |s| > 0 && IsPySpace(s[0]) {
      assert s == [s[0]] + s[1..];
      StripLeadingMembers(s[1..]);
    }
  }

  lemma {:induction false} StripTrailingMembers(s: string)
    ensures forall c :: c in s ==> c in StripTrailing(s) || IsPySpace(c)
    ensures forall c :: c in StripTrailing(s) ==> c in s
  {
    if |s| > 0 && IsPySpace(s[|s| - 1]) {
      assert s == s[..|s| - 1] + [s[|s| - 1]];
      StripTrailingMembers(s[..|s| - 1]);
    }
  }

  /** A decimal point, as in Etherscan's fractional gas prices, makes `int()` raise. */
  lemma DecimalPointRejected(s: string)
    requires '.' in s
    ensures ParseInt(s) == None
  {
    if ParseInt(s).Some? {
      ParseIntAlphabet(s);
    }
  }

  /** The ASCII separators U+001C to U+001F anywhere in the text, padding included, make `int()` raise. */
  lemma SeparatorRejected(s: string, c: char)
    requires '\U{1C}' <= c <= '\U{1F}' && c in s
    ensures ParseInt(s) == None
  {
    assert !IsLiteralChar(c);
    if ParseInt(s).Some? {
      ParseIntAlphabet(s);
    }
  }

  lemma {:induction false} MagnitudeOfShowNat(n: nat)
    ensures Magnitude(ShowNat(n)) == n
  {
    var s := ShowNat(n);
    if n >= 10 {
      MagnitudeOfShowNat(n / 10);
      assert s[..|s| - 1] == ShowNat(n / 10);
    }
  }

  lemma ShowNatParses(n: nat)
    ensures ParseMagnitude(ShowNat(n)) == Some(n)
  {
    var s := ShowNat(n);
    DigitsHaveNoDoubleUnderscore(s);
    assert IsDigitGroups(s);
    MagnitudeOfShowNat(n);
  }

  lemma ShowIntStripped(n: int)
    ensures Strip(ShowInt(n)) == ShowInt(n)
  {
    var s := ShowInt(n);
    assert !IsPySpace(s[0]) && !IsPySpace(s[|s| - 1]);
    assert StripLeading(s) == s;
    assert StripTrailing(s) == s;
  }

  /** `int(str(n)) == n`: reading back what `str` wrote gives the same integer. */
  lemma ParseShowInt(n: int)
    ensures ParseInt(ShowInt(n)) == Some(n)
  {
    ShowIntStripped(n);
    LiteralOfShowInt(n);
  }

  lemma LiteralOfShowInt(n: int)
    ensures ParseLiteral(ShowInt(n)) == Some(n)
  {
    var s := ShowInt(n);
    if n < 0 {
      assert s[0] == '-' && s[1..] == ShowNat(-n);
      ShowNatParses(-n);
    } else {
      assert !IsSign(s[0]);
      ShowNatParses(n);
    }
  }

  /** `str` gives different integers different texts. */
  lemma ShowIntInjective(m: int, n: int)
    requires ShowInt(m) == ShowInt(n)
    ensures m == n
  {
    ParseShowInt(m);
    ParseShowInt(n);
  }

  lemma {:induction false} StripLeadingSpace(p: string, t: string)
    requires AllSpace(p)
    requires t == [] || !IsPySpace(t[0])
    ensures StripLeading(p + t) == t
  {
    if p != [] {
      assert (p + t)[1..] == p[1..] + t;
      StripLeadingSpace(p[1..], t);
    }
  }

  lemma {:induction false} StripTrailingSpace(t: string, q: string)
    requires AllSpace(q)
    requires t == [] || !IsPySpace(t[|t| - 1])
    ensures StripTrailing(t + q) == t
  {
    if q != [] {
      assert (t + q)[..|t + q| - 1] == t + q[..|q| - 1];
      StripTrailingSpace(t, q[..|q| - 1]);
    }
  }

  /** `int()` ignores whitespace around the literal. */
  lemma ParsePadded(p: string, n: int, q: string)
    requires AllSpace(p) && AllSpace(q)
    ensures ParseInt(p + ShowInt(n) + q) == Some(n)
  {
    StripPadded(p, ShowInt(n), q);
    ParseShowInt(n);
    ShowIntStripped(n);
  }

  /** Whitespace, a plus sign and a non-negative literal: `int(" +42 ") == 42`. */
  lemma ParsePaddedPlus(p: string, n: int, q: string)
    requires AllSpace(p) && AllSpace(q) && n >= 0
    ensures ParseInt(p + "+" + ShowInt(n) + q) == Some(n)
  {
    var t := "+" + ShowInt(n);
    assert p + "+" + ShowInt(n) + q == p + t + q;
    StripPadded(p, t, q);
    assert t[0] == '+' && t[1..] == ShowNat(n);
    ShowNatParses(n);
  }

  /** Whitespace around a text that neither starts nor ends with whitespace is all `strip()` removes. */
  lemma StripPadded(p: string, t: string, q: string)
    requires AllSpace(p) && AllSpace(q)
    requires |t| > 0 && !IsPySpace(t[0]) && !IsPySpace(t[|t| - 1])
    ensures Strip(p + t + q) == t
  {
    var tq := t + q;
    assert tq[0] == t[0];
    assert p + t + q == p + tq;
    StripLeadingSpace(p, tq);
    StripTrailingSpace(t, q);
  }

  /** A leading zero does not change what `int()` reads: `int("007") == int("7")`. */
  lemma ParseIntLeadingZero(x: string)
    requires |x| > 0 && IsDigit(x[0])
    ensures ParseInt("0" + x) == ParseInt(x)
  {
    StripLeadingZero(x);
    LiteralLeadingZero(StripTrailing(x));
  }

  lemma StripLeadingZero(x: string)
    requires |x| > 0 && IsDigit(x[0])
    ensures Strip(x) == StripTrailing(x) && Strip("0" + x) == "0" + StripTrailing(x)
    ensures |StripTrailing(x)| > 0 && IsDigit(StripTrailing(x)[0])
  {
    var z := "0" + x;
    assert z[0] == '0';
    StripLeadingSpace([], x);
    StripLeadingSpace([], z);
    assert [] + x == x && [] + z == z;
    StripTrailingPrepend("0", x);
  }

  lemma LiteralLeadingZero(t: string)
    requires |t| > 0 && IsDigit(t[0])
    ensures ParseLiteral("0" + t) == ParseLiteral(t)
  {
    var z := "0" + t;
    assert z[1..] == t && z[|z| - 1] == t[|t| - 1];
    GroupCharsConcat("0", t);
    if IsGroupChars(t) {
      MagnitudeLeadingZero(t);
    }
  }

  /** An underscore between two digits does not change what `int()` reads: `int("1_000") == int("1000")`. */
  lemma ParseIntUnderscore(x: string, y: string)
    requires |x| > 0 && IsDigit(x[|x| - 1]) && |y| > 0 && IsDigit(y[0])
    ensures ParseInt(x + "_" + y) == ParseInt(x + y)
  {
    StripUnderscore(x, y);
    LiteralJoin(StripLeading(x), StripTrailing(y));
  }

  lemma StripUnderscore(x: string, y: string)
    requires |x| > 0 && IsDigit(x[|x| - 1]) && |y| > 0 && IsDigit(y[0])
    ensures Strip(x + "_" + y) == StripLeading(x) + "_" + StripTrailing(y)
    ensures Strip(x + y) == StripLeading(x) + StripTrailing(y)
    ensures |StripLeading(x)| > 0 && IsDigit(StripLeading(x)[|StripLeading(x)| - 1])
    ensures |StripTrailing(y)| > 0 && IsDigit(StripTrailing(y)[0])
  {
    StripAdjacent(x, y);
    var u := x + "_";
    assert u[|u| - 1] == '_';
    StripAdjacent(u, y);
    StripLeadingAppend(x, "_");
  }

  /** Stripping `x + y` strips only the front of `x` and the back of `y` when they meet at non-spaces. */
  lemma StripAdjacent(x: string, y: string)
    requires |x| > 0 && !IsPySpace(x[|x| - 1]) && |y| > 0 && !IsPySpace(y[0])
    ensures Strip(x + y) == StripLeading(x) + StripTrailing(y)
    ensures |StripLeading(x)| > 0 && StripLeading(x)[|StripLeading(x)| - 1] == x[|x| - 1]
    ensures |StripTrailing(y)| > 0 && StripTrailing(y)[0] == y[0]
  {
    StripLeadingAppend(x, y);
    StripTrailingPrepend(StripLeading(x), y);
  }

  /** Stripping the front of `x + w` stops inside `x` when `x` ends in a non-space. */
  lemma {:induction false} StripLeadingAppend(x: string, w: string)
    requires |x| > 0 && !IsPySpace(x[|x| - 1])
    ensures StripLeading(x + w) == StripLeading(x) + w
    ensures |StripLeading(x)| > 0 && StripLeading(x)[|StripLeading(x)| - 1] == x[|x| - 1]
  {
    if IsPySpace(x[0]) {
      assert (x + w)[1..] == x[1..] + w;
      StripLeadingAppend(x[1..], w);
    }
  }

  /** Stripping the back of `w + y` stops inside `y` when `y` starts with a non-space. */
  lemma {:induction false} StripTrailingPrepend(w: string, y: string)
    requires |y| > 0 && !IsPySpace(y[0])
    ensures StripTrailing(w + y) == w + StripTrailing(y)
    ensures |StripTrailing(y)| > 0 && StripTrailing(y)[0] == y[0]
  {
    if IsPySpace(y[|y| - 1]) {
      assert (w + y)[..|w + y| - 1] == w + y[..|y| - 1];
      StripTrailingPrepend(w, y[..|y| - 1]);
    }
  }

  lemma {:induction false} MagnitudeLeadingZero(t: string)
    requires IsGroupChars(t)
    ensures IsGroupChars("0" + t) && Magnitude("0" + t) == Magnitude(t)
  {
    if t != [] {
      var z := "0" + t;
      assert z[..|z| - 1] == "0" + t[..|t| - 1];
      MagnitudeLeadingZero(t[..|t| - 1]);
    }
  }

  /** Two stripped pieces joined by an underscore read as the two pieces joined directly. */
  lemma LiteralJoin(l: string, r: string)
    requires |l| > 0 && IsDigit(l[|l| - 1]) && |r| > 0 && IsDigit(r[0])
    ensures ParseLiteral(l + "_" + r) == ParseLiteral(l + r)
  {
    var a, b := l + "_" + r, l + r;
    assert a[0] == l[0] && b[0] == l[0];
    if IsSign(l[0]) {
      assert a[1..] == l[1..] + "_" + r;
      assert b[1..] == l[1..] + r;
      MagnitudeJoin(l[1..], r);
    } else {
      MagnitudeJoin(l, r);
    }
  }

  lemma MagnitudeJoin(u: string, v: string)
    requires |u| > 0 && IsDigit(u[|u| - 1]) && |v| > 0 && IsDigit(v[0])
    ensures ParseMagnitude(u + "_" + v) == ParseMagnitude(u + v)
  {
    var a, b := u + "_" + v, u + v;
    GroupCharsConcat(u, "_" + v);
    GroupCharsConcat("_", v);
    GroupCharsConcat(u, v);
    assert a == u + ("_" + v);
    NoDoubleUnderscoreConcat(u, "_" + v);
    NoDoubleUnderscoreConcat(u, v);
    assert ("_" + v)[1..] == v;
    assert a[0] == u[0] && b[0] == u[0];
    assert a[|a| - 1] == v[|v| - 1] && b[|b| - 1] == v[|v| - 1];
    if IsGroupChars(u) && IsGroupChars(v) {
      MagnitudeSkipsUnderscore(u, v);
    }
  }

  lemma GroupCharsConcat(a: string, b: string)
    ensures IsGroupChars(a + b) <==> IsGroupChars(a) && IsGroupChars(b)
  {
    if IsGroupChars(a + b) {
      assert forall i :: 0 <= i < |a| ==> a[i] == (a + b)[i];
      assert forall i :: 0 <= i < |b| ==> b[i] == (a + b)[|a| + i];
    }
  }

  lemma {:induction false} NoDoubleUnderscoreConcat(a: string, b: string)
    ensures NoDoubleUnderscore(a + b)
            <==> NoDoubleUnderscore(a) && NoDoubleUnderscore(b) && !(|a| > 0 && |b| > 0 && a[|a| - 1] == '_' && b[0] == '_')
  {
    if |a| == 1 {
      assert (a + b)[1..] == b;
    } else if |a| > 1 {
      assert (a + b)[1..] == a[1..] + b;
      NoDoubleUnderscoreConcat(a[1..], b);
    } else {
      assert a + b == b;
    }
  }

  lemma {:induction false} MagnitudeSkipsUnderscore(u: string, v: string)
    requires IsGroupChars(u) && IsGroupChars(v)
    ensures IsGroupChars(u + "_" + v) && IsGroupChars(u + v)
    ensures Magnitude(u + "_" + v) == Magnitude(u + v)
  {
    GroupCharsConcat(u, "_" + v);
    GroupCharsConcat("_", v);
    GroupCharsConcat(u, v);
    assert u + "_" + v == u + ("_" + v);
    if v == [] {
      assert (u + "_")[..|u|] == u;
      assert u + v == u;
    } else {
      var v' := v[..|v| - 1];
      assert (u + "_" + v)[..|u + "_" + v| - 1] == u + "_" + v';
      assert (u + v)[..|u + v| - 1] == u + v';
      assert IsGroupChars(v');
      MagnitudeSkipsUnderscore(u, v');
    }
  }

  // ---------------------------------------------------------------------------
  // The numbers the bot formats

  /**
   * A number as the bot holds it: a Python `int`, or the `float` t / 10 that
   * an ETH Gas Station price becomes once divided by 10.
   */
  datatype Num = Int(n: int) | Tenths(t: int)

  /** The exact value a `Num` stands for. */
  function Value(x: Num): real {
    match x
    case Int(n) => n as real
    case Tenths(t) => t as real / 10.0
  }

  function Abs(n: int): nat { if n < 0 then -n else n }

  /** The character set of a formatted number: no space, no separator. */
  predicate IsNumeralChar(c: char) { IsDigit(c) || c == '-' || c == '.' }

  /** Python's `repr` of the float t / 10: sign, whole part, a point and one decimal. */
  function ShowTenths(t: int): (s: string)
    ensures |s| >= 3 && s[|s| - 2] == '.' && IsDigit(s[|s| - 1])
    ensures DigitValue(s[|s| - 1]) == Abs(t) % 10
    ensures forall i :: 0 <= i < |s| ==> IsNumeralChar(s[i])
  {
    (if t < 0 then "-" else "") + ShowNat(Abs(t) / 10) + "." + [DigitChar(Abs(t) % 10)]
  }


  /** How an f-string field `{x}` writes `x`. */
  function Render(x: Num): (s: string)
    ensures |s| > 0 && forall i :: 0 <= i < |s| ==> IsNumeralChar(s[i])
  {
    match x
    case Int(n) => ShowInt(n)
    case Tenths(t) => ShowTenths(t)
  }

  /**
   * The float t/10 reads back as t/10: an optional minus exactly when t is
   * negative, then the whole part `int()` reads as |t| / 10, the point, and
   * the digit |t| % 10.
   */
  lemma ShowTenthsReadBack(t: int)
    ensures var s := ShowTenths(t);
            var k := if t < 0 then 1 else 0;
            (s[0] == '-') == (t < 0)
            && ParseInt(s[k..|s| - 2]) == Some(Abs(t) / 10)
            && DigitValue(s[|s| - 1]) == Abs(t) % 10
  {
    var m := Abs(t) / 10;
    var s := ShowTenths(t);
    var k := if t < 0 then 1 else 0;
    var sign := if t < 0 then "-" else "";
    assert s == sign + ShowNat(m) + "." + [DigitChar(Abs(t) % 10)];
    assert s[k..|s| - 2] == ShowNat(m);
    assert ShowInt(m) == ShowNat(m);
    ParseShowInt(m);
    if t >= 0 {
      assert s[0] == ShowNat(m)[0];
    }
  }

  lemma ShowNatInjective(m: nat, n: nat)
    requires ShowNat(m) == ShowNat(n)
    ensures m == n
  {
    MagnitudeOfShowNat(m);
    MagnitudeOfShowNat(n);
  }

  lemma ShowTenthsInjective(t: int, u: int)
    requires ShowTenths(t) == ShowTenths(u)
    ensures t == u
  {
    var s := ShowTenths(t);
    var sign := if t < 0 then "-" else "";
    var sign' := if u < 0 then "-" else "";
    var w, w' := ShowNat(Abs(t) / 10), ShowNat(Abs(u) / 10);
    assert s == sign + w + "." + [DigitChar(Abs(t) % 10)];
    assert s == sign' + w' + "." + [DigitChar(Abs(u) % 10)];
    assert s[..|s| - 2] == sign + w;
    assert s[..|s| - 2] == sign' + w';
    assert (t < 0) == (s[0] == '-');
    assert (u < 0) == (s[0] == '-');
    assert w == s[|sign|..|s| - 2] == w';
    ShowNatInjective(Abs(t) / 10, Abs(u) / 10);
  }

  /** Different numbers are written differently, so a rendered number can be read back. */
  lemma RenderInjective(x: Num, y: Num)
    requires Render(x) == Render(y)
    ensures x == y
  {
    match x {
      case Int(m) =>
        match y {
          case Int(n) => ShowIntInjective(m, n);
          case Tenths(u) => // only the float has a '.'; ShowInt's ensures rule this out
        }
      case Tenths(t) =>
        match y {
          case Int(n) => // likewise
          case Tenths(u) => ShowTenthsInjective(t, u);
        }
    }
  }
}
