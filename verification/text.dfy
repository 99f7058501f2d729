/**
 * The small part of Python's `str` and `int` behaviour the bot relies on:
 * `str(n)`, `int(s)`, `s.split(sep)`, `s.split()`, `s.strip()`,
 * `s.replace(' ', '')`, `s.lower()` and `s.startswith(p)`, over ASCII.
 */
module Text {
  import opened Wrappers

  /** The ASCII characters for which Python's `str.isspace` holds. */
  const WHITESPACE: set<char> :=
    {' ', '\t', '\n', '\r', 11 as char, 12 as char, 28 as char, 29 as char, 30 as char, 31 as char}

  predicate IsDigit(c: char) { '0' <= c <= '9' }

  predicate AllDigits(s: string) { forall i | 0 <= i < |s| :: IsDigit(s[i]) }

  function DigitChar(d: nat): (c: char)
    requires d < 10
    ensures IsDigit(c)
  {
    (d + '0' as int) as char
  }

  function DigitValue(c: char): (d: nat)
    requires IsDigit(c)
    ensures d < 10 && DigitChar(d) == c
  {
    (c as int - '0' as int) as nat
  }

  /** Python's `str(n)` for a non-negative `n`: decimal digits, no leading zero. */
  function NatToDecimal(n: nat): (s: string)
    ensures s != [] && AllDigits(s)
    ensures s[0] == '0' ==> n == 0
  {
    if n < 10 then [DigitChar(n)] else NatToDecimal(n / 10) + [DigitChar(n % 10)]
  }

  /** The number a string of decimal digits denotes. */
  function DigitsValue(s: string): nat
    requires AllDigits(s)
  {
    if s == [] then 0 else DigitsValue(s[..|s| - 1]) * 10 + DigitValue(s[|s| - 1])
  }

  lemma {:induction false} DigitsValueOfDecimal(n: nat)
    ensures DigitsValue(NatToDecimal(n)) == n
  {
    var s := NatToDecimal(n);
    if n < 10 {
      assert s[..|s| - 1] == [];
    } else {
      assert s[..|s| - 1] == NatToDecimal(n / 10);
      DigitsValueOfDecimal(n / 10);
    }
  }

  /** Python's `str(n)` for any integer: a minus sign, then the digits of `|n|`. */
  function IntToDecimal(n: int): (s: string)
    ensures s != [] && (s[0] == '-' <==> n < 0)
    ensures forall i | 0 <= i < |s| :: IsDigit(s[i]) || (i == 0 && s[i] == '-')
  {
    if n < 0 then "-" + NatToDecimal(-n) else NatToDecimal(n)
  }

  /** Python's `str.strip()`: drop leading and trailing whitespace. */
  function Strip(s: string): (r: string)
    ensures r != [] ==> r[0] !in WHITESPACE && r[|r| - 1] !in WHITESPACE
    ensures |r| <= |s|
  {
    if s != [] && s[0] in WHITESPACE then Strip(s[1..])
    else if s != [] && s[|s| - 1] in WHITESPACE then Strip(s[..|s| - 1])
    else s
  }

  /** A non-empty run of digits, optionally after one sign. */
  predicate SignedDigits(u: string)
  {
    u != [] && (AllDigits(u) || (|u| > 1 && (u[0] == '+' || u[0] == '-') && AllDigits(u[1..])))
  }

  /** A sign-optional run of digits, as Python's `int` accepts it once stripped (ASCII only). */
  function ParseSigned(s: string): (r: Option<int>)
    ensures r.Some? <==> SignedDigits(s)
    ensures r.Some? ==> IsDigit(s[|s| - 1])
  {
    if s != [] && (s[0] == '+' || s[0] == '-') then
      if |s| > 1 && AllDigits(s[1..]) then
        var v: int := DigitsValue(s[1..]);
        Some(if s[0] == '-' then -v else v)
      else None
    else if s != [] && AllDigits(s) then Some(DigitsValue(s))
    else None
  }

  /**
   * Python's `int(s)`: an integer exactly when the stripped text is a signed
   * run of digits, `None` where Python raises `ValueError`.
   */
  function ParseInt(s: string): (r: Option<int>)
    ensures r.Some? <==> SignedDigits(Strip(s))
    ensures r.Some? ==> exists i | 0 <= i < |s| :: IsDigit(s[i])
  {
    StripTrims(s);
    ParseSigned(Strip(s))
  }

  lemma StripUnpadded(s: string)
    requires s != [] && s[0] !in WHITESPACE && s[|s| - 1] !in WHITESPACE
    ensures Strip(s) == s
  {
  }

  /** `r` is `s` with some whitespace removed at both ends only: a slice whose surroundings are whitespace. */
  predicate TrimOf(r: string, s: string)
  {
    exists i, j | 0 <= i <= j <= |s| :: r == s[i..j] && forall k | 0 <= k < |s| && (k < i || j <= k) :: s[k] in WHITESPACE
  }

  lemma TrimOfAt(r: string, s: string, i: int, j: int)
    requires 0 <= i <= j <= |s| && r == s[i..j]
    requires forall k | 0 <= k < |s| && (k < i || j <= k) :: s[k] in WHITESPACE
    ensures TrimOf(r, s)
  {
  }

  lemma TrimOfDropFront(r: string, s: string)
    requires s != [] && s[0] in WHITESPACE && TrimOf(r, s[1..])
    ensures TrimOf(r, s)
  {
    var t := s[1..];
    var i, j :| 0 <= i <= j <= |t| && r == t[i..j] && forall k | 0 <= k < |t| && (k < i || j <= k) :: t[k] in WHITESPACE;
    assert t[i..j] == s[i + 1..j + 1];
    forall k | 0 <= k < |s| && (k < i + 1 || j + 1 <= k)
      ensures s[k] in WHITESPACE
    {
      if k > 0 {
        assert s[k] == t[k - 1];
      }
    }
    TrimOfAt(r, s, i + 1, j + 1);
  }

  lemma TrimOfDropBack(r: string, s: string)
    requires s != [] && s[|s| - 1] in WHITESPACE && TrimOf(r, s[..|s| - 1])
    ensures TrimOf(r, s)
  {
    var t := s[..|s| - 1];
    var i, j :| 0 <= i <= j <= |t| && r == t[i..j] && forall k | 0 <= k < |t| && (k < i || j <= k) :: t[k] in WHITESPACE;
    assert t[i..j] == s[i..j];
    forall k | 0 <= k < |s| && (k < i || j <= k)
      ensures s[k] in WHITESPACE
    {
      if k < |t| {
        assert s[k] == t[k];
      }
    }
    TrimOfAt(r, s, i, j);
  }

  /** What `strip` returns is the input with whitespace removed at both ends only. */
  lemma {:induction false} StripTrims(s: string)
    ensures TrimOf(Strip(s), s)
  {
    if s != [] && s[0] in WHITESPACE {
      StripTrims(s[1..]);
      TrimOfDropFront(Strip(s), s);
    } else if s != [] && s[|s| - 1] in WHITESPACE {
      StripTrims(s[..|s| - 1]);
      TrimOfDropBack(Strip(s), s);
    } else {
      assert Strip(s) == s[0..|s|];
    }
  }

  /** Reading back the digits of `str(n)`, for a non-negative `n`. */
  lemma ParseSignedOfNat(n: nat)
    ensures ParseSigned(NatToDecimal(n)) == Some(n)
  {
    var t := NatToDecimal(n);
    assert IsDigit(t[0]);
    DigitsValueOfDecimal(n);
  }

  lemma ParseSignedNegative(t: string)
    requires t != [] && AllDigits(t)
    ensures var v: int := DigitsValue(t); ParseSigned("-" + t) == Some(-v)
  {
    assert ("-" + t)[1..] == t;
  }

  lemma ParseSignedOfNegative(m: nat)
    ensures ParseSigned("-" + NatToDecimal(m)) == Some(-(m as int))
  {
    ParseSignedNegative(NatToDecimal(m));
    DigitsValueOfDecimal(m);
  }

  lemma ParseSignedOfDecimal(n: int)
    ensures ParseSigned(IntToDecimal(n)) == Some(n)
  {
    if n < 0 {
      ParseSignedOfNegative(-n);
    } else {
      ParseSignedOfNat(n);
    }
  }

  /** `int(str(n)) == n`. */
  lemma ParseIntOfDecimal(n: int)
    ensures ParseInt(IntToDecimal(n)) == Some(n)
  {
    var s := IntToDecimal(n);
    assert IsDigit(s[|s| - 1]);
    assert s[0] !in WHITESPACE;
    StripUnpadded(s);
    ParseSignedOfDecimal(n);
  }

  lemma DecimalInjective(a: int, b: int)
    requires IntToDecimal(a) == IntToDecimal(b)
    ensures a == b
  {
    ParseIntOfDecimal(a);
    ParseIntOfDecimal(b);
  }

  predicate StartsWith(s: string, prefix: string)
  {
    |prefix| <= |s| && s[..|prefix|] == prefix
  }

  /** A concatenation splits back at its seam. */
  lemma Seam(p: string, x: string)
    ensures (p + x)[..|p|] == p && (p + x)[|p|..] == x
  {
  }

  lemma CancelPrefix(p: string, x: string, y: string)
    requires p + x == p + y
    ensures x == y
  {
    Seam(p, x);
    Seam(p, y);
  }

  lemma CancelSuffix(x: string, y: string, s: string)
    requires x + s == y + s
    ensures x == y
  {
    assert |x| == |y|;
    Seam(x, s);
    Seam(y, s);
  }

  /**
   * Python's `s.split(sep)` generalised to a set of one-character separators:
   * every separator ends a part, so empty parts are kept and there is one
   * part more than there are separators.
   */
  function SplitWhere(s: string, seps: set<char>): (parts: seq<string>)
    ensures |parts| >= 1
    ensures forall k, i | 0 <= k < |parts| && 0 <= i < |parts[k]| :: parts[k][i] !in seps
  {
    if s == [] then [[]]
    else
      var rest := SplitWhere(s[1..], seps);
      if s[0] in seps then [[]] + rest else [[s[0]] + rest[0]] + rest[1..]
  }

  /** Python's `c.join(parts)`, the inverse of splitting on `c`. */
  function Join(parts: seq<string>, c: char): string
  {
    if parts == [] then []
    else if |parts| == 1 then parts[0]
    else parts[0] + [c] + Join(parts[1..], c)
  }

  /** Prepending an empty part prepends one separator. */
  lemma JoinEmptyHead(rest: seq<string>, c: char)
    requires rest != []
    ensures Join([[]] + rest, c) == [c] + Join(rest, c)
  {
    assert ([[]] + rest)[1..] == rest;
  }

  /** Extending the first part by a character extends the joined text by it. */
  lemma JoinExtendHead(x: char, rest: seq<string>, c: char)
    requires rest != []
    ensures Join([[x] + rest[0]] + rest[1..], c) == [x] + Join(rest, c)
  {
    var parts := [[x] + rest[0]] + rest[1..];
    if |rest| > 1 {
      assert parts[1..] == rest[1..];
    }
  }

  lemma {:induction false} JoinSplit(s: string, c: char)
    ensures Join(SplitWhere(s, {c}), c) == s
  {
    if s != [] {
      JoinSplit(s[1..], c);
      var rest := SplitWhere(s[1..], {c});
      if s[0] == c {
        JoinEmptyHead(rest, c);
      } else {
        JoinExtendHead(s[0], rest, c);
      }
      assert s == [s[0]] + s[1..];
    }
  }

  lemma {:induction false} SplitWithoutSeparator(s: string, seps: set<char>)
    requires forall i | 0 <= i < |s| :: s[i] !in seps
    ensures SplitWhere(s, seps) == [s]
  {
    if s != [] {
      SplitWithoutSeparator(s[1..], seps);
      assert [s[0]] + s[1..] == s;
    }
  }

  /** A separator-free head splits off as the first part. */
  lemma {:induction false} SplitAfterHead(head: string, c: char, tail: string, seps: set<char>)
    requires c in seps
    requires forall i | 0 <= i < |head| :: head[i] !in seps
    ensures SplitWhere(head + [c] + tail, seps) == [head] + SplitWhere(tail, seps)
  {
    var s := head + [c] + tail;
    if head == [] {
      assert s[1..] == tail;
    } else {
      assert s[1..] == head[1..] + [c] + tail;
      SplitAfterHead(head[1..], c, tail, seps);
      assert [s[0]] + head[1..] == head;
    }
  }

  function DropEmpty(parts: seq<string>): (r: seq<string>)
    ensures forall k | 0 <= k < |r| :: r[k] != [] && r[k] in parts
    ensures forall k | 0 <= k < |parts| && parts[k] != [] :: parts[k] in r
    ensures |r| <= |parts|
  {
    if parts == [] then []
    else if parts[0] == [] then DropEmpty(parts[1..])
    else [parts[0]] + DropEmpty(parts[1..])
  }

  /** Python's `s.split()`: the maximal runs of non-whitespace characters. */
  function Words(s: string): (r: seq<string>)
    ensures forall k | 0 <= k < |r| :: r[k] != [] && forall i | 0 <= i < |r[k]| :: r[k][i] !in WHITESPACE
  {
    DropEmpty(SplitWhere(s, WHITESPACE))
  }

  /** One step of `SplitWhere`, on a text written as its first character and the rest. */
  lemma SplitCons(c: char, rest: string, seps: set<char>)
    ensures var p := SplitWhere(rest, seps);
            SplitWhere([c] + rest, seps) == if c in seps then [[]] + p else [[c] + p[0]] + p[1..]
  {
    assert ([c] + rest)[1..] == rest;
  }

  lemma GlueHead(c: char, p: seq<string>, q: seq<string>)
    requires |p| >= 1
    ensures [[c] + (p + q)[0]] + (p + q)[1..] == [[c] + p[0]] + p[1..] + q
  {
    assert (p + q)[1..] == p[1..] + q;
  }

  /** Splitting at a separator splits each side on its own. */
  lemma {:induction false} SplitAround(a: string, w: char, b: string, seps: set<char>)
    requires w in seps
    ensures SplitWhere(a + [w] + b, seps) == SplitWhere(a, seps) + SplitWhere(b, seps)
  {
    if a == [] {
      assert a + [w] + b == [w] + b;
      SplitCons(w, b, seps);
    } else {
      var c, tail := a[0], a[1..];
      var p, q := SplitWhere(tail, seps), SplitWhere(b, seps);
      calc {
        SplitWhere(a + [w] + b, seps);
      == { assert a + [w] + b == [c] + (tail + [w] + b); }
        SplitWhere([c] + (tail + [w] + b), seps);
      == { SplitCons(c, tail + [w] + b, seps); SplitAround(tail, w, b, seps); }
        if c in seps then [[]] + (p + q) else [[c] + (p + q)[0]] + (p + q)[1..];
      == { if c !in seps { GlueHead(c, p, q); } }
        (if c in seps then [[]] + p else [[c] + p[0]] + p[1..]) + q;
      == { SplitCons(c, tail, seps); assert a == [c] + tail; }
        SplitWhere(a, seps) + q;
      }
    }
  }

  lemma {:induction false} DropEmptyConcat(p: seq<string>, q: seq<string>)
    ensures DropEmpty(p + q) == DropEmpty(p) + DropEmpty(q)
  {
    if p != [] {
      assert (p + q)[0] == p[0];
      assert (p + q)[1..] == p[1..] + q;
      DropEmptyConcat(p[1..], q);
    } else {
      assert p + q == q;
    }
  }

  /** The words around a whitespace character are the words of either side. */
  lemma WordsAround(a: string, w: char, b: string)
    requires w in WHITESPACE
    ensures Words(a + [w] + b) == Words(a) + Words(b)
  {
    SplitAround(a, w, b, WHITESPACE);
    DropEmptyConcat(SplitWhere(a, WHITESPACE), SplitWhere(b, WHITESPACE));
  }

  /** A non-empty whitespace-free text is one word; whitespace alone is none. */
  lemma WordsOfWord(s: string)
    ensures s != [] && (forall i | 0 <= i < |s| :: s[i] !in WHITESPACE) ==> Words(s) == [s]
    ensures (forall i | 0 <= i < |s| :: s[i] in WHITESPACE) ==> Words(s) == []
  {
    if s != [] && forall i | 0 <= i < |s| :: s[i] !in WHITESPACE {
      SplitWithoutSeparator(s, WHITESPACE);
      assert DropEmpty([s]) == [s] + DropEmpty([]);
    }
    if forall i | 0 <= i < |s| :: s[i] in WHITESPACE {
      WordsOfBlank(s);
    }
  }

  lemma {:induction false} WordsOfBlank(s: string)
    requires forall i | 0 <= i < |s| :: s[i] in WHITESPACE
    ensures Words(s) == []
  {
    if s != [] {
      WordsOfBlank(s[1..]);
      WordsAround([], s[0], s[1..]);
      assert [] + [s[0]] + s[1..] == s;
      assert DropEmpty(SplitWhere([], WHITESPACE)) == DropEmpty([[]]) == DropEmpty([]);
    }
  }

  /** `cmd + ' ' + arg` has exactly the two words `cmd` and `arg`. */
  lemma WordsOfTwo(cmd: string, arg: string)
    requires cmd != [] && arg != []
    requires forall i | 0 <= i < |cmd| :: cmd[i] !in WHITESPACE
    requires forall i | 0 <= i < |arg| :: arg[i] !in WHITESPACE
    ensures Words(cmd + " " + arg) == [cmd, arg]
  {
    SplitAfterHead(cmd, ' ', arg, WHITESPACE);
    SplitWithoutSeparator(arg, WHITESPACE);
    assert SplitWhere(cmd + " " + arg, WHITESPACE) == [cmd, arg];
    assert [cmd, arg][1..] == [arg];
    assert DropEmpty([arg]) == [arg] + DropEmpty([]);
    assert DropEmpty([cmd, arg]) == [cmd] + DropEmpty([arg]);
  }

  /** Python's `s.replace(' ', '')`. */
  function RemoveSpaces(s: string): (r: string)
    ensures forall i | 0 <= i < |r| :: r[i] != ' '
    ensures |r| <= |s|
  {
    if s == [] then []
    else if s[0] == ' ' then RemoveSpaces(s[1..])
    else [s[0]] + RemoveSpaces(s[1..])
  }

  /** Removing spaces works piece by piece. */
  lemma {:induction false} RemoveSpacesConcat(a: string, b: string)
    ensures RemoveSpaces(a + b) == RemoveSpaces(a) + RemoveSpaces(b)
  {
    if a == [] {
      assert a + b == b;
    } else {
      assert (a + b)[0] == a[0];
      assert (a + b)[1..] == a[1..] + b;
      RemoveSpacesConcat(a[1..], b);
    }
  }

  function LowerChar(c: char): char
  {
    if 'A' <= c <= 'Z' then (c as int - 'A' as int + 'a' as int) as char else c
  }

  /** Python's `s.lower()` on ASCII letters. */
  function Lower(s: string): (r: string)
    ensures |r| == |s|
    ensures forall i | 0 <= i < |s| :: r[i] == LowerChar(s[i])
  {
    seq(|s|, i requires 0 <= i < |s| => LowerChar(s[i]))
  }

  lemma LowerConcat(a: string, b: string)
    ensures Lower(a + b) == Lower(a) + Lower(b)
  {
  }

  /** Lowercasing twice is lowercasing once. */
  lemma LowerIdempotent(s: string)
    ensures Lower(Lower(s)) == Lower(s)
  {
  }

  /** Spaces are not letters, so lowercasing and removing spaces commute. */
  lemma {:induction false} RemoveSpacesLower(s: string)
    ensures RemoveSpaces(Lower(s)) == Lower(RemoveSpaces(s))
  {
    if s != [] {
      var l := Lower(s);
      assert l[0] == LowerChar(s[0]);
      assert l[1..] == Lower(s[1..]);
      RemoveSpacesLower(s[1..]);
      if s[0] != ' ' {
        LowerConcat([s[0]], RemoveSpaces(s[1..]));
      }
    }
  }
}
