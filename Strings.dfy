/** The parts of Go's `strings` and `strconv` packages that the core relies on,
    restricted to single-character separators and ASCII text. */
module Strings {
  import opened Wrappers

  /** Number of occurrences of `c` in `s`. */
  function Count(s: string, c: char): nat
  {
    if s == [] then 0 else (if s[0] == c then 1 else 0) + Count(s[1..], c)
  }

  /** `strings.Split(s, string(c))`: the pieces between consecutive
      occurrences of `c`; an input without `c` (also the empty one) is a
      single piece. */
  function Split(s: string, c: char): (r: seq<string>)
    ensures |r| == Count(s, c) + 1
  {
    if s == [] then [[]]
    else
      var rest := Split(s[1..], c);
      if s[0] == c then [[]] + rest
      else [[s[0]] + rest[0]] + rest[1..]
  }

  /** `strings.Join(pieces, string(c))`. */
  function Join(pieces: seq<string>, c: char): string
    requires |pieces| >= 1
  {
    if |pieces| == 1 then pieces[0] else pieces[0] + [c] + Join(pieces[1..], c)
  }

  /** No piece of a split holds the separator. */
  lemma {:induction false} SplitPiecesFree(s: string, c: char)
    ensures forall i :: 0 <= i < |Split(s, c)| ==> c !in Split(s, c)[i]
  {
    if s != [] {
      SplitPiecesFree(s[1..], c);
    }
  }

  /** Joining the pieces of a split gives the input back. */
  lemma {:induction false} JoinSplit(s: string, c: char)
    ensures Join(Split(s, c), c) == s
  {
    if s != [] {
      var rest := Split(s[1..], c);
      JoinSplit(s[1..], c);
      if s[0] == c {
        assert Split(s, c)[1..] == rest;
      } else {
        var r := Split(s, c);
        assert r[0] == [s[0]] + rest[0];
        if |rest| == 1 {
          assert Join(r, c) == [s[0]] + rest[0];
        } else {
          assert r[1..] == rest[1..];
          assert Join(rest, c) == rest[0] + [c] + Join(rest[1..], c);
        }
      }
    }
  }

  /** Splitting a join of separator-free pieces gives the pieces back. */
  lemma {:induction false} SplitJoin(pieces: seq<string>, c: char)
    requires |pieces| >= 1
    requires forall i :: 0 <= i < |pieces| ==> c !in pieces[i]
    ensures Split(Join(pieces, c), c) == pieces
  {
    if |pieces| == 1 {
      SplitPrefixFree(pieces[0], [], c);
      assert pieces[0] + [] == pieces[0];
    } else {
      SplitJoin(pieces[1..], c);
      var tail := Join(pieces[1..], c);
      SplitSeparated(pieces[0], tail, c);
      assert [pieces[0]] + pieces[1..] == pieces;
    }
  }

  /** A separator-free prefix extends the first piece of a split. */
  lemma {:induction false} SplitPrefixFree(a: string, b: string, c: char)
    requires c !in a
    ensures Split(a + b, c) == [a + Split(b, c)[0]] + Split(b, c)[1..]
  {
    if a != [] {
      var s, pieces := a + b, Split(b, c);
      SplitPrefixFree(a[1..], b, c);
      assert s[1..] == a[1..] + b;
      assert s[0] == a[0] && a[0] != c;
      var rest := Split(s[1..], c);
      assert rest[0] == a[1..] + pieces[0] && rest[1..] == pieces[1..];
      assert Split(s, c) == [[a[0]] + rest[0]] + rest[1..];
      assert [a[0]] + (a[1..] + pieces[0]) == a + pieces[0];
    } else {
      var r := Split(b, c);
      assert a + b == b;
      assert [] + r[0] == r[0];
      assert [r[0]] + r[1..] == r;
    }
  }

  /** Splitting at the first separator: `a` free of `c`. */
  lemma {:induction false} SplitSeparated(a: string, b: string, c: char)
    requires c !in a
    ensures Split(a + [c] + b, c) == [a] + Split(b, c)
  {
    SplitPrefixFree(a, [c] + b, c);
    assert a + [c] + b == a + ([c] + b);
    assert ([c] + b)[0] == c && ([c] + b)[1..] == b;
    assert Split([c] + b, c) == [[]] + Split(b, c);
    assert a + [] == a;
  }

  /** Index of the first occurrence of `c` in `s`. */
  function IndexOf(s: string, c: char): (r: Option<nat>)
    ensures r.Some? ==> r.value < |s| && s[r.value] == c && c !in s[..r.value]
    ensures r.None? <==> c !in s
  {
    if s == [] then None
    else if s[0] == c then Some(0)
    else
      match IndexOf(s[1..], c)
      case None => None
      case Some(i) => assert s[..i + 1] == [s[0]] + s[1..][..i]; Some(i + 1)
  }

  /** `strings.SplitN(s, string(c), 2)` when it yields two pieces: the text
      before the first `c` and the text after it; `None` when `s` holds no
      `c` (SplitN then yields one piece). */
  function Cut(s: string, c: char): (r: Option<(string, string)>)
    ensures r.None? <==> c !in s
    ensures r.Some? ==> s == r.value.0 + [c] + r.value.1 && c !in r.value.0
  {
    match IndexOf(s, c)
    case None => None
    case Some(i) =>
      assert s == s[..i] + [c] + s[i + 1..];
      Some((s[..i], s[i + 1..]))
  }

  /** Cutting at the first separator undoes the concatenation exactly when
      the front part is free of the separator. */
  lemma CutConcat(a: string, b: string, c: char)
    ensures Cut(a + [c] + b, c) == Some((a, b)) <==> c !in a
  {
    var s := a + [c] + b;
    assert s[|a|] == c;
    var r := Cut(s, c);
    if c !in a {
      assert forall j :: 0 <= j < |a| ==> s[j] == a[j];
      assert r.value.0 == a;
      assert r.value.1 == s[|a| + 1..] == b;
    }
  }

  /** Go's `strings.ToLower`, restricted to ASCII letters. */
  function ToLowerChar(ch: char): char
  {
    if 'A' <= ch <= 'Z' then (ch as int - 'A' as int + 'a' as int) as char else ch
  }

  function ToLower(s: string): (r: string)
    ensures |r| == |s|
    ensures forall i :: 0 <= i < |s| ==> r[i] == ToLowerChar(s[i])
  {
    seq(|s|, i requires 0 <= i < |s| => ToLowerChar(s[i]))
  }

  /** A lower-cased string has no upper-case ASCII letter. */
  predicate IsLower(s: string)
  {
    forall i :: 0 <= i < |s| ==> !('A' <= s[i] <= 'Z')
  }

  predicate IsDigit(ch: char)
  {
    '0' <= ch <= '9'
  }

  predicate AllDigits(s: string)
  {
    forall i :: 0 <= i < |s| ==> IsDigit(s[i])
  }

  function DigitChar(d: nat): (ch: char)
    requires d < 10
    ensures IsDigit(ch)
  {
    ('0' as int + d) as char
  }

  /** Value of a string of decimal digits, most significant first. */
  function DigitsValue(s: string): nat
    requires AllDigits(s)
  {
    if s == [] then 0
    else DigitsValue(s[..|s| - 1]) * 10 + (s[|s| - 1] as int - '0' as int)
  }

  /** Decimal rendering of a natural number, as `%d` and
      `strconv.FormatUint(n, 10)` print it. */
  function NatToString(n: nat): (r: string)
    ensures r != [] && AllDigits(r)
    decreases n
  {
    if n < 10 then [DigitChar(n)] else NatToString(n / 10) + [DigitChar(n % 10)]
  }

  /** Reading back a rendering gives the number. */
  lemma {:induction false} NatToStringValue(n: nat)
    ensures DigitsValue(NatToString(n)) == n
    decreases n
  {
    if n >= 10 {
      NatToStringValue(n / 10);
      var s := NatToString(n);
      assert s[..|s| - 1] == NatToString(n / 10);
    }
  }

  /** `strconv.ParseUint(s, 10, bits)` without the range check: a non-empty
      run of decimal digits, nothing else (no sign, no spaces). */
  function ParseDigits(s: string): (r: Option<nat>)
    ensures r.Some? <==> s != [] && AllDigits(s)
  {
    if s != [] && AllDigits(s) then Some(DigitsValue(s)) else None
  }

  lemma ParseNatToString(n: nat)
    ensures ParseDigits(NatToString(n)) == Some(n)
  {
    NatToStringValue(n);
  }

  /** `strconv.ParseInt(s, 10, 64)` without the range check: an optional
      sign followed by a non-empty run of decimal digits. */
  function ParseSigned(s: string): (r: Option<int>)
    ensures s != [] && AllDigits(s) ==> r == ParseDigits(s)
    ensures r.Some? && r.value < 0 ==> s != [] && s[0] == '-'
  {
    if s != [] && (s[0] == '-' || s[0] == '+') then
      match ParseDigits(s[1..])
      case None => None
      case Some(v) =>
        var signed: int := if s[0] == '-' then -(v as int) else v;
        Some(signed)
    else
      ParseDigits(s)
  }
}
