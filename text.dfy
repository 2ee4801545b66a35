/**
 * String helpers shared by the formatters: decimal rendering of integers
 * (JavaScript's `Number.prototype.toString()` on an integer), `Array.prototype.join`,
 * `String.prototype.split` on a one-character separator and `String.prototype.padStart`.
 */
module Text {

  predicate IsDigit(c: char) {
    '0' <= c <= '9'
  }

  predicate AllDigits(s: string) {
    forall i :: 0 <= i < |s| ==> IsDigit(s[i])
  }

  function DigitChar(d: nat): (c: char)
    requires d < 10
    ensures IsDigit(c) && c as int - '0' as int == d
  {
    (d + '0' as int) as char
  }

  /** Decimal digits of `n`, most significant first, without leading zeros. */
  function NatToString(n: nat): (s: string)
    ensures |s| >= 1 && AllDigits(s)
    ensures s[0] == '0' <==> n == 0
    ensures n == 0 ==> s == "0"
    decreases n
  {
    if n < 10 then [DigitChar(n)] else NatToString(n / 10) + [DigitChar(n % 10)]
  }

  /** The number a string of decimal digits denotes; the inverse of NatToString. */
  function DigitsValue(s: string): nat
    requires AllDigits(s)
  {
    if s == [] then 0 else DigitsValue(s[..|s| - 1]) * 10 + (s[|s| - 1] as int - '0' as int)
  }

  lemma {:induction false} NatToStringRoundTrip(n: nat)
    ensures DigitsValue(NatToString(n)) == n
    decreases n
  {
    var s := NatToString(n);
    if n >= 10 {
      NatToStringRoundTrip(n / 10);
      assert s[..|s| - 1] == NatToString(n / 10);
    }
  }

  /** Different numbers never render alike. */
  lemma NatToStringInjective(m: nat, n: nat)
    requires NatToString(m) == NatToString(n)
    ensures m == n
  {
    NatToStringRoundTrip(m);
    NatToStringRoundTrip(n);
  }

  /** `String(i)` for an integer `i`: a minus sign for negatives, then the digits of `|i|`. */
  function IntToString(i: int): (s: string)
    ensures |s| >= 1
    ensures s[0] == '-' <==> i < 0
    ensures AllDigits(s[1..])
    ensures i >= 0 ==> AllDigits(s) && DigitsValue(s) == i
    ensures i < 0 ==> DigitsValue(s[1..]) == -i
    ensures i >= 0 ==> (s[0] == '0' <==> i == 0) && (i == 0 ==> s == "0")
    ensures i < 0 ==> |s| >= 2 && s[1] != '0'
  {
    if i < 0 then
      NatToStringRoundTrip(-i);
      assert ("-" + NatToString(-i))[1..] == NatToString(-i);
      "-" + NatToString(-i)
    else
      NatToStringRoundTrip(i);
      NatToString(i)
  }

  /** `parts.join(sep)`: the parts with `sep` between neighbours; `""` for no parts. */
  function Join(parts: seq<string>, sep: string): (joined: string)
    ensures parts == [] ==> joined == ""
    ensures |parts| == 1 ==> joined == parts[0]
    ensures |parts| >= 1 ==> |parts[0]| <= |joined| && joined[..|parts[0]|] == parts[0]
  {
    if |parts| == 0 then ""
    else if |parts| == 1 then parts[0]
    else parts[0] + sep + Join(parts[1..], sep)
  }

  /**
   * `s.split(c)` for a one-character separator: the maximal pieces between
   * occurrences of `c`, empty pieces included, so there is always at least one.
   */
  function Split(s: string, c: char): (pieces: seq<string>)
    ensures |pieces| >= 1
    ensures forall k :: 0 <= k < |pieces| ==> c !in pieces[k]
  {
    if s == [] then [[]]
    else
      var rest := Split(s[1..], c);
      if s[0] == c then [[]] + rest
      else [[s[0]] + rest[0]] + rest[1..]
  }

  /** Joining the pieces of a split with the separator gives the string back. */
  lemma {:induction false} JoinSplit(s: string, c: char)
    ensures Join(Split(s, c), [c]) == s
  {
    if s != [] {
      var rest := Split(s[1..], c);
      JoinSplit(s[1..], c);
      if s[0] == c {
        assert Split(s, c) == [[]] + rest;
        assert Join(Split(s, c), [c]) == [] + [c] + Join(rest, [c]);
      } else {
        var pieces := Split(s, c);
        assert pieces[1..] == rest[1..];
        if |rest| == 1 {
          assert Join(pieces, [c]) == [s[0]] + rest[0];
        } else {
          assert Join(rest, [c]) == rest[0] + [c] + Join(rest[1..], [c]);
          assert Join(pieces, [c]) == [s[0]] + rest[0] + [c] + Join(rest[1..], [c]);
        }
      }
    }
  }

  lemma SplitCons(x: char, rest: string, c: char)
    requires x != c
    ensures Split([x] + rest, c) == [[x] + Split(rest, c)[0]] + Split(rest, c)[1..]
  {
    assert ([x] + rest)[1..] == rest;
  }

  lemma SplitSeparator(rest: string, c: char)
    ensures Split([c] + rest, c) == [[]] + Split(rest, c)
  {
    assert ([c] + rest)[1..] == rest;
  }

  /** A separator-free prefix joins the first piece of the split. */
  lemma {:induction false} SplitPrefix(w: string, rest: string, c: char)
    requires c !in w
    ensures Split(w + rest, c) == [w + Split(rest, c)[0]] + Split(rest, c)[1..]
  {
    if w == [] {
      assert w + rest == rest;
      assert w + Split(rest, c)[0] == Split(rest, c)[0];
      assert [Split(rest, c)[0]] + Split(rest, c)[1..] == Split(rest, c);
    } else {
      assert w + rest == [w[0]] + (w[1..] + rest);
      assert w[0] != c && c !in w[1..];
      SplitPrefix(w[1..], rest, c);
      SplitCons(w[0], w[1..] + rest, c);
      var inner := Split(w[1..] + rest, c);
      assert inner[0] == w[1..] + Split(rest, c)[0];
      assert inner[1..] == Split(rest, c)[1..];
      assert [w[0]] + (w[1..] + Split(rest, c)[0]) == w + Split(rest, c)[0];
    }
  }

  /** Splitting a join of separator-free pieces gives the pieces back. */
  lemma {:induction false} SplitJoin(parts: seq<string>, c: char)
    requires |parts| >= 1
    requires forall k :: 0 <= k < |parts| ==> c !in parts[k]
    ensures Split(Join(parts, [c]), c) == parts
  {
    var p0 := parts[0];
    if |parts| == 1 {
      SplitPrefix(p0, [], c);
      assert p0 + [] == p0;
    } else {
      var more := Join(parts[1..], [c]);
      SplitJoin(parts[1..], c);
      assert Join(parts, [c]) == p0 + ([c] + more);
      SplitPrefix(p0, [c] + more, c);
      SplitSeparator(more, c);
      assert p0 + [] == p0;
      assert parts == [p0] + parts[1..];
    }
  }

  /** `s.padStart(width, fill)` for a one-character fill. */
  function PadStart(s: string, width: nat, fill: char): (r: string)
    ensures |r| == if |s| >= width then |s| else width
    ensures r[|r| - |s|..] == s
    ensures forall k :: 0 <= k < |r| - |s| ==> r[k] == fill
  {
    if |s| >= width then s else seq(width - |s|, _ => fill) + s
  }
}
