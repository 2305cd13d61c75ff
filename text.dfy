/** String helpers shared by the statement builders: joining with a separator
    (C#'s string.Join) and decimal rendering of non-negative integers. */
module Text {

  /** string.Join(sep, parts). */
  function Join(parts: seq<string>, sep: string): string
  {
    if |parts| == 0 then ""
    else if |parts| == 1 then parts[0]
    else parts[0] + sep + Join(parts[1..], sep)
  }

  /** Joining a part in front of a non-empty list. */
  lemma JoinCons(first: string, rest: seq<string>, sep: string)
    requires |rest| > 0
    ensures Join([first] + rest, sep) == first + sep + Join(rest, sep)
  {
    assert ([first] + rest)[1..] == rest;
  }

  /** Appending a part to a non-empty list appends the separator and that part. */
  lemma {:induction false} JoinAppend(parts: seq<string>, last: string, sep: string)
    requires |parts| > 0
    ensures Join(parts + [last], sep) == Join(parts, sep) + sep + last
  {
    if |parts| == 1 {
      assert parts + [last] == [parts[0], last];
      assert ([parts[0], last])[1..] == [last];
    } else {
      assert (parts + [last])[1..] == parts[1..] + [last];
      JoinAppend(parts[1..], last, sep);
    }
  }

  /** Joining two non-empty lists puts one separator between their joins. */
  lemma {:induction false} JoinConcat(xs: seq<string>, ys: seq<string>, sep: string)
    requires |xs| > 0 && |ys| > 0
    ensures Join(xs + ys, sep) == Join(xs, sep) + sep + Join(ys, sep)
    decreases |ys|
  {
    if |ys| == 1 {
      assert ys == [ys[0]];
      JoinAppend(xs, ys[0], sep);
    } else {
      var init := ys[..|ys| - 1];
      var last := ys[|ys| - 1];
      assert ys == init + [last];
      assert xs + ys == (xs + init) + [last];
      JoinConcat(xs, init, sep);
      JoinAppend(xs + init, last, sep);
      JoinAppend(init, last, sep);
    }
  }

  predicate IsDigit(c: char)
  {
    '0' <= c <= '9'
  }

  function DigitChar(d: nat): (c: char)
    requires d < 10
    ensures IsDigit(c)
  {
    "0123456789"[d]
  }

  function DigitValue(c: char): (d: nat)
    requires IsDigit(c)
    ensures d < 10
  {
    (c as int - '0' as int) as nat
  }

  /** Int32.ToString() for the non-negative values the builders print:
      digits only, never empty, no leading zero. */
  function NatToString(n: nat): (r: string)
    ensures |r| > 0
    ensures forall i :: 0 <= i < |r| ==> IsDigit(r[i])
    ensures r[0] == '0' ==> n == 0
    decreases n
  {
    if n < 10 then [DigitChar(n)]
    else NatToString(n / 10) + [DigitChar(n % 10)]
  }

  /** Reads a run of decimal digits back as a number. */
  function ParseNat(s: string): nat
    requires forall i :: 0 <= i < |s| ==> IsDigit(s[i])
    decreases |s|
  {
    if |s| == 0 then 0
    else ParseNat(s[..|s| - 1]) * 10 + DigitValue(s[|s| - 1])
  }

  lemma DigitRoundTrip(d: nat)
    requires d < 10
    ensures DigitValue(DigitChar(d)) == d
  {
  }

  /** Rendering a number and reading it back gives the number. */
  lemma {:induction false} ParseNatToString(n: nat)
    ensures ParseNat(NatToString(n)) == n
    decreases n
  {
    var r := NatToString(n);
    if n < 10 {
      DigitRoundTrip(n);
      assert r[..|r| - 1] == [];
    } else {
      var prefix := NatToString(n / 10);
      assert r == prefix + [DigitChar(n % 10)];
      assert r[..|r| - 1] == prefix;
      ParseNatToString(n / 10);
      DigitRoundTrip(n % 10);
    }
  }

  /** Different numbers render as different text. */
  lemma NatToStringInjective(m: nat, n: nat)
    requires NatToString(m) == NatToString(n)
    ensures m == n
  {
    ParseNatToString(m);
    ParseNatToString(n);
  }
}
