/** String helpers shared by the model: decimal rendering of counters and
    sizes (JavaScript `toString`, Python `str`), Python's `str.split()`,
    `str.strip()` and `str.replace(pat, "")`, and prefix tests. */
module Text {
  import opened Wrappers

  function DigitChar(d: nat): char
    requires d < 10
  {
    "0123456789"[d]
  }

  predicate IsDigit(c: char) {
    '0' <= c <= '9'
  }

  function DigitValue(c: char): nat
    requires IsDigit(c)
  {
    (c as int - '0' as int) as nat
  }

  /** Decimal rendering of a natural number, without leading zeros. */
  function NatToString(n: nat): (s: string)
    ensures |s| > 0
    ensures forall i :: 0 <= i < |s| ==> IsDigit(s[i])
    ensures |s| > 1 ==> s[0] != '0'
  {
    if n < 10 then [DigitChar(n)] else NatToString(n / 10) + [DigitChar(n % 10)]
  }

  /** Decimal rendering of an integer (`std::to_string`). */
  function IntToString(i: int): (s: string)
    ensures |s| > 0
    ensures i >= 0 ==> s == NatToString(i)
    ensures i < 0 ==> s == "-" + NatToString(-i)
  {
    if i < 0 then "-" + NatToString(-i) else NatToString(i)
  }

  /** Distinct integers render to distinct strings. */
  lemma IntToStringInjective(i: int, j: int)
    requires IntToString(i) == IntToString(j)
    ensures i == j
  {
    if i < 0 && j < 0 {
      assert NatToString(-i) == IntToString(i)[1..];
      assert NatToString(-j) == IntToString(j)[1..];
      NatToStringInjective(-i, -j);
    } else if i >= 0 && j >= 0 {
      NatToStringInjective(i, j);
    }
  }

  /** The value of a string of decimal digits. */
  function DigitsValue(s: string): nat
    requires forall i :: 0 <= i < |s| ==> IsDigit(s[i])
  {
    if |s| == 0 then 0 else DigitsValue(s[..|s| - 1]) * 10 + DigitValue(s[|s| - 1])
  }

  /** Reads back a decimal natural number; `None` for the empty string or a non-digit. */
  function ParseNat(s: string): (r: Option<nat>)
    ensures r.Some? <==> |s| > 0 && forall i :: 0 <= i < |s| ==> IsDigit(s[i])
  {
    if |s| > 0 && forall i :: 0 <= i < |s| ==> IsDigit(s[i]) then Some(DigitsValue(s)) else None
  }

  lemma DigitRoundTrip(d: nat)
    requires d < 10
    ensures IsDigit(DigitChar(d)) && DigitValue(DigitChar(d)) == d
  {
  }

  /** `NatToString` and `ParseNat` are inverse: counters rendered as text can be read back. */
  lemma {:induction false} ParseNatToString(n: nat)
    ensures ParseNat(NatToString(n)) == Some(n)
  {
    var s := NatToString(n);
    DigitsOfNatToString(n);
  }

  lemma {:induction false} DigitsOfNatToString(n: nat)
    ensures DigitsValue(NatToString(n)) == n
  {
    if n < 10 {
      DigitRoundTrip(n);
      var s := NatToString(n);
      assert s[..|s| - 1] == [];
    } else {
      DigitsOfNatToString(n / 10);
      DigitRoundTrip(n % 10);
      var s := NatToString(n);
      assert s[..|s| - 1] == NatToString(n / 10);
    }
  }

  /** Distinct numbers render to distinct strings. */
  lemma NatToStringInjective(m: nat, n: nat)
    requires NatToString(m) == NatToString(n)
    ensures m == n
  {
    ParseNatToString(m);
    ParseNatToString(n);
  }

  predicate StartsWith(s: string, prefix: string) {
    |prefix| <= |s| && s[..|prefix|] == prefix
  }

  /** Whitespace as Python 2's byte-string `split()` and `strip()` see it. */
  predicate IsSpace(c: char) {
    c == ' ' || c == '\t' || c == '\n' || c == '\r' || c == '\U{000B}' || c == '\U{000C}'
  }

  predicate NoSpace(w: string) {
    forall i :: 0 <= i < |w| ==> !IsSpace(w[i])
  }

  /** The longest whitespace-free prefix of `s`. */
  function Word(s: string): (w: string)
    ensures |w| <= |s| && w == s[..|w|]
    ensures NoSpace(w)
    ensures |w| < |s| ==> IsSpace(s[|w|])
  {
    if |s| == 0 || IsSpace(s[0]) then [] else [s[0]] + Word(s[1..])
  }

  /** Python's `str.split()` without arguments: the maximal runs of non-whitespace. */
  function Split(s: string): (pieces: seq<string>)
    ensures forall i :: 0 <= i < |pieces| ==> |pieces[i]| > 0 && NoSpace(pieces[i])
    decreases |s|
  {
    if |s| == 0 then []
    else if IsSpace(s[0]) then Split(s[1..])
    else
      var w := Word(s);
      [w] + Split(s[|w|..])
  }

  /** Joins words with single spaces (the inverse of `Split` on well-formed words). */
  function Join(ws: seq<string>): string {
    if |ws| == 0 then ""
    else if |ws| == 1 then ws[0]
    else ws[0] + " " + Join(ws[1..])
  }

  lemma {:induction false} WordOfSpaced(w: string, rest: string)
    requires NoSpace(w)
    requires |rest| == 0 || IsSpace(rest[0])
    ensures Word(w + rest) == w
    decreases |w|
  {
    if |w| == 0 {
      assert w + rest == rest;
    } else {
      assert (w + rest)[1..] == w[1..] + rest;
      WordOfSpaced(w[1..], rest);
    }
  }

  /** Splitting words joined by spaces gives the words back. */
  lemma {:induction false} SplitJoin(ws: seq<string>)
    requires forall i :: 0 <= i < |ws| ==> |ws[i]| > 0 && NoSpace(ws[i])
    ensures Split(Join(ws)) == ws
  {
    if |ws| == 0 {
    } else if |ws| == 1 {
      var w := ws[0];
      WordOfSpaced(w, "");
      assert w + "" == w;
      assert w[|w|..] == [];
    } else {
      var w := ws[0];
      var rest := " " + Join(ws[1..]);
      assert Join(ws) == w + rest;
      WordOfSpaced(w, rest);
      assert (w + rest)[|w|..] == rest;
      assert rest[1..] == Join(ws[1..]);
      SplitJoin(ws[1..]);
      assert Split(rest) == Split(Join(ws[1..]));
    }
  }

  /** Python's `str.strip()` without arguments. */
  function Strip(s: string): (r: string)
    ensures |r| <= |s|
    ensures |r| > 0 ==> !IsSpace(r[0]) && !IsSpace(r[|r| - 1])
    decreases |s|
  {
    if |s| > 0 && IsSpace(s[0]) then Strip(s[1..])
    else if |s| > 0 && IsSpace(s[|s| - 1]) then Strip(s[..|s| - 1])
    else s
  }

  /** Python's `s.replace(pat, "")`: removes the non-overlapping occurrences of
      `pat`, scanning from the left. */
  function RemoveAll(s: string, pat: string): (r: string)
    requires |pat| > 0
    ensures |r| <= |s|
    decreases |s|
  {
    if |s| < |pat| then s
    else if s[..|pat|] == pat then RemoveAll(s[|pat|..], pat)
    else [s[0]] + RemoveAll(s[1..], pat)
  }

  predicate OccursAt(pat: string, s: string, i: int) {
    0 <= i && i + |pat| <= |s| && s[i..i + |pat|] == pat
  }

  ghost predicate Occurs(pat: string, s: string) {
    exists i :: OccursAt(pat, s, i)
  }

  /** Removing a pattern that does not occur changes nothing. */
  lemma {:induction false} RemoveAllAbsent(s: string, pat: string)
    requires |pat| > 0
    requires !Occurs(pat, s)
    ensures RemoveAll(s, pat) == s
    decreases |s|
  {
    if |s| < |pat| {
    } else {
      assert !OccursAt(pat, s, 0);
      assert !Occurs(pat, s[1..]) by {
        forall i | OccursAt(pat, s[1..], i)
          ensures false
        {
          assert s[1..][i..i + |pat|] == s[i + 1..i + 1 + |pat|];
          assert OccursAt(pat, s, i + 1);
        }
      }
      RemoveAllAbsent(s[1..], pat);
    }
  }
}
