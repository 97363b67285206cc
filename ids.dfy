/**
 * Record ids on the admin screens: the decimal string of a counter, as
 * `(list.length + 1).toString()` produces it, and the fresh-id rule that
 * keeps ids unique.
 */
module Ids {

  function DigitChar(d: nat): char
    requires d < 10
  {
    "0123456789"[d]
  }

  function DigitValue(c: char): nat {
    if '0' <= c <= '9' then c as int - '0' as int else 0
  }

  /** `n.toString()` for a natural number: decimal digits, no leading zero. */
  function Decimal(n: nat): (r: string)
    ensures |r| >= 1
    ensures forall i :: 0 <= i < |r| ==> '0' <= r[i] <= '9'
    ensures r[0] == '0' <==> n == 0
  {
    if n < 10 then [DigitChar(n)] else Decimal(n / 10) + [DigitChar(n % 10)]
  }

  /** Reads a string of decimal digits back as a number (non-digits read as 0). */
  function ParseDecimal(s: string): nat {
    if s == [] then 0 else ParseDecimal(s[..|s| - 1]) * 10 + DigitValue(s[|s| - 1])
  }

  lemma {:induction false} ParseDecimalInverse(n: nat)
    ensures ParseDecimal(Decimal(n)) == n
  {
    if n >= 10 {
      var d := Decimal(n);
      assert d[..|d| - 1] == Decimal(n / 10);
      ParseDecimalInverse(n / 10);
    }
  }

  /** Distinct counters give distinct ids. */
  lemma DecimalInjective(m: nat, n: nat)
    ensures Decimal(m) == Decimal(n) ==> m == n
  {
    ParseDecimalInverse(m);
    ParseDecimalInverse(n);
  }

  /** A non-empty digit string with no leading zero: the shape `toString` gives a natural number. */
  predicate Canonical(s: string) {
    |s| >= 1 && s[0] != '0' && forall i :: 0 <= i < |s| ==> '0' <= s[i] <= '9'
  }

  /** A canonical string with a leading non-zero digit reads as a positive number. */
  lemma {:induction false} CanonicalPositive(s: string)
    requires Canonical(s)
    ensures ParseDecimal(s) >= 1
  {
    if |s| > 1 {
      CanonicalPositive(s[..|s| - 1]);
    }
  }

  /** Reading a canonical string and writing the number back gives the same string. */
  lemma {:induction false} CanonicalIsDecimal(s: string)
    requires Canonical(s)
    ensures Decimal(ParseDecimal(s)) == s
  {
    var n := |s|;
    var d := DigitValue(s[n - 1]);
    if n == 1 {
      assert DigitChar(d) == s[0];
    } else {
      var p := s[..n - 1];
      CanonicalPositive(p);
      CanonicalIsDecimal(p);
      var m := ParseDecimal(s);
      assert m == ParseDecimal(p) * 10 + d;
      assert m / 10 == ParseDecimal(p) && m % 10 == d;
      assert DigitChar(d) == s[n - 1];
      assert s == p + [s[n - 1]];
    }
  }

  /** No id occurs twice. */
  predicate Unique(ids: seq<string>) {
    forall i, j :: 0 <= i < j < |ids| ==> ids[i] != ids[j]
  }

  /** The id the add handlers give a new record: the old length plus one. */
  function NextIdAsWritten(length: nat): (id: string)
    ensures Canonical(id)
    ensures ParseDecimal(id) == length + 1
  {
    ParseDecimalInverse(length + 1);
    Decimal(length + 1)
  }

  function MaxParsed(ids: seq<string>): (m: nat)
    ensures forall i :: 0 <= i < |ids| ==> ParseDecimal(ids[i]) <= m
  {
    if ids == [] then 0
    else
      var rest := MaxParsed(ids[1..]);
      assert forall i :: 1 <= i < |ids| ==> ids[i] == ids[1..][i - 1];
      if ParseDecimal(ids[0]) > rest then ParseDecimal(ids[0]) else rest
  }

  /** A corrected id rule: one more than the largest id in use. */
  function FreshId(ids: seq<string>): (id: string)
    ensures id !in ids
  {
    var n := MaxParsed(ids) + 1;
    ParseDecimalInverse(n);
    Decimal(n)
  }

  /** Appending a record whose id is fresh keeps the ids unique. */
  lemma FreshIdKeepsUnique(ids: seq<string>)
    requires Unique(ids)
    ensures Unique(ids + [FreshId(ids)])
  {
    var next := FreshId(ids);
    var all := ids + [next];
    forall i, j | 0 <= i < j < |all| ensures all[i] != all[j] {
      if j == |ids| {
        assert all[i] == ids[i];
      }
    }
  }
}
