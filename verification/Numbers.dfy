/** Decimal numbers as text, written with `{}` and read with `parse`. */
module Numbers {
  import opened Strings
  import opened Newc

  predicate Digits(s: Bytes) { s != [] && forall i :: 0 <= i < |s| ==> 48 <= s[i] <= 57 }

  function Value(s: Bytes): nat
    requires forall i :: 0 <= i < |s| ==> 48 <= s[i] <= 57
  {
    if s == [] then 0 else 10 * Value(s[..|s| - 1]) + (s[|s| - 1] - 48)
  }

  /** `parse` for an unsigned type: an optional plus sign, digits, no overflow. */
  function ParseUnsigned(s: Bytes, limit: nat): (r: Option<nat>)
    ensures r.Some? ==> r.value < limit
  {
    var d := if s != [] && s[0] == 43 then s[1..] else s;
    if Digits(d) && Value(d) < limit then Some(Value(d)) else None
  }

  function Decimal(n: nat): Bytes {
    (if n < 10 then [] else Decimal(n / 10)) + [48 + n % 10]
  }

  /** What is written reads back. */
  lemma {:induction false} DecimalReads(n: nat)
    ensures Digits(Decimal(n)) && Value(Decimal(n)) == n
    decreases n
  {
    var t := Decimal(n);
    if n >= 10 {
      DecimalReads(n / 10);
      assert t[..|t| - 1] == Decimal(n / 10);
    } else {
      assert t[..|t| - 1] == [];
    }
  }

  /** `{:03}` */
  function Decimal3(n: nat): Bytes {
    (if n < 10 then [48, 48] else if n < 100 then [48] else []) + Decimal(n)
  }

  lemma {:induction false} Decimal3Reads(n: nat)
    ensures Digits(Decimal3(n)) && Value(Decimal3(n)) == n
  {
    DecimalReads(n);
    var d := Decimal(n);
    if n < 10 {
      LeadingZero(d);
      assert Decimal3(n) == [48] + ([48] + d);
      LeadingZero([48] + d);
    } else if n < 100 {
      LeadingZero(d);
    } else {
      assert Decimal3(n) == d;
    }
  }

  lemma {:induction false} LeadingZero(d: Bytes)
    requires Digits(d)
    ensures Digits([48] + d) && Value([48] + d) == Value(d)
    decreases |d|
  {
    var z := [48] + d;
    assert z[..|z| - 1] == [48] + d[..|d| - 1];
    if |d| > 1 {
      LeadingZero(d[..|d| - 1]);
    } else {
      assert d[..0] == [];
      assert [48][..0] == [];
      assert Value([48]) == 0;
    }
  }

  // ---- bytes as characters ------------------------------------------------

  function Text(b: Bytes): string { seq(|b|, i requires 0 <= i < |b| => b[i] as char) }

  lemma {:induction false} EncodeText(b: Bytes)
    ensures Encode(Text(b)) == b
    decreases |b|
  {
    if b != [] {
      EncodeText(b[1..]);
      assert Text(b)[1..] == Text(b[1..]);
    }
  }

  /** Numbers below a thousand take three digits. */
  lemma Decimal3Width(n: nat)
    requires n < 1000
    ensures |Decimal3(n)| == 3
  {
    if n >= 10 { assert |Decimal(n / 10)| == 1 || n >= 100; }
    if n >= 100 { assert |Decimal(n / 10 / 10)| == 1; assert |Decimal(n / 10)| == 2; }
  }
}
