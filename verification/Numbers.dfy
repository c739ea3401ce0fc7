/** Decimal numbers: what sprintf("%d") writes, scanf("%d") and atoi read back. */
module Numbers {
  import opened Model
  import opened Document

  function DigitChar(d: nat): (c: char)
    requires d < 10
    ensures IsDigit(c) && (c - '0') as int == d
  {
    '0' + d as char
  }

  function PrintNat(n: nat): (s: string)
    ensures s != [] && forall i :: 0 <= i < |s| ==> IsDigit(s[i])
  {
    (if n < 10 then [] else PrintNat(n / 10)) + [DigitChar(n % 10)]
  }

  function PrintInt(n: int): string {
    if n < 0 then "-" + PrintNat(-n) else PrintNat(n)
  }

  lemma {:induction false} DigitsSnoc(s: string, c: char, acc: int)
    requires IsDigit(c) && forall i :: 0 <= i < |s| ==> IsDigit(s[i])
    ensures DigitsFrom(s + [c], acc) == 10 * DigitsFrom(s, acc) + (c - '0') as int
  {
    if s == [] {
      assert (s + [c])[1..] == [];
    } else {
      DigitsSnoc(s[1..], c, 10 * acc + (s[0] - '0') as int);
      assert (s + [c])[1..] == s[1..] + [c];
    }
  }

  lemma {:induction false} PrintedNat(n: nat)
    ensures DigitsFrom(PrintNat(n), 0) == n
  {
    if n < 10 {
      assert PrintNat(n)[1..] == [];
    } else {
      PrintedNat(n / 10);
      DigitsSnoc(PrintNat(n / 10), DigitChar(n % 10), 0);
    }
  }

  lemma PrintedInt(n: int)
    ensures ScanInt(PrintInt(n)) == Some(n) && Atoi(PrintInt(n)) == n
  {
    PrintedNat(if n < 0 then -n else n);
    if n < 0 {
      assert PrintInt(n)[1..] == PrintNat(-n);
    }
  }
}
