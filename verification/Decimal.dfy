/** Decimal numbers in text: strconv.Itoa, zero padding, and reading digits back. */
module Decimal {

  predicate IsDigit(c: char) { '0' <= c <= '9' }

  predicate AllDigits(s: string) {
    forall i :: 0 <= i < |s| ==> IsDigit(s[i])
  }

  function DigitChar(n: int): char
    requires 0 <= n < 10
  {
    ('0' as int + n) as char
  }

  /** The value of a run of digits. */
  function Number(s: string): int
    requires AllDigits(s)
  {
    if s == "" then 0 else 10 * Number(s[..|s| - 1]) + (s[|s| - 1] as int - '0' as int)
  }

  lemma NumberOfTwo(a: char, b: char)
    requires IsDigit(a) && IsDigit(b)
    ensures Number([a]) == a as int - '0' as int
    ensures Number([a, b]) == 10 * Number([a]) + (b as int - '0' as int)
  {
    assert [a][..0] == "" && [a, b][..1] == [a];
  }

  function SecondsPer(unit: char): nat {
    match unit
    case 's' => 1
    case 'm' => 60
    case 'h' => 3600
    case 'd' => 86400
    case _ => 0
  }

  /** The length that a period's name spells, a number and a unit, in seconds; 0 for other names. */
  function Spelled(name: string): int {
    if name != "" && AllDigits(name[..|name| - 1]) then Number(name[..|name| - 1]) * SecondsPer(name[|name| - 1]) else 0
  }

  lemma SpelledShort(name: string)
    requires |name| == 2 && IsDigit(name[0])
    ensures Spelled(name) == (name[0] as int - '0' as int) * SecondsPer(name[1])
  {
    NumberOfTwo(name[0], name[0]);
    assert name[..1] == [name[0]];
  }

  /** `%0*d`: the last `width` digits. */
  function Pad(n: nat, width: nat): string {
    if width == 0 then "" else Pad(n / 10, width - 1) + [DigitChar(n % 10)]
  }

  function Pow10(width: nat): nat {
    if width == 0 then 1 else 10 * Pow10(width - 1)
  }

  lemma {:induction false} PadReads(n: nat, width: nat)
    requires n < Pow10(width)
    ensures |Pad(n, width)| == width && AllDigits(Pad(n, width)) && Number(Pad(n, width)) == n
  {
    if width > 0 {
      PadReads(n / 10, width - 1);
      assert Pad(n, width)[..width - 1] == Pad(n / 10, width - 1);
    }
  }

  /** `%d`. */
  function Itoa(n: int): string
    decreases if n < 0 then 1 - n else n
  {
    if n < 0 then "-" + Itoa(-n)
    else if n < 10 then [DigitChar(n)]
    else Itoa(n / 10) + [DigitChar(n % 10)]
  }

  lemma {:induction false} ItoaReads(n: nat)
    ensures Itoa(n) != "" && AllDigits(Itoa(n)) && Number(Itoa(n)) == n
  {
    if n >= 10 {
      ItoaReads(n / 10);
      assert Itoa(n)[..|Itoa(n)| - 1] == Itoa(n / 10);
    } else {
      assert Itoa(n)[..0] == "";
    }
  }

  lemma ItoaInjective(a: int, b: int)
    requires Itoa(a) == Itoa(b)
    ensures a == b
  {
    ItoaReads(if a < 0 then -a else a);
    ItoaReads(if b < 0 then -b else b);
    assert a < 0 ==> Itoa(a)[0] == '-' && Itoa(a)[1..] == Itoa(-a);
    assert b < 0 ==> Itoa(b)[0] == '-' && Itoa(b)[1..] == Itoa(-b);
    assert a >= 0 ==> IsDigit(Itoa(a)[0]);
    assert b >= 0 ==> IsDigit(Itoa(b)[0]);
  }
}
