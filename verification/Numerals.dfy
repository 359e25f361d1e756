/** Decimal numerals. */
module Numerals {

  function Decimal(n: nat): string {
    var digit := [(48 + n % 10) as char];
    if n < 10 then digit else Decimal(n / 10) + digit
  }

  /** The number a text of digits stands for, read from its first digit on. */
  function ReadFrom(before: nat, text: string): nat
    decreases |text|
  {
    if text == "" then before
    else ReadFrom(before * 10 + if '0' <= text[0] <= '9' then text[0] as int - '0' as int else 0, text[1..])
  }

  predicate Digits(text: string) {
    text != "" && forall i :: 0 <= i < |text| ==> '0' <= text[i] <= '9'
  }

  lemma {:induction false} ReadSnoc(before: nat, text: string, digit: char)
    requires '0' <= digit <= '9'
    ensures ReadFrom(before, text + [digit]) == ReadFrom(before, text) * 10 + (digit as int - '0' as int)
    decreases |text|
  {
    var all := text + [digit];
    if text == "" {
      assert all[1..] == "";
    } else {
      assert all[1..] == text[1..] + [digit];
      ReadSnoc(before * 10 + if '0' <= text[0] <= '9' then text[0] as int - '0' as int else 0, text[1..], digit);
    }
  }

  /** A numeral is digits without a leading zero, and reads back. */
  lemma {:induction false} DecimalReads(n: nat)
    ensures Digits(Decimal(n)) && ReadFrom(0, Decimal(n)) == n && (n > 0 ==> Decimal(n)[0] != '0')
    decreases n
  {
    var digit := (48 + n % 10) as char;
    if n >= 10 {
      DecimalReads(n / 10);
      ReadSnoc(0, Decimal(n / 10), digit);
    } else {
      ReadSnoc(0, "", digit);
      assert "" + [digit] == Decimal(n);
    }
  }
}
