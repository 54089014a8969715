/** Secrets of API keys: random bytes, read as one number and written in base 62. */
module ApiKeys {
  import opened RelayTypes
  import opened Text

  type Byte = b: int | 0 <= b < 256

  const DECIMAL := "0123456789"
  const UPPER := "ABCDEFGHIJKLMNOPQRSTUVWXYZ"
  const LOWER := "abcdefghijklmnopqrstuvwxyz"
  const BASE62 := DECIMAL + UPPER + LOWER

  const KEY_PREFIX_LENGTH := 8

  function Power(base: nat, n: nat): nat {
    if n == 0 then 1 else base * Power(base, n - 1)
  }

  /** Big-endian. */
  function ValueOf(bytes: seq<Byte>): nat {
    if bytes == [] then 0 else 256 * ValueOf(bytes[..|bytes| - 1]) + bytes[|bytes| - 1]
  }

  predicate IsDigit(c: char) {
    '0' <= c <= '9' || 'A' <= c <= 'Z' || 'a' <= c <= 'z'
  }

  function DigitOf(c: char): (d: nat)
    requires IsDigit(c)
    ensures d < 62
  {
    if c <= '9' then c as int - 48 else if c <= 'Z' then c as int - 55 else c as int - 61
  }

  lemma Decimals(k: nat)
    requires k < 10
    ensures DECIMAL[k] as int == 48 + k
  {
  }

  lemma Uppers(k: nat)
    requires k < 26
    ensures UPPER[k] as int == 65 + k
  {
  }

  lemma Lowers(k: nat)
    requires k < 26
    ensures LOWER[k] as int == 97 + k
  {
  }

  lemma Alphabet(d: nat)
    requires d < 62
    ensures IsDigit(BASE62[d]) && DigitOf(BASE62[d]) == d
  {
    if d < 10 {
      Decimals(d);
    } else if d < 36 {
      Uppers(d - 10);
    } else {
      Lowers(d - 36);
    }
  }

  predicate IsNumeral(text: string) {
    forall i | 0 <= i < |text| :: IsDigit(text[i])
  }

  function Decode(text: string): nat
    requires IsNumeral(text)
  {
    if text == "" then 0 else 62 * Decode(text[..|text| - 1]) + DigitOf(text[|text| - 1])
  }

  // ---------------------------------------------------------------- writing a number

  function Digits(value: nat): string {
    if value == 0 then "" else Digits(value / 62) + [BASE62[value % 62]]
  }

  function Numeral(value: nat): string {
    if value == 0 then [BASE62[0]] else Digits(value)
  }

  /** No bytes make no number: `BigInt('0x')` throws. */
  method Base62Encode(bytes: seq<Byte>) returns (encoded: Option<string>)
    ensures encoded == if bytes == [] then None else Some(Numeral(ValueOf(bytes)))
  {
    hide Digits, ValueOf;
    ValueOfMore([], 0);
    if bytes == [] {
      return None;
    }
    var value: nat := 0;
    for n := 0 to |bytes|
      invariant value == ValueOf(bytes[..n])
    {
      assert bytes[..n + 1] == bytes[..n] + [bytes[n]];
      ValueOfMore(bytes[..n], bytes[n]);
      value := 256 * value + bytes[n];
    }
    assert bytes[..|bytes|] == bytes;
    if value == 0 {
      return Some([BASE62[0]]);
    }
    var result := "";
    while value > 0
      invariant Digits(value) + result == Digits(ValueOf(bytes))
    {
      DigitsOf(value);
      result := [BASE62[value % 62]] + result;
      value := value / 62;
    }
    DigitsOfNothing();
    assert "" + result == result;
    encoded := Some(result);
  }

  lemma ValueOfMore(front: seq<Byte>, byte: Byte)
    ensures ValueOf([]) == 0
    ensures ValueOf(front + [byte]) == 256 * ValueOf(front) + byte
  {
    assert (front + [byte])[..|front + [byte]| - 1] == front;
  }

  lemma {:induction false} DigitsDecode(value: nat)
    ensures IsNumeral(Digits(value)) && Decode(Digits(value)) == value
    ensures value > 0 ==> Digits(value) != "" && Digits(value)[0] != '0'
  {
    if value > 0 {
      Alphabet(value % 62);
      DigitsDecode(value / 62);
      assert Digits(value)[..|Digits(value)| - 1] == Digits(value / 62);
      if value < 62 {
        assert DigitOf('0') == 0;
      }
    }
  }

  /** The numeral reads back as the number, and has no zero in front unless it is "0". */
  lemma NumeralDecodes(value: nat)
    ensures IsNumeral(Numeral(value)) && Decode(Numeral(value)) == value
    ensures Numeral(value) != "" && (Numeral(value)[0] == '0' <==> value == 0)
  {
    DigitsDecode(value);
    Alphabet(0);
    Decimals(0);
    assert [BASE62[0]][..0] == "";
  }

  lemma DigitsAppend(value: nat, d: nat)
    requires d < 62 && 62 * value + d > 0
    ensures Digits(62 * value + d) == Digits(value) + [BASE62[d]]
  {
    hide Digits;
    var more := 62 * value + d;
    assert more / 62 == value && more % 62 == d;
    DigitsOf(more);
  }

  lemma DigitsOf(value: nat)
    requires value > 0
    ensures Digits(value) == Digits(value / 62) + [BASE62[value % 62]]
  {
  }

  /** Decoding undoes encoding the other way round, too: every numeral without a leading zero is one number's. */
  lemma {:induction false} DecodeNumeral(text: string)
    requires IsNumeral(text) && text != "" && text[0] != '0'
    ensures Digits(Decode(text)) == text && Decode(text) > 0
  {
    hide Digits, DigitOf, IsDigit, BASE62;
    var front, c := text[..|text| - 1], text[|text| - 1];
    assert text == front + [c];
    DigitIsInAlphabet(c);
    assert Decode(text) == 62 * Decode(front) + DigitOf(c);
    if front == "" {
      DigitsAppend(0, DigitOf(c));
      DigitsOfNothing();
    } else {
      DecodeNumeral(front);
      DigitsAppend(Decode(front), DigitOf(c));
    }
  }

  lemma DigitsOfNothing()
    ensures Digits(0) == ""
  {
  }

  lemma DigitIsInAlphabet(c: char)
    requires IsDigit(c)
    ensures BASE62[DigitOf(c)] == c
    ensures DigitOf(c) == 0 <==> c == '0'
  {
    if DigitOf(c) < 10 {
      Decimals(DigitOf(c));
    } else if DigitOf(c) < 36 {
      Uppers(DigitOf(c) - 10);
    } else {
      Lowers(DigitOf(c) - 36);
    }
  }

  // ---------------------------------------------------------------- how long it gets

  lemma {:induction false} DigitsLength(value: nat, n: nat)
    requires value < Power(62, n)
    ensures |Digits(value)| <= n
  {
    if value > 0 {
      assert value / 62 < Power(62, n - 1);
      DigitsLength(value / 62, n - 1);
    }
  }

  lemma {:induction false} ValueBound(bytes: seq<Byte>)
    ensures ValueOf(bytes) < Power(256, |bytes|)
  {
    if bytes != [] {
      ValueBound(bytes[..|bytes| - 1]);
    }
  }

  lemma {:induction false} PowerSum(base: nat, m: nat, n: nat)
    ensures Power(base, m + n) == Power(base, m) * Power(base, n)
  {
    if m > 0 {
      PowerSum(base, m - 1, n);
      assert Power(base, m + n) == base * (Power(base, m - 1) * Power(base, n));
    }
  }

  lemma {:induction false} PowerOfPower(base: nat, m: nat, n: nat)
    ensures Power(Power(base, m), n) == Power(base, m * n)
  {
    if n > 0 {
      PowerOfPower(base, m, n - 1);
      PowerSum(base, m, m * (n - 1));
      assert m + m * (n - 1) == m * n;
    }
  }

  lemma {:induction false} PowerGrows(small: nat, large: nat, n: nat)
    requires small <= large
    ensures Power(small, n) <= Power(large, n)
  {
    if n > 0 {
      PowerGrows(small, large, n - 1);
      ProductGrows(small, large, Power(small, n - 1), Power(large, n - 1));
    }
  }

  lemma ProductGrows(a: nat, b: nat, c: nat, d: nat)
    requires a <= b && c <= d
    ensures a * c <= b * d
  {
    assert a * c <= a * d;
    assert (b - a) * d >= 0;
  }

  lemma SecretFits()
    ensures Power(256, 48) <= Power(62, 65)
  {
    assert Power(2, 8) == 256 && Power(2, 11) == 2048;
    PowerOfPower(2, 8, 48);
    PowerOfPower(2, 11, 7);
    assert Power(2048, 7) <= Power(62, 13);
    PowerOfPower(2, 77, 5);
    PowerOfPower(62, 13, 5);
    PowerSum(2, 384, 1);
    PowerGrows(Power(2, 77), Power(62, 13), 5);
  }

  /** The 48 random bytes of a secret take at most 65 digits. */
  lemma SecretLength(bytes: seq<Byte>)
    requires |bytes| == 48
    ensures |Numeral(ValueOf(bytes))| <= 65
  {
    ValueBound(bytes);
    SecretFits();
    DigitsLength(ValueOf(bytes), 65);
  }

  // ---------------------------------------------------------------- which number it is

  /** Bytes in front count for more: by a factor of 256 for each byte behind them. */
  lemma {:induction false} ValueOfConcat(front: seq<Byte>, back: seq<Byte>)
    ensures ValueOf(front + back) == ValueOf(front) * Power(256, |back|) + ValueOf(back)
    ensures forall b: Byte :: ValueOf([b]) == b
  {
    if back == [] {
      assert front + back == front;
    } else {
      var n := |back| - 1;
      assert (front + back)[..|front| + n] == front + back[..n];
      ValueOfConcat(front, back[..n]);
      Distributed(ValueOf(front), Power(256, n), ValueOf(back[..n]));
    }
    forall b: Byte ensures ValueOf([b]) == b {
      assert [b][..0] == [];
    }
  }

  lemma Distributed(a: nat, p: nat, c: nat)
    ensures 256 * (a * p + c) == a * (256 * p) + 256 * c
  {
  }

  /** Bytes of one length make different numbers unless they are the same. */
  lemma {:induction false} ValueOfInjective(a: seq<Byte>, b: seq<Byte>)
    requires |a| == |b| && ValueOf(a) == ValueOf(b)
    ensures a == b
  {
    if a != [] {
      var n := |a| - 1;
      ValueOfInjective(a[..n], b[..n]);
      assert a == a[..n] + [a[n]] && b == b[..n] + [b[n]];
    }
  }

  // ---------------------------------------------------------------- the prefix of a key

  function Secret(env: string, bytes: seq<Byte>): string {
    "roomful" + ['_'] + env + ['_'] + Numeral(ValueOf(bytes))
  }

  function ExtractKeyPrefix(secret: string): string {
    var parts := Split(secret, '_');
    var payload := if |parts| > 2 then parts[2] else secret;
    if |payload| <= KEY_PREFIX_LENGTH then payload else payload[..KEY_PREFIX_LENGTH]
  }

  /** The prefix kept for a key is the beginning of its random part, which no separator can cut short. */
  lemma PrefixIsOfRandomPart(env: string, bytes: seq<Byte>)
    requires '_' !in env
    ensures var numeral := Numeral(ValueOf(bytes));
            && ExtractKeyPrefix(Secret(env, bytes)) <= numeral
            && |ExtractKeyPrefix(Secret(env, bytes))| == if |numeral| < 8 then |numeral| else 8
  {
    var numeral := Numeral(ValueOf(bytes));
    NumeralDecodes(ValueOf(bytes));
    assert '_' !in numeral;
    SplitPart("roomful", '_');
    SplitExtended("roomful", env, '_');
    SplitExtended("roomful" + ['_'] + env, numeral, '_');
    assert Split(Secret(env, bytes), '_') == ["roomful"] + [env] + [numeral];
  }
}
