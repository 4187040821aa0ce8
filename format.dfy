/**
 * The two fmt verbs the error messages use: %x (lower-case hexadecimal, two
 * digits per byte for a byte slice or hash, no leading zeros for an integer)
 * and %d (decimal, with a minus sign for a negative int).
 */
module Format {
  import opened Common

  function DigitChar(d: nat): (c: char)
    requires d < 16
  {
    if d < 10 then (48 + d) as char else (87 + d) as char
  }

  /** The value of a lower-case hexadecimal digit; other characters read as 0. */
  function DigitValue(c: char): (d: nat)
    ensures d < 16
  {
    if '0' <= c <= '9' then c as int - 48
    else if 'a' <= c <= 'f' then c as int - 87
    else 0
  }

  lemma DigitValueOfChar(d: nat)
    requires d < 16
    ensures DigitValue(DigitChar(d)) == d
  {
  }

  /** The digits of n in the given base, most significant first, without leading zeros. */
  function Digits(n: nat, base: nat): (s: string)
    requires 2 <= base <= 16
    ensures |s| >= 1
    decreases n
  {
    if n < base then [DigitChar(n)] else Digits(n / base, base) + [DigitChar(n % base)]
  }

  /** Reads a digit string back: the inverse of Digits. */
  function ParseDigits(s: string, base: nat): nat
  {
    if s == [] then 0 else ParseDigits(s[..|s| - 1], base) * base + DigitValue(s[|s| - 1])
  }

  lemma {:induction false} DigitsRoundTrip(n: nat, base: nat)
    requires 2 <= base <= 16
    ensures ParseDigits(Digits(n, base), base) == n
    decreases n
  {
    if n < base {
      DigitValueOfChar(n);
      assert [DigitChar(n)][..0] == [];
    } else {
      var q, r := n / base, n % base;
      var s := Digits(q, base);
      var t := s + [DigitChar(r)];
      assert Digits(n, base) == t;
      assert t[..|t| - 1] == s;
      DivMod(n, base);
      DigitsRoundTrip(q, base);
      DigitValueOfChar(r);
      assert ParseDigits(t, base) == q * base + r;
      DivMod(n, base);
    }
  }

  lemma DivMod(n: nat, base: nat)
    requires base >= 2
    ensures (n / base) * base + n % base == n
    ensures 0 <= n % base < base
    ensures n >= base ==> 0 < n / base < n
  {
    var q, r := n / base, n % base;
    assert q * base + r == n;
    if n >= base {
      assert q >= 1;
      assert q * base >= q * 2;
    }
  }

  /** %d on an int. */
  function Decimal(i: int): (s: string)
    ensures |s| >= 1
  {
    if i < 0 then "-" + Digits(-i, 10) else Digits(i, 10)
  }

  /** %x on an integer (uint64 or *big.Int). */
  function HexNumber(n: nat): (s: string)
    ensures ParseDigits(s, 16) == n
  {
    DigitsRoundTrip(n, 16);
    Digits(n, 16)
  }

  /** %x on a byte slice or a hash: two lower-case digits per byte. */
  function Hex(b: Bytes): (s: string)
    ensures |s| == 2 * |b|
  {
    if b == [] then "" else [DigitChar(b[0] as nat / 16), DigitChar(b[0] as nat % 16)] + Hex(b[1..])
  }

  /** Reads pairs of hexadecimal digits back into bytes: the inverse of Hex. */
  function Unhex(s: string): Bytes
    decreases |s|
  {
    if |s| < 2 then [] else [(DigitValue(s[0]) * 16 + DigitValue(s[1])) as byte] + Unhex(s[2..])
  }

  lemma {:induction false} UnhexHex(b: Bytes)
    ensures Unhex(Hex(b)) == b
  {
    if b != [] {
      var s := Hex(b);
      DigitValueOfChar(b[0] as nat / 16);
      DigitValueOfChar(b[0] as nat % 16);
      assert s[2..] == Hex(b[1..]);
      UnhexHex(b[1..]);
      assert b == [b[0]] + b[1..];
    }
  }
}
