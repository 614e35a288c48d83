/** Vocabulary shared by the models of the commitment optimizer's components. */
module Common {

  datatype Option<+T> = None | Some(value: T)

  function Min(a: int, b: int): int {
    if a < b then a else b
  }

  function Max(a: int, b: int): int {
    if a > b then a else b
  }

  /** The ceiling of a / b. */
  function CeilDiv(a: int, b: int): int
    requires b > 0
  {
    (a + b - 1) / b
  }

  /** JavaScript's bigint division, which truncates toward zero. */
  function TruncDiv(a: int, b: int): int
    requires b > 0
  {
    if a >= 0 then a / b else -(-a / b)
  }

  function Sum(values: seq<int>): int {
    if values == [] then 0 else values[0] + Sum(values[1..])
  }

  lemma ConsMember<T>(items: seq<T>, x: T)
    requires items != []
    ensures x in items <==> x == items[0] || x in items[1..]
  {
    assert items == [items[0]] + items[1..];
  }

  /** A finite set is no larger than one that includes it, and as large only when equal. */
  lemma SubsetSize<T>(small: set<T>, big: set<T>)
    requires small <= big
    ensures |small| <= |big|
    ensures |small| == |big| <==> small == big
  {
    assert big == small + (big - small);
  }

  ghost predicate InjectiveOn<T(!new), U(!new)>(f: map<T, U>) {
    forall x, y | x in f && y in f && f[x] == f[y] :: x == y
  }

  lemma {:induction false} InjectiveImageSize<T(!new), U(!new)>(f: map<T, U>)
    requires InjectiveOn(f)
    ensures |f.Values| == |f|
    decreases |f|
  {
    if f != map[] {
      var x :| x in f;
      var rest := f - {x};
      assert f.Values == rest.Values + {f[x]} by {
        forall v | v in f.Values
          ensures v in rest.Values + {f[x]}
        {
          var y :| y in f && f[y] == v;
          assert y != x ==> y in rest && rest[y] == v;
        }
      }
      assert f.Keys == rest.Keys + {x};
      InjectiveImageSize(rest);
    }
  }

  /** An injection of a finite set into itself hits every element. */
  lemma InjectiveIsOnto<T(!new)>(f: map<T, T>)
    requires InjectiveOn(f) && f.Values <= f.Keys
    ensures f.Values == f.Keys
  {
    InjectiveImageSize(f);
    SubsetSize(f.Values, f.Keys);
  }
}

/** JavaScript string whitespace, as String.prototype.trim sees it. */
module Text {

  predicate IsSpace(c: char) {
    var code := c as int;
    || 0x09 <= code <= 0x0d || code == 0x20 || code == 0xa0 || code == 0x1680
    || 0x2000 <= code <= 0x200a || code == 0x2028 || code == 0x2029
    || code == 0x202f || code == 0x205f || code == 0x3000 || code == 0xfeff
  }

  function TrimStart(s: string): string {
    if s != "" && IsSpace(s[0]) then TrimStart(s[1..]) else s
  }

  function TrimEnd(s: string): string {
    if s != "" && IsSpace(s[|s| - 1]) then TrimEnd(s[..|s| - 1]) else s
  }

  function Trim(s: string): string {
    TrimEnd(TrimStart(s))
  }

  /** PostgreSQL btrim with its default character set: only U+0020 is removed. */
  predicate IsBtrimmed(s: string) {
    s == "" || (s[0] != ' ' && s[|s| - 1] != ' ')
  }
}

/** Decimal numerals: BigInt(text), its inverse toString, and fixed-width fractions. */
module Decimal {

  predicate IsDigit(c: char) {
    '0' <= c <= '9'
  }

  predicate IsDigits(text: string) {
    text != "" && forall c | c in text :: IsDigit(c)
  }

  function DigitValue(c: char): (v: nat)
    requires IsDigit(c)
    ensures v < 10
  {
    c as int - '0' as int
  }

  function Digit(n: nat): (c: char)
    requires n < 10
    ensures IsDigit(c) && DigitValue(c) == n
  {
    '0' + n as char
  }

  /** BigInt(text). */
  function Number(text: string): nat
    requires forall c | c in text :: IsDigit(c)
  {
    if text == "" then 0 else 10 * Number(text[..|text| - 1]) + DigitValue(text[|text| - 1])
  }

  /** bigint toString. */
  function Numeral(n: nat): string {
    if n < 10 then [Digit(n)] else Numeral(n / 10) + [Digit(n % 10)]
  }

  /** (?:0|[1-9][0-9]*) */
  predicate IsNumeral(text: string) {
    IsDigits(text) && (text[0] == '0' ==> |text| == 1)
  }

  lemma {:induction false} NumeralReads(n: nat)
    ensures IsNumeral(Numeral(n)) && Number(Numeral(n)) == n && (n > 0 ==> Numeral(n)[0] != '0')
  {
    if n >= 10 {
      NumeralReads(n / 10);
      assert Numeral(n)[..|Numeral(n)| - 1] == Numeral(n / 10);
    } else {
      assert Numeral(n)[..0] == "";
    }
  }

  lemma {:induction false} LeadingDigitCounts(text: string)
    requires IsDigits(text) && text[0] != '0'
    ensures Number(text) >= 1
  {
    if |text| > 1 {
      assert text[..|text| - 1] != "" && text[..|text| - 1][0] == text[0];
      LeadingDigitCounts(text[..|text| - 1]);
    } else {
      assert text[..0] == "";
    }
  }

  lemma {:induction false} ReadingNumeral(text: string)
    requires IsNumeral(text)
    ensures Numeral(Number(text)) == text
  {
    var n := |text| - 1;
    var head := text[..n];
    assert Digit(DigitValue(text[n])) == text[n];
    if n == 0 {
      assert head == "" && text == [text[0]];
    } else {
      assert head[0] == text[0];
      LeadingDigitCounts(head);
      ReadingNumeral(head);
      assert Number(text) / 10 == Number(head) && Number(text) % 10 == DigitValue(text[n]);
      assert text == head + [text[n]];
    }
  }

  /** The last width digits of n. */
  function Fixed(n: nat, width: nat): (text: string)
    ensures |text| == width && forall c | c in text :: IsDigit(c)
  {
    if width == 0 then "" else Fixed(n / 10, width - 1) + [Digit(n % 10)]
  }

  function Power10(n: nat): nat {
    if n == 0 then 1 else 10 * Power10(n - 1)
  }

  /** padStart(width, "0"). */
  function Padded(text: string, width: nat): string
    decreases width - |text|
  {
    if |text| >= width then text else Padded("0" + text, width)
  }

  lemma {:induction false} PaddedSnoc(text: string, c: char, width: nat)
    ensures Padded(text + [c], width + 1) == Padded(text, width) + [c]
    decreases width - |text|
  {
    if |text| < width {
      PaddedSnoc("0" + text, c, width);
      assert "0" + (text + [c]) == "0" + text + [c];
    }
  }

  lemma {:induction false} PaddedNumeral(n: nat, width: nat)
    requires width >= 1 && n < Power10(width)
    ensures Padded(Numeral(n), width) == Fixed(n, width)
  {
    if width == 1 {
      assert Power10(1) == 10 * Power10(0);
      assert Fixed(n, 1) == Fixed(n / 10, 0) + [Digit(n % 10)];
    } else {
      PaddedNumeral(n / 10, width - 1);
      if n >= 10 {
        PaddedSnoc(Numeral(n / 10), Digit(n % 10), width - 1);
      } else {
        PaddedSnoc("", Digit(n), width - 1);
        PaddedSnoc("", '0', width - 2);
        assert "" + [Digit(n)] == Numeral(n) && "" + ['0'] == Numeral(0);
        assert "0" + "" == "0";
      }
    }
  }

  lemma {:induction false} FixedReads(n: nat, width: nat)
    requires n < Power10(width)
    ensures Number(Fixed(n, width)) == n
  {
    if width > 0 {
      FixedReads(n / 10, width - 1);
      assert Fixed(n, width)[..width - 1] == Fixed(n / 10, width - 1);
    }
  }

  lemma {:induction false} ReadingFixed(text: string)
    requires forall c | c in text :: IsDigit(c)
    ensures Number(text) < Power10(|text|) && Fixed(Number(text), |text|) == text
  {
    if text != "" {
      var n := |text| - 1;
      ReadingFixed(text[..n]);
      assert Number(text) / 10 == Number(text[..n]) && Number(text) % 10 == DigitValue(text[n]);
      assert Digit(DigitValue(text[n])) == text[n] && text == text[..n] + [text[n]];
    }
  }
}
