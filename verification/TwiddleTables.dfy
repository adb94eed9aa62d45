/** How a pooled twiddle table reaches the host program: a large one as a literal of hexadecimal
    digits that a loop decodes, a small one as stores with runs of equal entries shortened. */
module TwiddleTables {
  import opened DivMod

  /** The bits of one single-precision number. */
  type Word = n: nat | n < 0x1_0000_0000

  datatype Entry = Entry(re: Word, im: Word)

  // -------- the literal

  function HexDigit(d: nat): char
    requires d < 16
  {
    if d < 10 then ('0' as int + d) as char else ('a' as int + (d - 10)) as char
  }

  /** n with digits digits, most significant first. */
  function Hex(n: nat, digits: nat): (s: string)
    ensures |s| == digits
  {
    if digits == 0 then "" else Hex(n / 16, digits - 1) + [HexDigit(n % 16)]
  }

  function Encode(table: seq<Entry>): (s: string)
    ensures |s| == 16 * |table|
  {
    if table == [] then ""
    else Encode(table[..|table| - 1]) + Hex(table[|table| - 1].re, 8) + Hex(table[|table| - 1].im, 8)
  }

  function Part(e: Entry, component: nat): Word {
    if component == 0 then e.re else e.im
  }

  lemma {:induction false} Encoded(table: seq<Entry>, i: nat, component: nat, nibble: nat)
    requires i < |table| && component < 2 && nibble < 8
    ensures Encode(table)[i * 16 + component * 8 + nibble] == Hex(Part(table[i], component), 8)[nibble]
  {
    hide Hex;
    var n := |table| - 1;
    if i < n {
      Encoded(table[..n], i, component, nibble);
    }
  }

  // -------- decoding

  /** The value of a digit, as the host finds it from the character's code. */
  function DigitOf(code: nat): nat {
    code % 16 + if code >= 97 then 9 else 0
  }

  /** One more digit shifted into a word of 32 bits. */
  function Shifted(bits: nat, digit: nat): nat {
    (bits * 16 % 0x1_0000_0000 + digit) % 0x1_0000_0000
  }

  lemma DigitsDecode(d: nat)
    requires d < 16
    ensures DigitOf(HexDigit(d) as int) == d
  {
    if d < 10 {
      Decode(16, 3, d);
    } else {
      Decode(16, 6, d - 9);
    }
  }

  function Power(k: nat): (p: nat)
    ensures p > 0
  {
    if k == 0 then 1 else 16 * Power(k - 1)
  }

  /** Digit i of the hexadecimal form. */
  lemma {:induction false} HexAt(n: nat, digits: nat, i: nat)
    requires i < digits
    ensures Hex(n, digits)[i] == HexDigit(n / Power(digits - 1 - i) % 16)
  {
    if i < digits - 1 {
      HexAt(n / 16, digits - 1, i);
      var p := Power(digits - 2 - i);
      DivideTwice(n, 16, p);
      assert Power(digits - 1 - i) == 16 * p;
    }
  }

  lemma DivideTwice(n: nat, a: nat, b: nat)
    requires a > 0 && b > 0
    ensures a * b > 0 && n / a / b == n / (a * b)
  {
    Recompose(n, a);
    Recompose(n / a, b);
    InRange(a, b, n % a, n / a % b);
    var r := n % a + a * (n / a % b);
    assert n == r + a * b * (n / a / b) by {
      assert a * (b * (n / a / b)) == a * b * (n / a / b);
    }
    Decode(a * b, n / a / b, r);
  }

  lemma ShiftAppends(q: nat)
    requires q < 0x1_0000_0000
    ensures Shifted(q / 16, q % 16) == q
  {
    Recompose(q, 16);
  }

  /** The first k digits, read. */
  function Leading(n: nat, k: nat): nat
    requires k <= 8
  {
    hide Power;
    n / Power(8 - k)
  }

  /** Reading one more digit leaves one digit less out. */
  lemma ReadsOn(n: Word, k: nat)
    requires k < 8
    ensures Shifted(Leading(n, k), DigitOf(Hex(n, 8)[k] as int)) == Leading(n, k + 1)
  {
    hide Shifted, DigitOf, Hex, HexDigit, Leading;
    var q := Leading(n, k + 1);
    LeadingGrows(n, k);
    HexAt(n, 8, k);
    LeadingIs(n, k);
    DigitsDecode(q % 16);
    ShiftAppends(q);
  }

  lemma LeadingIs(n: nat, k: nat)
    requires k < 8
    ensures Leading(n, k + 1) == n / Power(8 - 1 - k)
  {
  }

  lemma LeadingGrows(n: Word, k: nat)
    requires k < 8
    ensures Leading(n, k) == Leading(n, k + 1) / 16 && Leading(n, k + 1) < 0x1_0000_0000
  {
    var p := Power(7 - k);
    DivideTwice(n, p, 16);
    assert Power(8 - k) == 16 * p == p * 16;
    Smaller(n, p);
  }

  lemma Smaller(n: nat, d: nat)
    requires d > 0
    ensures n / d <= n
  {
    Recompose(n, d);
    Monotone(n / d, 1, d);
  }

  /** The eight digits from a place of the literal on, read into a word. */
  method DecodeWord(literal: string, at: nat, ghost n: Word) returns (word: Word)
    requires at + 8 <= |literal| && literal[at..at + 8] == Hex(n, 8)
    ensures word == n
  {
    hide Hex, Shifted, DigitOf, Leading;
    var bits: nat := 0;
    Beyond(n);
    var nibble := 0;
    while nibble < 8
      invariant 0 <= nibble <= 8 && bits == Leading(n, nibble)
    {
      ReadsOn(n, nibble);
      assert literal[at + nibble] == literal[at..at + 8][nibble];
      bits := Shifted(bits, DigitOf(literal[at + nibble] as int));
      nibble := nibble + 1;
    }
    Everything(n);
    word := bits;
  }

  lemma Everything(n: nat)
    ensures Leading(n, 8) == n
  {
    assert Power(0) == 1;
  }

  lemma Beyond(n: Word)
    ensures Leading(n, 0) == 0
  {
    assert Power(2) == 0x100;
    assert Power(4) == 0x1_0000;
    assert Power(6) == 0x100_0000;
    assert Power(8) == 0x1_0000_0000;
  }

  /** The host's decode loop rebuilds every word of both components of any table. */
  method DecodeTable(literal: string, ghost table: seq<Entry>, re: array<Word>, im: array<Word>)
    requires literal == Encode(table) && re != im && re.Length == im.Length == |literal| / 16
    modifies re, im
    ensures re.Length == |table|
    ensures forall i :: 0 <= i < |table| ==> re[i] == table[i].re && im[i] == table[i].im
  {
    hide Hex, Encode;
    var i := 0;
    while i < re.Length
      invariant 0 <= i <= re.Length
      invariant forall k :: 0 <= k < i ==> re[k] == table[k].re && im[k] == table[k].im
    {
      LiteralHolds(table, i, 0);
      re[i] := DecodeWord(literal, i * 16, table[i].re);
      LiteralHolds(table, i, 1);
      im[i] := DecodeWord(literal, i * 16 + 8, table[i].im);
      i := i + 1;
    }
  }

  lemma LiteralHolds(table: seq<Entry>, i: nat, component: nat)
    requires i < |table| && component < 2
    ensures var at := i * 16 + component * 8;
            at + 8 <= |Encode(table)| && Encode(table)[at..at + 8] == Hex(Part(table[i], component), 8)
  {
    hide Hex, Encode;
    var at := i * 16 + component * 8;
    forall nibble: nat | nibble < 8 ensures Encode(table)[at..at + 8][nibble] == Hex(Part(table[i], component), 8)[nibble] {
      Encoded(table, i, component, nibble);
    }
  }

  /** Different tables have different literals. */
  lemma {:induction false} EncodeIsInjective(a: seq<Entry>, b: seq<Entry>)
    requires Encode(a) == Encode(b)
    ensures a == b
  {
    hide Hex, Encode;
    assert |a| == |b|;
    forall i: nat | i < |a| ensures a[i] == b[i] {
      forall c: nat | c < 2 ensures Part(a[i], c) == Part(b[i], c) {
        LiteralHolds(a, i, c);
        LiteralHolds(b, i, c);
        HexIsInjective(Part(a[i], c), Part(b[i], c), 8);
      }
      assert Part(a[i], 0) == a[i].re && Part(a[i], 1) == a[i].im && Part(b[i], 0) == b[i].re && Part(b[i], 1) == b[i].im;
    }
  }

  lemma {:induction false} HexIsInjective(m: nat, n: nat, digits: nat)
    requires Hex(m, digits) == Hex(n, digits) && m < Power(digits) && n < Power(digits)
    ensures m == n
  {
    if digits > 0 {
      var s, t := Hex(m, digits), Hex(n, digits);
      assert s[..digits - 1] == t[..digits - 1] && s[digits - 1] == t[digits - 1];
      assert s[..digits - 1] == Hex(m / 16, digits - 1) && t[..digits - 1] == Hex(n / 16, digits - 1);
      HexIsInjective(m / 16, n / 16, digits - 1);
      DigitsDecode(m % 16);
      DigitsDecode(n % 16);
    }
  }

  // -------- runs of equal entries

  /** Stores the entries in order; three or more equal neighbours by a loop over one value.
      written lists the indices in the order of the stores. */
  method FillRuns<V(==)>(table: seq<V>, out: array<V>) returns (ghost written: seq<nat>)
    requires out.Length >= |table|
    modifies out
    ensures out[..|table|] == table && out[|table|..] == old(out[|table|..])
    ensures written == seq(|table|, i requires 0 <= i < |table| => i)
  {
    written := [];
    var first := 0;
    while first < |table|
      invariant 0 <= first <= |table|
      invariant out[..first] == table[..first] && out[|table|..] == old(out[|table|..])
      invariant written == seq(first, i requires 0 <= i < first => i)
    {
      var end := EndOfRun(table, first);
      if end - first >= 3 {
        var value := table[first];
        var i := first;
        while i < end
          invariant first <= i <= end
          invariant out[..i] == table[..i] && out[|table|..] == old(out[|table|..])
          invariant written == seq(i, k requires 0 <= k < i => k)
        {
          out[i] := value;
          written := written + [i];
          i := i + 1;
        }
      } else {
        var i := first;
        while i < end
          invariant first <= i <= end
          invariant out[..i] == table[..i] && out[|table|..] == old(out[|table|..])
          invariant written == seq(i, k requires 0 <= k < i => k)
        {
          out[i] := table[first];
          written := written + [i];
          i := i + 1;
        }
      }
      first := end;
    }
  }

  /** The longest stretch of entries equal to the first. */
  method EndOfRun<V(==)>(table: seq<V>, first: nat) returns (end: nat)
    requires first < |table|
    ensures first < end <= |table|
    ensures forall i :: first <= i < end ==> table[i] == table[first]
    ensures end < |table| ==> table[end] != table[first]
  {
    end := first + 1;
    while end < |table| && table[end] == table[first]
      invariant first < end <= |table|
      invariant forall i :: first <= i < end ==> table[i] == table[first]
    {
      end := end + 1;
    }
  }
}
