/** Patterns of instruction bits, and the numbers that they are compiled to. */
module NemuPattern {
  import opened Powers
  import opened WordArith

  // ----- what a pattern means -----

  /** The characters that stand for bits. */
  function Significant(str: string): string {
    if str == [] then []
    else Significant(str[..|str| - 1]) + if str[|str| - 1] == ' ' then [] else [str[|str| - 1]]
  }

  predicate Allowed(c: char) { c == '0' || c == '1' || c == '?' || c == ' ' }

  /** The bit that the character number `k` of a pattern stands for: the last one for bit 0. */
  function BitFor(d: string, x: nat, k: nat): nat
    requires k < |d|
  {
    Shr(x, |d| - 1 - k) % 2
  }

  /** Every fixed bit of the pattern is as in the word. */
  ghost predicate Agrees(d: string, x: nat) {
    forall k :: 0 <= k < |d| && d[k] != '?' ==> BitFor(d, x, k) == if d[k] == '1' then 1 else 0
  }

  // ----- what it is compiled to -----

  function KeyBit(c: char): nat { if c == '1' then 1 else 0 }
  function MaskBit(c: char): nat { if c == '?' then 0 else 1 }

  function Key(d: string): nat { if d == [] then 0 else 2 * Key(d[..|d| - 1]) + KeyBit(d[|d| - 1]) }
  function Mask(d: string): nat { if d == [] then 0 else 2 * Mask(d[..|d| - 1]) + MaskBit(d[|d| - 1]) }
  function Trailing(d: string): nat { if d == [] || d[|d| - 1] != '?' then 0 else Trailing(d[..|d| - 1]) + 1 }

  lemma {:induction false} AgreesStep(d: string, x: nat)
    requires d != []
    ensures var c := d[|d| - 1]; Agrees(d, x) <==> Agrees(d[..|d| - 1], x / 2) && (c != '?' ==> x % 2 == KeyBit(c))
  {
    var front, n := d[..|d| - 1], |d| - 1;
    forall k | 0 <= k < n ensures BitFor(d, x, k) == BitFor(front, x / 2, k) {
      ShrNext(x, n - k - 1);
    }
    ShrNone(x);
  }

  /** Masking the word gives the key exactly if every fixed bit agrees. */
  lemma {:induction false} MaskTest(d: string, x: nat)
    ensures And(x, Mask(d)) == Key(d) <==> Agrees(d, x)
  {
    if d == [] {
      AndNone(x);
    } else {
      var front, c := d[..|d| - 1], d[|d| - 1];
      AgreesStep(d, x);
      MaskTest(front, x / 2);
      hide And;
      AndBits(x, Mask(front), MaskBit(c));
      LastBit(And(x / 2, Mask(front)), Key(front), x % 2 == 1, c);
    }
  }

  lemma AndBits(x: nat, m: nat, b: nat)
    requires b <= 1
    ensures And(x, 2 * m + b) == 2 * And(x / 2, m) + if x % 2 == 1 && b == 1 then 1 else 0
  {
    hide And;
    AndStep(x, 2 * m + b);
    assert (2 * m + b) / 2 == m && (2 * m + b) % 2 == b;
  }

  lemma LastBit(n: nat, k: nat, bit: bool, c: char)
    requires c == '?' || c == '0' || c == '1' || MaskBit(c) == 1
    ensures 2 * n + (if bit && MaskBit(c) == 1 then 1 else 0) == 2 * k + KeyBit(c)
       <==> n == k && (c != '?' ==> (if bit then 1 else 0) == KeyBit(c))
  {}

  /** Leaving out the bits behind the last fixed one changes nothing. */
  lemma {:induction false} ShiftTest(d: string, x: nat)
    ensures And(Shr(x, Trailing(d)), Shr(Mask(d), Trailing(d))) == Shr(Key(d), Trailing(d)) <==>
            And(x, Mask(d)) == Key(d)
  {
    hide Pow2, And;
    if Trailing(d) > 0 {
      var front := d[..|d| - 1];
      ShiftTest(front, x / 2);
      var s := Trailing(front);
      ShrNext(x, s);
      ShrNext(Mask(d), s);
      ShrNext(Key(d), s);
      AndBits(x, Mask(front), 0);
    } else {
      ShrNone(x);
      ShrNone(Mask(d));
      ShrNone(Key(d));
    }
  }

  /** The test as it is made at every instruction. */
  predicate Test(x: nat, key: nat, mask: nat, shift: nat) { And(Shr(x, shift), mask) == key }

  lemma TestExact(d: string, x: nat)
    ensures Test(x, Shr(Key(d), Trailing(d)), Shr(Mask(d), Trailing(d)), Trailing(d)) <==> Agrees(d, x)
  {
    hide And, Pow2, Mask, Key, Trailing, Agrees;
    ShiftTest(d, x);
    MaskTest(d, x);
  }

  lemma {:induction false} CompiledBounds(d: string)
    ensures Key(d) < Pow2(|d|) && Mask(d) < Pow2(|d|) && Trailing(d) <= |d|
  {
    if d != [] { CompiledBounds(d[..|d| - 1]); }
  }

  datatype Compiled = Compiled(key: nat, mask: nat, shift: nat) | InvalidCharacter | TooLong

  /** Compiles a pattern: the word has the fixed bits of the pattern exactly if the test with the three numbers says
      so. */
  method PatternDecode(str: string) returns (r: Compiled)
    ensures r.TooLong? ==> |str| >= 64
    ensures r.InvalidCharacter? ==> exists i :: 0 <= i < |str| && i < 64 && !Allowed(str[i])
    ensures r.Compiled? ==> |str| < 64 && (forall i :: 0 <= i < |str| ==> Allowed(str[i]))
    ensures r.Compiled? ==> forall x: nat :: Test(x, r.key, r.mask, r.shift) <==> Agrees(Significant(str), x)
    ensures r.Compiled? ==> r.key < D && r.mask < D && r.shift < 64
  {
    hide And, Pow2, Mask, Key, Trailing, Agrees, Significant, Test;
    var key, mask, shift := 0, 0, 0;
    var i := 0;
    Empty(str);
    while i < 64 && i < |str|
      invariant 0 <= i <= |str| && i <= 64
      invariant forall j :: 0 <= j < i ==> Allowed(str[j])
      invariant var d := Significant(str[..i]); |d| <= i && key == Key(d) && mask == Mask(d) && shift == Trailing(d)
    {
      var c := str[i];
      if !Allowed(c) {
        return InvalidCharacter;
      }
      Next(str, i);
      if c != ' ' {
        key := Word(key * 2) + if c == '1' then 1 else 0;
        mask := Word(mask * 2) + if c == '?' then 0 else 1;
        shift := if c == '?' then shift + 1 else 0;
      }
      i := i + 1;
    }
    if i == 64 {
      return TooLong;
    }
    assert str[..i] == str;
    ghost var d := Significant(str);
    CompiledBounds(d);
    Pow2Monotone(|d|, 63);
    Sizes();
    forall x: nat ensures Test(x, Shr(key, shift), Shr(mask, shift), shift) <==> Agrees(d, x) {
      TestExact(d, x);
    }
    DivSmaller(key, Pow2(shift));
    DivSmaller(mask, Pow2(shift));
    r := Compiled(Shr(key, shift), Shr(mask, shift), shift);
  }

  lemma Empty(str: string)
    ensures Significant(str[..0]) == [] && Key([]) == 0 && Mask([]) == 0 && Trailing([]) == 0
  {
    assert str[..0] == [];
  }

  /** One character more. */
  lemma Next(str: string, i: nat)
    requires i < |str| && i < 64 && |Significant(str[..i])| <= i
    ensures var d, e, c := Significant(str[..i]), Significant(str[..i + 1]), str[i];
      && |e| <= i + 1
      && (c == ' ' ==> e == d)
      && (c != ' ' ==> Key(e) == Word(Key(d) * 2) + KeyBit(c) && Mask(e) == Word(Mask(d) * 2) + MaskBit(c)
                       && Trailing(e) == if c == '?' then Trailing(d) + 1 else 0)
  {
    hide Key, Mask, Trailing, Significant, Word;
    SignificantNext(str, i);
    NextNumbers(Significant(str[..i]), str[i]);
  }

  lemma SignificantNext(str: string, i: nat)
    requires i < |str|
    ensures Significant(str[..i + 1]) == Significant(str[..i]) + if str[i] == ' ' then [] else [str[i]]
    ensures str[i] == ' ' ==> Significant(str[..i + 1]) == Significant(str[..i])
  {
    assert str[..i + 1][..i] == str[..i];
  }

  lemma NextNumbers(d: string, c: char)
    requires |d| <= 63
    ensures var e := d + [c];
      && Key(e) == Word(Key(d) * 2) + KeyBit(c) && Mask(e) == Word(Mask(d) * 2) + MaskBit(c)
      && Trailing(e) == if c == '?' then Trailing(d) + 1 else 0
  {
    assert (d + [c])[..|d|] == d;
    CompiledBounds(d);
    Fits63(|d|);
    hide Pow2, Key, Mask;
    KeyNext(d, c);
    NoWrap(Key(d));
    NoWrap(Mask(d));
  }

  lemma KeyNext(d: string, c: char)
    ensures Key(d + [c]) == 2 * Key(d) + KeyBit(c) && Mask(d + [c]) == 2 * Mask(d) + MaskBit(c)
  {
    assert (d + [c])[..|d|] == d;
  }

  lemma Fits63(n: nat)
    requires n <= 63
    ensures Pow2(n) <= 0x8000_0000_0000_0000
  {
    Pow2Monotone(n, 63);
    Sizes();
  }

  lemma NoWrap(x: nat)
    requires x < 0x8000_0000_0000_0000
    ensures Word(x * 2) == 2 * x
  {}

  lemma DivSmaller(x: nat, m: nat)
    requires m > 0
    ensures x / m <= x
  {
    DivNat(x, m);
    DivBelow(x, m, x + 1);
    assert x < m * (x + 1) by { MulLess(0, m, x + 1); }
  }
}
