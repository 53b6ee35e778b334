/** One step of the reference processor: instructions on control and status registers, traps and returns. What any other
    instruction computes is a parameter. */
module NemuCpu {
  import opened Powers
  import opened WordArith
  import opened NemuPattern

  type word = x: nat | x < 0x1_0000_0000

  datatype Csr = Csr(mepc: word, mstatus: word, mcause: word, mtvec: word)

  datatype Status = Fine | Aborted

  // ----- bits -----

  function Bit(x: nat, k: nat): nat { Shr(x, k) % 2 }

  /** The bits `hi` to `lo`. */
  function Bits(x: nat, hi: nat, lo: nat): nat
    requires lo <= hi
  {
    And(Shr(x, lo), Pow2(hi - lo + 1) - 1)
  }

  lemma BitsBelow(x: nat, hi: nat, lo: nat)
    requires lo <= hi
    ensures Bits(x, hi, lo) == Shr(x, lo) % Pow2(hi - lo + 1) < Pow2(hi - lo + 1)
  {
    hide Pow2, And, Shr;
    AndMask(Shr(x, lo), hi - lo + 1);
  }

  /** A number of 12 bits as a word, with its sign. */
  function Sext12(x: nat): word
    requires x < 4096
  {
    if x < 2048 then x else x + W - 4096
  }

  function Not(x: word): word { W - 1 - x }

  lemma {:induction false} OrBit(x: nat, y: nat, k: nat)
    ensures Bit(Or(x, y), k) == if Bit(x, k) == 1 || Bit(y, k) == 1 then 1 else 0
  {
    OrStep(x, y);
    hide Or, Shr;
    if k > 0 {
      ShrNext(x, k - 1);
      ShrNext(y, k - 1);
      ShrNext(Or(x, y), k - 1);
      OrBit(x / 2, y / 2, k - 1);
    } else {
      ShrNone(x);
      ShrNone(y);
      ShrNone(Or(x, y));
    }
  }

  lemma {:induction false} AndBit(x: nat, y: nat, k: nat)
    ensures Bit(And(x, y), k) == if Bit(x, k) == 1 && Bit(y, k) == 1 then 1 else 0
  {
    AndStep(x, y);
    hide And, Shr;
    if k > 0 {
      ShrNext(x, k - 1);
      ShrNext(y, k - 1);
      ShrNext(And(x, y), k - 1);
      AndBit(x / 2, y / 2, k - 1);
    } else {
      ShrNone(x);
      ShrNone(y);
      ShrNone(And(x, y));
    }
  }

  lemma {:induction false} NotBit(x: nat, n: nat, k: nat)
    requires x < Pow2(n) && k < n
    ensures Bit(Pow2(n) - 1 - x, k) == 1 - Bit(x, k)
  {
    var y := Pow2(n) - 1 - x;
    if k > 0 {
      ShrNext(x, k - 1);
      ShrNext(y, k - 1);
      assert y / 2 == Pow2(n - 1) - 1 - x / 2;
      NotBit(x / 2, n - 1, k - 1);
    } else {
      ShrNone(x);
      ShrNone(y);
    }
  }

  lemma {:induction false} OrFits(x: nat, y: nat, n: nat)
    requires x < Pow2(n) && y < Pow2(n)
    ensures Or(x, y) < Pow2(n)
  {
    OrStep(x, y);
    OrNone(0);
    hide Or;
    if n > 0 { OrFits(x / 2, y / 2, n - 1); }
  }

  lemma OrWord(x: word, y: word)
    ensures Or(x, y) < W
  {
    Sizes();
    hide Pow2, Or;
    OrFits(x, y, 32);
  }

  // ----- control and status registers -----

  datatype Op = Csrrw | Csrrs | Csrrc | Csrrwi | Csrrsi | Csrrci | Ecall | Mret | Other

  const AnyRegisters: string := "??????? ????? ????? "
  const System: string := " ????? 11100 11"
  const NoTarget: string := " 00000 11100 11"

  /** The rows of the table of instructions that are modelled. */
  function Pattern(op: Op): string
    requires op != Other
  {
    match op
    case Csrrw => AnyRegisters + "001" + System
    case Csrrs => AnyRegisters + "010" + System
    case Csrrc => AnyRegisters + "011" + System
    case Csrrwi => AnyRegisters + "101" + System
    case Csrrsi => AnyRegisters + "110" + System
    case Csrrci => AnyRegisters + "111" + System
    case Ecall => "0000000 00000 00000 " + "000" + NoTarget
    case Mret => "0011000 00010 00000 " + "000" + NoTarget
  }

  ghost predicate Spelled(s: string) { forall i :: 0 <= i < |s| ==> Allowed(s[i]) }

  lemma PatternSpelled(op: Op)
    requires op != Other
    ensures |Pattern(op)| < 64 && Spelled(Pattern(op))
  {
    assert Spelled(AnyRegisters) && Spelled(System) && Spelled(NoTarget);
    assert Spelled("001") && Spelled("010") && Spelled("011") && Spelled("101") && Spelled("110") && Spelled("111") &&
           Spelled("000");
    assert Spelled("0000000 00000 00000 ") && Spelled("0011000 00010 00000 ");
    hide Spelled;
    SpelledJoin(AnyRegisters, "001", System);
    SpelledJoin(AnyRegisters, "010", System);
    SpelledJoin(AnyRegisters, "011", System);
    SpelledJoin(AnyRegisters, "101", System);
    SpelledJoin(AnyRegisters, "110", System);
    SpelledJoin(AnyRegisters, "111", System);
    SpelledJoin("0000000 00000 00000 ", "000", NoTarget);
    SpelledJoin("0011000 00010 00000 ", "000", NoTarget);
  }

  lemma SpelledJoin(a: string, b: string, c: string)
    requires Spelled(a) && Spelled(b) && Spelled(c)
    ensures Spelled(a + b + c)
  {}

  ghost predicate Fits(op: Op, inst: word)
    requires op != Other
  {
    Agrees(Significant(Pattern(op)), inst)
  }

  /** The first of the patterns that the instruction fits. */
  ghost function Decoded(inst: word): Op {
    if Fits(Csrrw, inst) then Csrrw
    else if Fits(Csrrs, inst) then Csrrs
    else if Fits(Csrrc, inst) then Csrrc
    else if Fits(Csrrwi, inst) then Csrrwi
    else if Fits(Csrrsi, inst) then Csrrsi
    else if Fits(Csrrci, inst) then Csrrci
    else if Fits(Ecall, inst) then Ecall
    else if Fits(Mret, inst) then Mret
    else Other
  }

  predicate Known(index: nat) { index == 0x300 || index == 0x305 || index == 0x341 || index == 0x342 }

  function CsrRead(c: Csr, index: nat): word
    requires Known(index)
  {
    if index == 0x300 then c.mstatus else if index == 0x305 then c.mtvec else if index == 0x341 then c.mepc
      else c.mcause
  }

  function CsrWrite(c: Csr, index: nat, w: word): (d: Csr)
    requires Known(index)
    ensures CsrRead(d, index) == w && forall j :: Known(j) && j != index ==> CsrRead(d, j) == CsrRead(c, j)
  {
    if index == 0x300 then c.(mstatus := w) else if index == 0x305 then c.(mtvec := w)
    else if index == 0x341 then c.(mepc := w) else c.(mcause := w)
  }

  predicate OnCsr(op: Op) { op != Ecall && op != Mret && op != Other }
  predicate Immediate(op: Op) { op == Csrrwi || op == Csrrsi || op == Csrrci }

  /** Section 9.1 of the RISC-V Unprivileged ISA: the register is written, or the bits of the operand are set or cleared
      in it. */
  ghost predicate NewValue(op: Op, t: word, v: word, n: word) {
    match op
    case Csrrw => n == v
    case Csrrwi => n == v
    case Csrrs => forall k :: 0 <= k < 32 ==> Bit(n, k) == if Bit(v, k) == 1 then 1 else Bit(t, k)
    case Csrrsi => forall k :: 0 <= k < 32 ==> Bit(n, k) == if Bit(v, k) == 1 then 1 else Bit(t, k)
    case Csrrc => forall k :: 0 <= k < 32 ==> Bit(n, k) == if Bit(v, k) == 1 then 0 else Bit(t, k)
    case Csrrci => forall k :: 0 <= k < 32 ==> Bit(n, k) == if Bit(v, k) == 1 then 0 else Bit(t, k)
    case _ => false
  }

  /** Bits of a word are all there is to it. */
  lemma {:induction false} SameBits(x: nat, y: nat, n: nat)
    requires x < Pow2(n) && y < Pow2(n) && forall k :: 0 <= k < n ==> Bit(x, k) == Bit(y, k)
    ensures x == y
  {
    if n > 0 {
      forall k | 0 <= k < n - 1 ensures Bit(x / 2, k) == Bit(y / 2, k) {
        assert Bit(x, k + 1) == Bit(y, k + 1);
        ShrNext(x, k);
        ShrNext(y, k);
      }
      SameBits(x / 2, y / 2, n - 1);
      assert Bit(x, 0) == Bit(y, 0);
      ShrNone(x);
      ShrNone(y);
    }
  }

  /** The new value of a register is determined. */
  lemma NewValueOnly(op: Op, t: word, v: word, n: word, n': word)
    requires NewValue(op, t, v, n) && NewValue(op, t, v, n')
    ensures n == n'
  {
    hide Bit, Pow2;
    Sizes();
    if op == Csrrw || op == Csrrwi {
    } else {
      forall k | 0 <= k < 32 ensures Bit(n, k) == Bit(n', k) {}
      SameBits(n, n', 32);
    }
  }

  /** What the code computes for the new value. */
  function Computed(op: Op, t: word, v: word): word
    requires OnCsr(op)
  {
    OrWord(v, t);
    if op == Csrrw || op == Csrrwi then v else if op == Csrrs || op == Csrrsi then Or(v, t) else And(Not(v), t)
  }

  lemma ComputedRight(op: Op, t: word, v: word)
    requires OnCsr(op)
    ensures NewValue(op, t, v, Computed(op, t, v))
  {
    OrWord(v, t);
    hide Bit, Or, And, Not;
    forall k | 0 <= k < 32
      ensures Bit(Or(v, t), k) == if Bit(v, k) == 1 then 1 else Bit(t, k)
      ensures Bit(And(Not(v), t), k) == if Bit(v, k) == 1 then 0 else Bit(t, k)
    {
      SetsBit(v, t, k);
      ClearsBit(v, t, k);
    }
  }

  lemma BitIs(x: nat, k: nat)
    ensures Bit(x, k) == 0 || Bit(x, k) == 1
  {}

  lemma SetsBit(v: word, t: word, k: nat)
    ensures Bit(Or(v, t), k) == if Bit(v, k) == 1 then 1 else Bit(t, k)
  {
    hide Bit, Or;
    BitIs(t, k);
    OrBit(v, t, k);
  }

  lemma ClearsBit(v: word, t: word, k: nat)
    requires k < 32
    ensures Bit(And(Not(v), t), k) == if Bit(v, k) == 1 then 0 else Bit(t, k)
  {
    Sizes();
    hide Bit, And, Pow2;
    BitIs(t, k);
    BitIs(v, k);
    AndBit(Not(v), t, k);
    NotBit(v, 32, k);
  }

  // ----- the stack of modes -----

  function PushPrv(m: word): word {
    var tem := Or(And(m, 0x1ff) * 8, 6);
    PushFits(m);
    Or(And(m, W - 0x1000), tem)
  }

  function PopPrv(m: word): word {
    var tem := Or(Shr(And(m, 0x1ff * 8), 3), 0x200);
    PopFits(m);
    Or(And(m, W - 0x1000), tem)
  }

  lemma {:induction false} AndTop(x: nat, j: nat, n: nat)
    requires x < Pow2(n) && j <= n
    ensures Pow2(j) <= Pow2(n) && And(x, Pow2(n) - Pow2(j)) == Shr(x, j) * Pow2(j)
  {
    Pow2Monotone(j, n);
    var m := Pow2(n) - Pow2(j);
    AndStep(x, m);
    hide And, Shr;
    if j > 0 {
      assert m % 2 == 0 && m / 2 == Pow2(n - 1) - Pow2(j - 1);
      AndTop(x / 2, j - 1, n - 1);
      ShrNext(x, j - 1);
      MulTwice(Shr(x, j), Pow2(j - 1));
    } else {
      AndMask(x, n);
      SmallRest(x, Pow2(n));
      ShrNone(x);
    }
  }

  lemma SmallRest(x: nat, m: nat)
    requires x < m
    ensures x % m == x
  {}

  lemma Powers3()
    ensures Pow2(3) == 8 && Pow2(9) == 0x200 && Pow2(12) == 0x1000 && Pow2(32) == W
  {
    Sizes();
    Pow2Sum(3, 3);
    Pow2Sum(6, 3);
    Pow2Sum(9, 3);
  }

  /** The word in parts: the low nine bits, the three above, and the rest. */
  lemma PushIs(m: word)
    ensures Or(And(m, W - 0x1000), Or(And(m, 0x1ff) * 8, 6)) == m / 0x1000 * 0x1000 + m % 0x200 * 8 + 6 < W
  {
    Powers3();
    hide Or, And, Pow2;
    AndMask(m, 9);
    OrAdds(m % 0x200, 3, 6);
    AndTop(m, 12, 32);
    assert Shr(m, 12) == m / 0x1000;
    OrAdds(m / 0x1000, 12, m % 0x200 * 8 + 6);
  }

  lemma PushFits(m: word)
    ensures Or(And(m, W - 0x1000), Or(And(m, 0x1ff) * 8, 6)) < W
  {
    PushIs(m);
  }

  lemma PopIs(m: word)
    ensures Or(And(m, W - 0x1000), Or(Shr(And(m, 0x1ff * 8), 3), 0x200)) == m / 0x1000 * 0x1000 + 0x200 +
            m % 0x1000 / 8 < W
  {
    Powers3();
    MiddleBits(m);
    hide Or, And, Pow2;
    AndTop(m, 12, 32);
    assert Shr(m, 12) == m / 0x1000;
    OrAdds(1, 9, m % 0x1000 / 8);
    OrSwap(m % 0x1000 / 8, 0x200);
    OrAdds(m / 0x1000, 12, 0x200 + m % 0x1000 / 8);
  }

  lemma PopFits(m: word)
    ensures Or(And(m, W - 0x1000), Or(Shr(And(m, 0x1ff * 8), 3), 0x200)) < W
  {
    PopIs(m);
  }

  lemma {:induction false} OrSwap(x: nat, y: nat)
    ensures Or(x, y) == Or(y, x)
    decreases x + y
  {
    OrStep(x, y);
    OrStep(y, x);
    OrNone(x);
    OrNone(y);
    if x > 0 && y > 0 { OrSwap(x / 2, y / 2); }
  }

  lemma MiddleBits(m: nat)
    ensures Shr(And(m, 0x1ff * 8), 3) == m % 0x1000 / 8
  {
    Powers3();
    hide And, Pow2, Shr;
    AndEight(m, 0x1ff);
    AndMask(m / 8, 9);
    EightTimes(m / 8 % 0x200);
    SkipThree(m);
  }

  lemma SkipThree(m: nat)
    ensures m / 8 % 0x200 == m % 0x1000 / 8
  {}

  lemma AndEight(x: nat, m: nat)
    ensures And(x, m * 8) == 8 * And(x / 8, m)
  {
    hide And;
    AndEven(x, 4 * m);
    AndEven(x / 2, 2 * m);
    AndEven(x / 4, m);
    assert x / 2 / 2 == x / 4 && x / 4 / 2 == x / 8;
    assert 2 * (4 * m) == m * 8 && 2 * (2 * m) == 4 * m;
  }

  lemma EightTimes(x: nat)
    ensures Shr(8 * x, 3) == x
  {
    Powers3();
  }

  lemma AndEven(x: nat, m: nat)
    ensures And(x, 2 * m) == 2 * And(x / 2, m)
  {
    hide And;
    AndBits(x, m, 0);
  }

  /** A trap and the return from it restore the modes exactly if the oldest of the four was the one that a return puts
      in. */
  lemma TrapReturn(m: word)
    ensures PopPrv(PushPrv(m)) == m <==> m / 0x200 % 8 == 1
    ensures PopPrv(PushPrv(m)) % 0x200 == m % 0x200 && PopPrv(PushPrv(m)) / 0x1000 == m / 0x1000
  {
    hide Or, And;
    PushIs(m);
    PopIs(PushPrv(m));
    Modes(m, PushPrv(m));
  }

  lemma Modes(m: nat, n: nat)
    requires n == m / 0x1000 * 0x1000 + m % 0x200 * 8 + 6
    ensures n / 0x1000 == m / 0x1000 && n % 0x1000 / 8 == m % 0x200
    ensures var p := n / 0x1000 * 0x1000 + 0x200 + n % 0x1000 / 8;
      (p == m <==> m / 0x200 % 8 == 1) && p % 0x200 == m % 0x200 && p / 0x1000 == m / 0x1000
  {}

  // ----- steps -----

  /** What another instruction does: the value for its destination, if it has one, and the next address. */
  datatype Effect = Effect(writes: bool, value: word, dnpc: word)

  function Source1(inst: word): (r: nat)
    ensures r < 32
  {
    FiveBits(inst, 15);
    Bits(inst, 19, 15)
  }

  function Target(inst: word): (r: nat)
    ensures r < 32
  {
    FiveBits(inst, 7);
    Bits(inst, 11, 7)
  }

  function ImmI(inst: word): word {
    TwelveBits(inst);
    Sext12(Bits(inst, 31, 20))
  }

  lemma FiveBits(x: nat, lo: nat)
    ensures Bits(x, lo + 4, lo) < 32
  {
    BitsBelow(x, lo + 4, lo);
    hide Bits;
    Pow2Sum(2, 3);
    Powers3();
  }

  lemma TwelveBits(x: nat)
    ensures Bits(x, 31, 20) < 4096
  {
    BitsBelow(x, 31, 20);
    hide Bits;
    Powers3();
  }

  /** The operand of an instruction on a control and status register. */
  function Operand(op: Op, inst: word, g: seq<word>): word
    requires |g| == 32
  {
    if Immediate(op) then Source1(inst) else g[Source1(inst)]
  }

  /** What such an instruction does to the registers: the one it names gets its new value, no other one changes, and the
      destination gets the old value. */
  ghost predicate CsrDone(op: Op, inst: word, c: Csr, g: seq<word>, c': Csr, g': seq<word>) {
    && |g| == 32 && Known(ImmI(inst))
    && NewValue(op, CsrRead(c, ImmI(inst)), Operand(op, inst, g), CsrRead(c', ImmI(inst)))
    && (forall j :: Known(j) && j != ImmI(inst) ==> CsrRead(c', j) == CsrRead(c, j))
    && g' == g[Target(inst) := CsrRead(c, ImmI(inst))][0 := 0]
  }

  ghost predicate TrapDone(c: Csr, pc: word, c': Csr, pc': word) {
    pc' == c.mtvec && c' == Csr(pc, PushPrv(c.mstatus), 11, c.mtvec)
  }

  ghost predicate ReturnDone(c: Csr, c': Csr, pc': word) {
    pc' == c.mepc && c' == c.(mstatus := PopPrv(c.mstatus))
  }

  ghost predicate OtherDone(e: Effect, inst: word, g: seq<word>, g': seq<word>, pc': word) {
    |g| == 32 && pc' == e.dnpc && g' == if e.writes then g[Target(inst) := e.value][0 := 0] else g
  }

  class Cpu {
    const gpr: array<word>
    var pc: word
    var csr: Csr
    /** What instructions that are not on control and status registers do. */
    const other: (word, seq<word>, word) -> Effect

    ghost predicate Valid()
      reads this, gpr
    {
      gpr.Length == 32 && gpr[0] == 0
    }

    constructor (gpr: array<word>, pc: word, csr: Csr, other: (word, seq<word>, word) -> Effect)
      requires gpr.Length == 32 && gpr[0] == 0
      ensures Valid() && this.gpr == gpr && this.pc == pc && this.csr == csr && this.other == other
    {
      this.gpr, this.pc, this.csr, this.other := gpr, pc, csr, other;
    }

    /** Compiles a pattern and tests the instruction with it. */
    method Match(op: Op, inst: word) returns (m: bool)
      requires op != Other
      ensures m <==> Fits(op, inst)
    {
      hide Test, Agrees, Significant, Pattern, Spelled;
      PatternSpelled(op);
      SpelledIs(Pattern(op));
      var c := PatternDecode(Pattern(op));
      m := Test(inst, c.key, c.mask, c.shift);
    }

    method Decode(inst: word) returns (op: Op)
      ensures op == Decoded(inst)
    {
      hide Fits;
      var m := Match(Csrrw, inst);
      if m { return Csrrw; }
      m := Match(Csrrs, inst);
      if m { return Csrrs; }
      m := Match(Csrrc, inst);
      if m { return Csrrc; }
      m := Match(Csrrwi, inst);
      if m { return Csrrwi; }
      m := Match(Csrrsi, inst);
      if m { return Csrrsi; }
      m := Match(Csrrci, inst);
      if m { return Csrrci; }
      m := Match(Ecall, inst);
      if m { return Ecall; }
      m := Match(Mret, inst);
      op := if m then Mret else Other;
    }

    /** An instruction on a control and status register. The destination serves as scratch, even if it is register 0. */
    method ExecCsr(op: Op, inst: word) returns (status: Status)
      requires Valid() && OnCsr(op)
      modifies gpr, this`csr
      ensures status == Fine <==> Known(ImmI(inst))
      ensures status == Fine ==> CsrDone(op, inst, old(csr), old(gpr[..]), csr, gpr[..][0 := 0])
    {
      hide NewValue, Computed, Bits, Pow2, Source1, Target, ImmI, CsrRead, CsrWrite, CsrDone;
      var rd, imm := Target(inst), ImmI(inst);
      var src1 := gpr[Source1(inst)];
      if !Known(imm) {
        return Aborted;
      }
      ghost var g, c := gpr[..], csr;
      var v := if Immediate(op) then Source1(inst) else src1;
      ComputedDone(op, inst, c, g);
      if op == Csrrw {
        if rd != 0 {
          gpr[rd] := CsrRead(csr, imm);
        }
        WriteComputed(op, CsrRead(c, imm), v);
        csr := CsrWrite(csr, imm, src1);
      } else {
        gpr[rd] := CsrRead(csr, imm);
        csr := CsrWrite(csr, imm, Computed(op, gpr[rd], v));
      }
      assert gpr[..][0 := 0] == g[rd := CsrRead(c, imm)][0 := 0];
      status := Fine;
    }

    /** One instruction. Register 0 is zero again at the end. */
    method ExecOnce(inst: word) returns (status: Status)
      requires Valid()
      modifies gpr, this`csr, this`pc
      ensures status == Fine ==> Valid()
      ensures OnCsr(Decoded(inst)) ==> (status == Fine <==> Known(ImmI(inst)))
      ensures !OnCsr(Decoded(inst)) ==> status == Fine
      ensures status == Fine && OnCsr(Decoded(inst)) ==>
        CsrDone(Decoded(inst), inst, old(csr), old(gpr[..]), csr, gpr[..]) && pc == (old(pc) + 4) % W
      ensures Decoded(inst) == Ecall ==> TrapDone(old(csr), old(pc), csr, pc) && gpr[..] == old(gpr[..])
      ensures Decoded(inst) == Mret ==> ReturnDone(old(csr), csr, pc) && gpr[..] == old(gpr[..])
      ensures Decoded(inst) == Other ==>
        csr == old(csr) && OtherDone(other(inst, old(gpr[..]), old(pc)), inst, old(gpr[..]), gpr[..], pc)
    {
      hide CsrDone, Decoded, Bits, Pow2, Source1, Target, ImmI, PushPrv, PopPrv;
      var op := Decode(inst);
      var dnpc: word := (pc + 4) % W;
      ghost var g := gpr[..];
      StoppedAt0(g);
      if OnCsr(op) {
        status := ExecCsr(op, inst);
        if status != Fine {
          return;
        }
      } else if op == Ecall {
        dnpc := csr.mtvec;
        csr := csr.(mepc := pc, mcause := 11);
        csr := csr.(mstatus := PushPrv(csr.mstatus));
      } else if op == Mret {
        dnpc := csr.mepc;
        csr := csr.(mstatus := PopPrv(csr.mstatus));
      } else {
        var e := other(inst, gpr[..], pc);
        dnpc := e.dnpc;
        if e.writes {
          gpr[Target(inst)] := e.value;
          assert gpr[..] == g[Target(inst) := e.value];
        }
      }
      ghost var g' := gpr[..];
      gpr[0] := 0;
      assert gpr[..] == g'[0 := 0];
      pc := dnpc;
      status := Fine;
    }

    ghost function Now(): Machine
      reads this, gpr
    {
      Machine(gpr[..], csr, pc)
    }

    /** One instruction, or none if the register that it names does not exist. */
    method Advance(inst: word) returns (status: Status)
      requires Valid()
      modifies gpr, this`csr, this`pc
      ensures status == Fine ==> Valid() && Executes(inst, other, old(Now()), Now())
      ensures status != Fine ==> Stops(inst)
    {
      hide Executes, Decoded, ImmI, CsrDone, TrapDone, ReturnDone, OtherDone;
      ghost var before := Now();
      status := ExecOnce(inst);
      if status == Fine { ExecutesAs(inst, other, before, Now()); }
    }

    /** Any number of instructions: each does what it should, register 0 is zero between them, and the run ends early
        only at an instruction on a control and status register that does not exist. */
    method Run(insts: seq<word>) returns (status: Status, ghost trace: seq<Machine>)
      requires Valid()
      modifies gpr, this`csr, this`pc
      ensures 0 < |trace| <= |insts| + 1 && trace[0] == old(Now()) && Ran(insts, other, trace)
      ensures status == Fine ==> Valid() && |trace| == |insts| + 1 && trace[|insts|] == Now()
      ensures status != Fine ==> |trace| <= |insts| && Stops(insts[|trace| - 1])
    {
      hide Executes, Stops;
      status, trace := Fine, [Now()];
      var i := 0;
      while i < |insts|
        invariant 0 <= i <= |insts| && Valid() && |trace| == i + 1 && status == Fine && trace[i] == Now()
        invariant trace[0] == old(Now()) && Ran(insts, other, trace)
      {
        status := Advance(insts[i]);
        if status != Fine {
          return;
        }
        trace := trace + [Now()];
        i := i + 1;
      }
    }
  }

  /** Registers, control and status registers and the next address. */
  datatype Machine = Machine(g: seq<word>, csr: Csr, pc: word)

  ghost predicate Stops(inst: word) { OnCsr(Decoded(inst)) && !Known(ImmI(inst)) }

  /** What an instruction does. */
  ghost predicate Executes(inst: word, other: (word, seq<word>, word) -> Effect, a: Machine, b: Machine)
  {
    var op := Decoded(inst);
    && |b.g| == 32 && b.g[0] == 0
    && if OnCsr(op) then CsrDone(op, inst, a.csr, a.g, b.csr, b.g) && b.pc == (a.pc + 4) % W
       else if op == Ecall then TrapDone(a.csr, a.pc, b.csr, b.pc) && b.g == a.g
       else if op == Mret then ReturnDone(a.csr, b.csr, b.pc) && b.g == a.g
       else b.csr == a.csr && OtherDone(other(inst, a.g, a.pc), inst, a.g, b.g, b.pc)
  }

  lemma ExecutesAs(inst: word, other: (word, seq<word>, word) -> Effect, a: Machine, b: Machine)
    requires |b.g| == 32 && b.g[0] == 0
    requires OnCsr(Decoded(inst)) ==> CsrDone(Decoded(inst), inst, a.csr, a.g, b.csr, b.g) && b.pc == (a.pc + 4) % W
    requires Decoded(inst) == Ecall ==> TrapDone(a.csr, a.pc, b.csr, b.pc) && b.g == a.g
    requires Decoded(inst) == Mret ==> ReturnDone(a.csr, b.csr, b.pc) && b.g == a.g
    requires Decoded(inst) == Other ==> b.csr == a.csr && OtherDone(other(inst, a.g, a.pc), inst, a.g, b.g, b.pc)
    ensures Executes(inst, other, a, b)
  {
    hide Decoded, CsrDone, TrapDone, ReturnDone, OtherDone;
  }

  ghost predicate Ran(insts: seq<word>, other: (word, seq<word>, word) -> Effect, trace: seq<Machine>)
  {
    0 < |trace| <= |insts| + 1 && forall k :: 0 <= k < |trace| - 1 ==> Executes(insts[k], other, trace[k], trace[k + 1])
  }

  lemma ComputedDone(op: Op, inst: word, c: Csr, g: seq<word>)
    requires OnCsr(op) && |g| == 32 && Known(ImmI(inst))
    ensures var t := CsrRead(c, ImmI(inst));
      var c' := CsrWrite(c, ImmI(inst), Computed(op, t, Operand(op, inst, g)));
      CsrDone(op, inst, c, g, c', g[Target(inst) := t][0 := 0])
  {
    hide NewValue, Computed, Bits, Pow2, Source1, Target, ImmI, CsrRead, CsrWrite;
    ComputedRight(op, CsrRead(c, ImmI(inst)), Operand(op, inst, g));
  }

  lemma WriteComputed(op: Op, t: word, v: word)
    requires OnCsr(op)
    ensures op == Csrrw ==> Computed(op, t, v) == v
  {
    OrWord(v, t);
  }

  lemma SpelledIs(s: string)
    requires Spelled(s)
    ensures forall i :: 0 <= i < |s| ==> Allowed(s[i])
  {}

  lemma StoppedAt0(g: seq<word>)
    requires |g| == 32 && g[0] == 0
    ensures g[0 := 0] == g
  {}
}
