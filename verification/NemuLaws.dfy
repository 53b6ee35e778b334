/** What the patterns of the reference processor select, and where the fields of an instruction are, by numbers. */
module NemuLaws {
  import opened Powers
  import opened WordArith
  import opened NemuPattern
  import opened NemuCpu

  // ----- patterns in parts -----

  lemma {:induction false} SignificantJoin(a: string, b: string)
    ensures Significant(a + b) == Significant(a) + Significant(b)
    decreases |b|
  {
    if b == [] {
      assert a + b == a;
    } else {
      assert (a + b)[..|a + b| - 1] == a + b[..|b| - 1];
      SignificantJoin(a, b[..|b| - 1]);
    }
  }

  lemma {:induction false} SignificantAll(a: string)
    requires forall i :: 0 <= i < |a| ==> a[i] != ' '
    ensures Significant(a) == a
    decreases |a|
  {
    if a != [] {
      SignificantAll(a[..|a| - 1]);
      assert a == a[..|a| - 1] + [a[|a| - 1]];
    }
  }

  /** The second part is about the lower bits. */
  lemma AgreesJoin(d: string, e: string, x: nat)
    ensures Agrees(d + e, x) <==> Agrees(d, Shr(x, |e|)) && Agrees(e, x)
  {
    hide Shr;
    var de := d + e;
    forall k | 0 <= k < |d| ensures BitFor(de, x, k) == BitFor(d, Shr(x, |e|), k) {
      ShrTwice(x, |e|, |d| - 1 - k);
    }
    assert forall k :: 0 <= k < |e| ==> de[|d| + k] == e[k] && BitFor(de, x, |d| + k) == BitFor(e, x, k);
    if Agrees(d, Shr(x, |e|)) && Agrees(e, x) {
      forall k | 0 <= k < |de| && de[k] != '?' ensures BitFor(de, x, k) == if de[k] == '1' then 1 else 0 {
        if k >= |d| { assert de[|d| + (k - |d|)] == e[k - |d|]; }
      }
    }
    if Agrees(de, x) {
      forall k | 0 <= k < |e| && e[k] != '?' ensures BitFor(e, x, k) == if e[k] == '1' then 1 else 0 {
        assert de[|d| + k] == e[k];
      }
    }
  }

  ghost predicate Free(d: string) { forall k :: 0 <= k < |d| ==> d[k] == '?' }
  ghost predicate Fixed(d: string) { forall k :: 0 <= k < |d| ==> d[k] != '?' }

  lemma AgreesFree(d: string, x: nat)
    requires Free(d)
    ensures Agrees(d, x)
  {}

  /** A pattern without free bits is a number. */
  lemma {:induction false} AgreesFixed(d: string, x: nat)
    requires Fixed(d)
    ensures Agrees(d, x) <==> x % Pow2(|d|) == Key(d)
    decreases |d|
  {
    if d != [] {
      var n := |d| - 1;
      AgreesStep(d, x);
      AgreesFixed(d[..n], x / 2);
      hide Agrees, Pow2;
      assert Pow2(|d|) == 2 * Pow2(n) by { Doubled(n); }
      HalfRest(x, Pow2(n));
    }
  }

  lemma Doubled(n: nat)
    ensures Pow2(n + 1) == 2 * Pow2(n)
  {}

  lemma HalfRest(x: nat, p: nat)
    requires p > 0
    ensures x % (2 * p) == 2 * (x / 2 % p) + x % 2
  {
    var q := x / 2 / p;
    assert x / 2 == q * p + x / 2 % p;
    assert x == 2 * (x / 2) + x % 2;
    Unique(x, 2 * p, q, 2 * (x / 2 % p) + x % 2);
  }

  // ----- the rows of the table -----

  const Free17: string := "?????????????????"
  const Free5: string := "?????"
  const SystemOp: string := "1110011"

  lemma CsrPattern(op: Op, f3: string)
    requires OnCsr(op) && |f3| == 3 && Fixed(f3) && (forall i :: 0 <= i < 3 ==> f3[i] != ' ')
    requires Pattern(op) == AnyRegisters + f3 + System
    ensures Significant(Pattern(op)) == Free17 + (f3 + (Free5 + SystemOp))
  {
    hide Significant;
    SignificantJoin(AnyRegisters + f3, System);
    SignificantJoin(AnyRegisters, f3);
    SignificantAll(f3);
    FrontIs();
    BackIs();
    assert Free17 + f3 + (Free5 + SystemOp) == Free17 + (f3 + (Free5 + SystemOp));
  }

  lemma BlankGone(a: string, b: string)
    requires (forall i :: 0 <= i < |a| ==> a[i] != ' ')
    ensures Significant(a + " " + b) == a + Significant(b)
  {
    hide Significant;
    SignificantJoin(a + " ", b);
    SignificantJoin(a, " ");
    SignificantAll(a);
    Blank();
  }

  lemma Blank()
    ensures Significant(" ") == [] && Significant("") == []
  {
    assert " "[..0] == "";
  }

  lemma FrontIs()
    ensures Significant(AnyRegisters) == Free17
  {
    hide Significant;
    BlankGone("?????", "");
    BlankGone("?????", "????? ");
    BlankGone("???????", "????? ????? ");
    SignificantAll("");
    assert "????? " == "?????" + " " + "" && "????? ????? " == "?????" + " " + "????? ";
    assert AnyRegisters == "???????" + " " + "????? ????? ";
  }

  lemma BackIs()
    ensures Significant(System) == Free5 + SystemOp
  {
    hide Significant;
    SignificantAll("");
    SignificantAll("11");
    BlankGone("", "????? 11100 11");
    BlankGone("?????", "11100 11");
    BlankGone("11100", "11");
    assert System == "" + " " + "????? 11100 11" && "????? 11100 11" == "?????" + " " + "11100 11";
    assert "11100 11" == "11100" + " " + "11" && "11100" + "11" == SystemOp;
  }

  lemma SystemKey()
    ensures Key(SystemOp) == 115
  {
    assert SystemOp[..6][..5][..4][..3][..2][..1][..0] == [];
    assert Key("1") == 1 && Key("11") == 3 && Key("111") == 7 && Key("1110") == 14 && Key("11100") == 28 &&
           Key("111001") == 57
    by {
      assert "1"[..0] == [] && "11"[..1] == "1" && "111"[..2] == "11" && "1110"[..3] == "111" &&
             "11100"[..4] == "1110" &&
             "111001"[..5] == "11100";
    }
    assert SystemOp[..6] == "111001";
  }

  /** The seven lowest bits, and the three that select the operation. */
  lemma CsrFits(op: Op, f3: string, inst: word)
    requires OnCsr(op) && |f3| == 3 && Fixed(f3) && (forall i :: 0 <= i < 3 ==> f3[i] != ' ')
    requires Pattern(op) == AnyRegisters + f3 + System
    ensures Fits(op, inst) <==> inst % 128 == 115 && inst / 4096 % 8 == Key(f3)
  {
    hide Significant, Pattern, Agrees, Key;
    CsrPattern(op, f3);
    AgreesJoin(Free17, f3 + (Free5 + SystemOp), inst);
    AgreesFree(Free17, Shr(inst, 15));
    AgreesJoin(f3, Free5 + SystemOp, inst);
    AgreesJoin(Free5, SystemOp, inst);
    AgreesFree(Free5, Shr(inst, 7));
    AgreesFixed(f3, Shr(inst, 12));
    AgreesFixed(SystemOp, inst);
    SystemKey();
    Powers3();
    SmallPowers();
  }

  lemma SmallPowers()
    ensures Pow2(3) == 8 && Pow2(5) == 32 && Pow2(7) == 128 && Pow2(12) == 4096 && Pow2(15) == 0x8000 &&
            Pow2(20) == 0x10_0000
    ensures Pow2(32) == W
  {
    Powers3();
    Pow2Sum(2, 3);
    Pow2Sum(5, 2);
    Pow2Sum(12, 3);
    Pow2Sum(15, 5);
  }

  lemma ThreeBits()
    ensures Key("001") == 1 && Key("010") == 2 && Key("011") == 3 && Key("101") == 5 && Key("110") == 6 &&
            Key("111") == 7
  {
    assert Key("") == 0;
    assert Key("0") == 0 && Key("1") == 1 by { assert "0"[..0] == "" && "1"[..0] == ""; }
    assert Key("00") == 0 && Key("01") == 1 && Key("10") == 2 && Key("11") == 3 by {
      assert "00"[..1] == "0" && "01"[..1] == "0" && "10"[..1] == "1" && "11"[..1] == "1";
    }
    assert "001"[..2] == "00" && "010"[..2] == "01" && "011"[..2] == "01" && "101"[..2] == "10" && "110"[..2] == "11" &&
           "111"[..2] == "11";
  }

  lemma {:induction false} KeyJoin(d: string, e: string)
    ensures Key(d + e) == Key(d) * Pow2(|e|) + Key(e)
    decreases |e|
  {
    if e == "" {
      assert d + e == d;
    } else {
      var f := e[..|e| - 1];
      assert (d + e)[..|d + e| - 1] == d + f && (d + e)[|d + e| - 1] == e[|e| - 1];
      KeyJoin(d, f);
      Doubled(|f|);
      hide Pow2;
      MulTwice(Key(d), Pow2(|f|));
    }
  }

  lemma {:induction false} KeyZero(d: string)
    requires forall k :: 0 <= k < |d| ==> d[k] == '0'
    ensures Key(d) == 0
    decreases |d|
  {
    if d != "" { KeyZero(d[..|d| - 1]); }
  }

  const Zeros13: string := "0000000000000"

  /** A row without free bits stands for one instruction. */
  lemma WholeFits(op: Op, front: string, inst: word)
    requires (op == Ecall || op == Mret) && |front| == 25 && Fixed(front)
    requires Significant(Pattern(op)) == front + SystemOp
    ensures Fits(op, inst) <==> inst == Key(front) * 128 + 115
  {
    hide Significant, Pattern, Agrees, Key;
    AgreesFixed(front + SystemOp, inst);
    KeyJoin(front, SystemOp);
    SystemKey();
    SmallPowers();
  }

  const Tail: string := "00000 000 00000 11100 11"

  lemma TailIs()
    ensures Significant(Tail) == "00000" + ("000" + ("00000" + SystemOp))
  {
    hide Significant;
    BlankGone("11100", "11");
    SignificantAll("11");
    BlankGone("00000", "11100 11");
    BlankGone("000", "00000 11100 11");
    BlankGone("00000", "000 00000 11100 11");
    assert "11100 11" == "11100" + " " + "11" && "00000 11100 11" == "00000" + " " + "11100 11";
    assert "000 00000 11100 11" == "000" + " " + "00000 11100 11";
    assert Tail == "00000" + " " + "000 00000 11100 11";
    assert "11100" + "11" == SystemOp;
  }

  lemma RowIs(a: string, b: string, t: string, f: string)
    requires (forall i :: 0 <= i < |a| ==> a[i] != ' ') && (forall i :: 0 <= i < |b| ==> b[i] != ' ')
    requires Significant(t) == f
    ensures Significant(a + (" " + (b + (" " + t)))) == a + (b + f)
  {
    hide Significant;
    BlankGone(b, t);
    assert b + " " + t == b + (" " + t);
    BlankGone(a, b + (" " + t));
    assert a + " " + (b + (" " + t)) == a + (" " + (b + (" " + t)));
  }

  lemma EcallRow()
    ensures Pattern(Ecall) == "0000000" + (" " + ("00000" + (" " + Tail)))
    ensures "0000000" + ("00000" + ("00000" + ("000" + ("00000" + SystemOp)))) == "0000000" + "00000" + Zeros13 +
            SystemOp
  {}

  lemma EcallFits(inst: word)
    ensures Fits(Ecall, inst) <==> inst == 0x73
  {
    var front := "0000000" + "00000" + Zeros13;
    TailIs();
    RowIs("0000000", "00000", Tail, "00000" + ("000" + ("00000" + SystemOp)));
    EcallRow();
    hide Significant, Pattern;
    KeyZero(front);
    WholeFits(Ecall, front, inst);
  }

  lemma MretRow()
    ensures Pattern(Mret) == "0011000" + (" " + ("00010" + (" " + Tail)))
    ensures "0011000" + ("00010" + ("00000" + ("000" + ("00000" + SystemOp)))) == "0011000" + "00010" + Zeros13 +
            SystemOp
  {}

  lemma MretFits(inst: word)
    ensures Fits(Mret, inst) <==> inst == 0x3020_0073
  {
    var front := "0011000" + "00010" + Zeros13;
    TailIs();
    RowIs("0011000", "00010", Tail, "00000" + ("000" + ("00000" + SystemOp)));
    MretRow();
    hide Significant, Pattern;
    MretKey();
    WholeFits(Mret, front, inst);
  }

  lemma MretKey()
    ensures Key("0011000" + "00010" + Zeros13) == 24 * 0x4_0000 + 2 * 0x2000
  {
    hide Key;
    KeyJoin("0011000" + "00010", Zeros13);
    KeyJoin("0011000", "00010");
    KeyZero(Zeros13);
    FirstPart();
    SecondPart();
    ThirteenBits();
  }

  lemma ThirteenBits()
    ensures Pow2(13) == 0x2000 && Pow2(5) == 32
  {
    SmallPowers();
    Pow2Sum(12, 1);
  }

  lemma FirstPart()
    ensures Key("0011000") == 24
  {
    hide Key;
    KeyJoin("0011", "000");
    KeyJoin("00", "11");
    KeyZero("000");
    KeyZero("00");
    KeyEleven();
    assert "0011" + "000" == "0011000" && "00" + "11" == "0011";
    SmallPowers();
    hide Pow2;
  }

  lemma SecondPart()
    ensures Key("00010") == 2
  {
    hide Key;
    KeyJoin("0001", "0");
    KeyJoin("000", "1");
    KeyZero("000");
    KeyZero("0");
    KeyEleven();
    assert "0001" + "0" == "00010" && "000" + "1" == "0001";
  }

  lemma KeyEleven()
    ensures Key("11") == 3 && Key("1") == 1
  {
    assert "11"[..1] == "1" && "1"[..0] == "";
  }

  /** Which instruction a word is: section 9.1 of the RISC-V Unprivileged ISA and section 3.3 of the Privileged ISA. */
  lemma DecodedLaw(inst: word)
    ensures Decoded(inst) ==
            if inst % 128 == 115 && inst / 4096 % 8 == 1 then Csrrw
            else if inst % 128 == 115 && inst / 4096 % 8 == 2 then Csrrs
            else if inst % 128 == 115 && inst / 4096 % 8 == 3 then Csrrc
            else if inst % 128 == 115 && inst / 4096 % 8 == 5 then Csrrwi
            else if inst % 128 == 115 && inst / 4096 % 8 == 6 then Csrrsi
            else if inst % 128 == 115 && inst / 4096 % 8 == 7 then Csrrci
            else if inst == 0x73 then Ecall
            else if inst == 0x3020_0073 then Mret
            else Other
  {
    CsrFits(Csrrw, "001", inst);
    CsrFits(Csrrs, "010", inst);
    CsrFits(Csrrc, "011", inst);
    CsrFits(Csrrwi, "101", inst);
    CsrFits(Csrrsi, "110", inst);
    CsrFits(Csrrci, "111", inst);
    EcallFits(inst);
    MretFits(inst);
    ThreeBits();
    hide Fits, Key;
  }

  /** Where the fields of an instruction are. */
  lemma FieldLaws(inst: word)
    ensures Source1(inst) == inst / 0x8000 % 32 && Target(inst) == inst / 128 % 32
    ensures ImmI(inst) == var i := inst / 0x10_0000; if i < 2048 then i else i + 0x1_0000_0000 - 4096
  {
    hide Bits, Shr, Pow2;
    FieldIs(inst, 15, 5);
    FieldIs(inst, 7, 5);
    FieldIs(inst, 20, 12);
    SmallPowers();
  }

  lemma FieldIs(x: nat, lo: nat, n: nat)
    requires n > 0
    ensures Pow2(n) > 0 && Pow2(lo) > 0 && Bits(x, lo + n - 1, lo) == x / Pow2(lo) % Pow2(n)
  {
    BitsBelow(x, lo + n - 1, lo);
    hide Bits, Pow2;
  }

  /** The numbers of the four registers, and no others. */
  lemma CsrLaws(c: Csr, i: nat)
    ensures Known(i) <==> i == 0x300 || i == 0x305 || i == 0x341 || i == 0x342
    ensures CsrRead(c, 0x300) == c.mstatus && CsrRead(c, 0x305) == c.mtvec
    ensures CsrRead(c, 0x341) == c.mepc && CsrRead(c, 0x342) == c.mcause
  {}

  /** A trap moves nine bits of the stack of modes up by three and puts `6` in; a return moves twelve bits down and puts
      `1` in at the top. */
  lemma StackLaws(m: word)
    ensures PushPrv(m) == m / 0x1000 * 0x1000 + m % 0x200 * 8 + 6
    ensures PopPrv(m) == m / 0x1000 * 0x1000 + 0x200 + m % 0x1000 / 8
  {
    PushIs(m);
    PopIs(m);
    hide Or, And, Shr;
  }
}
