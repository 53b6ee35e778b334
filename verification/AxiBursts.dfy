/** What the memory slave makes of strobes, and of bursts of whole words. */
module AxiBursts {
  import opened Bytes
  import opened Endian
  import opened AxiLog
  import opened AxiChannel
  import opened AxiMemory
  import Arith = WordArith

  // ----- strobes -----

  /** One of the bytes of a word. */
  function Lane(x: nat, k: nat): byte { Arith.Shr(x, 8 * k) % 256 }

  lemma {:induction false} ByteOf(x: nat, n: nat, k: nat)
    requires k < n
    ensures LittleBytes(x, n)[k] == Lane(x, k)
  {
    hide Arith.Shr;
    if k > 0 {
      ByteOf(x / 256, n - 1, k - 1);
      Arith.ShrTwice(x, 8, 8 * (k - 1));
      ShrEight(x);
    } else {
      Arith.ShrNone(x);
    }
  }

  lemma ShrEight(x: nat)
    ensures Arith.Shr(x, 8) == x / 256
  {
    Arith.Small();
  }

  /** The bytes of a beat are the lanes from that of the first address on. */
  lemma TakenBytes(wdata: nat, first: nat, n: nat, k: nat)
    requires k < n
    ensures LittleBytes(ShiftedData(wdata, first), n)[k] == Lane(wdata, first % 4 + k)
  {
    hide Arith.Shr, LittleBytes;
    ByteOf(ShiftedData(wdata, first), n, k);
    Arith.ShrTwice(wdata, 8 * (first % 4), 8 * k);
    assert 8 * (first % 4) + 8 * k == 8 * (first % 4 + k);
  }

  /** Memory after a beat as the protocol asks for it: the bytes with strobes, in their lanes, and no others. */
  ghost predicate Asked(m: seq<byte>, first: nat, beat: nat, strb: nat, wdata: nat) {
    var m' := Effect(m, WriteBeat(beat, LittleBytes(ShiftedData(wdata, first), Ones(strb)), false));
    forall addr: nat :: MBase <= addr < MBase + |m| ==>
      m'[addr - MBase] == if AxiLane(beat, strb, addr) >= 0 then Lane(wdata, AxiLane(beat, strb, addr))
        else m[addr - MBase]
  }

  /** A beat changes memory as the slave's lanes say. */
  lemma EffectLanes(m: seq<byte>, first: nat, beat: nat, strb: nat, wdata: nat, addr: nat)
    requires InMem(beat, Ones(strb), |m|) && MBase <= addr < MBase + |m|
    ensures Effect(m, WriteBeat(beat, LittleBytes(ShiftedData(wdata, first), Ones(strb)), false))[addr - MBase]
         == if beat <= addr < beat + Ones(strb) then Lane(wdata, first % 4 + (addr - beat)) else m[addr - MBase]
  {
    hide Ones, ShiftedData, LittleBytes, Lane;
    if beat <= addr < beat + Ones(strb) { TakenBytes(wdata, first, Ones(strb), addr - beat); }
  }

  /** A beat of a burst in memory is accepted and writes what the protocol asks for, whatever the data and the memory,
      exactly if its strobes fit and number 1, 2 or 4. */
  lemma StrobesExact(first: nat, beat: nat, strb: nat, msize: nat)
    requires InArray(first, msize) && strb < 16 && InMem(beat / 4 * 4, 4, msize)
    ensures AccessFine(first, beat, Ones(strb), msize) &&
            (forall m: seq<byte>, wdata: nat :: |m| == msize && wdata < W ==> Asked(m, first, beat, strb, wdata))
       <==> StrobesFit(first, beat, strb) && (Ones(strb) == 1 || Ones(strb) == 2 || Ones(strb) == 4)
  {
    hide Asked, Ones, StrobesFit;
    OnesFour(strb);
    OnesNone();
    if StrobesFit(first, beat, strb) && (Ones(strb) == 1 || Ones(strb) == 2 || Ones(strb) == 4) {
      FitInside(first, beat, strb, msize);
      forall m: seq<byte>, wdata: nat | |m| == msize && wdata < W ensures Asked(m, first, beat, strb, wdata) {
        FitAsked(m, first, beat, strb, wdata);
      }
    }
    if AccessFine(first, beat, Ones(strb), msize) && forall m: seq<byte>, wdata: nat :: |m| == msize && wdata < W ==>
      Asked(m, first, beat, strb, wdata) {
      var m: seq<byte> := seq(msize, _ => 255);
      assert Asked(m, first, beat, strb, 0x0403_0201);
      AskedFits(m, first, beat, strb);
    }
  }

  lemma OnesNone()
    ensures Ones(0) == 0
  {}

  lemma FitInside(first: nat, beat: nat, strb: nat, msize: nat)
    requires StrobesFit(first, beat, strb) && InMem(beat / 4 * 4, 4, msize)
    ensures InMem(beat, Ones(strb), msize)
  {
    hide Ones, Bit;
    assert beat == beat / 4 * 4 + beat % 4;
  }

  lemma FitAsked(m: seq<byte>, first: nat, beat: nat, strb: nat, wdata: nat)
    requires StrobesFit(first, beat, strb) && InMem(beat, Ones(strb), |m|)
    ensures Asked(m, first, beat, strb, wdata)
  {
    hide Ones, StrobesFit, Effect, LittleBytes, ShiftedData, AxiLane, Lane;
    forall addr: nat | MBase <= addr < MBase + |m|
      ensures Effect(m, WriteBeat(beat, LittleBytes(ShiftedData(wdata, first), Ones(strb)), false))[addr - MBase]
           == if AxiLane(beat, strb, addr) >= 0 then Lane(wdata, AxiLane(beat, strb, addr)) else m[addr - MBase]
    {
      LaneFits(first, beat, strb, addr);
      EffectLanes(m, first, beat, strb, wdata, addr);
    }
  }

  /** Memory full of ones, and a word of which all bytes are different, tell the lanes apart. */
  lemma AskedFits(m: seq<byte>, first: nat, beat: nat, strb: nat)
    requires 0 < strb < 16 && InMem(beat / 4 * 4, 4, |m|) && InMem(beat, Ones(strb), |m|)
    requires (forall k :: 0 <= k < |m| ==> m[k] == 255) && Asked(m, first, beat, strb, 0x0403_0201)
    ensures StrobesFit(first, beat, strb)
  {
    hide Ones, StrobesFit, LittleBytes, ShiftedData, Lane, Bit, Effect;
    forall addr | MBase <= addr < MBase + |m| ensures AxiLane(beat, strb, addr) == SlaveLane(first, beat, strb, addr) {
      EffectLanes(m, first, beat, strb, 0x0403_0201, addr);
      OnesAtMost(strb);
      if beat <= addr < beat + Ones(strb) { DistinctLanes(first % 4 + (addr - beat)); }
      if AxiLane(beat, strb, addr) >= 0 { DistinctLanes(AxiLane(beat, strb, addr)); }
    }
    LanesForce(first, beat, strb, |m|);
  }

  lemma OnesAtMost(strb: nat)
    requires strb < 16
    ensures Ones(strb) <= 4
  {
    OnesFour(strb);
  }

  lemma DistinctLanes(k: nat)
    requires k < 7
    ensures Lane(0x0403_0201, k) == if k < 4 then k + 1 else 0
  {
    hide Arith.Shr;
    Arith.ShrNone(0x0403_0201);
    ShrLane(1);
    ShrLane(2);
    ShrLane(3);
    ShrLane(4);
    ShrLane(5);
    ShrLane(6);
  }

  lemma ShrLane(k: nat)
    requires 1 <= k < 7
    ensures Arith.Shr(0x0403_0201, 8 * k) == if k == 1 then 0x04_0302 else if k == 2 then 0x0403 else if k == 3 then 4
            else 0
  {
    hide Arith.Shr;
    Arith.ShrTwice(0x0403_0201, 8, 8 * (k - 1));
    ShrEight(0x0403_0201);
    if k > 1 {
      Arith.ShrTwice(0x04_0302, 8, 8 * (k - 2));
      ShrEight(0x04_0302);
      if k > 2 {
        Arith.ShrTwice(0x0403, 8, 8 * (k - 3));
        ShrEight(0x0403);
        if k > 3 {
          Arith.ShrTwice(4, 8, 8 * (k - 4));
          ShrEight(4);
          ShrOfZero(8 * (k - 4));
        }
      }
    }
    Arith.ShrNone(0x04_0302);
    Arith.ShrNone(0x0403);
    Arith.ShrNone(4);
  }

  lemma ShrOfZero(k: nat)
    ensures Arith.Shr(0, k) == 0
  {}

  /** Three strobes side by side fit, but the host has no such size: the simulator stops. So it does without strobes. */
  lemma ThreeStrobesStop(msize: nat)
    requires msize >= 4
    ensures StrobesFit(MBase, MBase, 7) && Ones(7) == 3 && !AccessFine(MBase, MBase, Ones(7), msize)
    ensures Ones(0) == 0 && !AccessFine(MBase, MBase, Ones(0), msize)
  {
    OnesFour(7);
  }

  // ----- bursts of whole words -----

  function WordsBytes(ws: seq<nat>): seq<byte>
  {
    if ws == [] then [] else WordsBytes(ws[..|ws| - 1]) + LittleBytes(ws[|ws| - 1], 4)
  }

  lemma {:induction false} WordsLength(ws: seq<nat>)
    ensures |WordsBytes(ws)| == 4 * |ws|
  {
    if ws != [] { WordsLength(ws[..|ws| - 1]); }
  }

  lemma WordsNext(ws: seq<nat>, k: nat)
    requires k < |ws|
    ensures WordsBytes(ws[..k + 1]) == WordsBytes(ws[..k]) + LittleBytes(ws[k], 4)
  {
    assert ws[..k + 1][..k] == ws[..k];
  }

  lemma {:induction false} WordsAt(ws: seq<nat>, k: nat)
    requires k < |ws|
    ensures |WordsBytes(ws)| == 4 * |ws| && WordsBytes(ws)[4 * k..4 * k + 4] == LittleBytes(ws[k], 4)
  {
    WordsLength(ws);
    var front := ws[..|ws| - 1];
    WordsLength(front);
    if k < |ws| - 1 {
      WordsAt(front, k);
      assert WordsBytes(ws)[4 * k..4 * k + 4] == WordsBytes(front)[4 * k..4 * k + 4];
    }
  }

  /** Four strobes at an aligned address write the whole word. */
  lemma WholeWord(wdata: nat, first: nat)
    requires wdata < W && first % 4 == 0
    ensures Ones(15) == 4 && LittleBytes(ShiftedData(wdata, first), Ones(15)) == LittleBytes(wdata, 4)
    ensures LittleValue(LittleBytes(wdata, 4)) == wdata
  {
    OnesFour(15);
    Sizes256();
    BytesValue(wdata, 4);
    Arith.ShrNone(wdata);
  }

  const Nothing := ReadIn(false, 0, 0, 0, false)

  /** One beat of a burst of words. */
  lemma WordTaken(m0: seq<byte>, m: seq<byte>, c: Channel, addr: nat, ws: seq<nat>, k: nat, i: WriteIn)
    requires k < |ws| && ws[k] < W && c.state == 1 && c.addr == addr && c.size == 4 && c.count == k
    requires addr % 4 == 0 && MBase + |m0| <= W && InMem(addr, 4 * |ws|, |m0|) && i.wvalid && i.wdata == ws[k] &&
             i.wstrb == 15
    requires |WordsBytes(ws[..k])| == 4 * k && m == Store(m0, addr - MBase, WordsBytes(ws[..k]))
    ensures WriteFine(c, i, |m0|) && |WordsBytes(ws[..k + 1])| == 4 * (k + 1)
    ensures Written(m, c, i) == Store(m0, addr - MBase, WordsBytes(ws[..k + 1]))
  {
    hide LittleBytes, WordsBytes, Store, Ones, ShiftedData, BeatAddress, Effect;
    WholeWord(ws[k], addr);
    NoWrap(addr, k);
    WordsNext(ws, k);
    WordsLength(ws[..k + 1]);
    StoreNext(m0, addr - MBase, WordsBytes(ws[..k]), LittleBytes(ws[k], 4));
    EffectIs(m, Taken(c, i));
  }

  /** One cycle in which nothing is read. */
  method Cycle(s: AxiMemory, i: WriteIn) returns (status: Status)
    requires s.Valid() && s.rstate == 0 && i.awaddr < W && i.awsize < 8 && i.wdata < W && i.wstrb < 16
    modifies s, s.pmem
    ensures status == Fine <==> WriteFine(old(s.Wr()), i, s.pmem.Length)
    ensures status == Fine ==> s.Valid() && s.rstate == 0 && s.Wr() == WriteNext(old(s.Wr()), i)
    ensures status == Fine ==> s.pmem[..] == Written(old(s.pmem[..]), old(s.Wr()), i)
  {
    hide Held, WriteFine, WriteNext, Written, PowerSize;
    status := s.PmemWrite(i);
    if status == Fine {
      status := s.PmemRead(Nothing);
    }
  }

  /** A burst of whole words at an aligned address in memory is always accepted, whatever the pauses before its beats
      and before the master takes the response, and leaves its words there. */
  method WriteBurst(s: AxiMemory, addr: nat, words: seq<nat>, waits: seq<nat>) returns (status: Status)
    requires s.Valid() && s.rstate == 0 && s.wstate == 0 && 0 < |words| <= 256 && |waits| == |words| + 1
    requires (forall k :: 0 <= k < |words| ==> words[k] < W) && addr % 4 == 0 && InMem(addr, 4 * |words|, s.pmem.Length)
    modifies s, s.pmem
    ensures status == Fine && s.Valid() && s.rstate == 0 && s.wstate == 0
    ensures |WordsBytes(words)| == 4 * |words| && s.pmem[..] == Store(old(s.pmem[..]), addr - MBase, WordsBytes(words))
  {
    hide Held, WordsBytes, Store, Written, Effect, Taken, AccessFine;
    ghost var m0 := s.pmem[..];
    HeldParts(s.start, s.past, s.pmem[..], s.R(), s.Wr());
    SizeFour();
    status := Cycle(s, WriteIn(true, addr, |words| - 1, 2, false, 0, 0, false, false));
    WrittenNot(m0);
    NoWords(m0, addr);
    assert words[..0] == [];
    var k := 0;
    while k < |words|
      invariant 0 <= k <= |words| && s.Valid() && s.rstate == 0 && s.awaddr == addr && s.awsize == 4 && s.wcount == k &&
                status == Fine
      invariant s.wstate == if k == |words| then 2 else 1
      invariant |WordsBytes(words[..k])| == 4 * k && s.pmem[..] == Store(m0, addr - MBase, WordsBytes(words[..k]))
    {
      Pause(s, waits[k]);
      var i := WriteIn(false, 0, 0, 0, true, words[k], 15, k == |words| - 1, false);
      WordTaken(m0, s.pmem[..], s.Wr(), addr, words, k, i);
      status := Cycle(s, i);
      k := k + 1;
    }
    assert words[..k] == words;
    Pause(s, waits[k]);
    WrittenNot(s.pmem[..]);
    status := Cycle(s, WriteIn(false, 0, 0, 0, false, 0, 0, false, true));
  }

  /** So many cycles in which the master does nothing. */
  method Pause(s: AxiMemory, n: nat)
    requires s.Valid() && s.rstate == 0
    modifies s, s.pmem
    ensures s.Valid() && s.rstate == 0 && s.Wr() == old(s.Wr()) && s.pmem[..] == old(s.pmem[..])
  {
    hide Held, Effect, Taken, AccessFine, PowerSize;
    HeldParts(s.start, s.past, s.pmem[..], s.R(), s.Wr());
    for k := 0 to n
      invariant s.Valid() && s.rstate == 0 && s.Wr() == old(s.Wr()) && s.pmem[..] == old(s.pmem[..])
    {
      var status := Cycle(s, WriteIn(false, 0, 0, 0, false, 0, 0, false, false));
    }
  }

  lemma SizeFour()
    ensures PowerSize(2) == 4
  {
    assert PowerSize(1) == 2 * PowerSize(0);
  }

  lemma NoWords(m: seq<byte>, addr: nat)
    requires InMem(addr, 0, |m|)
    ensures WordsBytes([]) == [] && Store(m, addr - MBase, []) == m
  {}

  /** Cycles without a beat leave memory as it is. */
  lemma WrittenNot(m: seq<byte>)
    ensures forall c: Channel, i: WriteIn :: c.state != 1 || !i.wvalid ==> Written(m, c, i) == m
  {}

  /** A burst of reads of whole words at an aligned address in memory is always served, whatever the pauses before the
      master takes the beats, and gives the words that are there. */
  method ReadBurst(s: AxiMemory, addr: nat, n: nat, waits: seq<nat>) returns (status: Status, data: seq<nat>)
    requires s.Valid() && s.rstate == 0 && 0 < n <= 256 && |waits| == n && addr % 4 == 0 &&
             InMem(addr, 4 * n, s.pmem.Length)
    modifies s`araddr, s`arlen, s`arsize, s`rstate, s`arready, s`rcount, s`past, s`rvalid, s`rlast, s`rdata
    ensures status == Fine && s.Valid() && s.rstate == 0 && |data| == n
    ensures forall k :: 0 <= k < n ==> data[k] == Load(s.pmem[..], addr + 4 * k, 4)
  {
    hide Held, Load;
    HeldParts(s.start, s.past, s.pmem[..], s.R(), s.Wr());
    SizeFour();
    hide PowerSize;
    ghost var m := s.pmem[..];
    status := s.PmemRead(ReadIn(true, addr, n - 1, 2, false));
    data := [];
    while |data| < n
      invariant |data| <= n && s.Valid() && status == Fine && s.pmem[..] == m
      invariant s.araddr == addr && s.arlen == n - 1 && s.arsize == 4 && s.rcount == |data| &&
                s.rstate == if |data| == n then 0 else 1
      invariant forall k :: 0 <= k < |data| ==> data[k] == Load(m, addr + 4 * k, 4)
    {
      var w := 0;
      NoWrap(addr, |data|);
      while w < waits[|data|]
        invariant s.Valid() && status == Fine && s.pmem[..] == m
        invariant s.araddr == addr && s.arlen == n - 1 && s.arsize == 4 && s.rcount == |data| && s.rstate == 1
      {
        status := s.PmemRead(ReadIn(false, 0, 0, 0, false));
        w := w + 1;
      }
      status := s.PmemRead(ReadIn(false, 0, 0, 0, true));
      data := data + [s.rdata];
    }
  }

  /** What a burst of words wrote, a later one reads, for any pauses of either. */
  method WriteThenRead(s: AxiMemory, addr: nat, words: seq<nat>, waits: seq<nat>, waits': seq<nat>)
        returns (data: seq<nat>)
    requires s.Valid() && s.rstate == 0 && s.wstate == 0 && 0 < |words| <= 256 && |waits| == |words| + 1 &&
             |waits'| == |words|
    requires (forall k :: 0 <= k < |words| ==> words[k] < W) && addr % 4 == 0 && InMem(addr, 4 * |words|, s.pmem.Length)
    modifies s, s.pmem
    ensures s.Valid() && data == words
  {
    hide Held, Load, Store, WordsBytes;
    ghost var m0 := s.pmem[..];
    var status := WriteBurst(s, addr, words, waits);
    status, data := ReadBurst(s, addr, |words|, waits');
    forall k | 0 <= k < |words| ensures Load(s.pmem[..], addr + 4 * k, 4) == words[k] {
      WordBack(m0, addr, words, k);
    }
  }

  lemma WordBack(m: seq<byte>, addr: nat, ws: seq<nat>, k: nat)
    requires k < |ws| && ws[k] < W && |WordsBytes(ws)| == 4 * |ws| && InMem(addr, 4 * |ws|, |m|)
    ensures Load(Store(m, addr - MBase, WordsBytes(ws)), addr + 4 * k, 4) == ws[k]
  {
    hide WordsBytes, LittleBytes, LittleValue;
    var b, a := WordsBytes(ws), addr - MBase;
    WordsAt(ws, k);
    assert Store(m, a, b)[a + 4 * k..a + 4 * k + 4] == b[4 * k..4 * k + 4];
    WholeWord(ws[k], 0);
  }
}
