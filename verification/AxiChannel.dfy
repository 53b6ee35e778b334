/** The channels of the memory slave: their states, the signals, and what a step makes of them. */
module AxiChannel {
  import opened Bytes
  import opened Endian
  import opened AxiLog
  import Arith = WordArith

  /** How a step ends: as usual; with a failed assertion; or with an access that runs out of the array of memory, or to
      a device at an address of memory, of which nothing can be said. */
  datatype Status = Fine | Stopped | Wild

  /** The signals that a slave reads. */
  datatype ReadIn = ReadIn(arvalid: bool, araddr: nat, arlen: nat, arsize: nat, rready: bool)
  datatype WriteIn = WriteIn(awvalid: bool, awaddr: nat, awlen: nat, awsize: nat, wvalid: bool, wdata: nat, wstrb: nat,
    wlast: bool, bready: bool)

  /** The signals are as wide as their ports. */
  predicate Ports(r: ReadIn, w: WriteIn) {
    r.araddr < W && r.arlen < 256 && r.arsize < 8 && w.awaddr < W && w.awlen < 256 && w.awsize < 8 && w.wdata < W &&
      w.wstrb < 16
  }

  function PowerSize(k: nat): nat
    requires k < 8
  {
    if k == 0 then 1 else 2 * PowerSize(k - 1)
  }

  lemma ClearLowest(x: nat)
    requires x > 0
    ensures Arith.And(x, x - 1) < x && Ones(Arith.And(x, x - 1)) == Ones(x) - 1
    decreases x
  {
    hide Arith.And;
    Arith.AndStep(x, x - 1);
    if x % 2 == 1 {
      Arith.AndSelf(x / 2);
      assert (x - 1) / 2 == x / 2;
      OnesStep(x);
      OnesDouble(x / 2);
    } else {
      assert (x - 1) / 2 == x / 2 - 1;
      ClearLowest(x / 2);
      OnesStep(x);
      OnesDouble(Arith.And(x / 2, x / 2 - 1));
    }
  }

  lemma OnesDouble(x: nat)
    ensures Ones(2 * x) == Ones(x)
  {}

  /** Counts the strobes. */
  method CountStrobes(strb: nat) returns (n: nat)
    ensures n == Ones(strb)
  {
    var s := strb;
    n := 0;
    while s > 0
      invariant n + Ones(s) == Ones(strb)
    {
      ClearLowest(s);
      n := n + 1;
      s := Arith.And(s, s - 1);
    }
  }

  /** The word of data from the lane of the first address on. */
  function ShiftedData(wdata: nat, first: nat): nat { Arith.Shr(wdata, 8 * (first % 4)) }

  // ----- the states of the channels -----

  /** What a group of channels keeps: its state, the burst that was asked for, and how many beats of it are done. */
  datatype Channel = Channel(state: nat, addr: nat, len: nat, size: nat, count: nat)

  /** The address of the next beat. */
  function Beat(c: Channel): nat { BeatAddress(c.addr, c.size, c.count) }

  function ReadNext(c: Channel, i: ReadIn): Channel
    requires i.arsize < 8
  {
    if c.state == 0 then if i.arvalid then Channel(1, i.araddr, i.arlen, PowerSize(i.arsize), 0) else c
    else if i.rready then c.(state := if c.count == c.len then 0 else 1, count := c.count + 1)
    else c
  }

  function WriteNext(c: Channel, i: WriteIn): Channel
    requires i.awsize < 8
  {
    if c.state == 0 then if i.awvalid then Channel(1, i.awaddr, i.awlen, PowerSize(i.awsize), 0) else c
    else if c.state == 1 then if i.wvalid then c.(state := if i.wlast then 2 else 1, count := c.count + 1) else c
    else if i.bready then c.(state := 0) else c
  }

  /** The sizes that the host reads and writes. */
  predicate Width(n: nat) { n == 1 || n == 2 || n == 4 || n == 8 }

  predicate InArray(addr: nat, msize: nat) { MBase <= addr < MBase + msize }

  /** A burst that began in memory must stay there, with one of the sizes; any other must keep out of memory. */
  predicate AccessFine(first: nat, addr: nat, n: nat, msize: nat) {
    if InArray(first, msize) then Width(n) && InMem(addr, n, msize) else !InMem(addr, n, msize)
  }

  predicate ReadFine(c: Channel, i: ReadIn, msize: nat) {
    if c.state == 0 then i.arvalid ==> i.araddr >= MBase else AccessFine(c.addr, Beat(c), c.size, msize)
  }

  predicate WriteFine(c: Channel, i: WriteIn, msize: nat) {
    if c.state == 0 then i.awvalid ==> i.awaddr >= MBase
    else c.state == 1 && i.wvalid ==> AccessFine(c.addr, Beat(c), Ones(i.wstrb), msize)
  }

  /** The beat that is taken: the data from the first address's lane on, as many bytes as there are strobes. */
  function Taken(c: Channel, i: WriteIn): Event {
    WriteBeat(Beat(c), LittleBytes(ShiftedData(i.wdata, c.addr), Ones(i.wstrb)), i.wlast)
  }

  /** What a step hands over. */
  function ReadLogged(log: seq<Event>, c: Channel, i: ReadIn, x: nat): seq<Event>
    requires i.arsize < 8
  {
    if c.state == 0 then if i.arvalid then log + [ReadAddress(i.araddr, i.arlen, PowerSize(i.arsize))] else log
    else if i.rready then log + [ReadBeat(Beat(c), c.size, x, c.count == c.len)]
    else log
  }

  function WriteLogged(log: seq<Event>, c: Channel, i: WriteIn): seq<Event>
    requires i.awsize < 8
  {
    if c.state == 0 then if i.awvalid then log + [WriteAddress(i.awaddr, i.awlen, PowerSize(i.awsize))] else log
    else if c.state == 1 then if i.wvalid then log + [Taken(c, i)] else log
    else if i.bready then log + [WriteResponse] else log
  }

  /** The memory after a step of the write channels. */
  function Written(m: seq<byte>, c: Channel, i: WriteIn): seq<byte> {
    if c.state == 1 && i.wvalid then Effect(m, Taken(c, i)) else m
  }

  predicate AllPorts(signals: seq<(ReadIn, WriteIn)>) {
    forall k :: 0 <= k < |signals| ==> Ports(signals[k].0, signals[k].1)
  }

  /** All steps of a run are fine. */
  predicate AllFine(r: Channel, w: Channel, signals: seq<(ReadIn, WriteIn)>, msize: nat)
    requires AllPorts(signals)
    decreases |signals|
  {
    signals == [] ||
    (var (i, j) := signals[0];
     assert Ports(i, j);
     WriteFine(w, j, msize) && ReadFine(r, i, msize) && AllFine(ReadNext(r, i), WriteNext(w, j), signals[1..], msize))
  }

  /** The slave and its memory, and what was handed over. */
  datatype Bus = Bus(r: Channel, w: Channel, log: seq<Event>, mem: seq<byte>)

  /** A cycle: the write channels take their step first; `x` is the data at the read channel. */
  ghost function Clocked(b: Bus, i: ReadIn, j: WriteIn, x: nat): Bus
    requires Ports(i, j)
  {
    Bus(ReadNext(b.r, i), WriteNext(b.w, j), ReadLogged(WriteLogged(b.log, b.w, j), b.r, i, x), Written(b.mem, b.w, j))
  }

  /** After all cycles, with the data at the read channel in each. */
  ghost function Cycles(b: Bus, signals: seq<(ReadIn, WriteIn)>, data: seq<nat>): Bus
    requires AllPorts(signals) && |data| == |signals|
    decreases |signals|
  {
    if signals == [] then b else
      var k := |signals| - 1;
      var (i, j) := signals[k];
      assert Ports(i, j);
      Clocked(Cycles(b, signals[..k], data[..k]), i, j, data[k])
  }

  /** What is offered to be read is what memory holds there, after the write of the same cycle. */
  ghost predicate Offered(b: Bus, j: WriteIn, x: nat) {
    b.r.state != 0 && InMem(Beat(b.r), b.r.size, |b.mem|) ==>
      |Written(b.mem, b.w, j)| == |b.mem| && x == Load(Written(b.mem, b.w, j), Beat(b.r), b.r.size)
  }

  /** So it is in every cycle. */
  ghost predicate AllOffered(b: Bus, signals: seq<(ReadIn, WriteIn)>, data: seq<nat>)
    requires AllPorts(signals) && |data| == |signals|
  {
    forall k :: 0 <= k < |signals| ==> Offered(Cycles(b, signals[..k], data[..k]), signals[k].1, data[k])
  }

  lemma CyclesNone(b: Bus)
    ensures Cycles(b, [], []) == b && AllOffered(b, [], [])
  {}

  lemma CyclesNext(b: Bus, signals: seq<(ReadIn, WriteIn)>, data: seq<nat>, k: nat, x: nat)
    requires AllPorts(signals) && k == |data| < |signals|
    ensures var (i, j) := signals[k];
      && Ports(i, j) && Cycles(b, signals[..k + 1], data + [x]) == Clocked(Cycles(b, signals[..k], data), i, j, x)
      && (AllOffered(b, signals[..k], data) && Offered(Cycles(b, signals[..k], data), j, x) ==>
         AllOffered(b, signals[..k + 1], data + [x]))
  {
    hide Clocked, Offered;
    var more, data' := signals[..k + 1], data + [x];
    assert more[..k] == signals[..k] && data'[..k] == data && more[k] == signals[k];
    forall n | 0 <= n < k ensures more[..n] == signals[..k][..n] && data'[..n] == data[..n] &&
      more[n] == signals[..k][n] {}
  }

  // ----- what has been handed over, and the states -----

  /** Everything handed over so far, and the bursts it makes up. */
  datatype Past = Past(log: seq<Event>, rdone: seq<Reads>, ropen: seq<Reads>, wdone: seq<Writes>, wopen: seq<Writes>)

  ghost predicate ReadState(p: Past, c: Channel) {
    && ReadsInOrder(p.log, p.rdone, p.ropen)
    && (if c.state == 0 then p.ropen == []
        else c.state == 1 && |p.ropen| == 1 && ReadsAs(p.ropen[0], c))
  }

  ghost predicate ReadsAs(b: Reads, c: Channel) {
    c.count == |b.data| <= c.len && b.addr == c.addr && b.len == c.len && b.size == c.size
  }

  ghost predicate WriteState(p: Past, c: Channel) {
    && WritesInOrder(p.log, p.wdone, p.wopen)
    && (if c.state == 0 then p.wopen == []
        else c.state <= 2 && |p.wopen| == 1 && p.wopen[0].ended == (c.state == 2) &&
             (c.state == 1 ==> WritesAs(p.wopen[0], c)))
  }

  ghost predicate WritesAs(b: Writes, c: Channel) {
    c.count == |b.beats| && b.addr == c.addr && b.len == c.len && b.size == c.size
  }

  /** Memory is what the log leaves, and everything read was there. */
  ghost predicate MemoryState(start: seq<byte>, log: seq<Event>, mem: seq<byte>) {
    |start| == |mem| && MBase + |mem| <= W && mem == Replay(start, log) && Coherent(start, log)
  }

  ghost predicate Held(start: seq<byte>, p: Past, mem: seq<byte>, r: Channel, w: Channel) {
    MemoryState(start, p.log, mem) && ReadState(p, r) && WriteState(p, w)
  }

  lemma HeldParts(start: seq<byte>, p: Past, mem: seq<byte>, r: Channel, w: Channel)
    requires Held(start, p, mem, r, w)
    ensures r.state <= 1 && w.state <= 2 && |start| == |mem| && MBase + |mem| <= W
    ensures mem == Replay(start, p.log) && Coherent(start, p.log)
    ensures ReadsInOrder(p.log, p.rdone, p.ropen) && (p.ropen == [] <==> r.state == 0)
    ensures WritesInOrder(p.log, p.wdone, p.wopen) && (p.wopen == [] <==> w.state == 0)
  {
    hide Replay, Coherent, ReadsInOrder, WritesInOrder;
  }

  lemma HeldStart(mem: seq<byte>, r: Channel, w: Channel)
    requires MBase + |mem| <= W && r.state == 0 && w.state == 0
    ensures Held(mem, Past([], [], [], [], []), mem, r, w)
  {}

  lemma MemorySame(start: seq<byte>, log: seq<Event>, mem: seq<byte>, e: Event)
    requires MemoryState(start, log, mem) && !e.WriteBeat?
    requires e.ReadBeat? && InMem(e.addr, e.size, |mem|) ==> e.data == Load(mem, e.addr, e.size)
    ensures MemoryState(start, log + [e], mem)
  {
    hide Replay, Coherent, Load;
    ReplayNext(start, log, e);
    CoherentNext(start, log, e);
  }

  lemma MemoryWritten(start: seq<byte>, log: seq<Event>, mem: seq<byte>, e: Event)
    requires MemoryState(start, log, mem) && e.WriteBeat?
    ensures MemoryState(start, log + [e], Effect(mem, e))
  {
    hide Replay, Coherent, Effect;
    ReplayNext(start, log, e);
    CoherentNext(start, log, e);
  }

  /** A read was asked for. */
  lemma ReadAddressed(start: seq<byte>, p: Past, mem: seq<byte>, r: Channel, w: Channel, i: ReadIn) returns (q: Past)
    requires Held(start, p, mem, r, w) && r.state == 0 && i.arvalid && i.arsize < 8
    ensures Held(start, q, mem, ReadNext(r, i), w) && q.log == ReadLogged(p.log, r, i, 0)
  {
    hide MemoryState, ReadsInOrder, WritesInOrder, PowerSize;
    var size := PowerSize(i.arsize);
    var e := ReadAddress(i.araddr, i.arlen, size);
    q := p.(log := p.log + [e], ropen := [Reads(i.araddr, i.arlen, size, [])]);
    ReadsBegin(p.log, p.rdone, i.araddr, i.arlen, size);
    WritesIdle(p.log, e, p.wdone, p.wopen);
    MemorySame(start, p.log, mem, e);
  }

  /** A beat was handed over. */
  lemma ReadHanded(start: seq<byte>, p: Past, mem: seq<byte>, r: Channel, w: Channel, i: ReadIn, x: nat)
        returns (q: Past)
    requires Held(start, p, mem, r, w) && r.state != 0 && i.rready && i.arsize < 8
    requires InMem(Beat(r), r.size, |mem|) ==> x == Load(mem, Beat(r), r.size)
    ensures Held(start, q, mem, ReadNext(r, i), w) && q.log == ReadLogged(p.log, r, i, x)
  {
    hide MemoryState, ReadsInOrder, WritesInOrder, Load;
    var b := p.ropen[0];
    assert p.ropen == [b];
    var e := ReadBeat(Beat(r), r.size, x, r.count == r.len);
    var b' := b.(data := b.data + [x]);
    q := if r.count == r.len then p.(log := p.log + [e], rdone := p.rdone + [b'], ropen := [])
      else p.(log := p.log + [e], ropen := [b']);
    ReadsGoOn(p.log, p.rdone, b, x);
    WritesIdle(p.log, e, p.wdone, p.wopen);
    MemorySame(start, p.log, mem, e);
  }

  lemma WriteAddressed(start: seq<byte>, p: Past, mem: seq<byte>, r: Channel, w: Channel, i: WriteIn) returns (q: Past)
    requires Held(start, p, mem, r, w) && w.state == 0 && i.awvalid && i.awsize < 8
    ensures Held(start, q, mem, r, WriteNext(w, i)) && q.log == WriteLogged(p.log, w, i)
  {
    hide MemoryState, ReadsInOrder, WritesInOrder, PowerSize;
    var size := PowerSize(i.awsize);
    var e := WriteAddress(i.awaddr, i.awlen, size);
    q := p.(log := p.log + [e], wopen := [Writes(i.awaddr, i.awlen, size, [], false)]);
    WritesBegin(p.log, p.wdone, i.awaddr, i.awlen, size);
    ReadsIdle(p.log, e, p.rdone, p.ropen);
    MemorySame(start, p.log, mem, e);
  }

  lemma WriteTaken(start: seq<byte>, p: Past, mem: seq<byte>, r: Channel, w: Channel, i: WriteIn) returns (q: Past)
    requires Held(start, p, mem, r, w) && w.state == 1 && i.wvalid && i.awsize < 8
    ensures Held(start, q, Written(mem, w, i), r, WriteNext(w, i)) && q.log == WriteLogged(p.log, w, i)
  {
    hide MemoryState, ReadsInOrder, WritesInOrder, Effect, LittleBytes, ShiftedData, Ones;
    var b := p.wopen[0];
    assert p.wopen == [b];
    var e := Taken(w, i);
    q := p.(log := p.log + [e], wopen := [b.(beats := b.beats + [e.bytes], ended := i.wlast)]);
    WritesGoOn(p.log, p.wdone, b, e.bytes, i.wlast);
    ReadsIdle(p.log, e, p.rdone, p.ropen);
    MemoryWritten(start, p.log, mem, e);
  }

  lemma WriteAnswered(start: seq<byte>, p: Past, mem: seq<byte>, r: Channel, w: Channel, i: WriteIn) returns (q: Past)
    requires Held(start, p, mem, r, w) && w.state >= 2 && i.bready && i.awsize < 8
    ensures Held(start, q, mem, r, WriteNext(w, i)) && q.log == WriteLogged(p.log, w, i)
  {
    hide MemoryState, ReadsInOrder, WritesInOrder;
    var b := p.wopen[0];
    assert p.wopen == [b];
    q := p.(log := p.log + [WriteResponse], wdone := p.wdone + [b], wopen := []);
    WritesAnswered(p.log, p.wdone, b);
    ReadsIdle(p.log, WriteResponse, p.rdone, p.ropen);
    MemorySame(start, p.log, mem, WriteResponse);
  }
}
