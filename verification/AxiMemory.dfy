/** The memory of the simulator as a slave on an AXI bus: one step of the write channels and one of the read channels in
    each cycle. */
module AxiMemory {
  import opened Bytes
  import opened Endian
  import opened AxiLog
  import opened AxiChannel

  class AxiMemory {
    const pmem: array<byte>
    const mmioRead: (nat, nat) -> nat

    var rstate: nat
    var araddr: nat
    var arlen: nat
    var arsize: nat
    var rcount: nat
    var awaddr: nat
    var awlen: nat
    var awsize: nat
    var wstate: nat
    var wcount: nat

    var arready: bool
    var rvalid: bool
    var rlast: bool
    var rdata: nat
    var awready: bool
    var wready: bool
    var bvalid: bool

    ghost const start: seq<byte>
    ghost var past: Past

    ghost function R(): Channel
      reads this`rstate, this`araddr, this`arlen, this`arsize, this`rcount
    {
      Channel(rstate, araddr, arlen, arsize, rcount)
    }

    ghost function Wr(): Channel
      reads this`wstate, this`awaddr, this`awlen, this`awsize, this`wcount
    {
      Channel(wstate, awaddr, awlen, awsize, wcount)
    }

    ghost function All(): Bus
      reads this, pmem
    {
      Bus(R(), Wr(), past.log, pmem[..])
    }

    ghost predicate Valid()
      reads this, pmem
    {
      Held(start, past, pmem[..], R(), Wr())
    }

    constructor (pmem: array<byte>, mmioRead: (nat, nat) -> nat)
      requires MBase + pmem.Length <= W
      ensures Valid() && this.pmem == pmem && this.mmioRead == mmioRead && past.log == [] && start == pmem[..] &&
              rstate == 0 && wstate == 0
    {
      this.pmem, this.mmioRead := pmem, mmioRead;
      rstate, araddr, arlen, arsize, rcount := 0, 0, 0, 0, 0;
      awaddr, awlen, awsize, wstate, wcount := 0, 0, 0, 0, 0;
      arready, rvalid, rlast, rdata, awready, wready, bvalid := false, false, false, 0, false, false, false;
      start, past := pmem[..], Past([], [], [], [], []);
      new;
      HeldStart(pmem[..], R(), Wr());
    }

    /** Reads an address of memory on the host. */
    method HostRead(addr: nat, len: nat) returns (status: Status, data: nat)
      requires InArray(addr, pmem.Length)
      ensures status == Fine <==> Width(len) && InMem(addr, len, pmem.Length)
      ensures status == Stopped <==> !Width(len)
      ensures status == Fine ==> data == Load(pmem[..], addr, len)
    {
      if len != 1 && len != 2 && len != 4 && len != 8 {
        return Stopped, 0;
      }
      if addr + len > MBase + pmem.Length {
        return Wild, 0;
      }
      assert pmem[addr - MBase..addr - MBase + len] == pmem[..][addr - MBase..addr - MBase + len];
      status, data := Fine, LittleValue(pmem[addr - MBase..addr - MBase + len]) % W;
    }

    method HostWrite(addr: nat, len: nat, data: nat) returns (status: Status)
      requires InArray(addr, pmem.Length)
      modifies pmem
      ensures status == Fine <==> Width(len) && InMem(addr, len, pmem.Length)
      ensures status == Stopped <==> !Width(len)
      ensures status == Fine ==> pmem[..] == Store(old(pmem[..]), addr - MBase, LittleBytes(data, len))
      ensures status != Fine ==> pmem[..] == old(pmem[..])
    {
      if len != 1 && len != 2 && len != 4 && len != 8 {
        return Stopped;
      }
      if addr + len > MBase + pmem.Length {
        return Wild;
      }
      var b, at := LittleBytes(data, len), addr - MBase;
      forall k | 0 <= k < len {
        pmem[at + k] := b[k];
      }
      assert pmem[..] == Store(old(pmem[..]), at, b);
      status := Fine;
    }

    /** What is at an address: memory, if the burst began there, else a device. */
    method Fetch(first: nat, addr: nat, len: nat) returns (status: Status, data: nat)
      ensures status == Fine <==> AccessFine(first, addr, len, pmem.Length)
      ensures status == Fine && InMem(addr, len, pmem.Length) ==> data == Load(pmem[..], addr, len)
    {
      hide Load;
      if InArray(first, pmem.Length) {
        if !InArray(addr, pmem.Length) {
          return Wild, 0;
        }
        status, data := HostRead(addr, len);
      } else {
        if InMem(addr, len, pmem.Length) {
          return Wild, 0;
        }
        status, data := Fine, mmioRead(addr, len);
      }
    }

    /** One step of the read channels. */
    method PmemRead(i: ReadIn) returns (status: Status)
      requires Valid() && i.araddr < W && i.arsize < 8
      modifies this`araddr, this`arlen, this`arsize, this`rstate, this`arready, this`rcount, this`past, this`rvalid,
        this`rlast, this`rdata
      ensures status == Fine <==> ReadFine(old(R()), i, pmem.Length)
      ensures status == Fine ==>
              Valid() && R() == ReadNext(old(R()), i) && past.log == ReadLogged(old(past.log), old(R()), i, rdata)
      ensures status == Fine ==>
              rvalid == (old(rstate) != 0) && rlast == (old(rstate) != 0 && old(rcount) == old(arlen))
      ensures status == Fine && old(rstate) == 0 && i.arvalid ==> arready
      ensures status == Fine && old(rstate) != 0 ==>
              !arready && (var c := old(R()); InMem(Beat(c), c.size, pmem.Length) ==>
              rdata == Load(pmem[..], Beat(c), c.size))
    {
      hide Held, PowerSize, Beat, AccessFine, Load;
      HeldParts(start, past, pmem[..], R(), Wr());
      if rstate == 0 {
        status := ReadIdle(i);
      } else {
        status := ReadServe(i);
      }
    }

    method ReadIdle(i: ReadIn) returns (status: Status)
      requires Valid() && rstate == 0 && i.araddr < W && i.arsize < 8
      modifies this`araddr, this`arlen, this`arsize, this`rstate, this`arready, this`rcount, this`past, this`rvalid,
        this`rlast
      ensures status == Fine <==> (i.arvalid ==> i.araddr >= MBase)
      ensures status == Fine ==>
              Valid() && R() == ReadNext(old(R()), i) && past.log == ReadLogged(old(past.log), old(R()), i, rdata)
      ensures status == Fine ==> !rvalid && !rlast && (i.arvalid ==> arready)
    {
      hide Held, PowerSize;
      rlast, rvalid := false, false;
      status := Fine;
      if i.arvalid {
        status := ReadAsked(i);
      }
    }

    /** A burst of reads is asked for. */
    method ReadAsked(i: ReadIn) returns (status: Status)
      requires Valid() && rstate == 0 && i.arvalid && i.araddr < W && i.arsize < 8
      modifies this`araddr, this`arlen, this`arsize, this`rstate, this`arready, this`rcount, this`past
      ensures status == Fine <==> i.araddr >= MBase
      ensures status == Fine ==>
              Valid() && R() == ReadNext(old(R()), i) &&
              past.log == ReadLogged(old(past.log), old(R()), i, rdata) && arready
    {
      hide Held, PowerSize;
      if i.araddr < MBase {
        return Stopped;
      }
      ghost var q := ReadAddressed(start, past, pmem[..], R(), Wr(), i);
      araddr, arlen, arsize := i.araddr, i.arlen, PowerSize(i.arsize);
      rstate, arready, rcount := 1, true, 0;
      past := q;
      status := Fine;
    }

    /** Offers the next beat; if the master is ready, it is handed over. */
    method ReadServe(i: ReadIn) returns (status: Status)
      requires Valid() && rstate == 1 && i.arsize < 8
      modifies this`rstate, this`arready, this`rcount, this`past, this`rvalid, this`rlast, this`rdata
      ensures status == Fine <==> AccessFine(old(araddr), Beat(old(R())), old(arsize), pmem.Length)
      ensures status == Fine ==>
              Valid() && R() == ReadNext(old(R()), i) && past.log == ReadLogged(old(past.log), old(R()), i, rdata)
      ensures status == Fine ==> rvalid && rlast == (old(rcount) == arlen) && !arready
      ensures status == Fine && InMem(Beat(old(R())), arsize, pmem.Length) ==>
              rdata == Load(pmem[..], Beat(old(R())), arsize)
    {
      hide Held, AccessFine, Load, PowerSize;
      ghost var c := R();
      arready := false;
      var byteAddr := (araddr + rcount * arsize) % W;
      assert byteAddr == Beat(c);
      hide Beat;
      status, rdata := Fetch(araddr, byteAddr, arsize);
      if status == Fine {
        rvalid := true;
        rlast := rcount == arlen;
        if i.rready {
          ghost var q := ReadHanded(start, past, pmem[..], R(), Wr(), i, rdata);
          rcount := rcount + 1;
          if rlast {
            rstate := 0;
          }
          past := q;
        }
      }
    }

    /** One step of the write channels. */
    method PmemWrite(i: WriteIn) returns (status: Status)
      requires Valid() && i.awaddr < W && i.awsize < 8 && i.wdata < W && i.wstrb < 16
      modifies this`awaddr, this`awlen, this`awsize, this`wstate, this`awready, this`wcount, this`past, this`bvalid,
        this`wready, pmem
      ensures status == Fine <==> WriteFine(old(Wr()), i, pmem.Length)
      ensures status == Fine ==>
              Valid() && Wr() == WriteNext(old(Wr()), i) && past.log == WriteLogged(old(past.log), old(Wr()), i)
      ensures status == Fine ==> pmem[..] == Written(old(pmem[..]), old(Wr()), i)
      ensures status == Fine && old(wstate) == 0 ==> !bvalid && (i.awvalid ==> awready)
      ensures status == Fine && old(wstate) == 1 ==> !awready && (i.wvalid ==> wready)
      ensures status == Fine && old(wstate) > 1 ==> bvalid && !wready && !awready
    {
      hide Held, PowerSize, Taken, AccessFine, Effect, Beat;
      if wstate == 0 {
        status := WriteIdle(i);
      } else if wstate == 1 {
        awready := false;
        status := Fine;
        if i.wvalid {
          status := WriteOne(i);
        }
      } else {
        Respond(i);
        status := Fine;
      }
    }

    method WriteIdle(i: WriteIn) returns (status: Status)
      requires Valid() && wstate == 0 && i.awaddr < W && i.awsize < 8
      modifies this`awaddr, this`awlen, this`awsize, this`wstate, this`awready, this`wcount, this`past, this`bvalid
      ensures status == Fine <==> (i.awvalid ==> i.awaddr >= MBase)
      ensures status == Fine ==>
              Valid() && Wr() == WriteNext(old(Wr()), i) && past.log == WriteLogged(old(past.log), old(Wr()), i)
      ensures status == Fine ==> !bvalid && (i.awvalid ==> awready)
    {
      hide Held, PowerSize;
      bvalid := false;
      status := Fine;
      if i.awvalid {
        if i.awaddr < MBase {
          return Stopped;
        }
        ghost var q := WriteAddressed(start, past, pmem[..], R(), Wr(), i);
        awaddr, awlen, awsize := i.awaddr, i.awlen, PowerSize(i.awsize);
        wstate, awready, wcount := 1, true, 0;
        past := q;
      }
    }

    /** Takes a beat of a burst of writes: as many bytes as there are strobes. */
    method WriteOne(i: WriteIn) returns (status: Status)
      requires Valid() && wstate == 1 && i.wvalid && i.awsize < 8
      modifies this`wready, this`wcount, this`wstate, this`past, pmem
      ensures status == Fine <==> AccessFine(old(awaddr), Beat(old(Wr())), Ones(i.wstrb), pmem.Length)
      ensures status == Fine ==>
              Valid() && Wr() == WriteNext(old(Wr()), i) && past.log == WriteLogged(old(past.log), old(Wr()), i)
      ensures status == Fine ==> pmem[..] == Effect(old(pmem[..]), Taken(old(Wr()), i)) && wready
    {
      hide Held, LittleBytes, Ones, Effect, ShiftedData, PowerSize;
      ghost var c, m := Wr(), pmem[..];
      var wdata := ShiftedData(i.wdata, awaddr);
      var byteAddr := (awaddr + wcount * awsize) % W;
      assert byteAddr == Beat(c);
      var wlen := CountStrobes(i.wstrb);
      ghost var q := WriteTaken(start, past, m, R(), c, i);
      EffectCases(m, Taken(c, i));
      if InArray(awaddr, pmem.Length) {
        if !InArray(byteAddr, pmem.Length) {
          return Wild;
        }
        status := HostWrite(byteAddr, wlen, wdata);
        if status != Fine {
          return;
        }
      } else if InMem(byteAddr, wlen, pmem.Length) {
        return Wild;
      }
      wready := true;
      wcount := wcount + 1;
      wstate := if i.wlast then 2 else 1;
      past := q;
      status := Fine;
    }

    /** Answers a burst that has ended. */
    method Respond(i: WriteIn)
      requires Valid() && wstate > 1 && i.awsize < 8
      modifies this`wstate, this`awready, this`wready, this`bvalid, this`past
      ensures Valid() && Wr() == WriteNext(old(Wr()), i) && past.log == WriteLogged(old(past.log), old(Wr()), i)
      ensures bvalid && !wready && !awready
    {
      hide Held, PowerSize;
      wready, awready := false, false;
      bvalid := true;
      if i.bready {
        ghost var q := WriteAnswered(start, past, pmem[..], R(), Wr(), i);
        wstate := 0;
        past := q;
      }
    }

    /** Any number of cycles, with whatever signals: the states of the channels, memory and everything handed over are
        what the signals make of them, cycle by cycle, and the data at the read channel is what memory holds. */
    method Run(signals: seq<(ReadIn, WriteIn)>) returns (status: Status, data: seq<nat>)
      requires Valid() && AllPorts(signals)
      modifies this, pmem
      ensures status == Fine <==> AllFine(old(R()), old(Wr()), signals, pmem.Length)
      ensures status == Fine ==>
              Valid() && |data| == |signals| && All() == Cycles(old(All()), signals, data) &&
              AllOffered(old(All()), signals, data)
      ensures status == Fine ==> exists done, open ::
              ReadsInOrder(past.log, done, open) && (open == [] <==> rstate == 0)
      ensures status == Fine ==> exists done, open ::
              WritesInOrder(past.log, done, open) && (open == [] <==> wstate == 0)
      ensures status == Fine ==> Coherent(start, past.log) && pmem[..] == Replay(start, past.log)
    {
      hide Held, ReadFine, WriteFine, ReadNext, WriteNext, ReadsInOrder, WritesInOrder, Coherent, Written, Cycles,
        AllOffered, Offered;
      var k := 0;
      data := [];
      CyclesNone(All());
      assert signals[0..] == signals && signals[..0] == [];
      while k < |signals|
        invariant 0 <= k == |data| <= |signals| && Valid()
        invariant AllFine(old(R()), old(Wr()), signals, pmem.Length) == AllFine(R(), Wr(), signals[k..], pmem.Length)
        invariant All() == Cycles(old(All()), signals[..k], data) && AllOffered(old(All()), signals[..k], data)
      {
        var r, w := signals[k].0, signals[k].1;
        assert Ports(r, w) && signals[k..][0] == signals[k] && signals[k..][1..] == signals[k + 1..];
        status := Tick(r, w);
        if status != Fine {
          return;
        }
        CyclesNext(old(All()), signals, data, k, rdata);
        data := data + [rdata];
        k := k + 1;
      }
      HeldParts(start, past, pmem[..], R(), Wr());
      assert signals[..k] == signals;
      status := Fine;
    }

    /** One cycle: the write channels take their step before the read channels. */
    method Tick(r: ReadIn, w: WriteIn) returns (status: Status)
      requires Valid() && Ports(r, w)
      modifies this, pmem
      ensures status == Fine <==> WriteFine(old(Wr()), w, pmem.Length) && ReadFine(old(R()), r, pmem.Length)
      ensures status == Fine ==> Valid() && All() == Clocked(old(All()), r, w, rdata) && Offered(old(All()), w, rdata)
    {
      hide Held, ReadFine, WriteFine, ReadNext, WriteNext, ReadLogged, WriteLogged, Written, Beat, Load;
      status := PmemWrite(w);
      if status == Fine {
        status := PmemRead(r);
      }
    }
  }

  lemma EffectCases(m: seq<byte>, e: Event)
    requires e.WriteBeat?
    ensures !InMem(e.addr, |e.bytes|, |m|) ==> Effect(m, e) == m
    ensures InMem(e.addr, |e.bytes|, |m|) ==> Effect(m, e) == Store(m, e.addr - MBase, e.bytes)
  {}
}
