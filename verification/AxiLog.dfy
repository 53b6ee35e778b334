/** What happens on the channels of a memory slave: events, the memory that they leave, and the bursts that they make
    up. */
module AxiLog {
  import opened Bytes
  import opened Endian

  const W: nat := 0x1_0000_0000
  const MBase: nat := 0x8000_0000

  /** Something that is handed over: an address, a beat of data, a response. */
  datatype Event = ReadAddress(addr: nat, len: nat, size: nat)
    | ReadBeat(addr: nat, size: nat, data: nat, last: bool)
    | WriteAddress(addr: nat, len: nat, size: nat)
    | WriteBeat(addr: nat, bytes: seq<byte>, last: bool)
    | WriteResponse

  // ----- memory -----

  predicate InMem(addr: nat, n: nat, msize: nat) { MBase <= addr && addr + n <= MBase + msize }

  function Store(m: seq<byte>, at: nat, b: seq<byte>): (r: seq<byte>)
    requires at + |b| <= |m|
    ensures |r| == |m|
  {
    m[..at] + b + m[at + |b|..]
  }

  /** What an event leaves in memory. Writes outside go to devices. */
  function Effect(m: seq<byte>, e: Event): (r: seq<byte>)
    ensures |r| == |m|
  {
    if e.WriteBeat? && InMem(e.addr, |e.bytes|, |m|) then Store(m, e.addr - MBase, e.bytes) else m
  }

  function Replay(m: seq<byte>, log: seq<Event>): (r: seq<byte>)
    ensures |r| == |m|
  {
    if log == [] then m else Effect(Replay(m, log[..|log| - 1]), log[|log| - 1])
  }

  lemma ReplayNext(m: seq<byte>, log: seq<Event>, e: Event)
    ensures Replay(m, log + [e]) == Effect(Replay(m, log), e)
  {
    assert (log + [e])[..|log|] == log;
  }

  /** The number of `n` bytes at an address; a word holds its low 32 bits. */
  function Load(m: seq<byte>, addr: nat, n: nat): nat
    requires InMem(addr, n, |m|)
  {
    LittleValue(m[addr - MBase..addr - MBase + n]) % W
  }

  /** Every beat read from memory has what the writes before it left there. */
  ghost predicate Coherent(m: seq<byte>, log: seq<Event>) {
    forall i :: 0 <= i < |log| ==> Faithful(m, log, i)
  }

  ghost predicate Faithful(m: seq<byte>, log: seq<Event>, i: nat)
    requires i < |log|
  {
    var e := log[i];
    e.ReadBeat? && InMem(e.addr, e.size, |m|) ==> e.data == Load(Replay(m, log[..i]), e.addr, e.size)
  }

  lemma CoherentNext(m: seq<byte>, log: seq<Event>, e: Event)
    requires Coherent(m, log)
    requires e.ReadBeat? && InMem(e.addr, e.size, |m|) ==> e.data == Load(Replay(m, log), e.addr, e.size)
    ensures Coherent(m, log + [e])
  {
    var after := log + [e];
    forall i | 0 <= i < |after| ensures Faithful(m, after, i) {
      if i < |log| {
        assert after[..i] == log[..i];
        assert Faithful(m, log, i);
      } else {
        assert after[..i] == log;
      }
    }
  }

  /** The event writes one of these bytes of memory. */
  predicate Touches(e: Event, addr: nat, n: nat) {
    e.WriteBeat? && e.addr < addr + n && addr < e.addr + |e.bytes|
  }

  /** Bytes that no event writes stay as they were. */
  lemma {:induction false} Untouched(m: seq<byte>, log: seq<Event>, from: nat, addr: nat, n: nat)
    requires from <= |log| && InMem(addr, n, |m|) && forall i :: from <= i < |log| ==> !Touches(log[i], addr, n)
    ensures Replay(m, log)[addr - MBase..addr - MBase + n] == Replay(m, log[..from])[addr - MBase..addr - MBase + n]
  {
    if from < |log| {
      var before := log[..|log| - 1];
      Untouched(m, before, from, addr, n);
      assert before[..from] == log[..from];
      Elsewhere(Replay(m, before), log[|log| - 1], addr, n);
    } else {
      assert log[..from] == log;
    }
  }

  lemma Elsewhere(m: seq<byte>, e: Event, addr: nat, n: nat)
    requires InMem(addr, n, |m|) && !Touches(e, addr, n)
    ensures Effect(m, e)[addr - MBase..addr - MBase + n] == m[addr - MBase..addr - MBase + n]
  {
    var a := addr - MBase;
    forall k | a <= k < a + n ensures Effect(m, e)[k] == m[k] {}
  }

  /** What was written last is what is read. */
  lemma LastWriteRead(m: seq<byte>, log: seq<Event>, j: nat, i: nat)
    requires Coherent(m, log) && j < i < |log| && log[j].WriteBeat? && log[i].ReadBeat?
    requires log[i].addr == log[j].addr && log[i].size == |log[j].bytes| && InMem(log[i].addr, log[i].size, |m|)
    requires forall k :: j < k < i ==> !Touches(log[k], log[i].addr, log[i].size)
    ensures log[i].data == LittleValue(log[j].bytes) % W
  {
    hide Replay, Effect, Load;
    var addr, n := log[i].addr, log[i].size;
    assert Faithful(m, log, i);
    var before := log[..i];
    Untouched(m, before, j + 1, addr, n);
    assert before[..j + 1] == log[..j] + [log[j]];
    ReplayNext(m, log[..j], log[j]);
    EffectLoads(Replay(m, log[..j]), log[j], Replay(m, before), addr, n);
  }

  lemma EffectLoads(m: seq<byte>, e: Event, m': seq<byte>, addr: nat, n: nat)
    requires e.WriteBeat? && e.addr == addr && |e.bytes| == n && InMem(addr, n, |m|) && |m'| == |m|
    requires m'[addr - MBase..addr - MBase + n] == Effect(m, e)[addr - MBase..addr - MBase + n]
    ensures Load(m', addr, n) == LittleValue(e.bytes) % W
  {
    hide LittleValue;
    JustStored(m, addr - MBase, e.bytes);
  }

  lemma JustStored(m: seq<byte>, at: nat, b: seq<byte>)
    requires at + |b| <= |m|
    ensures Store(m, at, b)[at..at + |b|] == b
  {}

  // ----- bursts -----

  /** A burst of reads: how it was asked for, and what was handed over for it. */
  datatype Reads = Reads(addr: nat, len: nat, size: nat, data: seq<nat>)

  /** The address of a beat. */
  function BeatAddress(addr: nat, size: nat, k: nat): nat { (addr + k * size) % W }

  function ReadBeats(b: Reads, k: nat): seq<Event>
    requires k <= |b.data|
  {
    if k == 0 then []
    else ReadBeats(b, k - 1) +
         [ReadBeat(BeatAddress(b.addr, b.size, k - 1), b.size, b.data[k - 1], k - 1 == b.len)]
  }

  function ReadEvents(b: Reads): seq<Event> { [ReadAddress(b.addr, b.len, b.size)] + ReadBeats(b, |b.data|) }

  function AllReads(bs: seq<Reads>): seq<Event>
  {
    if bs == [] then [] else AllReads(bs[..|bs| - 1]) + ReadEvents(bs[|bs| - 1])
  }

  ghost predicate ReadsComplete(bs: seq<Reads>) { forall i :: 0 <= i < |bs| ==> |bs[i].data| == bs[i].len + 1 }

  /** The events of the read channels, without the others. */
  function ReadSide(log: seq<Event>): seq<Event> {
    if log == [] then []
    else
      var e := log[|log| - 1];
      ReadSide(log[..|log| - 1]) + if e.ReadAddress? || e.ReadBeat? then [e] else []
  }

  lemma ReadSideNext(log: seq<Event>, e: Event)
    ensures ReadSide(log + [e]) == ReadSide(log) + if e.ReadAddress? || e.ReadBeat? then [e] else []
  {
    assert (log + [e])[..|log|] == log;
  }

  /** The read channels as they should be: complete bursts, one after the other, and perhaps one of which not all beats
      were handed over. */
  ghost predicate ReadsInOrder(log: seq<Event>, done: seq<Reads>, open: seq<Reads>) {
    && ReadSide(log) == AllReads(done + open) && ReadsComplete(done)
    && |open| <= 1 && (open != [] ==> |open[0].data| <= open[0].len)
  }

  lemma ReadsIdle(log: seq<Event>, e: Event, done: seq<Reads>, open: seq<Reads>)
    requires ReadsInOrder(log, done, open) && !e.ReadAddress? && !e.ReadBeat?
    ensures ReadsInOrder(log + [e], done, open)
  {
    ReadSideNext(log, e);
    assert ReadSide(log) + [] == ReadSide(log);
  }

  lemma AllReadsNext(bs: seq<Reads>, b: Reads)
    ensures AllReads(bs + [b]) == AllReads(bs) + ReadEvents(b)
  {
    assert (bs + [b])[..|bs|] == bs;
  }

  lemma ReadsBegin(log: seq<Event>, done: seq<Reads>, addr: nat, len: nat, size: nat)
    requires ReadsInOrder(log, done, [])
    ensures ReadsInOrder(log + [ReadAddress(addr, len, size)], done, [Reads(addr, len, size, [])])
  {
    ReadSideNext(log, ReadAddress(addr, len, size));
    AllReadsNext(done, Reads(addr, len, size, []));
    assert done + [] == done;
  }

  /** One beat more. With the last one the burst is complete. */
  lemma ReadsGoOn(log: seq<Event>, done: seq<Reads>, b: Reads, x: nat)
    requires ReadsInOrder(log, done, [b])
    ensures var e := ReadBeat(BeatAddress(b.addr, b.size, |b.data|), b.size, x, |b.data| == b.len);
      var b' := b.(data := b.data + [x]);
      if |b.data| == b.len then ReadsInOrder(log + [e], done + [b'], []) else ReadsInOrder(log + [e], done, [b'])
  {
    var e := ReadBeat(BeatAddress(b.addr, b.size, |b.data|), b.size, x, |b.data| == b.len);
    var b' := b.(data := b.data + [x]);
    ReadSideNext(log, e);
    AllReadsNext(done, b);
    AllReadsNext(done, b');
    SameBeats(b, b', |b.data|);
    assert ReadBeats(b', |b'.data|) == ReadBeats(b, |b.data|) + [e];
    assert ReadEvents(b') == ReadEvents(b) + [e];
    assert AllReads(done) + ReadEvents(b) + [e] == AllReads(done) + ReadEvents(b');
    assert done + [b'] + [] == done + [b'];
  }

  lemma {:induction false} SameBeats(b: Reads, b': Reads, k: nat)
    requires b'.addr == b.addr && b'.len == b.len && b'.size == b.size && b.data <= b'.data && k <= |b.data|
    ensures ReadBeats(b', k) == ReadBeats(b, k)
  {
    if k > 0 { SameBeats(b, b', k - 1); }
  }

  /** Beat number `k` of a burst, in general. */
  lemma {:induction false} ReadBeatAt(b: Reads, n: nat, k: nat)
    requires k < n <= |b.data|
    ensures |ReadBeats(b, n)| == n
    ensures ReadBeats(b, n)[k] == ReadBeat(BeatAddress(b.addr, b.size, k), b.size, b.data[k], k == b.len)
  {
    if n > 1 {
      ReadBeatAt(b, n - 1, if k < n - 1 then k else 0);
    }
  }

  // ----- the write channels -----

  /** A burst of writes, with the bytes that each beat wrote, and whether the last beat and the response came. */
  datatype Writes = Writes(addr: nat, len: nat, size: nat, beats: seq<seq<byte>>, ended: bool)

  function WriteBeats(b: Writes, k: nat): seq<Event>
    requires k <= |b.beats|
  {
    if k == 0 then []
    else WriteBeats(b, k - 1) +
         [WriteBeat(BeatAddress(b.addr, b.size, k - 1), b.beats[k - 1], b.ended && k == |b.beats|)]
  }

  function WriteEvents(b: Writes): seq<Event> { [WriteAddress(b.addr, b.len, b.size)] + WriteBeats(b, |b.beats|) }

  function AllWrites(bs: seq<Writes>): seq<Event> {
    if bs == [] then [] else AllWrites(bs[..|bs| - 1]) + WriteEvents(bs[|bs| - 1]) + [WriteResponse]
  }

  /** Complete bursts have ended with a last beat. */
  ghost predicate WritesComplete(bs: seq<Writes>) { forall i :: 0 <= i < |bs| ==> bs[i].ended && bs[i].beats != [] }

  function WriteSide(log: seq<Event>): seq<Event> {
    if log == [] then []
    else
      var e := log[|log| - 1];
      WriteSide(log[..|log| - 1]) + if e.ReadAddress? || e.ReadBeat? then [] else [e]
  }

  lemma WriteSideNext(log: seq<Event>, e: Event)
    ensures WriteSide(log + [e]) == WriteSide(log) + if e.ReadAddress? || e.ReadBeat? then [] else [e]
  {
    assert (log + [e])[..|log|] == log;
  }

  /** The write channels as they should be: bursts that ended with a last beat and had their response, and perhaps one
      that had not. */
  ghost predicate WritesInOrder(log: seq<Event>, done: seq<Writes>, open: seq<Writes>) {
    && WritesComplete(done) && |open| <= 1 && (open != [] && open[0].ended ==> open[0].beats != [])
    && WriteSide(log) == AllWrites(done) + if open == [] then [] else WriteEvents(open[0])
  }

  lemma WritesIdle(log: seq<Event>, e: Event, done: seq<Writes>, open: seq<Writes>)
    requires WritesInOrder(log, done, open) && (e.ReadAddress? || e.ReadBeat?)
    ensures WritesInOrder(log + [e], done, open)
  {
    WriteSideNext(log, e);
    assert WriteSide(log) + [] == WriteSide(log);
  }

  lemma WritesBegin(log: seq<Event>, done: seq<Writes>, addr: nat, len: nat, size: nat)
    requires WritesInOrder(log, done, [])
    ensures WritesInOrder(log + [WriteAddress(addr, len, size)], done, [Writes(addr, len, size, [], false)])
  {
    WriteSideNext(log, WriteAddress(addr, len, size));
    assert AllWrites(done) + [] == AllWrites(done);
    assert WriteEvents(Writes(addr, len, size, [], false)) == [WriteAddress(addr, len, size)];
  }

  lemma WritesGoOn(log: seq<Event>, done: seq<Writes>, b: Writes, x: seq<byte>, last: bool)
    requires WritesInOrder(log, done, [b]) && !b.ended
    ensures var e := WriteBeat(BeatAddress(b.addr, b.size, |b.beats|), x, last);
      WritesInOrder(log + [e], done, [b.(beats := b.beats + [x], ended := last)])
  {
    var e := WriteBeat(BeatAddress(b.addr, b.size, |b.beats|), x, last);
    var b' := b.(beats := b.beats + [x], ended := last);
    WriteSideNext(log, e);
    SameWrites(b, b', |b.beats|);
    assert WriteBeats(b', |b'.beats|) == WriteBeats(b, |b.beats|) + [e];
    assert WriteEvents(b') == WriteEvents(b) + [e];
    assert AllWrites(done) + WriteEvents(b) + [e] == AllWrites(done) + WriteEvents(b');
  }

  lemma {:induction false} SameWrites(b: Writes, b': Writes, k: nat)
    requires b'.addr == b.addr && b'.len == b.len && b'.size == b.size && b.beats < b'.beats && k <= |b.beats| &&
             !b.ended
    ensures WriteBeats(b', k) == WriteBeats(b, k)
  {
    if k > 0 { SameWrites(b, b', k - 1); }
  }

  lemma WritesAnswered(log: seq<Event>, done: seq<Writes>, b: Writes)
    requires WritesInOrder(log, done, [b]) && b.ended
    ensures WritesInOrder(log + [WriteResponse], done + [b], [])
  {
    WriteSideNext(log, WriteResponse);
    assert (done + [b])[..|done|] == done;
    assert AllWrites(done + [b]) + [] == AllWrites(done) + WriteEvents(b) + [WriteResponse];
  }

  // ----- what a burst of words leaves -----

  lemma {:induction false} WritesMatter(m: seq<byte>, log: seq<Event>)
    ensures Replay(m, log) == Replay(m, WriteSide(log))
  {
    if log != [] {
      var before, e := log[..|log| - 1], log[|log| - 1];
      WritesMatter(m, before);
      ReplayNext(m, WriteSide(before), e);
      assert WriteSide(before) + [] == WriteSide(before);
    }
  }

  function Joined(bs: seq<seq<byte>>): seq<byte> { if bs == [] then [] else Joined(bs[..|bs| - 1]) + bs[|bs| - 1] }

  /** A burst of whole words, within memory. */
  ghost predicate WordBurst(b: Writes, msize: nat) {
    && b.size == 4 && (forall k :: 0 <= k < |b.beats| ==> |b.beats[k]| == 4)
    && MBase + msize <= W && InMem(b.addr, 4 * |b.beats|, msize)
  }

  lemma {:induction false} JoinedLength(bs: seq<seq<byte>>)
    requires forall k :: 0 <= k < |bs| ==> |bs[k]| == 4
    ensures |Joined(bs)| == 4 * |bs|
  {
    if bs != [] { JoinedLength(bs[..|bs| - 1]); }
  }

  lemma {:induction false} JoinedAt(bs: seq<seq<byte>>, k: nat)
    requires k < |bs| && forall i :: 0 <= i < |bs| ==> |bs[i]| == 4
    ensures |Joined(bs)| == 4 * |bs| && Joined(bs)[4 * k..4 * k + 4] == bs[k]
  {
    JoinedLength(bs);
    var front := bs[..|bs| - 1];
    JoinedLength(front);
    if k < |bs| - 1 {
      JoinedAt(front, k);
      assert Joined(bs)[4 * k..4 * k + 4] == Joined(front)[4 * k..4 * k + 4];
    }
  }

  /** The beats of a burst of words put their words one after the other into memory, and change nothing else. */
  lemma {:induction false} BurstStores(m: seq<byte>, log: seq<Event>, b: Writes, k: nat)
    requires WordBurst(b, |m|) && k <= |b.beats|
    ensures |Joined(b.beats[..k])| == 4 * k
    ensures Replay(m, log + WriteBeats(b, k)) == Store(Replay(m, log), b.addr - MBase, Joined(b.beats[..k]))
  {
    hide Replay, Store, WriteBeats, Joined, Effect, BeatAddress;
    JoinedLength(b.beats[..k]);
    if k == 0 {
      NoBeats(m, log, b);
    } else {
      BurstStores(m, log, b, k - 1);
      var e := LastBeat(b, k);
      assert log + WriteBeats(b, k) == (log + WriteBeats(b, k - 1)) + [e];
      ReplayNext(m, log + WriteBeats(b, k - 1), e);
      NoWrap(b.addr, k - 1);
      JoinedLast(b.beats, k);
      JoinedLength(b.beats[..k - 1]);
      EffectIs(Store(Replay(m, log), b.addr - MBase, Joined(b.beats[..k - 1])), e);
      StoreNext(Replay(m, log), b.addr - MBase, Joined(b.beats[..k - 1]), b.beats[k - 1]);
    }
  }

  lemma NoBeats(m: seq<byte>, log: seq<Event>, b: Writes)
    requires WordBurst(b, |m|)
    ensures log + WriteBeats(b, 0) == log &&
            Store(Replay(m, log), b.addr - MBase, Joined(b.beats[..0])) == Replay(m, log)
  {}

  lemma LastBeat(b: Writes, k: nat) returns (e: Event)
    requires 0 < k <= |b.beats|
    ensures WriteBeats(b, k) == WriteBeats(b, k - 1) + [e]
    ensures e.WriteBeat? && e.addr == BeatAddress(b.addr, b.size, k - 1) && e.bytes == b.beats[k - 1]
  {
    e := WriteBeat(BeatAddress(b.addr, b.size, k - 1), b.beats[k - 1], b.ended && k == |b.beats|);
  }

  lemma JoinedLast(bs: seq<seq<byte>>, k: nat)
    requires 0 < k <= |bs|
    ensures Joined(bs[..k]) == Joined(bs[..k - 1]) + bs[k - 1]
  {
    assert bs[..k][..k - 1] == bs[..k - 1];
  }

  lemma EffectIs(m: seq<byte>, e: Event)
    requires e.WriteBeat? && InMem(e.addr, |e.bytes|, |m|)
    ensures Effect(m, e) == Store(m, e.addr - MBase, e.bytes)
  {}

  lemma NoWrap(addr: nat, k: nat)
    requires addr + 4 * k < W
    ensures BeatAddress(addr, 4, k) == addr + 4 * k
  {}

  lemma StoreNext(m: seq<byte>, at: nat, a: seq<byte>, b: seq<byte>)
    requires at + |a| + |b| <= |m|
    ensures Store(Store(m, at, a), at + |a|, b) == Store(m, at, a + b)
  {}

  /** What a burst of words left, a beat that is read later finds at its address, as long as no other write was
      there. */
  lemma BurstReadBack(m: seq<byte>, log: seq<Event>, before: seq<Event>, b: Writes, i: nat, t: nat, k: nat)
    requires Coherent(m, log) && i <= t < |log| && WriteSide(log[..i]) == before + WriteEvents(b)
    requires WordBurst(b, |m|) && k < |b.beats|
    requires log[t].ReadBeat? && log[t].size == 4 && log[t].addr == BeatAddress(b.addr, 4, k)
    requires forall j :: i <= j < t ==> !Touches(log[j], b.addr + 4 * k, 4)
    ensures log[t].data == LittleValue(b.beats[k])
  {
    hide Replay, Load, LittleValue, Joined, WriteBeats, Store, WriteSide, Touches;
    var addr := b.addr + 4 * k;
    NoWrap(b.addr, k);
    var after := before + [WriteAddress(b.addr, b.len, b.size)];
    assert before + WriteEvents(b) == after + WriteBeats(b, |b.beats|);
    WritesMatter(m, log[..i]);
    BurstStores(m, after, b, |b.beats|);
    assert b.beats[..|b.beats|] == b.beats;
    var upto := log[..t];
    assert upto[..i] == log[..i];
    Untouched(m, upto, i, addr, 4);
    StoredWord(Replay(m, after), b, k);
    assert Faithful(m, log, t);
    LoadIs(Replay(m, upto), addr, b.beats[k]);
  }

  lemma StoredWord(m: seq<byte>, b: Writes, k: nat)
    requires WordBurst(b, |m|) && k < |b.beats|
    ensures |Joined(b.beats)| == 4 * |b.beats|
    ensures var a := b.addr - MBase; Store(m, a, Joined(b.beats))[a + 4 * k..a + 4 * k + 4] == b.beats[k]
  {
    JoinedAt(b.beats, k);
    var a, s := b.addr - MBase, Joined(b.beats);
    assert Store(m, a, s)[a + 4 * k..a + 4 * k + 4] == s[4 * k..4 * k + 4];
  }

  lemma LoadIs(m: seq<byte>, addr: nat, w: seq<byte>)
    requires InMem(addr, 4, |m|) && |w| == 4 && m[addr - MBase..addr - MBase + 4] == w
    ensures Load(m, addr, 4) == LittleValue(w)
  {
    Sizes256();
  }

  // ----- addresses and strobes as the protocol has them -----

  /** Section A3.4.1 of ARM IHI 0022: beats after the first are at aligned addresses. */
  function AxiAddress(addr: nat, size: nat, k: nat): nat
    requires size > 0
  {
    if k == 0 then addr else addr / size * size + k * size
  }

  /** The addresses of an incrementing burst are those of the protocol exactly if it has one beat or begins at an
      aligned address. */
  lemma AddressesAgree(addr: nat, size: nat, len: nat)
    requires size > 0
    ensures (forall k :: 0 <= k <= len ==> addr + k * size == AxiAddress(addr, size, k)) <==>
            len == 0 || addr % size == 0
  {
    assert addr == addr / size * size + addr % size;
    if len > 0 {
      assert (forall k :: 0 <= k <= len ==> addr + k * size == AxiAddress(addr, size, k)) ==>
             addr + 1 * size == AxiAddress(addr, size, 1);
    }
  }

  function Bit(x: nat, k: nat): bool
    requires k < 4
  {
    (x / (if k == 0 then 1 else if k == 1 then 2 else if k == 2 then 4 else 8)) % 2 == 1
  }

  function Ones(x: nat): nat { if x == 0 then 0 else x % 2 + Ones(x / 2) }

  /** The lane of a word of write data that goes to an address, by the strobes; none if the byte is not written. */
  function AxiLane(beat: nat, strb: nat, addr: nat): int {
    var lane := addr - beat / 4 * 4;
    if 0 <= lane < 4 && Bit(strb, lane) then lane else -1
  }

  /** The same, as the slave does it: as many bytes as there are strobes, from the lane of the first address of the
      burst on. */
  function SlaveLane(first: nat, beat: nat, strb: nat, addr: nat): int {
    if beat <= addr < beat + Ones(strb) then first % 4 + (addr - beat) else -1
  }

  /** The strobes are for the bytes from the one at the beat's address on, and nothing is left between them. */
  predicate StrobesFit(first: nat, beat: nat, strb: nat) {
    && beat % 4 == first % 4 && first % 4 + Ones(strb) <= 4
    && forall k :: 0 <= k < 4 ==> (Bit(strb, k) <==> first % 4 <= k < first % 4 + Ones(strb))
  }

  lemma LaneFits(first: nat, beat: nat, strb: nat, addr: nat)
    requires StrobesFit(first, beat, strb)
    ensures AxiLane(beat, strb, addr) == SlaveLane(first, beat, strb, addr)
  {
    var lane := addr - beat / 4 * 4;
    assert beat == beat / 4 * 4 + beat % 4;
    if 0 <= lane < 4 {
      assert Bit(strb, lane) <==> first % 4 <= lane < first % 4 + Ones(strb);
    }
  }

  /** If the lanes are the same at all addresses of memory, the strobes fit. */
  lemma LanesForce(first: nat, beat: nat, strb: nat, msize: nat)
    requires 0 < strb < 16 && InMem(beat / 4 * 4, 4, msize) && InMem(beat, Ones(strb), msize)
    requires forall addr :: MBase <= addr < MBase + msize ==>
             AxiLane(beat, strb, addr) == SlaveLane(first, beat, strb, addr)
    ensures StrobesFit(first, beat, strb)
  {
    OnesFour(strb);
    hide Bit, Ones, AxiLane, SlaveLane;
    LaneFrom(first, beat, strb, beat);
    LaneFrom(first, beat, strb, beat + Ones(strb) - 1);
    forall k | 0 <= k < 4 ensures Bit(strb, k) <==> first % 4 <= k < first % 4 + Ones(strb) {
      assert MBase <= beat / 4 * 4 + k < MBase + msize;
      LaneOf(first, beat, strb, k);
    }
  }

  lemma LaneOf(first: nat, beat: nat, strb: nat, k: nat)
    requires var addr := beat / 4 * 4 + k; AxiLane(beat, strb, addr) == SlaveLane(first, beat, strb, addr)
    requires k < 4 && beat % 4 == first % 4
    ensures Bit(strb, k) <==> first % 4 <= k < first % 4 + Ones(strb)
  {
    hide Bit, Ones;
    assert beat == beat / 4 * 4 + beat % 4;
  }

  lemma LaneFrom(first: nat, beat: nat, strb: nat, addr: nat)
    requires AxiLane(beat, strb, addr) == SlaveLane(first, beat, strb, addr) && beat <= addr < beat + Ones(strb)
    ensures first % 4 + (addr - beat) == addr - beat / 4 * 4 < 4
  {
    hide Bit, Ones;
  }

  lemma OnesFour(strb: nat)
    requires strb < 16
    ensures Ones(strb) == strb % 2 + strb / 2 % 2 + strb / 4 % 2 + strb / 8 % 2
    ensures strb > 0 ==> 1 <= Ones(strb) <= 4
  {
    hide Ones;
    OnesStep(strb);
    OnesStep(strb / 2);
    OnesStep(strb / 4);
    OnesStep(strb / 8);
    OnesStep(0);
    assert strb / 2 / 2 == strb / 4 && strb / 4 / 2 == strb / 8 && strb / 8 / 2 == 0;
  }

  lemma OnesStep(x: nat)
    ensures Ones(x) == x % 2 + if x == 0 then 0 else Ones(x / 2)
  {}
}
