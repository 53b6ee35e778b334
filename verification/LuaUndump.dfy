/** Loading a precompiled chunk from a stream of bytes. */
module LuaUndump {
  import opened Bytes
  import opened Endian
  import opened LuaChunk
  import opened LuaChunkTrips
  import opened LuaDump

  // ----- a whole chunk -----

  /** Reads as many bytes as there should be, and compares them. */
  function Expect(s: seq<byte>, b: seq<byte>): Read<()> {
    var r := ReadBlock(s, |b|);
    if r.Failed? then Failed(r.error) else if r.value != b then Failed(BadHeader) else Got((), r.rest)
  }

  function ExpectAll(s: seq<byte>, bs: seq<seq<byte>>): Read<()>
    decreases |bs|
  {
    if bs == [] then Got((), s)
    else
      var r := Expect(s, bs[0]);
      if r.Failed? then r else ExpectAll(r.rest, bs[1..])
  }

  /** What comes after the first byte, in the pieces in which it is checked. */
  function HeaderPieces(): seq<seq<byte>> {
    [[0x4c, 0x75, 0x61], [0x53], [0], LuacData(), [4], [4], [4], [8], [8], LongBytes(LuacInt), LongBytes(LuacNum)]
  }

  /** Loads a chunk of which the first byte has been taken: the number of upvalues of the closure, and its function. */
  function ReadChunk(s: seq<byte>): Read<(byte, Proto)> {
    var h := ExpectAll(s, HeaderPieces());
    if h.Failed? then Failed(h.error)
    else
      var n := ReadByte(h.rest);
      if n.Failed? then Failed(n.error)
      else
        var f := ReadFunction(n.rest);
        if f.Failed? then Failed(f.error) else Got((n.value, f.value), f.rest)
  }

  function Joined(bs: seq<seq<byte>>): seq<byte> { if bs == [] then [] else bs[0] + Joined(bs[1..]) }

  /** The pieces are accepted exactly if the input begins with them. */
  lemma {:induction false} ExpectExactly(s: seq<byte>, bs: seq<seq<byte>>, rest: seq<byte>)
    ensures ExpectAll(s, bs) == Got((), rest) <==> s == Joined(bs) + rest
    decreases |bs|
  {
    hide ReadBlock;
    if bs == [] {
      assert Joined(bs) + rest == rest;
    } else {
      ExpectPiece(s, bs[0]);
      Assoc(bs[0], Joined(bs[1..]), rest);
      var r := Expect(s, bs[0]);
      if r.Got? {
        ExpectExactly(r.rest, bs[1..], rest);
        assert s == bs[0] + r.rest;
        CancelFront(bs[0], r.rest, Joined(bs[1..]) + rest);
      } else if s == bs[0] + (Joined(bs[1..]) + rest) {
        assert false;
      }
    }
  }

  lemma CancelFront(a: seq<byte>, b: seq<byte>, c: seq<byte>)
    ensures a + b == a + c <==> b == c
  {
    assert (a + b)[|a|..] == b && (a + c)[|a|..] == c;
  }

  lemma ExpectPiece(s: seq<byte>, b: seq<byte>)
    ensures Expect(s, b).Got? ==> s == b + Expect(s, b).rest
    ensures forall t :: s == b + t ==> Expect(s, b).Got?
  {
    forall t | s == b + t ensures Expect(s, b).Got? {
      BlockTrip(b, t);
    }
  }

  lemma HeaderJoined()
    ensures [0x1b] + Joined(HeaderPieces()) == ChunkHeader()
  {
    hide LongBytes, LuacData, Joined;
    LastPieces(HeaderPieces(), LuacData(), LongBytes(LuacInt), LongBytes(LuacNum));
    PiecesAre(LuacData(), LongBytes(LuacInt), LongBytes(LuacNum));
  }

  lemma PiecesAre(d: seq<byte>, i: seq<byte>, n: seq<byte>)
    ensures [0x1b] + ([0x4c, 0x75, 0x61] + ([0x53] + ([0] + (d + ([4] + ([4] + ([4] + ([8] + ([8] + (i + n)))))))))) ==
            Signature() + ([0x53, 0] + d + [4, 4, 4, 8, 8] + i + n)
  {
    var t := i + n;
    FivePieces(t);
    assert [0x53, 0] + d + [4, 4, 4, 8, 8] + i + n == [0x53] + ([0] + (d + ([4, 4, 4, 8, 8] + t)));
    var u := [0x53] + ([0] + (d + ([4, 4, 4, 8, 8] + t)));
    assert [0x1b] + ([0x4c, 0x75, 0x61] + u) == Signature() + u;
  }

  lemma FivePieces(t: seq<byte>)
    ensures [4] + ([4] + ([4] + ([8] + ([8] + t)))) == [4, 4, 4, 8, 8] + t
  {}

  lemma LastPieces(p: seq<seq<byte>>, d: seq<byte>, i: seq<byte>, n: seq<byte>)
    requires p == [[0x4c, 0x75, 0x61], [0x53], [0], d, [4], [4], [4], [8], [8], i, n]
    ensures Joined(p) == [0x4c, 0x75, 0x61] + ([0x53] + ([0] + (d + ([4] + ([4] + ([4] + ([8] + ([8] + (i + n)))))))))
  {
    var q := p[3..];
    JoinFirst(p);
    JoinFirst(p[1..]);
    JoinFirst(p[2..]);
    assert p[1..][1..] == p[2..] && p[2..][1..] == q;
    JoinFirst(q);
    JoinFirst(q[1..]);
    JoinFirst(q[2..]);
    JoinFirst(q[3..]);
    assert q[1..][1..] == q[2..] && q[2..][1..] == q[3..] && q[3..][1..] == q[4..];
    var t := q[4..];
    JoinFirst(t);
    JoinFirst(t[1..]);
    assert t == [[8], [8], i, n] && t[1..][1..] == [i, n];
    JoinFirst([i, n]);
    JoinFirst([n]);
    assert [i, n][1..] == [n] && [n][1..] == [] && n + [] == n;
  }

  lemma JoinFirst(p: seq<seq<byte>>)
    requires p != []
    ensures Joined(p) == p[0] + Joined(p[1..])
  {}

  /** A whole chunk that was dumped, without its first byte, is loaded as what comes back, and what follows is left. */
  lemma ChunkTrip(f: Proto, strip: bool, rest: seq<byte>)
    requires Fits(f)
    ensures ReadChunk(Chunk(f, strip)[1..] + rest) == Got((|f.upvalues| % 256, Back(f, strip)), rest)
  {
    hide ReadFunction, Dumped, Back, Fits, ExpectAll, HeaderPieces, ReadByte, ChunkHeader;
    var n := |f.upvalues| % 256;
    var h := Joined(HeaderPieces());
    HeaderJoined();
    assert Chunk(f, strip) == [0x1b] + h + [n] + Dumped(f, strip);
    assert Chunk(f, strip)[1..] + rest == h + ([n] + (Dumped(f, strip) + rest));
    ExpectExactly(Chunk(f, strip)[1..] + rest, HeaderPieces(), [n] + (Dumped(f, strip) + rest));
    ByteTrip(n, Dumped(f, strip) + rest);
    FunctionTrip(f, strip, rest);
  }

  // ----- loading -----

  datatype Result<+T> = Ok(value: T) | Error(error: LuaChunk.Error) {
    predicate IsFailure() { Error? }
    function PropagateFailure<U>(): Result<U>
      requires Error?
    {
      Result<U>.Error(error)
    }

    function Extract(): T
      requires Ok?
    {
      value
    }
  }

  class LoadState {
    const input: seq<byte>
    var pos: nat

    ghost predicate Valid()
      reads this
    {
      pos <= |input|
    }

    ghost function Ahead(): seq<byte>
      reads this
    {
      if pos <= |input| then input[pos..] else []
    }

    /** What reading gave, as the specification has it. */
    ghost function As<T>(r: Result<T>): Read<T>
      reads this
    {
      match r
      case Ok(v) => Got(v, Ahead())
      case Error(e) => Failed(e)
    }

    constructor (input: seq<byte>)
      ensures Valid() && Ahead() == input
    {
      this.input, this.pos := input, 0;
    }

    method LoadBlock(n: nat) returns (r: Result<seq<byte>>)
      requires Valid()
      modifies this
      ensures Valid() && As(r) == ReadBlock(old(Ahead()), n)
    {
      if pos + n > |input| {
        return Error(Truncated);
      }
      assert Ahead()[..n] == input[pos..pos + n] && Ahead()[n..] == input[pos + n..];
      r := Ok(input[pos..pos + n]);
      pos := pos + n;
    }

    method LoadByte() returns (r: Result<byte>)
      requires Valid()
      modifies this
      ensures Valid() && As(r) == ReadByte(old(Ahead()))
    {
      var b :- LoadBlock(1);
      r := Ok(b[0]);
    }

    method LoadInt() returns (r: Result<Word>)
      requires Valid()
      modifies this
      ensures Valid() && As(r) == ReadWord(old(Ahead()))
    {
      var b :- LoadBlock(4);
      FourBelow(b);
      r := Ok(LittleValue(b));
    }

    method LoadNumber() returns (r: Result<Long>)
      requires Valid()
      modifies this
      ensures Valid() && As(r) == ReadLong(old(Ahead()))
    {
      var b :- LoadBlock(8);
      EightBelow(b);
      r := Ok(LittleValue(b));
    }

    /** A size, for an array to be allocated. */
    method LoadSize() returns (r: Result<nat>)
      requires Valid()
      modifies this
      ensures Valid() && As(r) == ReadSize(old(Ahead()))
    {
      hide ReadWord;
      var n :- LoadInt();
      r := if n > IntMax then Error(TooBig) else Ok(n);
    }

    method LoadString() returns (r: Result<Name>)
      requires Valid()
      modifies this
      ensures Valid() && As(r) == ReadName(old(Ahead()))
    {
      hide ReadWord, ReadBlock, ReadByte;
      var b :- LoadByte();
      var size: nat := b;
      if size == 0xFF {
        size :- LoadInt();
      }
      if size == 0 {
        return Ok(Null);
      }
      var t :- LoadBlock(size - 1);
      r := Ok(Str(t));
    }

    method LoadVector(n: nat) returns (r: Result<seq<Word>>)
      requires Valid()
      modifies this
      ensures Valid() && As(r) == ReadWords(n, [], old(Ahead()))
    {
      hide ReadWord;
      var v: seq<Word> := [];
      var i := 0;
      while i < n
        invariant i <= n && Valid() && ReadWords(n - i, v, Ahead()) == ReadWords(n, [], old(Ahead()))
      {
        var x :- LoadInt();
        v := v + [x];
        i := i + 1;
      }
      r := Ok(v);
    }

    method LoadCode() returns (r: Result<seq<Word>>)
      requires Valid()
      modifies this
      ensures Valid() && As(r) == ReadCode(old(Ahead()))
    {
      hide ReadWords, ReadSize;
      var n :- LoadSize();
      r := LoadVector(n);
    }

    method LoadConstant() returns (r: Result<Constant>)
      requires Valid()
      modifies this
      ensures Valid() && As(r) == ReadConstant(old(Ahead()))
    {
      hide ReadByte, ReadName, ReadLong;
      var t :- LoadByte();
      if t == 1 {
        var b :- LoadByte();
        r := Ok(Boolean(b));
      } else if t == 3 {
        var x :- LoadNumber();
        r := Ok(Float(x));
      } else if t == 19 {
        var x :- LoadNumber();
        r := Ok(Integer(x));
      } else if t == 4 || t == 20 {
        var n :- LoadString();
        r := if n.Null? then Error(Undefined) else Ok(String(n.text));
      } else {
        r := Ok(Nil);
      }
    }

    method LoadConstants() returns (r: Result<seq<Constant>>)
      requires Valid()
      modifies this
      ensures Valid() && As(r) == ReadConstantPart(old(Ahead()))
    {
      hide ReadConstant, ReadSize;
      var n :- LoadSize();
      ghost var s := Ahead();
      var v: seq<Constant> := [];
      var i := 0;
      while i < n
        invariant i <= n && Valid() && ReadConstants(n - i, v, Ahead()) == ReadConstants(n, [], s)
      {
        var x :- LoadConstant();
        v := v + [x];
        i := i + 1;
      }
      r := Ok(v);
    }

    method LoadUpvalues() returns (r: Result<seq<Upvaldesc>>)
      requires Valid()
      modifies this
      ensures Valid() && As(r) == ReadUpvalPart(old(Ahead()))
    {
      hide ReadByte, ReadSize;
      var n :- LoadSize();
      ghost var s := Ahead();
      var v: seq<Upvaldesc> := [];
      var i := 0;
      while i < n
        invariant i <= n && Valid() && ReadUpvals(n - i, v, Ahead()) == ReadUpvals(n, [], s)
      {
        var a :- LoadByte();
        var b :- LoadByte();
        v := v + [Upvaldesc(Null, a, b)];
        i := i + 1;
      }
      r := Ok(v);
    }

    method LoadLocVars() returns (r: Result<seq<LocVar>>)
      requires Valid()
      modifies this
      ensures Valid() && As(r) == ReadLocVarPart(old(Ahead()))
    {
      hide ReadName, ReadSize, ReadWord;
      var n :- LoadSize();
      ghost var s := Ahead();
      var v: seq<LocVar> := [];
      var i := 0;
      while i < n
        invariant i <= n && Valid() && ReadLocVars(n - i, v, Ahead()) == ReadLocVars(n, [], s)
      {
        var x :- LoadString();
        var a :- LoadInt();
        var b :- LoadInt();
        v := v + [LocVar(x, a, b)];
        i := i + 1;
      }
      r := Ok(v);
    }

    method LoadNames(upvalues: seq<Upvaldesc>) returns (r: Result<seq<Upvaldesc>>)
      requires Valid()
      modifies this
      ensures Valid() && As(r) == ReadNamePart(upvalues, old(Ahead()))
    {
      hide ReadName, ReadWord;
      var n: nat :- LoadInt();
      n := if n > IntMax then 0 else n;
      ghost var s := Ahead();
      var v := upvalues;
      var i := 0;
      while i < n
        invariant i <= n && Valid() && ReadNames(n - i, i, v, Ahead()) == ReadNames(n, 0, upvalues, s)
      {
        var x :- LoadString();
        if i >= |v| {
          return Error(Undefined);
        }
        v := v[i := v[i].(name := x)];
        i := i + 1;
      }
      r := Ok(v);
    }

    method LoadDebug(upvalues: seq<Upvaldesc>) returns (r: Result<Debug>)
      requires Valid()
      modifies this
      ensures Valid() && As(r) == ReadDebug(upvalues, old(Ahead()))
    {
      hide ReadCode, ReadLocVarPart, ReadNamePart;
      var l :- LoadCode();
      var v :- LoadLocVars();
      var u :- LoadNames(upvalues);
      r := Ok(Debug(l, v, u));
    }

    method LoadHead() returns (r: Result<Header>)
      requires Valid()
      modifies this
      ensures Valid() && As(r) == ReadHeader(old(Ahead()))
    {
      hide ReadName, ReadWord, ReadByte;
      var x :- LoadString();
      var a :- LoadInt();
      var b :- LoadInt();
      var c :- LoadByte();
      var d :- LoadByte();
      var e :- LoadByte();
      r := Ok(Header(if x.Null? then Parents else Own(x.text), a, b, c, d, e));
    }

    method LoadFront() returns (r: Result<Front>)
      requires Valid()
      modifies this
      ensures Valid() && As(r) == ReadFront(old(Ahead()))
    {
      hide ReadHeader, ReadCode, ReadConstantPart, ReadUpvalPart;
      var h :- LoadHead();
      var c :- LoadCode();
      var k :- LoadConstants();
      var u :- LoadUpvalues();
      r := Ok(Front(h, c, k, u));
    }

    method LoadFunction() returns (r: Result<Proto>)
      requires Valid()
      modifies this
      ensures Valid() && As(r) == ReadFunction(old(Ahead()))
      decreases |input| - pos, 0, 0
    {
      hide ReadFront, ReadDebug, ReadProtoPart;
      var f :- LoadFront();
      var p :- LoadProtos();
      var d :- LoadDebug(f.upvalues);
      r := Ok(Proto(f.header, f.code, f.k, d.upvalues, p, d.lineinfo, d.locvars));
    }

    method LoadProtos() returns (r: Result<seq<Proto>>)
      requires Valid()
      modifies this
      ensures Valid() && As(r) == ReadProtoPart(old(Ahead()))
      decreases |input| - pos, 1, 0
    {
      hide ReadFunction, ReadSize;
      var n :- LoadSize();
      ghost var s := Ahead();
      var v: seq<Proto> := [];
      var i := 0;
      while i < n
        invariant i <= n && Valid() && pos > old(pos) && ReadProtos(n - i, v, Ahead()) == ReadProtos(n, [], s)
      {
        var f :- LoadFunction();
        v := v + [f];
        i := i + 1;
      }
      r := Ok(v);
    }

    method CheckPiece(b: seq<byte>) returns (r: Result<()>)
      requires Valid()
      modifies this
      ensures Valid() && As(r) == Expect(old(Ahead()), b)
    {
      hide ReadBlock;
      var x :- LoadBlock(|b|);
      r := if x != b then Error(BadHeader) else Ok(());
    }

    method CheckHeader() returns (r: Result<()>)
      requires Valid()
      modifies this
      ensures Valid() && As(r) == ExpectAll(old(Ahead()), HeaderPieces())
    {
      hide Expect, LongBytes, LuacData;
      var pieces := HeaderPieces();
      var i := 0;
      while i < |pieces|
        invariant i <= |pieces| && Valid() && ExpectAll(Ahead(), pieces[i..]) == ExpectAll(old(Ahead()), pieces)
      {
        var u :- CheckPiece(pieces[i]);
        i := i + 1;
      }
      r := Ok(());
    }

    /** Loads a chunk of which the first byte has been taken. */
    method Undump() returns (r: Result<(byte, Proto)>)
      requires Valid()
      modifies this
      ensures Valid() && As(r) == ReadChunk(old(Ahead()))
      ensures forall f, strip, rest :: Fits(f) && old(Ahead()) == Chunk(f, strip)[1..] + rest ==>
        r == Ok((|f.upvalues| % 256, Back(f, strip))) && Ahead() == rest
    {
      hide ReadFunction, ReadByte, ExpectAll, HeaderPieces, Chunk, Back, Fits;
      forall f, strip, rest | Fits(f) && old(Ahead()) == Chunk(f, strip)[1..] + rest
        ensures ReadChunk(old(Ahead())) == Got((|f.upvalues| % 256, Back(f, strip)), rest)
      {
        ChunkTrip(f, strip, rest);
      }
      var u :- CheckHeader();
      var n :- LoadByte();
      var f :- LoadFunction();
      r := Ok((n, f));
    }
  }
}
