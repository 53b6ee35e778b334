/** Writing a precompiled chunk block by block, and loading one. Words are kept as a little-endian machine with `size_t`
    of 4 bytes has them. */
module LuaDump {
  import opened Bytes
  import opened Endian
  import opened LuaChunk
  import opened LuaChunkTrips

  /** The signature, version 5.3, format 0, the bytes that show corruption, the sizes of the types, and two numbers. */
  function ChunkHeader(): seq<byte> {
    Signature() + AfterSignature()
  }

  function Signature(): seq<byte> { [0x1b, 0x4c, 0x75, 0x61] }

  function AfterSignature(): seq<byte>
  {
    [0x53, 0] + LuacData() + [4, 4, 4, 8, 8] + LongBytes(LuacInt) + LongBytes(LuacNum)
  }

  function LuacData(): (s: seq<byte>)
    ensures |s| == 6
  {
    [0x19, 0x93, 0x0d, 0x0a, 0x1a, 0x0a]
  }

  const LuacInt: Long := 0x5678
  /** The number 370.5. */
  const LuacNum: Long := 0x4077_2800_0000_0000

  /** The bytes of a whole chunk. */
  function Chunk(f: Proto, strip: bool): (s: seq<byte>)
    ensures s != []
  {
    ChunkHeader() + [|f.upvalues| % 256] + Dumped(f, strip)
  }

  // ----- dumping -----

  /** What may happen when bytes are written: all of them, or as many blocks as the writer took before it failed. After
      a failure, nothing more. */
  ghost predicate Wrote(out: seq<byte>, status: int, out': seq<byte>, status': int, b: seq<byte>) {
    && (status != 0 ==> out' == out && status' == status)
    && (status == 0 ==> out <= out' <= out + b && (status' == 0 ==> out' == out + b))
  }

  lemma WroteBoth(o: seq<byte>, s: int, o': seq<byte>, s': int, o'': seq<byte>, s'': int, a: seq<byte>, b: seq<byte>)
    requires Wrote(o, s, o', s', a) && Wrote(o', s', o'', s'', b)
    ensures Wrote(o, s, o'', s'', a + b)
  {
    assert o + (a + b) == o + a + b;
  }

  lemma WroteNone(o: seq<byte>, s: int)
    ensures Wrote(o, s, o, s, [])
  {}

  class DumpState {
    const strip: bool
    /** The caller's writer: what it answers to a block, after what it has taken. Zero means that it took it. */
    const writer: (seq<byte>, seq<byte>) -> int
    var out: seq<byte>
    var status: int

    constructor (strip: bool, writer: (seq<byte>, seq<byte>) -> int)
      ensures this.strip == strip && this.writer == writer && out == [] && status == 0
    {
      this.strip, this.writer, this.out, this.status := strip, writer, [], 0;
    }

    method DumpBlock(b: seq<byte>)
      modifies this
      ensures Wrote(old(out), old(status), out, status, b)
    {
      if status == 0 && |b| > 0 {
        status := writer(out, b);
        if status == 0 {
          out := out + b;
        }
      }
    }

    method DumpByte(b: byte)
      modifies this
      ensures Wrote(old(out), old(status), out, status, [b])
    {
      DumpBlock([b]);
    }

    method DumpInt(x: nat)
      modifies this
      ensures Wrote(old(out), old(status), out, status, IntBytes(x))
    {
      DumpBlock(LittleBytes(x, 4));
    }

    method DumpNumber(x: Long)
      modifies this
      ensures Wrote(old(out), old(status), out, status, LongBytes(x))
    {
      DumpBlock(LittleBytes(x, 8));
    }

    method DumpText(t: seq<byte>)
      modifies this
      ensures Wrote(old(out), old(status), out, status, TextBytes(t))
    {
      hide Wrote;
      var size := |t| + 1;
      if size < 0xFF {
        DumpByte(size);
      } else {
        ghost var o, s := out, status;
        DumpByte(0xFF);
        ghost var o', s' := out, status;
        DumpInt(size);
        WroteBoth(o, s, o', s', out, status, [0xFF], IntBytes(size));
      }
      ghost var o, s := out, status;
      DumpBlock(t);
      WroteBoth(old(out), old(status), o, s, out, status, if size < 0xFF then [size]
        else [0xFF] + LittleBytes(size, 4), t);
    }

    method DumpString(n: Name)
      modifies this
      ensures Wrote(old(out), old(status), out, status, NameBytes(n))
    {
      if n.Null? {
        DumpByte(0);
      } else {
        DumpText(n.text);
      }
    }

    /** Dumps a vector of words as one block. */
    method DumpVector(ws: seq<Word>)
      modifies this
      ensures Wrote(old(out), old(status), out, status, WordsBytes(ws))
    {
      DumpBlock(WordsBytes(ws));
    }

    method DumpCode(f: Proto)
      modifies this
      ensures Wrote(old(out), old(status), out, status, CodeBytes(f.code))
    {
      hide Wrote;
      DumpInt(|f.code|);
      ghost var o, s := out, status;
      DumpVector(f.code);
      WroteBoth(old(out), old(status), o, s, out, status, IntBytes(|f.code|), WordsBytes(f.code));
    }

    method DumpConstant(k: Constant)
      modifies this
      ensures Wrote(old(out), old(status), out, status, ConstantBytes(k))
    {
      hide Wrote;
      DumpByte(Tag(k));
      ghost var o, s := out, status;
      WroteNone(o, s);
      match k {
        case Nil =>
        case Boolean(b) => DumpByte(b);
        case Float(x) => DumpNumber(x);
        case Integer(x) => DumpNumber(x);
        case String(t) => DumpString(Str(t));
      }
      ghost var more := match k case Nil => [] case Boolean(b) => [b] case Float(x) => LongBytes(x) case Integer(x) =>
        LongBytes(x)
        case String(t) => TextBytes(t);
      WroteBoth(old(out), old(status), o, s, out, status, [Tag(k)], more);
    }

    method DumpConstants(f: Proto)
      modifies this
      ensures Wrote(old(out), old(status), out, status, ConstantPart(f.k))
    {
      hide Wrote, ConstantBytes, IntBytes;
      var n := |f.k|;
      DumpInt(n);
      ghost var o, s := out, status;
      WroteNone(o, s);
      var i := 0;
      while i < n
        invariant i <= n && Wrote(o, s, out, status, ConstantsBytes(f.k[..i]))
      {
        ghost var o', s' := out, status;
        DumpConstant(f.k[i]);
        ConstantsNext(f.k, i);
        WroteBoth(o, s, o', s', out, status, ConstantsBytes(f.k[..i]), ConstantBytes(f.k[i]));
        i := i + 1;
      }
      assert f.k[..n] == f.k;
      WroteBoth(old(out), old(status), o, s, out, status, IntBytes(n), ConstantsBytes(f.k));
    }

    method DumpUpvalues(f: Proto)
      modifies this
      ensures Wrote(old(out), old(status), out, status, UpvalPart(f.upvalues))
    {
      hide Wrote, IntBytes;
      var n := |f.upvalues|;
      DumpInt(n);
      ghost var o, s := out, status;
      WroteNone(o, s);
      var i := 0;
      while i < n
        invariant i <= n && Wrote(o, s, out, status, UpvalsBytes(f.upvalues[..i]))
      {
        var u := f.upvalues[i];
        ghost var o', s' := out, status;
        DumpByte(u.instack);
        ghost var o'', s'' := out, status;
        DumpByte(u.idx);
        WroteBoth(o', s', o'', s'', out, status, [u.instack], [u.idx]);
        UpvalsNext(f.upvalues, i);
        WroteBoth(o, s, o', s', out, status, UpvalsBytes(f.upvalues[..i]), [u.instack] + [u.idx]);
        i := i + 1;
      }
      assert f.upvalues[..n] == f.upvalues;
      WroteBoth(old(out), old(status), o, s, out, status, IntBytes(n), UpvalsBytes(f.upvalues));
    }

    method DumpLocVars(vs: seq<LocVar>)
      modifies this
      ensures Wrote(old(out), old(status), out, status, LocVarPart(vs))
    {
      hide Wrote, IntBytes, LocVarBytes;
      var n := |vs|;
      DumpInt(n);
      ghost var o, s := out, status;
      WroteNone(o, s);
      var i := 0;
      while i < n
        invariant i <= n && Wrote(o, s, out, status, LocVarsBytes(vs[..i]))
      {
        ghost var o', s' := out, status;
        DumpLocVar(vs[i]);
        LocVarsNext(vs, i);
        WroteBoth(o, s, o', s', out, status, LocVarsBytes(vs[..i]), LocVarBytes(vs[i]));
        i := i + 1;
      }
      assert vs[..n] == vs;
      WroteBoth(old(out), old(status), o, s, out, status, IntBytes(n), LocVarsBytes(vs));
    }

    method DumpLocVar(v: LocVar)
      modifies this
      ensures Wrote(old(out), old(status), out, status, LocVarBytes(v))
    {
      hide Wrote, NameBytes;
      DumpString(v.varname);
      ghost var o, s := out, status;
      DumpInt(v.startpc);
      WroteBoth(old(out), old(status), o, s, out, status, NameBytes(v.varname), IntBytes(v.startpc));
      ghost var o', s' := out, status;
      DumpInt(v.endpc);
      WroteBoth(old(out), old(status), o', s', out, status, NameBytes(v.varname) + IntBytes(v.startpc),
        IntBytes(v.endpc));
    }

    method DumpNames(us: seq<Upvaldesc>)
      modifies this
      ensures Wrote(old(out), old(status), out, status, NamePart(us))
    {
      hide Wrote, IntBytes, NameBytes;
      var n := |us|;
      DumpInt(n);
      ghost var o, s := out, status;
      WroteNone(o, s);
      var i := 0;
      while i < n
        invariant i <= n && Wrote(o, s, out, status, NamesBytes(us[..i]))
      {
        ghost var o', s' := out, status;
        DumpString(us[i].name);
        NamesNext(us, i);
        WroteBoth(o, s, o', s', out, status, NamesBytes(us[..i]), NameBytes(us[i].name));
        i := i + 1;
      }
      assert us[..n] == us;
      WroteBoth(old(out), old(status), o, s, out, status, IntBytes(n), NamesBytes(us));
    }

    method DumpDebug(f: Proto)
      modifies this
      ensures Wrote(old(out), old(status), out, status, DebugBytes(f, strip))
    {
      hide Wrote, LinePart, LocVarPart, NamePart;
      var lines, vars, names := if strip then [] else f.lineinfo, if strip then [] else f.locvars, if strip then []
        else f.upvalues;
      DumpLines(lines);
      ghost var o, s := out, status;
      DumpLocVars(vars);
      WroteBoth(old(out), old(status), o, s, out, status, LinePart(lines), LocVarPart(vars));
      ghost var o', s' := out, status;
      DumpNames(names);
      WroteBoth(old(out), old(status), o', s', out, status, LinePart(lines) + LocVarPart(vars), NamePart(names));
    }

    method DumpLines(ws: seq<Word>)
      modifies this
      ensures Wrote(old(out), old(status), out, status, LinePart(ws))
    {
      hide Wrote;
      DumpInt(|ws|);
      ghost var o, s := out, status;
      DumpVector(ws);
      WroteBoth(old(out), old(status), o, s, out, status, IntBytes(|ws|), WordsBytes(ws));
    }

    method DumpProtos(f: Proto)
      modifies this
      ensures Wrote(old(out), old(status), out, status, ProtoPart(f, strip))
      decreases f, 0
    {
      hide Wrote, IntBytes, Dumped;
      var n := |f.p|;
      DumpInt(n);
      ghost var o, s := out, status;
      WroteNone(o, s);
      ProtosTo0(f, strip);
      var i := 0;
      while i < n
        invariant i <= n && Wrote(o, s, out, status, ProtosTo(f, strip, i))
      {
        ghost var o', s' := out, status;
        DumpFunction(f.p[i]);
        WroteBoth(o, s, o', s', out, status, ProtosTo(f, strip, i), Dumped(f.p[i], strip));
        i := i + 1;
      }
      ProtosAll(f, strip, n);
      WroteBoth(old(out), old(status), o, s, out, status, IntBytes(n), ProtosBytes(f, strip, 0));
    }

    method DumpHead(h: Header)
      modifies this
      ensures Wrote(old(out), old(status), out, status, HeaderBytes(h, strip))
    {
      hide Wrote, NameBytes, LittleBytes;
      if strip || h.source.Parents? {
        DumpString(Null);
      } else {
        DumpString(Str(h.source.text));
      }
      ghost var o, s := out, status;
      DumpInt(h.linedefined);
      WroteBoth(old(out), old(status), o, s, out, status, SourceBytes(h.source, strip), WordBytes(h.linedefined));
      o, s := out, status;
      DumpInt(h.lastlinedefined);
      ghost var b := SourceBytes(h.source, strip) + WordBytes(h.linedefined);
      WroteBoth(old(out), old(status), o, s, out, status, b, WordBytes(h.lastlinedefined));
      b := b + WordBytes(h.lastlinedefined);
      o, s := out, status;
      DumpThree(h.numparams, h.isVararg, h.maxstacksize);
      WroteBoth(old(out), old(status), o, s, out, status, b, [h.numparams, h.isVararg, h.maxstacksize]);
    }

    method DumpThree(a: byte, b: byte, c: byte)
      modifies this
      ensures Wrote(old(out), old(status), out, status, [a, b, c])
    {
      hide Wrote;
      DumpByte(a);
      ghost var o, s := out, status;
      DumpByte(b);
      WroteBoth(old(out), old(status), o, s, out, status, [a], [b]);
      o, s := out, status;
      DumpByte(c);
      WroteBoth(old(out), old(status), o, s, out, status, [a] + [b], [c]);
      assert [a] + [b] + [c] == [a, b, c];
    }

    method DumpFunction(f: Proto)
      modifies this
      ensures Wrote(old(out), old(status), out, status, Dumped(f, strip))
      decreases f, 1
    {
      hide Wrote, HeaderBytes, CodeBytes, ConstantPart, UpvalPart, ProtoPart, DebugBytes;
      DumpHead(f.header);
      ghost var o, s := out, status;
      ghost var b := HeaderBytes(f.header, strip);
      DumpCode(f);
      WroteBoth(old(out), old(status), o, s, out, status, b, CodeBytes(f.code));
      b, o, s := b + CodeBytes(f.code), out, status;
      DumpConstants(f);
      WroteBoth(old(out), old(status), o, s, out, status, b, ConstantPart(f.k));
      b, o, s := b + ConstantPart(f.k), out, status;
      DumpUpvalues(f);
      WroteBoth(old(out), old(status), o, s, out, status, b, UpvalPart(f.upvalues));
      b, o, s := b + UpvalPart(f.upvalues), out, status;
      DumpProtos(f);
      WroteBoth(old(out), old(status), o, s, out, status, b, ProtoPart(f, strip));
      b, o, s := b + ProtoPart(f, strip), out, status;
      DumpDebug(f);
      WroteBoth(old(out), old(status), o, s, out, status, b, DebugBytes(f, strip));
    }

    method DumpHeader()
      modifies this
      ensures Wrote(old(out), old(status), out, status, ChunkHeader())
    {
      hide Wrote, LongBytes, LuacData;
      DumpBlock(Signature());
      ghost var b, o, s := Signature(), out, status;
      DumpByte(0x53);
      WroteBoth(old(out), old(status), o, s, out, status, b, [0x53]);
      b, o, s := b + [0x53], out, status;
      DumpByte(0);
      WroteBoth(old(out), old(status), o, s, out, status, b, [0]);
      b, o, s := b + [0], out, status;
      DumpBlock(LuacData());
      WroteBoth(old(out), old(status), o, s, out, status, b, LuacData());
      b, o, s := b + LuacData(), out, status;
      DumpThree(4, 4, 4);
      WroteBoth(old(out), old(status), o, s, out, status, b, [4, 4, 4]);
      b, o, s := b + [4, 4, 4], out, status;
      DumpBlock([8, 8]);
      WroteBoth(old(out), old(status), o, s, out, status, b, [8, 8]);
      b, o, s := b + [8, 8], out, status;
      DumpNumber(LuacInt);
      WroteBoth(old(out), old(status), o, s, out, status, b, LongBytes(LuacInt));
      b, o, s := b + LongBytes(LuacInt), out, status;
      DumpNumber(LuacNum);
      WroteBoth(old(out), old(status), o, s, out, status, b, LongBytes(LuacNum));
      HeaderIs(b, LongBytes(LuacNum));
    }
  }

  lemma HeaderIs(b: seq<byte>, c: seq<byte>)
    requires b == Signature() + [0x53] + [0] + LuacData() + [4, 4, 4] + [8, 8] + LongBytes(LuacInt) &&
             c == LongBytes(LuacNum)
    ensures b + c == ChunkHeader()
  {
    hide LuacData, LongBytes, Signature;
    var x, d, i := Signature(), LuacData(), LongBytes(LuacInt);
    assert x + [0x53] + [0] + d + [4, 4, 4] + [8, 8] + i + c == x + ([0x53, 0] + d + [4, 4, 4, 8, 8] + i + c);
  }

  // ----- dumping vectors from the front -----

  lemma {:induction false} ConstantsSplit(a: seq<Constant>, b: seq<Constant>)
    ensures ConstantsBytes(a + b) == ConstantsBytes(a) + ConstantsBytes(b)
  {
    hide ConstantBytes;
    if a == [] {
      assert a + b == b;
    } else {
      assert (a + b)[1..] == a[1..] + b;
      ConstantsSplit(a[1..], b);
    }
  }

  lemma ConstantsNext(ks: seq<Constant>, i: nat)
    requires i < |ks|
    ensures ConstantsBytes(ks[..i + 1]) == ConstantsBytes(ks[..i]) + ConstantBytes(ks[i])
  {
    hide ConstantBytes;
    assert ks[..i + 1] == ks[..i] + [ks[i]];
    ConstantsSplit(ks[..i], [ks[i]]);
    assert ConstantsBytes([ks[i]]) == ConstantBytes(ks[i]);
  }

  lemma {:induction false} UpvalsSplit(a: seq<Upvaldesc>, b: seq<Upvaldesc>)
    ensures UpvalsBytes(a + b) == UpvalsBytes(a) + UpvalsBytes(b)
  {
    if a == [] {
      assert a + b == b;
    } else {
      assert (a + b)[1..] == a[1..] + b;
      UpvalsSplit(a[1..], b);
    }
  }

  lemma UpvalsNext(us: seq<Upvaldesc>, i: nat)
    requires i < |us|
    ensures UpvalsBytes(us[..i + 1]) == UpvalsBytes(us[..i]) + ([us[i].instack] + [us[i].idx])
  {
    assert us[..i + 1] == us[..i] + [us[i]];
    UpvalsSplit(us[..i], [us[i]]);
    assert UpvalsBytes([us[i]]) == [us[i].instack] + [us[i].idx];
  }

  lemma {:induction false} LocVarsSplit(a: seq<LocVar>, b: seq<LocVar>)
    ensures LocVarsBytes(a + b) == LocVarsBytes(a) + LocVarsBytes(b)
  {
    hide LocVarBytes;
    if a == [] {
      assert a + b == b;
    } else {
      assert (a + b)[1..] == a[1..] + b;
      LocVarsSplit(a[1..], b);
    }
  }

  lemma LocVarsNext(vs: seq<LocVar>, i: nat)
    requires i < |vs|
    ensures LocVarsBytes(vs[..i + 1]) == LocVarsBytes(vs[..i]) + LocVarBytes(vs[i])
  {
    hide LocVarBytes;
    assert vs[..i + 1] == vs[..i] + [vs[i]];
    LocVarsSplit(vs[..i], [vs[i]]);
    assert LocVarsBytes([vs[i]]) == LocVarBytes(vs[i]);
  }

  lemma {:induction false} NamesSplit(a: seq<Upvaldesc>, b: seq<Upvaldesc>)
    ensures NamesBytes(a + b) == NamesBytes(a) + NamesBytes(b)
  {
    hide NameBytes;
    if a == [] {
      assert a + b == b;
    } else {
      assert (a + b)[1..] == a[1..] + b;
      NamesSplit(a[1..], b);
    }
  }

  lemma NamesNext(us: seq<Upvaldesc>, i: nat)
    requires i < |us|
    ensures NamesBytes(us[..i + 1]) == NamesBytes(us[..i]) + NameBytes(us[i].name)
  {
    hide NameBytes;
    assert us[..i + 1] == us[..i] + [us[i]];
    NamesSplit(us[..i], [us[i]]);
    assert NamesBytes([us[i]]) == NameBytes(us[i].name);
  }

  /** The dumps of the first functions. */
  ghost function ProtosTo(f: Proto, strip: bool, i: nat): seq<byte>
    requires i <= |f.p|
  {
    if i == 0 then [] else ProtosTo(f, strip, i - 1) + Dumped(f.p[i - 1], strip)
  }

  lemma ProtosTo0(f: Proto, strip: bool)
    ensures ProtosTo(f, strip, 0) == []
  {}

  lemma {:induction false} ProtosAll(f: Proto, strip: bool, i: nat)
    requires i <= |f.p|
    ensures ProtosTo(f, strip, i) + ProtosBytes(f, strip, i) == ProtosBytes(f, strip, 0)
    ensures i == |f.p| ==> ProtosTo(f, strip, i) == ProtosBytes(f, strip, 0)
  {
    hide Dumped;
    if i > 0 {
      ProtosAll(f, strip, i - 1);
      Assoc(ProtosTo(f, strip, i - 1), Dumped(f.p[i - 1], strip), ProtosBytes(f, strip, i));
    }
  }

  /** Dumps a whole chunk to a writer. */
  method Dump(f: Proto, strip: bool, writer: (seq<byte>, seq<byte>) -> int) returns (d: DumpState)
    ensures fresh(d) && d.strip == strip && Wrote([], 0, d.out, d.status, Chunk(f, strip))
  {
    hide Wrote, Dumped, ChunkHeader;
    d := new DumpState(strip, writer);
    d.DumpHeader();
    ghost var o, s := d.out, d.status;
    d.DumpByte(|f.upvalues| % 256);
    WroteBoth([], 0, o, s, d.out, d.status, ChunkHeader(), [|f.upvalues| % 256]);
    o, s := d.out, d.status;
    d.DumpFunction(f);
    WroteBoth([], 0, o, s, d.out, d.status, ChunkHeader() + [|f.upvalues| % 256], Dumped(f, strip));
  }
}
