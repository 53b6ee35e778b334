/** The bytes of precompiled chunks, as `luac` of Lua 5.3 writes them on a machine of 32 bits. */
module ChunkLaws {
  import opened Bytes
  import opened Endian
  import opened LuaChunk
  import opened LuaDump

  /** The bytes of a word, the lowest first. */
  lemma WordLaw(x: Word)
    ensures WordBytes(x) == [x % 256, x / 0x100 % 256, x / 0x1_0000 % 256, x / 0x100_0000]
  {
    LittleFour(x);
    FourParts(x);
  }

  lemma LittleFour(x: nat)
    ensures LittleBytes(x, 4) == [x % 256, x / 256 % 256, x / 256 / 256 % 256, x / 256 / 256 / 256 % 256]
  {
    assert LittleBytes(x / 256 / 256 / 256 / 256, 0) == [];
    assert LittleBytes(x / 256 / 256 / 256, 1) == [x / 256 / 256 / 256 % 256];
    assert LittleBytes(x / 256 / 256, 2) == [x / 256 / 256 % 256] + [x / 256 / 256 / 256 % 256];
  }

  lemma FourParts(x: nat)
    requires x < 0x1_0000_0000
    ensures x / 256 / 256 == x / 0x1_0000 && x / 256 / 256 / 256 == x / 0x100_0000 < 256
  {}

  lemma LongLaw(x: Long)
    ensures LongBytes(x) == WordBytes(x % 0x1_0000_0000) + WordBytes(x / 0x1_0000_0000)
  {
    var y := x / 256 / 256 / 256 / 256;
    assert y == x / 0x1_0000_0000;
    assert LittleBytes(x / 256 / 256 / 256, 5) == [x / 256 / 256 / 256 % 256] + LittleBytes(y, 4);
    assert LittleBytes(x / 256 / 256, 6) == [x / 256 / 256 % 256] + LittleBytes(x / 256 / 256 / 256, 5);
    assert LittleBytes(x / 256, 7) == [x / 256 % 256] + LittleBytes(x / 256 / 256, 6);
    LowFour(x);
    LittleFour(x % 0x1_0000_0000);
  }

  lemma LowFour(x: nat)
    ensures var w := x % 0x1_0000_0000;
            && w % 256 == x % 256 && w / 256 % 256 == x / 256 % 256 && w / 256 / 256 % 256 == x / 256 / 256 % 256
            && w / 256 / 256 / 256 % 256 == x / 256 / 256 / 256 % 256
  {
    var q, w := x / 0x1_0000_0000, x % 0x1_0000_0000;
    Without(0x100_0000 * q, w);
    Without(0x1_0000 * q, w / 256);
    Without(0x100 * q, w / 256 / 256);
    Without(q, w / 256 / 256 / 256);
  }

  /** Multiples of 256 above a number leave its lowest byte. */
  lemma Without(a: nat, w: nat)
    ensures (256 * a + w) % 256 == w % 256 && (256 * a + w) / 256 == a + w / 256
  {}

  /** The header of a chunk. The last two numbers are 0x5678 and 370.5. */
  lemma HeaderBytesAre()
    ensures ChunkHeader() ==
            [0x1b, 0x4c, 0x75, 0x61, 0x53, 0x00, 0x19, 0x93, 0x0d, 0x0a, 0x1a, 0x0a, 4, 4, 4, 8, 8,
             0x78, 0x56, 0, 0, 0, 0, 0, 0, 0, 0, 0, 0, 0, 0x28, 0x77, 0x40]
  {
    IntegerIs();
    FloatIs();
    hide LongBytes;
  }

  lemma IntegerIs()
    ensures LongBytes(LuacInt) == [0x78, 0x56, 0, 0, 0, 0, 0, 0]
  {
    LongLaw(LuacInt);
    WordLaw(0x5678);
    WordLaw(0);
    hide LongBytes, WordBytes;
  }

  lemma FloatIs()
    ensures LongBytes(LuacNum) == [0, 0, 0, 0, 0, 0x28, 0x77, 0x40]
  {
    hide LongBytes, WordBytes;
    LongLaw(LuacNum);
    WordLaw(0);
    UpperWord();
  }

  lemma UpperWord()
    ensures WordBytes(0x4077_2800) == [0, 0x28, 0x77, 0x40]
    ensures LuacNum % 0x1_0000_0000 == 0 && LuacNum / 0x1_0000_0000 == 0x4077_2800
  {
    hide WordBytes;
    WordLaw(0x4077_2800);
  }

  /** That number is 370.5: its sign, its exponent, and its fraction with the leading one. */
  lemma NumberIs()
    ensures LuacNum / 0x8000_0000_0000_0000 == 0 && LuacNum / 0x10_0000_0000_0000 % 2048 == 1023 + 8
    ensures (LuacNum % 0x10_0000_0000_0000 + 0x10_0000_0000_0000) as real * 256.0 == 370.5 * 0x10_0000_0000_0000 as real
  {}

  /** The tags of constants are those of `lobject.h`; a number follows as it is in memory. */
  lemma ConstantLaws(x: Long, b: byte)
    ensures ConstantBytes(Nil) == [0] && ConstantBytes(Boolean(b)) == [1, b]
    ensures ConstantBytes(Float(x)) == [3] + LongBytes(x) && ConstantBytes(Integer(x)) == [0x13] + LongBytes(x)
  {
    hide LongBytes;
  }

  /** A string of up to 40 bytes is a short one. One more than its length comes first, in one byte or after 255 in
      four. */
  lemma StringLaws(t: seq<byte>)
    ensures |t| <= 40 ==> ConstantBytes(String(t)) == [4, |t| + 1] + t
    ensures 40 < |t| < 254 ==> ConstantBytes(String(t)) == [20, |t| + 1] + t
    ensures 254 <= |t| < 0xFFFF_FFFF ==> ConstantBytes(String(t)) == [20, 255] + WordBytes(|t| + 1) + t
    ensures NameBytes(Null) == [0]
  {
    hide LittleBytes;
  }

  /** The main function of an empty chunk from `x.lua`: it returns, and has `_ENV` for an upvalue. */
  function Empty(): Proto {
    Proto(Header(Own([0x40, 0x78, 0x2e, 0x6c, 0x75, 0x61]), 0, 0, 0, 1, 2), [0x0080_0026], [],
          [Upvaldesc(Str([0x5f, 0x45, 0x4e, 0x56]), 1, 0)], [], [1], [])
  }

  /** What is dumped for it, part by part: source, lines, parameters, `vararg` and stack; code; constants; upvalues;
      functions; lines, local variables and names of upvalues. */
  lemma EmptyChunk()
    ensures Chunk(Empty(), false) ==
            ChunkHeader() + [1] +
            ([7, 0x40, 0x78, 0x2e, 0x6c, 0x75, 0x61] + [0, 0, 0, 0] + [0, 0, 0, 0] + [0, 1, 2] +
             [1, 0, 0, 0] + [0x26, 0, 0x80, 0] + [0, 0, 0, 0] + [1, 0, 0, 0] + [1, 0] + [0, 0, 0, 0] +
             [1, 0, 0, 0] + [1, 0, 0, 0] + [0, 0, 0, 0] + [1, 0, 0, 0] + [5, 0x5f, 0x45, 0x4e, 0x56])
    ensures Chunk(Empty(), true) ==
            ChunkHeader() + [1] +
            ([0] + [0, 0, 0, 0] + [0, 0, 0, 0] + [0, 1, 2] +
             [1, 0, 0, 0] + [0x26, 0, 0x80, 0] + [0, 0, 0, 0] + [1, 0, 0, 0] + [1, 0] + [0, 0, 0, 0] +
             [0, 0, 0, 0] + [0, 0, 0, 0] + [0, 0, 0, 0])
  {
    EmptyHead();
    EmptyMiddle();
    EmptyDebug();
    hide ChunkHeader, HeaderBytes, CodeBytes, ConstantPart, UpvalPart, ProtoPart, DebugBytes;
  }

  lemma EmptyHead()
    ensures HeaderBytes(Empty().header, false) ==
            [7, 0x40, 0x78, 0x2e, 0x6c, 0x75, 0x61] + [0, 0, 0, 0] + [0, 0, 0, 0] + [0, 1, 2]
    ensures HeaderBytes(Empty().header, true) == [0] + [0, 0, 0, 0] + [0, 0, 0, 0] + [0, 1, 2]
  {
    WordLaw(0);
    hide WordBytes;
  }

  lemma IntLaw(n: nat)
    requires n < 256
    ensures IntBytes(n) == [n, 0, 0, 0]
  {
    LittleFour(n);
  }

  lemma EmptyMiddle()
    ensures CodeBytes(Empty().code) == [1, 0, 0, 0] + [0x26, 0, 0x80, 0]
    ensures ConstantPart(Empty().k) == [0, 0, 0, 0]
    ensures UpvalPart(Empty().upvalues) == [1, 0, 0, 0] + [1, 0]
    ensures forall strip :: ProtoPart(Empty(), strip) == [0, 0, 0, 0]
  {
    IntLaw(0);
    IntLaw(1);
    WordLaw(0x0080_0026);
    hide WordBytes, IntBytes;
    OneWord(0x0080_0026);
    OneUpvalue(Empty().upvalues[0]);
  }

  lemma OneWord(w: Word)
    ensures WordsBytes([w]) == WordBytes(w)
  {
    assert WordsBytes([w][1..]) == [];
  }

  lemma OneUpvalue(u: Upvaldesc)
    ensures UpvalsBytes([u]) == [u.instack, u.idx] && NamesBytes([u]) == NameBytes(u.name)
  {
    assert UpvalsBytes([u][1..]) == [] && NamesBytes([u][1..]) == [];
  }

  lemma EmptyDebug()
    ensures DebugBytes(Empty(), false) ==
            [1, 0, 0, 0] + [1, 0, 0, 0] + [0, 0, 0, 0] + [1, 0, 0, 0] + [5, 0x5f, 0x45, 0x4e, 0x56]
    ensures DebugBytes(Empty(), true) == [0, 0, 0, 0] + [0, 0, 0, 0] + [0, 0, 0, 0]
  {
    IntLaw(0);
    IntLaw(1);
    WordLaw(1);
    hide WordBytes, IntBytes;
    OneWord(1);
    OneUpvalue(Empty().upvalues[0]);
    NoneBytes();
    hide WordsBytes, NamesBytes, LocVarsBytes;
  }

  lemma NoneBytes()
    ensures WordsBytes([]) == [] && LocVarsBytes([]) == [] && NamesBytes([]) == []
  {}
}
