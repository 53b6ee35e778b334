/** Reading what was dumped gives it back. */
module LuaChunkTrips {
  import opened Bytes
  import opened Endian
  import opened LuaChunk

  lemma Assoc<T>(a: seq<T>, b: seq<T>, c: seq<T>)
    ensures (a + b) + c == a + (b + c)
  {}

  lemma ByteTrip(b: byte, rest: seq<byte>)
    ensures ReadByte([b] + rest) == Got(b, rest)
  {
    assert ([b] + rest)[1..] == rest;
  }

  lemma WordTrip(x: Word, rest: seq<byte>)
    ensures ReadWord(WordBytes(x) + rest) == Got(x, rest)
  {
    Sizes256();
    BytesValue(x, 4);
    var s := WordBytes(x) + rest;
    assert s[..4] == WordBytes(x) && s[4..] == rest;
  }

  lemma LongTrip(x: Long, rest: seq<byte>)
    ensures ReadLong(LongBytes(x) + rest) == Got(x, rest)
  {
    Sizes256();
    BytesValue(x, 8);
    var s := LongBytes(x) + rest;
    assert s[..8] == LongBytes(x) && s[8..] == rest;
  }

  lemma SizeTrip(n: nat, rest: seq<byte>)
    requires n <= IntMax
    ensures ReadSize(IntBytes(n) + rest) == Got(n, rest) && ReadWord(IntBytes(n) + rest) == Got(n, rest)
  {
    WordTrip(n, rest);
    assert IntBytes(n) == WordBytes(n);
  }

  lemma BlockTrip(t: seq<byte>, rest: seq<byte>)
    ensures ReadBlock(t + rest, |t|) == Got(t, rest)
  {
    assert (t + rest)[..|t|] == t && (t + rest)[|t|..] == rest;
  }

  lemma TextTrip(t: seq<byte>, rest: seq<byte>)
    requires TextFits(t)
    ensures ReadName(TextBytes(t) + rest) == Got(Str(t), rest)
  {
    hide LittleBytes, LittleValue, ReadWord;
    BlockTrip(t, rest);
    var n := |t| + 1;
    if n < 0xFF {
      ByteTrip(n, t + rest);
      assert TextBytes(t) + rest == [n] + (t + rest);
    } else {
      ByteTrip(0xFF, LittleBytes(n, 4) + (t + rest));
      WordTrip(n, t + rest);
      assert WordBytes(n) == LittleBytes(n, 4);
      assert TextBytes(t) + rest == [0xFF] + (LittleBytes(n, 4) + (t + rest));
    }
  }

  lemma NameTrip(n: Name, rest: seq<byte>)
    requires NameFits(n)
    ensures ReadName(NameBytes(n) + rest) == Got(n, rest)
  {
    if n.Str? { TextTrip(n.text, rest); } else { ByteTrip(0, rest); }
  }

  lemma {:induction false} WordsTrip(ws: seq<Word>, got: seq<Word>, rest: seq<byte>)
    ensures ReadWords(|ws|, got, WordsBytes(ws) + rest) == Got(got + ws, rest)
  {
    hide WordBytes, ReadWord;
    if ws != [] {
      WordTrip(ws[0], WordsBytes(ws[1..]) + rest);
      Assoc(WordBytes(ws[0]), WordsBytes(ws[1..]), rest);
      WordsTrip(ws[1..], got + [ws[0]], rest);
      assert got + [ws[0]] + ws[1..] == got + ws;
    } else {
      assert WordsBytes(ws) + rest == rest && got + ws == got;
    }
  }

  lemma ConstantTrip(k: Constant, rest: seq<byte>)
    requires k.String? ==> TextFits(k.text)
    ensures ReadConstant(ConstantBytes(k) + rest) == Got(k, rest)
  {
    hide LongBytes, TextBytes, ReadName, ReadLong, TextFits, ReadByte;
    match k
    case Nil =>
      ByteTrip(0, rest);
      assert ConstantBytes(k) + rest == [0 as byte] + rest;
    case Boolean(b) =>
      ByteTrip(1, [b] + rest);
      ByteTrip(b, rest);
      assert ConstantBytes(k) + rest == [1 as byte] + ([b] + rest);
    case Float(x) =>
      ByteTrip(3, LongBytes(x) + rest);
      LongTrip(x, rest);
      assert ConstantBytes(k) + rest == [3 as byte] + (LongBytes(x) + rest);
    case Integer(x) =>
      ByteTrip(19, LongBytes(x) + rest);
      LongTrip(x, rest);
      assert ConstantBytes(k) + rest == [19 as byte] + (LongBytes(x) + rest);
    case String(t) =>
      ByteTrip(Tag(k), TextBytes(t) + rest);
      TextTrip(t, rest);
      assert ConstantBytes(k) + rest == [Tag(k)] + (TextBytes(t) + rest);
  }

  lemma {:induction false} ConstantsTrip(ks: seq<Constant>, got: seq<Constant>, rest: seq<byte>)
    requires ConstantsFit(ks)
    ensures ReadConstants(|ks|, got, ConstantsBytes(ks) + rest) == Got(got + ks, rest)
  {
    hide ConstantBytes, ReadConstant;
    if ks != [] {
      ConstantTrip(ks[0], ConstantsBytes(ks[1..]) + rest);
      Assoc(ConstantBytes(ks[0]), ConstantsBytes(ks[1..]), rest);
      ConstantsTrip(ks[1..], got + [ks[0]], rest);
      assert got + [ks[0]] + ks[1..] == got + ks;
    } else {
      assert ConstantsBytes(ks) + rest == rest && got + ks == got;
    }
  }

  /** Upvalues are first read without their names. */
  function Unnamed(us: seq<Upvaldesc>): (r: seq<Upvaldesc>)
    ensures |r| == |us| && forall i :: 0 <= i < |us| ==> r[i] == Upvaldesc(Null, us[i].instack, us[i].idx)
  {
    if us == [] then [] else [Upvaldesc(Null, us[0].instack, us[0].idx)] + Unnamed(us[1..])
  }

  lemma {:induction false} UpvalsTrip(us: seq<Upvaldesc>, got: seq<Upvaldesc>, rest: seq<byte>)
    ensures ReadUpvals(|us|, got, UpvalsBytes(us) + rest) == Got(got + Unnamed(us), rest)
  {
    hide ReadByte;
    if us != [] {
      var after := UpvalsBytes(us[1..]) + rest;
      ByteTrip(us[0].instack, [us[0].idx] + after);
      ByteTrip(us[0].idx, after);
      assert UpvalsBytes(us) + rest == [us[0].instack] + ([us[0].idx] + after);
      var u := Unnamed(us)[0];
      UpvalsTrip(us[1..], got + [u], rest);
      assert got + [u] + Unnamed(us[1..]) == got + Unnamed(us);
    } else {
      assert UpvalsBytes(us) + rest == rest && got + Unnamed(us) == got;
    }
  }

  /** Afterwards the names are put in, one by one. */
  lemma {:induction false} NamesTrip(us: seq<Upvaldesc>, done: seq<Upvaldesc>, rest: seq<byte>)
    requires UpvalsFit(us)
    ensures ReadNames(|us|, |done|, done + Unnamed(us), NamesBytes(us) + rest) == Got(done + us, rest)
  {
    hide NameBytes, ReadName, NameFits, Unnamed;
    if us != [] {
      NameTrip(us[0].name, NamesBytes(us[1..]) + rest);
      Assoc(NameBytes(us[0].name), NamesBytes(us[1..]), rest);
      NamesTrip(us[1..], done + [us[0]], rest);
      NamePut(us, done);
      assert done + [us[0]] + us[1..] == done + us;
    } else {
      assert NamesBytes(us) + rest == rest && done + us == done && done + Unnamed(us) == done;
    }
  }

  lemma NamePut(us: seq<Upvaldesc>, done: seq<Upvaldesc>)
    requires us != []
    ensures var a := done + Unnamed(us);
      a[|done| := a[|done|].(name := us[0].name)] == done + [us[0]] + Unnamed(us[1..])
  {}

  lemma LocVarTrip(v: LocVar, rest: seq<byte>)
    requires NameFits(v.varname)
    ensures ReadLocVar(LocVarBytes(v) + rest) == Got(v, rest)
  {
    hide NameBytes, ReadName, NameFits, WordBytes, ReadWord;
    var a, b, c := NameBytes(v.varname), WordBytes(v.startpc), WordBytes(v.endpc);
    NameTrip(v.varname, b + (c + rest));
    WordTrip(v.startpc, c + rest);
    WordTrip(v.endpc, rest);
    assert a + b + c + rest == a + (b + (c + rest));
  }

  lemma {:induction false} LocVarsTrip(vs: seq<LocVar>, got: seq<LocVar>, rest: seq<byte>)
    requires LocVarsFit(vs)
    ensures ReadLocVars(|vs|, got, LocVarsBytes(vs) + rest) == Got(got + vs, rest)
  {
    hide LocVarBytes, ReadLocVar, NameFits;
    if vs != [] {
      LocVarTrip(vs[0], LocVarsBytes(vs[1..]) + rest);
      Assoc(LocVarBytes(vs[0]), LocVarsBytes(vs[1..]), rest);
      LocVarsTrip(vs[1..], got + [vs[0]], rest);
      assert got + [vs[0]] + vs[1..] == got + vs;
    } else {
      assert LocVarsBytes(vs) + rest == rest && got + vs == got;
    }
  }

  // ----- the parts of a function -----

  lemma CodeTrip(ws: seq<Word>, rest: seq<byte>)
    requires |ws| <= IntMax
    ensures ReadCode(CodeBytes(ws) + rest) == Got(ws, rest) && CodeBytes(ws) == LinePart(ws)
  {
    hide IntBytes, ReadSize, ReadWords, WordsBytes;
    SizeTrip(|ws|, WordsBytes(ws) + rest);
    Assoc(IntBytes(|ws|), WordsBytes(ws), rest);
    WordsTrip(ws, [], rest);
    assert [] + ws == ws;
  }

  lemma ConstantPartTrip(ks: seq<Constant>, rest: seq<byte>)
    requires |ks| <= IntMax && ConstantsFit(ks)
    ensures ReadConstantPart(ConstantPart(ks) + rest) == Got(ks, rest)
  {
    hide IntBytes, ReadSize, ReadConstants, ConstantsBytes, ConstantsFit;
    SizeTrip(|ks|, ConstantsBytes(ks) + rest);
    Assoc(IntBytes(|ks|), ConstantsBytes(ks), rest);
    ConstantsTrip(ks, [], rest);
    assert [] + ks == ks;
  }

  lemma UpvalPartTrip(us: seq<Upvaldesc>, rest: seq<byte>)
    requires |us| <= IntMax
    ensures ReadUpvalPart(UpvalPart(us) + rest) == Got(Unnamed(us), rest)
  {
    hide IntBytes, ReadSize, ReadUpvals, UpvalsBytes, Unnamed;
    SizeTrip(|us|, UpvalsBytes(us) + rest);
    Assoc(IntBytes(|us|), UpvalsBytes(us), rest);
    UpvalsTrip(us, [], rest);
    assert [] + Unnamed(us) == Unnamed(us);
  }

  lemma LocVarPartTrip(vs: seq<LocVar>, rest: seq<byte>)
    requires |vs| <= IntMax && LocVarsFit(vs)
    ensures ReadLocVarPart(LocVarPart(vs) + rest) == Got(vs, rest)
  {
    hide IntBytes, ReadSize, ReadLocVars, LocVarsBytes, LocVarsFit;
    SizeTrip(|vs|, LocVarsBytes(vs) + rest);
    Assoc(IntBytes(|vs|), LocVarsBytes(vs), rest);
    LocVarsTrip(vs, [], rest);
    assert [] + vs == vs;
  }

  lemma NamePartTrip(us: seq<Upvaldesc>, rest: seq<byte>)
    requires |us| <= IntMax && UpvalsFit(us)
    ensures ReadNamePart(Unnamed(us), NamePart(us) + rest) == Got(us, rest)
  {
    hide IntBytes, ReadWord, NamesBytes, UpvalsFit, Unnamed, ReadNames;
    SizeTrip(|us|, NamesBytes(us) + rest);
    Assoc(IntBytes(|us|), NamesBytes(us), rest);
    NamesTrip(us, [], rest);
    assert [] + us == us && [] + Unnamed(us) == Unnamed(us);
  }

  lemma NoNamesTrip(us: seq<Upvaldesc>, rest: seq<byte>)
    ensures ReadNamePart(us, NamePart([]) + rest) == Got(us, rest)
  {
    hide IntBytes, ReadWord, NamesBytes;
    SizeTrip(0, rest);
    NoNames();
    assert NamePart([]) + rest == IntBytes(0) + rest;
  }

  lemma NoNames()
    ensures NamesBytes([]) == []
  {}

  lemma DebugTrip(f: Proto, strip: bool, rest: seq<byte>)
    requires |f.upvalues| <= IntMax && |f.lineinfo| <= IntMax && |f.locvars| <= IntMax && UpvalsFit(f.upvalues) &&
             LocVarsFit(f.locvars)
    ensures ReadDebug(Unnamed(f.upvalues), DebugBytes(f, strip) + rest)
         == Got(if strip then Debug([], [], Unnamed(f.upvalues)) else Debug(f.lineinfo, f.locvars, f.upvalues), rest)
  {
    hide LinePart, LocVarPart, NamePart, CodeBytes, ReadCode, ReadLocVarPart, ReadNamePart, UpvalsFit, Unnamed;
    var l, v := if strip then [] else f.lineinfo, if strip then [] else f.locvars;
    var a, b, c := LinePart(l), LocVarPart(v), if strip then NamePart([]) else NamePart(f.upvalues);
    assert DebugBytes(f, strip) + rest == a + (b + (c + rest));
    CodeTrip(l, b + (c + rest));
    LocVarPartTrip(v, c + rest);
    NamePartTrip(f.upvalues, rest);
    NoNamesTrip(Unnamed(f.upvalues), rest);
  }

  lemma HeaderTrip(h: Header, strip: bool, rest: seq<byte>)
    requires SourceFits(h.source)
    ensures ReadHeader(HeaderBytes(h, strip) + rest) == Got(HeaderBack(h, strip), rest)
  {
    hide NameBytes, ReadName, WordBytes, ReadWord, NameFits, ReadByte;
    var n := if strip || h.source.Parents? then Null else Str(h.source.text);
    SourceName(h.source, n);
    var a, b, c := NameBytes(n), WordBytes(h.linedefined), WordBytes(h.lastlinedefined);
    var d := [h.numparams] + ([h.isVararg] + ([h.maxstacksize] + rest));
    assert HeaderBytes(h, strip) + rest == a + (b + (c + d));
    NameTrip(n, b + (c + d));
    WordTrip(h.linedefined, c + d);
    WordTrip(h.lastlinedefined, d);
    ByteTrip(h.numparams, [h.isVararg] + ([h.maxstacksize] + rest));
    ByteTrip(h.isVararg, [h.maxstacksize] + rest);
    ByteTrip(h.maxstacksize, rest);
  }

  lemma SourceName(s: Source, n: Name)
    requires SourceFits(s) && (n.Null? || (s.Own? && n == Str(s.text)))
    ensures NameFits(n)
  {}

  // ----- what comes back -----

  function HeaderBack(h: Header, strip: bool): Header { if strip then h.(source := Parents) else h }

  /** What comes back from a dump: with `strip`, without sources, lines and names, at every depth. */
  function Back(f: Proto, strip: bool): (g: Proto)
    ensures g.code == f.code && g.k == f.k && |g.p| == |f.p|
    decreases f, |f.p| + 1
  {
    Proto(HeaderBack(f.header, strip), f.code, f.k, if strip then Unnamed(f.upvalues)
      else f.upvalues, BackFrom(f, strip, 0),
          if strip then [] else f.lineinfo, if strip then [] else f.locvars)
  }

  function BackFrom(f: Proto, strip: bool, i: nat): (ps: seq<Proto>)
    requires i <= |f.p|
    ensures |ps| == |f.p| - i && forall j :: 0 <= j < |ps| ==> ps[j] == Back(f.p[i + j], strip)
    decreases f, |f.p| - i
  {
    if i == |f.p| then [] else [Back(f.p[i], strip)] + BackFrom(f, strip, i + 1)
  }

  lemma FrontTrip(f: Proto, strip: bool, rest: seq<byte>)
    requires Fits(f)
    ensures ReadFront(HeaderBytes(f.header, strip) +
            (CodeBytes(f.code) + (ConstantPart(f.k) + (UpvalPart(f.upvalues) + rest))))
         == Got(Front(HeaderBack(f.header, strip), f.code, f.k, Unnamed(f.upvalues)), rest)
  {
    FitParts(f);
    hide HeaderBytes, CodeBytes, ConstantPart, UpvalPart, ReadHeader, ReadCode, ReadConstantPart, ReadUpvalPart,
      Unnamed, Fits, ConstantsFit,
      HeaderBack, SourceFits;
    var d := UpvalPart(f.upvalues) + rest;
    var c := ConstantPart(f.k) + d;
    HeaderTrip(f.header, strip, CodeBytes(f.code) + c);
    CodeTrip(f.code, c);
    ConstantPartTrip(f.k, d);
    UpvalPartTrip(f.upvalues, rest);
  }

  lemma FitParts(f: Proto)
    requires Fits(f)
    ensures SourceFits(f.header.source) && ConstantsFit(f.k) && UpvalsFit(f.upvalues) && LocVarsFit(f.locvars) &&
            AllFit(f, 0)
    ensures |f.code| <= IntMax && |f.k| <= IntMax && |f.upvalues| <= IntMax && |f.p| <= IntMax &&
            |f.lineinfo| <= IntMax && |f.locvars| <= IntMax
  {}

  lemma DumpedParts(f: Proto, strip: bool, rest: seq<byte>)
    ensures Dumped(f, strip) + rest
         == HeaderBytes(f.header, strip)
          + (CodeBytes(f.code) + (ConstantPart(f.k) +
            (UpvalPart(f.upvalues) + (ProtoPart(f, strip) + (DebugBytes(f, strip) + rest)))))
  {
    hide HeaderBytes, CodeBytes, ConstantPart, UpvalPart, ProtoPart, DebugBytes;
    var h, c, k, u, p, d := HeaderBytes(f.header, strip), CodeBytes(f.code), ConstantPart(f.k), UpvalPart(f.upvalues),
      ProtoPart(f, strip), DebugBytes(f, strip);
    assert h + c + k + u + p + d + rest == h + (c + (k + (u + (p + (d + rest)))));
  }

  /** Reading a dumped function gives it back, and leaves what comes after it. */
  lemma {:induction false} FunctionTrip(f: Proto, strip: bool, rest: seq<byte>)
    requires Fits(f)
    ensures ReadFunction(Dumped(f, strip) + rest) == Got(Back(f, strip), rest)
    decreases f, |f.p| + 1
  {
    FitParts(f);
    hide Fits, AllFit, ReadFront, ReadDebug, Dumped, DebugBytes, UpvalsFit, LocVarsFit, ProtoPart, ReadProtoPart,
      ConstantsFit, SourceFits,
      HeaderBytes, CodeBytes, ConstantPart, UpvalPart, Unnamed, HeaderBack, BackFrom;
    var d := DebugBytes(f, strip) + rest;
    DumpedParts(f, strip, rest);
    FrontTrip(f, strip, ProtoPart(f, strip) + d);
    ProtoPartTrip(f, strip, d);
    DebugTrip(f, strip, rest);
  }

  lemma {:induction false} ProtoPartTrip(f: Proto, strip: bool, rest: seq<byte>)
    requires |f.p| <= IntMax && AllFit(f, 0)
    ensures ReadProtoPart(ProtoPart(f, strip) + rest) == Got(BackFrom(f, strip, 0), rest)
    decreases f, |f.p| + 1, 0
  {
    hide AllFit, ProtosBytes, IntBytes, ReadSize, ReadProtos, BackFrom;
    SizeTrip(|f.p|, ProtosBytes(f, strip, 0) + rest);
    Assoc(IntBytes(|f.p|), ProtosBytes(f, strip, 0), rest);
    ProtosTrip(f, strip, 0, [], rest);
    assert [] + BackFrom(f, strip, 0) == BackFrom(f, strip, 0);
  }

  lemma {:induction false} ProtosTrip(f: Proto, strip: bool, i: nat, got: seq<Proto>, rest: seq<byte>)
    requires i <= |f.p| && AllFit(f, i)
    ensures ReadProtos(|f.p| - i, got, ProtosBytes(f, strip, i) + rest) == Got(got + BackFrom(f, strip, i), rest)
    decreases f, |f.p| - i
  {
    hide Fits, Dumped, ReadFunction, Back;
    if i < |f.p| {
      var after := ProtosBytes(f, strip, i + 1) + rest;
      FunctionTrip(f.p[i], strip, after);
      Assoc(Dumped(f.p[i], strip), ProtosBytes(f, strip, i + 1), rest);
      ProtosTrip(f, strip, i + 1, got + [Back(f.p[i], strip)], rest);
      assert got + [Back(f.p[i], strip)] + BackFrom(f, strip, i + 1) == got + BackFrom(f, strip, i);
    } else {
      assert ProtosBytes(f, strip, i) + rest == rest && got + BackFrom(f, strip, i) == got;
    }
  }

  // ----- when nothing is stripped -----

  lemma {:induction false} BackSame(f: Proto)
    ensures Back(f, false) == f
    decreases f, |f.p| + 1
  {
    BackSameFrom(f, 0);
    assert f.p[0..] == f.p;
  }

  lemma {:induction false} BackSameFrom(f: Proto, i: nat)
    requires i <= |f.p|
    ensures BackFrom(f, false, i) == f.p[i..]
    decreases f, |f.p| - i
  {
    if i < |f.p| {
      hide Back;
      BackSame(f.p[i]);
      BackSameFrom(f, i + 1);
      assert f.p[i..] == [f.p[i]] + f.p[i + 1..];
    }
  }

  /** Dumping and loading gives an equal prototype, and leaves what follows. */
  lemma RoundTrip(f: Proto, rest: seq<byte>)
    requires Fits(f)
    ensures ReadFunction(Dumped(f, false) + rest) == Got(f, rest)
  {
    hide ReadFunction, Dumped, Fits;
    FunctionTrip(f, false, rest);
    BackSame(f);
  }

  /** A dump is never the beginning of another one: what is read does not depend on what follows. */
  lemma DumpsDiffer(f: Proto, g: Proto, rest: seq<byte>, rest': seq<byte>)
    requires Fits(f) && Fits(g) && Dumped(f, false) + rest == Dumped(g, false) + rest'
    ensures f == g && rest == rest'
  {
    hide ReadFunction, Dumped, Fits;
    RoundTrip(f, rest);
    RoundTrip(g, rest');
  }

  /** Everything that a stripped function is without. */
  predicate Bare(f: Proto)
    decreases f, |f.p| + 1
  {
    && f.header.source == Parents && f.lineinfo == [] && f.locvars == []
    && (forall i :: 0 <= i < |f.upvalues| ==> f.upvalues[i].name == Null) && BareFrom(f, 0)
  }

  predicate BareFrom(f: Proto, i: nat)
    requires i <= |f.p|
    decreases f, |f.p| - i
  {
    i == |f.p| || (Bare(f.p[i]) && BareFrom(f, i + 1))
  }

  lemma {:induction false} StrippedBare(f: Proto)
    ensures Bare(Back(f, true))
    decreases f, |f.p| + 1
  {
    StrippedBareFrom(f, 0);
  }

  lemma {:induction false} StrippedBareFrom(f: Proto, i: nat)
    requires i <= |f.p|
    ensures BareFrom(Back(f, true), i)
    decreases f, |f.p| - i
  {
    if i < |f.p| {
      StrippedBare(f.p[i]);
      StrippedBareFrom(f, i + 1);
      assert Back(f, true).p[i] == BackFrom(f, true, 0)[i];
    }
  }
}
