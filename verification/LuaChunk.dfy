/** Precompiled functions: what is dumped, the bytes it is dumped as, and how those bytes are read. */
module LuaChunk {
  import opened Bytes
  import opened Endian

  type Word = x: nat | x < 0x1_0000_0000
  type Long = x: nat | x < 0x1_0000_0000_0000_0000

  /** A string, or the null pointer. */
  datatype Name = Null | Str(text: seq<byte>)

  /** Where a function's source comes from: the same pointer as the enclosing function's (null for the outermost), or a
      string of its own. The parser gives all functions of a chunk one source, and the loader puts the enclosing
      function's where it finds none, so no function has a null pointer under one that has a source. */
  datatype Source = Parents | Own(text: seq<byte>)

  /** A constant. Numbers are the bits of their memory image; a Boolean is the byte that is kept for it. */
  datatype Constant = Nil | Boolean(b: byte) | Float(bits: Long) | Integer(bits: Long) | String(text: seq<byte>)

  datatype Upvaldesc = Upvaldesc(name: Name, instack: byte, idx: byte)

  datatype LocVar = LocVar(varname: Name, startpc: Word, endpc: Word)

  datatype Header = Header(source: Source, linedefined: Word, lastlinedefined: Word, numparams: byte, isVararg: byte,
    maxstacksize: byte)

  datatype Proto = Proto(header: Header, code: seq<Word>, k: seq<Constant>, upvalues: seq<Upvaldesc>, p: seq<Proto>,
                         lineinfo: seq<Word>, locvars: seq<LocVar>)

  const IntMax: nat := 0x7FFF_FFFF

  // ----- what fits into a dump -----

  /** Lengths are kept in words: with its terminating zero, a string must be shorter than 2^32. */
  ghost predicate NameFits(n: Name) { n.Str? ==> TextFits(n.text) }

  ghost predicate TextFits(t: seq<byte>) { |t| + 1 < 0x1_0000_0000 }

  ghost predicate ConstantsFit(ks: seq<Constant>) {
    ks == [] || ((ks[0].String? ==> TextFits(ks[0].text)) && ConstantsFit(ks[1..]))
  }

  ghost predicate UpvalsFit(us: seq<Upvaldesc>) { us == [] || (NameFits(us[0].name) && UpvalsFit(us[1..])) }

  ghost predicate LocVarsFit(vs: seq<LocVar>) { vs == [] || (NameFits(vs[0].varname) && LocVarsFit(vs[1..])) }

  ghost predicate SourceFits(s: Source) { s.Own? ==> TextFits(s.text) }

  /** A prototype as the compiler may make it: all sizes are `int`, and all strings can be held in memory. */
  ghost predicate Fits(f: Proto)
    decreases f, |f.p| + 1
  {
    && SourceFits(f.header.source) && ConstantsFit(f.k) && UpvalsFit(f.upvalues) && LocVarsFit(f.locvars)
    && |f.code| <= IntMax && |f.k| <= IntMax && |f.upvalues| <= IntMax && |f.p| <= IntMax && |f.lineinfo| <= IntMax &&
       |f.locvars| <= IntMax
    && AllFit(f, 0)
  }

  ghost predicate AllFit(f: Proto, i: nat)
    requires i <= |f.p|
    decreases f, |f.p| - i
  {
    i == |f.p| || (Fits(f.p[i]) && AllFit(f, i + 1))
  }

  // ----- the bytes of a dump -----

  function WordBytes(x: Word): seq<byte> { LittleBytes(x, 4) }

  function LongBytes(x: Long): seq<byte> { LittleBytes(x, 8) }

  function IntBytes(n: nat): seq<byte> { LittleBytes(n, 4) }

  function TextBytes(t: seq<byte>): seq<byte> {
    (if |t| + 1 < 0xFF then [|t| + 1] else [0xFF] + LittleBytes(|t| + 1, 4)) + t
  }

  function NameBytes(n: Name): seq<byte> { if n.Null? then [0] else TextBytes(n.text) }

  function WordsBytes(ws: seq<Word>): seq<byte> { if ws == [] then [] else WordBytes(ws[0]) + WordsBytes(ws[1..]) }

  /** The tag of a constant. A string of at most 40 bytes is a short one. */
  function Tag(k: Constant): byte {
    match k
    case Nil => 0
    case Boolean(_) => 1
    case Float(_) => 3
    case Integer(_) => 19
    case String(t) => if |t| <= 40 then 4 else 20
  }

  function ConstantBytes(k: Constant): seq<byte> {
    [Tag(k)] +
    match k
    case Nil => []
    case Boolean(b) => [b]
    case Float(x) => LongBytes(x)
    case Integer(x) => LongBytes(x)
    case String(t) => TextBytes(t)
  }

  function ConstantsBytes(ks: seq<Constant>): seq<byte>
  {
    if ks == [] then [] else ConstantBytes(ks[0]) + ConstantsBytes(ks[1..])
  }

  function UpvalsBytes(us: seq<Upvaldesc>): seq<byte>
  {
    if us == [] then [] else [us[0].instack, us[0].idx] + UpvalsBytes(us[1..])
  }

  function NamesBytes(us: seq<Upvaldesc>): seq<byte>
  {
    if us == [] then [] else NameBytes(us[0].name) + NamesBytes(us[1..])
  }

  function LocVarBytes(v: LocVar): seq<byte> { NameBytes(v.varname) + WordBytes(v.startpc) + WordBytes(v.endpc) }

  function LocVarsBytes(vs: seq<LocVar>): seq<byte>
  {
    if vs == [] then [] else LocVarBytes(vs[0]) + LocVarsBytes(vs[1..])
  }

  function SourceBytes(s: Source, strip: bool): seq<byte>
  {
    NameBytes(if strip || s.Parents? then Null else Str(s.text))
  }

  function HeaderBytes(h: Header, strip: bool): seq<byte> {
    SourceBytes(h.source, strip) + WordBytes(h.linedefined) + WordBytes(h.lastlinedefined) +
      [h.numparams, h.isVararg, h.maxstacksize]
  }

  function CodeBytes(code: seq<Word>): seq<byte> { IntBytes(|code|) + WordsBytes(code) }

  function ConstantPart(ks: seq<Constant>): seq<byte> { IntBytes(|ks|) + ConstantsBytes(ks) }

  function UpvalPart(us: seq<Upvaldesc>): seq<byte> { IntBytes(|us|) + UpvalsBytes(us) }

  function LinePart(ws: seq<Word>): seq<byte> { IntBytes(|ws|) + WordsBytes(ws) }

  function LocVarPart(vs: seq<LocVar>): seq<byte> { IntBytes(|vs|) + LocVarsBytes(vs) }

  function NamePart(us: seq<Upvaldesc>): seq<byte> { IntBytes(|us|) + NamesBytes(us) }

  function DebugBytes(f: Proto, strip: bool): seq<byte> {
    if strip then LinePart([]) + LocVarPart([]) + NamePart([])
    else LinePart(f.lineinfo) + LocVarPart(f.locvars) + NamePart(f.upvalues)
  }

  /** The dump of a function, with those of the functions in it. */
  function Dumped(f: Proto, strip: bool): seq<byte>
    decreases f, |f.p| + 1
  {
    HeaderBytes(f.header, strip) + CodeBytes(f.code) + ConstantPart(f.k) + UpvalPart(f.upvalues) + ProtoPart(f, strip) +
      DebugBytes(f, strip)
  }

  function ProtoPart(f: Proto, strip: bool): seq<byte>
    decreases f, |f.p| + 1, 0
  {
    IntBytes(|f.p|) + ProtosBytes(f, strip, 0)
  }

  function ProtosBytes(f: Proto, strip: bool, i: nat): seq<byte>
    requires i <= |f.p|
    decreases f, |f.p| - i
  {
    if i == |f.p| then [] else Dumped(f.p[i], strip) + ProtosBytes(f, strip, i + 1)
  }

  // ----- reading -----

  /** Why reading ends: the input does, a size is none, or the code does something undefined (a null string as a
      constant, more names than upvalues). */
  datatype Error = Truncated | TooBig | Undefined | BadHeader

  datatype Read<+T> = Got(value: T, rest: seq<byte>) | Failed(error: Error)

  function ReadBlock(s: seq<byte>, n: nat): (r: Read<seq<byte>>)
    ensures r.Got? ==> |r.rest| == |s| - n
  {
    if |s| < n then Failed(Truncated) else Got(s[..n], s[n..])
  }

  function ReadByte(s: seq<byte>): (r: Read<byte>)
    ensures r.Got? ==> |r.rest| == |s| - 1
  {
    if s == [] then Failed(Truncated) else Got(s[0], s[1..])
  }

  function ReadWord(s: seq<byte>): (r: Read<Word>)
    ensures r.Got? ==> |r.rest| == |s| - 4
  {
    if |s| < 4 then Failed(Truncated) else FourBelow(s[..4]); Got(LittleValue(s[..4]), s[4..])
  }

  function ReadLong(s: seq<byte>): (r: Read<Long>)
    ensures r.Got? ==> |r.rest| == |s| - 8
  {
    if |s| < 8 then Failed(Truncated) else EightBelow(s[..8]); Got(LittleValue(s[..8]), s[8..])
  }

  lemma FourBelow(s: seq<byte>)
    requires |s| == 4
    ensures LittleValue(s) < 0x1_0000_0000
  {
    Sizes256();
  }

  lemma EightBelow(s: seq<byte>)
    requires |s| == 8
    ensures LittleValue(s) < 0x1_0000_0000_0000_0000
  {
    Sizes256();
  }

  /** A size: a negative `int` is too big as a number of elements. */
  function ReadSize(s: seq<byte>): (r: Read<nat>)
    ensures r.Got? ==> |r.rest| == |s| - 4
  {
    var n := ReadWord(s);
    if n.Failed? then Failed(n.error) else if n.value > IntMax then Failed(TooBig) else Got(n.value, n.rest)
  }

  function ReadName(s: seq<byte>): (r: Read<Name>)
    ensures r.Got? ==> |r.rest| < |s|
  {
    var b := ReadByte(s);
    if b.Failed? then Failed(b.error)
    else
      var n := if b.value == 0xFF then ReadWord(b.rest) else Got(b.value as Word, b.rest);
      if n.Failed? then Failed(n.error)
      else if n.value == 0 then Got(Null, n.rest)
      else
        var t := ReadBlock(n.rest, n.value - 1);
        if t.Failed? then Failed(t.error) else Got(Str(t.value), t.rest)
  }

  function ReadWords(n: nat, got: seq<Word>, s: seq<byte>): (r: Read<seq<Word>>)
    ensures r.Got? ==> |r.rest| <= |s|
    decreases n
  {
    if n == 0 then Got(got, s)
    else
      var w := ReadWord(s);
      if w.Failed? then Failed(w.error) else ReadWords(n - 1, got + [w.value], w.rest)
  }

  function ReadConstant(s: seq<byte>): (r: Read<Constant>)
    ensures r.Got? ==> |r.rest| < |s|
  {
    var t := ReadByte(s);
    if t.Failed? then Failed(t.error)
    else if t.value == 1 then
      var b := ReadByte(t.rest);
      if b.Failed? then Failed(b.error) else Got(Boolean(b.value), b.rest)
    else if t.value == 3 then
      var x := ReadLong(t.rest);
      if x.Failed? then Failed(x.error) else Got(Float(x.value), x.rest)
    else if t.value == 19 then
      var x := ReadLong(t.rest);
      if x.Failed? then Failed(x.error) else Got(Integer(x.value), x.rest)
    else if t.value == 4 || t.value == 20 then
      var n := ReadName(t.rest);
      if n.Failed? then Failed(n.error) else if n.value.Null? then Failed(Undefined)
        else Got(String(n.value.text), n.rest)
    else Got(Nil, t.rest)
  }

  function ReadConstants(n: nat, got: seq<Constant>, s: seq<byte>): (r: Read<seq<Constant>>)
    ensures r.Got? ==> |r.rest| <= |s|
    decreases n
  {
    if n == 0 then Got(got, s)
    else
      var k := ReadConstant(s);
      if k.Failed? then Failed(k.error) else ReadConstants(n - 1, got + [k.value], k.rest)
  }

  function ReadUpval(s: seq<byte>): (r: Read<Upvaldesc>)
    ensures r.Got? ==> |r.rest| <= |s|
  {
    var a := ReadByte(s);
    if a.Failed? then Failed(a.error)
    else
      var b := ReadByte(a.rest);
      if b.Failed? then Failed(b.error) else Got(Upvaldesc(Null, a.value, b.value), b.rest)
  }

  function ReadUpvals(n: nat, got: seq<Upvaldesc>, s: seq<byte>): (r: Read<seq<Upvaldesc>>)
    ensures r.Got? ==> |r.rest| <= |s|
    decreases n
  {
    if n == 0 then Got(got, s)
    else
      var u := ReadUpval(s);
      if u.Failed? then Failed(u.error) else ReadUpvals(n - 1, got + [u.value], u.rest)
  }

  /** Gives names to the upvalues from number `i` on. */
  function ReadNames(n: nat, i: nat, us: seq<Upvaldesc>, s: seq<byte>): (r: Read<seq<Upvaldesc>>)
    ensures r.Got? ==> |r.rest| <= |s|
    decreases n
  {
    if n == 0 then Got(us, s)
    else
      var x := ReadName(s);
      if x.Failed? then Failed(x.error)
      else if i >= |us| then Failed(Undefined)
      else ReadNames(n - 1, i + 1, us[i := us[i].(name := x.value)], x.rest)
  }

  function ReadLocVar(s: seq<byte>): (r: Read<LocVar>)
    ensures r.Got? ==> |r.rest| < |s|
  {
    var x := ReadName(s);
    if x.Failed? then Failed(x.error)
    else
      var a := ReadWord(x.rest);
      if a.Failed? then Failed(a.error)
      else
        var b := ReadWord(a.rest);
        if b.Failed? then Failed(b.error) else Got(LocVar(x.value, a.value, b.value), b.rest)
  }

  function ReadLocVars(n: nat, got: seq<LocVar>, s: seq<byte>): (r: Read<seq<LocVar>>)
    ensures r.Got? ==> |r.rest| <= |s|
    decreases n
  {
    if n == 0 then Got(got, s)
    else
      var v := ReadLocVar(s);
      if v.Failed? then Failed(v.error) else ReadLocVars(n - 1, got + [v.value], v.rest)
  }

  function ReadHeader(s: seq<byte>): (r: Read<Header>)
    ensures r.Got? ==> |r.rest| < |s|
  {
    var x := ReadName(s);
    if x.Failed? then Failed(x.error)
    else
      var a := ReadWord(x.rest);
      if a.Failed? then Failed(a.error)
      else
        var b := ReadWord(a.rest);
        if b.Failed? then Failed(b.error)
        else
          var c := ReadThree(b.rest);
          if c.Failed? then Failed(c.error)
          else Got(Header(if x.value.Null? then Parents else Own(x.value.text), a.value, b.value, c.value.0, c.value.1,
            c.value.2), c.rest)
  }

  function ReadThree(s: seq<byte>): (r: Read<(byte, byte, byte)>)
    ensures r.Got? ==> |r.rest| < |s|
  {
    var a := ReadByte(s);
    if a.Failed? then Failed(a.error)
    else
      var b := ReadByte(a.rest);
      if b.Failed? then Failed(b.error)
      else
        var c := ReadByte(b.rest);
        if c.Failed? then Failed(c.error) else Got((a.value, b.value, c.value), c.rest)
  }

  function ReadCode(s: seq<byte>): (r: Read<seq<Word>>)
    ensures r.Got? ==> |r.rest| < |s|
  {
    var n := ReadSize(s);
    if n.Failed? then Failed(n.error) else ReadWords(n.value, [], n.rest)
  }

  function ReadConstantPart(s: seq<byte>): (r: Read<seq<Constant>>)
    ensures r.Got? ==> |r.rest| < |s|
  {
    var n := ReadSize(s);
    if n.Failed? then Failed(n.error) else ReadConstants(n.value, [], n.rest)
  }

  function ReadUpvalPart(s: seq<byte>): (r: Read<seq<Upvaldesc>>)
    ensures r.Got? ==> |r.rest| < |s|
  {
    var n := ReadSize(s);
    if n.Failed? then Failed(n.error) else ReadUpvals(n.value, [], n.rest)
  }

  function ReadLocVarPart(s: seq<byte>): (r: Read<seq<LocVar>>)
    ensures r.Got? ==> |r.rest| < |s|
  {
    var n := ReadSize(s);
    if n.Failed? then Failed(n.error) else ReadLocVars(n.value, [], n.rest)
  }

  /** A negative number of names is read as none. */
  function ReadNamePart(us: seq<Upvaldesc>, s: seq<byte>): (r: Read<seq<Upvaldesc>>)
    ensures r.Got? ==> |r.rest| < |s|
  {
    var n := ReadWord(s);
    if n.Failed? then Failed(n.error) else ReadNames(if n.value > IntMax then 0 else n.value, 0, us, n.rest)
  }

  datatype Debug = Debug(lineinfo: seq<Word>, locvars: seq<LocVar>, upvalues: seq<Upvaldesc>)

  function ReadDebug(us: seq<Upvaldesc>, s: seq<byte>): (r: Read<Debug>)
    ensures r.Got? ==> |r.rest| < |s|
  {
    var l := ReadCode(s);
    if l.Failed? then Failed(l.error)
    else
      var v := ReadLocVarPart(l.rest);
      if v.Failed? then Failed(v.error)
      else
        var u := ReadNamePart(us, v.rest);
        if u.Failed? then Failed(u.error) else Got(Debug(l.value, v.value, u.value), u.rest)
  }

  /** What comes before the functions in a function. */
  datatype Front = Front(header: Header, code: seq<Word>, k: seq<Constant>, upvalues: seq<Upvaldesc>)

  function ReadFront(s: seq<byte>): (r: Read<Front>)
    ensures r.Got? ==> |r.rest| < |s|
  {
    var h := ReadHeader(s);
    if h.Failed? then Failed(h.error)
    else
      var c := ReadCode(h.rest);
      if c.Failed? then Failed(c.error)
      else
        var k := ReadConstantPart(c.rest);
        if k.Failed? then Failed(k.error)
        else
          var u := ReadUpvalPart(k.rest);
          if u.Failed? then Failed(u.error) else Got(Front(h.value, c.value, k.value, u.value), u.rest)
  }

  function ReadFunction(s: seq<byte>): (r: Read<Proto>)
    ensures r.Got? ==> |r.rest| < |s|
    decreases |s|, 0, 0
  {
    var a := ReadFront(s);
    if a.Failed? then Failed(a.error)
    else
      var p := ReadProtoPart(a.rest);
      if p.Failed? then Failed(p.error)
      else
        var d := ReadDebug(a.value.upvalues, p.rest);
        if d.Failed? then Failed(d.error)
        else
          var f := a.value;
          Got(Proto(f.header, f.code, f.k, d.value.upvalues, p.value, d.value.lineinfo, d.value.locvars), d.rest)
  }

  function ReadProtoPart(s: seq<byte>): (r: Read<seq<Proto>>)
    ensures r.Got? ==> |r.rest| < |s|
    decreases |s|, 2, 0
  {
    var n := ReadSize(s);
    if n.Failed? then Failed(n.error) else ReadProtos(n.value, [], n.rest)
  }

  function ReadProtos(n: nat, got: seq<Proto>, s: seq<byte>): (r: Read<seq<Proto>>)
    ensures r.Got? ==> |r.rest| <= |s|
    decreases |s|, 1, n
  {
    if n == 0 then Got(got, s)
    else
      var f := ReadFunction(s);
      if f.Failed? then Failed(f.error) else ReadProtos(n - 1, got + [f.value], f.rest)
  }
}
