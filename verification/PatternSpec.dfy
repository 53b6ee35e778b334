/** Patterns of the string library as lists of items, and all the ways in which they match, in order. */
module PatternSpec {

  import opened Bytes

  const ESC: byte := '%' as int
  const MAXCAPTURES: nat := 32
  const MAXCCALLS: nat := 200

  datatype Error = EndsInEsc | MissingBracket | MissingBalanceArguments | MissingFrontierSet
                 | InvalidCaptureIndex | InvalidPatternCapture | TooManyCaptures

  // ----- sets of characters -----

  /** Whether a letter stands for a class of characters, and for which. */
  predicate ClassHas(letter: byte, c: byte)
  {
    || (letter == 'a' as int && IsAlpha(c)) || (letter == 'c' as int && IsCntrl(c)) ||
       (letter == 'd' as int && IsDigit(c))
    || (letter == 'g' as int && IsGraph(c)) || (letter == 'l' as int && IsLower(c)) ||
       (letter == 'p' as int && IsPunct(c))
    || (letter == 's' as int && IsSpace(c)) || (letter == 'u' as int && IsUpper(c)) ||
       (letter == 'w' as int && IsAlnum(c))
    || (letter == 'x' as int && IsXDigit(c)) || (letter == 'z' as int && c == 0)
  }

  predicate IsClassLetter(letter: byte)
  {
    letter == 'a' as int || letter == 'c' as int || letter == 'd' as int || letter == 'g' as int ||
      letter == 'l' as int || letter == 'p' as int
    || letter == 's' as int || letter == 'u' as int || letter == 'w' as int || letter == 'x' as int ||
       letter == 'z' as int
  }

  /** `%` and a character: a class, its complement if the letter is a capital, or the character itself. */
  predicate EscapeHas(cl: byte, c: byte)
  {
    if !IsClassLetter(ToLower(cl)) then cl == c
    else if IsUpper(cl) then !ClassHas(ToLower(cl), c)
    else ClassHas(cl, c)
  }

  datatype SetItem = Escape(cl: byte) | Range(first: byte, last: byte) | One(ch: byte)

  predicate ItemHas(i: SetItem, c: byte)
  {
    match i
    case Escape(cl) => EscapeHas(cl, c)
    case Range(a, b) => a <= c <= b
    case One(x) => x == c
  }

  datatype CharSet = Any | Single(item: SetItem) | Bracket(negated: bool, items: seq<SetItem>)

  predicate SomeHas(items: seq<SetItem>, c: byte) { exists i :: i in items && ItemHas(i, c) }

  predicate Has(set_: CharSet, c: byte)
  {
    match set_
    case Any => true
    case Single(i) => ItemHas(i, c)
    case Bracket(negated, items) => SomeHas(items, c) != negated
  }

  // ----- patterns -----

  datatype Suffix = Once | Optional | Star | Plus | Lazy

  datatype Item =
    | OpenPosition | OpenCapture | CloseCapture | EndAnchor
    | Balance(open: byte, close: byte) | Frontier(set_: CharSet) | Back(digit: byte)
    | Chars(set_: CharSet, suffix: Suffix)
    | Malformed(error: Error)

  /** Strings end in a zero that is not part of them. */
  function At(s: seq<byte>, i: nat): byte { if i < |s| then s[i] else 0 }

  datatype EndOf = EndAt(pos: nat) | EndError(error: Error)

  /** Where a set ends, from `q` on inside it. */
  function BracketEnd(pat: seq<byte>, q: nat): (e: EndOf)
    decreases |pat| - q
    ensures e.EndAt? ==> q + 1 < e.pos <= |pat| && pat[e.pos - 1] == ']' as int
  {
    if q >= |pat| then EndError(MissingBracket)
    else
      var q' := if pat[q] == ESC && q + 1 < |pat| then q + 2 else q + 1;
      if At(pat, q') == ']' as int then EndAt(q' + 1) else BracketEnd(pat, q')
  }

  /** Where the single-character item at `p` ends. */
  function ClassEnd(pat: seq<byte>, p: nat): (e: EndOf)
    requires p < |pat|
    ensures e.EndAt? ==> p < e.pos <= |pat|
  {
    if pat[p] == ESC then if p + 1 == |pat| then EndError(EndsInEsc) else EndAt(p + 2)
    else if pat[p] == '[' as int then BracketEnd(pat, if At(pat, p + 1) == '^' as int then p + 2 else p + 1)
    else EndAt(p + 1)
  }

  /** What is between brackets. */
  function SetItems(pat: seq<byte>, q: nat, ec: nat): seq<SetItem>
    decreases ec - q
  {
    if q >= ec then []
    else if At(pat, q) == ESC then [Escape(At(pat, q + 1))] + SetItems(pat, q + 2, ec)
    else if At(pat, q + 1) == '-' as int && q + 2 < ec then [Range(At(pat, q), At(pat, q + 2))] +
      SetItems(pat, q + 3, ec)
    else [One(At(pat, q))] + SetItems(pat, q + 1, ec)
  }

  /** The set at `p`, whose closing bracket is at `ec`. */
  function BracketSet(pat: seq<byte>, p: nat, ec: nat): CharSet
  {
    if At(pat, p + 1) == '^' as int then Bracket(true, SetItems(pat, p + 2, ec))
      else Bracket(false, SetItems(pat, p + 1, ec))
  }

  /** The set of characters of the item from `p` to `ep`. */
  function SetAt(pat: seq<byte>, p: nat, ep: nat): CharSet
    requires p < ep <= |pat|
  {
    if pat[p] == '.' as int then Any
    else if pat[p] == ESC then Single(Escape(At(pat, p + 1)))
    else if pat[p] == '[' as int then BracketSet(pat, p, ep - 1)
    else Single(One(pat[p]))
  }

  function SuffixOf(c: byte): Suffix
  {
    if c == '?' as int then Optional else if c == '*' as int then Star else if c == '+' as int then Plus
    else if c == '-' as int then Lazy else Once
  }

  /** The items of a pattern from `p` on.  What is malformed is only found when it is reached. */
  function Parse(pat: seq<byte>, p: nat): seq<Item>
    requires p <= |pat|
    decreases |pat| - p
  {
    if p == |pat| then []
    else if pat[p] == '(' as int then
      if At(pat, p + 1) == ')' as int then [OpenPosition] + Parse(pat, p + 2) else [OpenCapture] + Parse(pat, p + 1)
    else if pat[p] == ')' as int then [CloseCapture] + Parse(pat, p + 1)
    else if pat[p] == '$' as int && p + 1 == |pat| then [EndAnchor]
    else if pat[p] == ESC && At(pat, p + 1) == 'b' as int then
      if p + 3 >= |pat| then [Malformed(MissingBalanceArguments)]
      else [Balance(pat[p + 2], pat[p + 3])] + Parse(pat, p + 4)
    else if pat[p] == ESC && At(pat, p + 1) == 'f' as int then
      if At(pat, p + 2) != '[' as int then [Malformed(MissingFrontierSet)]
      else
        var e := ClassEnd(pat, p + 2);
        if e.EndError? then [Malformed(e.error)] else [Frontier(BracketSet(pat, p + 2, e.pos - 1))] + Parse(pat, e.pos)
    else if pat[p] == ESC && IsDigit(At(pat, p + 1)) then [Back(pat[p + 1])] + Parse(pat, p + 2)
    else ParseChars(pat, p)
  }

  function ParseChars(pat: seq<byte>, p: nat): seq<Item>
    requires p < |pat|
    decreases |pat| - p, 0
  {
    var e := ClassEnd(pat, p);
    if e.EndError? then [Malformed(e.error)]
    else
      var suffix := SuffixOf(At(pat, e.pos));
      [Chars(SetAt(pat, p, e.pos), suffix)] + Parse(pat, if suffix.Once? then e.pos else e.pos + 1)
  }

  // ----- matching -----

  datatype Capture = Unfinished(init: nat) | Position(init: nat) | Closed(init: nat, len: nat)

  /** One way to match: where it ends and what it captures; or an error met while looking for one. */
  datatype Way = Match(end: nat, caps: seq<Capture>) | Fails(error: Error)

  /** The innermost capture that is still open, or -1. */
  function LastOpen(caps: seq<Capture>): (l: int)
    ensures -1 <= l < |caps|
    ensures l >= 0 ==> caps[l].Unfinished?
    ensures forall i :: l < i < |caps| ==> !caps[i].Unfinished?
  {
    if caps == [] then -1
    else if caps[|caps| - 1].Unfinished? then |caps| - 1
    else LastOpen(caps[..|caps| - 1])
  }

  /** How deeply nested what follows `i` is, if `depth` is open at `i`; the closing character counts first. */
  function NestingEnd(src: seq<byte>, i: nat, open: byte, close: byte, depth: nat): (e: int)
    decreases |src| - i
    ensures e == -1 || i < e <= |src|
  {
    if i >= |src| then -1
    else if src[i] == close then if depth <= 1 then i + 1 else NestingEnd(src, i + 1, open, close, depth - 1)
    else if src[i] == open then NestingEnd(src, i + 1, open, close, depth + 1)
    else NestingEnd(src, i + 1, open, close, depth)
  }

  predicate HasAt(set_: CharSet, src: seq<byte>, s: nat) { s < |src| && Has(set_, src[s]) }

  /** Whether the text of a finished capture is found again at `s`. */
  predicate Repeats(src: seq<byte>, s: nat, c: Capture)
  {
    c.Closed? && s + c.len <= |src| && c.init + c.len <= |src| && src[s..s + c.len] == src[c.init..c.init + c.len]
  }

  function Close(c: Capture, s: nat): Capture { Closed(c.init, if s >= c.init then s - c.init else 0) }

  /** The end of balanced text at `s`, or -1. */
  function BalanceEnd(src: seq<byte>, s: nat, open: byte, close: byte): (e: int)
    ensures e == -1 || s < e <= |src|
  {
    if At(src, s) == open then NestingEnd(src, s + 1, open, close, 1) else -1
  }

  /** The set begins here; the text is as if in zeros. */
  predicate AtFrontier(set_: CharSet, src: seq<byte>, s: nat)
  {
    !Has(set_, if s == 0 then 0 else At(src, s - 1)) && Has(set_, At(src, s))
  }

  /** All the ways in which the items match from `s` on, the preferred ones first: repetitions prefer to be long, lazy
      ones to be short. */
  ghost function Ways(src: seq<byte>, items: seq<Item>, s: nat, caps: seq<Capture>): seq<Way>
    decreases |items|, |src| - s, 1
  {
    if items == [] then [Match(s, caps)] else ItemWays(src, items[0], items[1..], s, caps)
  }

  ghost function ItemWays(src: seq<byte>, item: Item, rest: seq<Item>, s: nat, caps: seq<Capture>): seq<Way>
    decreases |rest| + 1, |src| - s, 0
  {
    match item
    case Malformed(e) => [Fails(e)]
    case OpenPosition => CaptureWays(src, rest, s, caps, Position(s))
    case OpenCapture => CaptureWays(src, rest, s, caps, Unfinished(s))
    case CloseCapture =>
      var l := LastOpen(caps);
      if l < 0 then [Fails(InvalidPatternCapture)] else Ways(src, rest, s, caps[l := Close(caps[l], s)])
    case EndAnchor => if s == |src| then Ways(src, rest, s, caps) else []
    case Balance(open, close) =>
      var e := BalanceEnd(src, s, open, close);
      if e >= 0 then Ways(src, rest, e, caps) else []
    case Frontier(set_) => if AtFrontier(set_, src, s) then Ways(src, rest, s, caps) else []
    case Back(digit) =>
      var l := digit - '1' as int;
      if l < 0 || l >= |caps| || caps[l].Unfinished? then [Fails(InvalidCaptureIndex)]
      else if Repeats(src, s, caps[l]) then Ways(src, rest, s + caps[l].len, caps) else []
    case Chars(set_, suffix) =>
      match suffix
      case Once => if HasAt(set_, src, s) then Ways(src, rest, s + 1, caps) else []
      case Optional => (if HasAt(set_, src, s) then Ways(src, rest, s + 1, caps) else []) + Ways(src, rest, s, caps)
      case Star => Greedy(src, set_, rest, s, caps)
      case Plus => if HasAt(set_, src, s) then Greedy(src, set_, rest, s + 1, caps) else []
      case Lazy => Reluctant(src, set_, rest, s, caps)
  }

  ghost function CaptureWays(src: seq<byte>, rest: seq<Item>, s: nat, caps: seq<Capture>, c: Capture): seq<Way>
    decreases |rest|, |src| - s, 2
  {
    if |caps| >= MAXCAPTURES then [Fails(TooManyCaptures)] else Ways(src, rest, s, caps + [c])
  }

  /** Zero or more characters of the set, the more the better, and then the rest. */
  ghost function Greedy(src: seq<byte>, set_: CharSet, rest: seq<Item>, s: nat, caps: seq<Capture>): seq<Way>
    decreases |rest|, |src| - s, 2
  {
    (if HasAt(set_, src, s) then Greedy(src, set_, rest, s + 1, caps) else []) + Ways(src, rest, s, caps)
  }

  /** Zero or more characters of the set, the fewer the better, and then the rest. */
  ghost function Reluctant(src: seq<byte>, set_: CharSet, rest: seq<Item>, s: nat, caps: seq<Capture>): seq<Way>
    decreases |rest|, |src| - s, 2
  {
    Ways(src, rest, s, caps) + if HasAt(set_, src, s) then Reluctant(src, set_, rest, s + 1, caps) else []
  }
}
