/** What patterns mean, by their text: section 6.4.1 of the Lua 5.3 manual. */
module PatternLaws {
  import opened Bytes
  import opened PatternSpec
  import opened PatternMatcher
  import PatternFind

  /** The ways in which the pattern matches from its position `p` on. */
  ghost function From(src: seq<byte>, pat: seq<byte>, p: nat, s: nat, caps: seq<Capture>): seq<Way>
    requires p <= |pat|
  {
    Ways(src, Parse(pat, p), s, caps)
  }

  // ----- classes of characters -----

  /** The classes by the ranges of bytes that they stand for. */
  lemma ClassRanges(b: byte)
    ensures EscapeHas('a' as int, b) <==> 65 <= b <= 90 || 97 <= b <= 122
    ensures EscapeHas('c' as int, b) <==> b <= 31 || b == 127
    ensures EscapeHas('d' as int, b) <==> 48 <= b <= 57
    ensures EscapeHas('g' as int, b) <==> 33 <= b <= 126
    ensures EscapeHas('l' as int, b) <==> 97 <= b <= 122
    ensures EscapeHas('p' as int, b) <==> 33 <= b <= 47 || 58 <= b <= 64 || 91 <= b <= 96 || 123 <= b <= 126
    ensures EscapeHas('s' as int, b) <==> 9 <= b <= 13 || b == 32
    ensures EscapeHas('u' as int, b) <==> 65 <= b <= 90
    ensures EscapeHas('w' as int, b) <==> 48 <= b <= 57 || 65 <= b <= 90 || 97 <= b <= 122
    ensures EscapeHas('x' as int, b) <==> 48 <= b <= 57 || 65 <= b <= 70 || 97 <= b <= 102
    ensures EscapeHas('z' as int, b) <==> b == 0
  {}

  /** a, c, d, g, l, p, s, u, w, x and z. */
  predicate NamesClass(l: byte)
  {
    l == 97 || l == 99 || l == 100 || l == 103 || l == 108 || l == 112 || l == 115 || l == 117 || 119 <= l <= 120 ||
      l == 122
  }

  /** A capital stands for the complement. */
  lemma CapitalLaw(l: byte, b: byte)
    requires NamesClass(l)
    ensures EscapeHas(l - 32, b) <==> !EscapeHas(l, b)
  {
    hide ClassHas;
  }

  /** What names no class stands for itself. */
  lemma OtherEscapes(l: byte, b: byte)
    requires !NamesClass(l) && !(l < 224 && NamesClass(l + 32))
    ensures EscapeHas(l, b) <==> l == b
  {
    hide ClassHas;
  }

  /** The characters that do not stand for themselves at the beginning of an item. */
  predicate Plain(c: byte)
  {
    c != '(' as int && c != ')' as int && c != '$' as int && c != '%' as int && c != '[' as int && c != '.' as int
  }

  /** What the single-character item at `p` may be, where it ends and what it matches. */
  lemma OneCharacter(pat: seq<byte>, p: nat, b: byte)
    requires p < |pat|
    ensures pat[p] == '.' as int ==> ClassEnd(pat, p) == EndAt(p + 1) && Has(SetAt(pat, p, p + 1), b)
    ensures Plain(pat[p]) ==> ClassEnd(pat, p) == EndAt(p + 1) && (Has(SetAt(pat, p, p + 1), b) <==> b == pat[p])
    ensures pat[p] == '%' as int && p + 1 < |pat| ==>
              ClassEnd(pat, p) == EndAt(p + 2) && (Has(SetAt(pat, p, p + 2), b) <==> EscapeHas(pat[p + 1], b))
  {
    hide EscapeHas;
  }

  predicate Listable(x: byte) { x != '%' as int && x != '-' as int && x != ']' as int && x != '^' as int }

  /** A set that lists its members. */
  lemma ListedSet(t: seq<byte>, b: byte)
    requires t != [] && forall x :: x in t ==> Listable(x)
    ensures var pat := ['[' as int] + t + [']' as int];
            ClassEnd(pat, 0) == EndAt(|pat|) && (Has(SetAt(pat, 0, |pat|), b) <==> b in t)
  {
    hide SetItems, SomeHas, BracketEnd;
    var pat := ['[' as int] + t + [']' as int];
    Members(t);
    assert forall i :: 0 <= i < |t| ==> pat[1 + i] == t[i];
    assert pat[1] == t[0];
    ListedEnd(pat, t, 1, 0);
    ListedItems(pat, t, 1, 0, b);
    assert t[0..] == t;
  }

  /** The complement of such a set. */
  lemma ComplementSet(t: seq<byte>, b: byte)
    requires t != [] && forall x :: x in t ==> Listable(x)
    ensures var pat := ['[' as int, '^' as int] + t + [']' as int];
            ClassEnd(pat, 0) == EndAt(|pat|) && (Has(SetAt(pat, 0, |pat|), b) <==> b !in t)
  {
    hide SetItems, SomeHas, BracketEnd;
    var pat := ['[' as int, '^' as int] + t + [']' as int];
    Members(t);
    assert forall i :: 0 <= i < |t| ==> pat[2 + i] == t[i];
    ListedEnd(pat, t, 2, 0);
    ListedItems(pat, t, 2, 0, b);
    assert t[0..] == t;
  }

  lemma Members(t: seq<byte>)
    requires forall x :: x in t ==> Listable(x)
    ensures forall i :: 0 <= i < |t| ==> Listable(t[i])
  {}

  lemma {:induction false} ListedEnd(pat: seq<byte>, t: seq<byte>, q: nat, i: nat)
    requires i < |t| && |pat| == q + |t| + 1 && pat[q + |t|] == ']' as int
    requires forall j :: 0 <= j < |t| ==> pat[q + j] == t[j] && Listable(t[j])
    ensures BracketEnd(pat, q + i) == EndAt(|pat|)
    decreases |t| - i
  {
    assert pat[q + i] == t[i];
    if i + 1 < |t| {
      assert pat[q + (i + 1)] == t[i + 1];
      ListedEnd(pat, t, q, i + 1);
    }
  }

  lemma {:induction false} ListedItems(pat: seq<byte>, t: seq<byte>, q: nat, i: nat, b: byte)
    requires i <= |t| && |pat| == q + |t| + 1 && pat[q + |t|] == ']' as int
    requires forall j :: 0 <= j < |t| ==> pat[q + j] == t[j] && Listable(t[j])
    ensures SomeHas(SetItems(pat, q + i, |pat| - 1), b) <==> b in t[i..]
    decreases |t| - i
  {
    if i == |t| {
      SetEnd(pat, q + i, |pat| - 1, b);
    } else {
      assert pat[q + i] == t[i];
      if i + 1 < |t| { assert pat[q + (i + 1)] == t[i + 1]; }
      SetStep(pat, q + i, |pat| - 1, b);
      ListedItems(pat, t, q, i + 1, b);
      assert t[i..] == [t[i]] + t[i + 1..];
    }
  }

  /** A range, with both its ends. */
  lemma RangeSet(x: byte, y: byte, b: byte)
    requires Listable(x) && Listable(y)
    ensures var pat := ['[' as int, x, '-' as int, y, ']' as int];
            ClassEnd(pat, 0) == EndAt(5) && (Has(SetAt(pat, 0, 5), b) <==> x <= b <= y)
  {
    var pat: seq<byte> := ['[' as int, x, '-' as int, y, ']' as int];
    assert BracketEnd(pat, 3) == EndAt(5) && BracketEnd(pat, 2) == EndAt(5);
    SetStep(pat, 1, 4, b);
    SetEnd(pat, 4, 4, b);
  }

  /** A class in a set. */
  lemma ClassSet(l: byte, b: byte)
    ensures var pat := ['[' as int, '%' as int, l, ']' as int];
            ClassEnd(pat, 0) == EndAt(4) && (Has(SetAt(pat, 0, 4), b) <==> EscapeHas(l, b))
  {
    hide EscapeHas;
    var pat: seq<byte> := ['[' as int, '%' as int, l, ']' as int];
    SetStep(pat, 1, 3, b);
    SetEnd(pat, 3, 3, b);
  }

  // ----- repetitions -----

  /** The item at `p` is a single character, with its repetition. */
  predicate SingleChar(pat: seq<byte>, p: nat)
    requires p < |pat|
  {
    && pat[p] != '(' as int && pat[p] != ')' as int && !(pat[p] == '$' as int && p + 1 == |pat|)
    && (pat[p] == '%' as int ==>
          At(pat, p + 1) != 'b' as int && At(pat, p + 1) != 'f' as int && !(48 <= At(pat, p + 1) <= 57))
  }

  /** The rest of the pattern after `i` characters, then after one less, and so on down to `least`. */
  ghost function Falling(src: seq<byte>, pat: seq<byte>, p: nat, s: nat, i: int, least: nat,
                         caps: seq<Capture>): seq<Way>
    requires p <= |pat|
    decreases i
  {
    if i < least then [] else From(src, pat, p, s + i, caps) + Falling(src, pat, p, s, i - 1, least, caps)
  }

  /** The rest of the pattern after `i` characters, then after one more, and so on up to `most`. */
  ghost function Rising(src: seq<byte>, pat: seq<byte>, p: nat, s: nat, i: nat, most: nat, caps: seq<Capture>): seq<Way>
    requires p <= |pat|
    decreases most - i
  {
    if i > most then [] else From(src, pat, p, s + i, caps) + Rising(src, pat, p, s, i + 1, most, caps)
  }

  lemma {:induction false} DownFalls(src: seq<byte>, pat: seq<byte>, p: nat, s: nat, i: nat, caps: seq<Capture>)
    requires p <= |pat|
    ensures Down(src, Parse(pat, p), s, i, caps) == Falling(src, pat, p, s, i, 0, caps)
    decreases i
  {
    hide Ways, Parse;
    if i == 0 {
      assert Falling(src, pat, p, s, -1, 0, caps) == [];
    } else {
      DownFalls(src, pat, p, s, i - 1, caps);
    }
  }

  lemma {:induction false} FallingFromOne(src: seq<byte>, pat: seq<byte>, p: nat, s: nat, i: int, caps: seq<Capture>)
    requires p <= |pat| && i >= -1
    ensures Falling(src, pat, p, s + 1, i, 0, caps) == Falling(src, pat, p, s, i + 1, 1, caps)
    decreases i
  {
    hide From;
    if i >= 0 {
      FallingFromOne(src, pat, p, s, i - 1, caps);
      assert s + 1 + i == s + (i + 1);
    }
  }

  lemma {:induction false} ReluctantRises(src: seq<byte>, set_: CharSet, pat: seq<byte>, p: nat, s: nat, i: nat, m: nat,
                                          caps: seq<Capture>)
    requires p <= |pat| && RunOf(set_, src, s, m) && i <= m
    ensures Reluctant(src, set_, Parse(pat, p), s + i, caps) == Rising(src, pat, p, s, i, m, caps)
    decreases m - i
  {
    hide Ways, Parse, Has;
    var rest := Parse(pat, p);
    if i == m {
      assert Rising(src, pat, p, s, i + 1, m, caps) == [];
      assert !HasAt(set_, src, s + i);
    } else {
      assert HasAt(set_, src, s + i);
      ReluctantRises(src, set_, pat, p, s, i + 1, m, caps);
      assert s + i + 1 == s + (i + 1);
    }
  }

  /** An item of one character with nothing, `?`, `*`, `+` or `-` behind it, if just `m` of its characters stand at
      `s`. */
  lemma Repetitions(src: seq<byte>, pat: seq<byte>, p: nat, ep: nat, s: nat, m: nat, caps: seq<Capture>)
    requires p < |pat| && SingleChar(pat, p) && ClassEnd(pat, p) == EndAt(ep) && RunOf(SetAt(pat, p, ep), src, s, m)
    ensures At(pat, ep) == '*' as int ==>
              ep < |pat| && From(src, pat, p, s, caps) == Falling(src, pat, ep + 1, s, m, 0, caps)
    ensures At(pat, ep) == '+' as int ==>
              ep < |pat| && From(src, pat, p, s, caps) == Falling(src, pat, ep + 1, s, m, 1, caps)
    ensures At(pat, ep) == '-' as int ==>
              ep < |pat| && From(src, pat, p, s, caps) == Rising(src, pat, ep + 1, s, 0, m, caps)
    ensures At(pat, ep) == '?' as int ==>
              ep < |pat| &&
              From(src, pat, p, s, caps) == (if m > 0 then From(src, pat, ep + 1, s + 1, caps) else []) +
                                            From(src, pat, ep + 1, s, caps)
    ensures (At(pat, ep) as char) !in "*+-?" ==>
              From(src, pat, p, s, caps) == if m > 0 then From(src, pat, ep, s + 1, caps) else []
  {
    hide Has, Greedy, Reluctant, ClassEnd, Ways;
    var set_, suffix := SetAt(pat, p, ep), SuffixOf(At(pat, ep));
    var q := if suffix.Once? then ep else ep + 1;
    assert HasAt(set_, src, s) <==> m > 0;
    assert Parse(pat, p) == ParseChars(pat, p);
    WaysFirst(src, pat, p, s, caps);
    CharsItem(src, set_, suffix, Parse(pat, q), s, caps);
    match suffix
    case Star =>
      GreedyDown(src, set_, Parse(pat, q), s, m, caps);
      DownFalls(src, pat, q, s, m, caps);
    case Plus =>
      if m > 0 {
        assert RunOf(set_, src, s + 1, m - 1);
        GreedyDown(src, set_, Parse(pat, q), s + 1, m - 1, caps);
        DownFalls(src, pat, q, s + 1, m - 1, caps);
        FallingFromOne(src, pat, q, s, m - 1, caps);
      }
    case Lazy =>
      ReluctantRises(src, set_, pat, q, s, 0, m, caps);
    case _ =>
  }

  /** How often `c` stands at `s` without a break. */
  function Times(src: seq<byte>, s: nat, c: byte): (m: nat)
    decreases |src| - s
  {
    if s < |src| && src[s] == c then 1 + Times(src, s + 1, c) else 0
  }

  lemma {:induction false} TimesRun(src: seq<byte>, s: nat, c: byte)
    ensures RunOf(Single(One(c)), src, s, Times(src, s, c))
    decreases |src| - s
  {
    if s < |src| && src[s] == c { TimesRun(src, s + 1, c); }
  }

  /** A character that stands for itself, repeated, and nothing else: as often as possible, as seldom as possible. */
  lemma RepetitionAlone(src: seq<byte>, c: byte, s: nat)
    requires Plain(c)
    ensures var m := Times(src, s, c);
            && FirstOf(From(src, [c, '*' as int], 0, s, []), Match(s + m, []))
            && FirstOf(From(src, [c, '-' as int], 0, s, []), Match(s, []))
            && (if m > 0 then FirstOf(From(src, [c, '+' as int], 0, s, []), Match(s + m, []))
                else From(src, [c, '+' as int], 0, s, []) == [])
            && FirstOf(From(src, [c, '?' as int], 0, s, []), Match(if m > 0 then s + 1 else s, []))
            && From(src, [c], 0, s, []) == if m > 0 then [Match(s + 1, [])] else []
  {
    hide Ways, Parse, Has;
    var m := Times(src, s, c);
    TimesRun(src, s, c);
    forall x: byte | (x as char) in "*-+?"
      ensures SingleChar([c, x], 0) && ClassEnd([c, x], 0) == EndAt(1) && SetAt([c, x], 0, 1) == Single(One(c))
    {}
    Repetitions(src, [c, '*' as int], 0, 1, s, m, []);
    Repetitions(src, [c, '-' as int], 0, 1, s, m, []);
    Repetitions(src, [c, '+' as int], 0, 1, s, m, []);
    Repetitions(src, [c, '?' as int], 0, 1, s, m, []);
    Repetitions(src, [c], 0, 1, s, m, []);
    forall t: nat, x: byte ensures From(src, [c, x], 2, t, []) == [Match(t, [])] { NoItems(src, [c, x], t, []); }
    forall t: nat ensures From(src, [c], 1, t, []) == [Match(t, [])] { NoItems(src, [c], t, []); }
  }

  ghost predicate FirstOf(ways: seq<Way>, w: Way) { ways != [] && ways[0] == w }

  // ----- captures and the other items -----

  /** A captured repetition: where it began and how long it was. */
  lemma GroupAlone(src: seq<byte>, c: byte, s: nat)
    requires Plain(c)
    ensures var m := Times(src, s, c);
            FirstOf(From(src, ['(' as int, c, '*' as int, ')' as int], 0, s, []), Match(s + m, [Closed(s, m)]))
  {
    hide Ways, Has;
    var m := Times(src, s, c);
    var pat: seq<byte> := ['(' as int, c, '*' as int, ')' as int];
    TimesRun(src, s, c);
    WaysFirst(src, pat, 0, s, []);
    CaptureItems(src, Parse(pat, 1), s, []);
    assert From(src, pat, 0, s, []) == CaptureWays(src, Parse(pat, 1), s, [], Unfinished(s));
    assert [] + [Unfinished(s)] == [Unfinished(s)];
    assert From(src, pat, 0, s, []) == From(src, pat, 1, s, [Unfinished(s)]);
    Repetitions(src, pat, 1, 2, s, m, [Unfinished(s)]);
    CloseAlone(src, pat, s + m, s);
  }

  lemma CloseAlone(src: seq<byte>, pat: seq<byte>, e: nat, s: nat)
    requires |pat| == 4 && pat[3] == ')' as int && s <= e
    ensures From(src, pat, 3, e, [Unfinished(s)]) == [Match(e, [Closed(s, e - s)])]
  {
    var caps := [Unfinished(s)];
    WaysFirst(src, pat, 3, e, caps);
    assert Parse(pat, 3) == [CloseCapture] + Parse(pat, 4);
    CloseItem(src, Parse(pat, 4), e, s);
    NoItems(src, pat, e, [Closed(s, e - s)]);
  }

  /** An empty capture is a position. */
  lemma PositionAlone(src: seq<byte>, s: nat)
    ensures From(src, ['(' as int, ')' as int], 0, s, []) == [Match(s, [Position(s)])]
  {
    var pat: seq<byte> := ['(' as int, ')' as int];
    assert Parse(pat, 0) == [OpenPosition] + Parse(pat, 2);
    WaysFirst(src, pat, 0, s, []);
    CaptureItems(src, Parse(pat, 2), s, []);
    assert [] + [Position(s)] == [Position(s)];
    NoItems(src, pat, s, [Position(s)]);
  }

  /** A digit behind `%` stands for what was captured: two equal characters in a row. */
  lemma BackAlone(src: seq<byte>, s: nat)
    requires s <= |src|
    ensures var pat: seq<byte> := ['(' as int, '.' as int, ')' as int, '%' as int, '1' as int];
            From(src, pat, 0, s, []) ==
            if s + 1 < |src| && src[s] == src[s + 1] then [Match(s + 2, [Closed(s, 1)])] else []
  {
    hide Ways, ParseChars;
    var pat: seq<byte> := ['(' as int, '.' as int, ')' as int, '%' as int, '1' as int];
    WaysFirst(src, pat, 0, s, []);
    CaptureItems(src, Parse(pat, 1), s, []);
    assert [] + [Unfinished(s)] == [Unfinished(s)];
    assert From(src, pat, 0, s, []) == From(src, pat, 1, s, [Unfinished(s)]);
    BackDot(src, pat, s, [Unfinished(s)]);
    if s < |src| {
      var caps := [Unfinished(s)];
      WaysFirst(src, pat, 2, s + 1, caps);
      CloseItem(src, Parse(pat, 3), s + 1, s);
      BackDigit(src, pat, s);
    }
  }

  lemma CloseItem(src: seq<byte>, rest: seq<Item>, e: nat, s: nat)
    requires s <= e
    ensures ItemWays(src, CloseCapture, rest, e, [Unfinished(s)]) == Ways(src, rest, e, [Closed(s, e - s)])
  {
    var caps := [Unfinished(s)];
    assert LastOpen(caps) == 0 && caps[0 := Closed(s, e - s)] == [Closed(s, e - s)];
  }

  lemma BackDot(src: seq<byte>, pat: seq<byte>, s: nat, caps: seq<Capture>)
    requires |pat| == 5 && pat[1] == '.' as int && pat[2] == ')' as int
    ensures From(src, pat, 1, s, caps) == if s < |src| then From(src, pat, 2, s + 1, caps) else []
  {
    hide Ways;
    WaysFirst(src, pat, 1, s, caps);
    assert Parse(pat, 1) == [Chars(Any, Once)] + Parse(pat, 2);
    CharsItem(src, Any, Once, Parse(pat, 2), s, caps);
  }

  lemma BackDigit(src: seq<byte>, pat: seq<byte>, s: nat)
    requires |pat| == 5 && pat[3] == '%' as int && pat[4] == '1' as int && s < |src|
    ensures From(src, pat, 3, s + 1, [Closed(s, 1)]) ==
            if s + 1 < |src| && src[s] == src[s + 1] then [Match(s + 2, [Closed(s, 1)])] else []
  {
    var caps := [Closed(s, 1)];
    WaysFirst(src, pat, 3, s + 1, caps);
    assert Parse(pat, 3) == [Back('1' as int)] + Parse(pat, 5);
    BackItem(src, '1' as int, Parse(pat, 5), s + 1, caps);
    NoItems(src, pat, s + 2, caps);
    if s + 2 <= |src| {
      assert src[s + 1..s + 2] == [src[s + 1]] && src[s..s + 1] == [src[s]];
    }
  }

  /** `$` at the end of a pattern matches at the end only. */
  lemma EndAlone(src: seq<byte>, s: nat)
    ensures From(src, ['$' as int], 0, s, []) == if s == |src| then [Match(s, [])] else []
  {
    var pat: seq<byte> := ['$' as int];
    WaysFirst(src, pat, 0, s, []);
    assert Parse(pat, 0) == [EndAnchor];
    EndItems(src, [], s, []);
  }

  lemma Malformation(src: seq<byte>, pat: seq<byte>, error: Error, s: nat)
    requires pat != [] && Parse(pat, 0) == [Malformed(error)]
    ensures From(src, pat, 0, s, []) == [Fails(error)]
  {
    WaysFirst(src, pat, 0, s, []);
    MalformedItem(src, error, [], s, []);
  }

  /** What is wrong with a pattern. */
  lemma MalformedLaws(src: seq<byte>, s: nat, caps: seq<Capture>)
    ensures From(src, ['%' as int], 0, s, []) == [Fails(EndsInEsc)]
    ensures From(src, ['[' as int, 'a' as int], 0, s, []) == [Fails(MissingBracket)]
    ensures From(src, ['%' as int, 'b' as int, '(' as int], 0, s, []) == [Fails(MissingBalanceArguments)]
    ensures From(src, ['%' as int, 'f' as int, 'a' as int], 0, s, []) == [Fails(MissingFrontierSet)]
    ensures From(src, ['%' as int, '1' as int], 0, s, []) == [Fails(InvalidCaptureIndex)]
    ensures From(src, [')' as int], 0, s, []) == [Fails(InvalidPatternCapture)]
    ensures |caps| >= 32 ==> From(src, ['(' as int], 0, s, caps) == [Fails(TooManyCaptures)]
    ensures |caps| < 32 ==> From(src, ['(' as int], 0, s, caps) == [Match(s, caps + [Unfinished(s)])]
  {
    var open: seq<byte> := ['[' as int, 'a' as int];
    assert BracketEnd(open, 1) == EndError(MissingBracket) by {
      assert BracketEnd(open, 2) == EndError(MissingBracket);
    }
    Malformation(src, ['%' as int], EndsInEsc, s);
    Malformation(src, open, MissingBracket, s);
    Malformation(src, ['%' as int, 'b' as int, '(' as int], MissingBalanceArguments, s);
    Malformation(src, ['%' as int, 'f' as int, 'a' as int], MissingFrontierSet, s);
    BackItem(src, '1' as int, Parse(['%' as int, '1' as int], 2), s, []);
    assert Parse([')' as int], 0) == [CloseCapture] + Parse([')' as int], 1) && LastOpen([]) == -1;
    WaysFirst(src, [')' as int], 0, s, []);
    WaysFirst(src, ['%' as int, '1' as int], 0, s, []);
    var b: seq<byte> := ['(' as int];
    assert Parse(b, 0) == [OpenCapture] + Parse(b, 1);
    WaysFirst(src, b, 0, s, caps);
    CaptureItems(src, Parse(b, 1), s, caps);
    NoItems(src, b, s, caps + [Unfinished(s)]);
  }

  // ----- balanced text -----

  /** How many more of one character than of another there are. */
  function Excess(src: seq<byte>, s: nat, e: nat, x: byte, y: byte): int
    requires s <= e <= |src|
    decreases e - s
  {
    if e == s then 0
    else Excess(src, s, e - 1, x, y) + (if src[e - 1] == x then 1 else if src[e - 1] == y then -1 else 0)
  }

  /** `%bxy` matches from an `x` to the first place where there are as many of both. */
  lemma Balanced(src: seq<byte>, s: nat, x: byte, y: byte)
    requires x != y
    ensures var e := BalanceEnd(src, s, x, y);
            if e == -1 then
              s < |src| && src[s] == x ==> forall i :: s < i <= |src| ==> Excess(src, s, i, x, y) > 0
            else
              && s < e <= |src| && src[s] == x && Excess(src, s, e, x, y) == 0
              && forall i :: s < i < e ==> Excess(src, s, i, x, y) > 0
  {
    if s < |src| && src[s] == x {
      assert Excess(src, s, s + 1, x, y) == 1 by { assert Excess(src, s, s, x, y) == 0; }
      Nested(src, s, s + 1, x, y, 1);
    }
  }

  lemma {:induction false} Nested(src: seq<byte>, s: nat, i: nat, x: byte, y: byte, d: nat)
    requires x != y && s < i <= |src| && d >= 1 && Excess(src, s, i, x, y) == d
    requires forall j :: s < j <= i ==> Excess(src, s, j, x, y) > 0
    ensures var e := NestingEnd(src, i, x, y, d);
            if e == -1 then forall j :: s < j <= |src| ==> Excess(src, s, j, x, y) > 0
            else i < e <= |src| && Excess(src, s, e, x, y) == 0 && forall j :: s < j < e ==> Excess(src, s, j, x, y) > 0
    decreases |src| - i
  {
    if i < |src| {
      var d' := if src[i] == y then d - 1 else if src[i] == x then d + 1 else d;
      assert Excess(src, s, i + 1, x, y) == d';
      if d' > 0 { Nested(src, s, i + 1, x, y, d'); }
    }
  }

  // ----- positions -----

  /** Positions count from 1, and negative ones from the end. */
  lemma PositionLaws(k: int, n: nat)
    ensures k >= 0 ==> PatternFind.PosRelat(k, n) == k
    ensures 1 <= k <= n ==> PatternFind.PosRelat(-k, n) - 1 == n - k
    ensures k > n ==> PatternFind.PosRelat(-k, n) == 0
  {}
}
