/** The backtracking matcher, which keeps its captures in one array and undoes what a failed attempt did. */
module PatternMatcher {
  import opened Bytes
  import opened PatternSpec

  datatype Result = Matched(end: nat) | NoMatch | Failed(error: Error) | TooComplex

  /** The matcher takes the first way there is. */
  ghost predicate Takes(ways: seq<Way>, r: Result, caps0: seq<Capture>, caps: seq<Capture>)
  {
    match r
    case NoMatch => ways == [] && caps == caps0
    case Matched(e) => ways != [] && ways[0] == Match(e, caps)
    case Failed(error) => ways != [] && ways[0] == Fails(error)
    case TooComplex => false
  }

  /** The ways that are left after an item that takes no choices: the rest from its end on, an error, or none. */
  ghost function Resumed(src: seq<byte>, rest: seq<Item>, r: Result, caps: seq<Capture>): seq<Way>
  {
    if r.Matched? then Ways(src, rest, r.end, caps) else if r.Failed? then [Fails(r.error)] else []
  }

  /** The ways with at most `i` repetitions from `s`, the longest first. */
  ghost function Down(src: seq<byte>, rest: seq<Item>, s: nat, i: nat, caps: seq<Capture>): seq<Way>
  {
    Ways(src, rest, s + i, caps) + if i == 0 then [] else Down(src, rest, s, i - 1, caps)
  }

  /** Exactly `m` characters from `s` on are in the set. */
  ghost predicate RunOf(set_: CharSet, src: seq<byte>, s: nat, m: nat)
  {
    (forall j :: s <= j < s + m ==> HasAt(set_, src, j)) && !HasAt(set_, src, s + m)
  }

  lemma {:induction false} DownOne(src: seq<byte>, rest: seq<Item>, s: nat, i: nat, caps: seq<Capture>)
    ensures Down(src, rest, s, i + 1, caps) == Down(src, rest, s + 1, i, caps) + Ways(src, rest, s, caps)
    decreases i
  {
    hide Ways;
    if i == 0 {
      assert Down(src, rest, s, 0, caps) == Ways(src, rest, s, caps);
      assert Down(src, rest, s + 1, 0, caps) == Ways(src, rest, s + 1, caps);
    } else {
      DownOne(src, rest, s, i - 1, caps);
      assert s + (i + 1) == s + 1 + i;
      var a, b, c := Ways(src, rest, s + 1 + i, caps), Down(src, rest, s + 1, i - 1, caps), Ways(src, rest, s, caps);
      assert a + (b + c) == (a + b) + c;
    }
  }

  /** Preferring more is trying all numbers of repetitions from the greatest down. */
  lemma {:induction false} GreedyDown(src: seq<byte>, set_: CharSet, rest: seq<Item>, s: nat, m: nat,
                                      caps: seq<Capture>)
    requires RunOf(set_, src, s, m)
    ensures Greedy(src, set_, rest, s, caps) == Down(src, rest, s, m, caps)
    decreases m
  {
    if m == 0 {
      assert Down(src, rest, s, 0, caps) == Ways(src, rest, s, caps);
    } else {
      GreedyDown(src, set_, rest, s + 1, m - 1, caps);
      DownOne(src, rest, s, m - 1, caps);
    }
  }

  lemma SetStep(pat: seq<byte>, p: nat, ec: nat, c: byte)
    requires p < ec
    ensures SomeHas(SetItems(pat, p, ec), c) <==>
            if At(pat, p) == ESC then EscapeHas(At(pat, p + 1), c) || SomeHas(SetItems(pat, p + 2, ec), c)
            else if At(pat, p + 1) == '-' as int && p + 2 < ec then At(pat, p) <= c <= At(pat, p + 2) ||
              SomeHas(SetItems(pat, p + 3, ec), c)
            else At(pat, p) == c || SomeHas(SetItems(pat, p + 1, ec), c)
  {
    hide EscapeHas;
    var all := SetItems(pat, p, ec);
    SomeFirst(all[0], all[1..], c);
    assert all == [all[0]] + all[1..];
  }

  lemma SetEnd(pat: seq<byte>, p: nat, ec: nat, c: byte)
    requires p >= ec
    ensures !SomeHas(SetItems(pat, p, ec), c)
  {}

  lemma SomeFirst(x: SetItem, rest: seq<SetItem>, c: byte)
    ensures SomeHas([x] + rest, c) <==> ItemHas(x, c) || SomeHas(rest, c)
  {
    hide ItemHas;
    if ItemHas(x, c) { assert x in [x] + rest; }
    if i :| i in rest && ItemHas(i, c) { assert i in [x] + rest; }
  }

  class MatchState {
    const src: seq<byte>
    const pat: seq<byte>
    var matchdepth: int
    var level: nat
    const capture: array<Capture>

    ghost predicate Valid()
      reads this
    {
      level <= MAXCAPTURES && capture.Length == MAXCAPTURES
    }

    /** The captures in use. */
    ghost function Live(): seq<Capture>
      requires Valid()
      reads this, capture
    {
      capture[..level]
    }

    constructor (src: seq<byte>, pat: seq<byte>)
      ensures Valid() && this.src == src && this.pat == pat && level == 0 && matchdepth == MAXCCALLS && fresh(capture)
    {
      this.src, this.pat, matchdepth, level := src, pat, MAXCCALLS, 0;
      capture := new Capture[MAXCAPTURES](i => Unfinished(0));
    }

    // ----- single characters -----

    method FindClassEnd(p0: nat) returns (e: EndOf)
      requires p0 < |pat|
      ensures e == ClassEnd(pat, p0)
    {
      var p := p0 + 1;
      if pat[p0] == ESC {
        if p == |pat| {
          return EndError(EndsInEsc);
        }
        return EndAt(p + 1);
      } else if pat[p0] == '[' as int {
        if At(pat, p) == '^' as int {
          p := p + 1;
        }
        while true
          invariant p0 < p && BracketEnd(pat, p) == ClassEnd(pat, p0)
          decreases |pat| - p
        {
          if p >= |pat| {
            return EndError(MissingBracket);
          }
          p := p + 1;
          if pat[p - 1] == ESC && p < |pat| {
            p := p + 1;
          }
          if At(pat, p) == ']' as int {
            break;
          }
        }
        return EndAt(p + 1);
      } else {
        return EndAt(p);
      }
    }

    method MatchClass(c: byte, cl: byte) returns (b: bool)
      ensures b == EscapeHas(cl, c)
    {
      var l := ToLower(cl);
      var res;
      if l == 'a' as int { res := IsAlpha(c); }
      else if l == 'c' as int { res := IsCntrl(c); }
      else if l == 'd' as int { res := IsDigit(c); }
      else if l == 'g' as int { res := IsGraph(c); }
      else if l == 'l' as int { res := IsLower(c); }
      else if l == 'p' as int { res := IsPunct(c); }
      else if l == 's' as int { res := IsSpace(c); }
      else if l == 'u' as int { res := IsUpper(c); }
      else if l == 'w' as int { res := IsAlnum(c); }
      else if l == 'x' as int { res := IsXDigit(c); }
      else if l == 'z' as int { res := c == 0; }
      else { return cl == c; }
      return if IsLower(cl) then res else !res;
    }

    /** Whether the character is in the set between the bracket at `p0` and the one at `ec`. */
    method MatchBracketClass(c: byte, p0: nat, ec: nat) returns (b: bool)
      requires p0 < ec
      ensures b == Has(BracketSet(pat, p0, ec), c)
    {
      hide SomeHas, SetItems, EscapeHas;
      var sig, p := true, p0;
      if At(pat, p + 1) == '^' as int {
        sig := false;
        p := p + 1;
      }
      ghost var q := p + 1;
      p := p + 1;
      while p < ec
        invariant p >= q && SomeHas(SetItems(pat, p, ec), c) == SomeHas(SetItems(pat, q, ec), c)
        decreases ec - p
      {
        SetStep(pat, p, ec, c);
        if At(pat, p) == ESC {
          p := p + 1;
          var m := MatchClass(c, At(pat, p));
          if m {
            return sig;
          }
        } else if At(pat, p + 1) == '-' as int && p + 2 < ec {
          p := p + 2;
          if At(pat, p - 2) <= c <= At(pat, p) {
            return sig;
          }
        } else if At(pat, p) == c {
          return sig;
        }
        p := p + 1;
      }
      SetEnd(pat, p, ec, c);
      return !sig;
    }

    method SingleMatch(s: nat, p: nat, ep: nat) returns (b: bool)
      requires p < ep <= |pat| && ClassEnd(pat, p) == EndAt(ep)
      ensures b == HasAt(SetAt(pat, p, ep), src, s)
    {
      if s >= |src| {
        return false;
      }
      var c := src[s];
      if pat[p] == '.' as int {
        return true;
      } else if pat[p] == ESC {
        b := MatchClass(c, At(pat, p + 1));
      } else if pat[p] == '[' as int {
        b := MatchBracketClass(c, p, ep - 1);
      } else {
        return pat[p] == c;
      }
    }

    /** The end of the balanced text at `s`, or -1. */
    method MatchBalance(s: nat, p: nat) returns (e: int)
      requires p + 1 < |pat|
      ensures e == BalanceEnd(src, s, pat[p], pat[p + 1])
    {
      if At(src, s) != pat[p] {
        return -1;
      }
      var b, c := pat[p], pat[p + 1];
      var cont := 1;
      var i := s + 1;
      while i < |src|
        invariant cont >= 1 && NestingEnd(src, i, b, c, cont) == NestingEnd(src, s + 1, b, c, 1)
        decreases |src| - i
      {
        if src[i] == c {
          cont := cont - 1;
          if cont == 0 {
            return i + 1;
          }
        } else if src[i] == b {
          cont := cont + 1;
        }
        i := i + 1;
      }
      return -1;
    }

    method CaptureToClose() returns (l: int)
      requires Valid()
      ensures l == LastOpen(Live())
    {
      l := level - 1;
      while l >= 0
        invariant -1 <= l < level && LastOpen(capture[..l + 1]) == LastOpen(Live())
      {
        if capture[l].Unfinished? {
          return;
        }
        assert capture[..l + 1][..l] == capture[..l];
        l := l - 1;
      }
    }

    // ----- matching -----

    /** The matcher took the first of the ways, or gave up because of its depth, which is not enough for the pattern. */
    twostate predicate Agrees(ways: seq<Way>, r: Result, p: nat)
      requires old(Valid())
      reads this, capture
    {
      && Valid() && (r.Matched? || r.NoMatch? ==> matchdepth == old(matchdepth))
      && ((r == TooComplex && old(matchdepth) <= |pat| - p) || Takes(ways, r, old(Live()), Live()))
    }

    method MaxExpand(s: nat, p: nat, ep: nat) returns (r: Result)
      requires Valid() && matchdepth >= 0 && p < ep < |pat| && ClassEnd(pat, p) == EndAt(ep)
      modifies this`level, this`matchdepth, capture
      ensures Agrees(Greedy(src, SetAt(pat, p, ep), Parse(pat, ep + 1), s, old(Live())), r, ep + 1)
      decreases |pat| - ep, 4
    {
      hide Ways, Parse, Greedy, SetAt, ClassEnd, HasAt;
      ghost var set_, rest, caps := SetAt(pat, p, ep), Parse(pat, ep + 1), Live();
      var i: int := 0;
      while true
        invariant i >= 0 && (forall j :: s <= j < s + i ==> HasAt(set_, src, j)) && unchanged(this) &&
                  unchanged(capture) && (i > 0 ==> s + i <= |src|)
        decreases |src| - (s + i)
      {
        var b := SingleMatch(s + i, p, ep);
        HasInside(set_, src, s + i);
        if !b { break; }
        i := i + 1;
      }
      ghost var m := i;
      GreedyDown(src, set_, rest, s, m, caps);
      while i >= 0
        invariant -1 <= i <= m && Valid() && Live() == caps && matchdepth == old(matchdepth)
        invariant Greedy(src, set_, rest, s, caps) == if i < 0 then [] else Down(src, rest, s, i, caps)
      {
        r := Match(s + i, ep + 1);
        if r != NoMatch {
          return;
        }
        i := i - 1;
      }
      return NoMatch;
    }

    method MinExpand(s0: nat, p: nat, ep: nat) returns (r: Result)
      requires Valid() && matchdepth >= 0 && p < ep < |pat| && ClassEnd(pat, p) == EndAt(ep)
      modifies this`level, this`matchdepth, capture
      ensures Agrees(Reluctant(src, SetAt(pat, p, ep), Parse(pat, ep + 1), s0, old(Live())), r, ep + 1)
      decreases |pat| - ep, 4
    {
      hide Ways, Parse, SetAt, ClassEnd, HasAt;
      ghost var set_, rest, caps := SetAt(pat, p, ep), Parse(pat, ep + 1), Live();
      var s := s0;
      while true
        invariant Valid() && Live() == caps && matchdepth == old(matchdepth)
        invariant Reluctant(src, set_, rest, s, caps) == Reluctant(src, set_, rest, s0, caps)
        decreases |src| - s
      {
        r := Match(s, ep + 1);
        if r != NoMatch {
          return;
        }
        var b := SingleMatch(s, p, ep);
        HasInside(set_, src, s);
        if !b {
          return NoMatch;
        }
        s := s + 1;
      }
    }

    method StartCapture(s: nat, p: nat, what: Capture) returns (r: Result)
      requires Valid() && matchdepth >= 0 && p <= |pat|
      modifies this`level, this`matchdepth, capture
      ensures Agrees(CaptureWays(src, Parse(pat, p), s, old(Live()), what), r, p)
      decreases |pat| - p, 4
    {
      hide Ways, Parse;
      if level >= MAXCAPTURES {
        return Failed(TooManyCaptures);
      }
      ghost var caps := Live();
      capture[level] := what;
      level := level + 1;
      assert Live() == caps + [what];
      r := Match(s, p);
      if r == NoMatch {
        level := level - 1;
        assert Live() == (caps + [what])[..|caps|];
      }
    }

    method EndCapture(s: nat, p: nat) returns (r: Result)
      requires Valid() && matchdepth >= 0 && p <= |pat|
      modifies this`level, this`matchdepth, capture
      ensures Agrees(ItemWays(src, CloseCapture, Parse(pat, p), s, old(Live())), r, p)
      decreases |pat| - p, 4
    {
      hide Ways, Parse;
      var l := CaptureToClose();
      if l < 0 {
        return Failed(InvalidPatternCapture);
      }
      ghost var caps := Live();
      var init := capture[l].init;
      capture[l] := Close(capture[l], s);
      assert Live() == caps[l := Close(caps[l], s)];
      r := Match(s, p);
      if r == NoMatch {
        capture[l] := Unfinished(init);
        assert Live() == caps;
      }
    }

    method MatchCapture(s: nat, digit: byte) returns (r: Result)
      requires Valid()
      ensures !r.TooComplex?
      ensures forall rest :: ItemWays(src, Back(digit), rest, s, Live()) == Resumed(src, rest, r, Live())
    {
      var l := digit - '1' as int;
      if l < 0 || l >= level || capture[l].Unfinished? {
        return Failed(InvalidCaptureIndex);
      }
      if Repeats(src, s, capture[l]) {
        return Matched(s + capture[l].len);
      }
      return NoMatch;
    }

    /** Matches the pattern from `p0` on at `s0`. */
    method Match(s0: nat, p0: nat) returns (r: Result)
      requires Valid() && matchdepth >= 0 && p0 <= |pat|
      modifies this`level, this`matchdepth, capture
      ensures Agrees(Ways(src, Parse(pat, p0), s0, old(Live())), r, p0)
      decreases |pat| - p0, 3
    {
      hide Parse, ItemWays;
      if matchdepth == 0 {
        return TooComplex;
      }
      matchdepth := matchdepth - 1;
      var s, p := s0, p0;
      ghost var caps := Live();
      while p != |pat|
        invariant p0 <= p <= |pat| && Valid() && Live() == caps && matchdepth == old(matchdepth) - 1
        invariant Ways(src, Parse(pat, p), s, caps) == Ways(src, Parse(pat, p0), s0, caps)
        decreases |pat| - p
      {
        var step := MatchItem(s, p);
        match step {
          case Goto(s', p') => s, p := s', p';
          case Stop(res) =>
            if res.Matched? || res.NoMatch? { matchdepth := matchdepth + 1; }
            return res;
        }
      }
      NoItems(src, pat, s, caps);
      matchdepth := matchdepth + 1;
      return Matched(s);
    }

    /** Matches the item at `p`, with all that follows unless that is left to be done from another place. */
    method MatchItem(s: nat, p: nat) returns (step: Step)
      requires Valid() && matchdepth >= 0 && p < |pat|
      modifies this`level, this`matchdepth, capture
      ensures step.Stop? ==> Agrees(Ways(src, Parse(pat, p), s, old(Live())), step.r, p + 1)
      ensures step.Goto? ==> Continues(step.s, step.p, s, p)
      decreases |pat| - p, 2
    {
      hide ItemWays, Ways, ClassEnd, SetAt, ParseChars;
      ghost var caps := Live();
      WaysFirst(src, pat, p, s, caps);
      var c, c1 := pat[p], At(pat, p + 1);
      if c == '(' as int {
        CaptureItems(src, Parse(pat, if c1 == ')' as int then p + 2 else p + 1), s, caps);
        var r;
        if c1 == ')' as int {
          r := StartCapture(s, p + 2, Position(s));
        } else {
          r := StartCapture(s, p + 1, Unfinished(s));
        }
        step := Stop(r);
      } else if c == ')' as int {
        var r := EndCapture(s, p + 1);
        step := Stop(r);
      } else if c == '$' as int && p + 1 == |pat| {
        EndItems(src, Parse(pat, p)[1..], s, caps);
        step := Stop(if s == |src| then Matched(s) else NoMatch);
      } else if c == ESC && c1 == 'b' as int {
        if p + 3 >= |pat| {
          MalformedItem(src, MissingBalanceArguments, Parse(pat, p)[1..], s, caps);
          return Stop(Failed(MissingBalanceArguments));
        }
        var e := MatchBalance(s, p + 2);
        BalanceItem(src, pat[p + 2], pat[p + 3], Parse(pat, p + 4), s, caps);
        step := if e >= 0 then Goto(e, p + 4) else Stop(NoMatch);
      } else if c == ESC && c1 == 'f' as int {
        step := MatchFrontier(s, p);
      } else if c == ESC && IsDigit(c1) {
        BackItem(src, c1, Parse(pat, p + 2), s, caps);
        var r := MatchCapture(s, c1);
        step := if r.Matched? then Goto(r.end, p + 2) else Stop(r);
      } else {
        step := MatchDefault(s, p);
      }
    }

    method MatchFrontier(s: nat, p: nat) returns (step: Step)
      requires Valid() && p + 1 < |pat| && pat[p] == ESC && pat[p + 1] == 'f' as int
      modifies {}
      ensures step.Stop? ==> Agrees(Ways(src, Parse(pat, p), s, old(Live())), step.r, p + 1)
      ensures step.Goto? ==> Continues(step.s, step.p, s, p)
    {
      hide ItemWays, Ways, ClassEnd, BracketSet, Has;
      ghost var caps := Live();
      WaysFirst(src, pat, p, s, caps);
      if At(pat, p + 2) != '[' as int {
        MalformedItem(src, MissingFrontierSet, Parse(pat, p)[1..], s, caps);
        return Stop(Failed(MissingFrontierSet));
      }
      var ep := FindClassEnd(p + 2);
      if ep.EndError? {
        MalformedItem(src, ep.error, Parse(pat, p)[1..], s, caps);
        return Stop(Failed(ep.error));
      }
      FrontierItem(src, BracketSet(pat, p + 2, ep.pos - 1), Parse(pat, ep.pos), s, caps);
      BracketEndAfter(pat, p + 2);
      var previous := if s == 0 then 0 else At(src, s - 1);
      var before := MatchBracketClass(previous, p + 2, ep.pos - 1);
      var here := MatchBracketClass(At(src, s), p + 2, ep.pos - 1);
      step := if !before && here then Goto(s, ep.pos) else Stop(NoMatch);
    }

    /** A single-character item with an optional suffix. */
    method MatchDefault(s: nat, p: nat) returns (step: Step)
      requires Valid() && matchdepth >= 0 && p < |pat| && Parse(pat, p) == ParseChars(pat, p)
      modifies this`level, this`matchdepth, capture
      ensures step.Stop? ==> Agrees(Ways(src, Parse(pat, p), s, old(Live())), step.r, p + 1)
      ensures step.Goto? ==> Continues(step.s, step.p, s, p)
      decreases |pat| - p, 1
    {
      hide ItemWays, Ways, ClassEnd, SetAt, Parse, Greedy, Reluctant, HasAt;
      ghost var caps := Live();
      WaysFirst(src, pat, p, s, caps);
      var e := FindClassEnd(p);
      if e.EndError? {
        MalformedItem(src, e.error, Parse(pat, p)[1..], s, caps);
        return Stop(Failed(e.error));
      }
      var ep := e.pos;
      var suffix := SuffixOf(At(pat, ep));
      ghost var set_, rest := SetAt(pat, p, ep), Parse(pat, if suffix.Once? then ep else ep + 1);
      CharsItem(src, set_, suffix, rest, s, caps);
      var b := SingleMatch(s, p, ep);
      if !b {
        return if suffix.Star? || suffix.Optional? || suffix.Lazy? then Goto(s, ep + 1) else Stop(NoMatch);
      }
      match suffix {
        case Optional =>
          var r := Match(s + 1, ep + 1);
          step := if r != NoMatch then Stop(r) else Goto(s, ep + 1);
        case Plus =>
          var r := MaxExpand(s + 1, p, ep);
          step := Stop(r);
        case Star =>
          var r := MaxExpand(s, p, ep);
          step := Stop(r);
        case Lazy =>
          var r := MinExpand(s, p, ep);
          step := Stop(r);
        case Once =>
          step := Goto(s + 1, ep);
      }
    }

    /** Nothing is decided yet: the ways are those from another place in the pattern. */
    twostate predicate Continues(s': nat, p': nat, s: nat, p: nat)
      requires old(Valid()) && p <= |pat|
      reads this, capture
    {
      && p < p' <= |pat| && Valid() && Live() == old(Live()) && matchdepth == old(matchdepth)
      && Ways(src, Parse(pat, p'), s', Live()) == Ways(src, Parse(pat, p), s, Live())
    }
  }

  datatype Step = Goto(s: nat, p: nat) | Stop(r: Result)

  lemma HasInside(set_: CharSet, src: seq<byte>, s: nat)
    ensures HasAt(set_, src, s) ==> s < |src|
  {}

  lemma NoItems(src: seq<byte>, pat: seq<byte>, s: nat, caps: seq<Capture>)
    ensures Ways(src, Parse(pat, |pat|), s, caps) == [Match(s, caps)]
  {}

  lemma WaysFirst(src: seq<byte>, pat: seq<byte>, p: nat, s: nat, caps: seq<Capture>)
    requires p < |pat|
    ensures Parse(pat, p) != [] && Ways(src, Parse(pat, p), s, caps) ==
            ItemWays(src, Parse(pat, p)[0], Parse(pat, p)[1..], s, caps)
  {
    hide ItemWays, ClassEnd, BracketSet, SetAt;
  }

  lemma CaptureItems(src: seq<byte>, rest: seq<Item>, s: nat, caps: seq<Capture>)
    ensures ItemWays(src, OpenPosition, rest, s, caps) == CaptureWays(src, rest, s, caps, Position(s))
    ensures ItemWays(src, OpenCapture, rest, s, caps) == CaptureWays(src, rest, s, caps, Unfinished(s))
  {}

  lemma EndItems(src: seq<byte>, rest: seq<Item>, s: nat, caps: seq<Capture>)
    requires rest == []
    ensures ItemWays(src, EndAnchor, rest, s, caps) == if s == |src| then [Match(s, caps)] else []
  {}

  lemma MalformedItem(src: seq<byte>, error: Error, rest: seq<Item>, s: nat, caps: seq<Capture>)
    ensures ItemWays(src, Malformed(error), rest, s, caps) == [Fails(error)]
  {}

  lemma BalanceItem(src: seq<byte>, open: byte, close: byte, rest: seq<Item>, s: nat, caps: seq<Capture>)
    ensures var e := BalanceEnd(src, s, open, close);
            ItemWays(src, Balance(open, close), rest, s, caps) == if e >= 0 then Ways(src, rest, e, caps) else []
  {}

  lemma FrontierItem(src: seq<byte>, set_: CharSet, rest: seq<Item>, s: nat, caps: seq<Capture>)
    ensures ItemWays(src, Frontier(set_), rest, s, caps) == if AtFrontier(set_, src, s) then Ways(src, rest, s, caps)
            else []
  {}

  lemma BackItem(src: seq<byte>, digit: byte, rest: seq<Item>, s: nat, caps: seq<Capture>)
    ensures var l := digit - '1' as int;
            ItemWays(src, Back(digit), rest, s, caps) ==
            if l < 0 || l >= |caps| || caps[l].Unfinished? then [Fails(InvalidCaptureIndex)]
            else if Repeats(src, s, caps[l]) then Ways(src, rest, s + caps[l].len, caps) else []
  {}

  lemma CharsItem(src: seq<byte>, set_: CharSet, suffix: Suffix, rest: seq<Item>, s: nat, caps: seq<Capture>)
    ensures ItemWays(src, Chars(set_, suffix), rest, s, caps) ==
            match suffix
            case Once => if HasAt(set_, src, s) then Ways(src, rest, s + 1, caps) else []
            case Optional =>
              (if HasAt(set_, src, s) then Ways(src, rest, s + 1, caps) else []) + Ways(src, rest, s, caps)
            case Star => Greedy(src, set_, rest, s, caps)
            case Plus => if HasAt(set_, src, s) then Greedy(src, set_, rest, s + 1, caps) else []
            case Lazy => Reluctant(src, set_, rest, s, caps)
    ensures !HasAt(set_, src, s) ==>
            Greedy(src, set_, rest, s, caps) == Reluctant(src, set_, rest, s, caps) == Ways(src, rest, s, caps)
  {}

  lemma BracketEndAfter(pat: seq<byte>, p: nat)
    requires p < |pat| && pat[p] == '[' as int && ClassEnd(pat, p).EndAt?
    ensures ClassEnd(pat, p).pos > p + 2
  {}
}
