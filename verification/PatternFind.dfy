/** `string.find` and `string.match`: the leftmost match, and the shortcut for patterns without special characters. */
module PatternFind {
  import opened Bytes
  import opened PatternSpec
  import opened PatternMatcher

  datatype Search = NotFound | Found(start: nat, end: nat, caps: seq<Capture>) | SearchFails(error: Error)
    | UnfinishedCapture | TooDeep

  predicate IsSpecial(c: byte)
  {
    c == '^' as int || c == '$' as int || c == '*' as int || c == '+' as int || c == '?' as int || c == '.' as int
    || c == '(' as int || c == '[' as int || c == '%' as int || c == '-' as int
  }

  predicate HasSpecials(pat: seq<byte>, p: nat) { exists i :: p <= i < |pat| && IsSpecial(pat[i]) }

  predicate OccursAt(src: seq<byte>, s: nat, text: seq<byte>) { s + |text| <= |src| && src[s..s + |text|] == text }

  /** Searches pieces of the pattern, each up to the next zero. */
  method NoSpecials(pat: seq<byte>) returns (b: bool)
    ensures b == !HasSpecials(pat, 0)
  {
    var upto := 0;
    while true
      invariant upto <= |pat| && forall i :: 0 <= i < upto ==> !IsSpecial(pat[i])
      decreases |pat| - upto
    {
      var i := upto;
      while i < |pat| && pat[i] != 0
        invariant upto <= i <= |pat| && forall j :: 0 <= j < i ==> !IsSpecial(pat[j])
      {
        if IsSpecial(pat[i]) {
          return false;
        }
        i := i + 1;
      }
      upto := i + 1;
      if upto > |pat| {
        return true;
      }
    }
  }

  /** The first occurrence of a text from `s0` on, or -1; only its first character is sought everywhere. */
  method FindText(src: seq<byte>, s0: nat, text: seq<byte>) returns (at: int)
    requires s0 <= |src|
    ensures at == -1 ==> forall s :: s >= s0 ==> !OccursAt(src, s, text)
    ensures at != -1 ==> s0 <= at && OccursAt(src, at, text) && forall s :: s0 <= s < at ==> !OccursAt(src, s, text)
  {
    if text == [] {
      return s0;
    } else if |text| > |src| - s0 {
      return -1;
    }
    var last := |src| - |text|;
    var s := s0;
    while s <= last
      invariant s0 <= s <= last + 1 && forall t :: s0 <= t < s ==> !OccursAt(src, t, text)
    {
      OccursFirst(src, s, text);
      if src[s] == text[0] {
        if src[s + 1..s + |text|] == text[1..] {
          return s;
        }
      }
      s := s + 1;
    }
    return -1;
  }

  /** A position counted from the end if it is negative. */
  function PosRelat(pos: int, len: nat): int
  {
    if pos >= 0 then pos else if -pos > len then 0 else len + pos + 1
  }

  /** What a pattern finds at `s`, and nothing before. */
  ghost predicate Leftmost(src: seq<byte>, items: seq<Item>, s0: nat, anchor: bool, r: Search)
  {
    match r
    case NotFound => forall s :: s0 <= s <= (if anchor then s0 else |src|) ==> Ways(src, items, s, []) == []
    case Found(s, e, caps) =>
      && FirstAt(src, items, s0, anchor, s) && Ways(src, items, s, [])[0] == Match(e, caps) && LastOpen(caps) < 0
    case SearchFails(error) =>
      exists s :: FirstAt(src, items, s0, anchor, s) && Ways(src, items, s, [])[0] == Fails(error)
    case UnfinishedCapture =>
      exists s, e, caps :: FirstAt(src, items, s0, anchor, s) && Ways(src, items, s, [])[0] == Match(e, caps) &&
        LastOpen(caps) >= 0
    case TooDeep => true
  }

  ghost predicate FirstAt(src: seq<byte>, items: seq<Item>, s0: nat, anchor: bool, s: nat)
  {
    && s0 <= s <= (if anchor then s0 else |src|) && Ways(src, items, s, []) != []
    && forall t :: s0 <= t < s ==> Ways(src, items, t, []) == []
  }

  /** The first place of a text from `s0` on. */
  ghost predicate FirstPlace(src: seq<byte>, text: seq<byte>, s0: nat, r: Search)
  {
    if r.NotFound? then forall s :: s >= s0 ==> !OccursAt(src, s, text)
    else
      && r.Found? && r.caps == [] && s0 <= r.start && r.end == r.start + |text| && OccursAt(src, r.start, text)
      && forall t :: s0 <= t < r.start ==> !OccursAt(src, t, text)
  }

  /** `plain` asks for no pattern at all. */
  method FindAux(src: seq<byte>, pat: seq<byte>, pos: int, find: bool, plain: bool) returns (r: Search)
    ensures var init := PosRelat(pos, |src|);
      var s0 := if init < 1 then 0 else init - 1;
      var anchor := pat != [] && pat[0] == '^' as int;
      if s0 > |src| then r == NotFound
      else if find && (plain || !HasSpecials(pat, 0)) then FirstPlace(src, pat, s0, r)
      else Leftmost(src, Parse(if anchor then pat[1..] else pat, 0), s0, anchor, r)
    ensures |pat| < MAXCCALLS ==> r != TooDeep
  {
    var init := PosRelat(pos, |src|);
    if init < 1 {
      init := 1;
    } else if init > |src| + 1 {
      return NotFound;
    }
    var simple := NoSpecials(pat);
    if find && (plain || simple) {
      var at := FindText(src, init - 1, pat);
      return if at == -1 then NotFound else Found(at, at + |pat|, []);
    }
    var anchor := pat != [] && pat[0] == '^' as int;
    r := Scan(src, if anchor then pat[1..] else pat, init - 1, anchor);
  }

  /** Tries the pattern at every position in turn, or just at the first. */
  method Scan(src: seq<byte>, p: seq<byte>, s0: nat, anchor: bool) returns (r: Search)
    requires s0 <= |src|
    ensures Leftmost(src, Parse(p, 0), s0, anchor, r) && (|p| < MAXCCALLS ==> r != TooDeep)
  {
    hide Parse, Ways;
    var ms := new MatchState(src, p);
    ghost var items := Parse(p, 0);
    var s1 := s0;
    while true
      invariant s0 <= s1 <= |src| && (anchor ==> s1 == s0) && ms.src == src && ms.pat == p
      invariant ms.Valid() && ms.matchdepth == MAXCCALLS && fresh(ms) && fresh(ms.capture)
      invariant forall t :: s0 <= t < s1 ==> Ways(src, items, t, []) == []
      decreases |src| - s1
    {
      ms.level := 0;
      assert ms.Live() == [];
      var res := ms.Match(s1, 0);
      if res.Matched? {
        var caps := ms.capture[..ms.level];
        assert FirstAt(src, items, s0, anchor, s1);
        return if LastOpen(caps) >= 0 then UnfinishedCapture else Found(s1, res.end, caps);
      } else if res.Failed? {
        assert FirstAt(src, items, s0, anchor, s1);
        return SearchFails(res.error);
      } else if res.TooComplex? {
        return TooDeep;
      }
      if s1 >= |src| || anchor {
        return NotFound;
      }
      s1 := s1 + 1;
    }
  }

  // ----- the shortcut -----

  /** A character that is not special and closes no capture stands for itself. */
  lemma PlainFirst(pat: seq<byte>, p: nat)
    requires p < |pat| && !HasSpecials(pat, p)
    ensures Parse(pat, p) == [if pat[p] == ')' as int then CloseCapture else Chars(Single(One(pat[p])), Once)] +
            Parse(pat, p + 1)
  {
    assert !IsSpecial(pat[p]) && (p + 1 < |pat| ==> !IsSpecial(pat[p + 1]));
  }

  /** Without special characters and closing parentheses, a pattern matches just its own text. */
  lemma {:induction false} PlainWays(src: seq<byte>, pat: seq<byte>, p: nat, s: nat)
    requires p <= |pat| && s <= |src| && !HasSpecials(pat, p) && ')' as int !in pat[p..]
    ensures Ways(src, Parse(pat, p), s, []) == if OccursAt(src, s, pat[p..]) then [Match(s + |pat| - p, [])] else []
    decreases |pat| - p
  {
    hide Parse, HasAt;
    if p == |pat| {
      NoItems(src, pat, s, []);
      assert src[s..s] == pat[p..];
    } else {
      assert pat[p] in pat[p..] && pat[p + 1..] == pat[p..][1..];
      PlainFirst(pat, p);
      WaysFirst(src, pat, p, s, []);
      CharsItem(src, Single(One(pat[p])), Once, Parse(pat, p + 1), s, []);
      if s < |src| { PlainWays(src, pat, p + 1, s + 1); }
      OccursFirst(src, s, pat[p..]);
      OnePlain(pat[p], src, s);
    }
  }

  lemma OnePlain(c: byte, src: seq<byte>, s: nat)
    ensures HasAt(Single(One(c)), src, s) <==> s < |src| && src[s] == c
  {}

  lemma OccursFirst(src: seq<byte>, s: nat, text: seq<byte>)
    requires text != []
    ensures OccursAt(src, s, text) <==> s < |src| && src[s] == text[0] && OccursAt(src, s + 1, text[1..])
  {
    if s + |text| <= |src| {
      assert src[s..s + |text|] == [src[s]] + src[s + 1..s + |text|];
      assert text == [text[0]] + text[1..];
    }
  }

  /** Up to its first closing parenthesis, such a pattern matches its own text, and there it is in error. */
  lemma {:induction false} ClosingFails(src: seq<byte>, pat: seq<byte>, p: nat, s: nat)
    requires p <= |pat| && s <= |src| && !HasSpecials(pat, p) && OccursAt(src, s, pat[p..]) && ')' as int in pat[p..]
    ensures Ways(src, Parse(pat, p), s, []) == [Fails(InvalidPatternCapture)]
    decreases |pat| - p
  {
    hide Parse, HasAt;
    PlainFirst(pat, p);
    WaysFirst(src, pat, p, s, []);
    assert pat[p + 1..] == pat[p..][1..];
    if pat[p] == ')' as int {
      CloseNone(src, Parse(pat, p + 1), s);
    } else {
      OccursFirst(src, s, pat[p..]);
      CharsItem(src, Single(One(pat[p])), Once, Parse(pat, p + 1), s, []);
      OnePlain(pat[p], src, s);
      ClosingFails(src, pat, p + 1, s + 1);
    }
  }

  lemma CloseNone(src: seq<byte>, rest: seq<Item>, s: nat)
    ensures ItemWays(src, CloseCapture, rest, s, []) == [Fails(InvalidPatternCapture)]
  {}

  /** What the plain search finds at a position, as ways to match. */
  ghost function PlainSearch(src: seq<byte>, text: seq<byte>, s: nat): seq<Way>
  {
    if OccursAt(src, s, text) then [Match(s + |text|, [])] else []
  }

  /** The shortcut gives what matching would give, for every subject, exactly when the pattern closes no capture. */
  lemma ShortcutAgrees(pat: seq<byte>)
    requires !HasSpecials(pat, 0)
    ensures (forall src: seq<byte>, s: nat :: s <= |src| ==>
            Ways(src, Parse(pat, 0), s, []) == PlainSearch(src, pat, s)) <==> ')' as int !in pat
  {
    assert pat[0..] == pat;
    if ')' as int !in pat {
      forall src: seq<byte>, s: nat | s <= |src| ensures Ways(src, Parse(pat, 0), s, []) == PlainSearch(src, pat, s) {
        PlainWays(src, pat, 0, s);
      }
    } else {
      assert pat[0..0 + |pat|] == pat;
      ClosingFails(pat, pat, 0, 0);
      assert Ways(pat, Parse(pat, 0), 0, []) != PlainSearch(pat, pat, 0);
    }
  }

  /** Searching for a closing parenthesis finds it, but matching it is an error. */
  lemma ShortcutDisagrees()
    ensures var pat: seq<byte> := [')' as int];
            !HasSpecials(pat, 0) && PlainSearch(pat, pat, 0) == [Match(1, [])] &&
              Ways(pat, Parse(pat, 0), 0, []) == [Fails(InvalidPatternCapture)]
  {
    var pat: seq<byte> := [')' as int];
    assert pat[0..] == pat && pat[0..0 + |pat|] == pat;
    ClosingFails(pat, pat, 0, 0);
  }
}
