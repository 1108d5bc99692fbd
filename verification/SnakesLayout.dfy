// The generator of snakes and ladders, and the two validators that check a board's links.
module SnakesLayout {
  import opened Wrappers
  import Draws

  datatype Link = Link(start: int, end: int)
  datatype Kind = Snake | Ladder

  const MODULUS: nat := 0x1_0000_0000
  const TRIES: nat := 80

  // ------------------------------------------------------------------ the arguments

  function Trunc(value: real): int {
    if value >= 0.0 then value.Floor else -((-value).Floor)
  }

  // Towards zero, by less than one.
  lemma TruncMeans(value: real)
    ensures value >= 0.0 ==> 0 <= Trunc(value) && Trunc(value) as real <= value < (Trunc(value) + 1) as real
    ensures value <= 0.0 ==> Trunc(value) <= 0 && (Trunc(value) - 1) as real < value <= Trunc(value) as real
  {
  }

  // None stands for a number that is not finite.
  function ClampInt(value: Option<real>, min: int, max: int): (r: int)
    requires min <= max
    ensures min <= r <= max
    ensures value.Some? && min as real <= value.value <= max as real ==> r == Trunc(value.value)
    ensures value.None? || value.value < min as real ==> r == min
    ensures value.Some? && value.value > max as real ==> r == max
  {
    var normalized := if value.Some? then Trunc(value.value) else min;
    var low := if normalized < max then normalized else max;
    if min > low then min else low
  }

  // As many snakes as ladders fit beside the first and the last cell.
  function MaxFeatureCount(width: nat, height: nat): (r: nat)
    ensures width * height >= 2 ==> r + r <= width * height - 2 < r + r + 2
    ensures width * height < 2 ==> r == 0
  {
    var half := (width * height - 2) / 2;
    if half > 0 then half else 0
  }

  // ------------------------------------------------------------------- good layouts

  predicate Fits(k: Kind, l: Link, cells: int) {
    && 2 <= l.start <= cells - 1
    && 1 <= l.end <= cells
    && if k.Snake? then l.end < l.start else l.start < l.end
  }

  function Starts(links: seq<Link>): (s: seq<int>)
    ensures |s| == |links| && forall i :: 0 <= i < |links| ==> s[i] == links[i].start
  {
    seq(|links|, i requires 0 <= i < |links| => links[i].start)
  }

  ghost predicate NoRepeats(s: seq<int>) {
    forall i, j :: 0 <= i < j < |s| ==> s[i] != s[j]
  }

  ghost predicate GoodLayout(snakes: seq<Link>, ladders: seq<Link>, cells: int) {
    && (forall i :: 0 <= i < |snakes| ==> Fits(Snake, snakes[i], cells))
    && (forall i :: 0 <= i < |ladders| ==> Fits(Ladder, ladders[i], cells))
    && NoRepeats(Starts(snakes) + Starts(ladders))
  }

  // ------------------------------------------------------------------- free cells

  // The cells 2..cells - 1 that no link starts on, in order.
  function Candidates(cells: int, origins: set<int>): seq<int> {
    Upto(cells - 1, origins)
  }

  function Upto(last: int, origins: set<int>): seq<int>
    decreases last
  {
    if last < 2 then []
    else Upto(last - 1, origins) + if last in origins then [] else [last]
  }

  lemma {:induction false} UptoMeans(last: int, origins: set<int>)
    ensures forall c :: c in Upto(last, origins) <==> 2 <= c <= last && c !in origins
    decreases last
  {
    if last >= 2 {
      UptoMeans(last - 1, origins);
    }
  }

  ghost predicate Rises(s: seq<int>) {
    forall i, j :: 0 <= i < j < |s| ==> s[i] < s[j]
  }

  lemma {:induction false} UptoRises(last: int, origins: set<int>)
    ensures Rises(Upto(last, origins))
    decreases last
  {
    if last >= 2 {
      var front := Upto(last - 1, origins);
      UptoRises(last - 1, origins);
      UptoMeans(last - 1, origins);
      assert forall i :: 0 <= i < |front| ==> front[i] in front;
    }
  }

  // Pigeonhole: each origin takes away at most one cell.
  lemma {:induction false} UptoCount(last: int, origins: set<int>)
    requires last >= 1
    ensures |Upto(last, origins)| + |origins| >= last - 1
    decreases last
  {
    if last >= 2 {
      var rest := origins - {last};
      UptoCount(last - 1, rest);
      UptoIgnores(last - 1, last, origins);
    }
  }

  lemma {:induction false} UptoIgnores(last: int, c: int, origins: set<int>)
    requires last < c
    ensures Upto(last, origins) == Upto(last, origins - {c})
    decreases last
  {
    if last >= 2 {
      UptoIgnores(last - 1, c, origins);
    }
  }

  // ------------------------------------------------------------------- the generator

  function NextState(state: nat): nat {
    (state * 1664525 + 1013904223) % MODULUS
  }

  // floor(state / 2^32 * n).
  function IndexOf(state: nat, n: nat): nat {
    state * n / MODULUS
  }

  lemma IndexIsInRange(state: nat, n: nat)
    requires state < MODULUS && n > 0
    ensures IndexOf(state, n) < n
  {
    var product := state * n;
    Draws.TimesGrows(state, MODULUS - 1, n);
    assert product <= 0xFFFF_FFFF * n;
  }

  // The start is a drawn free cell, the end a drawn cell below or above it.
  function LinkOf(state: nat, origins: set<int>, cells: int, kind: Kind): (Option<Link>, nat) {
    var candidates := Candidates(cells, origins);
    if candidates == [] then (None, state)
    else
      var s1 := NextState(state);
      var s2 := NextState(s1);
      IndexIsInRange(s1, |candidates|);
      var start := candidates[IndexOf(s1, |candidates|)];
      UptoMeans(cells - 1, origins);
      assert start in candidates;
      var end := if kind == Snake then 1 + IndexOf(s2, start - 1) else start + 1 + IndexOf(s2, cells - start);
      (Some(Link(start, end)), s2)
  }

  // So many links, one after the other.
  function LinksOf(state: nat, origins: set<int>, cells: int, kind: Kind, count: nat): (seq<Link>, nat, set<int>) {
    if count == 0 then ([], state, origins)
    else
      var (links, s, used) := LinksOf(state, origins, cells, kind, count - 1);
      var (link, t) := LinkOf(s, used, cells, kind);
      if link.None? then (links, t, used) else (links + [link.value], t, used + {link.value.start})
  }

  function FirstState(seed: real): nat {
    var whole := Trunc(seed);
    if whole > 0 then whole else if whole < 0 then -whole else 1
  }

  // The state before a state: 4276115653 * 1664525 leaves 1 over the modulus.
  function PreviousState(state: nat): nat {
    ((state + MODULUS - 1013904223) * 4276115653) % MODULUS
  }

  lemma NextOfPrevious(state: nat)
    requires state < MODULUS
    ensures NextState(PreviousState(state)) == state && PreviousState(state) < MODULUS
  {
    var a := state + MODULUS - 1013904223;
    var k := a * 4276115653 / MODULUS;
    var previous := PreviousState(state);
    assert a * 4276115653 == previous + MODULUS * k;
    assert previous * 1664525 + 1013904223 == state + MODULUS * (1 + 1657219 * a - 1664525 * k);
  }

  lemma StateFor(k: nat, n: nat) returns (state: nat)
    requires k < n <= MODULUS
    ensures state < MODULUS && IndexOf(state, n) == k
  {
    state := (k * MODULUS + n - 1) / n;
    var rest := (k * MODULUS + n - 1) % n;
    assert state * n == k * MODULUS + n - 1 - rest;
    InRangeOf(state, k, n);
  }

  lemma InRangeOf(state: nat, k: nat, n: nat)
    requires k < n <= MODULUS && k * MODULUS <= state * n < (k + 1) * MODULUS
    ensures state < MODULUS && IndexOf(state, n) == k
  {
    if state >= MODULUS {
      Draws.TimesGrows(MODULUS, state, n);
    }
  }

  // Every free cell may be drawn as the start of the next link.
  lemma AnyStartIsDrawn(origins: set<int>, cells: int, kind: Kind, start: int) returns (state: nat)
    requires 2 <= start < cells <= MODULUS && start !in origins
    ensures LinkOf(state, origins, cells, kind).0.Some? && LinkOf(state, origins, cells, kind).0.value.start == start
  {
    var candidates := Candidates(cells, origins);
    UptoMeans(cells - 1, origins);
    UptoFits(cells - 1, origins);
    var k :| 0 <= k < |candidates| && candidates[k] == start;
    var drawn := StateFor(k, |candidates|);
    NextOfPrevious(drawn);
    state := PreviousState(drawn);
    hide NextState, PreviousState, IndexOf;
  }

  lemma {:induction false} UptoFits(last: int, origins: set<int>)
    ensures last >= 1 ==> |Upto(last, origins)| <= last - 1
    ensures last < 1 ==> Upto(last, origins) == []
    decreases last
  {
    if last >= 2 {
      UptoFits(last - 1, origins);
    }
  }

  // So may every end that the link's kind allows.
  lemma AnyEndIsDrawn(origins: set<int>, cells: int, kind: Kind, link: Link) returns (state: nat)
    requires Candidates(cells, origins) == [link.start] && cells <= MODULUS && Fits(kind, link, cells)
    ensures LinkOf(state, origins, cells, kind).0 == Some(link)
  {
    var drawn;
    if kind == Snake {
      drawn := StateFor(link.end - 1, link.start - 1);
    } else {
      drawn := StateFor(link.end - link.start - 1, cells - link.start);
    }
    NextOfPrevious(drawn);
    NextOfPrevious(PreviousState(drawn));
    state := PreviousState(PreviousState(drawn));
    IndexIsInRange(PreviousState(drawn), 1);
    hide NextState, PreviousState, IndexOf, Candidates;
  }

  class LinkMaker {
    var state: nat
    var origins: set<int>

    constructor (seed: real)
      ensures state == FirstState(seed) > 0 && origins == {}
    {
      var whole := Trunc(seed);
      state := if whole > 0 then whole else if whole < 0 then -whole else 1;
      origins := {};
    }

    method RandomIndex(n: nat) returns (k: nat)
      requires n > 0
      modifies this`state
      ensures state == NextState(old(state)) && k == IndexOf(state, n) < n
    {
      state := NextState(state);
      IndexIsInRange(state, n);
      return IndexOf(state, n);
    }

    method RandomInt(min: int, max: int) returns (k: int)
      requires min <= max
      modifies this`state
      ensures state == NextState(old(state)) && k == min + IndexOf(state, max - min + 1) <= max
    {
      var i := RandomIndex(max - min + 1);
      return min + i;
    }

    // None exactly when every inner cell already starts a link.
    method MakeLink(cells: int, kind: Kind) returns (link: Option<Link>)
      modifies this
      ensures (link, state) == LinkOf(old(state), old(origins), cells, kind)
      ensures link.None? <==> Candidates(cells, old(origins)) == []
      ensures link.None? ==> origins == old(origins)
      ensures link.Some? ==>
                && Fits(kind, link.value, cells)
                && link.value.start !in old(origins)
                && origins == old(origins) + {link.value.start}
    {
      var candidates := Candidates(cells, origins);
      UptoMeans(cells - 1, origins);
      hide NextState, IndexOf;
      var attempt := 0;
      link := None;
      while attempt < TRIES && candidates != [] && link == None
        invariant link.None? ==> attempt == 0 && origins == old(origins) && state == old(state)
        invariant link.Some? ==>
                    && candidates != [] && Fits(kind, link.value, cells)
                    && link.value.start !in old(origins)
                    && origins == old(origins) + {link.value.start}
                    && (link, state) == LinkOf(old(state), old(origins), cells, kind)
        decreases TRIES - attempt
      {
        var i := RandomIndex(|candidates|);
        var start := candidates[i];
        assert start in candidates;
        var end;
        if kind == Snake {
          end := RandomInt(1, start - 1);
        } else {
          end := RandomInt(start + 1, cells);
        }
        if start != end {
          origins := origins + {start};
          link := Some(Link(start, end));
        }
        attempt := attempt + 1;
      }
    }

    // `count` links; there is room for all of them.
    method MakeLinks(cells: int, count: nat, kind: Kind) returns (links: seq<Link>)
      requires count == 0 || |origins| + count <= cells - 2
      modifies this
      ensures |links| == count && Made(links, kind, cells, old(origins), origins)
      ensures (links, state, origins) == LinksOf(old(state), old(origins), cells, kind, count)
    {
      hide Made, LinkOf, Candidates;
      links := [];
      NoneMade(kind, cells, origins);
      for k := 0 to count
        invariant |links| == k && Made(links, kind, cells, old(origins), origins)
        invariant (links, state, origins) == LinksOf(old(state), old(origins), cells, kind, k)
      {
        RoomLeft(links, kind, cells, old(origins), origins);
        ghost var before := origins;
        var link := MakeLink(cells, kind);
        OneMoreMade(links, link.value, kind, cells, old(origins), before, origins);
        links := links + [link.value];
      }
    }
  }

  // The links made between two states of the set of origins.
  ghost predicate Made(links: seq<Link>, kind: Kind, cells: int, before: set<int>, after: set<int>) {
    && (forall i :: 0 <= i < |links| ==> Fits(kind, links[i], cells) && links[i].start !in before)
    && NoRepeats(Starts(links))
    && (forall x :: x in after <==> x in before || x in Starts(links))
    && |after| == |before| + |links|
  }

  lemma NoneMade(kind: Kind, cells: int, before: set<int>)
    ensures Made([], kind, cells, before, before)
  {
  }

  lemma OneMoreMade(links: seq<Link>, l: Link, kind: Kind, cells: int, before: set<int>, mid: set<int>, after: set<int>)
    requires Made(links, kind, cells, before, mid)
    requires Fits(kind, l, cells) && l.start !in mid && after == mid + {l.start}
    ensures Made(links + [l], kind, cells, before, after)
  {
    assert Starts(links + [l]) == Starts(links) + [l.start];
    RepeatsIn(Starts(links), [l.start]);
  }

  // With room left, some candidate is left.
  lemma RoomLeft(links: seq<Link>, kind: Kind, cells: int, before: set<int>, after: set<int>)
    requires Made(links, kind, cells, before, after) && |before| + |links| < cells - 2
    ensures Candidates(cells, after) != []
  {
    UptoCount(cells - 1, after);
  }

  lemma TwoLists(snakes: seq<Link>, ladders: seq<Link>, cells: int, mid: set<int>, after: set<int>)
    requires Made(snakes, Snake, cells, {}, mid) && Made(ladders, Ladder, cells, mid, after)
    ensures GoodLayout(snakes, ladders, cells)
  {
    RepeatsIn(Starts(snakes), Starts(ladders));
  }

  // Exactly the clamped number of snakes and ladders, whatever the size and the seed.
  method GenerateSnakeLadderLinks(width: nat, height: nat, snakeCount: Option<real>,
                                  ladderCount: Option<real>, seed: real)
    returns (snakes: seq<Link>, ladders: seq<Link>)
    ensures |snakes| == ClampInt(snakeCount, 0, MaxFeatureCount(width, height))
    ensures |ladders| == ClampInt(ladderCount, 0, MaxFeatureCount(width, height))
    ensures GoodLayout(snakes, ladders, width * height)
    ensures var made := LinksOf(FirstState(seed), {}, width * height, Snake, |snakes|);
            && snakes == made.0
            && ladders == LinksOf(made.1, made.2, width * height, Ladder, |ladders|).0
  {
    var maker := new LinkMaker(seed);
    var max := MaxFeatureCount(width, height);
    var cells := width * height;
    ghost var start := maker.origins;
    snakes := maker.MakeLinks(cells, ClampInt(snakeCount, 0, max), Snake);
    ghost var mid := maker.origins;
    ladders := maker.MakeLinks(cells, ClampInt(ladderCount, 0, max), Ladder);
    TwoLists(snakes, ladders, cells, mid, maker.origins);
  }

  // ------------------------------------------------------------------ the validators

  datatype Content = Content(width: int, height: int, start: int, end: int, snakes: seq<Link>, ladders: seq<Link>)

  // The server multiplies in 32 bits.
  function Wrap32(n: int): int {
    (n + 0x8000_0000) % 0x1_0000_0000 - 0x8000_0000
  }

  predicate Between(l: Link, cells: int) {
    1 <= l.start <= cells && 1 <= l.end <= cells
  }

  ghost predicate Directed(c: Content) {
    && (forall i :: 0 <= i < |c.snakes| ==> c.snakes[i].start > c.snakes[i].end)
    && (forall i :: 0 <= i < |c.ladders| ==> c.ladders[i].start < c.ladders[i].end)
    && NoRepeats(Starts(c.snakes) + Starts(c.ladders))
  }

  ghost predicate AllBetween(c: Content, cells: int) {
    && (forall i :: 0 <= i < |c.snakes| ==> Between(c.snakes[i], cells))
    && (forall i :: 0 <= i < |c.ladders| ==> Between(c.ladders[i], cells))
  }

  predicate AllPositive(c: Content) {
    && (forall i :: 0 <= i < |c.snakes| ==> c.snakes[i].start >= 1 && c.snakes[i].end >= 1)
    && (forall i :: 0 <= i < |c.ladders| ==> c.ladders[i].start >= 1 && c.ladders[i].end >= 1)
  }

  // Every number must fit 32 bits to be decoded at all.
  predicate Fits32(n: int) {
    -0x8000_0000 <= n < 0x8000_0000
  }

  predicate Decodes(c: Content) {
    && Fits32(c.width) && Fits32(c.height) && Fits32(c.start) && Fits32(c.end)
    && (forall i :: 0 <= i < |c.snakes| ==> Fits32(c.snakes[i].start) && Fits32(c.snakes[i].end))
    && (forall i :: 0 <= i < |c.ladders| ==> Fits32(c.ladders[i].start) && Fits32(c.ladders[i].end))
  }

  ghost predicate GoAccepts(c: Content) {
    && Decodes(c)
    && var cells := Wrap32(c.width * c.height);
       && c.width >= 1 && c.height >= 1 && 1 <= c.start <= cells && 1 <= c.end <= cells
       && Directed(c) && AllBetween(c, cells)
  }

  ghost predicate ZodAccepts(c: Content) {
    && c.width >= 1 && c.height >= 1 && c.start >= 1 && 1 <= c.end <= c.width * c.height
    && Directed(c) && AllPositive(c)
  }

  // Each link goes its kind's way, and no start is met twice.
  ghost predicate Ruled(links: seq<Link>, kind: Kind, seen: set<int>) {
    && (forall i :: 0 <= i < |links| ==> Downhill(links[i], kind) && links[i].start !in seen)
    && NoRepeats(Starts(links))
  }

  predicate Downhill(l: Link, kind: Kind) {
    if kind == Snake then l.start > l.end else l.start < l.end
  }

  lemma NothingRuled(kind: Kind, seen: set<int>)
    ensures Ruled([], kind, seen)
  {
  }

  lemma OneMoreRuled(links: seq<Link>, k: nat, kind: Kind, seen: set<int>)
    requires k < |links|
    ensures Ruled(links[..k + 1], kind, seen) <==>
            && Ruled(links[..k], kind, seen)
            && Downhill(links[k], kind) && links[k].start !in seen && links[k].start !in Starts(links[..k])
    ensures Starts(links[..k + 1]) == Starts(links[..k]) + [links[k].start]
    ensures Ruled(links, kind, seen) ==> Ruled(links[..k + 1], kind, seen)
  {
    var some, more := links[..k], links[..k + 1];
    assert Starts(more) == Starts(some) + [links[k].start];
    assert more[k] == links[k] && forall i :: 0 <= i < k ==> more[i] == some[i];
    RepeatsIn(Starts(some), [links[k].start]);
    assert forall i :: 0 <= i <= k ==> Starts(more)[i] == Starts(links)[i];
  }

  // One list of links, checked against the starts already seen.
  method CheckLinksGo(links: seq<Link>, kind: Kind, cells: int, seen: set<int>) returns (ok: bool, starts: set<int>)
    ensures ok <==> Ruled(links, kind, seen) && forall i :: 0 <= i < |links| ==> Between(links[i], cells)
    ensures ok ==> starts == seen + set x | x in Starts(links)
  {
    hide Ruled, NoRepeats;
    starts := seen;
    NothingRuled(kind, seen);
    for k := 0 to |links|
      invariant Ruled(links[..k], kind, seen) && forall i :: 0 <= i < k ==> Between(links[i], cells)
      invariant starts == seen + set x | x in Starts(links[..k])
    {
      var l := links[k];
      OneMoreRuled(links, k, kind, seen);
      var wrong := if kind == Snake then l.start <= l.end else l.start >= l.end;
      if wrong || !(1 <= l.start <= cells) || !(1 <= l.end <= cells) || l.start in starts {
        assert Between(l, cells) ==> wrong || l.start in starts;
        return false, starts;
      }
      starts := starts + {l.start};
    }
    assert links[..|links|] == links;
    return true, starts;
  }

  lemma DirectedByLists(c: Content)
    ensures Directed(c) <==>
            Ruled(c.snakes, Snake, {}) && Ruled(c.ladders, Ladder, set x | x in Starts(c.snakes))
  {
    RepeatsIn(Starts(c.snakes), Starts(c.ladders));
    assert forall i :: 0 <= i < |c.ladders| ==> Starts(c.ladders)[i] == c.ladders[i].start;
  }

  method ValidateGo(c: Content) returns (ok: bool)
    ensures ok <==> GoAccepts(c)
  {
    hide Directed, Ruled;
    if !Decodes(c) {
      return false;
    }
    var cells := Wrap32(c.width * c.height);
    if c.width < 1 || c.height < 1 || c.start < 1 || c.end < 1 || c.start > cells || c.end > cells {
      return false;
    }
    DirectedByLists(c);
    var seen;
    ok, seen := CheckLinksGo(c.snakes, Snake, cells, {});
    if ok {
      assert {} + (set x | x in Starts(c.snakes)) == set x | x in Starts(c.snakes);
      ok, seen := CheckLinksGo(c.ladders, Ladder, cells, seen);
    }
  }

  // The schema goes on after a finding and counts them.
  method ZodLinkIssues(links: seq<Link>, kind: Kind, seen: set<int>) returns (issues: nat, starts: set<int>)
    ensures issues == 0 <==> Ruled(links, kind, seen)
    ensures starts == seen + set x | x in Starts(links)
  {
    hide Ruled, NoRepeats;
    issues, starts := 0, seen;
    NothingRuled(kind, seen);
    for k := 0 to |links|
      invariant starts == seen + set x | x in Starts(links[..k])
      invariant issues == 0 <==> Ruled(links[..k], kind, seen)
    {
      var l := links[k];
      OneMoreRuled(links, k, kind, seen);
      if !Downhill(l, kind) {
        issues := issues + 1;
      }
      if l.start in starts {
        issues := issues + 1;
      }
      starts := starts + {l.start};
    }
    assert links[..|links|] == links;
  }

  method ValidateZod(c: Content) returns (ok: bool)
    ensures ok <==> ZodAccepts(c)
  {
    hide Directed, Ruled;
    if c.width < 1 || c.height < 1 || c.start < 1 || c.end < 1 || !AllPositive(c) {
      return false;
    }
    DirectedByLists(c);
    var snakeIssues, seen := ZodLinkIssues(c.snakes, Snake, {});
    assert {} + (set x | x in Starts(c.snakes)) == set x | x in Starts(c.snakes);
    var ladderIssues, all := ZodLinkIssues(c.ladders, Ladder, seen);
    return c.end <= c.width * c.height && snakeIssues + ladderIssues == 0;
  }

  lemma WrapNeverGrows(n: int)
    requires n >= 0
    ensures Wrap32(n) <= n && (n < 0x8000_0000 ==> Wrap32(n) == n)
  {
  }

  // The product in 32 bits is in range and off by a multiple of 2^32.
  lemma WrapMeans(n: int)
    ensures -0x8000_0000 <= Wrap32(n) < 0x8000_0000 && (n - Wrap32(n)) % 0x1_0000_0000 == 0
  {
  }

  // What both validators ask of the links: snakes lead down, ladders up, and no two links of
  // either kind start on one cell.
  lemma DirectedMeans(c: Content)
    ensures Directed(c) <==>
            && (forall l :: l in c.snakes ==> l.end < l.start) && (forall l :: l in c.ladders ==> l.start < l.end)
            && (forall i, j :: 0 <= i < j < |c.snakes| ==> c.snakes[i].start != c.snakes[j].start)
            && (forall i, j :: 0 <= i < j < |c.ladders| ==> c.ladders[i].start != c.ladders[j].start)
            && (forall s, l :: s in c.snakes && l in c.ladders ==> s.start != l.start)
  {
    RepeatsIn(Starts(c.snakes), Starts(c.ladders));
    var a, b := Starts(c.snakes), Starts(c.ladders);
    assert NoRepeats(a) <==> forall i, j :: 0 <= i < j < |c.snakes| ==> c.snakes[i].start != c.snakes[j].start;
    assert NoRepeats(b) <==> forall i, j :: 0 <= i < j < |c.ladders| ==> c.ladders[i].start != c.ladders[j].start;
    hide NoRepeats;
    if s, l :| s in c.snakes && l in c.ladders && s.start == l.start {
      var i :| 0 <= i < |c.snakes| && c.snakes[i] == s;
      var j :| 0 <= j < |c.ladders| && c.ladders[j] == l;
      assert b[j] == a[i] && a[i] in a;
    }
    if j :| 0 <= j < |b| && b[j] in a {
      var i :| 0 <= i < |a| && a[i] == b[j];
      assert c.snakes[i] in c.snakes && c.ladders[j] in c.ladders;
    }
  }

  // The server accepts exactly the boards the schema accepts whose numbers fit 32 bits and
  // whose positions and link ends lie on the board, with its size computed in 32 bits.
  lemma GoAcceptsIff(c: Content)
    ensures var cells := Wrap32(c.width * c.height);
            GoAccepts(c) <==> Decodes(c) && ZodAccepts(c) && c.start <= cells && c.end <= cells && AllBetween(c, cells)
  {
    hide Directed;
    if c.width >= 1 && c.height >= 1 {
      WrapNeverGrows(c.width * c.height);
    }
  }

  // A generated layout meets both validators, on every board of at least one cell.
  lemma GeneratedPasses(c: Content)
    requires c.width >= 1 && c.height >= 1 && c.width * c.height < 0x8000_0000
    requires 1 <= c.start <= c.width * c.height && 1 <= c.end <= c.width * c.height
    requires GoodLayout(c.snakes, c.ladders, c.width * c.height)
    ensures GoAccepts(c) && ZodAccepts(c)
  {
    WrapNeverGrows(c.width * c.height);
    Draws.TimesGrows(1, c.height, c.width);
    Draws.TimesGrows(1, c.width, c.height);
    assert c.width * c.height == c.height * c.width;
    GoAcceptsIff(c);
  }

  lemma RepeatsIn(a: seq<int>, b: seq<int>)
    ensures NoRepeats(a + b) <==> NoRepeats(a) && NoRepeats(b) && forall i :: 0 <= i < |b| ==> b[i] !in a
  {
    var s := a + b;
    assert forall i :: 0 <= i < |a| ==> s[i] == a[i];
    assert forall i :: 0 <= i < |b| ==> s[|a| + i] == b[i];
    if NoRepeats(s) {
      forall i, j | 0 <= i < j < |b|
        ensures b[i] != b[j]
      {
        assert s[|a| + i] != s[|a| + j];
      }
      forall i | 0 <= i < |b|
        ensures b[i] !in a
      {
        assert forall k :: 0 <= k < |a| ==> s[k] != s[|a| + i];
      }
    }
    if NoRepeats(a) && NoRepeats(b) && forall i :: 0 <= i < |b| ==> b[i] !in a {
      forall i, j | 0 <= i < j < |s|
        ensures s[i] != s[j]
      {
        if i < |a| <= j {
          assert a[i] in a && b[j - |a|] !in a;
        } else if |a| <= i {
          assert b[i - |a|] != b[j - |a|];
        }
      }
    }
  }
}
