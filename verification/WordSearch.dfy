// The word search: a grid filled in place, a round of play over it, and the search that
// marks found words on the screen.
module WordSearch {
  import opened Wrappers
  import opened Draws
  import opened LengthSort

  const BLANK: char := ' '
  const TRIES: nat := 500

  predicate IsLetter(c: char) {
    'A' <= c <= 'Z'
  }

  predicate IsWord(w: string) {
    forall i :: 0 <= i < |w| ==> IsLetter(w[i])
  }

  // ------------------------------------------------------------------------ lines

  // A straight line from (x, y); each of dx and dy is -1, 0 or 1.
  datatype Line = Line(x: int, y: int, dx: int, dy: int)

  function Along(x: int, d: int, i: int): int {
    if d == 0 then x else if d > 0 then x + i else x - i
  }

  type Grid = seq<seq<char>>

  predicate InGrid(g: Grid, x: int, y: int) {
    0 <= y < |g| && 0 <= x < |g[y]|
  }

  predicate ShowsAt(g: Grid, w: string, l: Line, i: int)
    requires 0 <= i < |w|
  {
    var x, y := Along(l.x, l.dx, i), Along(l.y, l.dy, i);
    InGrid(g, x, y) && g[y][x] == w[i]
  }

  ghost predicate Shows(g: Grid, w: string, l: Line) {
    forall i :: 0 <= i < |w| ==> ShowsAt(g, w, l, i)
  }

  predicate Moves(l: Line) {
    -1 <= l.dx <= 1 && -1 <= l.dy <= 1 && (l.dx != 0 || l.dy != 0)
  }

  datatype Cell = Cell(x: int, y: int)

  function Cells(l: Line, n: nat): seq<Cell> {
    seq(n, i => Cell(Along(l.x, l.dx, i), Along(l.y, l.dy, i)))
  }

  // The text under a selection: a column outside the grid adds nothing, a row outside it is
  // an exception.
  function Spell(g: Grid, cells: seq<Cell>): Option<string> {
    if cells == [] then Some("")
    else
      var front, c := Spell(g, cells[..|cells| - 1]), cells[|cells| - 1];
      if front.None? || !(0 <= c.y < |g|) then None
      else Some(front.value + if 0 <= c.x < |g[c.y]| then [g[c.y][c.x]] else "")
  }

  lemma {:induction false} LineSpells(g: Grid, w: string, l: Line)
    requires Shows(g, w, l)
    ensures Spell(g, Cells(l, |w|)) == Some(w)
  {
    if w != "" {
      var n := |w| - 1;
      assert ShowsAt(g, w, l, n);
      forall i | 0 <= i < n
        ensures ShowsAt(g, w[..n], l, i)
      {
        assert ShowsAt(g, w, l, i);
      }
      LineSpells(g, w[..n], l);
      assert Cells(l, |w|)[..n] == Cells(l, n);
      assert w == w[..n] + [w[n]];
    }
  }

  // --------------------------------------------------------------------- the words

  // Each word once, in order of first appearance.
  function Unique(words: seq<string>): seq<string> {
    if words == [] then []
    else
      var front, w := Unique(words[..|words| - 1]), words[|words| - 1];
      if w in front then front else front + [w]
  }

  lemma {:induction false} UniqueKeeps(words: seq<string>)
    ensures Distinct(Unique(words))
    ensures forall w :: w in Unique(words) <==> w in words
  {
    if words != [] {
      UniqueKeeps(words[..|words| - 1]);
      assert words == words[..|words| - 1] + [words[|words| - 1]];
    }
  }

  lemma UniqueOneMore(words: seq<string>)
    requires words != []
    ensures var n, front := |words| - 1, Unique(words[..|words| - 1]);
            Unique(words) == if words[n] in front then front else front + [words[n]]
  {
  }

  // The k-th of `once` is the word at place k of `places`, where it appears first.
  ghost predicate FirstPlaces(words: seq<string>, once: seq<string>, places: seq<nat>) {
    && |places| == |once|
    && (forall i, j :: 0 <= i < j < |places| ==> places[i] < places[j])
    && forall k :: 0 <= k < |places| ==> places[k] < |words| && FirstAt(words, once[k], places[k])
  }

  lemma PlacesStay(words: seq<string>, w: string, once: seq<string>, places: seq<nat>)
    requires FirstPlaces(words, once, places)
    ensures FirstPlaces(words + [w], once, places)
  {
    forall k | 0 <= k < |places|
      ensures FirstAt(words + [w], once[k], places[k])
    {
      assert (words + [w])[..places[k]] == words[..places[k]];
    }
  }

  lemma NewPlace(words: seq<string>, w: string, once: seq<string>, places: seq<nat>)
    requires FirstPlaces(words + [w], once, places) && w !in words && forall k :: 0 <= k < |places| ==> places[k] < |words|
    ensures FirstPlaces(words + [w], once + [w], places + [|words|])
  {
    assert (words + [w])[..|words|] == words;
    assert FirstAt(words + [w], w, |words|);
    hide FirstAt;
  }

  // Words given more than once stand where they appear first.
  lemma {:induction false} UniqueInOrder(words: seq<string>) returns (places: seq<nat>)
    ensures FirstPlaces(words, Unique(words), places)
  {
    places := [];
    if words != [] {
      var front, w := words[..|words| - 1], words[|words| - 1];
      places := UniqueInOrder(front);
      UniqueKeeps(front);
      UniqueOneMore(words);
      assert words == front + [w];
      PlacesStay(front, w, Unique(front), places);
      if w !in Unique(front) {
        assert forall k :: 0 <= k < |places| ==> places[k] < |front|;
        NewPlace(front, w, Unique(front), places);
        places := places + [|front|];
      }
      hide *;
    }
  }

  predicate FirstAt(words: seq<string>, w: string, k: nat)
    requires k < |words|
  {
    words[k] == w && w !in words[..k]
  }

  // --------------------------------------------------------------------- the round

  datatype Round = Round(words: seq<string>, found: seq<string>, finished: bool, score: nat)

  function ReversedText(s: string): string {
    if s == "" then "" else ReversedText(s[1..]) + [s[0]]
  }

  function Credited(p: Round, w: string): Round {
    var found := p.found + [w];
    p.(found := found, score := p.score + 100, finished := p.finished || |found| == |p.words|)
  }

  // Reading a selection: the text forwards counts first, then the text backwards.
  function Checked(p: Round, text: string): Round {
    if p.finished then p
    else if text in p.words && text !in p.found then Credited(p, text)
    else if ReversedText(text) in p.words && ReversedText(text) !in p.found then Credited(p, ReversedText(text))
    else p
  }

  function Play(p: Round, texts: seq<string>): Round {
    if texts == [] then p else Checked(Play(p, texts[..|texts| - 1]), texts[|texts| - 1])
  }

  ghost predicate Sound(p: Round) {
    && Distinct(p.words) && Distinct(p.found)
    && (forall w :: w in p.found ==> w in p.words)
    && p.score == 100 * |p.found|
    && (p.finished <==> p.words != [] && forall w :: w in p.words ==> w in p.found)
  }

  lemma {:induction false} DistinctFit(a: seq<string>, b: seq<string>)
    requires Distinct(a) && forall w :: w in a ==> w in b
    ensures |a| <= |b|
    ensures Distinct(b) && |a| == |b| ==> forall w :: w in b ==> w in a
    decreases |a|
  {
    if a != [] {
      var n := |a| - 1;
      assert a[n] in b;
      var k :| 0 <= k < |b| && b[k] == a[n];
      var rest := b[..k] + b[k + 1..];
      forall w | w in a[..n]
        ensures w in rest
      {
        var i :| 0 <= i < n && a[i] == w;
        assert a[i] in b;
        var j :| 0 <= j < |b| && b[j] == w;
        assert rest[if j < k then j else j - 1] == w;
      }
      DistinctFit(a[..n], rest);
      assert b == b[..k] + [b[k]] + b[k + 1..];
      assert forall w :: w in b <==> w in rest || w == a[n];
    }
  }

  lemma CreditKeepsSound(p: Round, w: string)
    requires Sound(p) && !p.finished && w in p.words && w !in p.found
    ensures Sound(Credited(p, w))
  {
    var q := Credited(p, w);
    DistinctFit(q.found, q.words);
    if forall v :: v in q.words ==> v in q.found {
      DistinctFit(q.words, q.found);
    }
  }

  lemma CheckKeepsSound(p: Round, text: string)
    requires Sound(p)
    ensures Sound(Checked(p, text))
    ensures Checked(p, text).words == p.words
    ensures forall w :: w in p.found ==> w in Checked(p, text).found
  {
    if !p.finished {
      if text in p.words && text !in p.found {
        CreditKeepsSound(p, text);
      } else if ReversedText(text) in p.words && ReversedText(text) !in p.found {
        CreditKeepsSound(p, ReversedText(text));
      }
    }
  }

  lemma {:induction false} PlayKeepsSound(p: Round, texts: seq<string>)
    requires Sound(p)
    ensures Sound(Play(p, texts)) && Play(p, texts).words == p.words
  {
    if texts != [] {
      var front, last := texts[..|texts| - 1], texts[|texts| - 1];
      PlayKeepsSound(p, front);
      CheckKeepsSound(Play(p, front), last);
      assert texts == front + [last];
    }
  }

  // A selection credits the text it reads if that is wanted, else the text backwards if that is,
  // and nothing otherwise; only a wanted word is ever credited, and only once.
  predicate Wanted(p: Round, w: string) {
    !p.finished && w in p.words && w !in p.found
  }

  lemma CreditsForwardsFirst(p: Round, text: string)
    ensures var q, back := Checked(p, text), ReversedText(text);
            && (Wanted(p, text) ==> q.found == p.found + [text] && q.score == p.score + 100)
            && (!Wanted(p, text) && Wanted(p, back) ==> q.found == p.found + [back] && q.score == p.score + 100)
            && (!Wanted(p, text) && !Wanted(p, back) ==> q == p)
  {
  }

  // Reading fails exactly on a cell in a row outside the grid, and a cell in a column outside it
  // reads as nothing.
  lemma {:induction false} SpellFailsIff(g: Grid, cells: seq<Cell>)
    ensures Spell(g, cells).None? <==> exists c :: c in cells && !(0 <= c.y < |g|)
  {
    if cells != [] {
      var n := |cells| - 1;
      SpellFailsIff(g, cells[..n]);
      assert cells == cells[..n] + [cells[n]];
    }
  }

  lemma {:induction false} SpellSkips(g: Grid, a: seq<Cell>, c: Cell, b: seq<Cell>)
    requires 0 <= c.y < |g| && !(0 <= c.x < |g[c.y]|)
    ensures Spell(g, a + [c] + b) == Spell(g, a + b)
  {
    if b == [] {
      assert a + [c] + b == a + [c] && a + b == a;
      SpellOneMore(g, a, c);
      assert Spell(g, a).Some? ==> Spell(g, a).value + "" == Spell(g, a).value;
    } else {
      var n := |b| - 1;
      SpellSkips(g, a, c, b[..n]);
      SpellOneMore(g, a + [c] + b[..n], b[n]);
      SpellOneMore(g, a + b[..n], b[n]);
      assert a + [c] + b == a + [c] + b[..n] + [b[n]] && a + b == a + b[..n] + [b[n]];
    }
  }

  // ------------------------------------------------------------ reading backwards

  lemma {:induction false} ReversedAppend(a: string, b: string)
    ensures ReversedText(a + b) == ReversedText(b) + ReversedText(a)
  {
    if a == "" {
      assert a + b == b;
    } else {
      assert (a + b)[1..] == a[1..] + b;
      ReversedAppend(a[1..], b);
    }
  }

  lemma {:induction false} ReversedTwice(s: string)
    ensures ReversedText(ReversedText(s)) == s
  {
    if s != "" {
      ReversedTwice(s[1..]);
      ReversedAppend(ReversedText(s[1..]), [s[0]]);
    }
  }

  // How many selections read the word, forwards or backwards.
  function Touches(texts: seq<string>, w: string): nat {
    if texts == [] then 0
    else
      var t := texts[|texts| - 1];
      Touches(texts[..|texts| - 1], w) + if t == w || ReversedText(t) == w then 1 else 0
  }

  lemma {:induction false} TouchedWordsAreFound(p: Round, texts: seq<string>, w: string)
    requires Sound(p) && w in p.words
    ensures var found, v := Play(p, texts).found, ReversedText(w);
            && (Touches(texts, w) >= 1 ==> w in found || (v in p.words && v in found))
            && (Touches(texts, w) >= 2 ==> w in found && (v in p.words ==> v in found))
  {
    if texts != [] {
      var front, t := texts[..|texts| - 1], texts[|texts| - 1];
      TouchedWordsAreFound(p, front, w);
      PlayKeepsSound(p, front);
      CheckKeepsSound(Play(p, front), t);
      ReversedTwice(w);
      ReversedTwice(t);
    }
  }

  lemma {:induction false} TouchedOnce(texts: seq<string>, w: string, i: nat)
    requires i < |texts| && (texts[i] == w || texts[i] == ReversedText(w))
    ensures Touches(texts, w) >= 1
  {
    ReversedTwice(w);
    if i < |texts| - 1 {
      TouchedOnce(texts[..|texts| - 1], w, i);
    }
  }

  lemma {:induction false} TouchedTwice(texts: seq<string>, w: string, i: nat, j: nat)
    requires i < j < |texts|
    requires texts[i] == w || texts[i] == ReversedText(w)
    requires texts[j] == w || texts[j] == ReversedText(w)
    ensures Touches(texts, w) >= 2
  {
    ReversedTwice(w);
    if j < |texts| - 1 {
      TouchedTwice(texts[..|texts| - 1], w, i, j);
    } else {
      TouchedOnce(texts[..|texts| - 1], w, i);
    }
  }

  // The k-th text is the k-th word of `order`, read from either end.
  ghost predicate EitherWay(texts: seq<string>, order: seq<string>) {
    && |texts| == |order|
    && forall k :: 0 <= k < |order| ==> texts[k] == order[k] || texts[k] == ReversedText(order[k])
  }

  lemma OrderedWordIsFound(p: Round, texts: seq<string>, order: seq<string>, w: string)
    requires Sound(p) && EitherWay(texts, order) && w in p.words
    requires forall v :: v in p.words ==> v in order
    ensures w in Play(p, texts).found
  {
    var v := ReversedText(w);
    ReversedTwice(w);
    TouchedWordsAreFound(p, texts, w);
    assert w in order;
    var i :| 0 <= i < |order| && order[i] == w;
    TouchedOnce(texts, w, i);
    if v in p.words && v != w {
      assert v in order;
      var j :| 0 <= j < |order| && order[j] == v;
      if i < j {
        TouchedTwice(texts, w, i, j);
      } else {
        TouchedTwice(texts, w, j, i);
      }
    }
  }

  // Submitting every required word, in any order and from either end, finishes the round
  // with 100 points a word, even when one word is another's reverse; a round without words
  // never finishes.
  lemma AnyOrderFinishes(p: Round, texts: seq<string>, order: seq<string>)
    requires Sound(p) && EitherWay(texts, order)
    requires forall w :: w in p.words ==> w in order
    ensures Play(p, texts).finished <==> p.words != []
    ensures Play(p, texts).score == 100 * |p.words|
  {
    PlayKeepsSound(p, texts);
    var q := Play(p, texts);
    forall w | w in p.words
      ensures w in q.found
    {
      OrderedWordIsFound(p, texts, order, w);
    }
    DistinctFit(q.found, q.words);
    DistinctFit(q.words, q.found);
  }

  // ------------------------------------------------------------ winning on the grid

  function CheckedCells(g: Grid, p: Round, cells: seq<Cell>): Round {
    var text := Spell(g, cells);
    if text.None? then p else Checked(p, text.value)
  }

  function PlayCells(g: Grid, p: Round, selections: seq<seq<Cell>>): Round {
    if selections == [] then p
    else
      var n := |selections| - 1;
      CheckedCells(g, PlayCells(g, p, selections[..n]), selections[n])
  }

  function BackwardsCells(cells: seq<Cell>): seq<Cell> {
    seq(|cells|, i requires 0 <= i < |cells| => cells[|cells| - 1 - i])
  }

  lemma SpellOneMore(g: Grid, cells: seq<Cell>, c: Cell)
    ensures Spell(g, cells + [c]) ==
            if Spell(g, cells).None? || !(0 <= c.y < |g|) then None
            else Some(Spell(g, cells).value + if 0 <= c.x < |g[c.y]| then [g[c.y][c.x]] else "")
  {
    assert (cells + [c])[..|cells|] == cells;
  }

  lemma {:induction false} BackwardsSpells(g: Grid, w: string, cells: seq<Cell>)
    requires |cells| == |w|
    requires forall i :: 0 <= i < |w| ==> InGrid(g, cells[i].x, cells[i].y) && g[cells[i].y][cells[i].x] == w[i]
    ensures Spell(g, BackwardsCells(cells)) == Some(ReversedText(w))
  {
    if w != "" {
      BackwardsSpells(g, w[1..], cells[1..]);
      SpellOneMore(g, BackwardsCells(cells[1..]), cells[0]);
      assert BackwardsCells(cells) == BackwardsCells(cells[1..]) + [cells[0]];
    }
  }

  datatype Drag = Drag(word: nat, backwards: bool)

  // Dragging along the line of a required word, from either end.
  function Dragged(words: seq<string>, lines: seq<Line>, d: Drag): seq<Cell>
    requires d.word < |words| == |lines|
  {
    var cells := Cells(lines[d.word], |words[d.word]|);
    if d.backwards then BackwardsCells(cells) else cells
  }

  function DragText(words: seq<string>, d: Drag): string
    requires d.word < |words|
  {
    if d.backwards then ReversedText(words[d.word]) else words[d.word]
  }

  lemma DragSpells(g: Grid, words: seq<string>, lines: seq<Line>, d: Drag)
    requires d.word < |words| && Standing(g, words, lines)
    ensures Spell(g, Dragged(words, lines, d)) == Some(DragText(words, d))
  {
    var w, l := words[d.word], lines[d.word];
    if d.backwards {
      var cells := Cells(l, |w|);
      forall i | 0 <= i < |w|
        ensures InGrid(g, cells[i].x, cells[i].y) && g[cells[i].y][cells[i].x] == w[i]
      {
        assert ShowsAt(g, w, l, i);
      }
      BackwardsSpells(g, w, cells);
    } else {
      LineSpells(g, w, l);
    }
  }

  lemma {:induction false} DragsReadTexts(g: Grid, p: Round, words: seq<string>, lines: seq<Line>, drags: seq<Drag>)
    requires Standing(g, words, lines) && forall k :: 0 <= k < |drags| ==> drags[k].word < |words|
    ensures PlayCells(g, p, seq(|drags|, k requires 0 <= k < |drags| => Dragged(words, lines, drags[k]))) ==
            Play(p, seq(|drags|, k requires 0 <= k < |drags| => DragText(words, drags[k])))
  {
    if drags != [] {
      var n := |drags| - 1;
      var front := drags[..n];
      DragsReadTexts(g, p, words, lines, front);
      DragSpells(g, words, lines, drags[n]);
      var cells := seq(|drags|, k requires 0 <= k < |drags| => Dragged(words, lines, drags[k]));
      var texts := seq(|drags|, k requires 0 <= k < |drags| => DragText(words, drags[k]));
      assert cells[..n] == seq(|front|, k requires 0 <= k < |front| => Dragged(words, lines, front[k]));
      assert texts[..n] == seq(|front|, k requires 0 <= k < |front| => DragText(words, front[k]));
    }
  }

  // A board on which every required word stands is won by dragging along every word's line
  // once or more, in any order, each from either end.
  lemma AlwaysWinnable(g: Grid, p: Round, lines: seq<Line>, drags: seq<Drag>)
    requires Standing(g, p.words, lines) && Sound(p) && p.words != []
    requires forall k :: 0 <= k < |drags| ==> drags[k].word < |p.words|
    requires forall i :: 0 <= i < |p.words| ==> Drag(i, false) in drags || Drag(i, true) in drags
    ensures var q := PlayCells(g, p, seq(|drags|, k requires 0 <= k < |drags| => Dragged(p.words, lines, drags[k])));
            q.finished && q.score == 100 * |p.words|
  {
    DragsReadTexts(g, p, p.words, lines, drags);
    var texts := seq(|drags|, k requires 0 <= k < |drags| => DragText(p.words, drags[k]));
    var order := seq(|drags|, k requires 0 <= k < |drags| => p.words[drags[k].word]);
    forall w | w in p.words
      ensures w in order
    {
      var i :| 0 <= i < |p.words| && p.words[i] == w;
      var d := if Drag(i, false) in drags then Drag(i, false) else Drag(i, true);
      var k :| 0 <= k < |drags| && drags[k] == d;
      assert order[k] == w;
    }
    AnyOrderFinishes(p, texts, order);
  }

  // -------------------------------------------------------------------- the engine

  // A board of letters and blanks.
  ghost predicate Tidy(g: Grid, width: nat, height: nat) {
    && |g| == height
    && (forall y :: 0 <= y < height ==> |g[y]| == width)
    && forall y, x :: 0 <= y < height && 0 <= x < width ==> g[y][x] == BLANK || IsLetter(g[y][x])
  }

  ghost predicate Full(g: Grid, width: nat, height: nat) {
    Tidy(g, width, height) && forall y, x :: 0 <= y < height && 0 <= x < width ==> IsLetter(g[y][x])
  }

  // No letter on the board is ever overwritten.
  ghost predicate OnlyBlanksWritten(g: Grid, h: Grid) {
    forall y, x :: InGrid(g, x, y) && g[y][x] != BLANK ==> InGrid(h, x, y) && h[y][x] == g[y][x]
  }

  predicate FreeAt(g: Grid, w: string, l: Line, i: int)
    requires 0 <= i < |w|
  {
    var x, y := Along(l.x, l.dx, i), Along(l.y, l.dy, i);
    InGrid(g, x, y) && (g[y][x] == BLANK || g[y][x] == w[i])
  }

  ghost predicate Free(g: Grid, w: string, l: Line) {
    forall i :: 0 <= i < |w| ==> FreeAt(g, w, l, i)
  }

  function Put(g: Grid, x: int, y: int, c: char): Grid
    requires InGrid(g, x, y)
  {
    g[y := g[y][x := c]]
  }

  // Every word of `placed` stands on its own line.
  ghost predicate Standing(g: Grid, placed: seq<string>, at: seq<Line>) {
    && |at| == |placed|
    && forall k :: 0 <= k < |placed| ==> IsWord(placed[k]) && Moves(at[k]) && Shows(g, placed[k], at[k])
  }

  // The board after the letters of `w` have been written along `l`, from letter i on.
  function Stamped(g: Grid, w: string, l: Line, i: nat): Grid
    decreases |w| - i
  {
    if i >= |w| || !InGrid(g, Along(l.x, l.dx, i), Along(l.y, l.dy, i)) then g
    else Stamped(Put(g, Along(l.x, l.dx, i), Along(l.y, l.dy, i), w[i]), w, l, i + 1)
  }

  // Cells off the rest of the line stay as they are.
  lemma {:induction false} StampedElsewhere(g: Grid, w: string, l: Line, i: nat, x: int, y: int)
    requires InGrid(g, x, y)
    requires forall j :: i <= j < |w| ==> Along(l.x, l.dx, j) != x || Along(l.y, l.dy, j) != y
    ensures |Stamped(g, w, l, i)| == |g| && InGrid(Stamped(g, w, l, i), x, y) && Stamped(g, w, l, i)[y][x] == g[y][x]
    decreases |w| - i
  {
    if i < |w| && InGrid(g, Along(l.x, l.dx, i), Along(l.y, l.dy, i)) {
      StampedElsewhere(Put(g, Along(l.x, l.dx, i), Along(l.y, l.dy, i), w[i]), w, l, i + 1, x, y);
    }
  }

  // The spot that one try draws, if the word fits on the board in the drawn direction.
  function Drawn(w: string, width: nat, height: nat, seed: nat): (Option<Line>, nat) {
    var s1 := NextSeed(seed);
    var dir := Scaled(s1, 3);
    var dx, dy := if dir == 1 then 0 else 1, if dir == 0 then 0 else 1;
    var maxX, maxY := width - |w| * dx, height - |w| * dy;
    if maxX < 0 || maxY < 0 then (None, s1)
    else
      var s2 := NextSeed(s1);
      var s3 := NextSeed(s2);
      (Some(Line(Scaled(s2, maxX + 1), Scaled(s3, maxY + 1), dx, dy)), s3)
  }

  // The first free spot of so many tries.
  ghost function FirstFree(g: Grid, w: string, width: nat, height: nat, seed: nat, tries: nat): (Option<Line>, nat)
    decreases tries
  {
    if tries == 0 then (None, seed)
    else
      var d := Drawn(w, width, height, seed);
      if d.0.Some? && Free(g, w, d.0.value) then d
      else FirstFree(g, w, width, height, d.1, tries - 1)
  }

  // The seed with which the k-th try begins.
  function SeedOfTry(w: string, width: nat, height: nat, seed: nat, k: nat): nat
    decreases k
  {
    if k == 0 then seed else SeedOfTry(w, width, height, Drawn(w, width, height, seed).1, k - 1)
  }

  ghost predicate TryIsFree(g: Grid, w: string, width: nat, height: nat, seed: nat, k: nat) {
    var d := Drawn(w, width, height, SeedOfTry(w, width, height, seed, k)).0;
    d.Some? && Free(g, w, d.value)
  }

  // The search takes the first free one of its tries, or none.
  lemma {:induction false} FirstFreeMeans(g: Grid, w: string, width: nat, height: nat, seed: nat, tries: nat)
      returns (k: nat)
    ensures k <= tries && forall j :: 0 <= j < k ==> !TryIsFree(g, w, width, height, seed, j)
    ensures k < tries ==>
              && TryIsFree(g, w, width, height, seed, k)
              && FirstFree(g, w, width, height, seed, tries) == Drawn(w, width, height, SeedOfTry(w, width, height, seed, k))
    ensures k == tries ==> FirstFree(g, w, width, height, seed, tries).0.None?
    decreases tries
  {
    hide Drawn, Free;
    k := 0;
    if tries > 0 && !TryIsFree(g, w, width, height, seed, 0) {
      var next := Drawn(w, width, height, seed).1;
      k := FirstFreeMeans(g, w, width, height, next, tries - 1);
      forall j | 0 < j <= k
        ensures TryIsFree(g, w, width, height, seed, j) == TryIsFree(g, w, width, height, next, j - 1)
      {
      }
      k := k + 1;
    }
  }

  datatype Board = Board(grid: Grid, placed: seq<string>, at: seq<Line>, seed: nat)

  // A word that finds no free spot in 500 tries is dropped; the others are placed in turn.
  ghost function PlacedAll(b: Board, width: nat, height: nat, words: seq<string>): Board
    decreases |words|
  {
    if words == [] then b
    else
      var n := |words| - 1;
      var c, w := PlacedAll(b, width, height, words[..n]), words[n];
      var d := FirstFree(c.grid, w, width, height, c.seed, TRIES);
      if d.0.None? then c.(seed := d.1)
      else Board(Stamped(c.grid, w, d.0.value, 0), c.placed + [w], c.at + [d.0.value], d.1)
  }

  const LETTERS: string := "ABCDEFGHIJKLMNOPQRSTUVWXYZ"

  lemma LettersInOrder(k: nat)
    requires k < 26
    ensures |LETTERS| == 26 && LETTERS[k] as int == 'A' as int + k && IsLetter(LETTERS[k])
  {
  }

  // The row after each of its blanks from x on has been filled with a drawn letter.
  function FilledRow(g: Grid, x: nat, y: nat, width: nat, seed: nat): (Grid, nat)
    decreases width - x
  {
    if x >= width || !InGrid(g, x, y) then (g, seed)
    else if g[y][x] != BLANK then FilledRow(g, x + 1, y, width, seed)
    else
      var s := NextSeed(seed);
      ScaledIsInRange(s, 26);
      FilledRow(Put(g, x, y, LETTERS[Scaled(s, 26)]), x + 1, y, width, s)
  }

  // Row by row.
  function Filled(g: Grid, width: nat, height: nat, seed: nat): (Grid, nat) {
    if height == 0 then (g, seed)
    else
      var above := Filled(g, width, height - 1, seed);
      FilledRow(above.0, 0, height - 1, width, above.1)
  }

  lemma FillOneCell(seed: nat)
    ensures Scaled(NextSeed(seed), 26) < 26
    ensures Filled([[BLANK]], 1, 1, seed).0 == [[LETTERS[Scaled(NextSeed(seed), 26)]]]
  {
    var s, g := NextSeed(seed), [[BLANK]];
    ScaledIsInRange(s, 26);
    FilledOneRow(g, 1, seed);
    FilledOneCell(g, 0, 0, 1, seed);
    hide *;
    PutInOneCell(LETTERS[Scaled(s, 26)]);
  }

  lemma PutInOneCell(c: char)
    ensures Put([[BLANK]], 0, 0, c) == [[c]]
  {
    var row := [BLANK];
    assert row[0 := c] == [c];
    assert [row][0 := [c]] == [[c]];
  }

  lemma FilledOneRow(g: Grid, width: nat, seed: nat)
    ensures Filled(g, width, 1, seed) == FilledRow(g, 0, 0, width, seed)
  {
    hide FilledRow;
    assert Filled(g, width, 0, seed) == (g, seed);
  }

  // The last cell of a row.
  lemma FilledOneCell(g: Grid, x: nat, y: nat, width: nat, seed: nat)
    requires width == x + 1 && InGrid(g, x, y) && g[y][x] == BLANK
    ensures var s := NextSeed(seed);
            Scaled(s, 26) < 26 && FilledRow(g, x, y, width, seed) == (Put(g, x, y, LETTERS[Scaled(s, 26)]), s)
  {
    ScaledIsInRange(NextSeed(seed), 26);
    hide NextSeed, Scaled, LETTERS;
  }

  function BlankGrid(width: nat, height: nat): Grid {
    seq(height, _ => seq(width, _ => BLANK))
  }

  // The words a round requires: each given word once, the long ones tried first.
  ghost function Required(given: seq<string>, width: nat, height: nat, seed: nat): seq<string> {
    PlacedAll(Board(BlankGrid(width, height), [], [], seed), width, height, ByLength(Unique(given))).placed
  }

  // A word is placed exactly when one of five hundred tries is free on the board that the words
  // before it have left; it then comes after them, and the words before it stay.
  lemma PlacedIffSomeTryIsFree(b: Board, width: nat, height: nat, words: seq<string>, w: string)
    ensures var c, d := PlacedAll(b, width, height, words), PlacedAll(b, width, height, words + [w]);
            if exists k :: 0 <= k < 500 && TryIsFree(c.grid, w, width, height, c.seed, k)
            then d.placed == c.placed + [w] else d.placed == c.placed && d.grid == c.grid
  {
    var c := PlacedAll(b, width, height, words);
    var k := FirstFreeMeans(c.grid, w, width, height, c.seed, 500);
    assert (words + [w])[..|words|] == words;
    hide FirstFree, TryIsFree, Drawn, Stamped;
  }

  lemma PutKeeps(g: Grid, x: int, y: int, c: char, width: nat, height: nat)
    requires Tidy(g, width, height) && InGrid(g, x, y) && (g[y][x] == BLANK || g[y][x] == c) && IsLetter(c)
    ensures Tidy(Put(g, x, y, c), width, height) && OnlyBlanksWritten(g, Put(g, x, y, c))
  {
  }

  lemma BlankIsTidy(width: nat, height: nat)
    ensures Tidy(BlankGrid(width, height), width, height)
  {
  }

  lemma NothingStands(g: Grid)
    ensures Standing(g, [], [])
  {
  }

  lemma OneMoreStands(g: Grid, placed: seq<string>, at: seq<Line>, w: string, l: Line)
    requires Standing(g, placed, at) && IsWord(w) && Moves(l) && Shows(g, w, l)
    ensures Standing(g, placed + [w], at + [l])
  {
  }

  // Letters stay letters, so every line of letters stays as it was.
  lemma StandingSurvives(g: Grid, h: Grid, placed: seq<string>, at: seq<Line>)
    requires OnlyBlanksWritten(g, h) && Standing(g, placed, at)
    ensures Standing(h, placed, at)
  {
    forall k, i | 0 <= k < |placed| && 0 <= i < |placed[k]|
      ensures ShowsAt(h, placed[k], at[k], i)
    {
      assert ShowsAt(g, placed[k], at[k], i) && IsLetter(placed[k][i]);
    }
  }

  // Halfway through a word: its first i letters are on the board and the rest still fit.
  ghost predicate Underway(g: Grid, w: string, l: Line, i: nat) {
    && (forall j :: 0 <= j < i && j < |w| ==> ShowsAt(g, w, l, j))
    && forall j :: i <= j < |w| ==> FreeAt(g, w, l, j)
  }

  lemma OneLetter(g: Grid, w: string, l: Line, i: nat)
    requires i < |w| && IsWord(w) && Moves(l) && Underway(g, w, l, i)
    ensures FreeAt(g, w, l, i) && IsLetter(w[i])
    ensures Underway(Put(g, Along(l.x, l.dx, i), Along(l.y, l.dy, i), w[i]), w, l, i + 1)
  {
    assert FreeAt(g, w, l, i) && IsLetter(w[i]);
    var h := Put(g, Along(l.x, l.dx, i), Along(l.y, l.dy, i), w[i]);
    forall j | 0 <= j < i
      ensures ShowsAt(h, w, l, j)
    {
      OtherLetters(g, w, l, i, j);
    }
    forall j | i < j < |w|
      ensures FreeAt(h, w, l, j)
    {
      OtherLetters(g, w, l, i, j);
    }
    assert ShowsAt(h, w, l, i);
  }

  lemma OtherLetters(g: Grid, w: string, l: Line, i: nat, j: nat)
    requires i < |w| && j < |w| && i != j && Moves(l) && FreeAt(g, w, l, i)
    ensures var h := Put(g, Along(l.x, l.dx, i), Along(l.y, l.dy, i), w[i]);
            (ShowsAt(g, w, l, j) ==> ShowsAt(h, w, l, j)) && (FreeAt(g, w, l, j) ==> FreeAt(h, w, l, j))
  {
    assert Along(l.x, l.dx, i) != Along(l.x, l.dx, j) || Along(l.y, l.dy, i) != Along(l.y, l.dy, j);
  }

  lemma SoundAtStart(words: seq<string>)
    requires Distinct(words)
    ensures Sound(Round(words, [], false, 0))
  {
    assert words != [] ==> words[0] in words && words[0] !in [];
  }

  class WordSearchEngine {
    const width: nat
    const height: nat
    var grid: Grid
    var words: seq<string>
    var foundWords: seq<string>
    var finished: bool
    var score: nat
    var seed: nat
    ghost var lines: seq<Line>

    // Every required word stands on a straight in-bounds line of a full grid.
    ghost predicate Solvable()
      reads this
    {
      Full(grid, width, height) && Standing(grid, words, lines) && Distinct(words)
    }

    function Now(): Round
      reads this
    {
      Round(words, foundWords, finished, score)
    }

    // An empty list is refused; words that normalise alike count once.
    static method Create(given: seq<string>, width: nat, height: nat, seed: nat) returns (r: Option<WordSearchEngine>)
      requires forall k :: 0 <= k < |given| ==> IsWord(given[k])
      ensures r.None? <==> given == []
      ensures r.Some? ==> r.value.Fresh(given) && fresh(r.value)
      ensures r.Some? ==> r.value.words == Required(given, width, height, seed)
    {
      if given == [] {
        return None;
      }
      var engine := new WordSearchEngine(given, width, height, seed);
      return Some(engine);
    }

    ghost predicate Fresh(given: seq<string>)
      reads this
    {
      Solvable() && Sound(Now()) && foundWords == [] && forall w :: w in words ==> w in given
    }

    constructor (given: seq<string>, width: nat, height: nat, seed: nat)
      requires forall k :: 0 <= k < |given| ==> IsWord(given[k])
      ensures Fresh(given) && this.width == width && this.height == height
      ensures words == Required(given, width, height, seed)
    {
      this.width, this.height, this.seed := width, height, seed;
      grid := BlankGrid(width, height);
      words, foundWords, finished, score := Unique(given), [], false, 0;
      lines := [];
      new;
      Begin(given);
    }

    method Begin(given: seq<string>)
      requires forall k :: 0 <= k < |given| ==> IsWord(given[k])
      requires grid == BlankGrid(width, height) && Now() == Round(Unique(given), [], false, 0)
      modifies this`words, this`lines, this`seed, this`grid
      ensures Fresh(given) && words == Required(given, width, height, old(seed))
    {
      hide PlacedAll, Unique, Standing, OnlyBlanksWritten, Full, Tidy, Sound, Distinct, BlankGrid, ByLength;
      UniqueKeeps(given);
      BlankIsTidy(width, height);
      assert forall k :: 0 <= k < |words| ==> words[k] in Unique(given);
      GenerateGrid();
      SoundAtStart(words);
    }

    method Random()
      modifies this`seed
      ensures seed == NextSeed(old(seed))
    {
      seed := NextSeed(seed);
    }

    method RandomIndex(n: nat) returns (k: nat)
      requires n > 0
      modifies this`seed
      ensures seed == NextSeed(old(seed)) && k == Scaled(seed, n) < n
    {
      Random();
      ScaledIsInRange(seed, n);
      return Scaled(seed, n);
    }

    method CanPlaceWord(w: string, l: Line) returns (ok: bool)
      requires Tidy(grid, width, height)
      ensures ok <==> Free(grid, w, l)
    {
      for i := 0 to |w|
        invariant forall j :: 0 <= j < i ==> FreeAt(grid, w, l, j)
      {
        var cx, cy := Along(l.x, l.dx, i), Along(l.y, l.dy, i);
        if cx < 0 || cx >= width || cy < 0 || cy >= height {
          assert !FreeAt(grid, w, l, i);
          return false;
        }
        if grid[cy][cx] != BLANK && grid[cy][cx] != w[i] {
          assert !FreeAt(grid, w, l, i);
          return false;
        }
      }
      return true;
    }

    method PlaceWord(w: string, l: Line)
      requires Tidy(grid, width, height) && IsWord(w) && Free(grid, w, l) && Moves(l)
      modifies this`grid
      ensures grid == Stamped(old(grid), w, l, 0)
      ensures Tidy(grid, width, height) && OnlyBlanksWritten(old(grid), grid) && Shows(grid, w, l)
    {
      for i := 0 to |w|
        invariant Tidy(grid, width, height) && OnlyBlanksWritten(old(grid), grid) && Underway(grid, w, l, i)
        invariant Stamped(grid, w, l, i) == Stamped(old(grid), w, l, 0)
      {
        OneLetter(grid, w, l, i);
        var x, y := Along(l.x, l.dx, i), Along(l.y, l.dy, i);
        PutKeeps(grid, x, y, w[i], width, height);
        grid := Put(grid, x, y, w[i]);
      }
    }

    // Up to 500 random spots; a direction in which the word does not fit costs a try.
    method TryToPlace(w: string, ghost placed: seq<string>, ghost at: seq<Line>)
      returns (done: bool, ghost line: Line)
      requires Tidy(grid, width, height) && IsWord(w) && Standing(grid, placed, at)
      modifies this`seed, this`grid
      ensures Tidy(grid, width, height) && Standing(grid, placed, at)
      ensures done ==> Moves(line) && Shows(grid, w, line)
      ensures FirstFree(old(grid), w, width, height, old(seed), TRIES) == (if done then Some(line) else None, seed)
      ensures grid == if done then Stamped(old(grid), w, line, 0) else old(grid)
    {
      hide Tidy, Standing, Shows, Free, OnlyBlanksWritten, IsWord, NextSeed, Scaled, Stamped;
      done, line := false, Line(0, 0, 1, 0);
      var attempts := 0;
      while !done && attempts < TRIES
        invariant Tidy(grid, width, height) && Standing(grid, placed, at)
        invariant attempts <= TRIES
        invariant done ==> Moves(line) && Shows(grid, w, line)
        invariant grid == if done then Stamped(old(grid), w, line, 0) else old(grid)
        invariant FirstFree(old(grid), w, width, height, old(seed), TRIES) ==
                  if done then (Some(line), seed) else FirstFree(old(grid), w, width, height, seed, TRIES - attempts)
        decreases TRIES - attempts
      {
        attempts := attempts + 1;
        var dir := RandomIndex(3);
        var dx, dy := if dir == 1 then 0 else 1, if dir == 0 then 0 else 1;
        var maxX, maxY := width - |w| * dx, height - |w| * dy;
        if maxX < 0 || maxY < 0 {
          continue;
        }
        var startX := RandomIndex(maxX + 1);
        var startY := RandomIndex(maxY + 1);
        var l := Line(startX, startY, dx, dy);
        var ok := CanPlaceWord(w, l);
        if ok {
          ghost var before := grid;
          PlaceWord(w, l);
          StandingSurvives(before, grid, placed, at);
          done, line := true, l;
        }
      }
    }

    method GenerateGrid()
      requires Distinct(words) && forall k :: 0 <= k < |words| ==> IsWord(words[k])
      requires Tidy(grid, width, height)
      modifies this`words, this`lines, this`seed, this`grid
      ensures Solvable()
      ensures forall w :: w in words ==> w in old(words)
      ensures var b := PlacedAll(Board(old(grid), [], [], old(seed)), width, height, ByLength(old(words)));
              && words == b.placed && lines == b.at && OnlyBlanksWritten(b.grid, grid)
              && (grid, seed) == Filled(b.grid, width, height, b.seed)
    {
      hide *;
      var sorted := ByLength(words);
      SortedWordsAreFine(words);
      var placed;
      ghost var at;
      placed, at := PlaceAll(sorted);
      FillBlanks(placed, at);
      words, lines := placed, at;
      SolvableBy(placed, at);
    }

    lemma SolvableBy(placed: seq<string>, at: seq<Line>)
      requires placed == words && at == lines
      requires Full(grid, width, height) && Standing(grid, placed, at) && Distinct(placed)
      ensures Solvable()
    {
    }

    method PlaceAll(sorted: seq<string>) returns (placed: seq<string>, ghost at: seq<Line>)
      requires Tidy(grid, width, height) && Distinct(sorted) && forall w :: w in sorted ==> IsWord(w)
      modifies this`seed, this`grid
      ensures Tidy(grid, width, height) && Standing(grid, placed, at)
      ensures Distinct(placed) && forall w :: w in placed ==> w in sorted
      ensures Board(grid, placed, at, seed) == PlacedAll(Board(old(grid), [], [], old(seed)), width, height, sorted)
    {
      hide Tidy, Standing, Shows, IsWord, FirstFree, Stamped, OnlyBlanksWritten;
      ghost var start := Board(grid, [], [], seed);
      placed, at := [], [];
      NothingStands(grid);
      for k := 0 to |sorted|
        invariant Tidy(grid, width, height) && Standing(grid, placed, at)
        invariant Distinct(placed) && forall w :: w in placed ==> w in sorted[..k]
        invariant Board(grid, placed, at, seed) == PlacedAll(start, width, height, sorted[..k])
      {
        assert sorted[..k + 1][..k] == sorted[..k];
        var done;
        ghost var line;
        done, line := TryToPlace(sorted[k], placed, at);
        assert sorted[k] !in sorted[..k];
        assert forall w :: w in sorted[..k] ==> w in sorted[..k + 1];
        if done {
          OneMoreStands(grid, placed, at, sorted[k], line);
          placed, at := placed + [sorted[k]], at + [line];
        }
      }
      assert sorted[..|sorted|] == sorted;
    }

    method FillBlanks(ghost placed: seq<string>, ghost at: seq<Line>)
      requires Tidy(grid, width, height) && Standing(grid, placed, at)
      modifies this`seed, this`grid
      ensures Full(grid, width, height) && Standing(grid, placed, at)
      ensures OnlyBlanksWritten(old(grid), grid)
      ensures (grid, seed) == Filled(old(grid), width, height, old(seed))
    {
      for y := 0 to height
        invariant (grid, seed) == Filled(old(grid), width, y, old(seed))
        invariant Tidy(grid, width, height) && Standing(grid, placed, at)
        invariant OnlyBlanksWritten(old(grid), grid)
        invariant forall r, c :: 0 <= r < y && 0 <= c < width ==> IsLetter(grid[r][c])
      {
        ghost var before := grid;
        FillRow(y);
        StandingSurvives(before, grid, placed, at);
      }
    }

    method FillRow(y: nat)
      requires Tidy(grid, width, height) && y < height
      modifies this`seed, this`grid
      ensures Tidy(grid, width, height) && OnlyBlanksWritten(old(grid), grid)
      ensures forall x :: 0 <= x < width ==> IsLetter(grid[y][x])
      ensures (grid, seed) == FilledRow(old(grid), 0, y, width, old(seed))
    {
      for x := 0 to width
        invariant FilledRow(grid, x, y, width, seed) == FilledRow(old(grid), 0, y, width, old(seed))
        invariant Tidy(grid, width, height) && OnlyBlanksWritten(old(grid), grid)
        invariant forall c :: 0 <= c < x ==> IsLetter(grid[y][c])
      {
        if grid[y][x] == BLANK {
          var k := RandomIndex(|LETTERS|);
          LettersInOrder(k);
          PutKeeps(grid, x, y, LETTERS[k], width, height);
          grid := Put(grid, x, y, LETTERS[k]);
        }
      }
    }
  
    method CheckWord(cells: seq<Cell>)
      requires Sound(Now())
      modifies this`foundWords, this`score, this`finished
      ensures Now() == CheckedCells(grid, old(Now()), cells)
      ensures Sound(Now())
    {
      if finished {
        return;
      }
      var read := ReadSelection(cells);
      if read.None? {
        return;
      }
      CheckKeepsSound(Now(), read.value);
      var text, backwards := read.value, ReversedText(read.value);
      var updated := false;
      if text in words && text !in foundWords {
        foundWords, score, updated := foundWords + [text], score + 100, true;
      } else if backwards in words && backwards !in foundWords {
        foundWords, score, updated := foundWords + [backwards], score + 100, true;
      }
      if updated && |foundWords| == |words| {
        finished := true;
      }
    }

    // None stands for the exception of a row outside the grid.
    method ReadSelection(cells: seq<Cell>) returns (text: Option<string>)
      ensures text == Spell(grid, cells)
    {
      text := Some("");
      for i := 0 to |cells|
        invariant text.Some? && text == Spell(grid, cells[..i])
      {
        var c := cells[i];
        assert cells[..i + 1] == cells[..i] + [c];
        SpellOneMore(grid, cells[..i], c);
        if c.y < 0 || c.y >= |grid| {
          NoneStays(grid, cells, i + 1);
          return None;
        }
        text := Some(text.value + if 0 <= c.x < |grid[c.y]| then [grid[c.y][c.x]] else "");
      }
      assert cells[..|cells|] == cells;
    }

    method Reset()
      requires Solvable()
      modifies this`foundWords, this`score, this`finished
      ensures Solvable() && Now() == Round(old(words), [], false, 0) && Sound(Now())
    {
      foundWords, score, finished := [], 0, false;
      SoundAtStart(words);
    }
  }

  lemma {:induction false} NoneStays(g: Grid, cells: seq<Cell>, i: nat)
    requires i <= |cells| && Spell(g, cells[..i]).None?
    ensures Spell(g, cells).None?
    decreases |cells| - i
  {
    if i == |cells| {
      assert cells[..i] == cells;
    } else {
      assert cells[..i + 1] == cells[..i] + [cells[i]];
      SpellOneMore(g, cells[..i], cells[i]);
      NoneStays(g, cells, i + 1);
    }
  }

  lemma SortedWordsAreFine(words: seq<string>)
    requires Distinct(words) && forall k :: 0 <= k < |words| ==> IsWord(words[k])
    ensures Distinct(ByLength(words)) && forall w :: w in ByLength(words) ==> w in words && IsWord(w)
  {
    hide *;
    ByLengthSorts(words);
    DistinctByCount(words);
    DistinctByCount(ByLength(words));
    forall w | w in ByLength(words)
      ensures w in words && IsWord(w)
    {
      assert w in multiset(words);
    }
  }

  // ------------------------------------------------------ marking found words

  const DIRECTIONS: seq<(int, int)> :=
    [(1, 0), (0, 1), (1, 1), (1, -1), (-1, 0), (0, -1), (-1, -1), (-1, 1)]

  function Ray(x: int, y: int, k: nat): Line
    requires k < 8
  {
    Line(x, y, DIRECTIONS[k].0, DIRECTIONS[k].1)
  }

  function DirectionOf(l: Line): (k: nat)
    requires Moves(l)
    ensures k < 8 && Ray(l.x, l.y, k) == l
  {
    if l.dx == 1 then (if l.dy == 0 then 0 else if l.dy == 1 then 2 else 3)
    else if l.dx == 0 then (if l.dy == 1 then 1 else 5)
    else if l.dy == 0 then 4 else if l.dy == -1 then 6 else 7
  }

  ghost predicate HasLine(g: Grid, w: string) {
    w != "" && exists l :: Moves(l) && Shows(g, w, l)
  }

  // The cells of a line of `w` when there is one, None when there is none or `w` is empty.
  method FindWordInGrid(w: string, g: Grid, width: nat, height: nat)
    returns (cells: Option<seq<Cell>>, ghost line: Line)
    requires Tidy(g, width, height)
    ensures cells.Some? ==> w != "" && Moves(line) && Shows(g, w, line) && cells.value == Cells(line, |w|)
    ensures cells.None? ==> w == "" || forall l :: Moves(l) ==> !Shows(g, w, l)
    ensures cells.Some? <==> HasLine(g, w)
  {
    line := Line(0, 0, 1, 0);
    for y := 0 to height
      invariant NoneStarts(g, w, width, 0, y)
    {
      for x := 0 to width
        invariant NoneStarts(g, w, width, 0, y)
        invariant w != "" ==> forall c, k :: 0 <= c < x && 0 <= k < 8 ==> !Shows(g, w, Ray(c, y, k))
      {
        cells, line := FindFrom(w, g, width, height, x, y);
        if cells.Some? {
          return;
        }
      }
    }
    cells := None;
    if w != "" {
      NoneAnywhere(g, w, width, height);
    }
  }

  ghost predicate NoneStarts(g: Grid, w: string, width: nat, from: nat, to: nat) {
    w != "" ==> forall r, c, k :: from <= r < to && 0 <= c < width && 0 <= k < 8 ==> !Shows(g, w, Ray(c, r, k))
  }

  lemma ShowsFromItsStart(g: Grid, w: string, l: Line)
    ensures Shows(g, w, l) && w != "" ==> InGrid(g, l.x, l.y)
  {
    assert Shows(g, w, l) && w != "" ==> ShowsAt(g, w, l, 0);
  }

  lemma NoneAnywhere(g: Grid, w: string, width: nat, height: nat)
    requires Tidy(g, width, height) && w != "" && NoneStarts(g, w, width, 0, height)
    ensures forall l :: Moves(l) ==> !Shows(g, w, l)
  {
    forall l: Line | Moves(l)
      ensures !Shows(g, w, l)
    {
      var k := DirectionOf(l);
      ShowsFromItsStart(g, w, l);
      assert Ray(l.x, l.y, k) == l;
    }
  }

  method FindFrom(w: string, g: Grid, width: nat, height: nat, x: nat, y: nat)
    returns (cells: Option<seq<Cell>>, ghost line: Line)
    requires Tidy(g, width, height) && x < width && y < height
    ensures cells.Some? ==> w != "" && Moves(line) && Shows(g, w, line) && cells.value == Cells(line, |w|)
    ensures cells.None? && w != "" ==> forall k :: 0 <= k < 8 ==> !Shows(g, w, Ray(x, y, k))
  {
    line := Line(x, y, 1, 0);
    if w == "" {
      return None, line;
    }
    if g[y][x] != w[0] {
      assert forall k :: 0 <= k < 8 ==> !ShowsAt(g, w, Ray(x, y, k), 0);
      return None, line;
    }
    for k := 0 to 8
      invariant forall j :: 0 <= j < k ==> !Shows(g, w, Ray(x, y, j))
    {
      var l := Ray(x, y, k);
      var found, coords := Follow(w, g, width, height, l);
      if found {
        return Some(coords), l;
      }
    }
    return None, line;
  }

  method Follow(w: string, g: Grid, width: nat, height: nat, l: Line) returns (found: bool, coords: seq<Cell>)
    requires Tidy(g, width, height) && w != "" && Moves(l) && ShowsAt(g, w, l, 0)
    ensures found <==> Shows(g, w, l)
    ensures found ==> coords == Cells(l, |w|)
  {
    coords := [Cell(l.x, l.y)];
    for i := 1 to |w|
      invariant coords == Cells(l, i)
      invariant forall j :: 0 <= j < i ==> ShowsAt(g, w, l, j)
    {
      var nx, ny := Along(l.x, l.dx, i), Along(l.y, l.dy, i);
      if nx < 0 || nx >= width || ny < 0 || ny >= height || g[ny][nx] != w[i] {
        assert !ShowsAt(g, w, l, i);
        return false, coords;
      }
      coords := coords + [Cell(nx, ny)];
    }
    return true, coords;
  }

  // On a board where every required word stands, exactly the found words that are not empty
  // have a line for the search above to find.
  lemma FoundWordsCanBeMarked(g: Grid, p: Round, lines: seq<Line>, w: string)
    requires Standing(g, p.words, lines) && Sound(p) && w in p.found
    ensures HasLine(g, w) <==> w != ""
  {
    assert w in p.words;
    var k :| 0 <= k < |p.words| && p.words[k] == w;
    assert Moves(lines[k]) && Shows(g, w, lines[k]);
  }

  // The coordinates that are drawn over the found words.
  method RedrawFound(p: Round, g: Grid, width: nat, height: nat, ghost lines: seq<Line>)
    returns (marks: seq<Option<seq<Cell>>>)
    requires Tidy(g, width, height) && Standing(g, p.words, lines) && Sound(p)
    ensures |marks| == |p.found|
    ensures forall i :: 0 <= i < |marks| ==> (marks[i].Some? <==> p.found[i] != "")
    ensures forall i :: 0 <= i < |marks| && marks[i].Some? ==> Spell(g, marks[i].value) == Some(p.found[i])
  {
    hide Standing, Sound, Tidy, Spell, Shows;
    marks := [];
    for i := 0 to |p.found|
      invariant |marks| == i
      invariant forall j :: 0 <= j < i ==> (marks[j].Some? <==> p.found[j] != "")
      invariant forall j :: 0 <= j < i && marks[j].Some? ==> Spell(g, marks[j].value) == Some(p.found[j])
    {
      var cells;
      ghost var line;
      cells, line := FindWordInGrid(p.found[i], g, width, height);
      FoundWordsCanBeMarked(g, p, lines, p.found[i]);
      if cells.Some? {
        LineSpells(g, p.found[i], line);
      }
      marks := marks + [cells];
    }
  }
}
