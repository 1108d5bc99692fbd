// The numbering of the snakes and ladders board: numbers run from 1 at the bottom left,
// row by row upwards, and every other row runs backwards.
module SnakesBoard {
  import opened Wrappers
  import Draws

  datatype Square = Square(x: int, y: int)

  predicate OnBoard(s: Square, width: nat, height: nat) {
    0 <= s.x < width && 0 <= s.y < height
  }

  function Mirrored(offset: int, row: int, width: nat): int {
    if row % 2 == 0 then offset else width - 1 - offset
  }

  // None stands for the exception of an index outside the board.
  function MapToGrid(index: int, width: nat, height: nat): Option<Square> {
    if index < 1 || index > width * height || width == 0 then None
    else
      var row := (index - 1) / width;
      Some(Square(Mirrored((index - 1) % width, row, width), height - 1 - row))
  }

  function CellAt(row: int, col: int, width: nat, height: nat): int {
    var fromBottom := height - 1 - row;
    fromBottom * width + Mirrored(col, fromBottom, width) + 1
  }

  datatype Point = Point(x: real, y: real)

  function Clamped(position: int, cells: nat): int {
    var low := if position < cells then position else cells;
    if 1 > low then 1 else low
  }

  function Middle(a: int, n: nat): real
    requires n > 0
  {
    (a as real + 0.5) / n as real * 100.0
  }

  function CellCenterPercent(position: int, width: nat, height: nat): Point
    requires width > 0 && height > 0
  {
    var index := Clamped(position, width * height) - 1;
    var row := index / width;
    Point(Middle(Mirrored(index % width, row, width), width), Middle(height - 1 - row, height))
  }

  // ------------------------------------------------------------------- arithmetic

  lemma TimesReflects(a: int, b: int, w: nat)
    requires a * w < b * w
    ensures a < b
  {
    if a >= b {
      Draws.TimesGrows(b, a, w);
    }
  }

  lemma Quotient(n: int, w: nat, q: int, r: int)
    requires w > 0 && 0 <= r < w && n == q * w + r
    ensures n / w == q && n % w == r
  {
    var p := n / w;
    assert n == p * w + n % w;
    assert (q + 1) * w == q * w + w && (p + 1) * w == p * w + w;
    TimesReflects(p, q + 1, w);
    TimesReflects(q, p + 1, w);
  }

  // The row of a cell number, counted from the bottom.
  lemma RowOf(index: int, width: nat, height: nat)
    requires 1 <= index <= width * height && width > 0
    ensures var row, offset := (index - 1) / width, (index - 1) % width;
            0 <= row < height && 0 <= offset < width && index - 1 == row * width + offset
  {
    var row := (index - 1) / width;
    assert index - 1 == row * width + (index - 1) % width;
    assert (row + 1) * width == row * width + width && height * width == width * height;
    TimesReflects(row, height, width);
    TimesReflects(0, row + 1, width);
  }

  // ------------------------------------------------------------------ two bijections

  lemma NumberToSquare(index: int, width: nat, height: nat)
    ensures MapToGrid(index, width, height).Some? <==> 1 <= index <= width * height
    ensures var s := MapToGrid(index, width, height);
            s.Some? ==> OnBoard(s.value, width, height) && CellAt(s.value.y, s.value.x, width, height) == index
  {
    if 1 <= index <= width * height {
      assert width > 0 || width * height == 0;
      RowOf(index, width, height);
    }
  }

  lemma SquareToNumber(s: Square, width: nat, height: nat)
    requires OnBoard(s, width, height)
    ensures 1 <= CellAt(s.y, s.x, width, height) <= width * height
    ensures MapToGrid(CellAt(s.y, s.x, width, height), width, height) == Some(s)
  {
    var row := height - 1 - s.y;
    var offset := Mirrored(s.x, row, width);
    Draws.TimesGrows(0, row, width);
    Draws.TimesGrows(row + 1, height, width);
    assert (row + 1) * width == row * width + width;
    Quotient(row * width + offset, width, row, offset);
  }

  // The numbers begin at the bottom left, run to the right on the first row, and rise by a row
  // after every `width` of them.
  lemma NumbersBeginAtTheBottomLeft(index: int, width: nat, height: nat)
    requires 1 <= index <= width * height && width > 0
    ensures var s := MapToGrid(index, width, height);
            && s.Some? && s.value.y == height - 1 - (index - 1) / width
            && (index <= width ==> s.value == Square(index - 1, height - 1))
  {
    if index <= width {
      Quotient(index - 1, width, 0, index - 1);
    }
  }

  function Apart(a: int, b: int): nat {
    if a < b then b - a else a - b
  }

  // A token that moves one number moves to an orthogonally adjacent square.
  lemma ConsecutiveNumbersTouch(index: int, width: nat, height: nat)
    requires 1 <= index < width * height && width > 0
    ensures var s, t := MapToGrid(index, width, height), MapToGrid(index + 1, width, height);
            s.Some? && t.Some? && Apart(s.value.x, t.value.x) + Apart(s.value.y, t.value.y) == 1
  {
    RowOf(index, width, height);
    var row, offset := (index - 1) / width, (index - 1) % width;
    if offset + 1 < width {
      Quotient(index, width, row, offset + 1);
    } else {
      assert (row + 1) * width == row * width + width;
      Quotient(index, width, row + 1, 0);
    }
  }

  // The drawn point is the centre of the square that the board map gives: halfway between
  // its edges in both directions, in percent of the board.
  predicate Centred(p: Point, s: Square, width: nat, height: nat) {
    && p.x * width as real == 100.0 * s.x as real + 50.0
    && p.y * height as real == 100.0 * s.y as real + 50.0
  }

  lemma ClampedIsOnBoard(position: int, width: nat, height: nat)
    requires width > 0 && height > 0
    ensures 1 <= Clamped(position, width * height) <= width * height
    ensures Clamped(position, width * height) ==
            if position < 1 then 1 else if position > width * height then width * height else position
  {
    Draws.TimesGrows(1, height, width);
    assert width * height == height * width;
  }

  lemma Halfway(a: int, w: nat)
    requires w > 0
    ensures Middle(a, w) * w as real == 100.0 * a as real + 50.0
  {
    var q := (a as real + 0.5) / w as real;
    Scales(q, w as real, a as real + 0.5);
  }

  lemma Scales(q: real, w: real, a: real)
    requires w > 0.0 && q == a / w
    ensures q * 100.0 * w == 100.0 * a
  {
    assert q * w == a;
    assert q * 100.0 * w == 100.0 * (q * w);
  }

  lemma DrawnAtItsSquare(position: int, width: nat, height: nat)
    requires width > 0 && height > 0
    ensures var s := MapToGrid(Clamped(position, width * height), width, height);
            s.Some? && Centred(CellCenterPercent(position, width, height), s.value, width, height)
    ensures Clamped(position, width * height) ==
            if position < 1 then 1 else if position > width * height then width * height else position
  {
    hide Middle, MapToGrid, CellCenterPercent;
    ClampedIsOnBoard(position, width, height);
    var i := Clamped(position, width * height);
    hide Clamped;
    DrawnBySquare(position, i, width, height);
    MiddleIsCentre(MapToGrid(i, width, height).value, width, height);
  }

  lemma MiddleIsCentre(s: Square, width: nat, height: nat)
    requires width > 0 && height > 0
    ensures Centred(Point(Middle(s.x, width), Middle(s.y, height)), s, width, height)
  {
    Halfway(s.x, width);
    Halfway(s.y, height);
    hide Middle;
  }

  lemma DrawnBySquare(position: int, i: int, width: nat, height: nat)
    requires width > 0 && height > 0 && i == Clamped(position, width * height) && 1 <= i <= width * height
    ensures var s := MapToGrid(i, width, height);
            s.Some? && CellCenterPercent(position, width, height) == Point(Middle(s.value.x, width), Middle(s.value.y, height))
  {
    hide Middle, Mirrored, Clamped;
  }

  lemma OneCentre(p: Point, s: Square, t: Square, width: nat, height: nat)
    requires Centred(p, s, width, height) && Centred(p, t, width, height)
    ensures s == t
  {
  }

  // Two tokens are drawn at one point only when they stand on the same number.
  lemma DrawnApart(a: int, b: int, width: nat, height: nat)
    requires 1 <= a <= width * height && 1 <= b <= width * height && width > 0 && height > 0
    requires CellCenterPercent(a, width, height) == CellCenterPercent(b, width, height)
    ensures a == b
  {
    hide *;
    DrawnAtItsSquare(a, width, height);
    DrawnAtItsSquare(b, width, height);
    NumberToSquare(a, width, height);
    NumberToSquare(b, width, height);
    var s, t := MapToGrid(a, width, height).value, MapToGrid(b, width, height).value;
    OneCentre(CellCenterPercent(a, width, height), s, t, width, height);
  }
}
