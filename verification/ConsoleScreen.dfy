/** hal/x86_64/console.c in place: the VGA cells, the panes' cursors and the parser's fields. */
module ConsoleScreen {
  import opened Words
  import opened ConsoleSpec
  import opened ConsoleProperties

  datatype EscState = EscNone | EscGotEsc | EscInSeq

  const VGA_ROWS: nat := 25
  const VGA_COLS: nat := 80
  const LOG_PANE: Pane := Pane(1, 2, 78, 13, 0, 0)
  const SHELL_PANE: Pane := Pane(1, 18, 78, 6, 0, 0)

  const LOG_BOX: Box := Box(1, 15, 0, 79)
  const SHELL_BOX: Box := Box(17, 24, 0, 79)

  /** The screen hal_console_init leaves: the banner on top, two boxes, blanks. */
  function FirstCell(banner: seq<byte>, logTitle: seq<byte>, shellTitle: seq<byte>, i: nat, j: nat): Cell {
    var line := if i == 0 && j < |banner| then Cell(banner[j], VGA_COLOR) else BLANK;
    BoxedCell(SHELL_BOX, shellTitle, i, j, BoxedCell(LOG_BOX, logTitle, i, j, line))
  }

  ghost function RowOf(cells: array2<Cell>, r: nat): (row: seq<Cell>)
    requires r < cells.Length0
    reads cells
    ensures |row| == cells.Length1
    ensures forall c :: 0 <= c < |row| ==> row[c] == cells[r, c]
  {
    seq(cells.Length1, c requires 0 <= c < cells.Length1 reads cells => cells[r, c])
  }

  ghost function GridOf(cells: array2<Cell>): (g: Grid)
    reads cells
    ensures |g| == cells.Length0
    ensures forall r :: 0 <= r < |g| ==> |g[r]| == cells.Length1
    ensures forall r, c :: 0 <= r < |g| && 0 <= c < |g[r]| ==> g[r][c] == cells[r, c]
  {
    seq(cells.Length0, r requires 0 <= r < cells.Length0 reads cells => RowOf(cells, r))
  }

  /** The array holds exactly this grid. */
  ghost predicate Holds(cells: array2<Cell>, g: Grid)
    reads cells
  {
    && |g| == cells.Length0
    && (forall r :: 0 <= r < |g| ==> |g[r]| == cells.Length1)
    && (forall r, c :: 0 <= r < cells.Length0 && 0 <= c < cells.Length1 ==> cells[r, c] == g[r][c])
  }

  lemma HoldsIsGrid(cells: array2<Cell>, g: Grid)
    requires Holds(cells, g)
    ensures GridOf(cells) == g
  {
    forall r | 0 <= r < |g|
      ensures GridOf(cells)[r] == g[r]
    {
    }
  }

  predicate InScreen(p: Pane, cells: array2<Cell>) {
    p.y + p.h <= cells.Length0 && p.x + p.w <= cells.Length1
  }

  lemma FitsInScreen(p: Pane, cells: array2<Cell>)
    requires Fits(p, GridOf(cells)) && p.h > 0
    ensures InScreen(p, cells)
  {
    assert |GridOf(cells)[p.y]| == cells.Length1;
  }

  /** win_scroll's loops. */
  method ScrollCells(cells: array2<Cell>, p: Pane)
    requires InScreen(p, cells) && p.h > 0 && Fits(p, GridOf(cells))
    modifies cells
    ensures GridOf(cells) == ScrollGrid(old(GridOf(cells)), p)
  {
    ShiftRows(cells, p);
    label shifted:
    var c := 0;
    while c < p.w
      invariant 0 <= c <= p.w
      invariant forall i, j :: 0 <= i < cells.Length0 && 0 <= j < cells.Length1 ==>
                  cells[i, j] == if i == p.y + p.h - 1 && p.x <= j < p.x + c then BLANK else old@shifted(cells[i, j])
    {
      cells[p.y + p.h - 1, p.x + c] := BLANK;
      c := c + 1;
    }
    HoldsIsGrid(cells, ScrollGrid(old(GridOf(cells)), p));
  }

  /** Every interior row but the first moves up by one. */
  method ShiftRows(cells: array2<Cell>, p: Pane)
    requires InScreen(p, cells) && p.h > 0
    modifies cells
    ensures forall i, j :: 0 <= i < cells.Length0 && 0 <= j < cells.Length1 ==>
              cells[i, j] == if Inside(p, i, j) && i + 1 < p.y + p.h then old(cells[i + 1, j]) else old(cells[i, j])
  {
    var r := 1;
    while r < p.h
      invariant 1 <= r <= p.h
      invariant forall i, j :: 0 <= i < cells.Length0 && 0 <= j < cells.Length1 ==>
                  cells[i, j] == if Inside(p, i, j) && i + 1 < p.y + r then old(cells[i + 1, j]) else old(cells[i, j])
    {
      ShiftRow(cells, p, r);
      r := r + 1;
    }
  }

  method ShiftRow(cells: array2<Cell>, p: Pane, r: nat)
    requires InScreen(p, cells) && 1 <= r < p.h
    modifies cells
    ensures forall i, j :: 0 <= i < cells.Length0 && 0 <= j < cells.Length1 ==>
              cells[i, j] == if i == p.y + r - 1 && p.x <= j < p.x + p.w then old(cells[i + 1, j]) else old(cells[i, j])
  {
    var c := 0;
    while c < p.w
      invariant 0 <= c <= p.w
      invariant forall i, j :: 0 <= i < cells.Length0 && 0 <= j < cells.Length1 ==>
                  cells[i, j] == if i == p.y + r - 1 && p.x <= j < p.x + c then old(cells[i + 1, j]) else old(cells[i, j])
    {
      cells[p.y + r - 1, p.x + c] := cells[p.y + r, p.x + c];
      c := c + 1;
    }
  }

  /** win_clear_and_home's loops. */
  method ClearCells(cells: array2<Cell>, p: Pane, color: byte)
    requires InScreen(p, cells)
    modifies cells
    ensures GridOf(cells) == ClearGrid(old(GridOf(cells)), p, color)
  {
    var r := 0;
    while r < p.h
      invariant 0 <= r <= p.h
      invariant forall i, j :: 0 <= i < cells.Length0 && 0 <= j < cells.Length1 ==>
                  cells[i, j] == if Inside(p, i, j) && i < p.y + r then Cell(SPACE, color) else old(cells[i, j])
    {
      FillRow(cells, p.y + r, p.x, p.x + p.w, Cell(SPACE, color));
      r := r + 1;
    }
    HoldsIsGrid(cells, ClearGrid(old(GridOf(cells)), p, color));
  }

  /** Columns from..to of one row. */
  method FillRow(cells: array2<Cell>, r: nat, from: nat, to: nat, cell: Cell)
    requires r < cells.Length0 && from <= to <= cells.Length1
    modifies cells
    ensures forall i, j :: 0 <= i < cells.Length0 && 0 <= j < cells.Length1 ==>
              cells[i, j] == if i == r && from <= j < to then cell else old(cells[i, j])
  {
    var c := from;
    while c < to
      invariant from <= c <= to
      invariant forall i, j :: 0 <= i < cells.Length0 && 0 <= j < cells.Length1 ==>
                  cells[i, j] == if i == r && from <= j < c then cell else old(cells[i, j])
    {
      cells[r, c] := cell;
      c := c + 1;
    }
  }

  class Screen {
    const cells: array2<Cell>
    var panes: seq<Pane>
    var current: nat
    var escState: EscState
    var escParams: seq<int>
    var escCur: int
    var color: byte

    ghost function State(): Console
      reads this, cells
    {
      Console(GridOf(cells), panes, current,
              match escState
              case EscNone => Plain
              case EscGotEsc => GotEsc
              case EscInSeq => InSeq(escParams, escCur),
              color)
    }

    ghost predicate Valid()
      reads this, cells
    {
      ConsoleOk(State())
    }

    method SetWindow(win: int)
      requires Valid()
      modifies this`current
      ensures Valid() && State() == ConsoleSpec.SetWindow(old(State()), win)
    {
      if 0 <= win < |panes| {
        current := win;
      }
    }

    method ApplySgr()
      modifies this`color
      ensures color == if escParams == [] then VGA_COLOR else Sgr(old(color), escParams)
    {
      if |escParams| == 0 {
        color := VGA_COLOR;
        return;
      }
      var i := 0;
      while i < |escParams|
        invariant 0 <= i <= |escParams|
        invariant Sgr(color, escParams[i..]) == Sgr(old(color), escParams)
      {
        var n := escParams[i];
        assert escParams[i..][1..] == escParams[i + 1..];
        if n == 0 {
          color := VGA_COLOR;
        } else if n >= 30 && n <= 37 {
          color := color / 16 * 16 + AnsiToVga(n - 30);
        } else if n >= 40 && n <= 47 {
          color := color % 16 + 16 * AnsiToVga(n - 40);
        }
        i := i + 1;
      }
    }

    /** The byte that ends a sequence. */
    method FinishSequence(c: byte)
      requires Valid() && escState.EscInSeq?
      modifies this, cells
      ensures State() == Finish(old(State()), AddParam(old(escParams), old(escCur)), c)
    {
      var p := panes[current];
      FitsInScreen(p, cells);
      escParams := AddParam(escParams, escCur);
      escState := EscNone;
      if c == 'J' as int {
        ClearCells(cells, p, color);
        panes := panes[current := p.(cx := 0, cy := 0)];
      } else if c == 'H' as int {
        var row := CursorArg(escParams, 0, p.h);
        var col := CursorArg(escParams, 1, p.w);
        panes := panes[current := p.(cy := row, cx := col)];
      } else if c == 'm' as int {
        ApplySgr();
      }
    }

    method Sequence(c: byte)
      requires Valid() && escState.EscInSeq?
      modifies this, cells
      ensures State() == InSequence(old(State()), c)
    {
      if c >= '0' as int && c <= '9' as int {
        escCur := Int32(escCur * 10 + (c - '0' as int));
      } else if c == ';' as int {
        escParams := AddParam(escParams, escCur);
        escCur := 0;
      } else {
        FinishSequence(c);
      }
    }

    method Character(c: byte)
      requires Valid() && escState.EscNone?
      modifies this, cells
      ensures State() == PutPlain(old(State()), c)
    {
      var p := panes[current];
      FitsInScreen(p, cells);
      if c == NEWLINE {
        p := p.(cx := 0, cy := p.cy + 1);
      } else if c == BACKSPACE {
        p := Retreat(p);
      } else {
        cells[p.y + p.cy, p.x + p.cx] := Cell(c, color);
        HoldsIsGrid(cells, PutCell(old(GridOf(cells)), p.y + p.cy, p.x + p.cx, Cell(c, color)));
        p := p.(cx := p.cx + 1);
        if p.cx >= p.w {
          p := p.(cx := 0, cy := p.cy + 1);
        }
      }
      SettleCursor(p);
    }

    /** Scrolls if the cursor has left the pane at the bottom. */
    method SettleCursor(p: Pane)
      requires current < |panes| && p.h > 0 && Fits(p, GridOf(cells))
      modifies this`panes, cells
      ensures State() == Settle(old(State()), p)
    {
      FitsInScreen(p, cells);
      if p.cy >= p.h {
        ScrollCells(cells, p);
        panes := panes[current := p.(cy := p.h - 1)];
      } else {
        panes := panes[current := p];
      }
    }

    /** hal_console_putchar. */
    method PutByte(c: byte)
      requires Valid()
      modifies this, cells
      ensures Valid() && State() == PutChar(old(State()), c)
    {
      PutKeeps(State(), Put(c));
      if escState.EscNone? && c == ESC {
        escState := EscGotEsc;
        return;
      }
      if escState.EscGotEsc? {
        if c == '[' as int {
          escState, escParams, escCur := EscInSeq, [], 0;
        } else {
          escState := EscNone;
        }
        return;
      }
      if escState.EscInSeq? {
        Sequence(c);
        return;
      }
      Character(c);
    }

    /** hal_console_write, on the bytes before the string's terminator. */
    method Write(text: seq<byte>)
      requires Valid()
      modifies this, cells
      ensures Valid() && State() == Run(old(State()), Puts(text))
    {
      var i := 0;
      assert Puts(text[..0]) == [];
      while i < |text|
        invariant 0 <= i <= |text|
        invariant Valid() && State() == Run(old(State()), Puts(text[..i]))
      {
        assert Puts(text[..i + 1]) == Puts(text[..i]) + [Put(text[i])];
        assert Puts(text[..i + 1])[..i] == Puts(text[..i]);
        PutByte(text[i]);
        i := i + 1;
      }
      assert text[..i] == text;
    }

    /** hal_console_init: both panes blank and home, the frames drawn around them. */
    constructor (banner: seq<byte>, logTitle: seq<byte>, shellTitle: seq<byte>)
      ensures Valid() && fresh(cells) && Cleared(State())
      ensures panes == [LOG_PANE, SHELL_PANE] && current == 0 && color == VGA_COLOR
      ensures cells.Length0 == VGA_ROWS && cells.Length1 == VGA_COLS
      ensures forall i, j :: 0 <= i < VGA_ROWS && 0 <= j < VGA_COLS ==>
                cells[i, j] == FirstCell(banner, logTitle, shellTitle, i, j)
    {
      cells := new Cell[VGA_ROWS, VGA_COLS]((r, c) => BLANK);
      panes, current := [LOG_PANE, SHELL_PANE], 0;
      escState, escParams, escCur, color := EscNone, [], 0, VGA_COLOR;
      new;
      DrawFrames(cells, banner, logTitle, shellTitle);
      ClearedPanes(State(), banner, logTitle, shellTitle);
    }
  }

  function Puts(text: seq<byte>): (os: seq<Out>)
    ensures |os| == |text|
  {
    seq(|text|, i requires 0 <= i < |text| => Put(text[i]))
  }

  /** A box's frame, without its title. */
  datatype Box = Box(top: nat, bottom: nat, left: nat, right: nat)

  predicate OnBorder(b: Box, i: int, j: int) {
    b.top <= i <= b.bottom && b.left <= j <= b.right && (i == b.top || i == b.bottom || j == b.left || j == b.right)
  }

  predicate InTitle(b: Box, title: seq<byte>, i: int, j: int) {
    i == b.top && b.left + 2 <= j < b.right - 1 && j - (b.left + 2) < |title|
  }

  /** The glyph draw_box leaves at a cell of its border: title, corners, bars. */
  function BorderGlyph(b: Box, title: seq<byte>, i: int, j: int): byte
    requires OnBorder(b, i, j)
  {
    if InTitle(b, title, i, j) then title[j - (b.left + 2)]
    else if i == b.top then if j == b.left then 0xDA else if j == b.right then 0xBF else 0xC4
    else if i == b.bottom then if j == b.left then 0xC0 else if j == b.right then 0xD9 else 0xC4
    else 0xB3
  }

  function BoxedCell(b: Box, title: seq<byte>, i: int, j: int, before: Cell): Cell {
    if OnBorder(b, i, j) then Cell(BorderGlyph(b, title, i, j), VGA_COLOR) else before
  }

  /** Banner and frames leave both panes blank. */
  lemma ClearedPanes(s: Console, banner: seq<byte>, logTitle: seq<byte>, shellTitle: seq<byte>)
    requires s.panes == [LOG_PANE, SHELL_PANE] && s.current == 0 && s.parser.Plain?
    requires |s.grid| == VGA_ROWS && forall i :: 0 <= i < VGA_ROWS ==> |s.grid[i]| == VGA_COLS
    requires forall i, j :: 0 <= i < VGA_ROWS && 0 <= j < VGA_COLS ==> s.grid[i][j] == FirstCell(banner, logTitle, shellTitle, i, j)
    ensures Cleared(s)
  {
  }

  /** The banner and the two frames. */
  method DrawFrames(cells: array2<Cell>, banner: seq<byte>, logTitle: seq<byte>, shellTitle: seq<byte>)
    requires cells.Length0 == VGA_ROWS && cells.Length1 == VGA_COLS
    requires forall i, j :: 0 <= i < VGA_ROWS && 0 <= j < VGA_COLS ==> cells[i, j] == BLANK
    modifies cells
    ensures forall i, j :: 0 <= i < VGA_ROWS && 0 <= j < VGA_COLS ==>
              cells[i, j] == FirstCell(banner, logTitle, shellTitle, i, j)
  {
    PutTitle(cells, 0, 0, VGA_COLS, banner);
    DrawBox(cells, LOG_BOX, logTitle);
    DrawBox(cells, SHELL_BOX, shellTitle);
  }

  /** draw_box. */
  method DrawBox(cells: array2<Cell>, b: Box, title: seq<byte>)
    requires b.top < b.bottom < cells.Length0 && b.left < b.right < cells.Length1
    modifies cells
    ensures forall i, j :: 0 <= i < cells.Length0 && 0 <= j < cells.Length1 ==>
              cells[i, j] == BoxedCell(b, title, i, j, old(cells[i, j]))
  {
    FillRow(cells, b.top, b.left + 1, b.right, Cell(0xC4, VGA_COLOR));
    FillRow(cells, b.bottom, b.left + 1, b.right, Cell(0xC4, VGA_COLOR));
    DrawSides(cells, b);
    cells[b.top, b.left] := Cell(0xDA, VGA_COLOR);
    cells[b.top, b.right] := Cell(0xBF, VGA_COLOR);
    cells[b.bottom, b.left] := Cell(0xC0, VGA_COLOR);
    cells[b.bottom, b.right] := Cell(0xD9, VGA_COLOR);
    PutTitle(cells, b.top, b.left + 2, b.right - 1, title);
  }

  method DrawSides(cells: array2<Cell>, b: Box)
    requires b.top < b.bottom < cells.Length0 && b.left < b.right < cells.Length1
    modifies cells
    ensures forall i, j :: 0 <= i < cells.Length0 && 0 <= j < cells.Length1 ==>
              cells[i, j] == if b.top < i < b.bottom && (j == b.left || j == b.right) then Cell(0xB3, VGA_COLOR) else old(cells[i, j])
  {
    var r := b.top + 1;
    while r < b.bottom
      invariant b.top + 1 <= r <= b.bottom
      invariant forall i, j :: 0 <= i < cells.Length0 && 0 <= j < cells.Length1 ==>
                  cells[i, j] == if b.top < i < r && (j == b.left || j == b.right) then Cell(0xB3, VGA_COLOR) else old(cells[i, j])
    {
      cells[r, b.left] := Cell(0xB3, VGA_COLOR);
      cells[r, b.right] := Cell(0xB3, VGA_COLOR);
      r := r + 1;
    }
  }

  /** As much of the text as fits into columns from..to of one row. */
  method PutTitle(cells: array2<Cell>, row: nat, from: nat, to: nat, title: seq<byte>)
    requires row < cells.Length0 && to <= cells.Length1
    modifies cells
    ensures forall i, j :: 0 <= i < cells.Length0 && 0 <= j < cells.Length1 ==>
              cells[i, j] == if i == row && from <= j < to && j - from < |title| then Cell(title[j - from], VGA_COLOR)
                             else old(cells[i, j])
  {
    var k := 0;
    while k < |title| && from + k < to
      invariant 0 <= k <= |title| && (from + k <= to || k == 0)
      invariant forall i, j :: 0 <= i < cells.Length0 && 0 <= j < cells.Length1 ==>
                  cells[i, j] == if i == row && from <= j < to && j - from < k then Cell(title[j - from], VGA_COLOR)
                                 else old(cells[i, j])
    {
      cells[row, from + k] := Cell(title[k], VGA_COLOR);
      k := k + 1;
    }
  }
}
