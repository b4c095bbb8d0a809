/**
  The two-pane console (hal/x86_64/console.c) on values: a grid of cells, panes
  with their own cursors, and one escape-sequence parser shared by all panes.
 */
module ConsoleSpec {
  import opened Words

  const VGA_COLOR: byte := 0x0A
  const SPACE: byte := 0x20
  const NEWLINE: byte := 0x0A
  const BACKSPACE: byte := 0x08
  const ESC: byte := 0x1B
  const MAX_PARAMS: nat := 4

  datatype Cell = Cell(glyph: byte, color: byte)

  const BLANK: Cell := Cell(SPACE, VGA_COLOR)

  type Grid = seq<seq<Cell>>

  /** A pane's interior (its top-left corner and size) and its local cursor. */
  datatype Pane = Pane(x: nat, y: nat, w: nat, h: nat, cx: nat, cy: nat)

  /** `params` holds at most four values; anything past them is dropped. */
  datatype Parser = Plain | GotEsc | InSeq(params: seq<int>, cur: int)

  datatype Console = Console(grid: Grid, panes: seq<Pane>, current: nat, parser: Parser, color: byte)

  predicate Inside(p: Pane, r: int, c: int) {
    p.y <= r < p.y + p.h && p.x <= c < p.x + p.w
  }

  predicate CursorInside(p: Pane) {
    p.cx < p.w && p.cy < p.h
  }

  predicate Fits(p: Pane, g: Grid) {
    && p.y + p.h <= |g|
    && forall r :: 0 <= r < |g| ==> p.x + p.w <= |g[r]|
  }

  predicate Apart(p: Pane, q: Pane) {
    p.y + p.h <= q.y || q.y + q.h <= p.y || p.x + p.w <= q.x || q.x + q.w <= p.x
  }

  predicate ConsoleOk(s: Console) {
    && s.current < |s.panes|
    && (forall i :: 0 <= i < |s.panes| ==> CursorInside(s.panes[i]) && Fits(s.panes[i], s.grid))
    && (forall i, j :: 0 <= i < j < |s.panes| ==> Apart(s.panes[i], s.panes[j]))
    && (s.parser.InSeq? ==> |s.parser.params| <= MAX_PARAMS)
  }

  function Current(s: Console): Pane
    requires s.current < |s.panes|
  {
    s.panes[s.current]
  }

  /** All that writing the current pane needs. */
  predicate Writable(s: Console) {
    s.current < |s.panes| && CursorInside(Current(s)) && Fits(Current(s), s.grid)
  }

  // ---- the grid -----------------------------------------------------------------

  predicate SameShape(g: Grid, g': Grid) {
    |g'| == |g| && forall r :: 0 <= r < |g| ==> |g'[r]| == |g[r]|
  }

  function PutCell(g: Grid, r: nat, c: nat, cell: Cell): (g': Grid)
    requires r < |g| && c < |g[r]|
    ensures SameShape(g, g')
    ensures forall i, j :: 0 <= i < |g| && 0 <= j < |g[i]| ==> g'[i][j] == if i == r && j == c then cell else g[i][j]
  {
    g[r := g[r][c := cell]]
  }

  /** One cell of a pane that has moved up a row. */
  function ScrolledCell(g: Grid, p: Pane, r: nat, c: nat): Cell
    requires Fits(p, g) && r < |g| && c < |g[r]|
  {
    if !Inside(p, r, c) then g[r][c]
    else if r + 1 < p.y + p.h then g[r + 1][c]
    else BLANK
  }

  function ScrolledRow(g: Grid, p: Pane, r: nat): (row: seq<Cell>)
    requires Fits(p, g) && r < |g|
    ensures |row| == |g[r]|
    ensures forall c :: 0 <= c < |row| ==> row[c] == ScrolledCell(g, p, r, c)
  {
    seq(|g[r]|, c requires 0 <= c < |g[r]| => ScrolledCell(g, p, r, c))
  }

  /** win_scroll's effect on the screen. */
  function ScrollGrid(g: Grid, p: Pane): (g': Grid)
    requires Fits(p, g)
    ensures SameShape(g, g')
    ensures forall r, c :: 0 <= r < |g| && 0 <= c < |g[r]| ==> g'[r][c] == ScrolledCell(g, p, r, c)
  {
    seq(|g|, r requires 0 <= r < |g| => ScrolledRow(g, p, r))
  }

  function ClearedRow(g: Grid, p: Pane, color: byte, r: nat): (row: seq<Cell>)
    requires r < |g|
    ensures |row| == |g[r]|
    ensures forall c :: 0 <= c < |row| ==> row[c] == if Inside(p, r, c) then Cell(SPACE, color) else g[r][c]
  {
    seq(|g[r]|, c requires 0 <= c < |g[r]| => if Inside(p, r, c) then Cell(SPACE, color) else g[r][c])
  }

  /** win_clear_and_home's effect on the screen. */
  function ClearGrid(g: Grid, p: Pane, color: byte): (g': Grid)
    ensures SameShape(g, g')
    ensures forall r, c :: 0 <= r < |g| && 0 <= c < |g[r]| ==>
              g'[r][c] == if Inside(p, r, c) then Cell(SPACE, color) else g[r][c]
  {
    seq(|g|, r requires 0 <= r < |g| => ClearedRow(g, p, color, r))
  }

  // ---- escape sequences -------------------------------------------------------------

  function AnsiToVga(n: nat): (r: nat)
    requires n < 8
    ensures r < 8
  {
    [0, 4, 2, 6, 1, 5, 3, 7][n]
  }

  function SgrOne(color: byte, n: int): byte {
    if n == 0 then VGA_COLOR
    else if 30 <= n <= 37 then color / 16 * 16 + AnsiToVga(n - 30)
    else if 40 <= n <= 47 then color % 16 + 16 * AnsiToVga(n - 40)
    else color
  }

  /** apply_sgr over the parameters, left to right. */
  function Sgr(color: byte, params: seq<int>): byte
    decreases |params|
  {
    if params == [] then color else Sgr(SgrOne(color, params[0]), params[1..])
  }

  function AddParam(params: seq<int>, v: int): (r: seq<int>)
    ensures |params| <= MAX_PARAMS ==> |r| <= MAX_PARAMS
  {
    if |params| < MAX_PARAMS then params + [v] else params
  }

  /** A 1-based cursor argument, clamped to the pane. */
  function CursorArg(params: seq<int>, i: nat, limit: nat): (r: nat)
    requires limit > 0
    ensures r < limit
  {
    var v := if i < |params| && params[i] > 0 then params[i] - 1 else 0;
    if v >= limit then limit - 1 else v
  }

  function SetCurrent(s: Console, p: Pane): Console
    requires s.current < |s.panes|
  {
    s.(panes := s.panes[s.current := p])
  }

  /** The final byte of a sequence. */
  function Finish(s: Console, params: seq<int>, c: byte): Console
    requires Writable(s)
  {
    var p := Current(s);
    var s1 := s.(parser := Plain);
    if c == 'J' as int then SetCurrent(s1.(grid := ClearGrid(s.grid, p, s.color)), p.(cx := 0, cy := 0))
    else if c == 'H' as int then SetCurrent(s1, p.(cy := CursorArg(params, 0, p.h), cx := CursorArg(params, 1, p.w)))
    else if c == 'm' as int then s1.(color := if params == [] then VGA_COLOR else Sgr(s.color, params))
    else s1
  }

  // ---- characters -------------------------------------------------------------------

  /** Bring a cursor that ran off the bottom back by scrolling. */
  function Settle(s: Console, p: Pane): Console
    requires s.current < |s.panes| && Fits(p, s.grid) && p.h > 0
  {
    if p.cy >= p.h then SetCurrent(s.(grid := ScrollGrid(s.grid, p)), p.(cy := p.h - 1))
    else SetCurrent(s, p)
  }

  /** The cursor one place on, wrapping as soon as the last column is filled. */
  function Advance(p: Pane): Pane {
    if p.cx + 1 >= p.w then p.(cx := 0, cy := p.cy + 1) else p.(cx := p.cx + 1)
  }

  function Retreat(p: Pane): Pane {
    if p.cx > 0 then p.(cx := p.cx - 1)
    else if p.cy > 0 && p.w > 0 then p.(cy := p.cy - 1, cx := p.w - 1)
    else p
  }

  function PutPlain(s: Console, c: byte): Console
    requires Writable(s)
  {
    var p := Current(s);
    if c == NEWLINE then Settle(s, p.(cx := 0, cy := p.cy + 1))
    else if c == BACKSPACE then SetCurrent(s, Retreat(p))
    else Settle(s.(grid := PutCell(s.grid, p.y + p.cy, p.x + p.cx, Cell(c, s.color))), Advance(p))
  }

  function InSequence(s: Console, c: byte): Console
    requires Writable(s) && s.parser.InSeq?
  {
    var params, cur := s.parser.params, s.parser.cur;
    if '0' as int <= c <= '9' as int then s.(parser := InSeq(params, Int32(cur * 10 + (c - '0' as int))))
    else if c == ';' as int then s.(parser := InSeq(AddParam(params, cur), 0))
    else Finish(s, AddParam(params, cur), c)
  }

  /** hal_console_putchar. */
  function PutChar(s: Console, c: byte): (s': Console)
    requires Writable(s)
  {
    match s.parser
    case Plain => if c == ESC then s.(parser := GotEsc) else PutPlain(s, c)
    case GotEsc => s.(parser := if c == '[' as int then InSeq([], 0) else Plain)
    case InSeq(_, _) => InSequence(s, c)
  }

  /** hal_console_set_window ignores a window that does not exist. */
  function SetWindow(s: Console, win: int): Console {
    if 0 <= win < |s.panes| then s.(current := win) else s
  }
}
