/** What the console promises for every stream of bytes and every switching between panes. */
module ConsoleProperties {
  import opened Words
  import opened ConsoleSpec

  datatype Out = Switch(win: int) | Put(c: byte)

  function Apply(s: Console, o: Out): (s': Console)
    requires ConsoleOk(s)
    ensures ConsoleOk(s')
  {
    PutKeeps(s, o);
    match o
    case Switch(win) => SetWindow(s, win)
    case Put(c) => PutChar(s, c)
  }

  function Run(s: Console, os: seq<Out>): (s': Console)
    requires ConsoleOk(s)
    ensures ConsoleOk(s')
    decreases |os|
  {
    if os == [] then s else Apply(Run(s, os[..|os| - 1]), os[|os| - 1])
  }

  // ---- panes never disturb each other --------------------------------------------------

  /** Same screen outside pane p's interior. */
  predicate OnlyInside(g: Grid, g': Grid, p: Pane) {
    && SameShape(g, g')
    && forall r, c :: 0 <= r < |g| && 0 <= c < |g[r]| && !Inside(p, r, c) ==> g'[r][c] == g[r][c]
  }

  predicate SameFrame(p: Pane, q: Pane) {
    q == p.(cx := q.cx, cy := q.cy)
  }

  /** What may change when the current pane is written: its interior and its cursor, which stays inside. */
  predicate Confined(s: Console, s': Console)
    requires s.current < |s.panes|
  {
    && |s'.panes| == |s.panes| && s'.current == s.current
    && OnlyInside(s.grid, s'.grid, Current(s))
    && SameFrame(Current(s), s'.panes[s.current]) && CursorInside(s'.panes[s.current])
    && (forall i :: 0 <= i < |s.panes| && i != s.current ==> s'.panes[i] == s.panes[i])
  }

  lemma SettleConfined(s: Console, g: Grid, p: Pane)
    requires ConsoleOk(s) && OnlyInside(s.grid, g, Current(s)) && SameFrame(Current(s), p)
    requires p.cx < p.w && p.cy <= p.h
    ensures Fits(p, g) && Confined(s, Settle(s.(grid := g), p))
  {
  }

  lemma PlainConfined(s: Console, c: byte)
    requires ConsoleOk(s)
    ensures Confined(s, PutPlain(s, c))
  {
    var p := Current(s);
    if c == NEWLINE {
      SettleConfined(s, s.grid, p.(cx := 0, cy := p.cy + 1));
    } else if c != BACKSPACE {
      SettleConfined(s, PutCell(s.grid, p.y + p.cy, p.x + p.cx, Cell(c, s.color)), Advance(p));
    }
  }

  lemma FinishConfined(s: Console, params: seq<int>, c: byte)
    requires ConsoleOk(s)
    ensures Confined(s, Finish(s, params, c))
  {
  }

  /** One byte, whatever the parser is in the middle of. */
  lemma PutConfined(s: Console, c: byte)
    requires ConsoleOk(s)
    ensures Confined(s, PutChar(s, c))
  {
    PlainConfined(s, c);
    if s.parser.InSeq? {
      FinishConfined(s, AddParam(s.parser.params, s.parser.cur), c);
    }
  }

  lemma ConfinedKeeps(s: Console, s': Console)
    requires ConsoleOk(s) && Confined(s, s')
    requires s'.parser.InSeq? ==> |s'.parser.params| <= MAX_PARAMS
    ensures ConsoleOk(s')
  {
    forall i, j | 0 <= i < j < |s'.panes|
      ensures Apart(s'.panes[i], s'.panes[j])
    {
      assert Apart(s.panes[i], s.panes[j]);
      assert SameFrame(s.panes[i], s'.panes[i]) && SameFrame(s.panes[j], s'.panes[j]);
    }
  }

  lemma PutKeeps(s: Console, o: Out)
    requires ConsoleOk(s)
    ensures o.Switch? ==> ConsoleOk(SetWindow(s, o.win))
    ensures o.Put? ==> ConsoleOk(PutChar(s, o.c))
  {
    if o.Put? {
      PutConfined(s, o.c);
      ConfinedKeeps(s, PutChar(s, o.c));
    }
  }

  /** The windows of a run never move. */
  lemma {:induction false} FramesKept(s: Console, os: seq<Out>, i: nat)
    requires ConsoleOk(s) && i < |s.panes|
    ensures |Run(s, os).panes| == |s.panes| && SameFrame(s.panes[i], Run(s, os).panes[i])
    decreases |os|
  {
    if os != [] {
      var before := Run(s, os[..|os| - 1]);
      FramesKept(s, os[..|os| - 1], i);
      if os[|os| - 1].Put? {
        PutConfined(before, os[|os| - 1].c);
      }
    }
  }

  /** Is pane i the current one at some point of the run where a byte is written? */
  predicate Writes(s: Console, os: seq<Out>, i: nat)
    requires ConsoleOk(s)
    decreases |os|
  {
    os != [] &&
    (Writes(s, os[..|os| - 1], i) || (os[|os| - 1].Put? && Run(s, os[..|os| - 1]).current == i))
  }

  /**
    Whatever is written, escape sequences and unfinished ones included: the
    cursors stay inside their panes, and a cell changes only if it lies inside
    a pane that was written to. Borders and the other pane never change.
   */
  lemma {:induction false} PanesAreIndependent(s: Console, os: seq<Out>, r: nat, c: nat)
    requires ConsoleOk(s) && r < |s.grid| && c < |s.grid[r]|
    ensures SameShape(s.grid, Run(s, os).grid)
    ensures forall i :: 0 <= i < |Run(s, os).panes| ==> CursorInside(Run(s, os).panes[i])
    ensures (forall i :: 0 <= i < |s.panes| && Writes(s, os, i) ==> !Inside(s.panes[i], r, c))
            ==> Run(s, os).grid[r][c] == s.grid[r][c]
    decreases |os|
  {
    if os != [] {
      var init := os[..|os| - 1];
      var before := Run(s, init);
      PanesAreIndependent(s, init, r, c);
      FramesKept(s, init, before.current) by {
        assert before.current < |s.panes| by { PaneCount(s, init); }
      }
      if os[|os| - 1].Put? {
        PutConfined(before, os[|os| - 1].c);
        assert Writes(s, os, before.current);
      }
    }
  }

  lemma {:induction false} PaneCount(s: Console, os: seq<Out>)
    requires ConsoleOk(s)
    ensures |Run(s, os).panes| == |s.panes|
  {
    FramesKept(s, os, s.current);
  }

  // ---- text wrapped at the pane's width -----------------------------------------------------

  /** Bytes before the first newline, at most w of them. */
  function LineLength(text: seq<byte>, w: nat): (k: nat)
    ensures k <= |text| && k <= w
    ensures k < w && k < |text| ==> text[k] == NEWLINE
    ensures forall i :: 0 <= i < k ==> text[i] != NEWLINE
    decreases |text|
  {
    if text == [] || w == 0 || text[0] == NEWLINE then 0 else 1 + LineLength(text[1..], w - 1)
  }

  /**
    The rows a text takes at width w, wrapped eagerly: a row ends at a newline
    or as soon as it is full. The last row is the one being written, never full.
   */
  function Lines(text: seq<byte>, w: nat): (ls: seq<seq<byte>>)
    requires w > 0
    ensures |ls| > 0 && |ls[|ls| - 1]| < w
    ensures forall i :: 0 <= i < |ls| ==> |ls[i]| <= w
    decreases |text|
  {
    var k := LineLength(text, w);
    if k == w then [text[..w]] + Lines(text[w..], w)
    else if k < |text| then [text[..k]] + Lines(text[k + 1..], w)
    else [text]
  }

  /** One more byte at the end of the last row. */
  function Extend(ls: seq<seq<byte>>, c: byte, w: nat): (r: seq<seq<byte>>)
    requires |ls| > 0
  {
    var n := |ls| - 1;
    if c == NEWLINE then ls + [[]]
    else if |ls[n]| + 1 >= w then ls[..n] + [ls[n] + [c], []]
    else ls[..n] + [ls[n] + [c]]
  }

  lemma {:induction false} LineLengthExtends(text: seq<byte>, c: byte, w: nat)
    ensures LineLength(text + [c], w) ==
            if LineLength(text, w) == |text| && |text| < w && c != NEWLINE then |text| + 1 else LineLength(text, w)
    decreases |text|
  {
    if text == [] {
      assert (text + [c])[1..] == [];
    } else if w > 0 && text[0] != NEWLINE {
      LineLengthExtends(text[1..], c, w - 1);
      assert (text + [c])[1..] == text[1..] + [c];
    }
  }

  /** Wrapping a longer text only touches the last row. */
  lemma {:induction false} LinesExtend(text: seq<byte>, c: byte, w: nat)
    requires w > 0
    ensures Lines(text + [c], w) == Extend(Lines(text, w), c, w)
    decreases |text|
  {
    var k := LineLength(text, w);
    if k == w {
      LinesExtend(text[w..], c, w);
      FirstLineStays(text, c, w, w, w);
    } else if k < |text| {
      LinesExtend(text[k + 1..], c, w);
      FirstLineStays(text, c, w, k, k + 1);
    } else {
      LastLineExtends(text, c, w);
    }
  }

  lemma AppendSlices(text: seq<byte>, c: byte, k: nat, next: nat)
    requires k <= next <= |text|
    ensures (text + [c])[..k] == text[..k] && (text + [c])[next..] == text[next..] + [c]
  {
  }

  /** The first row, of length k, is complete; the rest of the text starts at `next`. */
  predicate FirstRow(text: seq<byte>, w: nat, k: nat, next: nat) {
    k == LineLength(text, w) && k <= next <= |text| && (if k == w then next == w else k < |text| && next == k + 1)
  }

  lemma LinesUnfold(text: seq<byte>, w: nat, k: nat, next: nat)
    requires w > 0 && FirstRow(text, w, k, next)
    ensures Lines(text, w) == [text[..k]] + Lines(text[next..], w)
  {
  }

  lemma FirstRowStays(text: seq<byte>, c: byte, w: nat, k: nat, next: nat)
    requires w > 0 && FirstRow(text, w, k, next)
    ensures FirstRow(text + [c], w, k, next)
  {
    LineLengthExtends(text, c, w);
  }

  lemma FirstLineStays(text: seq<byte>, c: byte, w: nat, k: nat, next: nat)
    requires w > 0 && FirstRow(text, w, k, next)
    requires Lines(text[next..] + [c], w) == Extend(Lines(text[next..], w), c, w)
    ensures Lines(text + [c], w) == Extend(Lines(text, w), c, w)
  {
    FirstRowStays(text, c, w, k, next);
    LinesUnfold(text, w, k, next);
    LinesUnfold(text + [c], w, k, next);
    AppendSlices(text, c, k, next);
    ExtendTail(text[..k], Lines(text[next..], w), c, w);
  }

  /** A text that fits one row. */
  lemma LastLineExtends(text: seq<byte>, c: byte, w: nat)
    requires w > 0 && LineLength(text, w) == |text| < w
    ensures Lines(text + [c], w) == Extend([text], c, w)
  {
    var k, t := |text|, text + [c];
    LineLengthExtends(text, c, w);
    assert Lines([], w) == [[]];
    if c == NEWLINE {
      assert t[..k] == text && t[k + 1..] == [];
      assert Lines(t, w) == [text] + [[]];
    } else if k + 1 == w {
      assert t[..w] == t && t[w..] == [];
      assert Lines(t, w) == [t] + [[]];
    } else {
      assert Lines(t, w) == [t];
    }
  }

  lemma ExtendTail(first: seq<byte>, ls: seq<seq<byte>>, c: byte, w: nat)
    requires |ls| > 0
    ensures Extend([first] + ls, c, w) == [first] + Extend(ls, c, w)
  {
    var n := |ls| - 1;
    assert ([first] + ls)[..n + 1] == [first] + ls[..n];
  }

  // ---- what a pane shows ----------------------------------------------------------------------

  /** Row r, column c of a pane h rows high that shows the last h of these lines. */
  function ShownCell(ls: seq<seq<byte>>, h: nat, r: nat, c: nat, color: byte): Cell {
    var first := if |ls| > h then |ls| - h else 0;
    if first + r < |ls| && c < |ls[first + r]| then Cell(ls[first + r][c], color) else BLANK
  }

  /** The pane shows the last h rows, blank elsewhere, with the cursor at the end of the last row. */
  ghost predicate Shows(g: Grid, p: Pane, ls: seq<seq<byte>>, color: byte)
    requires Fits(p, g)
  {
    && |ls| > 0 && p.h > 0
    && p.cy == (if |ls| > p.h then p.h else |ls|) - 1
    && p.cx == |ls[|ls| - 1]|
    && forall r, c :: Inside(p, r, c) ==> g[r][c] == ShownCell(ls, p.h, r - p.y, c - p.x, color)
  }

  predicate Printable(c: byte) {
    c != ESC && c != BACKSPACE
  }

  /** Writing one glyph, before any wrapping or scrolling. */
  lemma ShowsGlyph(g: Grid, p: Pane, ls: seq<seq<byte>>, c: byte, color: byte)
    requires Fits(p, g) && CursorInside(p) && Shows(g, p, ls, color)
    ensures var n := |ls| - 1;
            var g' := PutCell(g, p.y + p.cy, p.x + p.cx, Cell(c, color));
            Fits(p, g') && Shows(g', p.(cx := p.cx + 1), ls[..n] + [ls[n] + [c]], color)
  {
    var n := |ls| - 1;
    var ls' := ls[..n] + [ls[n] + [c]];
    var g' := PutCell(g, p.y + p.cy, p.x + p.cx, Cell(c, color));
    forall r, k | Inside(p, r, k)
      ensures g'[r][k] == ShownCell(ls', p.h, r - p.y, k - p.x, color)
    {
      assert g[r][k] == ShownCell(ls, p.h, r - p.y, k - p.x, color);
    }
  }

  /** An empty line more: the same rows while they fit, afterwards every row one up. */
  lemma ShownCellNewRow(ls: seq<seq<byte>>, h: nat, r: nat, c: nat, color: byte)
    requires r < h
    ensures ShownCell(ls + [[]], h, r, c, color) ==
            if |ls| < h then ShownCell(ls, h, r, c, color)
            else if r + 1 < h then ShownCell(ls, h, r + 1, c, color)
            else BLANK
  {
  }

  /** Opening a new row while the pane has one. */
  lemma ShowsBelow(g: Grid, p: Pane, ls: seq<seq<byte>>, color: byte)
    requires Fits(p, g) && Shows(g, p, ls, color) && p.cy + 1 < p.h
    ensures Shows(g, p.(cx := 0, cy := p.cy + 1), ls + [[]], color)
  {
    forall r, c | Inside(p, r, c)
      ensures g[r][c] == ShownCell(ls + [[]], p.h, r - p.y, c - p.x, color)
    {
      ShownCellNewRow(ls, p.h, r - p.y, c - p.x, color);
    }
  }

  /** Opening a new row by scrolling a full pane. */
  lemma ShowsScrolled(g: Grid, p: Pane, ls: seq<seq<byte>>, color: byte, q: Pane)
    requires Fits(p, g) && Shows(g, p, ls, color) && p.cy + 1 == p.h && SameFrame(p, q)
    ensures Shows(ScrollGrid(g, q), p.(cx := 0), ls + [[]], color)
  {
    var g' := ScrollGrid(g, q);
    forall r, c | Inside(p, r, c)
      ensures g'[r][c] == ShownCell(ls + [[]], p.h, r - p.y, c - p.x, color)
    {
      ShownCellNewRow(ls, p.h, r - p.y, c - p.x, color);
      assert g'[r][c] == ScrolledCell(g, q, r, c);
      if r + 1 < p.y + p.h {
        assert Inside(p, r + 1, c);
      }
    }
  }

  ghost predicate PaneShows(s: Console, i: nat, ls: seq<seq<byte>>) {
    i < |s.panes| && Fits(s.panes[i], s.grid) && Shows(s.grid, s.panes[i], ls, s.color)
  }

  lemma ShowsNewRow(s: Console, g: Grid, p: Pane, ls: seq<seq<byte>>)
    requires s.current < |s.panes| && Fits(p, g) && Shows(g, p, ls, s.color)
    ensures var p1 := p.(cx := 0, cy := p.cy + 1);
            Fits(p1, g) && PaneShows(Settle(s.(grid := g), p1), s.current, ls + [[]])
  {
    var p1 := p.(cx := 0, cy := p.cy + 1);
    if p1.cy >= p.h {
      ShowsScrolled(g, p, ls, s.color, p1);
      assert p1.(cy := p1.h - 1) == p.(cx := 0);
    } else {
      ShowsBelow(g, p, ls, s.color);
    }
  }

  lemma ShowsPut(s: Console, ls: seq<seq<byte>>, c: byte)
    requires Writable(s) && PaneShows(s, s.current, ls) && Printable(c)
    ensures PaneShows(PutPlain(s, c), s.current, Extend(ls, c, Current(s).w))
  {
    var p := Current(s);
    if c == NEWLINE {
      ShowsNewRow(s, s.grid, p, ls);
      assert PutPlain(s, c) == Settle(s.(grid := s.grid), p.(cx := 0, cy := p.cy + 1));
      assert Extend(ls, c, p.w) == ls + [[]];
    } else {
      ShowsVisible(s, ls, c);
    }
  }

  lemma ShowsVisible(s: Console, ls: seq<seq<byte>>, c: byte)
    requires Writable(s) && PaneShows(s, s.current, ls) && Printable(c) && c != NEWLINE
    ensures PaneShows(PutPlain(s, c), s.current, Extend(ls, c, Current(s).w))
  {
    var p, n := Current(s), |ls| - 1;
    var ls1 := ls[..n] + [ls[n] + [c]];
    var g := PutCell(s.grid, p.y + p.cy, p.x + p.cx, Cell(c, s.color));
    ShowsGlyph(s.grid, p, ls, c, s.color);
    var p1 := p.(cx := p.cx + 1);
    var ls2 := if p.cx + 1 >= p.w then ls1 + [[]] else ls1;
    assert ls2 == Extend(ls, c, p.w);
    if p.cx + 1 >= p.w {
      ShowsNewRow(s, g, p1, ls1);
      assert Advance(p) == p1.(cx := 0, cy := p1.cy + 1);
    } else {
      ShowsInPlace(s, g, p1, ls1);
      assert Advance(p) == p1;
    }
    assert PaneShows(Settle(s.(grid := g), Advance(p)), s.current, ls2);
    assert PutPlain(s, c) == Settle(s.(grid := g), Advance(p));
  }

  lemma ShowsInPlace(s: Console, g: Grid, p: Pane, ls: seq<seq<byte>>)
    requires s.current < |s.panes| && Fits(p, g) && Shows(g, p, ls, s.color) && p.cy < p.h
    ensures PaneShows(Settle(s.(grid := g), p), s.current, ls)
  {
  }

  /** Writing the current pane leaves what the others show. */
  lemma OthersShow(s: Console, c: byte, i: nat, ls: seq<seq<byte>>)
    requires ConsoleOk(s) && i != s.current && PaneShows(s, i, ls) && s.parser.Plain? && Printable(c)
    ensures PaneShows(PutChar(s, c), i, ls)
  {
    PutConfined(s, c);
    var s' := PutChar(s, c);
    var p := s.panes[i];
    assert Apart(p, Current(s)) by {
      assert Apart(s.panes[if i < s.current then i else s.current], s.panes[if i < s.current then s.current else i]);
    }
    forall r, k | Inside(p, r, k)
      ensures s'.grid[r][k] == s.grid[r][k]
    {
      assert !Inside(Current(s), r, k);
    }
  }

  // ---- the theorem --------------------------------------------------------------------------

  /** The bytes a run writes to pane i. */
  function TextTo(s: Console, os: seq<Out>, i: nat): seq<byte>
    requires ConsoleOk(s)
    decreases |os|
  {
    if os == [] then []
    else
      var init := os[..|os| - 1];
      TextTo(s, init, i) + if os[|os| - 1].Put? && Run(s, init).current == i then [os[|os| - 1].c] else []
  }

  /** hal_console_init: blank interiors, cursors home, no sequence begun. */
  ghost predicate Cleared(s: Console) {
    && ConsoleOk(s) && s.parser.Plain?
    && (forall i :: 0 <= i < |s.panes| ==> s.panes[i].cx == s.panes[i].cy == 0)
    && (forall i, r, c :: 0 <= i < |s.panes| && Inside(s.panes[i], r, c) ==> s.grid[r][c] == BLANK)
  }

  predicate PlainText(os: seq<Out>) {
    forall i :: 0 <= i < |os| && os[i].Put? ==> Printable(os[i].c)
  }

  /**
    For every interleaving of text and pane switches without escapes and
    backspaces, in-place scrolling leaves each pane showing exactly the last h
    rows of its own text wrapped at its own width.
   */
  lemma {:induction false} PanesShowWrappedText(s: Console, os: seq<Out>, i: nat)
    requires Cleared(s) && PlainText(os) && i < |s.panes|
    ensures Run(s, os).parser.Plain? && Run(s, os).color == s.color
    ensures PaneShows(Run(s, os), i, Lines(TextTo(s, os, i), s.panes[i].w))
    decreases |os|
  {
    if os == [] {
      assert Lines([], s.panes[i].w) == [[]];
    } else {
      var init, o := os[..|os| - 1], os[|os| - 1];
      PanesShowWrappedText(s, init, i);
      PlainStep(Run(s, init), o, i, TextTo(s, init, i), s.panes[i].w) by {
        FramesKept(s, init, i);
      }
    }
  }

  /** One event of such a run. */
  lemma PlainStep(s: Console, o: Out, i: nat, text: seq<byte>, w: nat)
    requires ConsoleOk(s) && s.parser.Plain? && i < |s.panes| && s.panes[i].w == w
    requires PaneShows(s, i, Lines(text, w)) && (o.Put? ==> Printable(o.c))
    ensures var s' := Apply(s, o);
            && s'.parser.Plain? && s'.color == s.color
            && PaneShows(s', i, Lines(text + if o.Put? && s.current == i then [o.c] else [], w))
  {
    if o.Switch? {
      assert text + [] == text;
    } else if s.current == i {
      LinesExtend(text, o.c, w);
      ShowsPut(s, Lines(text, w), o.c);
    } else {
      assert text + [] == text;
      OthersShow(s, o.c, i, Lines(text, w));
    }
  }

  // ---- erasing ------------------------------------------------------------------------------

  /** A glyph that does not scroll moves the cursor on and changes one cell. */
  lemma GlyphInPlace(s: Console, c: byte)
    requires Writable(s) && s.parser.Plain? && Printable(c) && c != NEWLINE
    requires Advance(Current(s)).cy < Current(s).h
    ensures var p := Current(s);
            PutChar(s, c) == SetCurrent(s.(grid := PutCell(s.grid, p.y + p.cy, p.x + p.cx, Cell(c, s.color))), Advance(p))
  {
  }

  lemma GlyphScrolls(s: Console, c: byte)
    requires Writable(s) && s.parser.Plain? && Printable(c) && c != NEWLINE && LastCell(Current(s))
    ensures var p := Current(s);
            var g := PutCell(s.grid, p.y + p.cy, p.x + p.cx, Cell(c, s.color));
            PutChar(s, c) == SetCurrent(s.(grid := ScrollGrid(g, Advance(p))), p.(cx := 0))
  {
  }

  lemma BackInPlace(s: Console)
    requires Writable(s) && s.parser.Plain?
    ensures PutChar(s, BACKSPACE) == SetCurrent(s, Retreat(Current(s)))
  {
  }

  /** The glyph c followed by back, blank, back. */
  function Erase(s: Console, c: byte): (s': Console)
    requires ConsoleOk(s)
    ensures ConsoleOk(s')
  {
    Apply(Apply(Apply(Apply(s, Put(c)), Put(BACKSPACE)), Put(SPACE)), Put(BACKSPACE))
  }

  predicate LastCell(p: Pane) {
    p.cx + 1 == p.w && p.cy + 1 == p.h
  }

  lemma PutCellTwice(g: Grid, r: nat, c: nat, first: Cell, second: Cell)
    requires r < |g| && c < |g[r]|
    ensures PutCell(PutCell(g, r, c, first), r, c, second) == PutCell(g, r, c, second)
  {
    assert g[r][c := first][c := second] == g[r][c := second];
    assert g[r := g[r][c := first]][r := g[r][c := second]] == g[r := g[r][c := second]];
  }

  lemma EraseInPlace(s: Console, c: byte)
    requires ConsoleOk(s) && s.parser.Plain? && Printable(c) && c != NEWLINE && !LastCell(Current(s))
    ensures var p := Current(s);
            Erase(s, c) == s.(grid := PutCell(s.grid, p.y + p.cy, p.x + p.cx, Cell(SPACE, s.color)))
  {
    var p := Current(s);
    GlyphInPlace(s, c);
    var s1 := Apply(s, Put(c));
    BackInPlace(s1);
    var s2 := Apply(s1, Put(BACKSPACE));
    var g := PutCell(s.grid, p.y + p.cy, p.x + p.cx, Cell(c, s.color));
    assert Retreat(Advance(p)) == p;
    assert s2.panes == s.panes;
    assert s2 == s.(grid := g);
    GlyphInPlace(s2, SPACE);
    var s3 := Apply(s2, Put(SPACE));
    BackInPlace(s3);
    var s4 := Apply(s3, Put(BACKSPACE));
    assert s4.panes == s.panes;
    PutCellTwice(s.grid, p.y + p.cy, p.x + p.cx, Cell(c, s.color), Cell(SPACE, s.color));
  }

  /** In the last cell the glyph scrolls the pane and the cursor cannot come back. */
  lemma EraseAfterScroll(s: Console, c: byte)
    requires ConsoleOk(s) && s.parser.Plain? && Printable(c) && c != NEWLINE && LastCell(Current(s))
    requires Current(s).w > 1 || Current(s).h > 1
    ensures Current(Erase(s, c)) != Current(s)
  {
    var p := Current(s);
    GlyphScrolls(s, c);
    var s1 := Apply(s, Put(c));
    assert Current(s1) == p.(cx := 0);
    var s2 := Apply(s1, Put(BACKSPACE));
    BackInPlace(s1);
    if p.h > 1 {
      assert Current(s2) == p.(cy := p.h - 2);
    } else {
      assert Current(s2) == p.(cx := 0);
    }
    GlyphInPlace(s2, SPACE);
    BackInPlace(Apply(s2, Put(SPACE)));
  }

  /**
    Back, blank, back takes back a glyph just written: the cursor is where it
    was and its cell is blank. This holds exactly when the glyph did not fill
    the pane's last cell and so scroll it.
   */
  lemma EraseUndoes(s: Console, c: byte)
    requires ConsoleOk(s) && s.parser.Plain? && Printable(c) && c != NEWLINE
    requires Current(s).w > 1 || Current(s).h > 1
    ensures var p := Current(s);
            Erase(s, c) == s.(grid := PutCell(s.grid, p.y + p.cy, p.x + p.cx, Cell(SPACE, s.color)))
            <==> !LastCell(p)
  {
    if LastCell(Current(s)) {
      EraseAfterScroll(s, c);
    } else {
      EraseInPlace(s, c);
    }
  }
}
