/** Escape sequences from end to end: what ESC [ n ; n ; ... and a final byte do to the console. */
module ConsoleEscapes {
  import opened Words
  import opened ConsoleSpec
  import opened ConsoleProperties

  // ---- the parser reads what a program writes -------------------------------------------------

  /** A number in decimal. */
  function Digits(n: nat): seq<byte> {
    if n < 10 then ['0' as int + n] else Digits(n / 10) + ['0' as int + n % 10]
  }

  /** Numbers with semicolons between them. */
  function Parameters(ns: seq<nat>): seq<byte>
    requires ns != []
  {
    var last := |ns| - 1;
    if last == 0 then Digits(ns[0]) else Parameters(ns[..last]) + [';' as int] + Digits(ns[last])
  }

  predicate Final(c: byte) {
    !('0' as int <= c <= '9' as int) && c != ';' as int
  }

  function Escape(ns: seq<nat>, c: byte): seq<byte>
    requires ns != []
  {
    [ESC, '[' as int] + Parameters(ns) + [c]
  }

  /** The console after one byte. */
  function Took(s: Console, c: byte): (s': Console)
    requires ConsoleOk(s)
    ensures ConsoleOk(s')
  {
    PutKeeps(s, Put(c));
    PutChar(s, c)
  }

  /** The console after these bytes. */
  function Feed(s: Console, bytes: seq<byte>): (s': Console)
    requires ConsoleOk(s)
    ensures ConsoleOk(s')
    decreases |bytes|
  {
    if bytes == [] then s else Feed(Took(s, bytes[0]), bytes[1..])
  }

  lemma {:induction false} FeedMore(s: Console, a: seq<byte>, b: seq<byte>)
    requires ConsoleOk(s)
    ensures Feed(s, a + b) == Feed(Feed(s, a), b)
    decreases |a|
  {
    if a == [] {
      assert a + b == b;
    } else {
      assert (a + b)[1..] == a[1..] + b;
      FeedMore(Took(s, a[0]), a[1..], b);
    }
  }

  lemma FeedOne(s: Console, bytes: seq<byte>, c: byte)
    requires ConsoleOk(s)
    ensures Feed(s, bytes + [c]) == PutChar(Feed(s, bytes), c)
  {
    FeedMore(s, bytes, [c]);
    FeedSingle(Feed(s, bytes), c);
  }

  lemma FeedSingle(s: Console, c: byte)
    requires ConsoleOk(s)
    ensures Feed(s, [c]) == PutChar(s, c)
  {
    assert [c][1..] == [];
    assert Feed(Took(s, c), []) == Took(s, c);
  }

  predicate Reading(s: Console, s': Console, params: seq<int>, cur: int) {
    s' == s.(parser := InSeq(params, cur))
  }

  lemma ReadsDigit(s: Console, params: seq<int>, cur: nat, d: nat)
    requires ConsoleOk(s) && s.parser == InSeq(params, cur) && d < 10 && cur * 10 + d < 0x8000_0000
    ensures PutChar(s, '0' as int + d) == s.(parser := InSeq(params, cur * 10 + d))
  {
  }

  lemma {:induction false} ReadsNumber(s: Console, params: seq<int>, n: nat)
    requires ConsoleOk(s) && s.parser == InSeq(params, 0) && n < 0x8000_0000
    ensures Reading(s, Feed(s, Digits(n)), params, n)
    decreases n
  {
    if n < 10 {
      FeedOne(s, [], '0' as int + n);
      assert [] + ['0' as int + n] == Digits(n);
      ReadsDigit(s, params, 0, n);
    } else {
      var (q, d) := (n / 10, n % 10);
      assert n == q * 10 + d;
      ReadsNumber(s, params, q);
      FeedOne(s, Digits(q), '0' as int + d);
      ReadsDigit(Feed(s, Digits(q)), params, q, d);
    }
  }

  /** As many of these as the parser keeps. */
  function Kept(ns: seq<int>): seq<int> {
    if |ns| <= MAX_PARAMS then ns else ns[..MAX_PARAMS]
  }

  lemma KeptMore(ns: seq<int>)
    requires ns != []
    ensures Kept(ns) == AddParam(Kept(ns[..|ns| - 1]), ns[|ns| - 1])
  {
  }

  predicate Words31(ns: seq<nat>) {
    forall i :: 0 <= i < |ns| ==> ns[i] < 0x8000_0000
  }

  lemma {:induction false} ReadsParameters(s: Console, ns: seq<nat>)
    requires ConsoleOk(s) && s.parser == InSeq([], 0) && ns != [] && Words31(ns)
    ensures Reading(s, Feed(s, Parameters(ns)), Kept(ns[..|ns| - 1]), ns[|ns| - 1])
    decreases |ns|
  {
    var last := |ns| - 1;
    if last == 0 {
      ReadsNumber(s, [], ns[0]);
      assert Kept(ns[..0]) == [];
    } else {
      var before := ns[..last];
      ReadsParameters(s, before);
      FeedOne(s, Parameters(before), ';' as int);
      KeptMore(before);
      var s1 := Feed(s, Parameters(before) + [';' as int]);
      assert s1 == s.(parser := InSeq(Kept(before), 0));
      ReadsNumber(s1, Kept(before), ns[last]);
      FeedMore(s, Parameters(before) + [';' as int], Digits(ns[last]));
    }
  }

  /** Whatever the numbers, the final byte finds them as they were written, the first four of them. */
  lemma EscapeParses(s: Console, ns: seq<nat>, c: byte)
    requires ConsoleOk(s) && s.parser.Plain? && ns != [] && Words31(ns) && Final(c)
    ensures Feed(s, Escape(ns, c)) == Finish(s, Kept(ns), c)
  {
    var s1 := Feed(s, [ESC, '[' as int]);
    FeedOne(s, [], ESC);
    FeedOne(s, [ESC], '[' as int);
    assert [] + [ESC] == [ESC] && [ESC] + ['[' as int] == [ESC, '[' as int];
    assert s1 == s.(parser := InSeq([], 0));
    ReadsParameters(s1, ns);
    FeedMore(s, [ESC, '[' as int], Parameters(ns));
    FeedOne(s, [ESC, '[' as int] + Parameters(ns), c);
    KeptMore(ns);
  }

  // ---- what they mean ---------------------------------------------------------------------------

  predicate SetsForeground(n: int) {
    n == 0 || 30 <= n <= 37
  }

  predicate SetsBackground(n: int) {
    n == 0 || 40 <= n <= 47
  }

  /** The VGA colour of an ANSI one: the two orders differ in red and blue, yellow and cyan. */
  function Vga(ansi: nat): nat
    requires ansi < 8
  {
    match ansi
    case 0 => 0
    case 1 => 4
    case 2 => 2
    case 3 => 6
    case 4 => 1
    case 5 => 5
    case 6 => 3
    case 7 => 7
  }

  lemma SgrLast(color: byte, params: seq<int>)
    requires params != []
    ensures Sgr(color, params) == SgrOne(Sgr(color, params[..|params| - 1]), params[|params| - 1])
    decreases |params|
  {
    if |params| > 1 {
      SgrLast(SgrOne(color, params[0]), params[1..]);
      assert params[1..][..|params| - 2] == params[..|params| - 1][1..];
    }
  }

  lemma SgrParts(color: byte, n: int)
    ensures SgrOne(color, n) % 16 == if n == 0 then VGA_COLOR % 16 else if 30 <= n <= 37 then Vga(n - 30) else color % 16
    ensures SgrOne(color, n) / 16 == if n == 0 then VGA_COLOR / 16 else if 40 <= n <= 47 then Vga(n - 40) else color / 16
  {
  }

  /** The last parameter that sets the foreground decides it. */
  lemma {:induction false} ForegroundIs(color: byte, params: seq<int>, i: nat)
    requires i < |params| && SetsForeground(params[i]) && forall j :: i < j < |params| ==> !SetsForeground(params[j])
    ensures Sgr(color, params) % 16 == if params[i] == 0 then VGA_COLOR % 16 else Vga(params[i] - 30)
    decreases |params|
  {
    var last := |params| - 1;
    SgrLast(color, params);
    SgrParts(Sgr(color, params[..last]), params[last]);
    if i < last {
      ForegroundIs(color, params[..last], i);
    }
  }

  lemma {:induction false} ForegroundStays(color: byte, params: seq<int>)
    requires forall j :: 0 <= j < |params| ==> !SetsForeground(params[j])
    ensures Sgr(color, params) % 16 == color % 16
    decreases |params|
  {
    if params != [] {
      var last := |params| - 1;
      SgrLast(color, params);
      SgrParts(Sgr(color, params[..last]), params[last]);
      ForegroundStays(color, params[..last]);
    }
  }

  /** And likewise the background. */
  lemma {:induction false} BackgroundIs(color: byte, params: seq<int>, i: nat)
    requires i < |params| && SetsBackground(params[i]) && forall j :: i < j < |params| ==> !SetsBackground(params[j])
    ensures Sgr(color, params) / 16 == if params[i] == 0 then VGA_COLOR / 16 else Vga(params[i] - 40)
    decreases |params|
  {
    var last := |params| - 1;
    SgrLast(color, params);
    SgrParts(Sgr(color, params[..last]), params[last]);
    if i < last {
      BackgroundIs(color, params[..last], i);
    }
  }

  lemma {:induction false} BackgroundStays(color: byte, params: seq<int>)
    requires forall j :: 0 <= j < |params| ==> !SetsBackground(params[j])
    ensures Sgr(color, params) / 16 == color / 16
    decreases |params|
  {
    if params != [] {
      var last := |params| - 1;
      SgrLast(color, params);
      SgrParts(Sgr(color, params[..last]), params[last]);
      BackgroundStays(color, params[..last]);
    }
  }

  /** ESC [ ... m changes the colour of what is written next, and nothing else. */
  lemma ColourSequence(s: Console, ns: seq<nat>)
    requires ConsoleOk(s) && s.parser.Plain? && ns != [] && Words31(ns)
    ensures Feed(s, Escape(ns, 'm' as int)) == s.(color := Sgr(s.color, Kept(ns)))
  {
    EscapeParses(s, ns, 'm' as int);
  }

  /** Counting from one, and no further than the edge. */
  function Place(n: nat, limit: nat): nat
    requires limit > 0
  {
    if n == 0 then 0 else if n > limit then limit - 1 else n - 1
  }

  lemma CursorPlaces(s: Console, row: nat, col: nat)
    requires ConsoleOk(s)
    ensures var p := s.panes[s.current];
            && Kept([row, col]) == [row, col] && p.h > 0 && p.w > 0
            && CursorArg([row, col], 0, p.h) == Place(row, p.h) && CursorArg([row, col], 1, p.w) == Place(col, p.w)
  {
    assert CursorInside(s.panes[s.current]);
  }

  /** ESC [ row ; col H moves the current pane's cursor there, and nothing else. */
  lemma CursorSequence(s: Console, row: nat, col: nat)
    requires ConsoleOk(s) && s.parser.Plain? && row < 0x8000_0000 && col < 0x8000_0000
    ensures var p := s.panes[s.current];
            && p.h > 0 && p.w > 0
            && Feed(s, Escape([row, col], 'H' as int)) == s.(panes := s.panes[s.current := p.(cy := Place(row, p.h), cx := Place(col, p.w))])
  {
    CursorPlaces(s, row, col);
    EscapeParses(s, [row, col], 'H' as int);
    CursorFinish(s, [row, col], s.panes[s.current]);
  }

  lemma CursorFinish(s: Console, params: seq<int>, p: Pane)
    requires ConsoleOk(s) && s.parser.Plain? && p == s.panes[s.current] && p.h > 0 && p.w > 0
    ensures Finish(s, params, 'H' as int) == s.(panes := s.panes[s.current := p.(cy := CursorArg(params, 0, p.h), cx := CursorArg(params, 1, p.w))])
  {
  }

  /** ESC [ n J blanks the current pane in the current colour, its cursor home, and nothing else. */
  lemma ClearSequence(s: Console, n: nat)
    requires ConsoleOk(s) && s.parser.Plain? && n < 0x8000_0000
    ensures var (s', p) := (Feed(s, Escape([n], 'J' as int)), s.panes[s.current]);
            && s' == s.(grid := s'.grid, panes := s.panes[s.current := p.(cx := 0, cy := 0)]) && SameShape(s.grid, s'.grid)
            && forall r, c :: 0 <= r < |s.grid| && 0 <= c < |s.grid[r]| ==>
                 s'.grid[r][c] == if Inside(p, r, c) then Cell(SPACE, s.color) else s.grid[r][c]
  {
    EscapeParses(s, [n], 'J' as int);
  }

  /** Any other final byte ends the sequence and does nothing. */
  lemma OtherSequence(s: Console, ns: seq<nat>, c: byte)
    requires ConsoleOk(s) && s.parser.Plain? && ns != [] && Words31(ns) && Final(c)
    requires c != 'm' as int && c != 'H' as int && c != 'J' as int
    ensures Feed(s, Escape(ns, c)) == s
  {
    EscapeParses(s, ns, c);
  }
}
