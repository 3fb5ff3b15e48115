/**
 * What each byte and each control sequence does to the terminal of
 * blt/srv/console2/vt100.c, told by rows, places and attribute bits.
 */
module Effects {
  import opened Grid
  import opened Terminal
  import opened Streams
  import opened Word

  // ---- cells and attributes

  /** A cell is a character below its attribute. */
  lemma CellParts(ch: Byte, attrib: int)
    ensures Cell(ch, attrib) % 256 == ch && Cell(ch, attrib) / 256 == attrib
  {
  }

  function Foreground(a: int): int { a % 8 }

  function Bright(a: int): int { a / 8 % 2 }

  function Background(a: int): int { a / 16 % 8 }

  function Blinking(a: int): int { a / 128 % 2 }

  /** The attribute with these bits. */
  predicate Looks(a: int, foreground: int, bright: int, background: int, blinking: int) {
    Foreground(a) == foreground && Bright(a) == bright && Background(a) == background && Blinking(a) == blinking
  }

  /** The four parts are all there is to an attribute. */
  lemma PartsAreAll(a: int)
    requires 0 <= a < 256
    ensures a == 128 * Blinking(a) + 16 * Background(a) + 8 * Bright(a) + Foreground(a)
  {
  }

  lemma LooksOf(f: int, i: int, b: int, k: int)
    requires 0 <= f < 8 && 0 <= i < 2 && 0 <= b < 8 && 0 <= k < 2
    ensures Looks(128 * k + 16 * b + 8 * i + f, f, i, b, k)
  {
  }

  /** What each rendition sets, and that it leaves the rest. */
  lemma RenditionBits(a: int, e: int)
    requires 0 <= a < 256
    ensures var r, f, i, b, k := Rendition(a, e), Foreground(a), Bright(a), Background(a), Blinking(a);
            && (e == 0 || e == 27 ==> Looks(r, 7, 0, 0, 0))
            && (e == 1 ==> Looks(r, f, 1, b, k))
            && (e == 5 ==> Looks(r, f, i, b, 1))
            && (e == 7 ==> Looks(r, 0, 0, 7, 0))
            && (e == 21 || e == 22 ==> Looks(r, f, 0, b, k))
            && (e == 25 ==> Looks(r, f, i, b, 0))
            && (30 <= e <= 37 ==> Looks(r, e - 30, i, b, k))
            && (40 <= e <= 47 ==> Looks(r, f, i, e - 40, k))
            && (e !in {0, 1, 5, 7, 21, 22, 25, 27} && !(30 <= e <= 37) && !(40 <= e <= 47) ==> r == a)
  {
    var f, i, b, k := Foreground(a), Bright(a), Background(a), Blinking(a);
    RenditionSum(a, e, f, i, b, k);
    hide Rendition, Looks;
    LooksOf(7, 0, 0, 0);
    LooksOf(f, 1, b, k);
    LooksOf(f, i, b, 1);
    LooksOf(0, 0, 7, 0);
    LooksOf(f, 0, b, k);
    LooksOf(f, i, b, 0);
    if 30 <= e <= 37 { LooksOf(e - 30, i, b, k); }
    if 40 <= e <= 47 { LooksOf(f, i, e - 40, k); }
  }

  lemma RenditionSum(a: int, e: int, f: int, i: int, b: int, k: int)
    requires 0 <= a < 256 && f == Foreground(a) && i == Bright(a) && b == Background(a) && k == Blinking(a)
    ensures 0 <= f < 8 && 0 <= i < 2 && 0 <= b < 8 && 0 <= k < 2
    ensures Rendition(a, e) == 128 * (if e == 5 then 1 else if e in {0, 7, 25, 27} then 0 else k)
      + 16 * (if e == 7 then 7 else if e == 0 || e == 27 then 0 else if 40 <= e <= 47 then e - 40 else b)
      + 8 * (if e == 1 then 1 else if e in {0, 7, 21, 22, 27} then 0 else i)
      + (if e == 7 then 0 else if e == 0 || e == 27 then 7 else if 30 <= e <= 37 then e - 30 else f)
  {
    PartsAreAll(a);
    hide Foreground, Bright, Background, Blinking;
    BitsOf(a, f, i, b, k);
  }

  /** The divisions that Rendition makes. */
  lemma BitsOf(a: int, f: int, i: int, b: int, k: int)
    requires f == Foreground(a) && i == Bright(a) && b == Background(a) && k == Blinking(a) && 0 <= a < 256
    ensures 0 <= f < 8 && 0 <= i < 2 && 0 <= b < 8 && 0 <= k < 2
    ensures a / 8 % 2 == i && a / 0x80 % 2 == k
    ensures a / 8 * 8 == a - f && a / 128 * 128 == 128 * k && a % 16 == 8 * i + f
  {
  }

  /** Renditions are made one after the other. */
  lemma {:induction false} RenderedInTurn(a: int, es: seq<Int>, fs: seq<Int>)
    ensures Rendered(a, []) == a && (|es| == 1 ==> Rendered(a, es) == Rendition(a, es[0]))
    ensures Rendered(a, es + fs) == Rendered(Rendered(a, es), fs)
    decreases |fs|
  {
    hide Rendition;
    if |es| == 1 {
      assert es[..0] == [];
    }
    if fs == [] {
      assert es + fs == es;
    } else {
      var l := |fs| - 1;
      RenderedInTurn(a, es, fs[..l]);
      assert (es + fs)[..|es + fs| - 1] == es + fs[..l] && (es + fs)[|es + fs| - 1] == fs[l];
    }
  }

  // ---- erasing

  /** What is erased: from the cursor on, up to it, or all. */
  predicate Erasing(what: int, before: bool, at: bool) {
    if what == 0 then at || !before else if what == 1 then at || before else true
  }

  lemma {:induction false} IndexOrder(columns: int, y: int, x: int, v: int, u: int)
    requires 0 <= x < columns && 0 <= u < columns
    ensures Index(columns, y, x) < Index(columns, v, u) <==> y < v || (y == v && x < u)
    ensures Index(columns, y, x) == Index(columns, v, u) <==> y == v && x == u
  {
    if y < v {
      Rows(columns, y + 1, v);
      assert (y + 1) * columns == y * columns + columns;
    } else if v < y {
      Rows(columns, v + 1, y);
      assert (v + 1) * columns == v * columns + columns;
    }
  }

  /** Erasing the screen blanks its cells from the cursor on, up to it, or all; all takes the cursor home. */
  lemma ScreenErasedCell(t: Term, what: int, y: int, c: int)
    requires Sound(t) && 0 <= y < t.rows && 0 <= c < t.columns
    ensures var r := ScreenErased(t, what);
            && Row(r.cells, t.columns, y)[c] == (
                 if Erasing(what, y < t.ypos || (y == t.ypos && c < t.xpos), y == t.ypos && c == t.xpos) then Blank(t)
                 else Row(t.cells, t.columns, y)[c])
            && r == t.(cells := r.cells, xpos := r.xpos, ypos := r.ypos)
            && if what == 0 || what == 1 then r.xpos == t.xpos && r.ypos == t.ypos else r.xpos == 0 && r.ypos == 0
  {
    hide Cell;
    InGrid(t.rows, t.columns, y, c);
    IndexOrder(t.columns, y, c, t.ypos, t.xpos);
  }

  /** Erasing the line does the same in the cursor's line, and the cursor stays. */
  lemma LineErasedCell(t: Term, what: int, y: int, c: int)
    requires Sound(t) && 0 <= y < t.rows && 0 <= c < t.columns
    ensures var r := LineErased(t, what);
            && Row(r.cells, t.columns, y)[c] == (
                 if y == t.ypos && Erasing(what, c < t.xpos, c == t.xpos) then Blank(t)
                 else Row(t.cells, t.columns, y)[c])
            && r == t.(cells := r.cells)
  {
    hide Cell;
    InGrid(t.rows, t.columns, y, c);
    RowPlace(t.rows, t.columns, t.ypos, t.ypos + 1, y);
  }

  // ---- moving

  /** The first parameter, or what stands for it. */
  function First(t: Term, default: Int): Int {
    if |t.parser.elements| > 0 then t.parser.elements[0] else default
  }

  function Second(t: Term, default: Int): Int {
    if |t.parser.elements| > 1 then t.parser.elements[1] else default
  }

  /** Only the cursor moves. */
  ghost predicate CursorAt(t: Term, r: Term, y: int, x: int) {
    r == t.(ypos := y, xpos := x)
  }

  function Smaller(a: int, b: int): int {
    if a < b then a else b
  }

  /** The steps a cursor makes to one side and to the other before it stops at an edge. */
  lemma MovedExactly(t: Term, ch: Byte)
    requires Sound(t) && 0 <= First(t, 1) && First(t, 1) + t.xpos < LIMIT && First(t, 1) + t.ypos < LIMIT
    ensures var n, r := First(t, 1), Moved(t, ch);
            && (ch == 'A' as int ==> CursorAt(t, r, t.ypos - Smaller(n, t.ypos), t.xpos))
            && (ch == 'B' as int || ch == 'e' as int ==>
                 CursorAt(t, r, t.ypos + Smaller(n, t.rows - 1 - t.ypos), t.xpos))
            && (ch == 'C' as int || ch == 'a' as int ==>
                 CursorAt(t, r, t.ypos, t.xpos + Smaller(n, t.columns - 1 - t.xpos)))
            && (ch == 'D' as int ==> CursorAt(t, r, t.ypos, t.xpos - Smaller(n, t.xpos)))
            && (ch == 'E' as int ==> CursorAt(t, r, t.ypos + Smaller(n, t.rows - 1 - t.ypos), 0))
            && (ch == 'F' as int ==> CursorAt(t, r, t.ypos - Smaller(n, t.ypos), 0))
            && (ch !in MOVES ==> r == t)
  {
    hide IsGrid;
  }

  /** A place that is named from 1 on, 0 standing for 1, or the nearest on the screen. */
  function Named(n: Int, limit: int): int
    requires 0 < limit
  {
    if n <= 1 then (if n == -LIMIT then limit - 1 else 0) else Smaller(n - 1, limit - 1)
  }

  lemma AddressedExactly(t: Term, ch: Byte)
    requires Sound(t)
    ensures var y, x, r := Named(First(t, 1), t.rows), Named(First(t, 1), t.columns), Addressed(t, ch);
            && (ch == '`' as int || ch == 'G' as int ==> CursorAt(t, r, t.ypos, x))
            && (ch == 'd' as int ==> CursorAt(t, r, y, t.xpos))
            && (ch == 'f' as int || ch == 'H' as int ==> CursorAt(t, r, y, Named(Second(t, 1), t.columns)))
            && (ch == 'u' as int ==> CursorAt(t, r, t.oldYpos, t.oldXpos))
            && (ch !in PLACES ==> r == t)
  {
    hide IsGrid;
  }

  // ---- the other sequences

  /** Which sequence edits how, and with which parameter. */
  lemma EditedExactly(t: Term, ch: Byte)
    requires Sound(t) && (ch == 'P' as int ==> DeletionFits(t, First(t, 1)))
    ensures var r := Edited(t, ch);
            && (ch == 'J' as int ==> r == ScreenErased(t, First(t, 0)))
            && (ch == 'K' as int ==> r == LineErased(t, First(t, 0)))
            && (ch == 'L' as int ==> r == LinesMoved(t, if First(t, 1) < 0 then 0 else First(t, 1), 0))
            && (ch == 'M' as int ==> r == LinesMoved(t, if First(t, 1) < 0 then 0 else First(t, 1), 1))
            && (ch == 'P' as int ==> r == CharsDeleted(t, First(t, 1)))
            && (ch !in EDITS ==> r == t)
  {
    hide ScreenErased, LineErased, LinesMoved, CharsDeleted, DeletionFits;
  }

  /** Saving a position, setting a region from 1 on that is cut to the screen, and renditions. */
  lemma ConfiguredExactly(t: Term, ch: Byte)
    requires Sound(t) && RegionFits(t.parser.elements, ch, t.rows)
    ensures var low, high, r := First(t, 1), Second(t, t.rows), Configured(t, ch);
            && (ch == 's' as int ==> r == t.(oldXpos := t.xpos, oldYpos := t.ypos))
            && (ch == 'r' as int ==>
                 r == if low > high then t
                      else t.(topScroll := if low < 1 then 0 else low - 1, bottomScroll := Smaller(high, t.rows)))
            && (ch == 'm' as int ==>
                 r == t.(attrib := if t.parser.elements == [] then 7 else Rendered(t.attrib, t.parser.elements)))
            && (ch !in {'s' as int, 'r' as int, 'm' as int} ==> r == t)
  {
    hide Rendered, IsGrid;
  }

  /** Each final byte is for one of these, and any other does nothing. */
  lemma ExecutedExactly(t: Term, ch: Byte)
    requires Sound(t) && Executable(t, ch)
    ensures Executed(t, ch) == (
      if ch in {'A' as int, 'B' as int, 'C' as int, 'D' as int, 'E' as int, 'F' as int, 'a' as int, 'e' as int}
      then Moved(t, ch)
      else if ch in {'`' as int, 'G' as int, 'd' as int, 'f' as int, 'H' as int, 'u' as int} then Addressed(t, ch)
      else if ch in {'J' as int, 'K' as int, 'L' as int, 'M' as int, 'P' as int} then Edited(t, ch)
      else Configured(t, ch))
    ensures ch !in MOVES && ch !in PLACES && ch !in EDITS && ch !in {'s' as int, 'r' as int, 'm' as int} ==>
      Executed(t, ch) == t
  {
    hide Moved, Addressed, Edited, RegionFits, DeletionFits, IsGrid;
  }

  // ---- escapes

  /** Whatever follows a choice of character set is swallowed, and it changes nothing. */
  lemma CharsetSkipped(t: Term, set0: Byte, ch: Byte)
    requires Sound(t) && t.parser.mode == Text && (set0 == '(' as int || set0 == ')' as int)
    ensures StreamOk(t, [ESC, set0, ch]) && Run(t, [ESC, set0, ch]) == t
  {
    hide StreamOk, Run, IsGrid;
    EscapeRead(t);
    RunOne(t, ESC);
    var u := t.(parser := t.parser.(mode := Escape));
    CharsetRead(u, set0);
    RunOne(u, set0);
    var v := t.(parser := t.parser.(mode := Charset));
    assert Step(v, ch) == t;
    RunOne(v, ch);
    assert [ESC] + [set0] == [ESC, set0] && [ESC, set0] + [ch] == [ESC, set0, ch];
    RunJoin(t, [ESC], [set0]);
    RunJoin(t, [ESC, set0], [ch]);
  }

  lemma EscapeRead(t: Term)
    requires Sound(t) && t.parser.mode == Text
    ensures StepOk(t, ESC) && Step(t, ESC) == t.(parser := t.parser.(mode := Escape))
  {
    hide IsGrid;
  }

  lemma CharsetRead(t: Term, set0: Byte)
    requires Sound(t) && t.parser.mode == Escape && (set0 == '(' as int || set0 == ')' as int)
    ensures StepOk(t, set0) && Step(t, set0) == t.(parser := t.parser.(mode := Charset))
  {
    hide IsGrid;
  }

  /** A line down: to the next row, or the region scrolls if that is not in it or before it. */
  ghost predicate LineDown(t: Term, r: Term, x: int) {
    if t.ypos + 1 < t.bottomScroll then r == t.(ypos := t.ypos + 1, xpos := x)
    else
      && r == t.(cells := r.cells, xpos := x)
      && Scrolled(t, 1, r)
  }

  /** Row `y` after the region has scrolled up by `k` rows. */
  ghost predicate ScrolledRow(t: Term, k: nat, r: Term, y: int) {
    if y < t.topScroll || t.bottomScroll <= y then Row(r.cells, t.columns, y) == Row(t.cells, t.columns, y)
    else if y + k < t.bottomScroll then Row(r.cells, t.columns, y) == Row(t.cells, t.columns, y + k)
    else forall c {:trigger Row(r.cells, t.columns, y)[c]} :: 0 <= c < t.columns ==>
      Row(r.cells, t.columns, y)[c] == Blank(t)
  }

  /** The region has scrolled up by `k` rows, and no other row has changed. */
  ghost predicate Scrolled(t: Term, k: nat, r: Term) {
    forall y {:trigger ScrolledRow(t, k, r, y)} :: 0 <= y < t.rows ==> ScrolledRow(t, k, r, y)
  }

  lemma RegionScrolls(t: Term, y: int)
    requires Sound(t) && 0 <= y < t.rows
    ensures RowsUp(t, t.topScroll) == t.(cells := RowsUp(t, t.topScroll).cells)
    ensures ScrolledRow(t, 1, RowsUp(t, t.topScroll), y)
  {
    hide MovedBack, Row;
    ScrollUpRows(t.cells, t.rows, t.columns, t.topScroll, t.bottomScroll, Blank(t), y);
  }

  lemma LineFeedDown(t: Term)
    requires Sound(t)
    ensures LineDown(t, LineFeed(t), t.xpos)
  {
    hide RowsUp, ScrolledRow;
    forall y | 0 <= y < t.rows ensures ScrolledRow(t, 1, RowsUp(t, t.topScroll), y) {
      RegionScrolls(t, y);
    }
    RegionScrolls(t, 0);
  }

  /** What a byte after an escape does: save, restore, go down, go up; restoring restores the attribute only. */
  lemma EscapedExactly(t: Term, ch: Byte)
    requires Sound(t)
    ensures var r := Escaped(t, ch);
            && (ch == '7' as int ==> r == t.(oldAttrib := t.attrib, oldXpos := t.xpos, oldYpos := t.ypos))
            && (ch == '8' as int ==> r == t.(attrib := t.oldAttrib))
            && (ch == 'D' as int ==> LineDown(t, r, t.xpos))
            && (ch == 'E' as int ==> LineDown(t, r, 0))
            && (ch == 'M' as int && t.topScroll < t.ypos ==> CursorAt(t, r, t.ypos - 1, t.xpos))
            && (ch == 'M' as int && t.ypos <= t.topScroll ==> r == LineMoved(t, 0))
            && (ch !in {'7' as int, '8' as int, 'D' as int, 'E' as int, 'M' as int} ==> r == t)
  {
    hide LineFeed, LineDown, LineMoved, IsGrid;
    LineFeedDown(t);
    LineFeedDown(t.(xpos := 0));
    SameDown(t, LineFeed(t.(xpos := 0)));
  }

  lemma SameDown(t: Term, r: Term)
    requires Sound(t) && LineDown(t.(xpos := 0), r, 0)
    ensures LineDown(t, r, 0)
  {
    hide IsGrid, Row;
    if t.ypos + 1 >= t.bottomScroll {
      forall y | 0 <= y < t.rows ensures ScrolledRow(t, 1, r, y) {
        assert ScrolledRow(t.(xpos := 0), 1, r, y);
      }
    }
  }

  // ---- text

  /** A newline: column 0 of the next row, the region scrolling on its last row; below the region the row stays. */
  lemma NewlineMoves(t: Term)
    requires Sound(t) && t.parser.mode == Text
    ensures StreamOk(t, [10])
    ensures var r := Run(t, [10]);
            if t.ypos + 1 <= t.bottomScroll then LineDown(t, r, 0) else CursorAt(t, r, t.ypos, 0)
  {
    hide StreamOk, Run, LineFeed, LineDown, IsGrid;
    RunOne(t, 10);
    LineFeedDown(t);
    LeftDown(t, LineFeed(t));
  }

  lemma LeftDown(t: Term, r: Term)
    requires Sound(t) && LineDown(t, r, t.xpos)
    ensures LineDown(t, r.(xpos := 0), 0)
  {
    hide IsGrid, Row;
    if t.ypos + 1 >= t.bottomScroll {
      forall y | 0 <= y < t.rows ensures ScrolledRow(t, 1, r.(xpos := 0), y) {
        assert ScrolledRow(t, 1, r, y);
      }
    }
  }

  /** The other bytes of text that do not show. */
  lemma ControlsMove(t: Term, ch: Byte)
    requires Sound(t) && t.parser.mode == Text && ch in {0, 8, 9, 12, 13}
    ensures StreamOk(t, [ch])
    ensures var r := Run(t, [ch]);
            && (ch == 0 ==> r == t)
            && (ch == 8 ==> CursorAt(t, r, t.ypos, if t.xpos > 0 then t.xpos - 1 else t.columns - 1))
            && (ch == 9 ==> CursorAt(t, r, t.ypos, r.xpos) && TabStop(t.columns, t.xpos, r.xpos))
            && (ch == 12 ==> r == ScreenErased(t, 2))
            && (ch == 13 ==> CursorAt(t, r, t.ypos, 0))
  {
    hide StreamOk, Run, IsGrid, ScreenErased, Looks, Digit, Collected;
    RunOne(t, ch);
  }

  /** The next column that is a multiple of eight, or the last; on a screen of 2^31 - 8 columns or more, the first. */
  predicate TabStop(columns: int, x: int, r: int) {
    if x / 8 * 8 + 8 >= LIMIT then r == 0
    else if x / 8 * 8 + 8 < columns then r % 8 == 0 && x < r <= x + 8
    else r == columns - 1
  }

  /** A line of text and a newline: the line stays where it was shown, or goes up by one with its region. */
  lemma LineShown(t: Term, text: seq<Byte>, c: nat)
    requires Sound(t) && t.parser.mode == Text && forall i :: 0 <= i < |text| ==> Printable(text[i])
    requires t.ypos < t.bottomScroll && c < t.columns && t.topScroll < t.ypos
    ensures StreamOk(t, text + [10])
    ensures var r := Run(t, text + [10]);
            && r.xpos == 0
            && r.ypos == (if t.ypos + 1 < t.bottomScroll then t.ypos + 1 else t.ypos)
            && Row(r.cells, t.columns, r.ypos - 1)[c] == Shown(t, text, c, Row(t.cells, t.columns, t.ypos)[c])
  {
    hide StreamOk, Run, IsGrid, Row, Shown, Scrolled, Printable, Digit, Rendered;
    TextShown(t, text);
    var u := Run(t, text);
    NewlineMoves(u);
    RunJoin(t, text, [10]);
    if u.ypos + 1 >= u.bottomScroll {
      WentUp(u, Run(u, [10]));
    }
  }

  lemma WentUp(u: Term, r: Term)
    requires Sound(u) && u.topScroll < u.ypos < u.bottomScroll && Scrolled(u, 1, r)
    ensures Row(r.cells, u.columns, u.ypos - 1) == Row(u.cells, u.columns, u.ypos)
  {
    hide Row, IsGrid;
    assert ScrolledRow(u, 1, r, u.ypos - 1);
  }

  /** So many newlines. */
  function Newlines(n: nat): (s: seq<Byte>)
    ensures |s| == n
  {
    if n == 0 then [] else Newlines(n - 1) + [10]
  }

  /**
   * So many newlines: the cursor goes down as far as the region's last row, and the region scrolls up by the rest of
   * them.
   */
  lemma {:induction false} NewlinesMove(t: Term, n: nat)
    requires Sound(t) && t.parser.mode == Text && t.ypos < t.bottomScroll
    ensures StreamOk(t, Newlines(n))
    ensures var r, down := Run(t, Newlines(n)), Smaller(n, t.bottomScroll - 1 - t.ypos);
            && r == t.(cells := r.cells, ypos := t.ypos + down, xpos := if n == 0 then t.xpos else 0)
            && Scrolled(t, n - down, r)
    decreases n
  {
    hide StreamOk, Run, IsGrid, Scrolled, LineDown;
    if n == 0 {
      NoneScrolled(t);
    } else {
      NewlinesMove(t, n - 1);
      var u := Run(t, Newlines(n - 1));
      NewlineMoves(u);
      RunJoin(t, Newlines(n - 1), [10]);
      ScrolledOn(t, u, Run(u, [10]), n);
    }
  }

  lemma NoneScrolled(t: Term)
    requires Sound(t)
    ensures StreamOk(t, []) && Run(t, []) == t && Scrolled(t, 0, t)
  {
    hide IsGrid;
  }

  lemma ScrolledOn(t: Term, u: Term, r: Term, n: nat)
    requires Sound(t) && t.ypos < t.bottomScroll && n > 0
    requires var down := Smaller(n - 1, t.bottomScroll - 1 - t.ypos);
             && u == t.(cells := u.cells, ypos := t.ypos + down, xpos := if n - 1 == 0 then t.xpos else 0)
             && Scrolled(t, n - 1 - down, u)
    requires LineDown(u, r, 0)
    ensures var down := Smaller(n, t.bottomScroll - 1 - t.ypos);
            && r == t.(cells := r.cells, ypos := t.ypos + down, xpos := 0)
            && Scrolled(t, n - down, r)
  {
    hide IsGrid, Row;
    if u.ypos + 1 < u.bottomScroll {
      forall y | 0 <= y < t.rows ensures ScrolledRow(t, 0, r, y) {
        assert ScrolledRow(t, 0, u, y);
      }
    } else {
      var k := n - 1 - (t.bottomScroll - 1 - t.ypos);
      var l := k + 1;
      forall y | 0 <= y < t.rows ensures ScrolledRow(t, l, r, y) {
        assert ScrolledRow(u, 1, r, y) && ScrolledRow(t, k, u, y);
        if y + 1 < t.rows { assert ScrolledRow(t, k, u, y + 1); }
      }
    }
  }
}
