/**
 * The terminal of blt/srv/console2/vt100.c in place: an interpreter that is fed one byte
 * at a time, over a fixed grid of cells with a scroll region.
 */
module Vt100 {
  import opened Grid
  import opened Terminal
  import opened Word

  class Screen {
    const rows: nat
    const columns: nat
    const data: array<int>
    const base: nat // the byte address of the cells
    var xpos: int
    var ypos: int
    var topScroll: int
    var bottomScroll: int
    var attrib: int
    var oldAttrib: int
    var oldXpos: int
    var oldYpos: int
    var mode: Mode
    var number: Int
    var reading: bool
    var elements: nat
    const element: array<Int>

    ghost predicate Valid()
      reads this, data, element
    {
      && 0 < rows && 0 < columns && data.Length == rows * columns
      && 0 <= xpos < columns && 0 <= ypos < rows
      && 0 <= topScroll < bottomScroll <= rows
      && 0 <= attrib < 256 && 0 <= oldAttrib < 256
      && 0 <= oldXpos < columns && 0 <= oldYpos < rows
      && element.Length == MAX_ANSI_ELEMENTS && elements <= MAX_ANSI_ELEMENTS
      && rows < LIMIT && columns < LIMIT && base + 2 * data.Length < WORD
    }

    ghost function Parse(): Parser
      requires elements <= element.Length
      reads this, element
    {
      Parser(mode, number, reading, element[..elements])
    }

    /** The terminal as a value. */
    ghost function State(): Term
      requires elements <= element.Length
      reads this, data, element
    {
      Term(rows, columns, xpos, ypos, topScroll, bottomScroll, attrib, oldAttrib, oldXpos, oldYpos, Parse(), data[..],
        base)
    }

    /** A blank screen; the cursor is where the memory of the screen says. */
    constructor (rows: nat, columns: nat, xpos: nat, ypos: nat, base: nat)
      requires xpos < columns < LIMIT && ypos < rows < LIMIT && base + 2 * (rows * columns) < WORD
      ensures Valid() && fresh(data) && fresh(element)
      ensures this.rows == rows && this.columns == columns && this.xpos == xpos && this.ypos == ypos
      ensures this.base == base
      ensures topScroll == 0 && bottomScroll == rows && attrib == NORMAL && mode == Text
      ensures forall i :: 0 <= i < data.Length ==> data[i] == Cell(BLANK, NORMAL)
    {
      this.rows, this.columns, this.xpos, this.ypos, this.base := rows, columns, xpos, ypos, base;
      topScroll, bottomScroll := 0, rows;
      attrib, oldAttrib, oldXpos, oldYpos := NORMAL, NORMAL, 0, 0;
      mode, number, reading, elements := Text, 0, false, 0;
      Rows(columns, 0, rows);
      data := new int[rows * columns](i => 0);
      element := new Int[MAX_ANSI_ELEMENTS](i => 0);
      new;
      InGrid(rows, columns, 0, 0);
      InGrid(rows, columns, rows - 1, columns - 1);
      LastCell(rows, columns);
      ClearRegion(0, 0, rows - 1, columns - 1, attrib);
    }

    /** Blank the cells from one position to another, inclusive. */
    method ClearRegion(y1: int, x1: int, y2: int, x2: int, atrb: int)
      requires Valid() && 0 <= y1 < rows && 0 <= x1 < columns && 0 <= y2 < rows && 0 <= x2 < columns
      modifies data
      ensures data[..] == Filled(old(data[..]), Index(columns, y1, x1), Index(columns, y2, x2) + 1, Cell(BLANK, atrb))
    {
      hide Index, Filled;
      InGrid(rows, columns, y1, x1);
      InGrid(rows, columns, y2, x2);
      FillRange(Index(columns, y1, x1), Index(columns, y2, x2) + 1, Cell(BLANK, atrb));
    }

    method FillRange(lo: int, hi: int, cell: int)
      requires 0 <= lo && hi <= data.Length
      modifies data
      ensures data[..] == Filled(old(data[..]), lo, hi, cell)
    {
      var i := lo;
      while i < hi
        invariant lo <= i && (i <= hi || i == lo)
        invariant forall j {:trigger data[j]} :: 0 <= j < data.Length ==>
          data[j] == if lo <= j < i then cell else old(data[j])
      {
        data[i] := cell;
        i := i + 1;
      }
    }

    /** From the cursor on, up to the cursor, or everything and the cursor home. */
    method ClearScreen(what: int)
      requires Valid()
      modifies this`xpos, this`ypos, data
      ensures Valid() && State() == ScreenErased(old(State()), what)
    {
      hide Filled;
      LastCell(rows, columns);
      match what {
        case 0 => ClearRegion(ypos, xpos, rows - 1, columns - 1, attrib);
        case 1 => ClearRegion(0, 0, ypos, xpos, attrib);
        case _ =>
          ClearRegion(0, 0, rows - 1, columns - 1, attrib);
          xpos, ypos := 0, 0;
      }
    }

    /** The same in the cursor's line. */
    method ClearToEol(what: int)
      requires Valid()
      modifies data
      ensures Valid() && State() == LineErased(old(State()), what)
    {
      hide Filled;
      match what {
        case 0 => ClearRegion(ypos, xpos, ypos, columns - 1, attrib);
        case 1 => ClearRegion(ypos, 0, ypos, xpos, attrib);
        case _ => ClearRegion(ypos, 0, ypos, columns - 1, attrib);
      }
    }

    /** The cursor goes where it is told, or as near as the grid allows. */
    method Position(y: int, x: int, rel: bool)
      requires 0 < rows && 0 < columns
      modifies this`xpos, this`ypos
      ensures xpos == Clamp(if rel then Signed(old(xpos) + x) else x, columns)
      ensures ypos == Clamp(if rel then Signed(old(ypos) + y) else y, rows)
    {
      if rel {
        xpos := Signed(xpos + x);
        ypos := Signed(ypos + y);
      } else {
        xpos := x;
        ypos := y;
      }
      if xpos < 0 { xpos := 0; }
      if xpos >= columns { xpos := columns - 1; }
      if ypos < 0 { ypos := 0; }
      if ypos >= rows { ypos := rows - 1; }
    }

    /** Move cells towards the front, and fill the end. */
    method MoveBack(lo: int, hi: int, w: int, cell: int)
      requires 0 <= lo && 0 <= w && lo + w <= hi <= data.Length
      modifies data
      ensures data[..] == MovedBack(old(data[..]), lo, hi, w, cell)
    {
      var i := lo;
      while i < hi - w
        invariant lo <= i <= hi - w
        invariant forall j {:trigger data[j]} :: 0 <= j < data.Length ==>
          data[j] == if lo <= j < i then old(data[j + w]) else old(data[j])
      {
        data[i] := data[i + w];
        i := i + 1;
      }
      while i < hi
        invariant hi - w <= i <= hi
        invariant forall j {:trigger data[j]} :: 0 <= j < data.Length ==>
          data[j] == if lo <= j < hi - w then old(data[j + w]) else if lo <= j < i then cell else old(data[j])
      {
        data[i] := cell;
        i := i + 1;
      }
    }

    /** Move cells towards the end, last first, and fill the front. */
    method MoveOn(lo: int, hi: int, w: int, cell: int)
      requires 0 <= lo && 0 <= w && lo + w <= hi <= data.Length
      modifies data
      ensures data[..] == MovedOn(old(data[..]), lo, hi, w, cell)
    {
      var i := hi;
      while i > lo + w
        invariant lo + w <= i <= hi
        invariant forall j {:trigger data[j]} :: 0 <= j < data.Length ==>
          data[j] == if i <= j < hi then old(data[j - w]) else old(data[j])
      {
        i := i - 1;
        data[i] := data[i - w];
      }
      i := lo;
      while i < lo + w
        invariant lo <= i <= lo + w
        invariant forall j {:trigger data[j]} :: 0 <= j < data.Length ==>
          data[j] == if lo + w <= j < hi then old(data[j - w]) else if lo <= j < i then cell else old(data[j])
      {
        data[i] := cell;
        i := i + 1;
      }
    }

    /** Copy the cells from `next` to `end`, one after the other, to `start` on. */
    method CopyCells(start: int, next: int, end: int)
      requires 0 <= start && 0 <= next <= end <= data.Length && start + (end - next) <= data.Length
      modifies data
      ensures data[..] == CopiedTo(old(data[..]), start, next, end - next)
    {
      hide CopySource;
      ghost var g := data[..];
      var n := 0;
      while next + n < end
        invariant 0 <= n <= end - next
        invariant forall j {:trigger data[j]} :: 0 <= j < data.Length && !(start <= j < start + n) ==> data[j] == g[j]
        invariant forall j {:trigger data[j]} :: start <= j < start + n ==> data[j] == CopySource(g, start, next, j)
      {
        CopyOne(g, start, next, start + n, data[..]);
        data[start + n] := data[next + n];
        n := n + 1;
      }
    }

    /** Delete characters at the cursor: the rest of the line moves up to it. */
    method DeleteChars(n: int)
      requires Valid() && DeletionFits(State(), n)
      modifies data
      ensures Valid() && State() == CharsDeleted(old(State()), n)
    {
      hide Filled, CopiedTo, DeletionFits, Signed, CellAt;
      DeletionBounds(State(), n);
      var start := ypos * columns + xpos;
      var end := ypos * columns + columns;
      if Signed(xpos + n) < columns {
        var next := CellAt(base, ypos * columns + Signed(xpos + n));
        if next < end {
          CopyCells(start, next, end);
          start := start + (end - next);
        }
      }
      FillRange(start, end, Cell(BLANK, attrib));
    }

    /** Insert (`dir` 0) or delete a line at the cursor, within the scroll region; outside it, nothing. */
    method ScrollAtCursor(dir: nat)
      requires Valid()
      modifies data
      ensures Valid() && State() == LineMoved(old(State()), dir)
    {
      hide MovedBack, MovedOn;
      if topScroll <= ypos && ypos < bottomScroll {
        RegionBounds(rows, columns, ypos, bottomScroll);
        if dir != 0 {
          MoveBack(ypos * columns, bottomScroll * columns, columns, Cell(BLANK, attrib));
        } else {
          MoveOn(ypos * columns, bottomScroll * columns, columns, Cell(BLANK, attrib));
        }
      }
    }

    /** Scroll the region up one line. */
    method Scroll()
      requires Valid()
      modifies data
      ensures Valid() && State() == RowsUp(old(State()), topScroll)
    {
      hide MovedBack;
      RegionBounds(rows, columns, topScroll, bottomScroll);
      MoveBack(topScroll * columns, bottomScroll * columns, columns, Cell(BLANK, attrib));
    }

    /** Write a character at the cursor, and nothing else. */
    method ChangeCharacter(ch: Byte)
      requires Valid()
      modifies data
      ensures Valid() && data[..] == Written(old(State()), ch).cells
    {
      InGrid(rows, columns, ypos, xpos);
      data[ypos * columns + xpos] := Cell(ch, attrib);
    }

    /** Insert or delete `n` lines. */
    method ScrollLines(n: int, dir: nat)
      requires Valid()
      modifies data
      ensures Valid() && State() == LinesMoved(old(State()), Times(n), dir)
    {
      hide LineMoved;
      var lines := n;
      while lines > 0
        invariant Valid() && Sound(State())
        invariant LinesMoved(State(), Times(lines), dir) == LinesMoved(old(State()), Times(n), dir)
        decreases lines
      {
        ScrollAtCursor(dir);
        lines := lines - 1;
      }
    }

    /** A region of the screen, given by its first and last line from 1 on. */
    method SetScrollRegion(low0: int, high0: int)
      requires 0 < rows
      modifies this`topScroll, this`bottomScroll
      ensures topScroll == RegionTop(low0) && bottomScroll == RegionBottom(high0, rows)
    {
      var low := Signed(low0 - 1);
      var high := if high0 >= rows then rows else high0;
      low := if low < 0 then 0 else low;
      topScroll, bottomScroll := low, high;
    }

    /** Select graphic rendition. */
    method SelectRendition()
      requires Valid()
      modifies this`attrib
      ensures 0 <= attrib < 256
      ensures attrib == if elements == 0 then NORMAL else Rendered(old(attrib), element[..elements])
    {
      hide Rendition, WithBit, WithoutBit;
      if elements == 0 {
        attrib := NORMAL;
      }
      var count := 0;
      while count < elements
        invariant 0 <= count <= elements && 0 <= attrib < 256
        invariant elements > 0 ==> attrib == Rendered(old(attrib), element[..count])
        invariant elements == 0 ==> attrib == NORMAL
      {
        RenditionInByte(attrib, element[count]);
        assert element[..count + 1][..count] == element[..count];
        attrib := Rendition(attrib, element[count]);
        count := count + 1;
      }
    }

    /** A byte in text. */
    method InterpretText(ch: Byte)
      requires Valid() && mode == Text
      modifies this, data
      ensures Valid() && State() == Step(old(State()), ch)
    {
      hide RowsUp, Filled, Index, Escaped, Executed, Collected;
      if ch == 27 {
        mode := Escape;
      } else if ch == 12 {
        ClearScreen(2);
      } else if ch == 13 {
        xpos := 0;
      } else if ch == 10 {
        if ypos + 1 >= bottomScroll {
          if ypos + 1 == bottomScroll {
            Scroll();
          }
        } else {
          ypos := ypos + 1;
        }
        xpos := 0;
      } else if ch == 9 {
        Position(ypos, Signed(xpos + (8 - xpos % 8)), false);
      } else if ch == 8 {
        xpos := xpos - 1;
        if xpos < 0 {
          xpos := columns - 1;
        }
      } else if ch != 0 {
        ChangeCharacter(ch);
        xpos := xpos + 1;
        if xpos >= columns {
          xpos := columns - 1;
        }
      }
    }

    /** A byte after an escape. */
    method InterpretEscape(ch: Byte)
      requires Valid() && mode == Escape
      modifies this, data
      ensures Valid() && State() == Step(old(State()), ch)
    {
      hide RowsUp, LineMoved, Printed, Executed, Collected;
      if ch == '(' as int || ch == ')' as int {
        mode := Charset;
        return;
      }
      if ch == '[' as int {
        number, elements, reading, mode := 0, 0, false, Control;
        return;
      }
      if ch == '7' as int {
        oldAttrib, oldXpos, oldYpos := attrib, xpos, ypos;
      } else if ch == '8' as int {
        attrib := oldAttrib;
        Position(ypos, xpos, false);
      } else if ch == 'E' as int || ch == 'D' as int {
        if ch == 'E' as int {
          xpos := 0;
        }
        if ypos + 1 >= bottomScroll {
          Scroll();
        } else {
          ypos := ypos + 1;
        }
      } else if ch == 'M' as int {
        if ypos - 1 < topScroll {
          ScrollAtCursor(0);
        } else {
          ypos := ypos - 1;
        }
      }
      if ch != 27 {
        mode := Text;
      }
    }

    /** The parameter `i`, if there was one. */
    function Param(i: nat, default: Int): (v: Int)
      requires elements <= element.Length
      reads this`elements, element
      ensures v == Element(element[..elements], i, default)
    {
      if elements > i then element[i] else default
    }

    /** The sequences that move the cursor by so many places, or lines. */
    method MoveBy(ch: Byte)
      requires Valid()
      modifies this`xpos, this`ypos
      ensures Valid() && State() == Moved(old(State()), ch)
    {
      hide Clamp, Signed, Element, IsGrid, Row, Collected, RegionBottom, Param;
      var n: int := Param(0, 1);
      if ch == 'D' as int {
        Position(0, Signed(-n), true);
      } else if ch == 'a' as int || ch == 'C' as int {
        Position(0, n, true);
      } else if ch == 'A' as int {
        Position(Signed(-n), 0, true);
      } else if ch == 'e' as int || ch == 'B' as int {
        Position(n, 0, true);
      } else if ch == 'E' as int {
        Position(Signed(ypos + n), 0, false);
      } else if ch == 'F' as int {
        Position(Signed(ypos - n), 0, false);
      }
    }

    /** The sequences that name a place, counted from 1; 0 counts as 1. */
    method MoveTo(ch: Byte)
      requires Valid()
      modifies this`xpos, this`ypos
      ensures Valid() && State() == Addressed(old(State()), ch)
    {
      hide Clamp, Signed, Element, IsGrid;
      var n: int := Param(0, 1);
      if ch == '`' as int || ch == 'G' as int {
        Position(ypos, if n != 0 then Signed(n - 1) else n, false);
      } else if ch == 'd' as int {
        Position(if n != 0 then Signed(n - 1) else n, xpos, false);
      } else if ch == 'f' as int || ch == 'H' as int {
        var col: int := Param(1, 1);
        Position(if n != 0 then Signed(n - 1) else n, if col != 0 then Signed(col - 1) else col, false);
      } else if ch == 'u' as int {
        Position(oldYpos, oldXpos, false);
      }
    }

    /** The sequences that change cells. */
    method Edit(ch: Byte)
      requires Valid() && (ch == 'P' as int ==> DeletionFits(State(), Param(0, 1)))
      modifies this`xpos, this`ypos, data
      ensures Valid() && State() == Edited(old(State()), ch)
    {
      hide ScreenErased, LineErased, LinesMoved, CharsDeleted;
      if ch == 'J' as int {
        ClearScreen(Param(0, 0));
      } else if ch == 'L' as int {
        ScrollLines(Param(0, 1), 0);
      } else if ch == 'M' as int {
        ScrollLines(Param(0, 1), 1);
      } else if ch == 'P' as int {
        DeleteChars(Param(0, 1));
      } else if ch == 'K' as int {
        ClearToEol(Param(0, 0));
      }
    }

    /** The sequences that set the scroll region, the attribute, or the saved position. */
    method Configure(ch: Byte)
      requires Valid()
      requires RegionFits(Parse().elements, ch, rows)
      modifies this`topScroll, this`bottomScroll, this`attrib, this`oldXpos, this`oldYpos
      ensures Valid() && State() == Configured(old(State()), ch)
    {
      hide Rendered;
      if ch == 's' as int {
        oldXpos, oldYpos := xpos, ypos;
      } else if ch == 'r' as int {
        var low, high := Param(0, 1), Param(1, rows);
        if low <= high {
          RegionExactly(low, high, rows);
          SetScrollRegion(low, high);
        }
      } else if ch == 'm' as int {
        SelectRendition();
      }
    }

    /** A byte that is not a digit ends the number before it. */
    method Collect(ch: Byte)
      requires Valid()
      modifies this`number, this`reading, this`elements, element
      ensures Valid() && mode == old(mode)
      ensures number == 0 && !reading && element[..elements] == Collected(old(Parse()), ch)
    {
      if reading || ch == ';' as int {
        if elements < MAX_ANSI_ELEMENTS {
          ghost var before := element[..elements];
          element[elements] := number;
          elements := elements + 1;
          assert element[..elements] == before + [number];
        }
        reading := false;
      }
      number := 0;
    }

    /** The final byte of a control sequence. */
    method Execute(ch: Byte)
      requires Valid() && Executable(State(), ch)
      modifies this`xpos, this`ypos, this`topScroll, this`bottomScroll, this`attrib, this`oldXpos, this`oldYpos, data
      ensures Valid() && State() == Executed(old(State()), ch)
    {
      hide Moved, Addressed, Edited, Configured, RegionFits;
      if ch in MOVES {
        MoveBy(ch);
      } else if ch in PLACES {
        MoveTo(ch);
      } else if ch in EDITS {
        Edit(ch);
      } else {
        Configure(ch);
      }
    }

    /** A byte of a control sequence: a digit, the end of a parameter, or the final byte. */
    method InterpretControl(ch: Byte)
      requires Valid() && mode == Control && StepOk(State(), ch)
      modifies this, data, element
      ensures Valid() && State() == Step(old(State()), ch)
    {
      hide Executed, Filled, RegionFits, Element;
      if '0' as int <= ch && ch <= '9' as int {
        number := Signed(number * 10 + (ch - '0' as int));
        reading := true;
        return;
      }
      Collect(ch);
      if ch == '?' as int || ch == ';' as int {
        return;
      }
      Execute(ch);
      mode := Text;
    }

    /** One byte, wherever the parser is. */
    method Interpret(ch: Byte)
      requires Valid() && StepOk(State(), ch)
      modifies this, data, element
      ensures Valid() && State() == Step(old(State()), ch)
    {
      match mode {
        case Text => InterpretText(ch);
        case Escape => InterpretEscape(ch);
        case Charset => mode := Text;
        case Control => InterpretControl(ch);
      }
    }

    /** Any stream of bytes that does not lead off the screen. */
    method Feed(bytes: seq<Byte>)
      requires Valid() && StreamOk(State(), bytes)
      modifies this, data, element
      ensures Valid() && State() == Run(old(State()), bytes)
    {
      hide Step;
      var i := 0;
      while i < |bytes|
        invariant 0 <= i <= |bytes| && Valid() && StreamOk(State(), bytes[i..])
        invariant Run(State(), bytes[i..]) == Run(old(State()), bytes)
      {
        assert bytes[i..][0] == bytes[i] && bytes[i..][1..] == bytes[i + 1..];
        Interpret(bytes[i]);
        i := i + 1;
      }
    }
  }
}
