/**
 * The terminal of blt/srv/console2/vt100.c on values: what one byte makes of the screen
 * and the parser, and what follows for whole streams of bytes.  Control sequences have
 * the form of section 5.4 of ECMA-48.
 */
module Terminal {
  import opened Grid
  import opened Word

  const MAX_ANSI_ELEMENTS := 16
  const BLANK := 0x20
  const NORMAL := 0x07
  const INVERSE := 0x70

  type Byte = b: int | 0 <= b < 256

  // ---- the parser

  datatype Mode = Text | Escape | Charset | Control

  datatype Parser = Parser(mode: Mode, number: Int, reading: bool, elements: seq<Int>)

  predicate Digit(ch: Byte) {
    '0' as int <= ch <= '9' as int
  }

  /** The parameters as they are when the byte `ch` that ends a number has been seen. */
  function Collected(p: Parser, ch: Byte): seq<Int> {
    if (p.reading || ch == ';' as int) && |p.elements| < MAX_ANSI_ELEMENTS then p.elements + [p.number] else p.elements
  }

  /** The parser alone.  A number that does not fit an int wraps around. */
  function Parsed(p: Parser, ch: Byte): Parser {
    match p.mode
    case Text => if ch == 27 then p.(mode := Escape) else p
    case Charset => p.(mode := Text)
    case Escape =>
      if ch == '(' as int || ch == ')' as int then p.(mode := Charset)
      else if ch == '[' as int then Parser(Control, 0, false, [])
      else if ch != 27 then p.(mode := Text) else p
    case Control =>
      if Digit(ch) then p.(number := Signed(p.number * 10 + (ch - '0' as int)), reading := true)
      else Parser(if ch == '?' as int || ch == ';' as int then Control else Text, 0, false, Collected(p, ch))
  }

  function Element(elements: seq<Int>, i: nat, default: Int): Int {
    if i < |elements| then elements[i] else default
  }

  // ---- the scroll region

  function RegionTop(low: int): int {
    if Signed(low - 1) < 0 then 0 else Signed(low - 1)
  }

  function RegionBottom(high: int, rows: int): int {
    if high >= rows then rows else high
  }

  /** A region that is set is a region of the screen exactly when it has a row on the screen. */
  lemma RegionExactly(low: Int, high: Int, rows: int)
    requires 0 < rows < LIMIT && low <= high
    ensures 0 <= RegionTop(low) < RegionBottom(high, rows) <= rows <==> 1 <= high && -LIMIT < low <= rows
  {
  }

  /** The final byte does not set a region off the screen. */
  predicate RegionFits(elements: seq<Int>, ch: Byte, rows: nat)
    requires rows < LIMIT
  {
    ch == 'r' as int ==>
      var low, high := Element(elements, 0, 1), Element(elements, 1, rows);
      low <= high ==> 1 <= high && -LIMIT < low <= rows
  }

  function ParsedAll(p: Parser, bytes: seq<Byte>): Parser
    decreases |bytes|
  {
    if bytes == [] then p else ParsedAll(Parsed(p, bytes[0]), bytes[1..])
  }

  function Clamp(v: int, limit: int): (r: int)
    requires 0 < limit
    ensures 0 <= r < limit && (0 <= v < limit ==> r == v)
    ensures (v < 0 ==> r == 0) && (limit <= v ==> r == limit - 1)
  {
    if v < 0 then 0 else if v >= limit then limit - 1 else v
  }

  // ---- attributes

  /** The bits of an attribute: intensity in bit 3, blinking in bit 7, colours in the other six. */
  function WithBit(a: int, bit: int): int
    requires 0 < bit
  {
    if a / bit % 2 == 0 then a + bit else a
  }

  function WithoutBit(a: int, bit: int): int
    requires 0 < bit
  {
    if a / bit % 2 == 0 then a else a - bit
  }

  /** One parameter of a select-graphic-rendition sequence. */
  function Rendition(a: int, e: int): int {
    if e == 0 || e == 27 then NORMAL
    else if e == 1 then WithBit(a, 0x08)
    else if e == 5 then WithBit(a, 0x80)
    else if e == 7 then INVERSE
    else if e == 21 || e == 22 then WithoutBit(a, 0x08)
    else if e == 25 then WithoutBit(a, 0x80)
    else if 30 <= e <= 37 then a / 8 * 8 + (e - 30)
    else if 40 <= e <= 47 then a / 128 * 128 + (e - 40) * 16 + a % 16
    else a
  }

  lemma RenditionInByte(a: int, e: int)
    requires 0 <= a < 256
    ensures 0 <= Rendition(a, e) < 256
  {
  }

  /** What a sequence of parameters makes of an attribute. */
  function Rendered(a: int, elements: seq<Int>): int {
    if elements == [] then a else Rendition(Rendered(a, elements[..|elements| - 1]), elements[|elements| - 1])
  }

  lemma {:induction false} RenderedInByte(a: int, elements: seq<Int>)
    requires 0 <= a < 256
    ensures 0 <= Rendered(a, elements) < 256
  {
    hide Rendition;
    if elements != [] {
      RenderedInByte(a, elements[..|elements| - 1]);
      RenditionInByte(Rendered(a, elements[..|elements| - 1]), elements[|elements| - 1]);
    }
  }

  // ---- the terminal

  datatype Term = Term(
    rows: nat, columns: nat, xpos: int, ypos: int, topScroll: int, bottomScroll: int,
    attrib: int, oldAttrib: int, oldXpos: int, oldYpos: int, parser: Parser, cells: seq<int>, base: nat)

  /**
   * The cells lie in memory from the byte address `base` on, two bytes each; the cursor is on the screen,
   * the region is a region of it, attributes are bytes.
   */
  ghost predicate Sound(t: Term) {
    && IsGrid(t.cells, t.rows, t.columns) && t.rows < LIMIT && t.columns < LIMIT
    && t.base + 2 * |t.cells| < WORD
    && 0 <= t.xpos < t.columns && 0 <= t.ypos < t.rows
    && 0 <= t.topScroll < t.bottomScroll <= t.rows
    && 0 <= t.attrib < 256 && 0 <= t.oldAttrib < 256
    && 0 <= t.oldXpos < t.columns && 0 <= t.oldYpos < t.rows
    && |t.parser.elements| <= MAX_ANSI_ELEMENTS
  }

  /** A sound terminal of the same size, its parser where it was. */
  ghost predicate Follows(t: Term, r: Term) {
    Sound(r) && r.rows == t.rows && r.columns == t.columns && r.base == t.base && r.parser == t.parser
  }

  function Blank(t: Term): int {
    Cell(BLANK, t.attrib)
  }

  function Here(t: Term): int {
    Index(t.columns, t.ypos, t.xpos)
  }

  function Placed(t: Term, y: int, x: int): Term
    requires 0 < t.rows && 0 < t.columns
  {
    t.(xpos := Clamp(x, t.columns), ypos := Clamp(y, t.rows))
  }

  function Erased(t: Term, lo: int, hi: int): Term {
    t.(cells := Filled(t.cells, lo, hi, Blank(t)))
  }

  function ScreenErased(t: Term, what: int): Term {
    if what == 0 then Erased(t, Here(t), t.rows * t.columns)
    else if what == 1 then Erased(t, 0, Here(t) + 1)
    else Erased(t, 0, t.rows * t.columns).(xpos := 0, ypos := 0)
  }

  function LineErased(t: Term, what: int): Term {
    var line := t.ypos * t.columns;
    Erased(t, if what == 0 then Here(t) else line, if what == 1 then Here(t) + 1 else line + t.columns)
  }

  /** The rows from `top` to the end of the region move up one. */
  ghost function RowsUp(t: Term, top: int): (r: Term)
    requires Sound(t) && 0 <= top < t.bottomScroll
    ensures Follows(t, r)
  {
    RegionBounds(t.rows, t.columns, top, t.bottomScroll);
    t.(cells := MovedBack(t.cells, top * t.columns, t.bottomScroll * t.columns, t.columns, Blank(t)))
  }

  /** The rows from `top` to the end of the region move down one. */
  ghost function RowsDown(t: Term, top: int): (r: Term)
    requires Sound(t) && 0 <= top < t.bottomScroll
    ensures Follows(t, r)
  {
    RegionBounds(t.rows, t.columns, top, t.bottomScroll);
    t.(cells := MovedOn(t.cells, top * t.columns, t.bottomScroll * t.columns, t.columns, Blank(t)))
  }

  /** Insert (`dir` 0) or delete a line at the cursor. */
  ghost function LineMoved(t: Term, dir: nat): (r: Term)
    requires Sound(t)
    ensures Follows(t, r)
  {
    if !(t.topScroll <= t.ypos < t.bottomScroll) then t else if dir != 0 then RowsUp(t, t.ypos) else RowsDown(t, t.ypos)
  }

  ghost function LinesMoved(t: Term, n: nat, dir: nat): (r: Term)
    requires Sound(t)
    ensures Follows(t, r)
    decreases n
  {
    if n == 0 then t else LinesMoved(LineMoved(t, dir), n - 1, dir)
  }

  /** The cell that pointer arithmetic in 32 bits comes to for the index `i`, two bytes a cell. */
  function CellAt(base: nat, i: int): int {
    i - (base + 2 * i) / WORD * LIMIT
  }

  lemma CellAtIs(base: nat, i: int)
    ensures 0 <= base + 2 * CellAt(base, i) < WORD
    ensures 0 <= base + 2 * i < WORD ==> CellAt(base, i) == i
    ensures -WORD <= base + 2 * i < 0 ==> CellAt(base, i) == i + LIMIT
  {
  }

  /** The cell from which a deletion of `n` characters copies. */
  function DeletionFrom(t: Term, n: int): int {
    CellAt(t.base, t.ypos * t.columns + Signed(t.xpos + n))
  }

  /** How many cells it copies. */
  function DeletionCount(t: Term, n: int): nat {
    var end := t.ypos * t.columns + t.columns;
    if Signed(t.xpos + n) < t.columns && DeletionFrom(t, n) < end then end - DeletionFrom(t, n) else 0
  }

  /** The loops of a deletion read and write only cells of the screen. */
  predicate DeletionFits(t: Term, n: int) {
    DeletionCount(t, n) > 0 ==> 0 <= DeletionFrom(t, n) && Here(t) + DeletionCount(t, n) <= |t.cells|
  }

  lemma DeletionBounds(t: Term, n: int)
    requires Sound(t) && DeletionFits(t, n)
    ensures 0 <= Here(t) < t.ypos * t.columns + t.columns <= |t.cells|
    ensures DeletionCount(t, n) > 0 ==>
      && 0 <= DeletionFrom(t, n) && DeletionFrom(t, n) + DeletionCount(t, n) == t.ypos * t.columns + t.columns
      && Here(t) + DeletionCount(t, n) <= |t.cells|
  {
    hide CellAt, Signed;
    RowBounds(t.rows, t.columns, t.ypos);
  }

  /** The rest of the line, from the cell that is `n` further on, moves up to the cursor. */
  ghost function CharsDeleted(t: Term, n: int): (r: Term)
    requires Sound(t) && DeletionFits(t, n)
    ensures Follows(t, r)
  {
    DeletionBounds(t, n);
    var end, count := t.ypos * t.columns + t.columns, DeletionCount(t, n);
    if count > 0 then
      t.(cells := Filled(CopiedTo(t.cells, Here(t), DeletionFrom(t, n), count), Here(t) + count, end, Blank(t)))
    else Erased(t, Here(t), end)
  }

  /** A line further down, within the region. */
  ghost function LineFeed(t: Term): (r: Term)
    requires Sound(t)
    ensures Follows(t, r)
  {
    if t.ypos + 1 >= t.bottomScroll then RowsUp(t, t.topScroll) else t.(ypos := t.ypos + 1)
  }

  ghost function Written(t: Term, ch: Byte): (r: Term)
    requires Sound(t)
    ensures Follows(t, r)
  {
    InGrid(t.rows, t.columns, t.ypos, t.xpos);
    t.(cells := t.cells[Here(t) := Cell(ch, t.attrib)], xpos := Clamp(t.xpos + 1, t.columns))
  }

  /** A byte of text.  Below the region, a newline stays where it is. */
  ghost function Printed(t: Term, ch: Byte): (r: Term)
    requires Sound(t)
    ensures Follows(t, r)
  {
    if ch == 27 || ch == 0 then t
    else if ch == 12 then ScreenErased(t, 2)
    else if ch == 13 then t.(xpos := 0)
    else if ch == 10 then (if t.ypos + 1 > t.bottomScroll then t else LineFeed(t)).(xpos := 0)
    else if ch == 9 then Placed(t, t.ypos, Signed(t.xpos + (8 - t.xpos % 8)))
    else if ch == 8 then t.(xpos := if t.xpos == 0 then t.columns - 1 else t.xpos - 1)
    else Written(t, ch)
  }

  /** A byte after an escape. */
  ghost function Escaped(t: Term, ch: Byte): (r: Term)
    requires Sound(t)
    ensures Follows(t, r)
  {
    if ch == '7' as int then t.(oldAttrib := t.attrib, oldXpos := t.xpos, oldYpos := t.ypos)
    else if ch == '8' as int then t.(attrib := t.oldAttrib)
    else if ch == 'D' as int then LineFeed(t)
    else if ch == 'E' as int then LineFeed(t.(xpos := 0))
    else if ch == 'M' as int then
      if t.ypos - 1 < t.topScroll then LineMoved(t, 0) else t.(ypos := t.ypos - 1)
    else t
  }

  /** The parameter `i` of the sequence that has been read. */
  function Param(t: Term, i: nat, default: Int): Int {
    Element(t.parser.elements, i, default)
  }

  /** The final bytes of the sequences that change cells, move the cursor, or place it. */
  const EDITS: set<int> := {'J' as int, 'L' as int, 'M' as int, 'P' as int, 'K' as int}
  const MOVES: set<int> := {'D' as int, 'a' as int, 'C' as int, 'A' as int, 'e' as int, 'B' as int, 'E' as int,
    'F' as int}
  const PLACES: set<int> := {'`' as int, 'G' as int, 'd' as int, 'f' as int, 'H' as int, 'u' as int}

  ghost function Moved(t: Term, ch: Byte): (r: Term)
    requires Sound(t)
    ensures Follows(t, r)
  {
    var n: int := Param(t, 0, 1);
    if ch == 'D' as int then Placed(t, t.ypos, Signed(t.xpos + Signed(-n)))
    else if ch == 'a' as int || ch == 'C' as int then Placed(t, t.ypos, Signed(t.xpos + n))
    else if ch == 'A' as int then Placed(t, Signed(t.ypos + Signed(-n)), t.xpos)
    else if ch == 'e' as int || ch == 'B' as int then Placed(t, Signed(t.ypos + n), t.xpos)
    else if ch == 'E' as int then Placed(t, Signed(t.ypos + n), 0)
    else if ch == 'F' as int then Placed(t, Signed(t.ypos - n), 0)
    else t
  }

  /** A place counted from 1; 0 counts as 1. */
  function FromOne(n: Int): Int {
    if n != 0 then Signed(n - 1) else n
  }

  ghost function Addressed(t: Term, ch: Byte): (r: Term)
    requires Sound(t)
    ensures Follows(t, r)
  {
    var n := FromOne(Param(t, 0, 1));
    if ch == '`' as int || ch == 'G' as int then Placed(t, t.ypos, n)
    else if ch == 'd' as int then Placed(t, n, t.xpos)
    else if ch == 'f' as int || ch == 'H' as int then Placed(t, n, FromOne(Param(t, 1, 1)))
    else if ch == 'u' as int then Placed(t, t.oldYpos, t.oldXpos)
    else t
  }

  /** How often a loop that counts down from `n` runs. */
  function Times(n: int): nat {
    if n > 0 then n else 0
  }

  ghost function Edited(t: Term, ch: Byte): (r: Term)
    requires Sound(t) && (ch == 'P' as int ==> DeletionFits(t, Param(t, 0, 1)))
    ensures Follows(t, r)
  {
    if ch == 'J' as int then ScreenErased(t, Param(t, 0, 0))
    else if ch == 'L' as int then LinesMoved(t, Times(Param(t, 0, 1)), 0)
    else if ch == 'M' as int then LinesMoved(t, Times(Param(t, 0, 1)), 1)
    else if ch == 'P' as int then CharsDeleted(t, Param(t, 0, 1))
    else if ch == 'K' as int then LineErased(t, Param(t, 0, 0))
    else t
  }

  ghost function Configured(t: Term, ch: Byte): (r: Term)
    requires Sound(t) && RegionFits(t.parser.elements, ch, t.rows)
    ensures Follows(t, r)
  {
    if ch == 's' as int then t.(oldXpos := t.xpos, oldYpos := t.ypos)
    else if ch == 'r' as int then
      var low, high := Param(t, 0, 1), Param(t, 1, t.rows);
      if low > high then t
      else
        RegionExactly(low, high, t.rows);
        t.(topScroll := RegionTop(low), bottomScroll := RegionBottom(high, t.rows))
    else if ch == 'm' as int then
      RenderedInByte(t.attrib, t.parser.elements);
      t.(attrib := if t.parser.elements == [] then NORMAL else Rendered(t.attrib, t.parser.elements))
    else t
  }

  /** The final byte leads to no cell off the screen, and to no region off it. */
  ghost predicate Executable(t: Term, ch: Byte)
    requires t.rows < LIMIT
  {
    RegionFits(t.parser.elements, ch, t.rows) && (ch == 'P' as int ==> DeletionFits(t, Param(t, 0, 1)))
  }

  /** A control sequence, its parameters read, at its final byte. */
  ghost function Executed(t: Term, ch: Byte): (r: Term)
    requires Sound(t) && Executable(t, ch)
    ensures Follows(t, r)
  {
    if ch in MOVES then Moved(t, ch)
    else if ch in PLACES then Addressed(t, ch)
    else if ch in EDITS then Edited(t, ch)
    else Configured(t, ch)
  }

  predicate Separator(ch: Byte) {
    ch == '?' as int || ch == ';' as int
  }

  /** The terminal when a byte of a control sequence that is no digit has ended the number before it. */
  ghost function Gathered(t: Term, ch: Byte): Term {
    t.(parser := Parser(Control, 0, false, Collected(t.parser, ch)))
  }

  ghost predicate StepOk(t: Term, ch: Byte)
    requires t.rows < LIMIT
  {
    t.parser.mode == Control && !Digit(ch) && !Separator(ch) ==> Executable(Gathered(t, ch), ch)
  }

  /** One byte, wherever the parser is. */
  ghost function Step(t: Term, ch: Byte): (r: Term)
    requires Sound(t) && StepOk(t, ch)
    ensures Sound(r) && r.parser == Parsed(t.parser, ch)
    ensures r.rows == t.rows && r.columns == t.columns && r.base == t.base
  {
    match t.parser.mode
    case Text => Printed(t, ch).(parser := Parsed(t.parser, ch))
    case Escape => Escaped(t, ch).(parser := Parsed(t.parser, ch))
    case Charset => t.(parser := Parsed(t.parser, ch))
    case Control =>
      if Digit(ch) then t.(parser := Parsed(t.parser, ch))
      else if Separator(ch) then Gathered(t, ch)
      else Executed(Gathered(t, ch), ch).(parser := Parsed(t.parser, ch))
  }

  /** No byte of the stream leads off the screen. */
  ghost predicate StreamOk(t: Term, bytes: seq<Byte>)
    requires Sound(t)
    decreases |bytes|
  {
    bytes == [] || (StepOk(t, bytes[0]) && StreamOk(Step(t, bytes[0]), bytes[1..]))
  }

  /** Such a stream keeps the terminal in order. */
  ghost function Run(t: Term, bytes: seq<Byte>): (r: Term)
    requires Sound(t) && StreamOk(t, bytes)
    ensures Sound(r) && r.parser == ParsedAll(t.parser, bytes)
    ensures r.rows == t.rows && r.columns == t.columns && r.base == t.base
    decreases |bytes|
  {
    if bytes == [] then t else Run(Step(t, bytes[0]), bytes[1..])
  }
}
