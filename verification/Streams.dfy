/**
 * What whole streams of bytes do to the terminal of blt/srv/console2/vt100.c: text is
 * shown where the cursor is, a control sequence is executed with exactly the parameters
 * that were written out, scrolling stays in its region.
 */
module Streams {
  import opened Grid
  import opened Terminal
  import opened Word

  const ESC: Byte := 27
  const BRACKET: Byte := '[' as int
  const SEMICOLON: Byte := ';' as int

  // ---- streams in pieces

  /** Streams may arrive in pieces of any size. */
  lemma {:induction false} RunSplit(t: Term, a: seq<Byte>, b: seq<Byte>)
    requires Sound(t) && StreamOk(t, a + b)
    ensures StreamOk(t, a) && StreamOk(Run(t, a), b)
    ensures Run(t, a + b) == Run(Run(t, a), b)
    decreases |a|
  {
    hide Sound, Step, StepOk, Parsed;
    if a == [] {
      assert a + b == b;
    } else {
      assert (a + b)[0] == a[0] && (a + b)[1..] == a[1..] + b;
      RunSplit(Step(t, a[0]), a[1..], b);
    }
  }

  /** Streams that stay on the screen one after the other make one that does. */
  lemma {:induction false} RunJoin(t: Term, a: seq<Byte>, b: seq<Byte>)
    requires Sound(t) && StreamOk(t, a) && StreamOk(Run(t, a), b)
    ensures StreamOk(t, a + b) && Run(t, a + b) == Run(Run(t, a), b)
    decreases |a|
  {
    hide Sound, Step, StepOk, Parsed;
    if a == [] {
      assert a + b == b;
    } else {
      assert (a + b)[0] == a[0] && (a + b)[1..] == a[1..] + b;
      RunJoin(Step(t, a[0]), a[1..], b);
    }
  }

  // ---- parameters, written and read

  /** A number in decimal digits. */
  function Decimal(n: nat): (r: seq<Byte>)
    ensures r != [] && forall i :: 0 <= i < |r| ==> Digit(r[i])
    decreases n
  {
    var digit: Byte := '0' as int + n % 10;
    if n < 10 then [digit] else Decimal(n / 10) + [digit]
  }

  /** Parameters with separators between them. */
  function Spelled(ps: seq<nat>): (r: seq<Byte>)
    ensures forall i :: 0 <= i < |r| ==> Digit(r[i]) || r[i] == SEMICOLON
    decreases |ps|
  {
    if ps == [] then []
    else if |ps| == 1 then Decimal(ps[0])
    else Decimal(ps[0]) + [SEMICOLON] + Spelled(ps[1..])
  }

  lemma {:induction false} ParsedSplit(p: Parser, a: seq<Byte>, b: seq<Byte>)
    ensures ParsedAll(p, a + b) == ParsedAll(ParsedAll(p, a), b)
    decreases |a|
  {
    hide Parsed;
    if a == [] {
      assert a + b == b;
    } else {
      assert (a + b)[0] == a[0] && (a + b)[1..] == a[1..] + b;
      ParsedSplit(Parsed(p, a[0]), a[1..], b);
    }
  }

  lemma ParsedOne(p: Parser, ch: Byte)
    ensures ParsedAll(p, [ch]) == Parsed(p, ch)
  {
    hide Parsed;
    assert [ch][1..] == [];
  }

  /** The digits of a number are read as the int that 32 bits hold of it. */
  lemma {:induction false} DigitsRead(n: nat, elements: seq<Int>)
    ensures ParsedAll(Parser(Control, 0, false, elements), Decimal(n)) == Parser(Control, Signed(n), true, elements)
    decreases n
  {
    var p := Parser(Control, 0, false, elements);
    var digit: Byte := '0' as int + n % 10;
    if n < 10 {
      ParsedOne(p, digit);
    } else {
      DigitsRead(n / 10, elements);
      ParsedSplit(p, Decimal(n / 10), [digit]);
      ParsedOne(Parser(Control, Signed(n / 10), true, elements), digit);
      SignedDigits(n / 10, n % 10);
    }
  }

  /** They are read back as the number exactly when it is below 2^31. */
  lemma NumberRead(n: nat, elements: seq<Int>)
    ensures ParsedAll(Parser(Control, 0, false, elements), Decimal(n)).number == n <==> n < LIMIT
  {
    DigitsRead(n, elements);
    SignedExactly(n);
  }

  /** At most the first 16. */
  function Kept<T>(ps: seq<T>): seq<T> {
    if |ps| <= MAX_ANSI_ELEMENTS then ps else ps[..MAX_ANSI_ELEMENTS]
  }

  /** The ints that 32 bits hold of numbers. */
  function Ints(ps: seq<nat>): (r: seq<Int>)
    ensures |r| == |ps| && forall i :: 0 <= i < |ps| ==> r[i] == Signed(ps[i])
  {
    seq(|ps|, i requires 0 <= i < |ps| => Signed(ps[i]))
  }

  /** Parameters that are written out are read as ints, the first 16 of them. */
  lemma {:induction false} IntsRead(ps: seq<nat>, elements: seq<Int>, final: Byte)
    requires |elements| <= MAX_ANSI_ELEMENTS && !Digit(final) && !Separator(final)
    ensures var p := ParsedAll(Parser(Control, 0, false, elements), Spelled(ps));
            p.mode == Control && Collected(p, final) == Kept(elements + Ints(ps))
    decreases |ps|
  {
    hide Decimal, Signed;
    var p := Parser(Control, 0, false, elements);
    if ps == [] {
      assert elements + Ints(ps) == elements;
    } else if |ps| == 1 {
      DigitsRead(ps[0], elements);
      assert elements + Ints(ps) == elements + [Signed(ps[0])];
      KeptOneMore(elements, Signed(ps[0]));
    } else {
      DigitsRead(ps[0], elements);
      var q := Parser(Control, Signed(ps[0]), true, elements);
      ParsedSplit(p, Decimal(ps[0]) + [SEMICOLON], Spelled(ps[1..]));
      ParsedSplit(p, Decimal(ps[0]), [SEMICOLON]);
      ParsedOne(q, SEMICOLON);
      KeptOneMore(elements, Signed(ps[0]));
      IntsRead(ps[1..], Collected(q, SEMICOLON), final);
      assert Ints(ps)[1..] == Ints(ps[1..]);
      KeptOfKept(elements, Ints(ps));
    }
  }

  /** They are read back as they were exactly when the first 16 are all below 2^31. */
  lemma ParametersRead(ps: seq<nat>, final: Byte)
    requires !Digit(final) && !Separator(final)
    ensures Collected(ParsedAll(Parser(Control, 0, false, []), Spelled(ps)), final) == Kept(ps)
            <==> forall i :: 0 <= i < |ps| && i < MAX_ANSI_ELEMENTS ==> ps[i] < LIMIT
  {
    hide Spelled, ParsedAll, Collected;
    IntsRead(ps, [], final);
    assert [] + Ints(ps) == Ints(ps);
    KeptAsTheyAre(ps);
  }

  lemma KeptAsTheyAre(ps: seq<nat>)
    ensures Kept(Ints(ps)) == Kept(ps) <==> forall i :: 0 <= i < |ps| && i < MAX_ANSI_ELEMENTS ==> ps[i] < LIMIT
  {
    hide Signed;
    var n := |Kept(ps)|;
    assert forall i :: 0 <= i < n ==> Kept(Ints(ps))[i] == Signed(ps[i]) && Kept(ps)[i] == ps[i];
    forall i | 0 <= i < n ensures Signed(ps[i]) == ps[i] <==> ps[i] < LIMIT {
      SignedExactly(ps[i]);
    }
  }

  lemma KeptOneMore(elements: seq<Int>, n: Int)
    requires |elements| <= MAX_ANSI_ELEMENTS
    ensures Kept(elements + [n]) == if |elements| < MAX_ANSI_ELEMENTS then elements + [n] else elements
  {
  }

  lemma KeptOfKept(elements: seq<Int>, ps: seq<Int>)
    requires |elements| <= MAX_ANSI_ELEMENTS && ps != []
    ensures Kept(Kept(elements + [ps[0]]) + ps[1..]) == Kept(elements + ps)
  {
    assert elements + [ps[0]] + ps[1..] == elements + ps;
  }

  // ---- control sequences

  /** While parameters are read, nothing but the parser changes. */
  lemma {:induction false} ReadingIsQuiet(t: Term, bytes: seq<Byte>)
    requires Sound(t) && t.parser.mode == Control
    requires forall i :: 0 <= i < |bytes| ==> Digit(bytes[i]) || bytes[i] == SEMICOLON
    ensures StreamOk(t, bytes) && Run(t, bytes) == t.(parser := ParsedAll(t.parser, bytes))
    decreases |bytes|
  {
    if bytes != [] {
      assert Digit(bytes[0]) || bytes[0] == SEMICOLON;
      ReadingIsQuiet(Step(t, bytes[0]), bytes[1..]);
    }
  }

  /** A control sequence as a host writes it. */
  function Sequence(ps: seq<nat>, final: Byte): seq<Byte> {
    [ESC, BRACKET] + Spelled(ps) + [final]
  }

  lemma RunOne(t: Term, ch: Byte)
    requires Sound(t)
    ensures StreamOk(t, [ch]) <==> StepOk(t, ch)
    ensures StepOk(t, ch) ==> Run(t, [ch]) == Step(t, ch)
  {
    hide Sound, Step, StepOk;
    assert [ch][1..] == [];
  }

  /** Escape and bracket start a control sequence and change nothing else. */
  lemma Introduced(t: Term)
    requires Sound(t) && t.parser.mode == Text
    ensures StreamOk(t, [ESC, BRACKET])
    ensures Run(t, [ESC, BRACKET]) == t.(parser := Parser(Control, 0, false, []))
  {
    hide StreamOk, Run;
    RunOne(t, ESC);
    var u := t.(parser := t.parser.(mode := Escape));
    RunOne(u, BRACKET);
    assert [ESC] + [BRACKET] == [ESC, BRACKET];
    RunJoin(t, [ESC], [BRACKET]);
  }

  /** The terminal with the parameters of a sequence read. */
  ghost function WithParameters(t: Term, ps: seq<nat>): Term {
    t.(parser := Parser(Control, 0, false, Kept(Ints(ps))))
  }

  /**
   * A control sequence is safe exactly when its parameters, read as ints, are safe for its final byte, and
   * then it is executed with exactly these, the first 16 of them, and the terminal is back in text.
   */
  lemma SequenceExecuted(t: Term, ps: seq<nat>, final: Byte)
    requires Sound(t) && t.parser.mode == Text && !Digit(final) && !Separator(final)
    ensures StreamOk(t, Sequence(ps, final)) <==> Executable(WithParameters(t, ps), final)
    ensures Executable(WithParameters(t, ps), final) ==>
      Sound(WithParameters(t, ps)) &&
      Run(t, Sequence(ps, final)) ==
        Executed(WithParameters(t, ps), final).(parser := Parser(Text, 0, false, Kept(Ints(ps))))
  {
    hide Spelled, StreamOk, Run, Executable;
    Introduced(t);
    var u := Run(t, [ESC, BRACKET]);
    ReadingIsQuiet(u, Spelled(ps));
    IntsRead(ps, [], final);
    assert [] + Ints(ps) == Ints(ps);
    var v := Run(u, Spelled(ps));
    assert Gathered(v, final) == WithParameters(t, ps);
    RunOne(v, final);
    RunJoin(t, [ESC, BRACKET], Spelled(ps));
    if StreamOk(t, Sequence(ps, final)) {
      RunSplit(t, [ESC, BRACKET] + Spelled(ps), [final]);
    }
    if Executable(WithParameters(t, ps), final) {
      RunJoin(t, [ESC, BRACKET] + Spelled(ps), [final]);
    }
  }

  /**
   * Every place on the screen can be addressed: the cursor goes there, whatever was before, and nothing else
   * changes.
   */
  lemma CursorAddressed(t: Term, y: nat, x: nat)
    requires Sound(t) && t.parser.mode == Text && y < t.rows && x < t.columns
    ensures StreamOk(t, Sequence([y + 1, x + 1], 'H' as int))
    ensures Run(t, Sequence([y + 1, x + 1], 'H' as int)) ==
      t.(ypos := y, xpos := x, parser := Parser(Text, 0, false, [y + 1, x + 1]))
  {
    hide Run, StreamOk, Sequence, Executed, Sound;
    SequenceExecuted(t, [y + 1, x + 1], 'H' as int);
    BelowLimit(t, y, x);
    assert Ints([y + 1, x + 1]) == [y + 1, x + 1];
    AddressedAt(WithParameters(t, [y + 1, x + 1]), y, x);
  }

  lemma BelowLimit(t: Term, y: nat, x: nat)
    requires Sound(t) && y < t.rows && x < t.columns
    ensures y + 1 < LIMIT && x + 1 < LIMIT
  {
  }

  lemma AddressedAt(t: Term, y: nat, x: nat)
    requires Sound(t) && y < t.rows && x < t.columns && t.parser.elements == [y + 1, x + 1]
    ensures Executable(t, 'H' as int) && Executed(t, 'H' as int) == t.(ypos := y, xpos := x)
  {
    hide IsGrid;
  }

  /**
   * Going down and up again by the same number leads back exactly if the cursor did not stop at an edge on
   * the way, or comes back to that edge; numbers from 2^31 on go the other way.
   */
  lemma DownAndUp(t: Term, n: nat)
    requires Sound(t) && t.parser.mode == Text
    ensures var down, up := Sequence([n], 'B' as int), Sequence([n], 'A' as int);
            && StreamOk(t, down) && StreamOk(Run(t, down), up)
            && (Run(Run(t, down), up).ypos == t.ypos <==>
                 || 0 <= t.ypos + Signed(n) < t.rows
                 || t.ypos == if -LIMIT < Signed(n) < 0 then t.rows - 1 else 0)
  {
    hide Run, StreamOk, Sequence;
    SequenceExecuted(t, [n], 'B' as int);
    var u := Run(t, Sequence([n], 'B' as int));
    SequenceExecuted(u, [n], 'A' as int);
  }

  // ---- where sequences lead off the screen

  /** The cells that the loops of a deletion read or write. */
  ghost predicate DeletionTouches(t: Term, n: int, i: int) {
    var end, from, count := t.ypos * t.columns + t.columns, DeletionFrom(t, n), DeletionCount(t, n);
    Here(t) <= i < Here(t) + count || from <= i < from + count || Here(t) + count <= i < end
  }

  /** They are cells of the screen exactly when the deletion fits. */
  lemma DeletionExactly(t: Term, n: int)
    requires Sound(t)
    ensures DeletionFits(t, n) <==> forall i :: DeletionTouches(t, n, i) ==> 0 <= i < |t.cells|
  {
    hide CellAt, Signed;
    RowBounds(t.rows, t.columns, t.ypos);
    var from, count := DeletionFrom(t, n), DeletionCount(t, n);
    if count > 0 {
      assert DeletionTouches(t, n, from);
      assert DeletionTouches(t, n, Here(t) + count - 1);
    }
  }

  /**
   * The count is not negative and does not overflow with the cursor's column, or it is so far below zero that the
   * address of the cell wraps around.
   */
  predicate CountInLine(t: Term, n: int) {
    0 <= n < LIMIT - t.xpos || (n < 0 && t.base + 2 * (Here(t) + n) < 0)
  }

  /** Where a deletion copies from, for every count. */
  lemma DeletionFromIs(t: Term, n: int)
    requires Sound(t) && -LIMIT <= n < LIMIT
    ensures Here(t) < t.ypos * t.columns + t.columns <= |t.cells|
    ensures n < 0 ==> Signed(t.xpos + n) < t.xpos
    ensures n < 0 ==>
      DeletionFrom(t, n) == if t.base + 2 * (Here(t) + n) < 0 then Here(t) + n + LIMIT else Here(t) + n
    ensures 0 <= n < LIMIT - t.xpos ==> Signed(t.xpos + n) == t.xpos + n
    ensures 0 <= n < LIMIT - t.xpos && t.xpos + n < t.columns ==> DeletionFrom(t, n) == Here(t) + n
    ensures LIMIT - t.xpos <= n ==> Signed(t.xpos + n) < 0 && DeletionFrom(t, n) == Here(t) + n - LIMIT < Here(t)
  {
    hide CellAt;
    RowBounds(t.rows, t.columns, t.ypos);
    var i := t.ypos * t.columns + Signed(t.xpos + n);
    CellAtIs(t.base, i);
    assert Signed(t.xpos + n) == if t.xpos + n < LIMIT then t.xpos + n else t.xpos + n - WORD;
  }

  /** The cells are cells of the cursor's line exactly for such a count. */
  lemma DeletionInLine(t: Term, n: int)
    requires Sound(t) && -LIMIT <= n < LIMIT
    ensures (forall i :: DeletionTouches(t, n, i) ==> Here(t) <= i < t.ypos * t.columns + t.columns)
            <==> CountInLine(t, n)
  {
    hide DeletionFrom, Signed;
    DeletionFromIs(t, n);
    if !CountInLine(t, n) {
      assert DeletionTouches(t, n, DeletionFrom(t, n));
    }
  }

  /** How far such a deletion moves the rest of the line. */
  function Distance(n: int): nat
    requires -LIMIT <= n
  {
    if n < 0 then n + LIMIT else n
  }

  /**
   * Then the rest of the line moves up to the cursor by the count, or by 2^31 more if it is negative, blanks
   * follow, and no other line changes.
   */
  lemma CharsDeletedRow(t: Term, n: int, y: int, c: int)
    requires Sound(t) && -LIMIT <= n < LIMIT && CountInLine(t, n) && 0 <= y < t.rows && 0 <= c < t.columns
    ensures DeletionFits(t, n)
    ensures Row(CharsDeleted(t, n).cells, t.columns, y)[c] ==
      if y != t.ypos || c < t.xpos then Row(t.cells, t.columns, y)[c]
      else if c + Distance(n) < t.columns then Row(t.cells, t.columns, y)[c + Distance(n)]
      else Blank(t)
  {
    hide Cell, DeletionFits, DeletionFrom, DeletionCount, CharsDeleted;
    CountIs(t, n);
    RowPlace(t.rows, t.columns, t.ypos, t.ypos + 1, y);
    InGrid(t.rows, t.columns, y, c);
    CharsDeletedAt(t, n, Distance(n), t.ypos * t.columns + t.columns, y * t.columns + c);
  }

  /** What is copied then. */
  lemma CountIs(t: Term, n: int)
    requires Sound(t) && -LIMIT <= n < LIMIT && CountInLine(t, n)
    ensures DeletionFits(t, n)
    ensures var from, end := Here(t) + Distance(n), t.ypos * t.columns + t.columns;
            && DeletionCount(t, n) == (if from < end then end - from else 0)
            && (DeletionCount(t, n) > 0 ==> DeletionFrom(t, n) == from)
  {
    hide DeletionFrom, Signed, IsGrid;
    DeletionFromIs(t, n);
  }

  /** The same, cell by cell. */
  lemma CharsDeletedAt(t: Term, n: int, m: nat, end: int, i: int)
    requires Sound(t) && DeletionFits(t, n) && end == t.ypos * t.columns + t.columns && 0 <= i < |t.cells|
    requires DeletionCount(t, n) == if Here(t) + m < end then end - (Here(t) + m) else 0
    requires DeletionCount(t, n) > 0 ==> DeletionFrom(t, n) == Here(t) + m
    ensures end <= |t.cells| && |CharsDeleted(t, n).cells| == |t.cells|
    ensures CharsDeleted(t, n).cells[i] ==
      if !(Here(t) <= i < end) then t.cells[i] else if i + m < end then t.cells[i + m] else Blank(t)
  {
    hide Cell, DeletionFrom, DeletionCount, Filled, CopiedTo, IsGrid;
    DeletionBounds(t, n);
  }

  /** A negative count reaches behind the screen from its last line, exactly unless the address wraps around. */
  lemma BehindTheEnd(t: Term, n: int)
    requires Sound(t) && t.ypos == t.rows - 1 && -LIMIT <= n < 0
    ensures !DeletionFits(t, n) <==> 0 <= t.base + 2 * (Here(t) + n)
    ensures !DeletionFits(t, n) ==> DeletionTouches(t, n, |t.cells| - n - 1)
  {
    hide DeletionFrom, Signed;
    DeletionFromIs(t, n);
    assert (t.ypos + 1) * t.columns == |t.cells|;
  }

  /** An instance: to delete 2^31 characters is to copy the rest of the line onto itself, on every screen. */
  lemma DeletionOfNone(t: Term)
    requires Sound(t)
    ensures Signed(0x8000_0000) == -LIMIT && CountInLine(t, -LIMIT) && DeletionFits(t, -LIMIT)
    ensures CharsDeleted(t, -LIMIT) == t
  {
    hide DeletionFrom, Signed, IsGrid;
    assert Signed(0x8000_0000) == -LIMIT by { SignedFlat(-LIMIT, 1); }
    DeletionFromIs(t, -LIMIT);
    assert forall i :: 0 <= i < |t.cells| ==> CharsDeleted(t, -LIMIT).cells[i] == t.cells[i];
  }

  /**
   * Another: to delete 2^32 - 6 characters in the last line is to write six cells behind the screen, on every screen
   * that is not at the very bottom of memory.
   */
  lemma DeletionOffScreen(t: Term)
    requires Sound(t) && t.parser.mode == Text && t.ypos == t.rows - 1
    ensures !StreamOk(t, Sequence([0xffff_fffa], 'P' as int)) <==> 12 <= t.base + 2 * Here(t)
    ensures Signed(0xffff_fffa) == -6 && (12 <= t.base + 2 * Here(t) ==> DeletionTouches(t, -6, |t.cells| + 5))
  {
    hide StreamOk, Sequence, IsGrid, RegionFits, DeletionFits, DeletionTouches;
    SequenceExecuted(t, [0xffff_fffa], 'P' as int);
    assert Param(WithParameters(t, [0xffff_fffa]), 0, 1) == -6;
    var u := WithParameters(t, [0xffff_fffa]);
    BehindTheEnd(t, -6);
    BehindTheEnd(u, -6);
    assert RegionFits(u.parser.elements, 'P' as int, u.rows) by { ForRegionOnly(u.parser.elements, u.rows); }
  }

  lemma ForRegionOnly(elements: seq<Int>, rows: nat)
    requires rows < LIMIT
    ensures RegionFits(elements, 'P' as int, rows)
  {
  }

  /**
   * A sequence for the scroll region leads off the screen exactly when, of the ints that are read, the first is
   * at most the second and they name no row.
   */
  lemma RegionOffScreen(t: Term, low: nat, high: nat)
    requires Sound(t) && t.parser.mode == Text
    ensures !StreamOk(t, Sequence([low, high], 'r' as int)) <==>
      Signed(low) <= Signed(high) && (Signed(high) < 1 || Signed(low) == -LIMIT || t.rows < Signed(low))
  {
    hide StreamOk, Sequence;
    SequenceExecuted(t, [low, high], 'r' as int);
  }

  /**
   * What a host can check on the bytes alone: the counts of deletions do not overflow, and regions are on the
   * screen.
   */
  ghost predicate Moderate(p: Parser, bytes: seq<Byte>, rows: nat, columns: nat)
    requires rows < LIMIT
    decreases |bytes|
  {
    bytes == [] ||
    (&& (p.mode == Control && !Digit(bytes[0]) && !Separator(bytes[0]) ==>
          && RegionFits(Collected(p, bytes[0]), bytes[0], rows)
          && (bytes[0] == 'P' as int ==> 0 <= Element(Collected(p, bytes[0]), 0, 1) <= LIMIT - columns))
     && Moderate(Parsed(p, bytes[0]), bytes[1..], rows, columns))
  }

  lemma ModerateFits(t: Term, n: int)
    requires Sound(t) && 0 <= n <= LIMIT - t.columns
    ensures DeletionFits(t, n)
  {
    hide DeletionFrom, Signed, IsGrid;
    DeletionFromIs(t, n);
  }

  lemma ModerateStep(t: Term, ch: Byte)
    requires Sound(t)
    requires t.parser.mode == Control && !Digit(ch) && !Separator(ch) ==>
      && RegionFits(Collected(t.parser, ch), ch, t.rows)
      && (ch == 'P' as int ==> 0 <= Element(Collected(t.parser, ch), 0, 1) <= LIMIT - t.columns)
    ensures StepOk(t, ch)
  {
    hide RegionFits, Collected, DeletionFits;
    if t.parser.mode == Control && !Digit(ch) && !Separator(ch) && ch == 'P' as int {
      ModerateFits(t, Element(Collected(t.parser, ch), 0, 1));
      SameFits(t, Gathered(t, ch), Element(Collected(t.parser, ch), 0, 1));
    }
  }

  /** Whether a deletion fits has nothing to do with the parser. */
  lemma SameFits(t: Term, u: Term, n: int)
    requires u == t.(parser := u.parser)
    ensures DeletionFits(u, n) <==> DeletionFits(t, n)
  {
    hide CellAt, Signed;
  }

  /** That is enough to stay on the screen. */
  lemma {:induction false} ModerateIsOk(t: Term, bytes: seq<Byte>)
    requires Sound(t) && Moderate(t.parser, bytes, t.rows, t.columns)
    ensures StreamOk(t, bytes)
    decreases |bytes|
  {
    hide Step, RegionFits, Collected, Parsed, DeletionFits, IsGrid;
    if bytes != [] {
      ModerateStep(t, bytes[0]);
      ModerateIsOk(Step(t, bytes[0]), bytes[1..]);
    }
  }

  // ---- text

  /** A byte that shows as a character. */
  predicate Printable(ch: Byte) {
    ch !in {0, 8, 9, 10, 12, 13, 27}
  }

  /**
   * What column `c` of the cursor's row holds after the text: the text from the cursor on, its overflow on the
   * last column.
   */
  function Shown(t: Term, text: seq<Byte>, c: nat, before: int): int {
    if c == t.columns - 1 && t.xpos + |text| >= t.columns && text != [] then Cell(text[|text| - 1], t.attrib)
    else if t.xpos <= c < t.xpos + |text| then Cell(text[c - t.xpos], t.attrib)
    else before
  }

  lemma {:induction false} TextShown(t: Term, text: seq<Byte>)
    requires Sound(t) && t.parser.mode == Text && forall i :: 0 <= i < |text| ==> Printable(text[i])
    ensures StreamOk(t, text)
    ensures var r := Run(t, text);
            && r == t.(cells := r.cells, xpos := Clamp(t.xpos + |text|, t.columns))
            && (forall c {:trigger Row(r.cells, t.columns, t.ypos)[c]} :: 0 <= c < t.columns ==>
                 Row(r.cells, t.columns, t.ypos)[c] == Shown(t, text, c, Row(t.cells, t.columns, t.ypos)[c]))
            && forall y :: 0 <= y < t.rows && y != t.ypos ==> Row(r.cells, t.columns, y) == Row(t.cells, t.columns, y)
    decreases |text|
  {
    if text != [] {
      assert Printable(text[0]);
      var u := Step(t, text[0]);
      WrittenRow(t, text[0]);
      TextShown(u, text[1..]);
      var r := Run(t, text);
      forall c {:trigger Row(r.cells, t.columns, t.ypos)[c]} | 0 <= c < t.columns
        ensures Row(r.cells, t.columns, t.ypos)[c] == Shown(t, text, c, Row(t.cells, t.columns, t.ypos)[c])
      {
        ShownFirst(t, text, c, Row(t.cells, t.columns, t.ypos)[c]);
      }
    }
  }

  /** Showing the first character, then the rest. */
  lemma ShownFirst(t: Term, text: seq<Byte>, c: nat, before: int)
    requires 0 <= t.xpos < t.columns && c < t.columns && text != []
    ensures var u := t.(xpos := Clamp(t.xpos + 1, t.columns));
            Shown(t, text, c, before) == Shown(u, text[1..], c, if c == t.xpos then Cell(text[0], t.attrib) else before)
  {
  }

  /** A character that is written changes one cell of one row. */
  lemma WrittenRow(t: Term, ch: Byte)
    requires Sound(t)
    ensures var r := Terminal.Written(t, ch);
            && Row(r.cells, t.columns, t.ypos) == Row(t.cells, t.columns, t.ypos)[t.xpos := Cell(ch, t.attrib)]
            && forall y :: 0 <= y < t.rows && y != t.ypos ==> Row(r.cells, t.columns, y) == Row(t.cells, t.columns, y)
  {
    hide Span;
    InGrid(t.rows, t.columns, t.ypos, t.xpos);
    RowBounds(t.rows, t.columns, t.ypos);
    forall y | 0 <= y < t.rows && y != t.ypos
      ensures Row(Terminal.Written(t, ch).cells, t.columns, y) == Row(t.cells, t.columns, y)
    {
      RowPlace(t.rows, t.columns, t.ypos, t.ypos + 1, y);
    }
  }

  // ---- scrolling

  /**
   * What row `y` holds after `n` lines were inserted or deleted at the cursor: rows of the region move by `n`,
   * blank ones come in.
   */
  ghost predicate RowAfter(t: Term, n: nat, dir: nat, r: Term, y: int)
    requires 0 < t.columns
  {
    var from := if dir != 0 then y + n else y - n;
    if !(t.topScroll <= t.ypos < t.bottomScroll) || !(t.ypos <= y < t.bottomScroll) then
      Row(r.cells, t.columns, y) == Row(t.cells, t.columns, y)
    else if t.ypos <= from < t.bottomScroll then Row(r.cells, t.columns, y) == Row(t.cells, t.columns, from)
    else forall c {:trigger Row(r.cells, t.columns, y)[c]} :: 0 <= c < t.columns ==>
      Row(r.cells, t.columns, y)[c] == Blank(t)
  }

  lemma LineMovedRow(t: Term, dir: nat, y: int)
    requires Sound(t) && 0 <= y < t.rows
    ensures RowAfter(t, 1, dir, LineMoved(t, dir), y)
  {
    hide MovedBack, MovedOn, Row;
    if t.topScroll <= t.ypos < t.bottomScroll {
      if dir != 0 {
        ScrollUpRows(t.cells, t.rows, t.columns, t.ypos, t.bottomScroll, Blank(t), y);
      } else {
        ScrollDownRows(t.cells, t.rows, t.columns, t.ypos, t.bottomScroll, Blank(t), y);
      }
    }
  }

  /**
   * Inserting or deleting `n` lines moves the rows from the cursor's to the end of the region by `n` and
   * changes no other row.
   */
  lemma {:induction false} LinesMovedRow(t: Term, n: nat, dir: nat, y: int)
    requires Sound(t) && 0 <= y < t.rows
    ensures LinesMoved(t, n, dir) == t.(cells := LinesMoved(t, n, dir).cells)
    ensures RowAfter(t, n, dir, LinesMoved(t, n, dir), y)
    decreases n
  {
    hide Row, LineMoved, Cell, IsGrid, Span;
    if n > 0 {
      var u := LineMoved(t, dir);
      SameScreen(t, dir);
      LinesMovedRow(u, n - 1, dir, y);
      LineMovedRow(t, dir, y);
      var back := if dir != 0 then y + (n - 1) else y - (n - 1);
      if 0 <= back < t.rows { LineMovedRow(t, dir, back); }
    }
  }

  lemma SameScreen(t: Term, dir: nat)
    requires Sound(t)
    ensures LineMoved(t, dir) == t.(cells := LineMoved(t, dir).cells)
  {
  }

  /** Inserting and then deleting the same lines keeps the rows that were not pushed out of the region. */
  lemma InsertThenDelete(t: Term, n: nat, y: int)
    requires Sound(t) && t.topScroll <= t.ypos < t.bottomScroll && t.ypos <= y && y + n < t.bottomScroll
    ensures Row(LinesMoved(LinesMoved(t, n, 0), n, 1).cells, t.columns, y) == Row(t.cells, t.columns, y)
  {
    hide Row, LinesMoved;
    var u := LinesMoved(t, n, 0);
    LinesMovedRow(t, n, 0, y + n);
    LinesMovedRow(u, n, 1, y);
  }

  /** The bytes that scroll. */
  predicate Scrolls(p: Parser, ch: Byte) {
    || (p.mode == Text && ch == 10)
    || (p.mode == Escape && ch in {'D' as int, 'E' as int, 'M' as int})
    || (p.mode == Control && ch in {'L' as int, 'M' as int})
  }

  /** Scrolling changes only rows in the region. */
  lemma ScrollingStaysInside(t: Term, ch: Byte, y: int)
    requires Sound(t) && Scrolls(t.parser, ch) && 0 <= y < t.rows && !(t.topScroll <= y < t.bottomScroll)
    ensures Row(Step(t, ch).cells, t.columns, y) == Row(t.cells, t.columns, y)
  {
    hide MovedBack, MovedOn, Row;
    ScrollUpRows(t.cells, t.rows, t.columns, t.topScroll, t.bottomScroll, Blank(t), y);
    LineMovedRow(t, 0, y);
    if t.parser.mode == Control {
      var u := Gathered(t, ch);
      LinesMovedRow(u, Times(Param(u, 0, 1)), if ch == 'L' as int then 0 else 1, y);
    }
  }

  /** What is in the cells, the region or the attribute changes only by the bytes that are for that. */
  lemma OnlyBytesForIt(t: Term, ch: Byte)
    requires Sound(t) && t.parser.mode == Control && StepOk(t, ch)
    ensures var r := Step(t, ch);
            && (ch !in EDITS ==> r.cells == t.cells)
            && (ch != 'r' as int ==> r.topScroll == t.topScroll && r.bottomScroll == t.bottomScroll)
            && (ch != 'm' as int ==> r.attrib == t.attrib)
            && (ch != 's' as int ==> r.oldXpos == t.oldXpos && r.oldYpos == t.oldYpos)
            && (ch !in MOVES && ch !in PLACES && ch != 'J' as int ==> r.xpos == t.xpos && r.ypos == t.ypos)
  {
    hide Rendered, LinesMoved, Clamp;
    if !Digit(ch) && (ch == 'L' as int || ch == 'M' as int) {
      var u := Gathered(t, ch);
      LinesMovedRow(u, Times(Param(u, 0, 1)), if ch == 'L' as int then 0 else 1, 0);
    }
  }

  // ---- saving and restoring

  predicate Saves(p: Parser, ch: Byte) {
    (p.mode == Escape && ch == '7' as int) || (p.mode == Control && ch == 's' as int)
  }

  ghost predicate NeverSaves(p: Parser, bytes: seq<Byte>)
    decreases |bytes|
  {
    bytes == [] || (!Saves(p, bytes[0]) && NeverSaves(Parsed(p, bytes[0]), bytes[1..]))
  }

  lemma SavedStays(t: Term, ch: Byte)
    requires Sound(t) && StepOk(t, ch) && !Saves(t.parser, ch)
    ensures Step(t, ch).oldXpos == t.oldXpos && Step(t, ch).oldYpos == t.oldYpos
  {
    hide StepOk, Clamp;
    match t.parser.mode
    case Control => OnlyBytesForIt(t, ch);
    case Escape => SameScreen(t, 0);
    case _ =>
  }

  lemma {:induction false} SavedThrough(t: Term, bytes: seq<Byte>)
    requires Sound(t) && StreamOk(t, bytes) && NeverSaves(t.parser, bytes)
    ensures Run(t, bytes).oldXpos == t.oldXpos && Run(t, bytes).oldYpos == t.oldYpos
    decreases |bytes|
  {
    hide Sound, StepOk, Step, Saves;
    if bytes != [] {
      SavedStays(t, bytes[0]);
      SavedThrough(Step(t, bytes[0]), bytes[1..]);
    }
  }

  /** A saved position is where the cursor goes back to, whatever was sent in between, unless that saved again. */
  lemma PositionRestored(t: Term, bytes: seq<Byte>)
    requires Sound(t) && t.parser.mode == Text
    ensures StreamOk(t, Sequence([], 's' as int))
    ensures var u := Run(t, Sequence([], 's' as int));
            StreamOk(u, bytes) && NeverSaves(u.parser, bytes) && Run(u, bytes).parser.mode == Text ==>
              var v := Run(u, bytes);
              && StreamOk(v, Sequence([], 'u' as int))
              && Run(v, Sequence([], 'u' as int)).xpos == t.xpos && Run(v, Sequence([], 'u' as int)).ypos == t.ypos
  {
    hide Run, StreamOk, Sequence, NeverSaves;
    SequenceExecuted(t, [], 's' as int);
    var u := Run(t, Sequence([], 's' as int));
    if StreamOk(u, bytes) && NeverSaves(u.parser, bytes) && Run(u, bytes).parser.mode == Text {
      SavedThrough(u, bytes);
      SequenceExecuted(Run(u, bytes), [], 'u' as int);
    }
  }
}
