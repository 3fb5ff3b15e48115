/**
 * A grid of cells stored row after row, and what filling, moving and scrolling do to
 * its rows.
 */
module Grid {
  // ---- positions in the grid

  /** Cells are stored row after row. */
  function Index(columns: int, y: int, x: int): int {
    y * columns + x
  }

  lemma InGrid(rows: int, columns: int, y: int, x: int)
    requires 0 <= y < rows && 0 <= x < columns
    ensures 0 <= Index(columns, y, x) < rows * columns
  {
    Rows(columns, y + 1, rows);
    Rows(columns, 0, y);
    assert (y + 1) * columns == y * columns + columns;
  }

  lemma Rows(columns: int, y: int, z: int)
    requires y <= z && 0 <= columns
    ensures y * columns <= z * columns
  {
  }

  /** The `w` cells from `base` on. */
  ghost function Span(g: seq<int>, base: int, w: nat): (r: seq<int>)
    ensures |r| == w
    ensures forall i {:trigger r[i]} :: 0 <= i < w ==> r[i] == if 0 <= base + i < |g| then g[base + i] else 0
  {
    seq(w, i => if 0 <= base + i < |g| then g[base + i] else 0)
  }

  /** Row `y` of a grid. */
  ghost function Row(g: seq<int>, columns: nat, y: int): (r: seq<int>)
    ensures |r| == columns
  {
    Span(g, y * columns, columns)
  }

  ghost predicate IsGrid(g: seq<int>, rows: int, columns: int) {
    0 < rows && 0 < columns && |g| == rows * columns
  }

  lemma RowBounds(rows: int, columns: int, y: int)
    requires 0 <= y < rows && 0 < columns
    ensures 0 <= y * columns && y * columns + columns == (y + 1) * columns <= rows * columns
  {
    Rows(columns, y + 1, rows);
    Rows(columns, 0, y);
  }

  // ---- changes of the grid

  function Cell(ch: int, attrib: int): int {
    attrib * 256 + ch
  }

  function Filled(g: seq<int>, lo: int, hi: int, cell: int): (r: seq<int>)
    ensures |r| == |g|
    ensures forall i {:trigger r[i]} :: 0 <= i < |g| ==> r[i] == if lo <= i < hi then cell else g[i]
  {
    seq(|g|, i requires 0 <= i < |g| => if lo <= i < hi then cell else g[i])
  }

  /** The cells from `lo` to `hi` move down by `w` places, and the last `w` become `cell`. */
  function MovedBack(g: seq<int>, lo: int, hi: int, w: int, cell: int): (r: seq<int>)
    requires 0 <= lo && 0 <= w && lo + w <= hi <= |g|
    ensures |r| == |g|
    ensures forall i {:trigger r[i]} :: 0 <= i < |g| ==>
              r[i] == if lo <= i < hi - w then g[i + w] else if lo <= i < hi then cell else g[i]
  {
    seq(|g|, i requires 0 <= i < |g| => if lo <= i < hi - w then g[i + w] else if lo <= i < hi then cell else g[i])
  }

  /** The cells from `lo` to `hi` move up by `w` places, and the first `w` become `cell`. */
  function MovedOn(g: seq<int>, lo: int, hi: int, w: int, cell: int): (r: seq<int>)
    requires 0 <= lo && 0 <= w && lo + w <= hi <= |g|
    ensures |r| == |g|
    ensures forall i {:trigger r[i]} :: 0 <= i < |g| ==>
              r[i] == if lo + w <= i < hi then g[i - w] else if lo <= i < hi then cell else g[i]
  {
    seq(|g|, i requires 0 <= i < |g| => if lo + w <= i < hi then g[i - w] else if lo <= i < hi then cell else g[i])
  }

  /**
   * The cells from `next` on, `count` of them, are copied to `start` on, one after the other: where that is
   * further on, they repeat.
   */
  function CopiedTo(g: seq<int>, start: int, next: int, count: int): (r: seq<int>)
    requires 0 <= start && 0 <= next && start + count <= |g| && next + count <= |g|
    ensures |r| == |g|
    ensures forall i {:trigger r[i]} :: 0 <= i < |g| && !(start <= i < start + count) ==> r[i] == g[i]
    ensures forall i {:trigger r[i]} :: start <= i < start + count ==> r[i] == CopySource(g, start, next, i)
  {
    seq(|g|, i requires 0 <= i < |g| => if start <= i < start + count then CopySource(g, start, next, i) else g[i])
  }

  function CopySource(g: seq<int>, start: int, next: int, i: int): int
    requires 0 <= start <= i && 0 <= next && i + next - start < |g| && i < |g|
  {
    if next >= start then g[i + next - start] else g[next + (i - start) % (start - next)]
  }

  /** A cell that is copied holds by then what its place asks for. */
  lemma CopyOne(g: seq<int>, start: int, next: int, i: int, h: seq<int>)
    requires 0 <= start <= i && 0 <= next && i + next - start < |g| == |h| && i < |g|
    requires forall j :: 0 <= j < |g| && !(start <= j < i) ==> h[j] == g[j]
    requires forall j :: start <= j < i ==> h[j] == CopySource(g, start, next, j)
    ensures h[i + next - start] == CopySource(g, start, next, i)
  {
    var d := start - next;
    if d > 0 && i - d >= start {
      assert (i - start) % d == (i - d - start) % d by { ModStep(i - d - start, d); }
    }
  }

  lemma ModStep(a: int, d: int)
    requires 0 < d
    ensures (a + d) % d == a % d
  {
    assert a + d == (a / d + 1) * d + a % d;
    ModIs(a / d + 1, d, a % d);
  }

  lemma ModIs(q: int, d: int, r: int)
    requires 0 <= r < d
    ensures (q * d + r) % d == r
  {
    var x := q * d + r;
    var k := x / d - q;
    assert x == (x / d) * d + x % d;
    assert k * d == r - x % d by { assert (q + k) * d == q * d + k * d; }
    Rows(d, if k >= 1 then 1 else k, if k >= 1 then k else 0);
    Rows(d, if k <= -1 then k else -1, if k <= -1 then -1 else 0);
  }

  lemma MovedBackSpan(g: seq<int>, lo: int, hi: int, w: nat, cell: int, base: int)
    requires 0 <= lo && lo + w <= hi <= |g| && 0 <= base && base + w <= |g|
    ensures var r := MovedBack(g, lo, hi, w, cell);
            && (lo <= base && base + w <= hi - w ==> Span(r, base, w) == Span(g, base + w, w))
            && (base == hi - w ==> forall i {:trigger Span(r, base, w)[i]} :: 0 <= i < w ==>
              Span(r, base, w)[i] == cell)
            && (base + w <= lo || hi <= base ==> Span(r, base, w) == Span(g, base, w))
  {
    hide MovedBack, Span;
  }

  lemma MovedOnSpan(g: seq<int>, lo: int, hi: int, w: nat, cell: int, base: int)
    requires 0 <= lo && lo + w <= hi <= |g| && 0 <= base && base + w <= |g|
    ensures var r := MovedOn(g, lo, hi, w, cell);
            && (lo + w <= base && base + w <= hi ==> Span(r, base, w) == Span(g, base - w, w))
            && (base == lo ==> forall i {:trigger Span(r, base, w)[i]} :: 0 <= i < w ==> Span(r, base, w)[i] == cell)
            && (base + w <= lo || hi <= base ==> Span(r, base, w) == Span(g, base, w))
  {
    hide MovedOn, Span;
  }

  /** Scrolling a region up: its rows move up one, its last row is blank, and no other row changes. */
  lemma ScrollUpRows(g: seq<int>, rows: nat, columns: nat, top: int, bottom: int, cell: int, y: int)
    requires IsGrid(g, rows, columns) && 0 <= top < bottom <= rows && 0 <= y < rows
    ensures 0 <= top * columns && top * columns + columns <= bottom * columns <= |g|
    ensures var r := MovedBack(g, top * columns, bottom * columns, columns, cell);
            && (top <= y < bottom - 1 ==> Row(r, columns, y) == Row(g, columns, y + 1))
            && (y == bottom - 1 ==> forall i {:trigger Row(r, columns, y)[i]} :: 0 <= i < columns ==>
              Row(r, columns, y)[i] == cell)
            && (y < top || bottom <= y ==> Row(r, columns, y) == Row(g, columns, y))
  {
    hide MovedBack, Span;
    RegionBounds(rows, columns, top, bottom);
    RowPlace(rows, columns, top, bottom, y);
    MovedBackSpan(g, top * columns, bottom * columns, columns, cell, y * columns);
  }

  /** Scrolling the rows from the cursor's down: a blank row comes in at `top`, the last row of the region goes. */
  lemma ScrollDownRows(g: seq<int>, rows: nat, columns: nat, top: int, bottom: int, cell: int, y: int)
    requires IsGrid(g, rows, columns) && 0 <= top < bottom <= rows && 0 <= y < rows
    ensures 0 <= top * columns && top * columns + columns <= bottom * columns <= |g|
    ensures var r := MovedOn(g, top * columns, bottom * columns, columns, cell);
            && (top < y < bottom ==> Row(r, columns, y) == Row(g, columns, y - 1))
            && (y == top ==> forall i {:trigger Row(r, columns, y)[i]} :: 0 <= i < columns ==>
              Row(r, columns, y)[i] == cell)
            && (y < top || bottom <= y ==> Row(r, columns, y) == Row(g, columns, y))
  {
    hide MovedOn, Span;
    RegionBounds(rows, columns, top, bottom);
    RowPlace(rows, columns, top, bottom, y);
    assert (y - 1) * columns == y * columns - columns;
    MovedOnSpan(g, top * columns, bottom * columns, columns, cell, y * columns);
  }

  lemma RegionBounds(rows: int, columns: int, top: int, bottom: int)
    requires 0 <= top < bottom <= rows && 0 < columns
    ensures 0 <= top * columns && top * columns + columns <= bottom * columns <= rows * columns
    ensures (bottom - 1) * columns == bottom * columns - columns && (top + 1) * columns == top * columns + columns
  {
    Rows(columns, 0, top);
    Rows(columns, top + 1, bottom);
    Rows(columns, bottom, rows);
  }

  /** A row lies before, inside or after a region. */
  lemma RowPlace(rows: int, columns: int, top: int, bottom: int, y: int)
    requires 0 <= top < bottom <= rows && 0 < columns && 0 <= y < rows
    ensures 0 <= y * columns && y * columns + columns == (y + 1) * columns <= rows * columns
    ensures y < top ==> y * columns + columns <= top * columns
    ensures top <= y ==> top * columns <= y * columns
    ensures top < y ==> top * columns + columns <= y * columns
    ensures y < bottom ==> y * columns + columns <= bottom * columns
    ensures y < bottom - 1 ==> y * columns + columns <= bottom * columns - columns
    ensures bottom <= y ==> bottom * columns <= y * columns
  {
    RowBounds(rows, columns, y);
    RegionBounds(rows, columns, top, bottom);
    if y < top { Rows(columns, y + 1, top); } else { Rows(columns, top, y); }
    if top < y { Rows(columns, top + 1, y); }
    if y < bottom { Rows(columns, y + 1, bottom); } else { Rows(columns, bottom, y); }
    if y < bottom - 1 { Rows(columns, y + 1, bottom - 1); }
  }

  lemma LastCell(rows: int, columns: int)
    ensures Index(columns, rows - 1, columns - 1) + 1 == rows * columns
    ensures Index(columns, 0, 0) == 0
  {
    assert (rows - 1) * columns == rows * columns - columns;
  }
}
