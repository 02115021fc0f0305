/** The weight transposer of benchmarks/gpu-lexer/transpose-shader.py: rectangular regions of one
    flat array are transposed. */
module WeightTranspose {

  datatype Region = Region(offset: nat, rows: nat, columns: nat) {
    function End(): nat { offset + rows * columns }

    predicate Covers(p: int) { offset <= p < End() }

    /** Where the value at `p` of the transposed region lies in the original. */
    function From(p: nat): nat
      requires Covers(p) && rows > 0
    {
      CellNatural(p - offset, rows, columns);
      offset + ((p - offset) % rows) * columns + (p - offset) / rows
    }

    function Flipped(): Region { Region(offset, columns, rows) }
  }

  lemma CellNatural(i: nat, rows: nat, columns: nat)
    requires rows > 0
    ensures (i % rows) * columns >= 0 && i / rows >= 0
  {}

  predicate InRange(regions: seq<Region>, n: nat) {
    forall i | 0 <= i < |regions| :: regions[i].End() <= n
  }

  ghost predicate Disjoint(regions: seq<Region>) {
    forall i, j | 0 <= i < j < |regions| ::
      regions[i].End() <= regions[j].offset || regions[j].End() <= regions[i].offset
  }

  // ---------- arithmetic of cells ----------

  lemma MulStep(a: nat, b: nat, d: nat)
    requires a < b
    ensures a * d + d <= b * d
  {
    var k := b - a - 1;
    assert b * d == (a + 1 + k) * d == a * d + d + k * d;
    assert k * d >= 0;
  }

  lemma DivModUnique(q: nat, r: nat, d: nat)
    requires r < d
    ensures (q * d + r) / d == q && (q * d + r) % d == r
  {
    var x, y := (q * d + r) / d, (q * d + r) % d;
    assert x * d + y == q * d + r;
    if q < x { MulStep(q, x, d); }
    if x < q { MulStep(x, q, d); }
  }

  lemma CellInside(row: nat, column: nat, rows: nat, columns: nat)
    requires row < rows && column < columns
    ensures 0 <= column * rows + row < rows * columns
    ensures (column * rows + row) / rows == column && (column * rows + row) % rows == row
  {
    MulStep(column, columns, rows);
    DivModUnique(column, row, rows);
  }

  lemma CellOf(g: Region, p: nat)
    requires g.Covers(p)
    ensures g.rows > 0 && g.columns > 0
    ensures var r, c := (p - g.offset) % g.rows, (p - g.offset) / g.rows;
            r < g.rows && c < g.columns && p == g.offset + c * g.rows + r
  {
    Positive(g.rows, g.columns);
    var i := p - g.offset;
    var c := i / g.rows;
    assert i == c * g.rows + i % g.rows;
    assert g.columns * g.rows == g.rows * g.columns;
    if c > g.columns { MulStep(g.columns, c, g.rows); }
  }

  lemma Positive(a: nat, b: nat)
    requires a * b > 0
    ensures a > 0 && b > 0
  {}

  /** Transposing the flipped region brings every position back. */
  lemma FromInverse(g: Region, p: nat)
    requires g.Covers(p)
    ensures g.rows > 0 && g.columns > 0
    ensures g.Covers(g.From(p)) && g.Flipped().Covers(g.From(p)) && g.Flipped().From(g.From(p)) == p
  {
    CellOf(g, p);
    var r, c := (p - g.offset) % g.rows, (p - g.offset) / g.rows;
    CellInside(c, r, g.columns, g.rows);
    assert g.rows * g.columns == g.columns * g.rows;
  }

  // ---------- the whole array ----------

  /** Where the value written last to position `p` comes from. */
  ghost function Source(regions: seq<Region>, p: nat): nat {
    if regions == [] then p
    else
      var g := regions[|regions| - 1];
      if g.Covers(p) && g.rows > 0 then g.From(p) else Source(regions[..|regions| - 1], p)
  }

  ghost predicate Transposed<T>(regions: seq<Region>, words: seq<T>, result: seq<T>) {
    && |result| == |words|
    && forall p | 0 <= p < |words| :: Source(regions, p) < |words| && result[p] == words[Source(regions, p)]
  }

  /** The first `row` rows of `g` and `column` cells of the next one have been written. */
  ghost predicate Written(g: Region, row: nat, column: nat, p: int) {
    && g.Covers(p) && g.rows > 0
    && ((p - g.offset) % g.rows < row || ((p - g.offset) % g.rows == row && (p - g.offset) / g.rows < column))
  }

  ghost predicate Progress<T>(before: seq<Region>, g: Region, row: nat, column: nat, words: seq<T>, now: seq<T>) {
    && |now| == |words|
    && forall p | 0 <= p < |words| ::
         now[p] == words[if Written(g, row, column, p) then FromIn(g, p, |words|) else SourceIn(before, p, |words|)]
  }

  ghost function FromIn(g: Region, p: nat, n: nat): (q: nat)
    requires p < n && g.Covers(p) && g.rows > 0
    ensures q < n
  {
    if g.From(p) < n then g.From(p) else p
  }

  ghost function SourceIn(regions: seq<Region>, p: nat, n: nat): (q: nat)
    requires p < n
    ensures q < n
  {
    if Source(regions, p) < n then Source(regions, p) else p
  }

  lemma {:induction false} SourceInRange(regions: seq<Region>, p: nat, n: nat)
    requires InRange(regions, n) && p < n
    ensures Source(regions, p) < n
  {
    if regions != [] {
      var g := regions[|regions| - 1];
      if g.Covers(p) { FromInverse(g, p); }
      SourceInRange(regions[..|regions| - 1], p, n);
    }
  }

  lemma WriteCell<T>(before: seq<Region>, g: Region, row: nat, column: nat, words: seq<T>, now: seq<T>)
    requires row < g.rows && column < g.columns && g.End() <= |words|
    requires Progress(before, g, row, column, words, now)
    ensures 0 <= g.offset + column * g.rows + row < |words|
    ensures 0 <= g.offset + row * g.columns + column < |words|
    ensures Progress(before, g, row, column + 1, words,
                     now[g.offset + column * g.rows + row := words[g.offset + row * g.columns + column]])
  {
    CellNow(g, row, column);
    WriteAt(before, g, row, column, words, now, g.offset + column * g.rows + row, g.offset + row * g.columns + column);
  }

  lemma WriteAt<T>(before: seq<Region>, g: Region, row: nat, column: nat, words: seq<T>, now: seq<T>, at: nat,
                   from: nat)
    requires Progress(before, g, row, column, words, now) && at < |words| && from < |words|
    requires at == g.offset + column * g.rows + row && Written(g, row, column + 1, at) && g.From(at) == from
    ensures Progress(before, g, row, column + 1, words, now[at := words[from]])
  {
    hide Written;
    WrittenCovers(g, row, column + 1, at);
    forall p | 0 <= p < |words| && p != at
      ensures Written(g, row, column, p) == Written(g, row, column + 1, p)
    {
      CellEdge(g, row, column, p);
    }
  }

  lemma WrittenCovers(g: Region, row: nat, column: nat, p: nat)
    requires Written(g, row, column, p)
    ensures g.Covers(p) && g.rows > 0
  {}

  lemma RowDone<T>(before: seq<Region>, g: Region, row: nat, words: seq<T>, now: seq<T>)
    requires row < g.rows && Progress(before, g, row, g.columns, words, now)
    ensures Progress(before, g, row + 1, 0, words, now)
  {
    hide Written;
    forall p | 0 <= p < |words|
      ensures Written(g, row, g.columns, p) == Written(g, row + 1, 0, p)
    {
      RowEdge(g, row, p);
    }
  }

  lemma RowEdge(g: Region, row: nat, p: nat)
    ensures Written(g, row, g.columns, p) == Written(g, row + 1, 0, p)
  {
    if g.Covers(p) { CellOf(g, p); }
  }

  lemma CellEdge(g: Region, row: nat, column: nat, p: nat)
    requires p != g.offset + column * g.rows + row
    ensures Written(g, row, column, p) == Written(g, row, column + 1, p)
  {
    if g.Covers(p) { CellOf(g, p); }
  }

  lemma CellNow(g: Region, row: nat, column: nat)
    requires row < g.rows && column < g.columns
    ensures var at := g.offset + column * g.rows + row;
            Written(g, row, column + 1, at) && at < g.End() &&
              g.From(at) == g.offset + row * g.columns + column < g.End()
  {
    CellInside(row, column, g.rows, g.columns);
    CellInside(column, row, g.columns, g.rows);
    assert g.rows * g.columns == g.columns * g.rows;
  }

  lemma RegionDone<T>(regions: seq<Region>, k: nat, words: seq<T>, now: seq<T>)
    requires k < |regions| && InRange(regions, |words|)
    requires Progress(regions[..k], regions[k], regions[k].rows, 0, words, now)
    ensures Transposed(regions[..k + 1], words, now)
  {
    hide Source, Written, FromIn, SourceIn, InRange;
    var all := regions[..k + 1];
    RangeFront(regions, k + 1, |words|);
    assert all[..k] == regions[..k] && all[k] == regions[k];
    forall p | 0 <= p < |words| ensures Source(all, p) < |words| && now[p] == words[Source(all, p)] {
      SourceLast(all, p, |words|);
    }
  }

  lemma RangeFront(regions: seq<Region>, k: nat, n: nat)
    requires InRange(regions, n) && k <= |regions|
    ensures InRange(regions[..k], n)
  {}

  /** The last region has been written completely. */
  lemma SourceLast(regions: seq<Region>, p: nat, n: nat)
    requires regions != [] && InRange(regions, n) && p < n
    ensures var before, g := regions[..|regions| - 1], regions[|regions| - 1];
            && Source(regions, p) < n
            && (Written(g, g.rows, 0, p) ==> g.Covers(p) && g.rows > 0)
            && Source(regions, p) == if Written(g, g.rows, 0, p) then FromIn(g, p, n) else SourceIn(before, p, n)
  {
    var g := regions[|regions| - 1];
    SourceInRange(regions, p, n);
    SourceInRange(regions[..|regions| - 1], p, n);
    AllWritten(g, p);
  }

  lemma AllWritten(g: Region, p: nat)
    ensures Written(g, g.rows, 0, p) <==> g.Covers(p) && g.rows > 0
  {
    if g.Covers(p) { CellOf(g, p); }
  }

  lemma RegionBegun<T>(before: seq<Region>, g: Region, words: seq<T>, now: seq<T>)
    requires Transposed(before, words, now)
    ensures Progress(before, g, 0, 0, words, now)
  {
    forall p | 0 <= p < |words| ensures !Written(g, 0, 0, p) {
      if g.Covers(p) { CellOf(g, p); }
    }
  }

  method TransposeWeights<T>(words: array<T>, regions: seq<Region>) returns (transposed: array<T>)
    requires InRange(regions, words.Length)
    ensures fresh(transposed) && Transposed(regions, words[..], transposed[..])
  {
    transposed := new T[words.Length](i requires 0 <= i < words.Length reads words => words[i]);
    ghost var w := words[..];
    for k := 0 to |regions|
      invariant words[..] == w && transposed.Length == words.Length
      invariant Transposed(regions[..k], w, transposed[..])
    {
      var g := regions[k];
      RegionBegun(regions[..k], g, w, transposed[..]);
      for row := 0 to g.rows
        invariant words[..] == w
        invariant Progress(regions[..k], g, row, 0, w, transposed[..])
      {
        for column := 0 to g.columns
          invariant words[..] == w
          invariant Progress(regions[..k], g, row, column, w, transposed[..])
        {
          WriteCell(regions[..k], g, row, column, w, transposed[..]);
          ghost var now := transposed[..];
          var at, from := g.offset + column * g.rows + row, g.offset + row * g.columns + column;
          transposed[at] := words[from];
          assert transposed[..] == now[at := w[from]];
        }
        RowDone(regions[..k], g, row, w, transposed[..]);
      }
      RegionDone(regions, k, w, transposed[..]);
    }
    assert regions[..|regions|] == regions;
  }

  // ---------- disjoint regions: exact transpose, same multiset ----------

  lemma {:induction false} SourceInside(regions: seq<Region>, k: nat, p: nat)
    requires Disjoint(regions) && k < |regions| && regions[k].Covers(p)
    ensures regions[k].rows > 0 && Source(regions, p) == regions[k].From(p)
  {
    CellOf(regions[k], p);
    if k < |regions| - 1 { SourceInside(regions[..|regions| - 1], k, p); }
  }

  lemma {:induction false} SourceOutside(regions: seq<Region>, p: nat)
    requires forall k | 0 <= k < |regions| :: !regions[k].Covers(p)
    ensures Source(regions, p) == p
  {
    if regions != [] { SourceOutside(regions[..|regions| - 1], p); }
  }

  /** The value of cell (row, column) now stands at (column, row). */
  ghost predicate Moved<T>(g: Region, row: nat, column: nat, words: seq<T>, result: seq<T>) {
    var to, from := g.offset + column * g.rows + row, g.offset + row * g.columns + column;
    to < |result| && from < |words| && result[to] == words[from]
  }

  /** Inside a region the result is the transpose; outside all regions nothing changes. */
  lemma ExactTranspose<T>(regions: seq<Region>, words: seq<T>, result: seq<T>)
    requires Disjoint(regions) && InRange(regions, |words|) && Transposed(regions, words, result)
    ensures forall k, row: nat, column: nat |
              0 <= k < |regions| && row < regions[k].rows && column < regions[k].columns ::
              Moved(regions[k], row, column, words, result)
    ensures forall p | 0 <= p < |words| && (forall k | 0 <= k < |regions| :: !regions[k].Covers(p)) ::
              result[p] == words[p]
  {
    forall k, row: nat, column: nat |
      0 <= k < |regions| && row < regions[k].rows && column < regions[k].columns
      ensures Moved(regions[k], row, column, words, result)
    {
      SourceAt(regions, k, row, column);
    }
    forall p | 0 <= p < |words| && (forall k | 0 <= k < |regions| :: !regions[k].Covers(p))
      ensures result[p] == words[p]
    {
      SourceOutside(regions, p);
    }
  }

  /** The cell (row, column) of a region is found at (column, row). */
  lemma SourceAt(regions: seq<Region>, k: nat, row: nat, column: nat)
    requires Disjoint(regions) && k < |regions| && row < regions[k].rows && column < regions[k].columns
    ensures var g := regions[k];
            && g.offset <= g.offset + row * g.columns + column < g.End()
            && g.offset <= g.offset + column * g.rows + row < g.End()
            && Source(regions, g.offset + column * g.rows + row) == g.offset + row * g.columns + column
  {
    var g := regions[k];
    CellInside(row, column, g.rows, g.columns);
    CellInside(column, row, g.columns, g.rows);
    assert g.rows * g.columns == g.columns * g.rows;
    SourceInside(regions, k, g.offset + column * g.rows + row);
  }

  lemma SourceInjective(regions: seq<Region>, p: nat, q: nat)
    requires Disjoint(regions) && Source(regions, p) == Source(regions, q)
    ensures p == q
  {
    if k :| 0 <= k < |regions| && regions[k].Covers(p) {
      SourceInside(regions, k, p);
      FromInverse(regions[k], p);
      if j :| 0 <= j < |regions| && regions[j].Covers(q) {
        SourceInside(regions, j, q);
        FromInverse(regions[j], q);
        assert j == k;
      } else {
        SourceOutside(regions, q);
      }
    } else {
      SourceOutside(regions, p);
      if j :| 0 <= j < |regions| && regions[j].Covers(q) {
        SourceInside(regions, j, q);
        FromInverse(regions[j], q);
      } else {
        SourceOutside(regions, q);
      }
    }
  }

  lemma WithoutOne<T>(a: seq<T>, j: nat)
    requires j < |a|
    ensures multiset(a) == multiset(a[..j] + a[j + 1..]) + multiset{a[j]}
  {
    assert a == a[..j] + [a[j]] + a[j + 1..];
  }

  ghost predicate Picks<T>(a: seq<T>, b: seq<T>, from: seq<nat>) {
    && |a| == |b| == |from|
    && (forall i | 0 <= i < |a| :: from[i] < |a| && b[i] == a[from[i]])
    && (forall i, j | 0 <= i < j < |a| :: from[i] != from[j])
  }

  ghost function Lowered(from: seq<nat>, j: nat): seq<nat>
    requires from != []
  {
    seq(|from| - 1, i requires 0 <= i < |from| - 1 => if from[i] > j then (from[i] - 1) as nat else from[i])
  }

  lemma PicksRest<T>(a: seq<T>, b: seq<T>, from: seq<nat>)
    requires a != [] && Picks(a, b, from)
    ensures var j := from[|a| - 1];
            Picks(a[..j] + a[j + 1..], b[..|a| - 1], Lowered(from, j))
  {}

  /** Values picked from distinct positions are the same values. */
  lemma {:induction false} PickedOnce<T>(a: seq<T>, b: seq<T>, from: seq<nat>)
    requires Picks(a, b, from)
    ensures multiset(a) == multiset(b)
    decreases |a|
  {
    if a != [] {
      var m := |a| - 1;
      var j := from[m];
      PicksRest(a, b, from);
      PickedOnce(a[..j] + a[j + 1..], b[..m], Lowered(from, j));
      WithoutOne(a, j);
      WithoutOne(b, m);
      assert b[..m] + b[m + 1..] == b[..m];
    }
  }

  /** The script's last assertion: sorting both gives the same list. */
  lemma SameValues<T>(regions: seq<Region>, words: seq<T>, result: seq<T>)
    requires Disjoint(regions) && InRange(regions, |words|) && Transposed(regions, words, result)
    ensures multiset(words) == multiset(result)
  {
    forall p | 0 <= p < |words| ensures Source(regions, p) < |words| { SourceInRange(regions, p, |words|); }
    var from := seq(|words|, p requires 0 <= p < |words| => Source(regions, p));
    forall i, j | 0 <= i < j < |words| ensures from[i] != from[j] {
      if from[i] == from[j] { SourceInjective(regions, i, j); }
    }
    PickedOnce(words, result, from);
  }
}
