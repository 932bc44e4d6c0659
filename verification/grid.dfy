/** The double loop both render effects share:
    `for (x = 0; x < n; x++) for (y = 0; y < n; y++) ...`, with the per-cell
    work as a parameter. A cell whose work throws stops the frame. */
module Grid {
  import opened Base

  /** One visited cell and what its work produced. */
  datatype Visit<T> = Visit(x: int, y: int, out: T)

  /** Loop order: by x, then by y. */
  predicate Prior(a: int, b: int, x: int, y: int)
  {
    a < x || (a == x && b < y)
  }

  predicate Before<T>(u: Visit<T>, v: Visit<T>)
  {
    Prior(u.x, u.y, v.x, v.y)
  }

  predicate Visited<T>(cells: seq<Visit<T>>, x: int, y: int)
  {
    exists i :: 0 <= i < |cells| && cells[i].x == x && cells[i].y == y
  }

  /** Every visit is a grid cell and carries what the work gave for it. */
  ghost predicate Faithful<T>(cells: seq<Visit<T>>, n: nat, work: (int, int) -> Option<T>)
  {
    forall i :: 0 <= i < |cells| ==>
      0 <= cells[i].x < n && 0 <= cells[i].y < n && work(cells[i].x, cells[i].y) == Some(cells[i].out)
  }

  predicate Ordered<T>(cells: seq<Visit<T>>)
  {
    forall i, j :: 0 <= i < j < |cells| ==> Before(cells[i], cells[j])
  }

  /** All visits so far come before the loop position (x, y). */
  predicate Behind<T>(cells: seq<Visit<T>>, x: int, y: int)
  {
    forall i :: 0 <= i < |cells| ==> Prior(cells[i].x, cells[i].y, x, y)
  }

  /** Every grid cell before the loop position (x, y) has been visited. */
  ghost predicate CoveredUpTo<T>(cells: seq<Visit<T>>, n: nat, x: int, y: int)
  {
    forall a, b :: 0 <= a && 0 <= b < n && Prior(a, b, x, y) ==> Visited(cells, a, b)
  }

  /** Visiting the cell at the loop position keeps all four facts and moves
      the position one step down the column. */
  lemma Step<T>(cells: seq<Visit<T>>, n: nat, work: (int, int) -> Option<T>, x: nat, y: nat, out: T)
    requires x < n && y < n && work(x, y) == Some(out)
    requires Faithful(cells, n, work) && Ordered(cells) && Behind(cells, x, y) && CoveredUpTo(cells, n, x, y)
    ensures var c := cells + [Visit(x, y, out)];
            Faithful(c, n, work) && Ordered(c) && Behind(c, x, y + 1) && CoveredUpTo(c, n, x, y + 1)
  {
    var c := cells + [Visit(x, y, out)];
    forall a, b | 0 <= a && 0 <= b < n && Prior(a, b, x, y + 1)
      ensures Visited(c, a, b)
    {
      if a == x && b == y {
        assert c[|cells|].x == a && c[|cells|].y == b;
      } else {
        assert Prior(a, b, x, y);
        assert Visited(cells, a, b);
        var i :| 0 <= i < |cells| && cells[i].x == a && cells[i].y == b;
        assert c[i] == cells[i];
      }
    }
  }

  /** Finishing a column moves the position to the top of the next one. */
  lemma NextColumn<T>(cells: seq<Visit<T>>, n: nat, x: nat)
    requires Behind(cells, x, n) && CoveredUpTo(cells, n, x, n)
    ensures Behind(cells, x + 1, 0) && CoveredUpTo(cells, n, x + 1, 0)
  {
    assert forall i :: 0 <= i < |cells| ==> cells[i].y < n || cells[i].x < x;
  }

  /** A visited cell's work succeeded. */
  lemma CoveredSucceeded<T>(cells: seq<Visit<T>>, n: nat, work: (int, int) -> Option<T>, x: int, y: int)
    requires Faithful(cells, n, work) && CoveredUpTo(cells, n, x, y)
    ensures forall a, b :: 0 <= a && 0 <= b < n && Prior(a, b, x, y) ==> work(a, b).Some?
  {
    forall a, b | 0 <= a && 0 <= b < n && Prior(a, b, x, y)
      ensures work(a, b).Some?
    {
      var i :| 0 <= i < |cells| && cells[i].x == a && cells[i].y == b;
    }
  }

  /** Runs `work` on every cell of the n by n grid in loop order; `None` when
      some cell's work fails. On success every cell is visited exactly once:
      all visits are grid cells, they are strictly ordered (so none repeats)
      and every cell is among them. */
  method Sweep<T>(n: nat, work: (int, int) -> Option<T>) returns (r: Option<seq<Visit<T>>>)
    ensures r.Some? <==> forall x, y :: 0 <= x < n && 0 <= y < n ==> work(x, y).Some?
    ensures r.Some? ==> |r.value| == n * n
    ensures r.Some? ==> Faithful(r.value, n, work) && Ordered(r.value)
    ensures r.Some? ==> forall x, y :: 0 <= x < n && 0 <= y < n ==> Visited(r.value, x, y)
  {
    var cells: seq<Visit<T>> := [];
    var x := 0;
    while x < n
      invariant 0 <= x <= n
      invariant |cells| == x * n
      invariant Faithful(cells, n, work) && Ordered(cells)
      invariant Behind(cells, x, 0) && CoveredUpTo(cells, n, x, 0)
    {
      var y := 0;
      while y < n
        invariant 0 <= y <= n
        invariant |cells| == x * n + y
        invariant Faithful(cells, n, work) && Ordered(cells)
        invariant Behind(cells, x, y) && CoveredUpTo(cells, n, x, y)
      {
        match work(x, y)
        case None =>
          return None;
        case Some(out) =>
          Step(cells, n, work, x, y, out);
          cells := cells + [Visit(x, y, out)];
        y := y + 1;
      }
      NextColumn(cells, n, x);
      x := x + 1;
    }
    CoveredSucceeded(cells, n, work, n, 0);
    return Some(cells);
  }
}
