/**
 * A table declared with `id INTEGER PRIMARY KEY AUTOINCREMENT` and
 * `created_at DATETIME DEFAULT CURRENT_TIMESTAMP`, as the three tables of
 * database.js are. Rows are kept in rowid order; the other columns are the
 * type parameter `C`. The functions below are the relational operations the
 * prepared statements perform: a WHERE filter counted, its first row, its
 * rows newest first, an UPDATE and a DELETE over the rows it matches.
 */
module Tables {
  import opened Wrappers

  /** One row: the AUTOINCREMENT key, the insertion timestamp and the other columns. */
  datatype Row<C> = Row(id: nat, createdAt: nat, cols: C)

  /** Rows are stored in strictly increasing rowid order. */
  ghost predicate IdsIncreasing<C>(rows: seq<Row<C>>) {
    forall i, j :: 0 <= i < j < |rows| ==> rows[i].id < rows[j].id
  }

  /** Insertion timestamps never decrease along the rowid order. */
  ghost predicate OldestFirst<C>(rows: seq<Row<C>>) {
    forall i, j :: 0 <= i < j < |rows| ==> rows[i].createdAt <= rows[j].createdAt
  }

  /** The order `ORDER BY created_at DESC` asks for. */
  ghost predicate NewestFirstOrder<C>(rows: seq<Row<C>>) {
    forall i, j :: 0 <= i < j < |rows| ==> rows[i].createdAt >= rows[j].createdAt
  }

  /**
   * The invariant of an AUTOINCREMENT table whose sequence counter (the
   * largest rowid ever handed out) is `seqNo` and whose clock reads `clock`.
   */
  ghost predicate WellFormed<C>(rows: seq<Row<C>>, seqNo: nat, clock: nat) {
    && IdsIncreasing(rows)
    && OldestFirst(rows)
    && forall i :: 0 <= i < |rows| ==> 1 <= rows[i].id <= seqNo && rows[i].createdAt <= clock
  }

  /** `SELECT COUNT(*) ... WHERE keep`. */
  function Count<C>(rows: seq<Row<C>>, keep: Row<C> -> bool): (n: nat)
    ensures n <= |rows|
    ensures n == 0 <==> forall i :: 0 <= i < |rows| ==> !keep(rows[i])
  {
    if rows == [] then 0 else (if keep(rows[0]) then 1 else 0) + Count(rows[1..], keep)
  }

  /**
   * `.get()` of `SELECT * ... WHERE keep`, taken as the first matching row in
   * rowid order. Without ORDER BY, SQLite returns the first row of whatever
   * plan it picks (the email lookup goes through the UNIQUE index); the two
   * agree for the statements modelled because each of their WHEREs matches at
   * most one row (see CountAtMostOne and EmailMatchesAtMostOne).
   */
  function First<C>(rows: seq<Row<C>>, keep: Row<C> -> bool): (r: Option<Row<C>>)
    ensures r.Some? ==> r.value in rows && keep(r.value)
    ensures r.None? <==> Count(rows, keep) == 0
  {
    if rows == [] then None
    else if keep(rows[0]) then Some(rows[0])
    else First(rows[1..], keep)
  }

  /** `.all()` of `SELECT * ... WHERE keep ORDER BY created_at DESC`, latest insertion first. */
  function NewestFirst<C>(rows: seq<Row<C>>, keep: Row<C> -> bool): (r: seq<Row<C>>)
    ensures |r| == Count(rows, keep)
    ensures forall i :: 0 <= i < |r| ==> r[i] in rows && keep(r[i])
    ensures forall i :: 0 <= i < |rows| && keep(rows[i]) ==> rows[i] in r
  {
    if rows == [] then []
    else
      assert rows == [rows[0]] + rows[1..];
      NewestFirst(rows[1..], keep) + (if keep(rows[0]) then [rows[0]] else [])
  }

  /** `UPDATE ... SET assign WHERE hit`: every matching row gets new columns, keeping its key and creation time. */
  function UpdateWhere<C>(rows: seq<Row<C>>, hit: Row<C> -> bool, assign: C -> C): (r: seq<Row<C>>)
    ensures |r| == |rows|
    ensures forall i :: 0 <= i < |rows| ==> r[i].id == rows[i].id && r[i].createdAt == rows[i].createdAt
  {
    seq(|rows|, i requires 0 <= i < |rows| =>
      if hit(rows[i]) then Assigned(rows[i], assign) else rows[i])
  }

  /** A row after `SET assign`. */
  function Assigned<C>(x: Row<C>, assign: C -> C): Row<C> {
    x.(cols := assign(x.cols))
  }

  /** `DELETE ... WHERE hit`. */
  function DeleteWhere<C>(rows: seq<Row<C>>, hit: Row<C> -> bool): (r: seq<Row<C>>)
    ensures |r| == |rows| - Count(rows, hit)
    ensures forall i :: 0 <= i < |r| ==> r[i] in rows && !hit(r[i])
    ensures forall i :: 0 <= i < |rows| && !hit(rows[i]) ==> rows[i] in r
  {
    if rows == [] then []
    else
      assert rows == [rows[0]] + rows[1..];
      (if hit(rows[0]) then [] else [rows[0]]) + DeleteWhere(rows[1..], hit)
  }

  /** Conjunction of two WHERE conditions. */
  function Both<C>(p: Row<C> -> bool, q: Row<C> -> bool): Row<C> -> bool {
    (x: Row<C>) => p(x) && q(x)
  }

  /** The rows of `rows` past the first satisfy whatever WellFormed says of them. */
  lemma WellFormedTail<C>(rows: seq<Row<C>>, seqNo: nat, clock: nat)
    requires rows != [] && WellFormed(rows, seqNo, clock)
    ensures WellFormed(rows[1..], seqNo, clock)
    ensures forall x :: x in rows[1..] ==> rows[0].id < x.id && rows[0].createdAt <= x.createdAt
  {
    forall x | x in rows[1..] ensures rows[0].id < x.id && rows[0].createdAt <= x.createdAt {
      var k :| 0 <= k < |rows[1..]| && rows[1..][k] == x;
      assert x == rows[k + 1];
    }
  }

  /** Inserting with the next AUTOINCREMENT value and the current time keeps a table well formed. */
  lemma InsertKeepsWellFormed<C>(rows: seq<Row<C>>, seqNo: nat, clock: nat, now: nat, cols: C)
    requires WellFormed(rows, seqNo, clock) && clock <= now
    ensures WellFormed(rows + [Row(seqNo + 1, now, cols)], seqNo + 1, now)
  {
  }

  /** A table stays well formed as the clock moves on. */
  lemma WellFormedLater<C>(rows: seq<Row<C>>, seqNo: nat, clock: nat, later: nat)
    requires WellFormed(rows, seqNo, clock) && clock <= later
    ensures WellFormed(rows, seqNo, later)
  {
  }

  /** Rows are never added by an UPDATE, and a WHERE that matches nothing leaves the table as it was. */
  lemma UpdateWhereMiss<C>(rows: seq<Row<C>>, hit: Row<C> -> bool, assign: C -> C)
    requires Count(rows, hit) == 0
    ensures UpdateWhere(rows, hit, assign) == rows
  {
  }

  /** A DELETE whose WHERE matches nothing leaves the table as it was. */
  lemma {:induction false} DeleteWhereMiss<C>(rows: seq<Row<C>>, hit: Row<C> -> bool)
    requires Count(rows, hit) == 0
    ensures DeleteWhere(rows, hit) == rows
  {
    if rows != [] {
      DeleteWhereMiss(rows[1..], hit);
    }
  }

  /** Deleting rows keeps a table well formed: the survivors stay in rowid and time order. */
  lemma {:induction false} DeleteKeepsWellFormed<C>(rows: seq<Row<C>>, hit: Row<C> -> bool, seqNo: nat, clock: nat)
    requires WellFormed(rows, seqNo, clock)
    ensures WellFormed(DeleteWhere(rows, hit), seqNo, clock)
  {
    if rows != [] {
      WellFormedTail(rows, seqNo, clock);
      DeleteKeepsWellFormed(rows[1..], hit, seqNo, clock);
      var rest := DeleteWhere(rows[1..], hit);
      if hit(rows[0]) {
        assert DeleteWhere(rows, hit) == rest;
      } else {
        assert DeleteWhere(rows, hit) == [rows[0]] + rest;
        ConsKeepsWellFormed(rows[0], rest, seqNo, clock);
      }
    }
  }

  /** A row whose key and time come before every row of a well-formed table can head it. */
  lemma ConsKeepsWellFormed<C>(x: Row<C>, rows: seq<Row<C>>, seqNo: nat, clock: nat)
    requires WellFormed(rows, seqNo, clock) && 1 <= x.id <= seqNo && x.createdAt <= clock
    requires forall y :: y in rows ==> x.id < y.id && x.createdAt <= y.createdAt
    ensures WellFormed([x] + rows, seqNo, clock)
  {
    var r := [x] + rows;
    assert forall i :: 1 <= i < |r| ==> r[i] == rows[i - 1];
  }

  /** An UPDATE keeps every key and creation time, so it keeps a table well formed, at any later clock. */
  lemma UpdateKeepsWellFormed<C>(rows: seq<Row<C>>, hit: Row<C> -> bool, assign: C -> C, seqNo: nat, clock: nat, later: nat)
    requires WellFormed(rows, seqNo, clock) && clock <= later
    ensures WellFormed(UpdateWhere(rows, hit, assign), seqNo, later)
  {
  }

  /** When every row `hit` accepts has key `id`, a WHERE on it matches at most one row. */
  lemma {:induction false} CountAtMostOne<C>(rows: seq<Row<C>>, hit: Row<C> -> bool, id: int)
    requires IdsIncreasing(rows)
    requires forall x :: hit(x) ==> x.id == id
    ensures Count(rows, hit) <= 1
  {
    if rows != [] {
      assert IdsIncreasing(rows[1..]);
      CountAtMostOne(rows[1..], hit, id);
      if hit(rows[0]) {
        forall i | 0 <= i < |rows[1..]| ensures !hit(rows[1..][i]) {
          assert rows[1..][i] == rows[i + 1];
        }
      }
    }
  }

  /** A row that is the only one matching its WHERE is what `.get()` returns. */
  lemma {:induction false} FirstIsOnlyMatch<C>(rows: seq<Row<C>>, keep: Row<C> -> bool, k: nat)
    requires k < |rows| && keep(rows[k])
    requires forall i :: 0 <= i < |rows| && i != k ==> !keep(rows[i])
    ensures First(rows, keep) == Some(rows[k])
  {
    if k > 0 {
      FirstIsOnlyMatch(rows[1..], keep, k - 1);
    }
  }

  /** Filtering a table kept in time order and reversing it gives newest-first order. */
  lemma {:induction false} NewestFirstOrdered<C>(rows: seq<Row<C>>, keep: Row<C> -> bool)
    requires OldestFirst(rows)
    ensures NewestFirstOrder(NewestFirst(rows, keep))
  {
    if rows != [] {
      var rest := rows[1..];
      assert OldestFirst(rest);
      NewestFirstOrdered(rest, keep);
      var later := NewestFirst(rest, keep);
      if keep(rows[0]) {
        forall x | x in later ensures rows[0].createdAt <= x.createdAt {
          var k :| 0 <= k < |rest| && rest[k] == x;
          assert x == rows[k + 1];
        }
        assert NewestFirst(rows, keep) == later + [rows[0]];
        SnocKeepsNewestFirst(later, rows[0]);
      } else {
        assert NewestFirst(rows, keep) == later;
      }
    }
  }

  /** A row no later than every row of a newest-first list can go at its end. */
  lemma SnocKeepsNewestFirst<C>(rows: seq<Row<C>>, x: Row<C>)
    requires NewestFirstOrder(rows)
    requires forall y :: y in rows ==> x.createdAt <= y.createdAt
    ensures NewestFirstOrder(rows + [x])
  {
    var r := rows + [x];
    assert forall i :: 0 <= i < |rows| ==> r[i] == rows[i];
  }

  /** Counting within a selection is counting the conjunction over the whole table. */
  lemma {:induction false} CountWithin<C>(rows: seq<Row<C>>, keep: Row<C> -> bool, p: Row<C> -> bool)
    ensures Count(NewestFirst(rows, keep), p) == Count(rows, Both(keep, p))
  {
    if rows != [] {
      CountWithin(rows[1..], keep, p);
      var tail := if keep(rows[0]) then [rows[0]] else [];
      CountAppend(NewestFirst(rows[1..], keep), tail, p);
    }
  }

  /** Count distributes over concatenation. */
  lemma {:induction false} CountAppend<C>(a: seq<Row<C>>, b: seq<Row<C>>, p: Row<C> -> bool)
    ensures Count(a + b, p) == Count(a, p) + Count(b, p)
  {
    if a != [] {
      assert (a + b)[1..] == a[1..] + b;
      CountAppend(a[1..], b, p);
    } else {
      assert a + b == b;
    }
  }

  /** Selection distributes over concatenation, the later rows coming first. */
  lemma {:induction false} NewestFirstAppend<C>(a: seq<Row<C>>, b: seq<Row<C>>, keep: Row<C> -> bool)
    ensures NewestFirst(a + b, keep) == NewestFirst(b, keep) + NewestFirst(a, keep)
  {
    if a != [] {
      assert (a + b)[1..] == a[1..] + b;
      NewestFirstAppend(a[1..], b, keep);
    } else {
      assert a + b == b;
    }
  }

  /** An UPDATE of rows outside a selection, that keeps them outside, does not change the selection. */
  lemma {:induction false} NewestFirstUpdateDisjoint<C>(rows: seq<Row<C>>, keep: Row<C> -> bool, hit: Row<C> -> bool, assign: C -> C)
    requires forall x :: hit(x) ==> !keep(x) && !keep(Assigned(x, assign))
    ensures NewestFirst(UpdateWhere(rows, hit, assign), keep) == NewestFirst(rows, keep)
  {
    if rows != [] {
      var u := UpdateWhere(rows, hit, assign);
      assert u[1..] == UpdateWhere(rows[1..], hit, assign);
      NewestFirstUpdateDisjoint(rows[1..], keep, hit, assign);
    }
  }

  /** A DELETE of rows outside a selection does not change the selection. */
  lemma {:induction false} NewestFirstDeleteDisjoint<C>(rows: seq<Row<C>>, keep: Row<C> -> bool, hit: Row<C> -> bool)
    requires forall x :: hit(x) ==> !keep(x)
    ensures NewestFirst(DeleteWhere(rows, hit), keep) == NewestFirst(rows, keep)
  {
    if rows != [] {
      var rest := DeleteWhere(rows[1..], hit);
      NewestFirstDeleteDisjoint(rows[1..], keep, hit);
      var tail := if keep(rows[0]) then [rows[0]] else [];
      assert NewestFirst(rows, keep) == NewestFirst(rows[1..], keep) + tail;
      if !hit(rows[0]) {
        var d := [rows[0]] + rest;
        assert DeleteWhere(rows, hit) == d;
        assert d[0] == rows[0] && d[1..] == rest;
        assert NewestFirst(d, keep) == NewestFirst(rest, keep) + tail;
      } else {
        assert DeleteWhere(rows, hit) == rest;
        assert tail == [];
      }
    }
  }
}
