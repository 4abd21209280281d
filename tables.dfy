/**
 * A relational table as the controllers use it through the store client:
 * rows carrying an auto-increment integer id, looked up by id or by a unique
 * column, inserted with the next id, replaced and deleted by id.
 */
module Tables {
  import opened Wrappers

  datatype Row<+T> = Row(id: int, data: T)

  /** Ids are positive, below the next auto-increment value, and distinct. */
  ghost predicate WellFormed<T>(rows: seq<Row<T>>, next: int) {
    && 1 <= next
    && (forall i :: 0 <= i < |rows| ==> 1 <= rows[i].id < next)
    && (forall i, j :: 0 <= i < j < |rows| ==> rows[i].id != rows[j].id)
  }

  predicate HasId<T>(rows: seq<Row<T>>, id: int) {
    exists i :: 0 <= i < |rows| && rows[i].id == id
  }

  /** Rows with distinct ids each occur once. */
  lemma {:induction false} RowsOccurOnce<T>(rows: seq<Row<T>>)
    requires forall i, j :: 0 <= i < j < |rows| ==> rows[i].id != rows[j].id
    ensures forall x :: multiset(rows)[x] <= 1
  {
    if rows != [] {
      var t := rows[1..];
      RowsOccurOnce(t);
      assert rows == [rows[0]] + t;
      assert rows[0] !in t by {
        forall k | 0 <= k < |t| ensures t[k] != rows[0] { assert t[k] == rows[k + 1]; }
      }
      assert multiset(rows) == multiset{rows[0]} + multiset(t);
    }
  }

  /** A sequence whose elements each occur once has as many distinct elements as positions. */
  lemma {:induction false} OnceCard<T>(xs: seq<T>)
    requires forall x :: multiset(xs)[x] <= 1
    ensures |set x | x in xs| == |xs|
  {
    if xs != [] {
      var t := xs[1..];
      assert xs == [xs[0]] + t;
      assert multiset(xs) == multiset{xs[0]} + multiset(t);
      assert multiset(xs)[xs[0]] == 1 + multiset(t)[xs[0]];
      forall x ensures multiset(t)[x] <= 1 { assert multiset(xs)[x] == multiset{xs[0]}[x] + multiset(t)[x]; }
      OnceCard(t);
      assert (set x | x in xs) == {xs[0]} + (set x | x in t);
    }
  }

  /** `findUnique({ where: { id } })` */
  function Find<T>(rows: seq<Row<T>>, id: int): (r: Option<Row<T>>)
    ensures r.None? <==> !HasId(rows, id)
    ensures r.Some? ==> r.value.id == id && r.value in rows
  {
    if rows == [] then None
    else if rows[0].id == id then Some(rows[0])
    else
      var r := Find(rows[1..], id);
      assert r.Some? ==> r.value in rows;
      assert HasId(rows[1..], id) ==> HasId(rows, id);
      assert HasId(rows, id) ==> HasId(rows[1..], id) by {
        if HasId(rows, id) {
          var i :| 0 <= i < |rows| && rows[i].id == id;
          assert rows[1..][i - 1].id == id;
        }
      }
      r
  }

  /** `findUnique({ where: { col: v } })` on a unique column `key`. */
  function FindBy<T>(rows: seq<Row<T>>, key: T -> string, v: string): (r: Option<Row<T>>)
    ensures r.None? <==> forall i :: 0 <= i < |rows| ==> key(rows[i].data) != v
    ensures r.Some? ==> key(r.value.data) == v && r.value in rows
  {
    if rows == [] then None
    else if key(rows[0].data) == v then Some(rows[0])
    else
      var r := FindBy(rows[1..], key, v);
      assert forall i :: 1 <= i < |rows| ==> rows[i] == rows[1..][i - 1];
      r
  }

  /** `create`: appends a row under the next auto-increment id. */
  function Insert<T>(rows: seq<Row<T>>, next: int, data: T): seq<Row<T>> {
    rows + [Row(next, data)]
  }

  /** `update({ where: { id }, data })`: the row with that id gets `data`. */
  function Replace<T>(rows: seq<Row<T>>, id: int, data: T): (r: seq<Row<T>>)
    ensures |r| == |rows|
    ensures forall i :: 0 <= i < |rows| ==> r[i] == if rows[i].id == id then Row(id, data) else rows[i]
  {
    seq(|rows|, i requires 0 <= i < |rows| => if rows[i].id == id then Row(id, data) else rows[i])
  }

  /** `delete({ where: { id } })`: the rows with any other id, in order. */
  function Delete<T>(rows: seq<Row<T>>, id: int): (r: seq<Row<T>>)
    ensures |r| <= |rows|
    ensures forall i :: 0 <= i < |r| ==> r[i] in rows && r[i].id != id
    ensures forall i :: 0 <= i < |rows| && rows[i].id != id ==> rows[i] in r
  {
    if rows == [] then []
    else if rows[0].id == id then Delete(rows[1..], id)
    else
      var tail := Delete(rows[1..], id);
      assert forall i :: 1 <= i < |rows| ==> rows[i] == rows[1..][i - 1];
      [rows[0]] + tail
  }

  /** `findFirst({ orderBy: { <stamp>: 'desc' } })`: a row with the greatest stamp. */
  function Latest<T>(rows: seq<Row<T>>, stamp: T -> int): (r: Option<Row<T>>)
    ensures r.None? <==> rows == []
    ensures r.Some? ==> r.value in rows && forall i :: 0 <= i < |rows| ==> stamp(rows[i].data) <= stamp(r.value.data)
  {
    if rows == [] then None
    else
      var rest := Latest(rows[1..], stamp);
      assert forall i :: 1 <= i < |rows| ==> rows[i] == rows[1..][i - 1];
      if rest.None? || stamp(rest.value.data) <= stamp(rows[0].data) then Some(rows[0]) else rest
  }

  lemma InsertWellFormed<T>(rows: seq<Row<T>>, next: int, data: T)
    requires WellFormed(rows, next)
    ensures WellFormed(Insert(rows, next, data), next + 1)
    ensures !HasId(rows, next)
  {
  }

  lemma InsertKeeps<T>(rows: seq<Row<T>>, next: int, data: T, k: int)
    ensures HasId(Insert(rows, next, data), k) <==> HasId(rows, k) || k == next
  {
    var r := Insert(rows, next, data);
    if HasId(r, k) && k != next {
      var i :| 0 <= i < |r| && r[i].id == k;
      assert rows[i].id == k;
    }
    if HasId(rows, k) {
      var i :| 0 <= i < |rows| && rows[i].id == k;
      assert r[i].id == k;
    }
    assert r[|rows|].id == next;
  }

  lemma ReplaceKeeps<T>(rows: seq<Row<T>>, id: int, data: T, k: int)
    ensures HasId(Replace(rows, id, data), k) <==> HasId(rows, k)
  {
    var r := Replace(rows, id, data);
    if HasId(r, k) {
      var i :| 0 <= i < |r| && r[i].id == k;
      assert rows[i].id == k;
    }
    if HasId(rows, k) {
      var i :| 0 <= i < |rows| && rows[i].id == k;
      assert r[i].id == k;
    }
  }

  lemma DeleteKeeps<T>(rows: seq<Row<T>>, id: int, k: int)
    ensures HasId(Delete(rows, id), k) <==> HasId(rows, k) && k != id
  {
    var r := Delete(rows, id);
    if HasId(r, k) {
      var i :| 0 <= i < |r| && r[i].id == k;
      assert r[i] in rows;
      var j :| 0 <= j < |rows| && rows[j] == r[i];
    }
    if HasId(rows, k) && k != id {
      var i :| 0 <= i < |rows| && rows[i].id == k;
      assert rows[i] in r;
      var j :| 0 <= j < |r| && r[j] == rows[i];
    }
  }

  lemma ReplaceWellFormed<T>(rows: seq<Row<T>>, next: int, id: int, data: T)
    requires WellFormed(rows, next)
    ensures WellFormed(Replace(rows, id, data), next)
  {
  }

  /** The rows after the first keep the invariant, and none of them shares the first row's id. */
  lemma WellFormedTail<T>(rows: seq<Row<T>>, next: int)
    requires WellFormed(rows, next) && rows != []
    ensures WellFormed(rows[1..], next)
    ensures forall t :: t in rows[1..] ==> t.id != rows[0].id
  {
    assert forall i :: 0 <= i < |rows| - 1 ==> rows[1..][i] == rows[i + 1];
  }

  /** Putting a row in front of rows whose ids all differ from its own keeps the invariant. */
  lemma WellFormedCons<T>(row: Row<T>, rows: seq<Row<T>>, next: int)
    requires WellFormed(rows, next) && 1 <= row.id < next
    requires forall i :: 0 <= i < |rows| ==> rows[i].id != row.id
    ensures WellFormed([row] + rows, next)
  {
    assert forall i :: 1 <= i < |rows| + 1 ==> ([row] + rows)[i] == rows[i - 1];
  }

  /** Deleting keeps ids distinct: every kept row comes from `rows`. */
  lemma {:induction false} DeleteDistinct<T>(rows: seq<Row<T>>, next: int, id: int)
    requires WellFormed(rows, next)
    ensures WellFormed(Delete(rows, id), next)
  {
    if rows != [] {
      WellFormedTail(rows, next);
      DeleteDistinct(rows[1..], next, id);
      if rows[0].id != id {
        var tail := Delete(rows[1..], id);
        assert forall i :: 0 <= i < |tail| ==> tail[i] in rows[1..];
        WellFormedCons(rows[0], tail, next);
      }
    }
  }

  lemma {:induction false} DeleteAbsent<T>(rows: seq<Row<T>>, id: int)
    requires !HasId(rows, id)
    ensures Delete(rows, id) == rows
  {
    if rows != [] {
      assert !HasId(rows[1..], id) by {
        forall i | 0 <= i < |rows[1..]| ensures rows[1..][i].id != id {
          assert rows[1..][i] == rows[i + 1];
        }
      }
      DeleteAbsent(rows[1..], id);
      assert rows == [rows[0]] + rows[1..];
    }
  }

  /** With distinct ids, deleting an existing id removes exactly one row. */
  lemma {:induction false} DeleteCount<T>(rows: seq<Row<T>>, next: int, id: int)
    requires WellFormed(rows, next) && HasId(rows, id)
    ensures |Delete(rows, id)| == |rows| - 1
  {
    if rows[0].id == id {
      assert !HasId(rows[1..], id) by {
        forall i | 0 <= i < |rows[1..]| ensures rows[1..][i].id != id {
          assert rows[1..][i] == rows[i + 1];
        }
      }
      DeleteAbsent(rows[1..], id);
    } else {
      var i :| 0 <= i < |rows| && rows[i].id == id;
      assert rows[1..][i - 1].id == id;
      DeleteCount(rows[1..], next, id);
    }
  }

  lemma DeleteWellFormed<T>(rows: seq<Row<T>>, next: int, id: int)
    requires WellFormed(rows, next)
    ensures WellFormed(Delete(rows, id), next)
    ensures !HasId(Delete(rows, id), id)
    ensures HasId(rows, id) ==> |Delete(rows, id)| == |rows| - 1
    ensures !HasId(rows, id) ==> Delete(rows, id) == rows
  {
    DeleteDistinct(rows, next, id);
    if HasId(rows, id) {
      DeleteCount(rows, next, id);
    } else {
      DeleteAbsent(rows, id);
    }
  }
}
