/** The two orderings the handlers ask of the database: all rows by primary
    key (`Task.query.order_by(Task.id)`) and all categories by name
    (`Category.query.order_by(Category.category_name)`). Each query returns
    every row of its table exactly once. */
module Queries {

  import opened Text
  import opened Models

  /** `rows` holds every row of `table` exactly once, and nothing else. */
  ghost predicate Lists<T>(rows: seq<Row<T>>, table: map<Id, T>) {
    && (forall i :: 0 <= i < |rows| ==> rows[i].id in table && table[rows[i].id] == rows[i].record)
    && (forall id :: id in table ==> exists i :: 0 <= i < |rows| && rows[i].id == id)
    && (forall i, j :: 0 <= i < j < |rows| ==> rows[i].id != rows[j].id)
  }

  ghost predicate IdsAscending<T>(rows: seq<Row<T>>) {
    forall i, j :: 0 <= i < j < |rows| ==> rows[i].id < rows[j].id
  }

  /** Putting the row with key `k` in front of a listing of the rest of the
      table lists the whole table. */
  lemma ListsCons<T>(table: map<Id, T>, k: Id, rest: seq<Row<T>>)
    requires k in table && Lists(rest, table - {k})
    ensures Lists([Row(k, table[k])] + rest, table)
  {
    var rows := [Row(k, table[k])] + rest;
    forall id | id in table
      ensures exists i :: 0 <= i < |rows| && rows[i].id == id
    {
      if id == k {
        assert rows[0].id == id;
      } else {
        assert id in table - {k};
        var i :| 0 <= i < |rest| && rest[i].id == id;
        assert rows[i + 1].id == id;
      }
    }
  }

  /** A non-empty set has a member. */
  lemma HasMember(keys: set<Id>)
    requires |keys| > 0
    ensures exists x :: x in keys
  {
    assert (forall x :: x !in keys) ==> keys == {};
  }

  /** The least key, put in front of the other rows in ascending order,
      keeps the order ascending. */
  lemma IdsAscendingCons<T>(table: map<Id, T>, k: Id, rest: seq<Row<T>>)
    requires k in table && forall j :: j in table ==> k <= j
    requires Lists(rest, table - {k}) && IdsAscending(rest)
    ensures IdsAscending([Row(k, table[k])] + rest)
  {
  }

  lemma {:induction false} LeastIdExists(keys: set<Id>)
    requires keys != {}
    ensures exists k :: k in keys && forall j :: j in keys ==> k <= j
    decreases keys
  {
    HasMember(keys);
    var x :| x in keys;
    if keys != {x} {
      LeastIdExists(keys - {x});
      var m :| m in keys - {x} && forall j :: j in keys - {x} ==> m <= j;
      var least := if x <= m then x else m;
      forall j | j in keys
        ensures least <= j
      {
        if j != x {
          assert j in keys - {x};
        }
      }
    }
  }

  /** The smallest key of a non-empty table. */
  function LeastId(keys: set<Id>): (k: Id)
    requires keys != {}
    ensures k in keys && forall j :: j in keys ==> k <= j
  {
    LeastIdExists(keys);
    var k :| k in keys && forall j :: j in keys ==> k <= j;
    k
  }

  /** All rows of a table in ascending key order. */
  function OrderedById<T>(table: map<Id, T>): (rows: seq<Row<T>>)
    ensures IdsAscending(rows) && Lists(rows, table)
    decreases table.Keys
  {
    if |table| == 0 then []
    else
      var k := LeastId(table.Keys);
      var rest := OrderedById(table - {k});
      ListsCons(table, k, rest);
      IdsAscendingCons(table, k, rest);
      [Row(k, table[k])] + rest
  }

  /** The order `ORDER BY category_name` produces; the key orders rows with
      equal names, which the unique constraint rules out in a stored table. */
  predicate Precedes(a: Row<Category>, b: Row<Category>) {
    || StrLt(a.record.categoryName, b.record.categoryName)
    || (a.record.categoryName == b.record.categoryName && a.id < b.id)
  }

  ghost predicate NamesAscending(rows: seq<Row<Category>>) {
    forall i, j :: 0 <= i < j < |rows| ==> Precedes(rows[i], rows[j])
  }

  lemma PrecedesTransitive(a: Row<Category>, b: Row<Category>, c: Row<Category>)
    requires Precedes(a, b) && Precedes(b, c)
    ensures Precedes(a, c)
  {
    if StrLt(a.record.categoryName, b.record.categoryName) && StrLt(b.record.categoryName, c.record.categoryName) {
      StrLtTransitive(a.record.categoryName, b.record.categoryName, c.record.categoryName);
    }
  }

  lemma PrecedesTotal(a: Row<Category>, b: Row<Category>)
    requires a.id != b.id
    ensures Precedes(a, b) || Precedes(b, a)
  {
    if a.record.categoryName != b.record.categoryName {
      StrLtTotal(a.record.categoryName, b.record.categoryName);
    }
  }

  ghost predicate IsFirstByName(table: map<Id, Category>, k: Id) {
    k in table && forall j :: j in table && j != k ==> Precedes(Row(k, table[k]), Row(j, table[j]))
  }

  lemma {:induction false} FirstByNameExists(table: map<Id, Category>)
    requires table.Keys != {}
    ensures exists k :: IsFirstByName(table, k)
    decreases table.Keys
  {
    HasMember(table.Keys);
    var x :| x in table;
    if table.Keys == {x} {
      assert IsFirstByName(table, x);
    } else {
      var smaller := table - {x};
      assert smaller.Keys == table.Keys - {x} != {};
      FirstByNameExists(smaller);
      var m :| IsFirstByName(smaller, m);
      var rx, rm := Row(x, table[x]), Row(m, table[m]);
      assert forall j :: j in smaller ==> smaller[j] == table[j];
      PrecedesTotal(rx, rm);
      if Precedes(rx, rm) {
        forall j | j in table && j != x
          ensures Precedes(rx, Row(j, table[j]))
        {
          if j != m {
            assert j in smaller;
            PrecedesTransitive(rx, rm, Row(j, table[j]));
          }
        }
        assert IsFirstByName(table, x);
      } else {
        forall j | j in table && j != m
          ensures Precedes(rm, Row(j, table[j]))
        {
          if j != x {
            assert j in smaller;
          }
        }
        assert IsFirstByName(table, m);
      }
    }
  }

  /** The key of the category that comes first by name. */
  function FirstByName(table: map<Id, Category>): (k: Id)
    requires table.Keys != {}
    ensures IsFirstByName(table, k)
  {
    FirstByNameExists(table);
    StrLtIsStrictTotalOrder();
    var k :| k in table && forall j :: j in table && j != k ==> Precedes(Row(k, table[k]), Row(j, table[j]));
    k
  }

  /** All categories in ascending name order. */
  function OrderedByName(table: map<Id, Category>): (rows: seq<Row<Category>>)
    ensures NamesAscending(rows) && Lists(rows, table)
    decreases table.Keys
  {
    if |table| == 0 then []
    else
      var k := FirstByName(table);
      var rest := OrderedByName(table - {k});
      ListsCons(table, k, rest);
      [Row(k, table[k])] + rest
  }

  /** In a table that keeps the unique constraint, a listing in name order
      has strictly ascending names. */
  lemma NamesStrictlyAscending(rows: seq<Row<Category>>, table: map<Id, Category>)
    requires UniqueCategoryNames(table) && Lists(rows, table) && NamesAscending(rows)
    ensures forall i, j :: 0 <= i < j < |rows| ==> StrLt(rows[i].record.categoryName, rows[j].record.categoryName)
  {
  }
}
