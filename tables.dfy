/** A table is a map from its integer primary key to the row's columns.
    The two ORM queries every handler uses are modelled here:
    `query.filter_by(...).first()` picks the least matching key, the order a
    rowid table is scanned in, and `query.all()` lists the rows in that order. */
module Tables {
  import opened Http

  predicate IsRow<T(==)>(table: map<int, T>, row: (int, T)) {
    row.0 in table && table[row.0] == row.1
  }

  /** `rows` lists every row of `table` exactly once, in ascending key order. */
  ghost predicate Enumerates<T>(rows: seq<(int, T)>, table: map<int, T>) {
    && (forall i :: 0 <= i < |rows| ==> IsRow(table, rows[i]))
    && (forall k :: k in table ==> (k, table[k]) in rows)
    && (forall i, j :: 0 <= i < j < |rows| ==> rows[i].0 < rows[j].0)
  }

  /** A set of keys is empty or has a member. */
  lemma EmptyOrHasElement(keys: set<int>)
    ensures keys == {} || exists k :: k in keys
  {
    if forall y :: y !in keys {
      assert keys == {};
    }
  }

  /** The keys of the rows whose `key` column holds `value`:
      `query.filter_by(column=value)`. */
  function Matching<T>(table: map<int, T>, key: T -> string, value: string): set<int> {
    set id | id in table && key(table[id]) == value
  }

  /** The column `key` is declared `unique=True`. */
  ghost predicate UniqueBy<T>(table: map<int, T>, key: T -> string) {
    forall a, b :: a in table && b in table && key(table[a]) == key(table[b]) ==> a == b
  }

  /** Every key is below the next autoincrement value. */
  ghost predicate KeysBelow<T>(table: map<int, T>, bound: int) {
    forall id :: id in table ==> id < bound
  }

  lemma UniqueMatch<T>(table: map<int, T>, key: T -> string, value: string, id: int)
    requires UniqueBy(table, key)
    requires id in Matching(table, key, value)
    ensures Matching(table, key, value) == {id}
  {
    forall x | x in Matching(table, key, value) ensures x == id {
      assert key(table[x]) == key(table[id]);
    }
  }

  /** No key matches exactly when no row holds the value. */
  lemma NoMatch<T>(table: map<int, T>, key: T -> string, value: string)
    ensures Matching(table, key, value) == {} <==> forall id :: id in table ==> key(table[id]) != value
  {
    if Matching(table, key, value) == {} {
      forall id | id in table ensures key(table[id]) != value {
        assert id !in Matching(table, key, value);
      }
    } else {
      EmptyOrHasElement(Matching(table, key, value));
      var id :| id in Matching(table, key, value);
      assert id in table && key(table[id]) == value;
    }
  }

  /** Inserting a row under a fresh key whose unique column is not taken
      keeps the column unique. */
  lemma InsertKeepsUnique<T>(table: map<int, T>, key: T -> string, id: int, row: T)
    requires UniqueBy(table, key)
    requires id !in table
    requires Matching(table, key, key(row)) == {}
    ensures UniqueBy(table[id := row], key)
  {
    var t := table[id := row];
    forall a, b | a in t && b in t && a != b ensures key(t[a]) != key(t[b]) {
      if b == id {
        assert a !in Matching(table, key, key(row));
      } else if a == id {
        assert b !in Matching(table, key, key(row));
      }
    }
  }

  lemma {:induction false} LeastExists(keys: set<int>)
    requires keys != {}
    ensures exists k :: k in keys && forall x :: x in keys ==> k <= x
  {
    EmptyOrHasElement(keys);
    var y :| y in keys;
    var rest := keys - {y};
    if rest == {} {
      forall x | x in keys ensures y <= x {
        assert x !in rest;
      }
    } else {
      LeastExists(rest);
      var k :| k in rest && forall x :: x in rest ==> k <= x;
      var least := if y < k then y else k;
      forall x | x in keys ensures least <= x {
        if x != y { assert x in rest; }
      }
      assert least in keys;
    }
  }

  function Least(keys: set<int>): (k: int)
    requires keys != {}
    ensures k in keys
    ensures forall x :: x in keys ==> k <= x
  {
    LeastExists(keys);
    var k :| k in keys && forall x :: x in keys ==> k <= x;
    k
  }

  /** The key `.first()` returns among the matching keys, if any matches. */
  function First(matches: set<int>): (r: Option<int>)
    ensures r.None? <==> matches == {}
    ensures r.Some? ==> r.value in matches && forall x :: x in matches ==> r.value <= x
  {
    if matches == {} then None else Some(Least(matches))
  }

  /** `query.all()`: the rows of the table in ascending key order. */
  function Rows<T>(table: map<int, T>): (rows: seq<(int, T)>)
    decreases |table|
  {
    if table.Keys == {} then []
    else
      var k := Least(table.Keys);
      [(k, table[k])] + Rows(table - {k})
  }

  /** Putting a row in front of a listing of the rest of the table, keyed
      below all of it, lists the whole table. */
  lemma ConsEnumerates<T>(table: map<int, T>, k: int, tail: seq<(int, T)>)
    requires k in table
    requires forall x :: x in table ==> k <= x
    requires Enumerates(tail, table - {k})
    ensures Enumerates([(k, table[k])] + tail, table)
  {
    var rest := table - {k};
    var rows := [(k, table[k])] + tail;
    forall i | 0 <= i < |rows| ensures IsRow(table, rows[i]) {
      if i > 0 { assert rows[i] == tail[i - 1]; assert IsRow(rest, tail[i - 1]); }
    }
    forall x | x in table ensures (x, table[x]) in rows {
      if x != k { assert x in rest; assert (x, rest[x]) in tail; }
    }
    forall i, j | 0 <= i < j < |rows| ensures rows[i].0 < rows[j].0 {
      assert rows[j] == tail[j - 1];
      assert IsRow(rest, tail[j - 1]);
      if i > 0 { assert rows[i] == tail[i - 1]; }
    }
  }

  lemma {:induction false} RowsEnumerate<T>(table: map<int, T>)
    ensures Enumerates(Rows(table), table)
    decreases |table|
  {
    if table.Keys != {} {
      var k := Least(table.Keys);
      RowsEnumerate(table - {k});
      ConsEnumerates(table, k, Rows(table - {k}));
    }
  }
}
