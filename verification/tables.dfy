/** The store's three collections are Python dicts keyed by a string: a
    lookup table that also remembers insertion order, which is the order
    `values()` yields. */
module Tables {
  import opened Common

  /** A dict: its keys in insertion order, and the row stored under each. */
  datatype Table<T> = Table(keys: seq<string>, rows: map<string, T>)
  {
    /** Each key occurs once in the order, and the order lists exactly the
        keys of the map. */
    ghost predicate Valid()
    {
      && Distinct(keys)
      && (forall k :: k in rows <==> k in keys)
    }

    /** `len(d)`: the number of entries. */
    function Len(): (n: nat)
      requires Valid()
      ensures n == |keys|
    {
      DistinctCardinality(keys);
      assert rows.Keys == set k | k in keys;
      |rows|
    }

    /** `list(d.values())`: the rows in insertion order. */
    function Values(): (vs: seq<T>)
      requires Valid()
      ensures |vs| == |keys|
      ensures forall i :: 0 <= i < |keys| ==> vs[i] == rows[keys[i]]
    {
      seq(|keys|, i requires 0 <= i < |keys| => rows[keys[i]])
    }

    /** `d[k] = v`: overwrites in place when `k` is present, otherwise
        appends `k` at the end of the insertion order. */
    function Put(k: string, v: T): (t: Table<T>)
      requires Valid()
      ensures t.Valid()
      ensures t.rows == rows[k := v]
      ensures k in rows ==> t.keys == keys
      ensures k !in rows ==> t.keys == keys + [k]
    {
      if k in rows then Table(keys, rows[k := v]) else Table(keys + [k], rows[k := v])
    }
  }

  /** `{}`: the empty dict. */
  function Empty<T>(): (t: Table<T>)
    ensures t.Valid() && t.keys == [] && t.rows == map[]
  {
    Table([], map[])
  }

  /** A dict filled from a list: starting from `{}`, each row is written
      under its key in list order. With distinct keys, the keys come out in
      list order and the values are the list. */
  method Load<T>(rows: seq<T>, key: T -> string) returns (t: Table<T>)
    requires forall i, j :: 0 <= i < j < |rows| ==> key(rows[i]) != key(rows[j])
    ensures t.Valid() && t.Values() == rows
    ensures |t.keys| == |rows| && forall j :: 0 <= j < |rows| ==> t.keys[j] == key(rows[j])
    ensures forall k :: k in t.rows ==> key(t.rows[k]) == k
  {
    t := Empty();
    for i := 0 to |rows|
      invariant t.Valid() && t.Values() == rows[..i]
      invariant |t.keys| == i && forall j :: 0 <= j < i ==> t.keys[j] == key(rows[j])
      invariant forall k :: k in t.rows ==> key(t.rows[k]) == k
    {
      var row := rows[i];
      assert key(row) !in t.keys;
      PutValues(t, key(row), row);
      t := t.Put(key(row), row);
      assert rows[..i + 1] == rows[..i] + [row];
    }
    assert rows[..|rows|] == rows;
  }

  /** Every stored row is one of the values, at the position of its key. */
  lemma RowInValues<T>(t: Table<T>, k: string)
    requires t.Valid() && k in t.rows
    ensures t.rows[k] in t.Values()
  {
    var i :| 0 <= i < |t.keys| && t.keys[i] == k;
    assert t.Values()[i] == t.rows[k];
  }

  /** Inserting a new key appends its row to the values; overwriting an
      existing key replaces its row where it stands. */
  lemma {:induction false} PutValues<T>(t: Table<T>, k: string, v: T)
    requires t.Valid()
    ensures k !in t.rows ==> t.Put(k, v).Values() == t.Values() + [v]
    ensures k in t.rows ==> forall i :: 0 <= i < |t.keys| ==>
      t.Put(k, v).Values()[i] == (if t.keys[i] == k then v else t.Values()[i])
  {
    var t' := t.Put(k, v);
    if k !in t.rows {
      assert forall i :: 0 <= i < |t.keys| ==> t.keys[i] != k;
      assert |t'.Values()| == |t.Values()| + 1;
      forall i | 0 <= i < |t'.keys|
        ensures t'.Values()[i] == (t.Values() + [v])[i]
      {
        if i < |t.keys| {
          assert t'.keys[i] == t.keys[i];
        }
      }
    }
  }

  /** Writing the same row twice under one key is writing it once. */
  lemma PutTwice<T>(t: Table<T>, k: string, v: T)
    requires t.Valid()
    ensures t.Put(k, v).Put(k, v) == t.Put(k, v)
  {
  }
}
