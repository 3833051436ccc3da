/**
 * The object store the pipeline reads from and writes to, reduced to a map
 * from keys to tables. Credentials, sessions and file encodings are not
 * part of this model.
 */
module Store {
  import opened Wrappers
  import opened Text
  import opened Tables

  /** The two encodings a table can be written in. */
  const CSV: string := "csv"
  const PARQUET: string := "parquet"

  /** The keys of s that start with prefix, in their order. */
  function KeysWithPrefix(s: seq<string>, prefix: string): (r: seq<string>)
    ensures forall k :: k in r <==> k in s && prefix <= k
  {
    if s == [] then []
    else
      assert forall k :: k in s <==> k == s[0] || k in s[1..] by { assert s == [s[0]] + s[1..]; }
      (if prefix <= s[0] then [s[0]] else []) + KeysWithPrefix(s[1..], prefix)
  }

  lemma HeadBelowTail(s: seq<string>)
    requires StrictlySorted(s) && s != []
    ensures forall x :: x in s[1..] ==> StrLess(s[0], x)
  {
    forall x | x in s[1..] ensures StrLess(s[0], x) {
      var j :| 0 <= j < |s[1..]| && s[1..][j] == x;
      assert s[j + 1] == x;
    }
  }

  lemma ConsSorted(h: string, s: seq<string>)
    requires StrictlySorted(s)
    requires forall x :: x in s ==> StrLess(h, x)
    ensures StrictlySorted([h] + s)
  {
    var r := [h] + s;
    forall i, j | 0 <= i < j < |r| ensures StrLess(r[i], r[j]) {
      if i == 0 {
        assert r[j] == s[j - 1] && s[j - 1] in s;
      } else {
        assert r[i] == s[i - 1] && r[j] == s[j - 1];
      }
    }
  }

  lemma {:induction false} KeysWithPrefixSorted(s: seq<string>, prefix: string)
    requires StrictlySorted(s)
    ensures StrictlySorted(KeysWithPrefix(s, prefix))
  {
    if s != [] {
      assert StrictlySorted(s[1..]);
      KeysWithPrefixSorted(s[1..], prefix);
      if prefix <= s[0] {
        HeadBelowTail(s);
        ConsSorted(s[0], KeysWithPrefix(s[1..], prefix));
      }
    }
  }

  /** Adds k to the ascending key list s, keeping it ascending and without repeats. */
  function InsertKey(s: seq<string>, k: string): (r: seq<string>)
    requires StrictlySorted(s)
    ensures StrictlySorted(r)
    ensures forall x :: x in r <==> x in s || x == k
  {
    if s == [] then [k]
    else if s[0] == k then s
    else if StrLess(k, s[0]) then
      HeadBelowTail(s);
      assert forall x :: x in s ==> x == s[0] || x in s[1..] by { assert s == [s[0]] + s[1..]; }
      forall x | x in s ensures StrLess(k, x) {
        if x != s[0] { StrLessTransitive(k, s[0], x); }
      }
      ConsSorted(k, s);
      [k] + s
    else
      StrLessTotal(k, s[0]);
      HeadBelowTail(s);
      assert StrictlySorted(s[1..]);
      assert forall x :: x in s <==> x == s[0] || x in s[1..] by { assert s == [s[0]] + s[1..]; }
      var rest := InsertKey(s[1..], k);
      ConsSorted(s[0], rest);
      [s[0]] + rest
  }

  /** What writing t in format reports: false (nothing written) for an empty table. */
  function WriteOutcome(t: Table, format: string): Result<bool, Error>
  {
    if t.IsEmpty() then Success(false)
    else if format == CSV || format == PARQUET then Success(true)
    else Failure(WrongFormat(format))
  }

  /** The stored objects after a write of t under key that did not fail. */
  function Put(objects: map<string, Table>, key: string, t: Table): map<string, Table>
  {
    if t.IsEmpty() then objects else objects[key := t]
  }

  /** A bucket: its objects and their keys in listing order. */
  class Bucket {
    var objects: map<string, Table>
    var keys: seq<string>

    ghost predicate Valid()
      reads this
    {
      StrictlySorted(keys) && forall k :: k in objects <==> k in keys
    }

    constructor ()
      ensures Valid() && objects == map[]
    {
      objects := map[];
      keys := [];
    }

    /** The table stored under key; None where a read would find no such key. */
    function Read(key: string): (r: Option<Table>)
      reads this
    {
      if key in objects then Some(objects[key]) else None
    }

    /** The stored keys that start with prefix, in ascending order. */
    function ListFilesInPrefix(prefix: string): (r: seq<string>)
      reads this
      requires Valid()
      ensures forall k :: k in r <==> k in objects && prefix <= k
      ensures StrictlySorted(r)
    {
      KeysWithPrefixSorted(keys, prefix);
      KeysWithPrefix(keys, prefix)
    }

    /**
     * Writes t under key. An empty table is not written and the result is
     * false; an encoding other than csv or parquet fails.
     */
    method Write(t: Table, key: string, format: string) returns (r: Result<bool, Error>)
      requires Valid()
      modifies this
      ensures Valid()
      ensures r == WriteOutcome(t, format)
      ensures r.Success? ==> objects == Put(old(objects), key, t)
      ensures r.Failure? ==> objects == old(objects)
    {
      if t.IsEmpty() {
        return Success(false);
      }
      if format == CSV || format == PARQUET {
        objects := objects[key := t];
        keys := InsertKey(keys, key);
        return Success(true);
      }
      return Failure(WrongFormat(format));
    }
  }
}
