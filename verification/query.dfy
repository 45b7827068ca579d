/**
 * The ordering the listing queries ask the database for:
 * `ORDER BY major DESC, minor DESC`. Rows with equal keys may come back in
 * any order, so the ordering is a relation, and OrderByDesc produces one
 * list that satisfies it.
 */
module Query {
  import opened Common

  /** A sort key compared lexicographically, `major` first. */
  datatype Key = Key(major: int, minor: int)

  /** `a` sorts at or below `b`. */
  predicate NotAfter(a: Key, b: Key)
  {
    a.major < b.major || (a.major == b.major && a.minor <= b.minor)
  }

  /** Every id of `s` has a key, and keys never increase along `s`. */
  ghost predicate SortedDesc(s: seq<Id>, key: map<Id, Key>)
  {
    && (forall i :: 0 <= i < |s| ==> s[i] in key)
    && (forall i, j :: 0 <= i < j < |s| ==> NotAfter(key[s[j]], key[s[i]]))
  }

  /** Insert `k` into a descending list in front of the first id whose key is not above its own. */
  function InsertDesc(s: seq<Id>, k: Id, key: map<Id, Key>): (r: seq<Id>)
    requires k in key && SortedDesc(s, key)
    ensures multiset(r) == multiset(s) + multiset{k}
    ensures SortedDesc(r, key)
  {
    if s == [] || NotAfter(key[s[0]], key[k]) then
      [k] + s
    else
      var rest := InsertDesc(s[1..], k, key);
      assert s == [s[0]] + s[1..];
      HeadStaysFirst(s, k, key, rest);
      [s[0]] + rest
  }

  /**
   * The recursive case of InsertDesc: the head of `s` sorts above `k` and
   * above the rest of `s`, so it stays in front of the tail into which `k`
   * went.
   */
  lemma HeadStaysFirst(s: seq<Id>, k: Id, key: map<Id, Key>, rest: seq<Id>)
    requires k in key && SortedDesc(s, key) && s != [] && !NotAfter(key[s[0]], key[k])
    requires SortedDesc(rest, key) && multiset(rest) == multiset(s[1..]) + multiset{k}
    ensures SortedDesc([s[0]] + rest, key)
  {
    forall j | 0 <= j < |rest|
      ensures NotAfter(key[rest[j]], key[s[0]])
    {
      assert rest[j] in multiset(rest);
      if rest[j] != k {
        assert rest[j] in multiset(s[1..]);
        var i :| 0 <= i < |s[1..]| && s[1..][i] == rest[j];
        assert s[i + 1] == rest[j];
      }
    }
    var r := [s[0]] + rest;
    forall i, j | 0 <= i < j < |r|
      ensures NotAfter(key[r[j]], key[r[i]])
    {
      assert r[j] == rest[j - 1];
      if i > 0 {
        assert r[i] == rest[i - 1];
      }
    }
  }

  /**
   * The rows `ids` in descending key order, each exactly once: the result
   * of `ORDER BY … DESC` over the selected rows.
   */
  method OrderByDesc(ids: set<Id>, key: map<Id, Key>) returns (r: seq<Id>)
    requires ids <= key.Keys
    ensures multiset(r) == multiset(ids)
    ensures forall id :: id in r <==> id in ids
    ensures SortedDesc(r, key)
  {
    r := [];
    var rest := ids;
    while rest != {}
      invariant rest <= ids
      invariant multiset(r) + multiset(rest) == multiset(ids)
      invariant SortedDesc(r, key)
      decreases |rest|
    {
      var k :| k in rest;
      assert multiset(rest) == multiset(rest - {k}) + multiset{k};
      r := InsertDesc(r, k, key);
      rest := rest - {k};
    }
    forall id ensures id in r <==> id in ids {
      assert id in r <==> id in multiset(r);
      assert id in ids <==> id in multiset(ids);
    }
  }
}
