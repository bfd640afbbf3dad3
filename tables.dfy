/**
 * Rows of a database table as a sequence, and the few queries the actions
 * run on them: find the first row with a key, keep or drop the rows with a
 * key, and the unique constraints a table declares.
 */
module Tables {
  import opened Common

  /** The position of the first row whose key is k (a findUnique or findFirst). */
  function IndexOf<T, K(==)>(s: seq<T>, key: T -> K, k: K): (r: Option<nat>)
    ensures r.Some? ==> r.value < |s| && key(s[r.value]) == k
    ensures r.Some? ==> forall j :: 0 <= j < r.value ==> key(s[j]) != k
    ensures r.None? <==> forall j :: 0 <= j < |s| ==> key(s[j]) != k
  {
    if s == [] then None
    else if key(s[0]) == k then Some(0)
    else match IndexOf(s[1..], key, k)
      case None => None
      case Some(i) => Some(i + 1)
  }

  /** No two rows share a key: the table's unique constraint on that key. */
  ghost predicate Unique<T, K>(s: seq<T>, key: T -> K)
  {
    forall i, j :: 0 <= i < |s| && 0 <= j < |s| && i != j ==> key(s[i]) != key(s[j])
  }

  /** Under a unique constraint the first row with a key is the only one. */
  lemma IndexOfUnique<T, K>(s: seq<T>, key: T -> K, i: nat)
    requires Unique(s, key) && i < |s|
    ensures IndexOf(s, key, key(s[i])) == Some(i)
  {
  }

  /** The rows whose key is k, in table order (a `where key = k`). */
  function Select<T(!new), K(==)>(s: seq<T>, key: T -> K, k: K): (r: seq<T>)
    ensures forall x :: x in r <==> x in s && key(x) == k
    ensures forall i :: 0 <= i < |r| ==> key(r[i]) == k && r[i] in s
    ensures |r| <= |s|
  {
    if s == [] then []
    else (if key(s[0]) == k then [s[0]] else []) + Select(s[1..], key, k)
  }

  /** The rows whose key is not k, in table order (what a `deleteMany where key = k` leaves). */
  function Reject<T(!new), K(==)>(s: seq<T>, key: T -> K, k: K): (r: seq<T>)
    ensures forall x :: x in r <==> x in s && key(x) != k
    ensures forall i :: 0 <= i < |r| ==> key(r[i]) != k && r[i] in s
    ensures |r| <= |s|
  {
    if s == [] then []
    else (if key(s[0]) != k then [s[0]] else []) + Reject(s[1..], key, k)
  }

  /** Selecting from a non-empty table: the first row, if it has the key, then the rows selected from the rest. */
  lemma SelectStep<T(!new), K>(s: seq<T>, key: T -> K, k: K)
    requires s != []
    ensures multiset(Select(s, key, k)) ==
              (if key(s[0]) == k then multiset{s[0]} else multiset{}) + multiset(Select(s[1..], key, k))
  {
    if key(s[0]) == k {
      SelectCons(s, key, k);
      ConsMultiset(s[0], Select(s[1..], key, k));
    } else {
      RejectCons(s, key, k);
    }
  }

  lemma SplitCons<T>(s: seq<T>)
    requires s != []
    ensures multiset(s) == multiset{s[0]} + multiset(s[1..])
  {
    assert s == [s[0]] + s[1..];
  }

  lemma ConsMultiset<T>(h: T, s: seq<T>)
    ensures multiset([h] + s) == multiset{h} + multiset(s)
  {
  }

  lemma SelectCons<T(!new), K>(s: seq<T>, key: T -> K, k: K)
    requires s != [] && key(s[0]) == k
    ensures Select(s, key, k) == [s[0]] + Select(s[1..], key, k)
    ensures Reject(s, key, k) == Reject(s[1..], key, k)
  {
  }

  lemma RejectCons<T(!new), K>(s: seq<T>, key: T -> K, k: K)
    requires s != [] && key(s[0]) != k
    ensures Select(s, key, k) == Select(s[1..], key, k)
    ensures Reject(s, key, k) == [s[0]] + Reject(s[1..], key, k)
  {
  }

  /** Dropping one key's rows leaves another key's selection as it was. */
  lemma {:induction false} SelectOfReject<T(!new), K>(s: seq<T>, key: T -> K, k: K, k': K)
    requires k != k'
    ensures Select(Reject(s, key, k), key, k') == Select(s, key, k')
  {
    if s != [] {
      SelectOfReject(s[1..], key, k, k');
      var h := s[0];
      var rest := Reject(s[1..], key, k);
      if key(h) != k {
        assert Reject(s, key, k) == [h] + rest;
        assert ([h] + rest)[0] == h && ([h] + rest)[1..] == rest;
        assert Select([h] + rest, key, k') == (if key(h) == k' then [h] else []) + Select(rest, key, k');
      } else {
        assert Reject(s, key, k) == rest;
        assert Select(s, key, k') == Select(s[1..], key, k');
      }
    }
  }

  /** Dropping a key's rows leaves nothing to select for that key. */
  lemma {:induction false} SelectOfRejectSame<T(!new), K>(s: seq<T>, key: T -> K, k: K)
    ensures Select(Reject(s, key, k), key, k) == []
  {
    if s != [] {
      SelectOfRejectSame(s[1..], key, k);
      var h := s[0];
      var rest := Reject(s[1..], key, k);
      if key(h) != k {
        assert Reject(s, key, k) == [h] + rest;
        assert ([h] + rest)[0] == h && ([h] + rest)[1..] == rest;
      } else {
        assert Reject(s, key, k) == rest;
      }
    }
  }

  lemma ConsUnique<T, K>(h: T, r: seq<T>, key: T -> K)
    requires Unique(r, key)
    requires forall x :: x in r ==> key(x) != key(h)
    ensures Unique([h] + r, key)
  {
    var s := [h] + r;
    forall i, j | 0 <= i < |s| && 0 <= j < |s| && i != j
      ensures key(s[i]) != key(s[j])
    {
      if i > 0 && j > 0 {
        assert s[i] == r[i - 1] && s[j] == r[j - 1];
      } else if i == 0 {
        assert s[j] in r;
      } else {
        assert s[i] in r;
      }
    }
  }

  lemma TailUnique<T, K>(s: seq<T>, key: T -> K)
    requires Unique(s, key) && s != []
    ensures Unique(s[1..], key)
    ensures forall x :: x in s[1..] ==> key(x) != key(s[0])
  {
    forall x | x in s[1..]
      ensures key(x) != key(s[0])
    {
      var j :| 0 <= j < |s[1..]| && s[1..][j] == x;
      assert s[j + 1] == x;
    }
  }

  lemma {:induction false} SelectUnique<T(!new), K, L>(s: seq<T>, key: T -> K, k: K, other: T -> L)
    requires Unique(s, other)
    ensures Unique(Select(s, key, k), other)
  {
    if s != [] {
      TailUnique(s, other);
      SelectUnique(s[1..], key, k, other);
      if key(s[0]) == k {
        ConsUnique(s[0], Select(s[1..], key, k), other);
      }
    }
  }

  lemma {:induction false} RejectUnique<T(!new), K, L>(s: seq<T>, key: T -> K, k: K, other: T -> L)
    requires Unique(s, other)
    ensures Unique(Reject(s, key, k), other)
  {
    if s != [] {
      TailUnique(s, other);
      RejectUnique(s[1..], key, k, other);
      if key(s[0]) != k {
        ConsUnique(s[0], Reject(s[1..], key, k), other);
      }
    }
  }

  /** Inserting a row whose key no row has keeps the constraint. */
  lemma AppendUnique<T, K>(s: seq<T>, x: T, key: T -> K)
    requires Unique(s, key)
    requires forall j :: 0 <= j < |s| ==> key(s[j]) != key(x)
    ensures Unique(s + [x], key)
  {
  }

  /** Updating a row without touching its key keeps the constraint. */
  lemma UpdateUnique<T, K>(s: seq<T>, i: nat, v: T, key: T -> K)
    requires Unique(s, key) && i < |s| && key(v) == key(s[i])
    ensures Unique(s[i := v], key)
  {
  }

  /** The table without its row at position i (a delete of one row). */
  function RemoveAt<T(!new)>(s: seq<T>, i: nat): (r: seq<T>)
    requires i < |s|
    ensures |r| == |s| - 1
    ensures forall x :: x in r ==> x in s
  {
    s[..i] + s[i + 1..]
  }

  lemma RemoveAtUnique<T(!new), K>(s: seq<T>, i: nat, key: T -> K)
    requires Unique(s, key) && i < |s|
    ensures Unique(RemoveAt(s, i), key)
    ensures forall j :: 0 <= j < |RemoveAt(s, i)| ==> key(RemoveAt(s, i)[j]) != key(s[i])
  {
    var r := RemoveAt(s, i);
    forall a, b | 0 <= a < |r| && 0 <= b < |r| && a != b
      ensures key(r[a]) != key(r[b])
    {
      var a' := if a < i then a else a + 1;
      var b' := if b < i then b else b + 1;
      assert r[a] == s[a'] && r[b] == s[b'];
    }
    forall j | 0 <= j < |r|
      ensures key(r[j]) != key(s[i])
    {
      var j' := if j < i then j else j + 1;
      assert r[j] == s[j'];
    }
  }
}
