/**
 * The "first wins" map fill the routes use to pick one row per key from rows already in the
 * wanted order (`if (!m.has(k(r))) m.set(k(r), r)`): the kept rows, in the map's insertion
 * order, are the rows whose key does not occur earlier.
 */
module FirstWins {
  import opened SeqFacts

  /** The keys of a sequence of rows. */
  function KeysOf<T, K(==)>(rows: seq<T>, key: T -> K): (r: set<K>)
    ensures forall i :: 0 <= i < |rows| ==> key(rows[i]) in r
  {
    set i | 0 <= i < |rows| :: key(rows[i])
  }

  lemma KeysOfAppend<T, K>(f: seq<T>, x: T, key: T -> K)
    ensures KeysOf(f + [x], key) == KeysOf(f, key) + {key(x)}
  {
    var g := f + [x];
    assert g[|f|] == x;
    forall k | k in KeysOf(g, key) ensures k in KeysOf(f, key) + {key(x)} {
      var i :| 0 <= i < |g| && key(g[i]) == k;
      if i < |f| {
        assert g[i] == f[i];
      }
    }
    forall k | k in KeysOf(f, key) ensures k in KeysOf(g, key) {
      var i :| 0 <= i < |f| && key(f[i]) == k;
      assert g[i] == f[i];
    }
  }

  /** The rows whose key does not occur earlier, in order. */
  function Firsts<T, K(==)>(rows: seq<T>, key: T -> K): (r: seq<T>)
    ensures |r| <= |rows|
    ensures KeysOf(r, key) == KeysOf(rows, key)
    decreases |rows|
  {
    if rows == [] then []
    else
      var init := rows[..|rows| - 1];
      var f := Firsts(init, key);
      var x := rows[|rows| - 1];
      assert rows == init + [x];
      KeysOfAppend(init, x, key);
      if key(x) in KeysOf(f, key) then f
      else
        KeysOfAppend(f, x, key);
        f + [x]
  }

  /** One more row: it is kept exactly when its key is new. */
  lemma FirstsSnoc<T, K>(init: seq<T>, x: T, key: T -> K)
    ensures Firsts(init + [x], key) == if key(x) in KeysOf(init, key) then Firsts(init, key) else Firsts(init, key) + [x]
  {
    var rows := init + [x];
    assert rows[..|rows| - 1] == init && rows[|rows| - 1] == x;
  }

  /** No two kept rows share a key. */
  ghost predicate KeysDistinct<T, K>(rows: seq<T>, key: T -> K) {
    forall i, j :: 0 <= i < j < |rows| ==> key(rows[i]) != key(rows[j])
  }

  /** The row with key k that occurs first, if any. */
  function FirstWith<T, K(==)>(rows: seq<T>, key: T -> K, k: K): (r: T)
    requires k in KeysOf(rows, key)
    ensures key(r) == k && r in rows
  {
    if key(rows[0]) == k then rows[0]
    else
      assert k in KeysOf(rows[1..], key) by {
        var i :| 0 <= i < |rows| && key(rows[i]) == k;
        assert rows[1..][i - 1] == rows[i];
      }
      FirstWith(rows[1..], key, k)
  }

  /** The map built by the loop: each key to the first row that carries it. */
  function FirstMap<T, K(==)>(rows: seq<T>, key: T -> K): (m: map<K, T>)
    ensures m.Keys == KeysOf(rows, key)
  {
    map k | k in KeysOf(rows, key) :: FirstWith(rows, key, k)
  }

  // ------------------------------------------------------------------ properties
  /** FirstWith picks the row of key k at the smallest index. */
  lemma {:induction false} FirstWithIsFirst<T, K>(rows: seq<T>, key: T -> K, k: K) returns (i: nat)
    requires k in KeysOf(rows, key)
    ensures i < |rows| && rows[i] == FirstWith(rows, key, k)
    ensures forall j :: 0 <= j < i ==> key(rows[j]) != k
  {
    if key(rows[0]) == k {
      i := 0;
    } else {
      assert k in KeysOf(rows[1..], key) by {
        var m :| 0 <= m < |rows| && key(rows[m]) == k;
        assert rows[1..][m - 1] == rows[m];
      }
      var i' := FirstWithIsFirst(rows[1..], key, k);
      i := i' + 1;
      forall j | 0 <= j < i ensures key(rows[j]) != k {
        if j > 0 {
          assert rows[j] == rows[1..][j - 1];
        }
      }
    }
  }

  /** The kept rows have distinct keys. */
  lemma {:induction false} FirstsDistinct<T, K>(rows: seq<T>, key: T -> K)
    ensures KeysDistinct(Firsts(rows, key), key)
    decreases |rows|
  {
    if rows != [] {
      var f := Firsts(rows[..|rows| - 1], key);
      FirstsDistinct(rows[..|rows| - 1], key);
      var x := rows[|rows| - 1];
      if key(x) !in KeysOf(f, key) {
        var g := f + [x];
        forall i, j | 0 <= i < j < |g| ensures key(g[i]) != key(g[j]) {
          if j == |f| {
            assert key(g[i]) in KeysOf(f, key) by {
              assert g[i] == f[i];
            }
          } else {
            assert g[i] == f[i] && g[j] == f[j];
          }
        }
      }
    }
  }

  /** Each kept row is the first row of its key: it is the row FirstWith picks. */
  lemma {:induction false} FirstsAreFirst<T, K>(rows: seq<T>, key: T -> K, i: nat)
    requires i < |Firsts(rows, key)|
    ensures var f := Firsts(rows, key); key(f[i]) in KeysOf(rows, key) && f[i] == FirstWith(rows, key, key(f[i]))
    decreases |rows|
  {
    var init := rows[..|rows| - 1];
    var f := Firsts(init, key);
    var x := rows[|rows| - 1];
    if i < |f| {
      FirstsAreFirst(init, key, i);
      FirstWithPrefix(init, x, key, key(f[i]));
      assert init + [x] == rows;
      assert Firsts(rows, key)[i] == f[i];
    } else {
      assert Firsts(rows, key) == f + [x] && key(x) !in KeysOf(init, key);
      FirstWithLast(init, x, key);
      assert init + [x] == rows;
    }
  }

  lemma {:induction false} FirstWithPrefix<T, K>(init: seq<T>, x: T, key: T -> K, k: K)
    requires k in KeysOf(init, key)
    ensures k in KeysOf(init + [x], key) && FirstWith(init + [x], key, k) == FirstWith(init, key, k)
    decreases |init|
  {
    var s := init + [x];
    assert s[0] == init[0];
    assert key(init[0]) in KeysOf(s, key);
    if key(init[0]) != k {
      var i :| 0 <= i < |init| && key(init[i]) == k;
      assert init[1..][i - 1] == init[i];
      assert k in KeysOf(init[1..], key);
      FirstWithPrefix(init[1..], x, key, k);
      assert s[1..] == init[1..] + [x];
      assert s[i] == init[i];
    }
  }

  lemma {:induction false} FirstWithLast<T, K>(init: seq<T>, x: T, key: T -> K)
    requires key(x) !in KeysOf(init, key)
    ensures key(x) in KeysOf(init + [x], key) && FirstWith(init + [x], key, key(x)) == x
    decreases |init|
  {
    var s := init + [x];
    assert s[|init|] == x;
    if init != [] {
      assert key(init[0]) in KeysOf(init, key);
      assert s[0] == init[0];
      assert key(x) !in KeysOf(init[1..], key) by {
        forall i | 0 <= i < |init[1..]| ensures key(init[1..][i]) != key(x) {
          assert init[1..][i] == init[i + 1];
        }
      }
      FirstWithLast(init[1..], x, key);
      assert s[1..] == init[1..] + [x];
    }
  }

  /**
   * Over rows sorted by a descending score, the row FirstWith picks for a key has the highest
   * score of all the rows with that key.
   */
  lemma FirstWithMaximal<T, K>(rows: seq<T>, key: T -> K, score: T -> int, k: K)
    requires k in KeysOf(rows, key)
    requires forall i, j :: 0 <= i < j < |rows| ==> score(rows[i]) >= score(rows[j])
    ensures forall m :: 0 <= m < |rows| && key(rows[m]) == k ==> score(rows[m]) <= score(FirstWith(rows, key, k))
  {
    var j := FirstWithIsFirst(rows, key, k);
    assert forall m :: 0 <= m < |rows| && key(rows[m]) == k ==> j <= m;
  }

  /** One more row: the map gains its key, with that row, exactly when the key is new. */
  lemma FirstMapSnoc<T, K>(init: seq<T>, x: T, key: T -> K)
    ensures FirstMap(init + [x], key) ==
      if key(x) in FirstMap(init, key) then FirstMap(init, key) else FirstMap(init, key)[key(x) := x]
  {
    var m := FirstMap(init, key);
    var m' := FirstMap(init + [x], key);
    KeysOfAppend(init, x, key);
    forall k | k in m ensures m'[k] == m[k] {
      FirstWithPrefix(init, x, key, k);
    }
    if key(x) !in m {
      FirstWithLast(init, x, key);
    }
  }

  /** The loop `for (r of rows) if (!m.has(key(r))) m.set(key(r), r)`, keeping the insertion order. */
  method FillFirstWins<T, K(==)>(rows: seq<T>, key: T -> K) returns (order: seq<T>, m: map<K, T>)
    ensures order == Firsts(rows, key)
    ensures m == FirstMap(rows, key)
  {
    order := [];
    m := map[];
    var i := 0;
    while i < |rows|
      invariant 0 <= i <= |rows|
      invariant order == Firsts(rows[..i], key)
      invariant m == FirstMap(rows[..i], key)
    {
      var r := rows[i];
      FillStep(rows, i, key, order, m);
      if key(r) !in m {
        m := m[key(r) := r];
        order := order + [r];
      }
      i := i + 1;
    }
    TakeAll(rows);
  }

  /** One pass of the fill: the row is kept, and its key mapped to it, exactly when the key is new. */
  lemma FillStep<T, K>(rows: seq<T>, i: nat, key: T -> K, order: seq<T>, m: map<K, T>)
    requires i < |rows| && order == Firsts(rows[..i], key) && m == FirstMap(rows[..i], key)
    ensures key(rows[i]) in m ==> order == Firsts(rows[..i + 1], key) && m == FirstMap(rows[..i + 1], key)
    ensures key(rows[i]) !in m ==>
      order + [rows[i]] == Firsts(rows[..i + 1], key) && m[key(rows[i]) := rows[i]] == FirstMap(rows[..i + 1], key)
  {
    TakeSnoc(rows, i);
    FirstsSnoc(rows[..i], rows[i], key);
    FirstMapSnoc(rows[..i], rows[i], key);
    FirstMapKeys(rows[..i], key);
  }

  lemma FirstMapKeys<T, K>(rows: seq<T>, key: T -> K)
    ensures FirstMap(rows, key).Keys == KeysOf(Firsts(rows, key), key)
  {
  }
}
