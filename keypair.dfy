/**
 * The PHP array that `fetchAll(PDO::FETCH_KEY_PAIR)` builds from the Fortune
 * rows: an ordered map from id to message, written as the sequence of its
 * entries in iteration order. A PHP array never holds a key twice.
 */
module KeyPair {
  import opened Store

  /** No two entries share an id. */
  predicate Unique(a: seq<Fortune>) {
    forall i, j :: 0 <= i < j < |a| ==> a[i].id != a[j].id
  }

  predicate HasKey(a: seq<Fortune>, k: int) {
    exists i :: 0 <= i < |a| && a[i].id == k
  }

  /**
   * `$a[k] = v`: an existing key keeps its position and takes the new value;
   * a new key is appended at the end.
   */
  function Put(a: seq<Fortune>, k: int, v: string): (r: seq<Fortune>)
    requires Unique(a)
    ensures Unique(r)
    ensures |r| == if HasKey(a, k) then |a| else |a| + 1
    ensures forall i :: 0 <= i < |a| ==> r[i] == if a[i].id == k then Fortune(k, v) else a[i]
    ensures !HasKey(a, k) ==> r == a + [Fortune(k, v)]
    ensures forall e :: e in r <==> e == Fortune(k, v) || (e in a && e.id != k)
  {
    if a == [] then [Fortune(k, v)]
    else if a[0].id == k then [Fortune(k, v)] + a[1..]
    else
      assert HasKey(a, k) <==> HasKey(a[1..], k) by {
        if HasKey(a, k) {
          var i :| 0 <= i < |a| && a[i].id == k;
          assert a[1..][i - 1].id == k;
        }
      }
      [a[0]] + Put(a[1..], k, v)
  }

  /** The id => message map that assigning `rows` in order produces: the last row with an id wins. */
  function AsMap(rows: seq<Fortune>): (m: map<int, string>)
    ensures forall k :: k in m <==> HasKey(rows, k)
  {
    if rows == [] then map[]
    else
      var last := rows[|rows| - 1];
      assert forall k :: HasKey(rows, k) <==> HasKey(rows[..|rows| - 1], k) || k == last.id by {
        forall k | HasKey(rows, k) ensures HasKey(rows[..|rows| - 1], k) || k == last.id {
          var i :| 0 <= i < |rows| && rows[i].id == k;
          if i < |rows| - 1 {
            assert rows[..|rows| - 1][i].id == k;
          }
        }
      }
      AsMap(rows[..|rows| - 1])[last.id := last.message]
  }

  /**
   * `fetchAll(PDO::FETCH_KEY_PAIR)`: every row is assigned in turn, so the
   * array holds exactly the entries of the last-one-wins map.
   */
  function KeyPairs(rows: seq<Fortune>): (a: seq<Fortune>)
    ensures Unique(a)
    ensures forall e :: e in a <==> e.id in AsMap(rows) && AsMap(rows)[e.id] == e.message
  {
    if rows == [] then []
    else
      var last := rows[|rows| - 1];
      Put(KeyPairs(rows[..|rows| - 1]), last.id, last.message)
  }

  /** Dropping the last entry of a key-unique sequence leaves it key-unique and without that entry's key. */
  lemma UniqueInit(rows: seq<Fortune>)
    requires Unique(rows) && rows != []
    ensures Unique(rows[..|rows| - 1])
    ensures !HasKey(rows[..|rows| - 1], rows[|rows| - 1].id)
  {
    var init := rows[..|rows| - 1];
    forall i, j | 0 <= i < j < |init| ensures init[i].id != init[j].id {
      assert init[i] == rows[i] && init[j] == rows[j];
    }
    forall i | 0 <= i < |init| ensures init[i].id != rows[|rows| - 1].id {
      assert init[i] == rows[i];
    }
  }

  /** Rows whose ids are already distinct come out as they were fetched, in the same order. */
  lemma {:induction false} KeyPairsOfDistinctRows(rows: seq<Fortune>)
    requires Unique(rows)
    ensures KeyPairs(rows) == rows
  {
    if rows != [] {
      var init := rows[..|rows| - 1];
      var last := rows[|rows| - 1];
      UniqueInit(rows);
      KeyPairsOfDistinctRows(init);
      calc {
        KeyPairs(rows);
        Put(KeyPairs(init), last.id, last.message);
        Put(init, last.id, last.message);
        init + [last];
        rows;
      }
    }
  }
}
