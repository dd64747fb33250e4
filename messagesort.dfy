/**
 * `asort` on the fortune array: the entries are ordered by message, each id
 * staying with its message, and entries with equal messages keep their
 * relative order (PHP 8 sorts stably).
 */
module MessageSort {
  import opened Store
  import opened KeyPair

  /**
   * Messages are compared character by character by code point, a shorter
   * message before any message it is a prefix of. On UTF-8 text this is the
   * byte order `strcmp` uses.
   */
  predicate Below(a: string, b: string) {
    a == [] || (b != [] && (a[0] < b[0] || (a[0] == b[0] && Below(a[1..], b[1..]))))
  }

  lemma {:induction false} BelowReflexive(a: string)
    ensures Below(a, a)
  {
    if a != [] {
      BelowReflexive(a[1..]);
    }
  }

  lemma {:induction false} BelowTotal(a: string, b: string)
    ensures Below(a, b) || Below(b, a)
  {
    if a != [] && b != [] && a[0] == b[0] {
      BelowTotal(a[1..], b[1..]);
    }
  }

  lemma {:induction false} BelowTransitive(a: string, b: string, c: string)
    requires Below(a, b) && Below(b, c)
    ensures Below(a, c)
  {
    if a != [] && b != [] && c != [] && a[0] == b[0] == c[0] {
      BelowTransitive(a[1..], b[1..], c[1..]);
    }
  }

  lemma {:induction false} BelowAntisymmetric(a: string, b: string)
    requires Below(a, b) && Below(b, a)
    ensures a == b
  {
    if a != [] && b != [] {
      BelowAntisymmetric(a[1..], b[1..]);
      assert a == [a[0]] + a[1..] && b == [b[0]] + b[1..];
    }
  }

  /** Messages in non-decreasing order. */
  predicate Sorted(s: seq<Fortune>) {
    forall i, j :: 0 <= i < j < |s| ==> Below(s[i].message, s[j].message)
  }

  /**
   * Places `x` before the first entry whose message is at least `x`'s, so `x`
   * precedes the entries with an equal message.
   */
  function Insert(x: Fortune, s: seq<Fortune>): (r: seq<Fortune>)
    ensures multiset(r) == multiset(s) + multiset{x}
  {
    if s == [] || Below(x.message, s[0].message) then [x] + s
    else
      assert s == [s[0]] + s[1..];
      [s[0]] + Insert(x, s[1..])
  }

  /** The entries of `s`, ordered by message; stable. */
  function SortByMessage(s: seq<Fortune>): (r: seq<Fortune>)
    ensures multiset(r) == multiset(s)
  {
    if s == [] then []
    else
      assert s == [s[0]] + s[1..];
      Insert(s[0], SortByMessage(s[1..]))
  }

  lemma {:induction false} InsertSorted(x: Fortune, s: seq<Fortune>)
    requires Sorted(s)
    ensures Sorted(Insert(x, s))
  {
    if s == [] || Below(x.message, s[0].message) {
      if s != [] {
        forall j | 0 <= j < |s| ensures Below(x.message, s[j].message) {
          if j > 0 {
            BelowTransitive(x.message, s[0].message, s[j].message);
          }
        }
      }
    } else {
      BelowTotal(x.message, s[0].message);
      var t := Insert(x, s[1..]);
      InsertSorted(x, s[1..]);
      forall k | 0 <= k < |t| ensures Below(s[0].message, t[k].message) {
        assert t[k] in multiset(t);
        if t[k] != x {
          assert t[k] in multiset(s[1..]);
          var j :| 0 <= j < |s[1..]| && s[1..][j] == t[k];
          assert s[j + 1] == t[k];
        }
      }
    }
  }

  lemma {:induction false} SortSorted(s: seq<Fortune>)
    ensures Sorted(SortByMessage(s))
  {
    if s != [] {
      SortSorted(s[1..]);
      InsertSorted(s[0], SortByMessage(s[1..]));
    }
  }

  /** Sorting neither adds nor drops an entry. */
  lemma {:induction false} SortKeepsEntries(s: seq<Fortune>)
    ensures forall e :: e in SortByMessage(s) <==> e in s
    ensures |SortByMessage(s)| == |s|
  {
    var r := SortByMessage(s);
    assert |r| == |multiset(r)| == |multiset(s)| == |s|;
    forall e ensures e in r <==> e in s {
      assert e in r <==> e in multiset(r);
      assert e in s <==> e in multiset(s);
    }
  }

  lemma {:induction false} InsertUnique(x: Fortune, s: seq<Fortune>)
    requires Unique(s)
    requires forall i :: 0 <= i < |s| ==> s[i].id != x.id
    ensures Unique(Insert(x, s))
  {
    if s != [] && !Below(x.message, s[0].message) {
      var t := Insert(x, s[1..]);
      InsertUnique(x, s[1..]);
      forall k | 0 <= k < |t| ensures t[k].id != s[0].id {
        assert t[k] in multiset(t);
        if t[k] != x {
          assert t[k] in multiset(s[1..]);
          var j :| 0 <= j < |s[1..]| && s[1..][j] == t[k];
          assert s[j + 1] == t[k];
        }
      }
    }
  }

  /** Sorting a key-unique array leaves it key-unique: each id still appears once. */
  lemma {:induction false} SortUnique(s: seq<Fortune>)
    requires Unique(s)
    ensures Unique(SortByMessage(s))
  {
    if s != [] {
      var t := SortByMessage(s[1..]);
      SortUnique(s[1..]);
      SortKeepsEntries(s[1..]);
      forall i | 0 <= i < |t| ensures t[i].id != s[0].id {
        assert t[i] in s[1..];
      }
      InsertUnique(s[0], t);
    }
  }

  /** The entries of `s` carrying message `m`, in their order in `s`. */
  function WithMessage(s: seq<Fortune>, m: string): seq<Fortune> {
    if s == [] then []
    else if s[0].message == m then [s[0]] + WithMessage(s[1..], m)
    else WithMessage(s[1..], m)
  }

  lemma {:induction false} InsertStable(x: Fortune, s: seq<Fortune>, m: string)
    ensures WithMessage(Insert(x, s), m)
         == if x.message == m then [x] + WithMessage(s, m) else WithMessage(s, m)
  {
    if s == [] || Below(x.message, s[0].message) {
      assert ([x] + s)[1..] == s;
    } else {
      InsertStable(x, s[1..], m);
      var r := Insert(x, s);
      assert r[0] == s[0] && r[1..] == Insert(x, s[1..]);
      if s[0].message == m {
        BelowReflexive(m);
      }
    }
  }

  /**
   * Stability: for every message, the entries carrying it appear in the
   * sorted array in the order they had before sorting.
   */
  lemma {:induction false} SortStable(s: seq<Fortune>, m: string)
    ensures WithMessage(SortByMessage(s), m) == WithMessage(s, m)
  {
    if s != [] {
      SortStable(s[1..], m);
      InsertStable(s[0], SortByMessage(s[1..]), m);
    }
  }
}
