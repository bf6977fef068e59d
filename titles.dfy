/**
 * The stable sort by title the harvester applies to the catalog objects before harvesting them,
 * titles comparing as strings compare: code point by code point, a prefix first.
 */
module Titles {
  import opened Types

  /** `a` sorts no later than `b`. */
  predicate StrLe(a: string, b: string)
    decreases |a|
  {
    |a| == 0 || (|b| > 0 && (a[0] < b[0] || (a[0] == b[0] && StrLe(a[1..], b[1..]))))
  }

  lemma {:induction false} StrLeReflexive(a: string)
    ensures StrLe(a, a)
    decreases |a|
  {
    if |a| > 0 {
      StrLeReflexive(a[1..]);
    }
  }

  lemma {:induction false} StrLeTotal(a: string, b: string)
    ensures StrLe(a, b) || StrLe(b, a)
    decreases |a|
  {
    if |a| > 0 && |b| > 0 && a[0] == b[0] {
      StrLeTotal(a[1..], b[1..]);
    }
  }

  lemma {:induction false} StrLeTransitive(a: string, b: string, c: string)
    requires StrLe(a, b) && StrLe(b, c)
    ensures StrLe(a, c)
    decreases |a|
  {
    if |a| > 0 && a[0] == b[0] && b[0] == c[0] {
      StrLeTransitive(a[1..], b[1..], c[1..]);
    }
  }

  lemma {:induction false} StrLeAntisymmetric(a: string, b: string)
    requires StrLe(a, b) && StrLe(b, a)
    ensures a == b
    decreases |a|
  {
    if |a| > 0 {
      StrLeAntisymmetric(a[1..], b[1..]);
      assert a == [a[0]] + a[1..] && b == [b[0]] + b[1..];
    }
  }

  predicate SortedBy<T>(s: seq<T>, key: T -> string)
  {
    forall i, j :: 0 <= i < j < |s| ==> StrLe(key(s[i]), key(s[j]))
  }

  /** Puts `x` before the first element whose key is not smaller than its own. */
  function Insert<T>(x: T, s: seq<T>, key: T -> string): (r: seq<T>)
    ensures multiset(r) == multiset(s) + multiset{x}
    ensures SortedBy(s, key) ==> SortedBy(r, key)
    decreases |s|
  {
    if |s| == 0 || StrLe(key(x), key(s[0])) then
      assert SortedBy(s, key) ==> SortedBy([x] + s, key) by {
        if SortedBy(s, key) && |s| > 0 {
          forall j | 0 < j < |s| ensures StrLe(key(x), key(s[j])) {
            StrLeTransitive(key(x), key(s[0]), key(s[j]));
          }
        }
      }
      [x] + s
    else
      var rest := Insert(x, s[1..], key);
      assert s == [s[0]] + s[1..];
      assert SortedBy(s, key) ==> SortedBy([s[0]] + rest, key) by {
        if SortedBy(s, key) {
          StrLeTotal(key(x), key(s[0]));
          forall j | 0 <= j < |rest| ensures StrLe(key(s[0]), key(rest[j])) {
            assert rest[j] in multiset(rest);
            assert rest[j] == x || rest[j] in multiset(s[1..]);
            if rest[j] != x {
              var m :| 0 <= m < |s[1..]| && s[1..][m] == rest[j];
              assert s[m + 1] == rest[j];
            }
          }
        }
      }
      [s[0]] + rest
  }

  /** `sorted(s, key=key)`: an insertion sort, stable. */
  function SortBy<T>(s: seq<T>, key: T -> string): (r: seq<T>)
    ensures multiset(r) == multiset(s)
    ensures SortedBy(r, key)
    decreases |s|
  {
    if |s| == 0 then []
    else
      assert s == [s[0]] + s[1..];
      Insert(s[0], SortBy(s[1..], key), key)
  }

  lemma SortedTail<T>(s: seq<T>, key: T -> string)
    requires |s| > 0 && SortedBy(s, key)
    ensures SortedBy(s[1..], key)
  {
    forall i, j | 0 <= i < j < |s[1..]| ensures StrLe(key(s[1..][i]), key(s[1..][j])) {
      assert s[1..][i] == s[i + 1] && s[1..][j] == s[j + 1];
    }
  }

  /** Among the elements of one key, inserting an element of that key puts it first. */
  lemma {:induction false} InsertKeepsOrderWithinKey<T(!new)>(x: T, s: seq<T>, key: T -> string, k: string)
    requires SortedBy(s, key)
    ensures Filter(Insert(x, s, key), (y: T) => key(y) == k)
         == (if key(x) == k then [x] else []) + Filter(s, (y: T) => key(y) == k)
    decreases |s|
  {
    var p := (y: T) => key(y) == k;
    var mine: seq<T> := if key(x) == k then [x] else [];
    if |s| == 0 || StrLe(key(x), key(s[0])) {
      assert Insert(x, s, key) == [x] + s;
      FilterAppend([x], s, p);
    } else {
      var rest := Insert(x, s[1..], key);
      SortedTail(s, key);
      InsertKeepsOrderWithinKey(x, s[1..], key, k);
      var head, tail := Filter([s[0]], p), Filter(s[1..], p);
      assert head + (mine + tail) == mine + (head + tail) by {
        if key(x) == k {
          StrLeReflexive(k);
          assert head == [];
          assert head + (mine + tail) == mine + tail;
        } else {
          assert mine + (head + tail) == head + tail;
        }
      }
      calc {
        Filter(Insert(x, s, key), p);
        { assert Insert(x, s, key) == [s[0]] + rest; FilterAppend([s[0]], rest, p); }
        head + Filter(rest, p);
        head + (mine + tail);
        mine + (head + tail);
        { assert s == [s[0]] + s[1..]; FilterAppend([s[0]], s[1..], p); }
        mine + Filter(s, p);
      }
    }
  }

  /** The sort is stable: the elements of each key keep their relative order. */
  lemma {:induction false} SortByIsStable<T(!new)>(s: seq<T>, key: T -> string, k: string)
    ensures Filter(SortBy(s, key), (y: T) => key(y) == k) == Filter(s, (y: T) => key(y) == k)
    decreases |s|
  {
    if |s| > 0 {
      var p := (y: T) => key(y) == k;
      SortByIsStable(s[1..], key, k);
      InsertKeepsOrderWithinKey(s[0], SortBy(s[1..], key), key, k);
      assert s == [s[0]] + s[1..];
      FilterAppend([s[0]], s[1..], p);
    }
  }
}
