/** Sorting by a string key, as sort.Strings and sort.Slice do. */
module Sorting {
  import opened Text

  function InsertBy<T>(key: T -> string, x: T, xs: seq<T>): seq<T> {
    if xs == [] || !Less(key(xs[0]), key(x)) then [x] + xs
    else [xs[0]] + InsertBy(key, x, xs[1..])
  }

  function SortBy<T>(key: T -> string, xs: seq<T>): seq<T> {
    if xs == [] then [] else InsertBy(key, xs[0], SortBy(key, xs[1..]))
  }

  ghost predicate Ascending<T>(key: T -> string, xs: seq<T>) {
    forall i, j :: 0 <= i < j < |xs| ==> !Less(key(xs[j]), key(xs[i]))
  }

  ghost predicate StrictlyAscending<T>(key: T -> string, xs: seq<T>) {
    forall i, j :: 0 <= i < j < |xs| ==> Before(key(xs[i]), key(xs[j]))
  }

  lemma {:induction false} InsertByKeeps<T>(key: T -> string, x: T, xs: seq<T>)
    requires Ascending(key, xs)
    ensures multiset(InsertBy(key, x, xs)) == multiset{x} + multiset(xs)
    ensures Ascending(key, InsertBy(key, x, xs))
  {
    if xs == [] {
    } else if !Less(key(xs[0]), key(x)) {
      forall j | 0 <= j < |xs| ensures !Less(key(xs[j]), key(x)) {
        if Less(key(xs[j]), key(x)) {
          LessTotal(key(xs[0]), key(xs[j]));
          if Less(key(xs[0]), key(xs[j])) {
            LessTransitive(key(xs[0]), key(xs[j]), key(x));
          }
        }
      }
    } else {
      InsertByKeeps(key, x, xs[1..]);
      var rest := InsertBy(key, x, xs[1..]);
      assert xs == [xs[0]] + xs[1..];
      forall j | 0 <= j < |rest| ensures !Less(key(rest[j]), key(xs[0])) {
        assert rest[j] in multiset(rest);
        if rest[j] == x {
          if Less(key(x), key(xs[0])) {
            LessTransitive(key(x), key(xs[0]), key(x));
            LessIrreflexive(key(x));
          }
        } else {
          assert rest[j] in xs[1..];
        }
      }
    }
  }

  /** The result is an ascending rearrangement of the input. */
  lemma {:induction false} SortBySorts<T>(key: T -> string, xs: seq<T>)
    ensures multiset(SortBy(key, xs)) == multiset(xs)
    ensures Ascending(key, SortBy(key, xs))
  {
    if xs != [] {
      SortBySorts(key, xs[1..]);
      InsertByKeeps(key, xs[0], SortBy(key, xs[1..]));
      assert xs == [xs[0]] + xs[1..];
    }
  }

  ghost predicate Distinct<T>(xs: seq<T>) {
    forall i, j :: 0 <= i < j < |xs| ==> xs[i] != xs[j]
  }

  ghost predicate KeysDistinct<T>(key: T -> string, xs: seq<T>) {
    forall i, j :: 0 <= i < j < |xs| ==> key(xs[i]) != key(xs[j])
  }

  // An iteration order of a map: each of its keys once.
  ghost predicate Enumerates(order: seq<string>, keys: set<string>) {
    Distinct(order) && forall k :: k in order <==> k in keys
  }

  lemma {:induction false} SmallerSet<T>(a: set<T>, b: set<T>)
    requires a < b
    ensures |a| < |b|
  {
    assert b == a + (b - a) && b - a != {};
  }

  lemma {:induction false} EnumerationOf(keys: set<string>) returns (order: seq<string>)
    ensures Enumerates(order, keys)
    decreases |keys|
  {
    if k :| k in keys {
      var rest := EnumerationOf(keys - {k});
      order := [k] + rest;
    } else {
      order := [];
    }
  }

  lemma {:induction false} DistinctCounts<T>(xs: seq<T>, x: T)
    requires Distinct(xs)
    ensures multiset(xs)[x] == if x in xs then 1 else 0
  {
    if xs != [] {
      assert xs == [xs[0]] + xs[1..];
      DistinctCounts(xs[1..], x);
      assert xs[0] !in xs[1..];
    }
  }

  lemma {:induction false} CountsDistinct<T>(xs: seq<T>, i: int, j: int)
    requires 0 <= i < j < |xs| && xs[i] == xs[j]
    ensures multiset(xs)[xs[i]] >= 2
  {
    assert xs == xs[..j] + xs[j..];
    assert xs[i] in xs[..j] && xs[i] in xs[j..];
    assert multiset(xs[..j])[xs[i]] >= 1 && multiset(xs[j..])[xs[i]] >= 1;
  }

  /** Elements with distinct keys come out strictly ascending. */
  lemma {:induction false} SortByStrict<T>(key: T -> string, xs: seq<T>)
    requires KeysDistinct(key, xs)
    ensures StrictlyAscending(key, SortBy(key, xs))
    ensures multiset(SortBy(key, xs)) == multiset(xs)
  {
    SortBySorts(key, xs);
    var ys := SortBy(key, xs);
    forall i, j | 0 <= i < j < |ys| ensures Before(key(ys[i]), key(ys[j])) {
      hide Before;
      LessExactly(key(ys[i]), key(ys[j]));
      LessTotal(key(ys[i]), key(ys[j]));
      if key(ys[i]) == key(ys[j]) {
        assert ys[i] in multiset(xs) && ys[j] in multiset(xs);
        var a :| 0 <= a < |xs| && xs[a] == ys[i];
        var b :| 0 <= b < |xs| && xs[b] == ys[j];
        if a == b {
          CountsDistinct(ys, i, j);
          assert Distinct(xs);
          DistinctCounts(xs, ys[i]);
        }
      }
    }
  }

  /** A strictly ascending sequence is determined by its elements. */
  lemma {:induction false} StrictlyAscendingUnique<T>(key: T -> string, xs: seq<T>, ys: seq<T>)
    requires StrictlyAscending(key, xs) && StrictlyAscending(key, ys)
    requires forall x :: x in xs <==> x in ys
    ensures xs == ys
  {
    assert ys != [] ==> ys[0] in xs;
    assert xs != [] ==> xs[0] in ys;
    if xs != [] {
      HeadsAgree(key, xs, ys);
      forall x | x in xs[1..] ensures x in ys[1..] {
        TailMember(key, xs, ys, x);
      }
      forall x | x in ys[1..] ensures x in xs[1..] {
        TailMember(key, ys, xs, x);
      }
      StrictlyAscendingUnique(key, xs[1..], ys[1..]);
      assert xs == [xs[0]] + xs[1..] && ys == [ys[0]] + ys[1..];
    }
  }

  lemma {:induction false} HeadsAgree<T>(key: T -> string, xs: seq<T>, ys: seq<T>)
    requires StrictlyAscending(key, xs) && StrictlyAscending(key, ys)
    requires xs != [] && ys != [] && xs[0] in ys && ys[0] in xs
    ensures xs[0] == ys[0]
  {
    hide Before;
    if xs[0] != ys[0] {
      assert Before(key(ys[0]), key(xs[0])) && Before(key(xs[0]), key(ys[0]));
      LessExactly(key(ys[0]), key(xs[0]));
      LessExactly(key(xs[0]), key(ys[0]));
      LessTransitive(key(xs[0]), key(ys[0]), key(xs[0]));
      LessIrreflexive(key(xs[0]));
    }
  }

  lemma {:induction false} TailMember<T>(key: T -> string, xs: seq<T>, ys: seq<T>, x: T)
    requires StrictlyAscending(key, xs) && xs != [] && ys != [] && xs[0] == ys[0]
    requires x in xs[1..] && x in ys
    ensures x in ys[1..]
  {
    var i :| 1 <= i < |xs| && xs[i] == x;
    hide Before;
    assert Before(key(xs[0]), key(x));
    LessExactly(key(xs[0]), key(x));
    LessIrreflexive(key(x));
    var j :| 0 <= j < |ys| && ys[j] == x;
    assert j != 0;
    assert ys[1..][j - 1] == x;
  }
}
