/** The list operations the handlers perform on arrays inside documents and
    on whole collections: `$addToSet`-style append, `filter`, `findOne`
    followed by `deleteOne`, `countDocuments`, and a `sort({createdAt: -1})`. */
module Seqs {

  import opened Common

  /** No element occurs twice. */
  predicate Distinct<T(==,!new)>(s: seq<T>) {
    forall i, j :: 0 <= i < j < |s| ==> s[i] != s[j]
  }

  /** Appends x only when it is not already present
      (`if (!list.includes(x)) list.push(x)`, and MongoDB's `$addToSet`). */
  function AppendIfAbsent<T(==,!new)>(s: seq<T>, x: T): (r: seq<T>)
    ensures |s| <= |r| <= |s| + 1
    ensures r[..|s|] == s
    ensures x in r
    ensures forall y :: y in r <==> y in s || y == x
    ensures x in s ==> r == s
    ensures x !in s ==> r == s + [x]
    ensures Distinct(s) ==> Distinct(r)
  {
    if x in s then s else s + [x]
  }

  /** Adding the same element twice is the same as adding it once. */
  lemma {:induction false} AppendIfAbsentIdempotent<T(!new)>(s: seq<T>, x: T)
    ensures AppendIfAbsent(AppendIfAbsent(s, x), x) == AppendIfAbsent(s, x)
  {
  }

  /** `s.filter(keep)`: the elements of s satisfying keep, in their original order. */
  function Filter<T(==,!new)>(s: seq<T>, keep: T -> bool): (r: seq<T>)
    ensures |r| <= |s|
    ensures forall x :: x in r <==> x in s && keep(x)
  {
    if s == [] then [] else (if keep(s[0]) then [s[0]] else []) + Filter(s[1..], keep)
  }

  /** Filtering keeps every passing element as often as it occurred and drops the rest. */
  lemma {:induction false} FilterCounts<T(!new)>(s: seq<T>, keep: T -> bool)
    ensures forall x :: multiset(Filter(s, keep))[x] == if keep(x) then multiset(s)[x] else 0
  {
    if s != [] {
      assert s == [s[0]] + s[1..];
      FilterCounts(s[1..], keep);
    }
  }

  /** Filtering distributes over concatenation, which is what "keeps the order" means. */
  lemma {:induction false} FilterConcat<T(!new)>(a: seq<T>, b: seq<T>, keep: T -> bool)
    ensures Filter(a + b, keep) == Filter(a, keep) + Filter(b, keep)
  {
    if a != [] {
      var head := if keep(a[0]) then [a[0]] else [];
      calc {
        Filter(a + b, keep);
        { assert (a + b)[0] == a[0] && (a + b)[1..] == a[1..] + b; }
        head + Filter(a[1..] + b, keep);
        { FilterConcat(a[1..], b, keep); }
        head + (Filter(a[1..], keep) + Filter(b, keep));
        (head + Filter(a[1..], keep)) + Filter(b, keep);
      }
    } else {
      assert a + b == b;
    }
  }

  /** Filtering a sequence whose elements all pass leaves it unchanged. */
  lemma {:induction false} FilterKeepsAll<T(!new)>(s: seq<T>, keep: T -> bool)
    ensures (forall x :: x in s ==> keep(x)) ==> Filter(s, keep) == s
  {
    if s != [] {
      FilterKeepsAll(s[1..], keep);
    }
  }

  /** Filtering a sequence without duplicates gives one without duplicates. */
  lemma {:induction false} FilterDistinct<T(!new)>(s: seq<T>, keep: T -> bool)
    ensures Distinct(s) ==> Distinct(Filter(s, keep))
  {
    if s != [] && Distinct(s) {
      assert Distinct(s[1..]);
      FilterDistinct(s[1..], keep);
      assert s[0] !in s[1..];
    }
  }

  /** `list.filter(y => y !== x)`: every copy of x removed, the rest kept in order. */
  function RemoveAll<T(==,!new)>(s: seq<T>, x: T): (r: seq<T>)
    ensures x !in r
    ensures forall y :: y != x ==> multiset(r)[y] == multiset(s)[y]
    ensures x !in s ==> r == s
    ensures Distinct(s) ==> Distinct(r)
  {
    var keep := (y: T) => y != x;
    FilterKeepsAll(s, keep);
    FilterDistinct(s, keep);
    FilterCounts(s, keep);
    Filter(s, keep)
  }

  /** Removing an element that was just appended to a list lacking it gives the list back. */
  lemma {:induction false} RemoveAllUndoesAppend<T(!new)>(s: seq<T>, x: T)
    requires x !in s
    ensures RemoveAll(AppendIfAbsent(s, x), x) == s
  {
    var keep := (y: T) => y != x;
    FilterConcat(s, [x], keep);
    FilterKeepsAll(s, keep);
  }

  /** `findOne` over a collection in its natural order: the first position holding x. */
  function IndexOf<T(==,!new)>(s: seq<T>, x: T): (r: Option<nat>)
    ensures r.None? <==> x !in s
    ensures r.Some? ==> r.value < |s| && s[r.value] == x && x !in s[..r.value]
  {
    if s == [] then None
    else if s[0] == x then Some(0)
    else match IndexOf(s[1..], x)
      case None => None
      case Some(i) =>
        assert s[..i + 1] == [s[0]] + s[1..][..i];
        Some(i + 1)
  }

  /** `deleteOne` of the document at position i. */
  function RemoveAt<T(==,!new)>(s: seq<T>, i: nat): (r: seq<T>)
    requires i < |s|
    ensures |r| == |s| - 1
    ensures multiset(r) == multiset(s) - multiset{s[i]}
    ensures Distinct(s) ==> Distinct(r) && s[i] !in r
  {
    assert s == s[..i] + [s[i]] + s[i + 1..];
    RemoveAtDistinct(s, i);
    s[..i] + s[i + 1..]
  }

  lemma {:induction false} RemoveAtDistinct<T(!new)>(s: seq<T>, i: nat)
    requires i < |s|
    ensures Distinct(s) ==> Distinct(s[..i] + s[i + 1..]) && s[i] !in s[..i] + s[i + 1..]
  {
    var r := s[..i] + s[i + 1..];
    if Distinct(s) {
      forall a, b | 0 <= a < b < |r| ensures r[a] != r[b] {
        var a', b' := if a < i then a else a + 1, if b < i then b else b + 1;
        assert r[a] == s[a'] && r[b] == s[b'];
      }
      forall a | 0 <= a < |r| ensures r[a] != s[i] {
        assert r[a] == s[if a < i then a else a + 1];
      }
    }
  }

  /** In a list without duplicates, removing the first copy of x removes every copy. */
  lemma {:induction false} RemoveAtIsRemoveAll<T(!new)>(s: seq<T>, x: T)
    requires Distinct(s) && x in s
    ensures IndexOf(s, x).Some? && RemoveAt(s, IndexOf(s, x).value) == RemoveAll(s, x)
  {
    var i := IndexOf(s, x).value;
    assert s == s[..i] + [x] + s[i + 1..];
    assert x !in s[i + 1..] by {
      forall j | i + 1 <= j < |s| ensures s[j] != x {
        assert s[j] != s[i];
      }
    }
    RemoveAllSingle(s[..i], x, s[i + 1..]);
  }

  lemma {:induction false} RemoveAllSingle<T(!new)>(a: seq<T>, x: T, b: seq<T>)
    requires x !in a && x !in b
    ensures RemoveAll(a + [x] + b, x) == a + b
  {
    var keep := (y: T) => y != x;
    assert Filter([x], keep) == [] by {
      assert [x][1..] == [];
    }
    FilterKeepsAll(a, keep);
    FilterKeepsAll(b, keep);
    FilterConcat(a + [x], b, keep);
    FilterConcat(a, [x], keep);
  }

  /** Appending an element absent from s and then deleting its first occurrence gives s back. */
  lemma {:induction false} RemoveAtUndoesAppend<T(!new)>(s: seq<T>, x: T)
    requires x !in s
    ensures IndexOf(s + [x], x) == Some(|s|)
    ensures RemoveAt(s + [x], |s|) == s
  {
    assert (s + [x])[..|s|] == s;
  }

  /** Counting after an append: the new element adds one exactly when it passes. */
  lemma {:induction false} FilterAppendLength<T(!new)>(s: seq<T>, x: T, keep: T -> bool)
    ensures |Filter(s + [x], keep)| == |Filter(s, keep)| + (if keep(x) then 1 else 0)
  {
    FilterConcat(s, [x], keep);
  }

  /** Counting after a delete: the removed element takes away one exactly when it passed. */
  lemma {:induction false} FilterRemoveAtLength<T(!new)>(s: seq<T>, i: nat, keep: T -> bool)
    requires i < |s|
    ensures |Filter(RemoveAt(s, i), keep)| == |Filter(s, keep)| - (if keep(s[i]) then 1 else 0)
  {
    assert s == s[..i] + [s[i]] + s[i + 1..];
    FilterConcat(s[..i] + [s[i]], s[i + 1..], keep);
    FilterConcat(s[..i], [s[i]], keep);
    FilterConcat(s[..i], s[i + 1..], keep);
  }

  /** Newest first: stamps never increase along the sequence. */
  predicate NewestFirst<T>(s: seq<T>, stamp: T -> int) {
    forall i, j :: 0 <= i < j < |s| ==> stamp(s[i]) >= stamp(s[j])
  }

  /** How many leading elements of a newest-first sequence are at least as new as x. */
  function InsertPosition<T>(s: seq<T>, x: T, stamp: T -> int): (p: nat)
    ensures p <= |s|
    ensures forall i :: 0 <= i < p ==> stamp(s[i]) >= stamp(x)
    ensures p < |s| ==> stamp(s[p]) < stamp(x)
  {
    if s == [] || stamp(s[0]) < stamp(x) then 0 else 1 + InsertPosition(s[1..], x, stamp)
  }

  /** Inserts x into a newest-first sequence behind every element at least as new. */
  function InsertByStamp<T(==,!new)>(s: seq<T>, x: T, stamp: T -> int): (r: seq<T>)
    requires NewestFirst(s, stamp)
    ensures NewestFirst(r, stamp)
    ensures multiset(r) == multiset(s) + multiset{x}
  {
    var p := InsertPosition(s, x, stamp);
    assert s == s[..p] + s[p..];
    InsertKeepsOrder(s, x, stamp, p);
    s[..p] + [x] + s[p..]
  }

  lemma {:induction false} InsertKeepsOrder<T>(s: seq<T>, x: T, stamp: T -> int, p: nat)
    requires NewestFirst(s, stamp) && p == InsertPosition(s, x, stamp)
    ensures NewestFirst(s[..p] + [x] + s[p..], stamp)
  {
    var r := s[..p] + [x] + s[p..];
    forall i, j | 0 <= i < j < |r| ensures stamp(r[i]) >= stamp(r[j]) {
      if j < p {
        assert r[i] == s[i] && r[j] == s[j];
      } else if j == p {
        assert r[i] == s[i] && r[j] == x;
      } else if i < p {
        assert r[i] == s[i] && r[j] == s[j - 1];
      } else if i == p {
        assert r[i] == x && r[j] == s[j - 1];
        assert stamp(s[p]) >= stamp(s[j - 1]);
      } else {
        assert r[i] == s[i - 1] && r[j] == s[j - 1];
      }
    }
  }

  /** The database's `sort({createdAt: -1})` over the documents a query selected:
      every selected document exactly once, newest first. Documents with equal
      stamps may come in any order. */
  method SortNewestFirst<T(==,!new)>(pool: set<T>, stamp: T -> int) returns (r: seq<T>)
    ensures multiset(r) == multiset(pool)
    ensures NewestFirst(r, stamp)
  {
    r := [];
    var rest := pool;
    while rest != {}
      invariant rest <= pool
      invariant multiset(r) + multiset(rest) == multiset(pool)
      invariant NewestFirst(r, stamp)
      decreases |rest|
    {
      var x :| x in rest;
      assert multiset(rest) == multiset(rest - {x}) + multiset{x};
      r := InsertByStamp(r, x, stamp);
      rest := rest - {x};
    }
  }
}
