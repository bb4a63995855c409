/**
 * The read side of a MongoDB collection as the routes use it:
 * `find(filter).sort({ key: -1 }).limit(n)` over the documents of one
 * collection, kept in insertion order.
 */
module Query {
  import opened Wrappers

  /** The documents that satisfy a filter, in their stored order. */
  function Filter<T>(s: seq<T>, keep: T -> bool): (r: seq<T>)
    ensures |r| <= |s|
  {
    if s == [] then []
    else
      assert s == [s[0]] + s[1..];
      (if keep(s[0]) then [s[0]] else []) + Filter(s[1..], keep)
  }

  /** The filtered documents are exactly the stored ones that pass. */
  lemma {:induction false} FilterMembers<T>(s: seq<T>, keep: T -> bool)
    ensures forall i :: 0 <= i < |Filter(s, keep)| ==> Filter(s, keep)[i] in s && keep(Filter(s, keep)[i])
    ensures forall i :: 0 <= i < |s| && keep(s[i]) ==> s[i] in Filter(s, keep)
  {
    if s != [] {
      FilterMembers(s[1..], keep);
      var head := if keep(s[0]) then [s[0]] else [];
      assert Filter(s, keep) == head + Filter(s[1..], keep);
      forall i | 0 <= i < |s| && keep(s[i]) ensures s[i] in Filter(s, keep) {
        if i > 0 {
          assert s[i] == s[1..][i - 1];
        }
      }
    }
  }

  /** A filtered read holds each stored document at most as often as the collection does. */
  lemma {:induction false} FilterSubMultiset<T>(s: seq<T>, keep: T -> bool)
    ensures multiset(Filter(s, keep)) <= multiset(s)
  {
    if s != [] {
      FilterSubMultiset(s[1..], keep);
      assert s == [s[0]] + s[1..];
    }
  }

  lemma {:induction false} FilterAppend<T>(a: seq<T>, b: seq<T>, keep: T -> bool)
    ensures Filter(a + b, keep) == Filter(a, keep) + Filter(b, keep)
  {
    if a != [] {
      FilterAppend(a[1..], b, keep);
      assert (a + b)[1..] == a[1..] + b;
    } else {
      assert a + b == b;
    }
  }

  /** Filtering a sequence extended by one element. */
  lemma FilterSnoc<T>(s: seq<T>, x: T, keep: T -> bool)
    ensures Filter(s + [x], keep) == Filter(s, keep) + (if keep(x) then [x] else [])
  {
    FilterAppend(s, [x], keep);
    assert Filter([x], keep) == (if keep(x) then [x] else []) + Filter([x][1..], keep);
  }

  /** A filter every element passes keeps the sequence as it is. */
  lemma {:induction false} FilterAll<T>(s: seq<T>, keep: T -> bool)
    requires forall i :: 0 <= i < |s| ==> keep(s[i])
    ensures Filter(s, keep) == s
  {
    if s != [] {
      FilterAll(s[1..], keep);
      assert s == [s[0]] + s[1..];
    }
  }

  /** A filter no element passes keeps nothing. */
  lemma {:induction false} FilterNone<T>(s: seq<T>, keep: T -> bool)
    requires forall i :: 0 <= i < |s| ==> !keep(s[i])
    ensures Filter(s, keep) == []
  {
    if s != [] {
      FilterNone(s[1..], keep);
    }
  }

  ghost predicate SortedDesc<T>(s: seq<T>, key: T -> int) {
    forall i, j :: 0 <= i < j < |s| ==> key(s[i]) >= key(s[j])
  }

  /** The position of the first element whose key is not larger than `key(x)`. */
  function InsertPos<T>(x: T, s: seq<T>, key: T -> int): (p: nat)
    ensures p <= |s|
    ensures forall i :: 0 <= i < p ==> key(s[i]) > key(x)
    ensures p < |s| ==> key(s[p]) <= key(x)
  {
    if s == [] || key(s[0]) <= key(x) then 0 else 1 + InsertPos(x, s[1..], key)
  }

  /** Inserts `x` before the first element whose key is not larger than its own. */
  function InsertDesc<T>(x: T, s: seq<T>, key: T -> int): (r: seq<T>)
    requires SortedDesc(s, key)
    ensures SortedDesc(r, key)
    ensures multiset(r) == multiset(s) + multiset{x}
    ensures |r| == |s| + 1
  {
    var p := InsertPos(x, s, key);
    InsertAtSorted(x, s, key, p);
    assert s == s[..p] + s[p..];
    s[..p] + [x] + s[p..]
  }

  /** Inserting at the position `InsertPos` finds keeps the order. */
  lemma InsertAtSorted<T>(x: T, s: seq<T>, key: T -> int, p: nat)
    requires SortedDesc(s, key) && p == InsertPos(x, s, key)
    ensures SortedDesc(s[..p] + [x] + s[p..], key)
  {
    var r := s[..p] + [x] + s[p..];
    forall i | p <= i < |s| ensures key(s[i]) <= key(x) {
      assert key(s[i]) <= key(s[p]);
    }
    forall i, j | 0 <= i < j < |r| ensures key(r[i]) >= key(r[j]) {
      var si := if i < p then s[i] else if i == p then x else s[i - 1];
      var sj := if j < p then s[j] else if j == p then x else s[j - 1];
      assert r[i] == si && r[j] == sj;
    }
  }

  /**
   * `sort({ key: -1 })`: the documents ordered by decreasing key. Documents
   * with equal keys keep their stored order (the model's choice; MongoDB
   * leaves it open).
   */
  function SortDesc<T>(s: seq<T>, key: T -> int): (r: seq<T>)
    ensures SortedDesc(r, key)
    ensures multiset(r) == multiset(s)
    ensures |r| == |s|
  {
    if s == [] then []
    else
      assert s == [s[0]] + s[1..];
      InsertDesc(s[0], SortDesc(s[1..], key), key)
  }

  /** `cursor.limit(n)`: zero means no limit, a negative `n` limits to `|n|`. */
  function Limit<T>(s: seq<T>, n: int): (r: seq<T>)
    ensures n == 0 ==> r == s
    ensures n != 0 ==> |r| == Min(|s|, Abs(n))
    ensures r == s[..|r|]
  {
    if n == 0 then s
    else s[..Min(|s|, Abs(n))]
  }

  function Abs(n: int): nat {
    if n < 0 then -n else n
  }

  function Min(a: nat, b: nat): nat {
    if a < b then a else b
  }

  /** `find(filter).sort({ key: -1 }).limit(n)`. */
  function Newest<T>(s: seq<T>, keep: T -> bool, key: T -> int, n: int): seq<T> {
    Limit(SortDesc(Filter(s, keep), key), n)
  }

  /**
   * What a `find / sort / limit` read returns: only matching documents, none
   * more often than it is stored, newest first, at most `n` of them (all
   * matches when `n` is zero), and no match it leaves out is newer than one
   * it returns.
   */
  lemma NewestSpec<T>(s: seq<T>, keep: T -> bool, key: T -> int, n: int)
    ensures var r := Newest(s, keep, key, n);
      && (forall i :: 0 <= i < |r| ==> r[i] in s && keep(r[i]))
      && SortedDesc(r, key)
      && |r| == (if n == 0 then |Filter(s, keep)| else Min(|Filter(s, keep)|, Abs(n)))
      && multiset(r) <= multiset(Filter(s, keep)) <= multiset(s)
      && NoneNewerLeftOut(s, keep, key, r)
  {
    var sorted := SortDesc(Filter(s, keep), key);
    var r := Newest(s, keep, key, n);
    assert sorted == r + sorted[|r|..];
    FilterSubMultiset(s, keep);
    NewestMatch(s, keep, key, n);
    forall j, i | 0 <= j < |s| && keep(s[j]) && s[j] !in r && 0 <= i < |r| ensures key(s[j]) <= key(r[i]) {
      NewestAreNewest(s, keep, key, n, i, j);
    }
  }

  /** The part of `NewestSpec` about each returned document, the order and the count. */
  lemma NewestMatch<T>(s: seq<T>, keep: T -> bool, key: T -> int, n: int)
    ensures var r := Newest(s, keep, key, n);
      && (forall i :: 0 <= i < |r| ==> r[i] in s && keep(r[i]))
      && SortedDesc(r, key)
      && |r| == (if n == 0 then |Filter(s, keep)| else Min(|Filter(s, keep)|, Abs(n)))
  {
    var sorted := SortDesc(Filter(s, keep), key);
    var r := Newest(s, keep, key, n);
    FilterMembers(s, keep);
    forall i | 0 <= i < |r| ensures r[i] in s && keep(r[i]) {
      assert r[i] == sorted[i];
      assert sorted[i] in multiset(Filter(s, keep));
      var k :| 0 <= k < |Filter(s, keep)| && Filter(s, keep)[k] == sorted[i];
    }
  }

  /** No matching document missing from `r` has a larger key than one in `r`. */
  ghost predicate NoneNewerLeftOut<T>(s: seq<T>, keep: T -> bool, key: T -> int, r: seq<T>) {
    forall j, i :: 0 <= j < |s| && keep(s[j]) && s[j] !in r && 0 <= i < |r| ==> key(s[j]) <= key(r[i])
  }

  /** No matching document left out of a `find / sort / limit` read is newer than one returned. */
  lemma NewestAreNewest<T>(s: seq<T>, keep: T -> bool, key: T -> int, n: int, i: nat, j: nat)
    requires i < |Newest(s, keep, key, n)| && j < |s| && keep(s[j])
    requires s[j] !in Newest(s, keep, key, n)
    ensures key(s[j]) <= key(Newest(s, keep, key, n)[i])
  {
    var sorted := SortDesc(Filter(s, keep), key);
    var r := Newest(s, keep, key, n);
    FilterMembers(s, keep);
    assert s[j] in multiset(sorted);
    var k :| 0 <= k < |sorted| && sorted[k] == s[j];
    assert k >= |r|;
    assert r[i] == sorted[i];
  }

  /** `findOne(filter)` without a sort: the position of the first matching document in stored order. */
  function FirstMatch<T>(s: seq<T>, keep: T -> bool): (r: Option<nat>)
    ensures r.None? <==> forall i :: 0 <= i < |s| ==> !keep(s[i])
    ensures r.Some? ==> r.value < |s| && keep(s[r.value])
    ensures r.Some? ==> forall i :: 0 <= i < r.value ==> !keep(s[i])
  {
    if s == [] then None
    else if keep(s[0]) then Some(0)
    else match FirstMatch(s[1..], keep)
      case None => None
      case Some(k) => Some(k + 1)
  }

  /** `findOne(filter).sort({ key: -1 })`: a matching document with the largest key, if any. */
  function FindNewest<T>(s: seq<T>, keep: T -> bool, key: T -> int): (r: Option<T>)
    ensures r.None? <==> forall i :: 0 <= i < |s| ==> !keep(s[i])
    ensures r.Some? ==> r.value in s && keep(r.value)
    ensures r.Some? ==> forall i :: 0 <= i < |s| && keep(s[i]) ==> key(s[i]) <= key(r.value)
  {
    var n := Newest(s, keep, key, 1);
    NewestSpec(s, keep, key, 1);
    FilterMembers(s, keep);
    if n == [] then
      None
    else
      assert forall i :: 0 <= i < |s| && keep(s[i]) ==> key(s[i]) <= key(n[0]) by {
        forall i | 0 <= i < |s| && keep(s[i]) ensures key(s[i]) <= key(n[0]) {
          if s[i] !in n {
            NewestAreNewest(s, keep, key, 1, 0, i);
          }
        }
      }
      Some(n[0])
  }
}
