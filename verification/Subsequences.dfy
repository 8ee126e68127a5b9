/** Subsequences of sequences without repetition: picking out, removing and
    overwriting the elements that belong to a given set. */
module Subsequences {

  ghost predicate Distinct(s: seq<string>) {
    forall i, j | 0 <= i < j < |s| :: s[i] != s[j]
  }

  /** The elements of `s` that lie in `ids`, in order. */
  function Keep(s: seq<string>, ids: set<string>): seq<string> {
    if s == [] then []
    else
      var front, last := Keep(s[..|s| - 1], ids), s[|s| - 1];
      if last in ids then front + [last] else front
  }

  /** The elements of `s` outside `ids`, in order. */
  function Drop(s: seq<string>, ids: set<string>): seq<string> {
    if s == [] then []
    else
      var front, last := Drop(s[..|s| - 1], ids), s[|s| - 1];
      if last in ids then front else front + [last]
  }

  /** The first position of an element that is there. */
  function IndexOf(s: seq<string>, x: string): (k: nat)
    requires x in s
    ensures k < |s| && s[k] == x
    ensures forall j | 0 <= j < k :: s[j] != x
  {
    if s[0] == x then 0 else 1 + IndexOf(s[1..], x)
  }

  function RemoveAt(s: seq<string>, k: nat): seq<string>
    requires k < |s|
  {
    s[..k] + s[k + 1..]
  }

  function InsertAt(s: seq<string>, k: nat, x: string): seq<string>
    requires k <= |s|
  {
    s[..k] + [x] + s[k..]
  }

  /** Writes `values` over the positions of `s` that hold elements of `ids`. */
  function Scatter(s: seq<string>, ids: set<string>, values: seq<string>): seq<string>
    requires |values| == |Keep(s, ids)|
  {
    if s == [] then []
    else
      var n := |s| - 1;
      if s[n] in ids
      then Scatter(s[..n], ids, values[..|values| - 1]) + [values[|values| - 1]]
      else Scatter(s[..n], ids, values) + [s[n]]
  }

  lemma KeepSnoc(s: seq<string>, ids: set<string>, k: nat)
    requires k < |s|
    ensures Keep(s[..k + 1], ids) == if s[k] in ids then Keep(s[..k], ids) + [s[k]] else Keep(s[..k], ids)
    ensures Drop(s[..k + 1], ids) == if s[k] in ids then Drop(s[..k], ids) else Drop(s[..k], ids) + [s[k]]
  {
    assert s[..k + 1][..k] == s[..k];
  }

  lemma {:induction false} KeepMember(s: seq<string>, ids: set<string>)
    ensures forall x :: x in Keep(s, ids) <==> x in s && x in ids
  {
    if s != [] {
      var n := |s| - 1;
      KeepMember(s[..n], ids);
      assert s == s[..n] + [s[n]];
    }
  }

  lemma {:induction false} DropMember(s: seq<string>, ids: set<string>)
    ensures forall x :: x in Drop(s, ids) <==> x in s && x !in ids
  {
    if s != [] {
      var n := |s| - 1;
      DropMember(s[..n], ids);
      assert s == s[..n] + [s[n]];
    }
  }

  lemma {:induction false} KeepConcat(a: seq<string>, b: seq<string>, ids: set<string>)
    ensures Keep(a + b, ids) == Keep(a, ids) + Keep(b, ids)
  {
    if b == [] {
      assert a + b == a;
    } else {
      var n := |b| - 1;
      assert (a + b)[..|a + b| - 1] == a + b[..n];
      KeepConcat(a, b[..n], ids);
    }
  }

  lemma {:induction false} KeepAll(s: seq<string>, ids: set<string>)
    requires forall x | x in s :: x in ids
    ensures Keep(s, ids) == s
  {
    if s != [] {
      var n := |s| - 1;
      KeepAll(s[..n], ids);
      assert s == s[..n] + [s[n]];
    }
  }

  lemma {:induction false} KeepDistinct(s: seq<string>, ids: set<string>)
    requires Distinct(s)
    ensures Distinct(Keep(s, ids)) && Distinct(Drop(s, ids))
  {
    if s != [] {
      var n := |s| - 1;
      KeepDistinct(s[..n], ids);
      KeepMember(s[..n], ids);
      DropMember(s[..n], ids);
      assert s[n] !in s[..n];
    }
  }

  lemma IndexOfUnique(s: seq<string>, x: string, i: nat)
    requires i < |s| && s[i] == x
    requires forall j | 0 <= j < i :: s[j] != x
    ensures IndexOf(s, x) == i
  {
    var k := IndexOf(s, x);
    assert !(k < i) && !(i < k);
  }

  lemma RemoveAtFacts(s: seq<string>, x: string)
    requires Distinct(s) && x in s
    ensures var r := RemoveAt(s, IndexOf(s, x));
            && Distinct(r)
            && (forall y :: y in r <==> y in s && y != x)
  {
    var k := IndexOf(s, x);
    var r := RemoveAt(s, k);
    forall y | y in s && y != x ensures y in r {
      var i :| 0 <= i < |s| && s[i] == y;
      if i < k { assert r[i] == y; } else { assert r[i - 1] == y; }
    }
  }

  lemma KeepSplit(s: seq<string>, k: nat, ids: set<string>)
    requires k < |s|
    ensures Keep(s, ids) == Keep(s[..k], ids) + (if s[k] in ids then [s[k]] else []) + Keep(s[k + 1..], ids)
  {
    KeepConcat(s[..k + 1], s[k + 1..], ids);
    assert s[..k + 1] + s[k + 1..] == s;
    KeepSnoc(s, ids, k);
  }

  /** Dropping some elements leaves every subsequence without them alone. */
  lemma {:induction false} KeepOfDrop(s: seq<string>, dropped: set<string>, ids: set<string>)
    requires dropped !! ids
    ensures Keep(Drop(s, dropped), ids) == Keep(s, ids)
  {
    if s != [] {
      var n := |s| - 1;
      var front := Drop(s[..n], dropped);
      KeepOfDrop(s[..n], dropped, ids);
      if s[n] !in dropped { assert (front + [s[n]])[..|front|] == front; }
    }
  }

  /** Removing an element leaves every subsequence without it alone. */
  lemma KeepRemoveOther(s: seq<string>, x: string, ids: set<string>)
    requires x in s && x !in ids
    ensures Keep(RemoveAt(s, IndexOf(s, x)), ids) == Keep(s, ids)
  {
    KeepSplit(s, IndexOf(s, x), ids);
    KeepConcat(s[..IndexOf(s, x)], s[IndexOf(s, x) + 1..], ids);
  }

  /** The kept part of a prefix leaves room for the element that follows it. */
  lemma KeptSoFar(s: seq<string>, k: nat, ids: set<string>)
    requires k < |s|
    ensures Keep(s[..k + 1], ids) == if s[k] in ids then Keep(s[..k], ids) + [s[k]] else Keep(s[..k], ids)
    ensures |Keep(s[..k + 1], ids)| <= |Keep(s, ids)|
  {
    KeepSnoc(s, ids, k);
    KeepSplit(s, k, ids);
  }

  /** In a distinct sequence an element is not among the kept ones before it. */
  lemma FirstOccurrence(s: seq<string>, k: nat, ids: set<string>)
    requires Distinct(s) && k < |s|
    ensures s[k] !in Keep(s[..k], ids)
  {
    KeepMember(s[..k], ids);
  }

  /** Scattering over a longer prefix appends one element. */
  lemma ScatterSnoc(s: seq<string>, k: nat, ids: set<string>, values: seq<string>, n: nat)
    requires k < |s| && n == |Keep(s[..k], ids)| <= |values|
    requires s[k] in ids ==> n < |values|
    ensures |Keep(s[..k + 1], ids)| == if s[k] in ids then n + 1 else n
    ensures s[k] in ids ==> Scatter(s[..k + 1], ids, values[..n + 1]) == Scatter(s[..k], ids, values[..n]) + [values[n]]
    ensures s[k] !in ids ==> Scatter(s[..k + 1], ids, values[..n]) == Scatter(s[..k], ids, values[..n]) + [s[k]]
  {
    assert s[..k + 1][..k] == s[..k];
    if s[k] in ids {
      assert values[..n + 1][..n] == values[..n];
    }
  }

  /** A list that agrees with `s` from position k on, with one value written at k. */
  lemma SwapHead(done: seq<string>, s: seq<string>, k: nat, value: string)
    requires k < |s| && |done| == k
    ensures (done + s[k..])[k := value] == done + [value] + s[k + 1..]
    ensures done + s[k..] == done + [s[k]] + s[k + 1..]
  {
    assert s[k..] == [s[k]] + s[k + 1..];
    assert (done + s[k..])[k := value] == done + ([value] + s[k + 1..]);
  }

  /** One step of writing values over the kept positions from the front. */
  lemma ScatterNext(s: seq<string>, k: nat, ids: set<string>, values: seq<string>, n: nat)
    requires k < |s| && n == |Keep(s[..k], ids)| && |values| == |Keep(s, ids)|
    ensures n <= |values| && (s[k] in ids ==> n < |values|)
    ensures |Scatter(s[..k], ids, values[..n])| == k
    ensures |Keep(s[..k + 1], ids)| == if s[k] in ids then n + 1 else n
    ensures s[k] in ids ==> (Scatter(s[..k], ids, values[..n]) + s[k..])[k := values[n]] ==
                            Scatter(s[..k + 1], ids, values[..n + 1]) + s[k + 1..]
    ensures s[k] !in ids ==> Scatter(s[..k], ids, values[..n]) + s[k..] ==
                             Scatter(s[..k + 1], ids, values[..n]) + s[k + 1..]
  {
    KeptSoFar(s, k, ids);
    ScatterSnoc(s, k, ids, values, n);
    ScatterLength(s[..k], ids, values[..n]);
    var done := Scatter(s[..k], ids, values[..n]);
    SwapHead(done, s, k, if s[k] in ids then values[n] else s[k]);
  }

  /** A list in which the values were written over the kept positions before i. */
  ghost predicate WrittenBack(s: seq<string>, ids: set<string>, values: seq<string>, now: seq<string>, i: nat, n: nat) {
    && i <= |s| && |values| == |Keep(s, ids)| && n == |Keep(s[..i], ids)| <= |values|
    && now == Scatter(s[..i], ids, values[..n]) + s[i..]
  }

  lemma WriteStarts(s: seq<string>, ids: set<string>, values: seq<string>)
    requires |values| == |Keep(s, ids)|
    ensures WrittenBack(s, ids, values, s, 0, 0)
  {
    assert s[..0] == [] && s[0..] == s;
  }

  lemma WriteNext(s: seq<string>, ids: set<string>, values: seq<string>, now: seq<string>, i: nat, n: nat)
    requires WrittenBack(s, ids, values, now, i, n) && i < |s|
    ensures i < |now| == |s| && now[i] == s[i]
    ensures s[i] in ids ==> n < |values| && WrittenBack(s, ids, values, now[i := values[n]], i + 1, n + 1)
    ensures s[i] !in ids ==> WrittenBack(s, ids, values, now, i + 1, n)
  {
    ScatterNext(s, i, ids, values, n);
  }

  lemma WriteEnds(s: seq<string>, ids: set<string>, values: seq<string>, now: seq<string>, n: nat)
    requires WrittenBack(s, ids, values, now, |s|, n)
    ensures now == Scatter(s, ids, values)
  {
    assert s[..|s|] == s && s[|s|..] == [] && values[..n] == values;
  }

  /** A list that is being compacted: what was kept is at the front, what was not read
      yet is where it was. */
  ghost predicate Compacted(s: seq<string>, now: seq<string>, kept: seq<string>, read: nat) {
    |kept| <= read <= |s| == |now| && now[..|kept|] == kept && now[read..] == s[read..]
  }

  lemma CompactNext(s: seq<string>, now: seq<string>, kept: seq<string>, read: nat)
    requires Compacted(s, now, kept, read) && read < |s|
    ensures now[read] == s[read]
    ensures Compacted(s, now, kept, read + 1)
    ensures Compacted(s, now[|kept| := s[read]], kept + [s[read]], read + 1)
  {
    assert now[read] == now[read..][0] == s[read..][0];
    assert now[read + 1..] == now[read..][1..] && s[read + 1..] == s[read..][1..];
  }

  lemma {:induction false} ScatterLength(s: seq<string>, ids: set<string>, values: seq<string>)
    requires |values| == |Keep(s, ids)|
    ensures |Scatter(s, ids, values)| == |s|
  {
    if s != [] {
      var n := |s| - 1;
      ScatterLength(s[..n], ids, if s[n] in ids then values[..|values| - 1] else values);
    }
  }

  /** Scattering leaves every other position alone. */
  lemma {:induction false} ScatterElsewhere(s: seq<string>, ids: set<string>, values: seq<string>, i: nat)
    requires |values| == |Keep(s, ids)|
    requires forall x | x in values :: x in ids
    requires i < |s|
    ensures |Scatter(s, ids, values)| == |s|
    ensures s[i] in ids <==> Scatter(s, ids, values)[i] in ids
    ensures s[i] !in ids ==> Scatter(s, ids, values)[i] == s[i]
  {
    ScatterLength(s, ids, values);
    var n := |s| - 1;
    var front := if s[n] in ids then values[..|values| - 1] else values;
    ScatterLength(s[..n], ids, front);
    if i < n {
      ScatterElsewhere(s[..n], ids, front, i);
    } else if s[n] in ids {
      assert values[|values| - 1] in values;
    }
  }

  /** The scattered values read back in the order given. */
  lemma {:induction false} ScatterReadsBack(s: seq<string>, ids: set<string>, values: seq<string>)
    requires |values| == |Keep(s, ids)|
    requires forall x | x in values :: x in ids
    ensures Keep(Scatter(s, ids, values), ids) == values
  {
    if s != [] {
      var n := |s| - 1;
      if s[n] in ids {
        var m := |values| - 1;
        ScatterReadsBack(s[..n], ids, values[..m]);
        assert values[m] in values;
        assert values == values[..m] + [values[m]];
        var front := Scatter(s[..n], ids, values[..m]);
        assert (front + [values[m]])[..|front|] == front;
      } else {
        ScatterReadsBack(s[..n], ids, values);
        var front := Scatter(s[..n], ids, values);
        assert (front + [s[n]])[..|front|] == front;
      }
    }
  }

  /** Counting form: scattering replaces the kept elements by the values. */
  lemma CountSnoc(s: seq<string>, x: string)
    requires s != []
    ensures multiset(s)[x] == multiset(s[..|s| - 1])[x] + if s[|s| - 1] == x then 1 else 0
  {
    assert s == s[..|s| - 1] + [s[|s| - 1]];
  }

  lemma {:induction false} ScatterCount(s: seq<string>, ids: set<string>, values: seq<string>, x: string)
    requires |values| == |Keep(s, ids)|
    ensures multiset(Scatter(s, ids, values))[x] + multiset(Keep(s, ids))[x] == multiset(s)[x] + multiset(values)[x]
  {
    if s != [] {
      var n, m := |s| - 1, |values| - 1;
      CountSnoc(s, x);
      if s[n] in ids {
        ScatterCount(s[..n], ids, values[..m], x);
        CountSnoc(values, x);
      } else {
        ScatterCount(s[..n], ids, values, x);
      }
    }
  }

  lemma ScatterIsPermutation(s: seq<string>, ids: set<string>, values: seq<string>)
    requires multiset(values) == multiset(Keep(s, ids))
    requires |values| == |Keep(s, ids)|
    ensures multiset(Scatter(s, ids, values)) == multiset(s)
  {
    forall x ensures multiset(Scatter(s, ids, values))[x] == multiset(s)[x] {
      ScatterCount(s, ids, values, x);
    }
  }

  /** Two sequences that agree outside `ids` and use `ids` at the same positions
      have the same subsequences for every other set. */
  lemma {:induction false} SameElsewhere(a: seq<string>, b: seq<string>, ids: set<string>, others: set<string>)
    requires |a| == |b| && ids !! others
    requires forall i | 0 <= i < |a| :: (a[i] in ids <==> b[i] in ids) && (a[i] !in ids ==> b[i] == a[i])
    ensures Keep(a, others) == Keep(b, others)
  {
    if a != [] {
      var n := |a| - 1;
      SameElsewhere(a[..n], b[..n], ids, others);
    }
  }

  lemma {:induction false} DistinctCount(s: seq<string>, x: string)
    requires Distinct(s)
    ensures multiset(s)[x] <= 1
  {
    if s != [] {
      var n := |s| - 1;
      DistinctCount(s[..n], x);
      assert s == s[..n] + [s[n]];
      assert s[n] !in s[..n];
    }
  }

  lemma PermutationDistinct(s: seq<string>, t: seq<string>)
    requires Distinct(s) && multiset(s) == multiset(t)
    ensures Distinct(t)
    ensures forall x :: x in t <==> x in s
  {
    forall i, j | 0 <= i < j < |t| ensures t[i] != t[j] {
      assert t == t[..i] + [t[i]] + t[i + 1..j] + [t[j]] + t[j + 1..];
      assert t[i] == t[j] ==> multiset(t)[t[i]] >= 2;
      DistinctCount(s, t[i]);
    }
    forall x ensures x in t <==> x in s {
      assert x in t <==> x in multiset(t);
      assert x in s <==> x in multiset(s);
    }
  }

  /** Removing an element and inserting it again permutes the sequence. */
  lemma MoveIsPermutation(s: seq<string>, x: string, k: nat)
    requires x in s && k < |s|
    ensures multiset(InsertAt(RemoveAt(s, IndexOf(s, x)), k, x)) == multiset(s)
  {
    var i := IndexOf(s, x);
    var rest := RemoveAt(s, i);
    assert s == s[..i] + [x] + s[i + 1..];
    assert multiset(s) == multiset(rest) + multiset{x};
    assert multiset(rest) == multiset(rest[..k]) + multiset(rest[k..]) by { assert rest == rest[..k] + rest[k..]; }
  }

  method Find(values: seq<string>, needle: string) returns (index: int)
    ensures needle in values ==> index == IndexOf(values, needle)
    ensures needle !in values ==> index == -1
  {
    for i := 0 to |values|
      invariant needle !in values[..i]
    {
      if values[i] == needle {
        IndexOfUnique(values, needle, i);
        return i;
      }
    }
    return -1;
  }
}
