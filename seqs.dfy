/** Sequence helpers standing for the Python list operations the watcher performs. */
module Seqs {

  /** Position of the first occurrence of `x` in `s`. */
  function IndexOf<T(==)>(s: seq<T>, x: T): (i: nat)
    requires x in s
    ensures i < |s| && s[i] == x && x !in s[..i]
  {
    if s[0] == x then 0
    else
      var j := IndexOf(s[1..], x);
      assert s[..j + 1] == [s[0]] + s[1..][..j];
      j + 1
  }

  /** `s` with position `i` cut out; every other element keeps its relative order. */
  function DeleteAt<T>(s: seq<T>, i: nat): seq<T>
    requires i < |s|
  {
    s[..i] + s[i + 1..]
  }

  lemma DeleteAtIndex<T>(s: seq<T>, i: nat)
    requires i < |s|
    ensures |DeleteAt(s, i)| == |s| - 1
    ensures forall k :: 0 <= k < i ==> DeleteAt(s, i)[k] == s[k]
    ensures forall k :: i <= k < |s| - 1 ==> DeleteAt(s, i)[k] == s[k + 1]
  {
  }

  lemma DeleteAtCons<T>(s: seq<T>, j: nat)
    requires j + 1 < |s|
    ensures DeleteAt(s, j + 1) == [s[0]] + DeleteAt(s[1..], j)
  {
    assert s[..j + 1] == [s[0]] + s[1..][..j];
    assert s[j + 2..] == s[1..][j + 1..];
  }

  /** Python's `list.remove(x)` when `x` is present: only the first occurrence goes, the
      rest keep their order. When `x` is absent the list is returned unchanged (Python
      raises instead; every caller in the model checks membership first). */
  function RemoveFirst<T(==)>(s: seq<T>, x: T): (r: seq<T>)
    ensures x !in s ==> r == s
    ensures x in s ==> r == DeleteAt(s, IndexOf(s, x))
  {
    if s == [] then []
    else if s[0] == x then s[1..]
    else
      var tail := s[1..];
      var r := [s[0]] + RemoveFirst(tail, x);
      if x in tail then
        assert IndexOf(s, x) == IndexOf(tail, x) + 1;
        DeleteAtCons(s, IndexOf(tail, x));
        r
      else
        assert x !in s by {
          assert s == [s[0]] + tail;
        }
        r
  }

  lemma DeleteAtMultiset<T>(s: seq<T>, i: nat)
    requires i < |s|
    ensures multiset(DeleteAt(s, i)) == multiset(s) - multiset{s[i]}
  {
    assert s == s[..i] + [s[i]] + s[i + 1..];
  }

  /** `list.remove(x)` takes away exactly one copy of `x`, or nothing when there is none. */
  lemma RemoveFirstMultiset<T>(s: seq<T>, x: T)
    ensures multiset(RemoveFirst(s, x)) == multiset(s) - multiset{x}
  {
    if x in s {
      DeleteAtMultiset(s, IndexOf(s, x));
    } else {
      assert x !in multiset(s);
    }
  }

  predicate NoDup<T(==)>(s: seq<T>) {
    forall i, j :: 0 <= i < j < |s| ==> s[i] != s[j]
  }

  lemma DeleteAtNoDup<T>(s: seq<T>, i: nat)
    requires NoDup(s) && i < |s|
    ensures NoDup(DeleteAt(s, i))
    ensures forall y :: y in DeleteAt(s, i) <==> y in s && y != s[i]
  {
    var r := DeleteAt(s, i);
    DeleteAtIndex(s, i);
    forall p, q | 0 <= p < q < |r|
      ensures r[p] != r[q]
    {
      var p', q' := if p < i then p else p + 1, if q < i then q else q + 1;
      assert r[p] == s[p'] && r[q] == s[q'] && p' < q';
    }
    forall y
      ensures y in r <==> y in s && y != s[i]
    {
      if y in r {
        var k :| 0 <= k < |r| && r[k] == y;
        var k' := if k < i then k else k + 1;
        assert s[k'] == y && k' != i;
      }
      if y in s && y != s[i] {
        var k :| 0 <= k < |s| && s[k] == y;
        assert k != i;
        assert r[if k < i then k else k - 1] == y;
      }
    }
  }

  /** Removing a key from a duplicate-free sequence leaves exactly the other keys, still without duplicates. */
  lemma RemoveFirstNoDup<T>(s: seq<T>, x: T)
    requires NoDup(s)
    ensures NoDup(RemoveFirst(s, x))
    ensures forall y :: y in RemoveFirst(s, x) <==> y in s && y != x
  {
    if x in s {
      DeleteAtNoDup(s, IndexOf(s, x));
    }
  }

  function Reverse<T>(s: seq<T>): (r: seq<T>)
    ensures |r| == |s|
  {
    if s == [] then [] else Reverse(s[1..]) + [s[0]]
  }

  /** Position `i` of the reversal holds position `|s| - 1 - i` of the original. */
  lemma {:induction false} ReverseAt<T>(s: seq<T>)
    ensures forall i :: 0 <= i < |s| ==> Reverse(s)[i] == s[|s| - 1 - i]
    decreases |s|
  {
    if s != [] {
      ReverseAt(s[1..]);
    }
  }

  lemma ReverseAppend<T>(a: seq<T>, b: seq<T>)
    ensures Reverse(a + b) == Reverse(b) + Reverse(a)
  {
    ReverseAt(a + b);
    ReverseAt(a);
    ReverseAt(b);
    assert forall i :: 0 <= i < |a| + |b| ==> Reverse(a + b)[i] == (Reverse(b) + Reverse(a))[i];
  }

  lemma ReverseReverse<T>(s: seq<T>)
    ensures Reverse(Reverse(s)) == s
  {
    ReverseAt(s);
    ReverseAt(Reverse(s));
    assert forall i :: 0 <= i < |s| ==> Reverse(Reverse(s))[i] == s[i];
  }

  /** `n` copies of `x`. */
  function Repeat<T>(x: T, n: nat): (r: seq<T>)
    ensures |r| == n
    ensures forall i :: 0 <= i < n ==> r[i] == x
  {
    if n == 0 then [] else [x] + Repeat(x, n - 1)
  }

  lemma ReverseRepeat<T>(x: T, n: nat)
    ensures Reverse(Repeat(x, n)) == Repeat(x, n)
  {
    ReverseAt(Repeat(x, n));
    assert forall i :: 0 <= i < n ==> Reverse(Repeat(x, n))[i] == Repeat(x, n)[i];
  }

  lemma RepeatSucc<T>(x: T, n: nat)
    ensures Repeat(x, n + 1) == [x] + Repeat(x, n) == Repeat(x, n) + [x]
  {
    assert Repeat(x, n + 1) == Repeat(x, n) + [x] by {
      assert forall i :: 0 <= i < n + 1 ==> Repeat(x, n + 1)[i] == (Repeat(x, n) + [x])[i];
    }
  }

  lemma RepeatInFront<T>(x: T, n: nat, rest: seq<T>)
    ensures Repeat(x, n) + ([x] + rest) == Repeat(x, n + 1) + rest
  {
    RepeatSucc(x, n);
  }

  /** How often `x` occurs in `s`, counted from the head. */
  lemma MultisetHead<T>(s: seq<T>, x: T)
    requires s != []
    ensures multiset(s)[x] == (if s[0] == x then 1 else 0) + multiset(s[1..])[x]
  {
    assert s == [s[0]] + s[1..];
  }

  lemma RepeatBehind<T>(x: T, n: nat, front: seq<T>)
    ensures (front + [x]) + Repeat(x, n) == front + Repeat(x, n + 1)
  {
    RepeatSucc(x, n);
  }

  /** Taking one more copy of `x` out of a multiset after `n` copies were taken. */
  lemma MinusRepeatSucc<T>(m: multiset<T>, x: T, n: nat)
    ensures (m - multiset{x}) - multiset(Repeat(x, n)) == m - multiset(Repeat(x, n + 1))
  {
    RepeatSucc(x, n);
    assert multiset(Repeat(x, n + 1)) == multiset{x} + multiset(Repeat(x, n));
  }

  lemma AppendAssoc<T>(a: seq<T>, b: seq<T>, c: seq<T>)
    ensures (a + b) + c == a + (b + c)
  {
  }

  lemma InCons<T>(s: seq<T>, x: T)
    requires s != []
    ensures x in s <==> x == s[0] || x in s[1..]
  {
    assert s == [s[0]] + s[1..];
  }

  lemma ElementsCons<T>(s: seq<T>)
    requires s != []
    ensures (set x | x in s) == {s[0]} + (set x | x in s[1..])
  {
    assert s == [s[0]] + s[1..];
  }
}
