/** Sequence operations that stand for the ORM's `where`/`findUnique`/`skip`/`take`
    and for JavaScript's `filter`, `map` and `flatMap`. */
module Seqs {
  import opened Wrappers

  /** The elements of `s` satisfying `p`, in their original order. */
  function Filter<T(!new)>(s: seq<T>, p: T -> bool): (r: seq<T>)
    ensures |r| <= |s|
    ensures forall x :: x in r <==> x in s && p(x)
    ensures r == [] <==> forall x :: x in s ==> !p(x)
  {
    if s == [] then []
    else if p(s[0]) then [s[0]] + Filter(s[1..], p)
    else Filter(s[1..], p)
  }

  /** Filtering by a condition every element meets changes nothing. */
  lemma {:induction false} FilterAll<T(!new)>(s: seq<T>, p: T -> bool)
    requires forall x :: x in s ==> p(x)
    ensures Filter(s, p) == s
  {
    if s != [] {
      FilterAll(s[1..], p);
      assert [s[0]] + s[1..] == s;
    }
  }

  /** Filtering out the single element that fails the condition removes just that element. */
  lemma {:induction false} FilterDropsOne<T(!new)>(s: seq<T>, k: nat, p: T -> bool)
    requires k < |s| && !p(s[k])
    requires forall i :: 0 <= i < |s| && i != k ==> p(s[i])
    ensures Filter(s, p) == s[..k] + s[k + 1..]
  {
    var t := s[1..];
    if k == 0 {
      assert forall x :: x in t ==> p(x) by {
        forall x | x in t ensures p(x) {
          var i :| 0 <= i < |t| && t[i] == x;
          assert t[i] == s[i + 1];
        }
      }
      FilterAll(t, p);
      assert s[..0] + s[1..] == t;
    } else {
      assert forall i :: 0 <= i < |t| && i != k - 1 ==> p(t[i]) by {
        forall i | 0 <= i < |t| && i != k - 1 ensures p(t[i]) {
          assert t[i] == s[i + 1];
        }
      }
      FilterDropsOne(t, k - 1, p);
      RemovalOfTail(s, k);
    }
  }

  /** Removing a position past the head is removing it from the tail. */
  lemma RemovalOfTail<T>(s: seq<T>, k: nat)
    requires 0 < k < |s|
    ensures s[..k] + s[k + 1..] == [s[0]] + (s[1..][..k - 1] + s[1..][k..])
  {
    assert s[1..][..k - 1] == s[1..k];
    assert s[1..][k..] == s[k + 1..];
  }

  /** Filtering keeps every satisfying element as often as it occurs and drops every other one. */
  lemma {:induction false} FilterCount<T(!new)>(s: seq<T>, p: T -> bool, x: T)
    ensures multiset(Filter(s, p))[x] == if p(x) then multiset(s)[x] else 0
  {
    if s != [] {
      assert s == [s[0]] + s[1..];
      FilterCount(s[1..], p, x);
    }
  }

  /** Filtering distributes over concatenation: it never reorders elements. */
  lemma {:induction false} FilterConcat<T(!new)>(a: seq<T>, b: seq<T>, p: T -> bool)
    ensures Filter(a + b, p) == Filter(a, p) + Filter(b, p)
  {
    if a == [] {
      assert a + b == b;
    } else {
      assert (a + b)[0] == a[0];
      assert (a + b)[1..] == a[1..] + b;
      FilterConcat(a[1..], b, p);
    }
  }

  /** The first element of `s` satisfying `p`, if any. */
  function FindFirst<T(!new)>(s: seq<T>, p: T -> bool): (r: Option<T>)
    ensures r.None? <==> forall x :: x in s ==> !p(x)
    ensures r.Some? ==> r.value in s && p(r.value)
  {
    if s == [] then None
    else if p(s[0]) then Some(s[0])
    else FindFirst(s[1..], p)
  }

  /** Appending an element that is the only match makes it the lookup's answer. */
  lemma {:induction false} FindFirstAppended<T(!new)>(s: seq<T>, x: T, p: T -> bool)
    requires forall y :: y in s ==> !p(y)
    requires p(x)
    ensures FindFirst(s + [x], p) == Some(x)
  {
    if s == [] {
      assert s + [x] == [x];
    } else {
      assert (s + [x])[0] == s[0];
      assert (s + [x])[1..] == s[1..] + [x];
      FindFirstAppended(s[1..], x, p);
    }
  }

  /** `f` applied to every element, in order. */
  function Map<A, B>(s: seq<A>, f: A -> B): (r: seq<B>)
    ensures |r| == |s|
    ensures forall i :: 0 <= i < |s| ==> r[i] == f(s[i])
  {
    if s == [] then [] else [f(s[0])] + Map(s[1..], f)
  }

  lemma {:induction false} MapConcat<A, B>(a: seq<A>, b: seq<A>, f: A -> B)
    ensures Map(a + b, f) == Map(a, f) + Map(b, f)
  {
    if a == [] {
      assert a + b == b;
    } else {
      assert (a + b)[0] == a[0];
      assert (a + b)[1..] == a[1..] + b;
      MapConcat(a[1..], b, f);
    }
  }

  /** The concatenation of all the sequences in `ss`, in order. */
  function Flatten<T(!new)>(ss: seq<seq<T>>): (r: seq<T>)
    ensures forall x :: x in r <==> exists s :: s in ss && x in s
  {
    if ss == [] then [] else ss[0] + Flatten(ss[1..])
  }

  lemma {:induction false} FlattenConcat<T(!new)>(a: seq<seq<T>>, b: seq<seq<T>>)
    ensures Flatten(a + b) == Flatten(a) + Flatten(b)
  {
    if a == [] {
      assert a + b == b;
    } else {
      assert (a + b)[0] == a[0];
      assert (a + b)[1..] == a[1..] + b;
      FlattenConcat(a[1..], b);
    }
  }

  /** The sum of the lengths of the sequences in `ss`. */
  function TotalLength<T>(ss: seq<seq<T>>): nat {
    if ss == [] then 0 else |ss[0]| + TotalLength(ss[1..])
  }

  /** Concatenation loses and adds nothing: its length is the sum of the parts' lengths. */
  lemma {:induction false} FlattenLength<T(!new)>(ss: seq<seq<T>>)
    ensures |Flatten(ss)| == TotalLength(ss)
  {
    if ss != [] {
      FlattenLength(ss[1..]);
    }
  }

  /** How many elements `skip`/`take` leaves of `n`: none past the end, otherwise up to `take`. */
  function WindowLength(n: nat, skip: nat, take: nat): nat {
    if n <= skip then 0 else if n - skip < take then n - skip else take
  }

  /** The ORM's `skip`/`take`: drop the first `skip` elements and keep at most `take` of the rest. */
  function Window<T>(s: seq<T>, skip: nat, take: nat): (r: seq<T>)
    ensures |r| <= take
    ensures |s| <= skip ==> r == []
    ensures r == [] || skip + |r| <= |s|
    ensures skip + take <= |s| ==> |r| == take
    ensures skip <= |s| && |s| < skip + take ==> |r| == |s| - skip
    ensures forall i :: 0 <= i < |r| ==> r[i] == s[skip + i]
  {
    if |s| <= skip then []
    else if |s| <= skip + take then s[skip..]
    else s[skip..skip + take]
  }

  /** Two adjacent windows together form the window spanning both. */
  lemma WindowsAdjacent<T>(s: seq<T>, skip: nat, m: nat, n: nat)
    ensures Window(s, skip, m) + Window(s, skip + m, n) == Window(s, skip, m + n)
  {
    var lhs, rhs := Window(s, skip, m) + Window(s, skip + m, n), Window(s, skip, m + n);
    assert |lhs| == |rhs|;
    forall i | 0 <= i < |lhs| ensures lhs[i] == rhs[i] {
      if i >= |Window(s, skip, m)| {
        assert |Window(s, skip, m)| == m;
      }
    }
  }
}
