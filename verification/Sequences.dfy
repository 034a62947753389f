/** Small facts about sequences, counting, and subsequences shared by the models. */
module Sequences {

  function Fill<T>(n: nat, x: T): (s: seq<T>)
    ensures |s| == n && forall i :: 0 <= i < n ==> s[i] == x
  {
    seq(n, _ => x)
  }

  /** Every element is below n. */
  predicate Below(q: seq<nat>, n: nat)
  {
    forall i :: 0 <= i < |q| ==> q[i] < n
  }

  predicate AllBelow(qs: seq<seq<nat>>, n: nat)
  {
    forall i :: 0 <= i < |qs| ==> Below(qs[i], n)
  }

  /** How often b occurs in q. */
  function Tally(q: seq<nat>, b: nat): nat
  {
    multiset(q)[b]
  }

  lemma TallyPop(q: seq<nat>)
    requires q != []
    ensures forall b: nat :: Tally(q, b) == Tally(q[1..], b) + if b == q[0] then 1 else 0
  {
    assert q == [q[0]] + q[1..];
  }

  lemma TallyPush(q: seq<nat>, x: nat)
    ensures forall b: nat :: Tally(q + [x], b) == Tally(q, b) + if b == x then 1 else 0
  {
  }

  /** The list without its k-th element. */
  function Drop<T>(q: seq<T>, k: nat): seq<T>
    requires k < |q|
  {
    q[..k] + q[k + 1..]
  }

  lemma DropFirst<T>(q: seq<T>)
    requires q != []
    ensures Drop(q, 0) == q[1..]
  {
  }

  lemma TallyDrop(q: seq<nat>, k: nat)
    requires k < |q|
    ensures forall x: nat :: Tally(q, x) == Tally(Drop(q, k), x) + if x == q[k] then 1 else 0
  {
    assert q == q[..k] + [q[k]] + q[k + 1..];
  }

  lemma {:induction false} TallyIdentity(n: nat, b: nat)
    ensures Tally(seq(n, i => i), b) == if b < n then 1 else 0
  {
    if n > 0 {
      var q := seq(n, i => i);
      var p := seq(n - 1, i => i);
      assert q == p + [n - 1];
      TallyIdentity(n - 1, b);
    }
  }

  /** A queue of indices below n that names none twice, and does not name x, has fewer than n elements. */
  lemma {:induction false} DistinctIsShort(q: seq<nat>, n: nat, x: nat)
    requires Below(q, n) && x < n
    requires forall b: nat :: b < n ==> Tally(q, b) <= 1
    requires Tally(q, x) == 0
    ensures |q| < n
  {
    var all := Range(n);
    var named := set i | 0 <= i < |q| :: q[i];
    forall i, j | 0 <= i < j < |q|
      ensures q[i] != q[j]
    {
      assert q == q[..i] + [q[i]] + q[i + 1..j] + [q[j]] + q[j + 1..];
      assert q[i] == q[j] ==> Tally(q, q[i]) >= 2;
    }
    NamedSize(q);
    assert x !in named by { assert x !in multiset(q); }
    assert named <= all - {x};
    SubsetSize(named, all - {x});
  }

  /** The numbers below n. */
  function Range(n: nat): (r: set<nat>)
    ensures |r| == n
    ensures forall b: nat :: b in r <==> b < n
  {
    if n == 0 then {} else Range(n - 1) + {n - 1}
  }

  lemma {:induction false} NamedSize(q: seq<nat>)
    requires forall i, j :: 0 <= i < j < |q| ==> q[i] != q[j]
    ensures |set i | 0 <= i < |q| :: q[i]| == |q|
  {
    var named := set i | 0 <= i < |q| :: q[i];
    if q != [] {
      var p := q[..|q| - 1];
      NamedSize(p);
      var namedP := set i | 0 <= i < |p| :: p[i];
      assert named == namedP + {q[|q| - 1]};
      assert q[|q| - 1] !in namedP;
    } else {
      assert named == {};
    }
  }

  predicate NoRepeats(q: seq<nat>)
  {
    forall i, j :: 0 <= i < j < |q| ==> q[i] != q[j]
  }

  /** Distinct numbers below n are at most n. */
  lemma NoRepeatsShort(q: seq<nat>, n: nat)
    requires NoRepeats(q) && Below(q, n)
    ensures |q| <= n
  {
    NamedSize(q);
    SubsetSize(set i | 0 <= i < |q| :: q[i], Range(n));
  }

  lemma {:induction false} SubsetSize<T>(a: set<T>, b: set<T>)
    requires a <= b
    ensures |a| <= |b|
  {
    assert b == a + (b - a);
  }

  /** a arises from b by leaving out elements, keeping the order. */
  predicate IsSubsequence<T(==)>(a: seq<T>, b: seq<T>)
    decreases b
  {
    || a == []
    || (b != [] && IsSubsequence(a, b[..|b| - 1]))
    || (b != [] && a[|a| - 1] == b[|b| - 1] && IsSubsequence(a[..|a| - 1], b[..|b| - 1]))
  }

  lemma SubsequenceSkip<T>(a: seq<T>, b: seq<T>, x: T)
    requires IsSubsequence(a, b)
    ensures IsSubsequence(a, b + [x])
  {
    assert (b + [x])[..|b|] == b;
  }

  lemma SubsequenceKeep<T>(a: seq<T>, b: seq<T>, x: T)
    requires IsSubsequence(a, b)
    ensures IsSubsequence(a + [x], b + [x])
  {
    assert (b + [x])[..|b|] == b;
    assert (a + [x])[..|a|] == a;
  }

  lemma {:induction false} SubsequenceExtend<T>(a: seq<T>, b: seq<T>, c: seq<T>)
    requires IsSubsequence(a, b)
    ensures IsSubsequence(a, b + c)
  {
    if c == [] {
      assert b + c == b;
    } else {
      SubsequenceExtend(a, b, c[..|c| - 1]);
      SubsequenceSkip(a, b + c[..|c| - 1], c[|c| - 1]);
      assert b + c == b + c[..|c| - 1] + [c[|c| - 1]];
    }
  }

  /** A queue: what was there and what came is what went and what is left; and so after one more step. */
  lemma OneMoreInOrder<T>(q0: seq<T>, came: seq<T>, went: seq<T>, q: seq<T>, comes: seq<T>, goes: seq<T>, q': seq<T>)
    requires q0 + came == went + q && q + comes == goes + q'
    ensures q0 + (came + comes) == (went + goes) + q'
  {
    AppendAssociates(q0, came, comes);
    AppendAssociates(went, q, comes);
    AppendAssociates(went, goes, q');
  }

  /** One sequence after the other. */
  function Concat<T>(ss: seq<seq<T>>): seq<T>
  {
    if ss == [] then [] else Concat(ss[..|ss| - 1]) + ss[|ss| - 1]
  }

  lemma ConcatPush<T>(ss: seq<seq<T>>, s: seq<T>)
    ensures Concat(ss + [s]) == Concat(ss) + s
  {
    assert (ss + [s])[..|ss|] == ss;
  }

  /** Two subsequences, one after the other. */
  lemma {:induction false} SubsequenceJoin<T>(a: seq<T>, b: seq<T>, c: seq<T>, d: seq<T>)
    requires IsSubsequence(a, b) && IsSubsequence(c, d)
    ensures IsSubsequence(a + c, b + d)
    decreases |d|
  {
    if c == [] {
      assert a + c == a;
      SubsequenceExtend(a, b, d);
    } else {
      var init, last := d[..|d| - 1], d[|d| - 1];
      assert b + d == (b + init) + [last];
      if IsSubsequence(c, init) {
        SubsequenceJoin(a, b, c, init);
        SubsequenceSkip(a + c, b + init, last);
      } else {
        SubsequenceJoin(a, b, c[..|c| - 1], init);
        assert a + c == (a + c[..|c| - 1]) + [last];
        SubsequenceKeep(a + c[..|c| - 1], b + init, last);
      }
    }
  }

  lemma {:induction false} SubsequenceSelf<T>(a: seq<T>)
    ensures IsSubsequence(a, a)
  {
    if a != [] {
      SubsequenceSelf(a[..|a| - 1]);
    }
  }

  lemma PrefixIsSubsequence<T>(a: seq<T>, b: seq<T>)
    requires a <= b
    ensures IsSubsequence(a, b)
  {
    SubsequenceSelf(a);
    SubsequenceExtend(a, a, b[|a|..]);
    assert a + b[|a|..] == b;
  }

  lemma {:induction false} SubsequenceDropTail<T>(a: seq<T>, tail: seq<T>, b: seq<T>)
    requires IsSubsequence(a + tail, b)
    ensures IsSubsequence(a, b)
    decreases |b|, |tail|
  {
    if tail == [] {
      assert a + tail == a;
    } else if a != [] {
      var init := b[..|b| - 1];
      assert b == init + [b[|b| - 1]];
      if IsSubsequence(a + tail, init) {
        SubsequenceDropTail(a, tail, init);
      } else {
        assert (a + tail)[..|a + tail| - 1] == a + tail[..|tail| - 1];
        SubsequenceDropTail(a, tail[..|tail| - 1], init);
      }
      SubsequenceSkip(a, init, b[|b| - 1]);
    }
  }

  lemma AppendAssociates<T>(a: seq<T>, b: seq<T>, c: seq<T>)
    ensures a + (b + c) == (a + b) + c
  {
  }

  lemma AppendMove<T>(a: seq<T>, b: seq<T>)
    requires b != []
    ensures a + b == (a + [b[0]]) + b[1..]
  {
  }
}
