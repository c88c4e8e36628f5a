/** Order-keeping relations between sequences, used to state that a derived
    list keeps the order of the list it was computed from. */
module Seqs {

  /** `sub` is `s` with some elements deleted and the rest kept in order. */
  predicate Sublist<T(==)>(sub: seq<T>, s: seq<T>)
    decreases |s|
  {
    if sub == [] then true
    else if s == [] then false
    else (sub[0] == s[0] && Sublist(sub[1..], s[1..])) || Sublist(sub, s[1..])
  }

  /** `s` is an order-keeping merge of `a` and `b`: every element of `s`
      comes from exactly one of the two, and each keeps its order. */
  predicate Interleaving<T(==)>(s: seq<T>, a: seq<T>, b: seq<T>)
    decreases |s|
  {
    if s == [] then a == [] && b == []
    else
      || (a != [] && s[0] == a[0] && Interleaving(s[1..], a[1..], b))
      || (b != [] && s[0] == b[0] && Interleaving(s[1..], a, b[1..]))
  }

  predicate Distinct<T(==)>(s: seq<T>) {
    forall i, j :: 0 <= i < j < |s| ==> s[i] != s[j]
  }

  lemma {:induction false} SublistProperties<T>(sub: seq<T>, s: seq<T>)
    requires Sublist(sub, s)
    ensures |sub| <= |s|
    ensures forall x :: x in sub ==> x in s
    decreases |s|
  {
    if sub != [] {
      if sub[0] == s[0] && Sublist(sub[1..], s[1..]) {
        SublistProperties(sub[1..], s[1..]);
        assert forall x :: x in sub ==> x == sub[0] || x in sub[1..];
      } else {
        SublistProperties(sub, s[1..]);
      }
    }
  }

  lemma {:induction false} SublistOfSelf<T>(s: seq<T>)
    ensures Sublist(s, s)
    decreases |s|
  {
    if s != [] {
      SublistOfSelf(s[1..]);
    }
  }

  lemma {:induction false} InterleavingProperties<T>(s: seq<T>, a: seq<T>, b: seq<T>)
    requires Interleaving(s, a, b)
    ensures |a| + |b| == |s|
    ensures Sublist(a, s) && Sublist(b, s)
    ensures forall x :: x in s <==> x in a || x in b
    decreases |s|
  {
    if s != [] {
      if a != [] && s[0] == a[0] && Interleaving(s[1..], a[1..], b) {
        InterleavingProperties(s[1..], a[1..], b);
        assert forall x :: x in a <==> x == a[0] || x in a[1..];
        assert b == [] || Sublist(b, s[1..]);
      } else {
        InterleavingProperties(s[1..], a, b[1..]);
        assert forall x :: x in b <==> x == b[0] || x in b[1..];
        assert a == [] || Sublist(a, s[1..]);
      }
      assert forall x :: x in s <==> x == s[0] || x in s[1..];
    }
  }

  /** The reversed list, as Python's `list.reverse()` leaves it. */
  function Reverse<T>(s: seq<T>): (r: seq<T>)
    ensures |r| == |s|
  {
    if s == [] then [] else Reverse(s[1..]) + [s[0]]
  }

  /** Reversing a list with one more element at the end puts that element
      first. */
  lemma {:induction false} ReverseSnoc<T>(s: seq<T>, x: T)
    ensures Reverse(s + [x]) == [x] + Reverse(s)
  {
    if s != [] {
      assert (s + [x])[1..] == s[1..] + [x];
      ReverseSnoc(s[1..], x);
    }
  }

  /** Pigeonhole principle: a list longer than `u` whose elements are all
      drawn from `u` repeats an element. */
  lemma Pigeonhole<T>(s: seq<T>, u: seq<T>)
    requires forall x :: x in s ==> x in u
    requires |s| > |u|
    ensures !Distinct(s)
  {
    if Distinct(s) {
      DistinctCard(s);
      CardAtMost(u);
      var ss := set x | x in s;
      var su := set x | x in u;
      assert ss <= su;
      SubsetCard(ss, su);
      assert false;
    }
  }

  lemma {:induction false} DistinctCard<T>(s: seq<T>)
    requires Distinct(s)
    ensures |set x | x in s| == |s|
  {
    if s != [] {
      DistinctCard(s[1..]);
      assert (set x | x in s) == (set x | x in s[1..]) + {s[0]};
      assert s[0] !in (set x | x in s[1..]);
    }
  }

  lemma {:induction false} CardAtMost<T>(s: seq<T>)
    ensures |set x | x in s| <= |s|
  {
    if s != [] {
      CardAtMost(s[1..]);
      assert (set x | x in s) == (set x | x in s[1..]) + {s[0]};
    }
  }

  lemma {:induction false} SubsetCard<T>(a: set<T>, b: set<T>)
    requires a <= b
    ensures |a| <= |b|
    decreases |b|
  {
    if a != {} {
      var x :| x in a;
      SubsetCard(a - {x}, b - {x});
    }
  }
}
