/** Counting facts about finite sets and duplicate-free sequences. */
module FiniteSets {

  /** The numbers below `n`. */
  ghost function Below(n: nat): (r: set<nat>)
    ensures |r| == n && forall x: nat :: x in r <==> x < n
  {
    if n == 0 then {} else Below(n - 1) + {n - 1}
  }

  ghost predicate NoDup<T(!new)>(s: seq<T>) {
    forall i, j :: 0 <= i < j < |s| ==> s[i] != s[j]
  }

  lemma {:induction false} SubsetCard<T>(a: set<T>, b: set<T>)
    requires a <= b
    ensures |a| <= |b| && (|a| == |b| ==> a == b)
  {
    if a != {} {
      var x :| x in a;
      SubsetCard(a - {x}, b - {x});
      assert b == (b - {x}) + {x};
    }
  }

  lemma {:induction false} NoDupCard<T(!new)>(s: seq<T>)
    requires NoDup(s)
    ensures |(set x | x in s)| == |s|
  {
    var all := set x | x in s;
    if s != [] {
      var k := |s| - 1;
      NoDupCard(s[..k]);
      var rest := set x | x in s[..k];
      assert s == s[..k] + [s[k]];
      assert all == rest + {s[k]};
      assert s[k] !in rest;
    }
  }

  /** A duplicate-free sequence over a finite set is no longer than the set. */
  lemma NoDupFits<T(!new)>(s: seq<T>, b: set<T>)
    requires NoDup(s) && forall x :: x in s ==> x in b
    ensures |s| <= |b|
  {
    NoDupCard(s);
    SubsetCard((set x | x in s), b);
  }

  lemma {:induction false} NoDupOnce<T(!new)>(s: seq<T>, p: T)
    requires NoDup(s)
    ensures multiset(s)[p] <= 1
  {
    if s != [] {
      var k := |s| - 1;
      assert s == s[..k] + [s[k]];
      NoDupOnce(s[..k], p);
    }
  }

  lemma {:induction false} OnceNoDup<T(!new)>(s: seq<T>)
    requires forall p :: multiset(s)[p] <= 1
    ensures NoDup(s)
  {
    if s != [] {
      var k := |s| - 1;
      assert s == s[..k] + [s[k]];
      assert multiset(s) == multiset(s[..k]) + multiset{s[k]};
      assert forall p :: multiset(s[..k])[p] <= multiset(s)[p];
      assert multiset(s)[s[k]] == multiset(s[..k])[s[k]] + 1;
      OnceNoDup(s[..k]);
    }
  }
}
