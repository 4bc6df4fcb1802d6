/** The distinct-id generator of the start graph, in place on an array; raw generator outputs are arguments. */
module RandomIds {
  import opened FiniteSets

  type NatReorder = seq<nat> -> seq<nat>

  ghost predicate Ascending(a: seq<nat>) {
    forall i, j :: 0 <= i < j < |a| ==> a[i] <= a[j]
  }

  ghost predicate StrictlyAscending(a: seq<nat>) {
    forall i, j :: 0 <= i < j < |a| ==> a[i] < a[j]
  }

  ghost predicate SortsNats(f: NatReorder) {
    forall a: seq<nat> :: multiset(f(a)) == multiset(a) && Ascending(f(a))
  }

  /** Every draw reduced to `[0, m)`. */
  function Reduced(draws: seq<nat>, m: nat): (r: seq<nat>)
    requires m > 0
    ensures |r| == |draws| && forall i :: 0 <= i < |r| ==> r[i] == draws[i] % m
  {
    seq(|draws|, i requires 0 <= i < |draws| => draws[i] % m)
  }

  /** Each number not above its predecessor becomes the predecessor's successor. */
  function Bumped(a: seq<nat>): (r: seq<nat>)
    ensures |r| == |a|
  {
    if |a| <= 1 then a
    else
      var k := |a| - 1;
      var r := Bumped(a[..k]);
      r + [if a[k] <= r[k - 1] then r[k - 1] + 1 else a[k]]
  }

  function Rotated(a: seq<nat>, off: nat, n: nat): (r: seq<nat>)
    requires n > 0
    ensures |r| == |a| && forall i :: 0 <= i < |r| ==> r[i] == (a[i] + off) % n
  {
    seq(|a|, i requires 0 <= i < |a| => (a[i] + off) % n)
  }

  /** Bumping makes any sequence strictly ascending and moves position `i` at most `i` above the old bound. */
  lemma {:induction false} BumpedSpreads(a: seq<nat>, m: nat)
    requires forall i :: 0 <= i < |a| ==> a[i] < m
    ensures StrictlyAscending(Bumped(a))
    ensures forall i :: 0 <= i < |a| ==> Bumped(a)[i] < m + i
  {
    if |a| > 1 {
      var k := |a| - 1;
      BumpedSpreads(a[..k], m);
      var r := Bumped(a[..k]);
      assert forall i :: 0 <= i < k - 1 ==> r[i] < r[k - 1];
    }
  }

  /** No strictly ascending sequence at or above `a` is anywhere smaller: bumping moves no more than it must. */
  lemma {:induction false} BumpedLeast(a: seq<nat>, c: seq<nat>)
    requires |c| == |a| && StrictlyAscending(c) && forall i :: 0 <= i < |a| ==> c[i] >= a[i]
    ensures forall i :: 0 <= i < |a| ==> Bumped(a)[i] <= c[i]
  {
    if |a| > 1 {
      var k := |a| - 1;
      BumpedLeast(a[..k], c[..k]);
      assert c[k - 1] < c[k] && Bumped(a[..k])[k - 1] <= c[k - 1];
    }
  }

  lemma {:induction false} BumpedAbove(a: seq<nat>)
    ensures forall i :: 0 <= i < |a| ==> a[i] <= Bumped(a)[i]
  {
    if |a| > 1 {
      BumpedAbove(a[..|a| - 1]);
    }
  }

  lemma RotatedApart(x: nat, y: nat, off: nat, n: nat)
    requires x < y < n && off < n
    ensures (x + off) % n != (y + off) % n
  {
    WrapOnce(x + off, n);
    WrapOnce(y + off, n);
  }

  lemma WrapOnce(z: nat, n: nat)
    requires 0 < n && z < 2 * n
    ensures z % n == if z < n then z else z - n
  {
    var q := z / n;
    assert z == q * n + z % n;
    assert q < 2 by {
      assert q >= 2 ==> q * n >= 2 * n;
    }
    assert q == 0 || q == 1;
  }

  lemma RotatedDistinct(a: seq<nat>, off: nat, n: nat)
    requires n > 0 && off < n && StrictlyAscending(a) && forall i :: 0 <= i < |a| ==> a[i] < n
    ensures NoDup(Rotated(a, off, n)) && forall x :: x in Rotated(a, off, n) ==> x < n
  {
    forall i, j | 0 <= i < j < |a| ensures Rotated(a, off, n)[i] != Rotated(a, off, n)[j] {
      RotatedApart(a[i], a[j], off, n);
    }
  }

  /** The ids drawn: reduce, sort, spread apart, rotate. */
  function Drawn(sort: NatReorder, draws: seq<nat>, offset: nat, n: nat): (r: seq<nat>)
    requires |draws| < n
  {
    Rotated(Bumped(sort(Reduced(draws, n - |draws|))), offset % n, n)
  }

  lemma SortedDraws(sort: NatReorder, draws: seq<nat>, m: nat)
    requires m > 0 && SortsNats(sort)
    ensures var b := sort(Reduced(draws, m));
            |b| == |draws| && Ascending(b) && multiset(b) == multiset(Reduced(draws, m))
            && forall i :: 0 <= i < |b| ==> b[i] < m
  {
    var a := Reduced(draws, m);
    var b := sort(a);
    assert multiset(b) == multiset(a);
    assert |b| == |multiset(b)| == |multiset(a)| == |a|;
    forall i | 0 <= i < |b| ensures b[i] < m {
      assert b[i] in multiset(b);
      assert b[i] in a;
    }
  }

  /** Whatever the generator yields, the ids are in range and pairwise distinct, one per draw. */
  lemma DrawnDistinct(sort: NatReorder, draws: seq<nat>, offset: nat, n: nat)
    requires |draws| < n && SortsNats(sort)
    ensures var r := Drawn(sort, draws, offset, n);
            |r| == |draws| && NoDup(r) && forall x :: x in r ==> x < n
  {
    var m := n - |draws|;
    var b := sort(Reduced(draws, m));
    SortedDraws(sort, draws, m);
    BumpedSpreads(b, m);
    RotatedDistinct(Bumped(b), offset % n, n);
  }

  /** `z` is the least strictly ascending sequence that is nowhere below `b`. */
  ghost predicate LeastAbove(z: seq<nat>, b: seq<nat>) {
    && |z| == |b| && StrictlyAscending(z) && (forall i :: 0 <= i < |b| ==> b[i] <= z[i])
    && forall c: seq<nat> :: |c| == |b| && StrictlyAscending(c) && (forall i :: 0 <= i < |b| ==> b[i] <= c[i])
         ==> forall i :: 0 <= i < |b| ==> z[i] <= c[i]
  }

  lemma BumpedLeastAbove(b: seq<nat>, m: nat)
    requires forall i :: 0 <= i < |b| ==> b[i] < m
    ensures LeastAbove(Bumped(b), b)
  {
    var z := Bumped(b);
    BumpedSpreads(b, m);
    BumpedAbove(b);
    forall c: seq<nat> | |c| == |b| && StrictlyAscending(c) && (forall i :: 0 <= i < |b| ==> b[i] <= c[i])
      ensures forall i :: 0 <= i < |b| ==> z[i] <= c[i]
    {
      BumpedLeast(b, c);
    }
  }

  /**
   Which ids are drawn: the sorted draws, moved apart no more than it takes to make them distinct, and then all turned
   by the same offset.
   */
  lemma DrawnExact(sort: NatReorder, draws: seq<nat>, offset: nat, n: nat) returns (z: seq<nat>)
    requires |draws| < n && SortsNats(sort)
    ensures LeastAbove(z, sort(Reduced(draws, n - |draws|)))
    ensures var r := Drawn(sort, draws, offset, n);
            |r| == |z| && forall i :: 0 <= i < |r| ==> r[i] == (z[i] + offset % n) % n
  {
    var m := n - |draws|;
    var b := sort(Reduced(draws, m));
    SortedDraws(sort, draws, m);
    BumpedLeastAbove(b, m);
    z := Bumped(b);
  }

  /** First sweep: one reduced draw per slot. */
  method Fill(addr: array<nat>, draws: seq<nat>, m: nat)
    requires addr.Length == |draws| && m > 0
    modifies addr
    ensures addr[..] == Reduced(draws, m)
  {
    for i := 0 to addr.Length
      invariant addr[..i] == Reduced(draws, m)[..i]
    {
      addr[i] := draws[i] % m;
      assert addr[..i + 1] == addr[..i] + [addr[i]];
    }
  }

  /** The library sort, applied in place. */
  method SortInPlace(sort: NatReorder, addr: array<nat>)
    requires SortsNats(sort)
    modifies addr
    ensures addr[..] == sort(old(addr[..]))
  {
    var sorted := sort(addr[..]);
    assert multiset(sorted) == multiset(addr[..]);
    assert |multiset(sorted)| == |sorted| && |multiset(addr[..])| == addr.Length;
    forall i | 0 <= i < addr.Length {
      addr[i] := sorted[i];
    }
  }

  lemma BumpedStep(a: seq<nat>, i: nat)
    requires 1 <= i < |a|
    ensures var r := Bumped(a[..i]); Bumped(a[..i + 1]) == r + [if a[i] <= r[i - 1] then r[i - 1] + 1 else a[i]]
  {
    assert a[..i + 1][..i] == a[..i];
  }

  /** Second sweep, in place: spread a sorted array apart. */
  method Spread(addr: array<nat>)
    modifies addr
    ensures addr[..] == Bumped(old(addr[..]))
  {
    ghost var a := addr[..];
    if addr.Length > 0 {
      for i := 1 to addr.Length
        invariant addr[..i] == Bumped(a[..i])
        invariant addr[i..] == a[i..]
      {
        ghost var r := Bumped(a[..i]);
        BumpedStep(a, i);
        assert addr[i] == addr[i..][0] == a[i] && addr[i - 1] == addr[..i][i - 1] == r[i - 1];
        assert addr[i + 1..] == addr[i..][1..] == a[i..][1..] == a[i + 1..];
        if addr[i] <= addr[i - 1] {
          addr[i] := addr[i - 1] + 1;
        }
        assert addr[..i] == r && addr[i + 1..] == a[i + 1..];
        assert addr[..i + 1] == addr[..i] + [addr[i]];
      }
    }
    assert addr[..] == addr[..addr.Length] && a == a[..addr.Length];
  }

  /** Third sweep, in place: rotate within `[0, n)`. */
  method Rotate(addr: array<nat>, off: nat, n: nat)
    requires n > 0
    modifies addr
    ensures addr[..] == Rotated(old(addr[..]), off, n)
  {
    ghost var a := addr[..];
    for i := 0 to addr.Length
      invariant addr[..i] == Rotated(a, off, n)[..i]
      invariant addr[i..] == a[i..]
    {
      assert addr[i] == addr[i..][0];
      addr[i] := (addr[i] + off) % n;
      assert addr[..i + 1] == addr[..i] + [addr[i]];
    }
  }

  /** The in-place generator. `addr` has one slot per draw, fewer than `n`. */
  method GenRandom(sort: NatReorder, draws: seq<nat>, offset: nat, addr: array<nat>, n: nat)
    requires addr.Length == |draws| < n && SortsNats(sort)
    modifies addr
    ensures addr[..] == Drawn(sort, draws, offset, n)
    ensures NoDup(addr[..]) && forall x :: x in addr[..] ==> x < n
  {
    hide Reduced, Bumped, Rotated, NoDup, SortsNats;
    Fill(addr, draws, n - addr.Length);
    SortInPlace(sort, addr);
    Spread(addr);
    Rotate(addr, offset % n, n);
    DrawnDistinct(sort, draws, offset, n);
  }
}
