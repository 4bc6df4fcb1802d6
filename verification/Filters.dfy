/** Filters of points: what they accept, and what merging the filters of a query and its prefetches accepts. */
module Filters {
  import opened Options

  datatype Condition = Field(c: int) | HasId(ids: set<nat>) | Sub(filter: Filter)
  datatype MinShould = MinShould(conditions: seq<Condition>, minCount: nat)

  /** An optional list of conditions: an absent one asks for nothing, an empty one may ask for the impossible. */
  datatype Part = Absent | Given(value: seq<Condition>)

  datatype Filter = Filter(should: Part, minShould: Option<MinShould>, must: Part, mustNot: Part)

  /** Decides the conditions that are not filters themselves. */
  type Checker = Condition -> bool

  predicate CheckCondition(v: Checker, c: Condition)
    decreases c, 0
  {
    if c.Sub? then CheckFilter(v, c.filter) else v(c)
  }

  predicate CheckFilter(v: Checker, f: Filter)
    decreases f, 0
  {
    && (f.should.Given? ==> CountMet(v, f.should.value) > 0)
    && (f.minShould.Some? ==> CountMet(v, f.minShould.value.conditions) >= f.minShould.value.minCount)
    && (f.must.Given? ==> CountMet(v, f.must.value) == |f.must.value|)
    && (f.mustNot.Given? ==> CountMet(v, f.mustNot.value) == 0)
  }

  function CountMet(v: Checker, cs: seq<Condition>): (n: nat)
    ensures n <= |cs|
    decreases cs, 0
  {
    if cs == [] then 0 else (if CheckCondition(v, cs[0]) then 1 else 0) + CountMet(v, cs[1..])
  }

  /** No filter accepts every point. */
  predicate Accepts(v: Checker, f: Option<Filter>) {
    f.Some? ==> CheckFilter(v, f.value)
  }

  lemma {:induction false} CountAll(v: Checker, cs: seq<Condition>)
    ensures CountMet(v, cs) == |cs| <==> forall i :: 0 <= i < |cs| ==> CheckCondition(v, cs[i])
    decreases |cs|
  {
    hide CheckCondition;
    if cs != [] {
      CountAll(v, cs[1..]);
      assert forall i :: 0 < i < |cs| ==> cs[i] == cs[1..][i - 1];
    }
  }

  lemma {:induction false} CountNone(v: Checker, cs: seq<Condition>)
    ensures CountMet(v, cs) == 0 <==> forall i :: 0 <= i < |cs| ==> !CheckCondition(v, cs[i])
    decreases |cs|
  {
    hide CheckCondition;
    if cs != [] {
      CountNone(v, cs[1..]);
      assert forall i :: 0 < i < |cs| ==> cs[i] == cs[1..][i - 1];
    }
  }

  /** What the counts stand for: any, all and none of the conditions. */
  lemma CountMeans(v: Checker, cs: seq<Condition>)
    ensures CountMet(v, cs) > 0 <==> exists c :: c in cs && CheckCondition(v, c)
    ensures CountMet(v, cs) == |cs| <==> forall c :: c in cs ==> CheckCondition(v, c)
    ensures CountMet(v, cs) == 0 <==> forall c :: c in cs ==> !CheckCondition(v, c)
  {
    CountAll(v, cs);
    CountNone(v, cs);
    hide CountMet, CheckCondition;
    assert forall i :: 0 <= i < |cs| ==> cs[i] in cs;
  }

  /** What a filter asks for: one of `should`, enough of `min_should`, all of `must` and none of `must_not`. */
  lemma FilterMeans(v: Checker, f: Filter)
    ensures CheckFilter(v, f)
       <==> (f.should.Given? ==> exists c :: c in f.should.value && CheckCondition(v, c))
            && (f.minShould.Some? ==> CountMet(v, f.minShould.value.conditions) >= f.minShould.value.minCount)
            && (f.must.Given? ==> forall c :: c in f.must.value ==> CheckCondition(v, c))
            && (f.mustNot.Given? ==> forall c :: c in f.mustNot.value ==> !CheckCondition(v, c))
  {
    if f.should.Given? { CountMeans(v, f.should.value); }
    if f.must.Given? { CountMeans(v, f.must.value); }
    if f.mustNot.Given? { CountMeans(v, f.mustNot.value); }
    hide CountMet;
  }

  /** A filter as a condition is met exactly by what it accepts, so filters can be and-ed, or-ed and negated. */
  lemma NestedMeans(v: Checker, f: Filter, g: Filter)
    ensures CheckFilter(v, Filter(Absent, None, Given([Sub(f), Sub(g)]), Absent))
       <==> CheckFilter(v, f) && CheckFilter(v, g)
    ensures CheckFilter(v, Filter(Given([Sub(f), Sub(g)]), None, Absent, Absent))
       <==> CheckFilter(v, f) || CheckFilter(v, g)
    ensures CheckFilter(v, Filter(Absent, None, Absent, Given([Sub(f)]))) <==> !CheckFilter(v, f)
  {
    FilterMeans(v, Filter(Absent, None, Given([Sub(f), Sub(g)]), Absent));
    FilterMeans(v, Filter(Given([Sub(f), Sub(g)]), None, Absent, Absent));
    FilterMeans(v, Filter(Absent, None, Absent, Given([Sub(f)])));
    assert CheckCondition(v, Sub(f)) == CheckFilter(v, f) && CheckCondition(v, Sub(g)) == CheckFilter(v, g);
    assert Sub(f) in [Sub(f), Sub(g)] && Sub(g) in [Sub(f), Sub(g)] && Sub(f) in [Sub(f)];
    hide CheckFilter;
  }

  lemma {:induction false} CountJoin(v: Checker, a: seq<Condition>, b: seq<Condition>)
    ensures CountMet(v, a + b) == CountMet(v, a) + CountMet(v, b)
    decreases |a|
  {
    if a == [] {
      assert a + b == b;
    } else {
      assert (a + b)[1..] == a[1..] + b;
      CountJoin(v, a[1..], b);
    }
  }

  // ----- merging

  function MergeParts(a: Part, b: Part): Part {
    if a.Absent? then b else if b.Absent? then a else Given(a.value + b.value)
  }

  /** The union of the conditions, of which the larger of the two counts must be met. */
  function MergeMinShould(a: Option<MinShould>, b: Option<MinShould>): Option<MinShould> {
    if a.None? then b
    else if b.None? then a
    else Some(MinShould(a.value.conditions + b.value.conditions, Max(a.value.minCount, b.value.minCount)))
  }

  function Max(a: nat, b: nat): nat {
    if a < b then b else a
  }

  function Min(a: nat, b: nat): nat {
    if a < b then a else b
  }

  function Merge(a: Filter, b: Filter): Filter {
    Filter(MergeParts(a.should, b.should), MergeMinShould(a.minShould, b.minShould),
           MergeParts(a.must, b.must), MergeParts(a.mustNot, b.mustNot))
  }

  function MergeOpts(a: Option<Filter>, b: Option<Filter>): Option<Filter> {
    if a.None? then b else if b.None? then a else Some(Merge(a.value, b.value))
  }

  // ----- what a merged filter accepts

  lemma MergedParts(v: Checker, a: Filter, b: Filter)
    ensures var m := Merge(a, b);
            && (m.must.Given? ==> CountMet(v, m.must.value) == |m.must.value|)
               == ((a.must.Given? ==> CountMet(v, a.must.value) == |a.must.value|)
                   && (b.must.Given? ==> CountMet(v, b.must.value) == |b.must.value|))
            && (m.mustNot.Given? ==> CountMet(v, m.mustNot.value) == 0)
               == ((a.mustNot.Given? ==> CountMet(v, a.mustNot.value) == 0)
                   && (b.mustNot.Given? ==> CountMet(v, b.mustNot.value) == 0))
  {
    if a.must.Given? && b.must.Given? {
      CountJoin(v, a.must.value, b.must.value);
    }
    if a.mustNot.Given? && b.mustNot.Given? {
      CountJoin(v, a.mustNot.value, b.mustNot.value);
    }
  }

  /** At most one of two filters has each of the parts that are merged by union. */
  predicate Apart(a: Filter, b: Filter) {
    (a.should.Absent? || b.should.Absent?) && (a.minShould.None? || b.minShould.None?)
  }

  /** Then the merged filter accepts exactly what both accept. */
  lemma ApartMergeIsBoth(v: Checker, a: Filter, b: Filter)
    requires Apart(a, b)
    ensures CheckFilter(v, Merge(a, b)) <==> CheckFilter(v, a) && CheckFilter(v, b)
  {
    MergedParts(v, a, b);
    hide CountMet;
  }

  /** Merging `b` into `a` cannot let in what `a` keeps out by its `should` or its `min_should`. */
  predicate Narrows(a: Filter, b: Filter) {
    && (a.should.Given? && b.should.Given? ==> forall c :: c in b.should.value ==> c in a.should.value)
    && (a.minShould.Some? && b.minShould.Some? ==> MinNarrows(a.minShould.value, b.minShould.value))
  }

  /** Even with all of `b` met, what falls short of `a` falls short of the merged count. */
  predicate MinNarrows(a: MinShould, b: MinShould) {
    a.minCount == 0 || Min(a.minCount - 1, |a.conditions|) + |b.conditions| < Max(a.minCount, b.minCount)
  }

  predicate NarrowsOpt(a: Option<Filter>, b: Option<Filter>) {
    a.Some? && b.Some? ==> Narrows(a.value, b.value)
  }

  lemma NarrowsImplies(v: Checker, a: Filter, b: Filter)
    requires Narrows(a, b) && CheckFilter(v, Merge(a, b))
    ensures CheckFilter(v, a)
  {
    MergedParts(v, a, b);
    if a.should.Given? && b.should.Given? {
      ShouldNarrows(v, a.should.value, b.should.value);
    }
    if a.minShould.Some? && b.minShould.Some? {
      CountJoin(v, a.minShould.value.conditions, b.minShould.value.conditions);
    }
    hide CountMet;
  }

  lemma ShouldNarrows(v: Checker, a: seq<Condition>, b: seq<Condition>)
    requires (forall c :: c in b ==> c in a) && CountMet(v, a + b) > 0
    ensures CountMet(v, a) > 0
  {
    CountMeans(v, a + b);
    CountMeans(v, a);
  }

  lemma NarrowsOptImplies(v: Checker, a: Option<Filter>, b: Option<Filter>)
    requires NarrowsOpt(a, b) && Accepts(v, MergeOpts(a, b))
    ensures Accepts(v, a)
  {
    if a.Some? && b.Some? {
      NarrowsImplies(v, a.value, b.value);
    }
  }

  /** The same for the second filter: what the merged one accepts, it accepts, if the first one narrows it. */
  lemma NarrowedByFirst(v: Checker, a: Option<Filter>, b: Option<Filter>)
    requires NarrowsOpt(b, a) && Accepts(v, MergeOpts(a, b))
    ensures Accepts(v, b)
  {
    if a.Some? && b.Some? {
      MergeEitherWay(v, a.value, b.value);
      NarrowsImplies(v, b.value, a.value);
    }
  }

  lemma MergeEitherWay(v: Checker, a: Filter, b: Filter)
    ensures CheckFilter(v, Merge(a, b)) <==> CheckFilter(v, Merge(b, a))
  {
    MergedParts(v, a, b);
    MergedParts(v, b, a);
    if a.should.Given? && b.should.Given? {
      CountJoin(v, a.should.value, b.should.value);
      CountJoin(v, b.should.value, a.should.value);
    }
    if a.minShould.Some? && b.minShould.Some? {
      CountJoin(v, a.minShould.value.conditions, b.minShould.value.conditions);
      CountJoin(v, b.minShould.value.conditions, a.minShould.value.conditions);
    }
    hide CountMet;
  }

  /** One of the filters is absent, or at most one of them has each of the parts that are merged by union. */
  predicate ApartOpt(a: Option<Filter>, b: Option<Filter>) {
    a.Some? && b.Some? ==> Apart(a.value, b.value)
  }

  /** Merging optional filters: an absent one asks for nothing, and otherwise both are asked for. */
  lemma MergeOptsIsBoth(v: Checker, a: Option<Filter>, b: Option<Filter>)
    requires ApartOpt(a, b)
    ensures Accepts(v, MergeOpts(a, b)) <==> Accepts(v, a) && Accepts(v, b)
  {
    if a.Some? && b.Some? {
      ApartMergeIsBoth(v, a.value, b.value);
    }
  }

  // ----- the condition is exact

  predicate Atoms(cs: seq<Condition>) {
    forall c :: c in cs ==> !c.Sub?
  }

  function OnlyShould(cs: seq<Condition>): Filter {
    Filter(Given(cs), None, Absent, Absent)
  }

  function OnlyMin(m: MinShould): Filter {
    Filter(Absent, Some(m), Absent, Absent)
  }

  ghost predicate AlwaysImplies(m: Filter, a: Filter) {
    forall v: Checker :: CheckFilter(v, m) ==> CheckFilter(v, a)
  }

  /** Of two `should` filters the merged one always implies the first exactly when it narrows the first. */
  lemma ShouldExact(a: seq<Condition>, b: seq<Condition>)
    requires Atoms(b) && Atoms(a)
    ensures AlwaysImplies(Merge(OnlyShould(a), OnlyShould(b)), OnlyShould(a)) <==> Narrows(OnlyShould(a), OnlyShould(b))
  {
    var fa, fb := OnlyShould(a), OnlyShould(b);
    if Narrows(fa, fb) {
      forall v: Checker | CheckFilter(v, Merge(fa, fb)) ensures CheckFilter(v, fa) {
        NarrowsImplies(v, fa, fb);
      }
    } else {
      var bad :| bad in b && bad !in a;
      var v: Checker := c => c == bad;
      CountMeans(v, a);
      CountMeans(v, a + b);
      assert bad in a + b && CheckCondition(v, bad);
      assert !CheckFilter(v, fa) && CheckFilter(v, Merge(fa, fb));
    }
  }

  ghost predicate Distinct(cs: seq<Condition>) {
    forall i, j :: 0 <= i < j < |cs| ==> cs[i] != cs[j]
  }

  /** For `min_should` filters over different conditions: the merged one always implies the first iff it narrows it. */
  lemma MinShouldExact(a: MinShould, b: MinShould)
    requires Atoms(a.conditions + b.conditions) && Distinct(a.conditions + b.conditions)
    ensures AlwaysImplies(Merge(OnlyMin(a), OnlyMin(b)), OnlyMin(a)) <==> Narrows(OnlyMin(a), OnlyMin(b))
  {
    var fa, fb := OnlyMin(a), OnlyMin(b);
    if Narrows(fa, fb) {
      forall v: Checker | CheckFilter(v, Merge(fa, fb)) ensures CheckFilter(v, fa) {
        NarrowsImplies(v, fa, fb);
      }
    } else {
      var n := Min(a.minCount - 1, |a.conditions|);
      var v: Checker := c => c in a.conditions[..n] || c in b.conditions;
      MetByChoice(v, a.conditions, b.conditions, n);
      CountJoin(v, a.conditions, b.conditions);
      assert !CheckFilter(v, fa) && CheckFilter(v, Merge(fa, fb));
    }
  }

  lemma MetByChoice(v: Checker, a: seq<Condition>, b: seq<Condition>, n: nat)
    requires Atoms(a + b) && Distinct(a + b) && n <= |a|
    requires forall c :: v(c) <==> c in a[..n] || c in b
    ensures CountMet(v, a) == n && CountMet(v, b) == |b|
  {
    var all := a + b;
    forall i | 0 <= i < |a| ensures CheckCondition(v, a[i]) <==> i < n {
      assert all[i] == a[i] && a[i] in all;
      ChosenOnly(a, b, n, i);
    }
    forall i | 0 <= i < |b| ensures CheckCondition(v, b[i]) {
      assert all[|a| + i] == b[i] && b[i] in all;
    }
    assert a == a[..n] + a[n..];
    CountJoin(v, a[..n], a[n..]);
    CountAll(v, a[..n]);
    CountNone(v, a[n..]);
    CountAll(v, b);
  }

  lemma ChosenOnly(a: seq<Condition>, b: seq<Condition>, n: nat, i: nat)
    requires Distinct(a + b) && n <= |a| && i < |a|
    ensures a[i] in a[..n] || a[i] in b <==> i < n
  {
    var all := a + b;
    assert forall j :: 0 <= j < |a| ==> all[j] == a[j];
    assert forall j :: 0 <= j < |b| ==> all[|a| + j] == b[j];
    if i < n {
      assert a[..n][i] == a[i];
    }
  }

  // ----- a filter for points by id

  function OnlyIds(ids: set<nat>): Filter {
    Filter(Absent, None, Given([HasId(ids)]), Absent)
  }

  lemma OnlyIdsMeans(v: Checker, ids: set<nat>)
    ensures CheckFilter(v, OnlyIds(ids)) <==> v(HasId(ids))
  {
    CountMeans(v, [HasId(ids)]);
  }
}
