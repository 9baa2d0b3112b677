/** The rings of all tracked models: one buffer per model, none shared. */
module HistoryTables {
  import opened Numerics
  import opened SampleHistory
  import opened Folding

  /** Every ring holds its model's history, in objects of its own. */
  ghost predicate RingsHold(rings: map<string, TrackerSampleHistory>, repr: set<object>,
                            histories: map<string, History>)
    reads repr
  {
    && rings.Keys == histories.Keys
    && (forall k :: k in rings ==> Holding(rings[k], repr) && rings[k].Value() == histories[k])
    && (forall j, k :: j in rings && k in rings && j != k ==>
          rings[j] != rings[k] && rings[j].samples != rings[k].samples)
  }

  ghost predicate Holding(ring: TrackerSampleHistory, repr: set<object>)
    reads repr
  {
    ring in repr && ring.samples in repr && ring.samples.Length > 0 && ring.Valid()
  }

  lemma RingAdded(rings: map<string, TrackerSampleHistory>, repr: set<object>, histories: map<string, History>,
                  name: string, ring: TrackerSampleHistory)
    requires RingsHold(rings, repr, histories) && name !in rings
    requires ring !in repr && ring.samples !in repr && ring.samples.Length > 0 && ring.Valid()
    ensures RingsHold(rings[name := ring], repr + {ring, ring.samples}, histories[name := ring.Value()])
  {
    var repr', rings', histories' := repr + {ring, ring.samples}, rings[name := ring], histories[name := ring.Value()];
    forall k | k in rings'
      ensures Holding(rings'[k], repr') && rings'[k].Value() == histories'[k]
    {
      if k != name {
        assert Holding(rings[k], repr);
      }
    }
    forall j, k | j in rings' && k in rings' && j != k
      ensures rings'[j] != rings'[k] && rings'[j].samples != rings'[k].samples
    {
      assert j != name ==> Holding(rings[j], repr);
      assert k != name ==> Holding(rings[k], repr);
    }
  }

  class HistoryTable {
    var rings: map<string, TrackerSampleHistory>
    ghost var values: map<string, History>
    ghost var Repr: set<object>

    /** The rings hold the values.  The quantifier stands for opacity (see `Folding`): it says
        `RingsHold(rings, Repr, values)`, to be unfolded by the methods of this class. */
    ghost predicate Valid()
      reads this, Repr
    {
      && this !in Repr
      && forall m: Mark {:trigger Open(m)} :: Open(m) && m == InsideTable ==> RingsHold(rings, Repr, values)
    }

    constructor ()
      ensures Valid() && fresh(Repr) && this !in Repr
      ensures values == map[]
    {
      rings, values := map[], map[];
      Repr := {};
    }

    method Add(name: string, capacity: nat)
      requires Valid() && name !in values
      modifies this
      ensures Valid() && fresh(Repr - old(Repr))
      ensures values == old(values)[name := EmptyHistory(capacity)]
    {
      assert Open(InsideTable);
      var ring := new TrackerSampleHistory(capacity);
      RingAdded(rings, Repr, values, name, ring);
      rings, values, Repr := rings[name := ring], values[name := ring.Value()], Repr + {ring, ring.samples};
    }

    method Clear(name: string)
      requires Valid() && name in values
      modifies `values, Repr
      ensures Valid()
      ensures values == old(values)[name := old(values)[name].Cleared()]
    {
      assert Open(InsideTable);
      rings[name].Reset(rings[name].samples.Length);
      assert RingsHold(rings, Repr, values[name := values[name].Cleared()]);
      values := values[name := values[name].Cleared()];
    }

    method Push(name: string, sample: TrackerSample)
      requires Valid() && name in values
      modifies `values, Repr
      ensures Valid()
      ensures values == old(values)[name := old(values)[name].Push(sample)]
    {
      assert Open(InsideTable);
      rings[name].Push(sample);
      assert RingsHold(rings, Repr, values[name := values[name].Push(sample)]);
      values := values[name := values[name].Push(sample)];
    }

    method Latest(name: string) returns (r: Option<TrackerSample>)
      requires Valid() && name in values
      ensures var h := values[name];
        if h.pushed == [] then r == None else h.capacity > 0 && r == Some(h.pushed[h.LatestNumber()])
    {
      assert Open(InsideTable);
      r := rings[name].Latest();
    }

    method Nearest(name: string, target: real) returns (r: Option<TrackerSample>)
      requires Valid() && name in values
      ensures var h := values[name];
        if h.pushed == [] then r == None else h.capacity > 0 && r == Some(h.pushed[h.NearestNumber(target)])
    {
      assert Open(InsideTable);
      r := rings[name].Nearest(target);
    }
  }
}
