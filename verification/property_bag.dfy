/**
 A controller hands back a bag of properties whose values may be plain values
 or promises. Before the view can be rendered every property has to be
 settled; the combinator that does this is all-or-nothing: either every
 property yields a value and the whole bag resolves to the map of those
 values, or some property rejects and the whole bag rejects.

 `ResolveAll` is the functional statement of that behaviour, and
 `SettleAll` an iterative combinator that settles one property at a time
 and gives up at the first rejection, proved to agree with it.
 */
module PropertyBag {

  /** How one property of the controller's bag settles. */
  datatype Settle<+V> =
    | Plain(value: V)     // a value that is not a promise
    | Fulfils(value: V)   // a promise that resolves to `value`
    | Rejects             // a promise that rejects

  /** The outcome of settling a whole bag. */
  datatype Resolution<V> = Resolved(values: map<string, V>) | Rejected

  /** True when some property of the bag rejects. */
  predicate SomeRejects<V>(bag: map<string, Settle<V>>)
  {
    exists k :: k in bag && bag[k].Rejects?
  }

  /** The all-or-nothing resolution of a property bag. */
  function ResolveAll<V>(bag: map<string, Settle<V>>): (r: Resolution<V>)
    ensures r.Rejected? <==> exists k :: k in bag && bag[k].Rejects?
    ensures r.Resolved? ==> r.values.Keys == bag.Keys
    ensures r.Resolved? ==>
      forall k :: k in bag ==> !bag[k].Rejects? && r.values[k] == bag[k].value
  {
    if SomeRejects(bag) then Rejected
    else Resolved(map k | k in bag :: bag[k].value)
  }

  /** Settles the properties one by one, in no particular order, and stops at
      the first one that rejects. */
  method SettleAll<V>(bag: map<string, Settle<V>>) returns (r: Resolution<V>)
    ensures r == ResolveAll(bag)
  {
    var pending := bag.Keys;
    var values: map<string, V> := map[];
    while pending != {}
      invariant pending <= bag.Keys
      invariant values.Keys == bag.Keys - pending
      invariant forall k :: k in values ==> !bag[k].Rejects? && values[k] == bag[k].value
      decreases pending
    {
      var k :| k in pending;
      match bag[k] {
        case Rejects =>
          return Rejected;
        case Plain(v) =>
          values := values[k := v];
        case Fulfils(v) =>
          values := values[k := v];
      }
      pending := pending - {k};
    }
    assert values == map k | k in bag :: bag[k].value;
    r := Resolved(values);
  }

  /** A single rejecting property rejects the whole bag, whatever the others do. */
  lemma OneRejectionRejectsAll<V>(bag: map<string, Settle<V>>, k: string, j: string, other: Settle<V>)
    requires k in bag && bag[k].Rejects? && j != k
    ensures ResolveAll(bag) == Rejected
    ensures ResolveAll(bag[j := other]) == Rejected
  {
    assert bag[j := other][k].Rejects?;
  }
}
