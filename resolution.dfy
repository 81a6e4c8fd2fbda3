/** Placeholder resolution: every `bus` destination whose ARN is the literal "GlobalBus" gets the
    ARN of the global bus (src/cicd.ts:39-83). Specified on values by `ResolveRules`; done in place
    on a rule collection by `ResolveInPlace`, as the source does. */
module Resolution {
  import opened Configuration

  /** The placeholder a `bus` destination uses for the global bus. */
  const GlobalBusToken: string := "GlobalBus"

  function ResolveArn(arn: string, globalArn: string): string {
    if arn == GlobalBusToken then globalArn else arn
  }

  function ResolveDestination(d: Destination, globalArn: string): Destination {
    d.(arn := ResolveArn(d.arn, globalArn))
  }

  function ResolveList(ds: seq<Destination>, globalArn: string): (rs: seq<Destination>)
    ensures |rs| == |ds|
  {
    seq(|ds|, j requires 0 <= j < |ds| => ResolveDestination(ds[j], globalArn))
  }

  /** One rule after resolution: a rule without destinations or without a `bus` list is left as
      it is; `lambda` and `sqs` lists are never touched; in the `bus` list every placeholder
      becomes `globalArn`, and every other ARN, every name, filter and attachment stays. */
  function ResolveRule(r: Rule, globalArn: string): (res: Rule)
    ensures res.description == r.description && res.attachTo == r.attachTo
    ensures Present(r, Bus).None? ==> res == r
    ensures forall k: Kind :: Present(res, k).Some? == Present(r, k).Some?
    ensures forall k: Kind :: k != Bus ==> Present(res, k) == Present(r, k)
    ensures |KindList(res, Bus)| == |KindList(r, Bus)|
    ensures forall j :: 0 <= j < |KindList(r, Bus)| ==>
      var (before, after) := (KindList(r, Bus)[j], KindList(res, Bus)[j]);
      && after.name == before.name && after.filter == before.filter && after.attachTo == before.attachTo
      && (before.arn == GlobalBusToken ==> after.arn == globalArn)
      && (before.arn != GlobalBusToken ==> after.arn == before.arn)
  {
    match r.destinations
    case None => r
    case Some(ds) =>
      match ds.bus
      case None => r
      case Some(bus) => WithBus(r, ResolveList(bus, globalArn))
  }

  /** The rule with its `bus` list replaced. */
  function WithBus(r: Rule, bus: seq<Destination>): Rule
    requires r.destinations.Some?
  {
    r.(destinations := Some(r.destinations.value.(bus := Some(bus))))
  }

  /** The value-level resolution of a rule collection: names and order kept, each rule resolved
      on its own. */
  function ResolveRules(rules: Rules, globalArn: string): (res: Rules)
    ensures |res| == |rules|
    ensures forall i :: 0 <= i < |rules| ==> res[i].0 == rules[i].0 && res[i].1 == ResolveRule(rules[i].1, globalArn)
  {
    seq(|rules|, i requires 0 <= i < |rules| => (rules[i].0, ResolveRule(rules[i].1, globalArn)))
  }

  /** Resolving twice is resolving once, for every global ARN (the placeholder itself included). */
  lemma ResolveIdempotent(rules: Rules, globalArn: string)
    ensures ResolveRules(ResolveRules(rules, globalArn), globalArn) == ResolveRules(rules, globalArn)
  {
    var once := ResolveRules(rules, globalArn);
    forall i | 0 <= i < |rules| ensures ResolveRule(once[i].1, globalArn) == once[i].1 {
      var r := rules[i].1;
      match r.destinations
      case None =>
      case Some(ds) =>
        match ds.bus
        case None =>
        case Some(bus) =>
          var b1 := ResolveList(bus, globalArn);
          assert ResolveList(b1, globalArn) == b1;
    }
  }

  // ---------------------------------------------------------------------------
  // Counting bus destinations by ARN

  function CountArn(ds: seq<Destination>, arn: string): nat {
    if ds == [] then 0
    else CountArn(ds[..|ds| - 1], arn) + (if ds[|ds| - 1].arn == arn then 1 else 0)
  }

  /** How many `bus` destinations of the collection carry `arn`. */
  function BusArnCount(rules: Rules, arn: string): nat {
    if rules == [] then 0
    else BusArnCount(rules[..|rules| - 1], arn) + CountArn(KindList(rules[|rules| - 1].1, Bus), arn)
  }

  lemma {:induction false} ListCounts(ds: seq<Destination>, globalArn: string, arn: string)
    requires globalArn != GlobalBusToken
    ensures CountArn(ResolveList(ds, globalArn), globalArn) == CountArn(ds, GlobalBusToken) + CountArn(ds, globalArn)
    ensures CountArn(ResolveList(ds, globalArn), GlobalBusToken) == 0
    ensures arn != globalArn && arn != GlobalBusToken ==> CountArn(ResolveList(ds, globalArn), arn) == CountArn(ds, arn)
  {
    if ds != [] {
      var n := |ds| - 1;
      ListCounts(ds[..n], globalArn, arn);
      assert ResolveList(ds, globalArn)[..n] == ResolveList(ds[..n], globalArn);
    }
  }

  /** Substitution completeness: with k placeholders among the `bus` destinations, resolution
      leaves no placeholder, gives exactly k more destinations the global ARN, and changes the
      count of no other ARN. */
  lemma {:induction false} ResolveCounts(rules: Rules, globalArn: string, arn: string)
    requires globalArn != GlobalBusToken
    ensures BusArnCount(ResolveRules(rules, globalArn), globalArn)
         == BusArnCount(rules, GlobalBusToken) + BusArnCount(rules, globalArn)
    ensures BusArnCount(ResolveRules(rules, globalArn), GlobalBusToken) == 0
    ensures arn != globalArn && arn != GlobalBusToken ==>
      BusArnCount(ResolveRules(rules, globalArn), arn) == BusArnCount(rules, arn)
  {
    if rules != [] {
      var n := |rules| - 1;
      ResolveCounts(rules[..n], globalArn, arn);
      assert ResolveRules(rules, globalArn)[..n] == ResolveRules(rules[..n], globalArn);
      var r := rules[n].1;
      match Present(r, Bus)
      case None =>
      case Some(bus) => ListCounts(bus, globalArn, arn);
    }
  }

  /** Resolving one template for two accounts: the result for the second account carries no trace
      of the first account's global ARN unless the template already held it. */
  lemma NoCrossContamination(template: Rules, arnA: string, arnB: string)
    requires arnA != arnB && arnA != GlobalBusToken && arnB != GlobalBusToken
    requires BusArnCount(template, arnA) == 0
    ensures BusArnCount(ResolveRules(template, arnB), arnA) == 0
    ensures BusArnCount(ResolveRules(template, arnA), arnA) == BusArnCount(template, GlobalBusToken)
  {
    ResolveCounts(template, arnB, arnA);
    ResolveCounts(template, arnA, arnA);
  }

  // ---------------------------------------------------------------------------
  // The in-place pass (src/cicd.ts:41-57 and :66-82)

  /** Walks the rules in key order; skips a rule with no destinations or no `bus` list; in a
      `bus` list, overwrites the ARN of every destination holding the placeholder. */
  method ResolveInPlace(rs: RuleSet, globalArn: string)
    modifies rs
    ensures rs.rules == ResolveRules(old(rs.rules), globalArn)
  {
    ghost var orig := rs.rules;
    for i := 0 to |rs.rules|
      invariant |rs.rules| == |orig|
      invariant forall i' :: 0 <= i' < i ==> rs.rules[i'] == (orig[i'].0, ResolveRule(orig[i'].1, globalArn))
      invariant forall i' :: i <= i' < |orig| ==> rs.rules[i'] == orig[i']
    {
      var rule := rs.rules[i].1;
      if rule.destinations == None || rule.destinations.value.bus == None {
        continue;
      }
      var bus := rule.destinations.value.bus.value;
      ghost var origBus := bus;
      assert WithBus(rule, bus) == rule;
      for j := 0 to |bus|
        invariant |bus| == |origBus|
        invariant forall m :: 0 <= m < |bus| ==> bus[m] == if m < j then ResolveDestination(origBus[m], globalArn) else origBus[m]
        invariant |rs.rules| == |orig|
        invariant forall i' :: 0 <= i' < i ==> rs.rules[i'] == (orig[i'].0, ResolveRule(orig[i'].1, globalArn))
        invariant forall i' :: i < i' < |orig| ==> rs.rules[i'] == orig[i']
        invariant rs.rules[i] == (orig[i].0, WithBus(rule, bus))
      {
        var dest := bus[j];
        if dest.arn == GlobalBusToken {
          bus := bus[j := dest.(arn := globalArn)];
          rs.rules := rs.rules[i := (rs.rules[i].0, WithBus(rule, bus))];
        }
      }
      assert bus == ResolveList(origBus, globalArn);
    }
  }
}
