/** The local bus stack of one account (src/bus/local-stack.ts): a custom bus, an imported
    default bus, and one EventBridge rule per destination of the account's rules and of the shared
    rules. The CDK constructs are modelled by the records they are built from. */
module LocalStack {
  import opened Configuration
  import opened Resolution

  /** The bus a rule is attached to: the stack's own custom bus, or a bus imported by ARN. */
  datatype BusRef = LocalCustomBus(name: string) | ImportedBus(arn: string)

  /** What a routing rule delivers to: an imported bus, function or queue, by ARN. */
  datatype Target = Target(kind: Kind, id: string, arn: string)

  /** One `EventRule` construct. */
  datatype RoutingRule = RoutingRule(
    id: string,
    enabled: bool,
    eventBus: BusRef,
    target: Target,
    description: string,
    eventPattern: Json)

  function KindName(k: Kind): string {
    match k
    case Bus => "bus"
    case Lambda => "lambda"
    case Sqs => "sqs"
  }

  function CustomBusName(env: Env): string {
    "LocalBus-" + env.account + "-" + env.region
  }

  function DefaultBusArn(env: Env): string {
    "arn:aws:events:" + env.region + ":" + env.account + ":event-bus/default"
  }

  function LogGroupName(env: Env): string {
    "LocalBus-LogGroup-" + env.account + "-" + env.region
  }

  function CustomBusRef(env: Env): BusRef {
    LocalCustomBus(CustomBusName(env))
  }

  function DefaultBusRef(env: Env): BusRef {
    ImportedBus(DefaultBusArn(env))
  }

  /** A rule goes to the default bus exactly when it asks for it, and to the custom bus otherwise. */
  function SelectBus(env: Env, attachTo: AttachTo): (b: BusRef)
    ensures b.ImportedBus? <==> attachTo == DefaultBus
    ensures b.ImportedBus? ==> b.arn == DefaultBusArn(env)
    ensures b.LocalCustomBus? ==> b.name == CustomBusName(env)
  {
    if attachTo == DefaultBus then DefaultBusRef(env) else CustomBusRef(env)
  }

  function RuleId(ruleName: string, k: Kind, destName: string): string {
    ruleName + KindName(k) + destName + "Rule"
  }

  function TargetId(ruleName: string, k: Kind, destName: string): string {
    ruleName + KindName(k) + destName + "Target"
  }

  function Description(ruleName: string, destName: string, ruleDescription: string): string {
    ruleName + "/" + destName + " " + ruleDescription
  }

  /** The routing rule emitted for destination `d` of kind `k` of the rule `ruleName`. */
  function RoutingRuleFor(ruleName: string, rule: Rule, k: Kind, d: Destination, bus: BusRef): RoutingRule {
    RoutingRule(
      RuleId(ruleName, k, d.name),
      true,
      bus,
      Target(k, TargetId(ruleName, k, d.name), d.arn),
      Description(ruleName, d.name, rule.description),
      d.filter)
  }

  /** What one `add*Destination` call emits: one routing rule per destination of kind `k`, in
      list order; nothing when the kind or the whole destinations block is missing. */
  function KindRoutingRules(ruleName: string, rule: Rule, k: Kind, bus: BusRef): (rs: seq<RoutingRule>)
    ensures |rs| == |KindList(rule, k)|
  {
    seq(|KindList(rule, k)|, j requires 0 <= j < |KindList(rule, k)| => RoutingRuleFor(ruleName, rule, k, KindList(rule, k)[j], bus))
  }

  /** What one iteration of a rule loop emits: bus, then lambda, then sqs. */
  function RuleRoutingRules(ruleName: string, rule: Rule, bus: BusRef): seq<RoutingRule> {
    KindRoutingRules(ruleName, rule, Bus, bus) + KindRoutingRules(ruleName, rule, Lambda, bus) + KindRoutingRules(ruleName, rule, Sqs, bus)
  }

  /** What one rule loop emits over a whole collection, in key order. */
  function RulesRoutingRules(rules: Rules, env: Env): seq<RoutingRule> {
    if rules == [] then []
    else
      var n := |rules| - 1;
      RulesRoutingRules(rules[..n], env) + RuleRoutingRules(rules[n].0, rules[n].1, SelectBus(env, rules[n].1.attachTo))
  }

  /** Everything a local stack emits: the account's rules, then the shared rules. */
  function StackRoutingRules(env: Env, rules: Option<Rules>, sharedRules: Option<Rules>): seq<RoutingRule> {
    RulesRoutingRules(OrEmpty(rules), env) + RulesRoutingRules(OrEmpty(sharedRules), env)
  }

  // ---------------------------------------------------------------------------
  // Counting and positions

  /** The combined length of whichever destination lists the rule has. */
  function DestinationCount(r: Rule): nat {
    |KindList(r, Bus)| + |KindList(r, Lambda)| + |KindList(r, Sqs)|
  }

  function TotalDestinations(rules: Rules): nat {
    if rules == [] then 0 else TotalDestinations(rules[..|rules| - 1]) + DestinationCount(rules[|rules| - 1].1)
  }

  /** Where the list of kind `k` starts within the routing rules of one rule. */
  function KindOffset(r: Rule, k: Kind): nat {
    match k
    case Bus => 0
    case Lambda => |KindList(r, Bus)|
    case Sqs => |KindList(r, Bus)| + |KindList(r, Lambda)|
  }

  /** One routing rule per destination: the count is the sum of the list lengths. */
  lemma {:induction false} RoutingRuleCount(rules: Rules, env: Env)
    ensures |RulesRoutingRules(rules, env)| == TotalDestinations(rules)
  {
    if rules != [] {
      RoutingRuleCount(rules[..|rules| - 1], env);
    }
  }

  /** Emission distributes over concatenation: the rules of `a` come first, in order, then those of `b`. */
  lemma {:induction false} RoutingRulesAppend(a: Rules, b: Rules, env: Env)
    ensures RulesRoutingRules(a + b, env) == RulesRoutingRules(a, env) + RulesRoutingRules(b, env)
    decreases |b|
  {
    if b == [] {
      assert a + b == a;
    } else {
      var n := |b| - 1;
      var last := RuleRoutingRules(b[n].0, b[n].1, SelectBus(env, b[n].1.attachTo));
      assert (a + b)[..|a + b| - 1] == a + b[..n] && (a + b)[|a + b| - 1] == b[n];
      assert RulesRoutingRules(a + b, env) == RulesRoutingRules(a + b[..n], env) + last;
      RoutingRulesAppend(a, b[..n], env);
      AppendAssoc(RulesRoutingRules(a, env), RulesRoutingRules(b[..n], env), last);
    }
  }

  lemma RoutingRulesSnoc(rules: Rules, i: nat, env: Env)
    requires i < |rules|
    ensures RulesRoutingRules(rules[..i + 1], env)
         == RulesRoutingRules(rules[..i], env) + RuleRoutingRules(rules[i].0, rules[i].1, SelectBus(env, rules[i].1.attachTo))
  {
    assert rules[..i + 1][..i] == rules[..i];
  }

  lemma AppendAssoc<T>(a: seq<T>, b: seq<T>, c: seq<T>)
    ensures a + b + c == a + (b + c)
  {
  }

  lemma AppendThree<T>(s: seq<T>, a: seq<T>, b: seq<T>, c: seq<T>)
    ensures s + a + b + c == s + (a + b + c)
  {
  }

  /** Within one rule, the routing rule of destination `j` of kind `k` comes after the earlier
      kinds (bus, then lambda, then sqs). */
  lemma RuleRoutingRuleAt(ruleName: string, rule: Rule, bus: BusRef, k: Kind, j: nat)
    requires j < |KindList(rule, k)|
    ensures |RuleRoutingRules(ruleName, rule, bus)| == DestinationCount(rule)
    ensures KindOffset(rule, k) + j < DestinationCount(rule)
    ensures RuleRoutingRules(ruleName, rule, bus)[KindOffset(rule, k) + j] == RoutingRuleFor(ruleName, rule, k, KindList(rule, k)[j], bus)
  {
    var b, l, q := KindRoutingRules(ruleName, rule, Bus, bus), KindRoutingRules(ruleName, rule, Lambda, bus), KindRoutingRules(ruleName, rule, Sqs, bus);
    match k
    case Bus => assert (b + l + q)[j] == b[j];
    case Lambda => assert (b + l + q)[|b| + j] == l[j];
    case Sqs => assert (b + l + q)[|b| + |l| + j] == q[j];
  }

  /** Emission order, exactly: the routing rule of destination `j` of kind `k` of rule `i` sits
      after every destination of the earlier rules and of the earlier kinds of rule `i`. */
  lemma {:induction false} RoutingRuleAt(rules: Rules, env: Env, i: nat, k: Kind, j: nat)
    requires i < |rules| && j < |KindList(rules[i].1, k)|
    ensures TotalDestinations(rules[..i]) + KindOffset(rules[i].1, k) + j < |RulesRoutingRules(rules, env)|
    ensures RulesRoutingRules(rules, env)[TotalDestinations(rules[..i]) + KindOffset(rules[i].1, k) + j]
         == RoutingRuleFor(rules[i].0, rules[i].1, k, KindList(rules[i].1, k)[j], SelectBus(env, rules[i].1.attachTo))
    decreases |rules|, 1
  {
    if i < |rules| - 1 {
      RoutingRuleAtEarlier(rules, env, i, k, j);
    } else {
      RoutingRuleAtLast(rules, env, k, j);
    }
  }

  /** `RoutingRuleAt` for a rule before the last one, from the same fact about the shorter collection. */
  lemma {:induction false} RoutingRuleAtEarlier(rules: Rules, env: Env, i: nat, k: Kind, j: nat)
    requires i < |rules| - 1 && j < |KindList(rules[i].1, k)|
    ensures TotalDestinations(rules[..i]) + KindOffset(rules[i].1, k) + j < |RulesRoutingRules(rules, env)|
    ensures RulesRoutingRules(rules, env)[TotalDestinations(rules[..i]) + KindOffset(rules[i].1, k) + j]
         == RoutingRuleFor(rules[i].0, rules[i].1, k, KindList(rules[i].1, k)[j], SelectBus(env, rules[i].1.attachTo))
    decreases |rules|, 0
  {
    var pre := rules[..|rules| - 1];
    assert pre[..i] == rules[..i] && pre[i] == rules[i];
    RoutingRuleAt(pre, env, i, k, j);
    RoutingRulesPrefix(rules, env, TotalDestinations(rules[..i]) + KindOffset(rules[i].1, k) + j);
  }

  /** `RoutingRuleAt` for the last rule. */
  lemma RoutingRuleAtLast(rules: Rules, env: Env, k: Kind, j: nat)
    requires rules != [] && j < |KindList(rules[|rules| - 1].1, k)|
    ensures
      var (n, rule) := (|rules| - 1, rules[|rules| - 1].1);
      && TotalDestinations(rules[..n]) + KindOffset(rule, k) + j < |RulesRoutingRules(rules, env)|
      && RulesRoutingRules(rules, env)[TotalDestinations(rules[..n]) + KindOffset(rule, k) + j]
         == RoutingRuleFor(rules[n].0, rule, k, KindList(rule, k)[j], SelectBus(env, rule.attachTo))
  {
    var n := |rules| - 1;
    RuleRoutingRuleAt(rules[n].0, rules[n].1, SelectBus(env, rules[n].1.attachTo), k, j);
    RoutingRulesLast(rules, env, KindOffset(rules[n].1, k) + j);
  }

  /** The routing rules of all but the last rule are a prefix of those of the whole collection. */
  lemma RoutingRulesPrefix(rules: Rules, env: Env, at: nat)
    requires rules != [] && at < |RulesRoutingRules(rules[..|rules| - 1], env)|
    ensures at < |RulesRoutingRules(rules, env)|
    ensures RulesRoutingRules(rules, env)[at] == RulesRoutingRules(rules[..|rules| - 1], env)[at]
  {
  }

  /** The last rule's routing rules come right after those of the earlier rules. */
  lemma RoutingRulesLast(rules: Rules, env: Env, m: nat)
    requires rules != []
    requires m < |RuleRoutingRules(rules[|rules| - 1].0, rules[|rules| - 1].1, SelectBus(env, rules[|rules| - 1].1.attachTo))|
    ensures TotalDestinations(rules[..|rules| - 1]) + m < |RulesRoutingRules(rules, env)|
    ensures RulesRoutingRules(rules, env)[TotalDestinations(rules[..|rules| - 1]) + m]
         == RuleRoutingRules(rules[|rules| - 1].0, rules[|rules| - 1].1, SelectBus(env, rules[|rules| - 1].1.attachTo))[m]
  {
    RoutingRuleCount(rules[..|rules| - 1], env);
  }

  /** What the routing rule at that position carries: the rule's bus, the construct IDs, the
      description `{rule}/{dest} {description}`, the destination's ARN and its filter unchanged. */
  lemma RoutingRuleFields(rules: Rules, env: Env, i: nat, k: Kind, j: nat)
    requires i < |rules| && j < |KindList(rules[i].1, k)|
    ensures TotalDestinations(rules[..i]) + KindOffset(rules[i].1, k) + j < |RulesRoutingRules(rules, env)|
    ensures
      var rr := RulesRoutingRules(rules, env)[TotalDestinations(rules[..i]) + KindOffset(rules[i].1, k) + j];
      var (name, rule, d) := (rules[i].0, rules[i].1, KindList(rules[i].1, k)[j]);
      && rr.id == name + KindName(k) + d.name + "Rule"
      && rr.enabled
      && (rr.eventBus.ImportedBus? <==> rule.attachTo == DefaultBus)
      && rr.eventBus == SelectBus(env, rule.attachTo)
      && rr.target == Target(k, name + KindName(k) + d.name + "Target", d.arn)
      && rr.description == name + "/" + d.name + " " + rule.description
      && rr.eventPattern == d.filter
  {
    RoutingRuleAt(rules, env, i, k, j);
  }

  /** Soundness: every routing rule emitted comes from some destination of some rule, built from
      that destination as `RoutingRuleAt` describes. */
  lemma {:induction false} RoutingRuleSource(rules: Rules, env: Env, rr: RoutingRule)
    requires rr in RulesRoutingRules(rules, env)
    ensures exists i, k, j :: (0 <= i < |rules| && 0 <= j < |KindList(rules[i].1, k)| &&
      rr == RoutingRuleFor(rules[i].0, rules[i].1, k, KindList(rules[i].1, k)[j], SelectBus(env, rules[i].1.attachTo)))
  {
    var n := |rules| - 1;
    var pre := rules[..n];
    if rr in RulesRoutingRules(pre, env) {
      RoutingRuleSource(pre, env, rr);
      var i, k, j :| 0 <= i < |pre| && 0 <= j < |KindList(pre[i].1, k)| &&
        rr == RoutingRuleFor(pre[i].0, pre[i].1, k, KindList(pre[i].1, k)[j], SelectBus(env, pre[i].1.attachTo));
      assert rules[i] == pre[i];
    } else {
      var rule := rules[n].1;
      var bus := SelectBus(env, rule.attachTo);
      RuleRoutingRuleSource(rules[n].0, rule, bus, rr);
      var k, j :| 0 <= j < |KindList(rule, k)| && rr == RoutingRuleFor(rules[n].0, rule, k, KindList(rule, k)[j], bus);
      assert rules[n].1 == rule;
    }
  }

  lemma RuleRoutingRuleSource(ruleName: string, rule: Rule, bus: BusRef, rr: RoutingRule)
    requires rr in RuleRoutingRules(ruleName, rule, bus)
    ensures exists k, j :: 0 <= j < |KindList(rule, k)| && rr == RoutingRuleFor(ruleName, rule, k, KindList(rule, k)[j], bus)
  {
    var k :| rr in KindRoutingRules(ruleName, rule, k, bus);
    var j :| 0 <= j < |KindList(rule, k)| && rr == KindRoutingRules(ruleName, rule, k, bus)[j];
  }

  // ---------------------------------------------------------------------------
  // Construct IDs

  /** Within one rule, construct IDs are distinct exactly when the destination names are unique
      within each kind: the kind names start with different letters, so two kinds never clash. */
  lemma RuleIdsDistinct(ruleName: string, rule: Rule, k1: Kind, j1: nat, k2: Kind, j2: nat)
    requires j1 < |KindList(rule, k1)| && j2 < |KindList(rule, k2)|
    ensures RuleId(ruleName, k1, KindList(rule, k1)[j1].name) == RuleId(ruleName, k2, KindList(rule, k2)[j2].name)
        <==> k1 == k2 && KindList(rule, k1)[j1].name == KindList(rule, k2)[j2].name
  {
    var n1, n2 := KindList(rule, k1)[j1].name, KindList(rule, k2)[j2].name;
    var id1, id2 := RuleId(ruleName, k1, n1), RuleId(ruleName, k2, n2);
    if id1 == id2 {
      assert id1[|ruleName|] == KindName(k1)[0] && id2[|ruleName|] == KindName(k2)[0];
      assert k1 == k2;
      var p := |ruleName| + |KindName(k1)|;
      assert |n1| == |n2|;
      assert n1 == id1[p..p + |n1|] && n2 == id2[p..p + |n2|];
    }
  }

  /** ... so a rule whose names are unique within each kind gets pairwise distinct IDs. */
  lemma WellNamedIdsDistinct(ruleName: string, rule: Rule, bus: BusRef)
    requires WellNamed(rule)
    ensures forall a, b :: 0 <= a < b < |RuleRoutingRules(ruleName, rule, bus)| ==>
      RuleRoutingRules(ruleName, rule, bus)[a].id != RuleRoutingRules(ruleName, rule, bus)[b].id
  {
    var rs := RuleRoutingRules(ruleName, rule, bus);
    forall a, b | 0 <= a < b < |rs| ensures rs[a].id != rs[b].id {
      WellNamedIdsDiffer(ruleName, rule, bus, a, b);
    }
  }

  lemma WellNamedIdsDiffer(ruleName: string, rule: Rule, bus: BusRef, a: nat, b: nat)
    requires WellNamed(rule) && a < b < |RuleRoutingRules(ruleName, rule, bus)|
    ensures RuleRoutingRules(ruleName, rule, bus)[a].id != RuleRoutingRules(ruleName, rule, bus)[b].id
  {
    var (k1, j1) := Locate(rule, a);
    var (k2, j2) := Locate(rule, b);
    RuleRoutingRuleAt(ruleName, rule, bus, k1, j1);
    RuleRoutingRuleAt(ruleName, rule, bus, k2, j2);
    RuleIdsDistinct(ruleName, rule, k1, j1, k2, j2);
    if k1 == k2 {
      assert j1 < j2;
    }
  }

  /** The kind and list position of the `m`-th routing rule of one rule. */
  function Locate(rule: Rule, m: nat): (p: (Kind, nat))
    requires m < DestinationCount(rule)
    ensures p.1 < |KindList(rule, p.0)| && m == KindOffset(rule, p.0) + p.1
  {
    if m < |KindList(rule, Bus)| then (Bus, m)
    else if m < |KindList(rule, Bus)| + |KindList(rule, Lambda)| then (Lambda, m - |KindList(rule, Bus)|)
    else (Sqs, m - |KindList(rule, Bus)| - |KindList(rule, Lambda)|)
  }

  /** Across rules the IDs can clash although every name is well formed: the rule names and the
      kind name are joined without a separator. */
  lemma IdsClashAcrossRules()
    ensures RuleId("x", Bus, "sqsy") == RuleId("xbus", Sqs, "y")
  {
    assert RuleId("x", Bus, "sqsy") == "xbussqsyRule";
  }

  // ---------------------------------------------------------------------------
  // Resolution as the local stack sees it

  /** Once the rules are resolved against a real global ARN, no routing rule to a bus points at
      the placeholder. */
  lemma ResolvedBusTargets(rules: Rules, globalArn: string, env: Env, rr: RoutingRule)
    requires globalArn != GlobalBusToken
    requires rr in RulesRoutingRules(ResolveRules(rules, globalArn), env)
    requires rr.target.kind == Bus
    ensures rr.target.arn != GlobalBusToken
  {
    var res := ResolveRules(rules, globalArn);
    RoutingRuleSource(res, env, rr);
    var i, k, j :| 0 <= i < |res| && 0 <= j < |KindList(res[i].1, k)| &&
      rr == RoutingRuleFor(res[i].0, res[i].1, k, KindList(res[i].1, k)[j], SelectBus(env, res[i].1.attachTo));
    assert k == Bus;
  }

  // ---------------------------------------------------------------------------
  // The stack

  class LocalBusStack {
    const id: string
    const env: Env
    const name: string
    const globalBusArn: string
    const customBus: BusRef
    const defaultBus: BusRef
    const logGroupName: string
    var routingRules: seq<RoutingRule>

    /** Creates the two buses and the log group, then configures the account's rules and the
        shared rules, in that order. */
    constructor (id: string, env: Env, name: string, globalBusArn: string, rules: Option<Rules>, sharedRules: Option<Rules>)
      ensures this.id == id && this.env == env && this.name == name && this.globalBusArn == globalBusArn
      ensures customBus == CustomBusRef(env) && defaultBus == DefaultBusRef(env)
      ensures logGroupName == LogGroupName(env)
      ensures routingRules == StackRoutingRules(env, rules, sharedRules)
    {
      this.id := id;
      this.env := env;
      this.name := name;
      this.globalBusArn := globalBusArn;
      customBus := CustomBusRef(env);
      defaultBus := DefaultBusRef(env);
      logGroupName := LogGroupName(env);
      routingRules := [];
      new;
      AddRules(OrEmpty(rules));
      assert routingRules == RulesRoutingRules(OrEmpty(rules), env);
      AddRules(OrEmpty(sharedRules));
    }

    /** One rule loop: configures each rule of the collection in key order. */
    method AddRules(rules: Rules)
      requires customBus == CustomBusRef(env) && defaultBus == DefaultBusRef(env)
      modifies this
      ensures routingRules == old(routingRules) + RulesRoutingRules(rules, env)
    {
      for i := 0 to |rules|
        invariant routingRules == old(routingRules) + RulesRoutingRules(rules[..i], env)
      {
        AddRule(rules[i].0, rules[i].1);
        RoutingRulesSnoc(rules, i, env);
        AppendAssoc(old(routingRules), RulesRoutingRules(rules[..i], env), RuleRoutingRules(rules[i].0, rules[i].1, SelectBus(env, rules[i].1.attachTo)));
      }
      assert rules[..|rules|] == rules;
    }

    /** One iteration of a rule loop: the custom bus unless the rule asks for the default bus,
        then the rule's bus, lambda and sqs targets on that bus. */
    method AddRule(ruleStr: string, rule: Rule)
      requires customBus == CustomBusRef(env) && defaultBus == DefaultBusRef(env)
      modifies this
      ensures routingRules == old(routingRules) + RuleRoutingRules(ruleStr, rule, SelectBus(env, rule.attachTo))
    {
      var bus := customBus;
      if rule.attachTo == DefaultBus {
        bus := defaultBus;
      }
      AddBusDestination(ruleStr, rule, bus);
      AddLambdaDestination(ruleStr, rule, bus);
      AddSqsDestination(ruleStr, rule, bus);
      AppendThree(old(routingRules), KindRoutingRules(ruleStr, rule, Bus, bus), KindRoutingRules(ruleStr, rule, Lambda, bus), KindRoutingRules(ruleStr, rule, Sqs, bus));
    }

    method AddBusDestination(ruleStr: string, rule: Rule, bus: BusRef)
      modifies this
      ensures routingRules == old(routingRules) + KindRoutingRules(ruleStr, rule, Bus, bus)
    {
      if rule.destinations == None || rule.destinations.value.bus == None {
        return;
      }
      AddTargets(ruleStr, rule, Bus, rule.destinations.value.bus.value, bus);
    }

    method AddLambdaDestination(ruleStr: string, rule: Rule, bus: BusRef)
      modifies this
      ensures routingRules == old(routingRules) + KindRoutingRules(ruleStr, rule, Lambda, bus)
    {
      if rule.destinations == None || rule.destinations.value.lambda == None {
        return;
      }
      AddTargets(ruleStr, rule, Lambda, rule.destinations.value.lambda.value, bus);
    }

    method AddSqsDestination(ruleStr: string, rule: Rule, bus: BusRef)
      modifies this
      ensures routingRules == old(routingRules) + KindRoutingRules(ruleStr, rule, Sqs, bus)
    {
      if rule.destinations == None || rule.destinations.value.sqs == None {
        return;
      }
      AddTargets(ruleStr, rule, Sqs, rule.destinations.value.sqs.value, bus);
    }

    /** The loop shared by the three `add*Destination` methods: one routing rule per destination. */
    method AddTargets(ruleStr: string, rule: Rule, k: Kind, ds: seq<Destination>, bus: BusRef)
      requires ds == KindList(rule, k)
      modifies this
      ensures routingRules == old(routingRules) + KindRoutingRules(ruleStr, rule, k, bus)
    {
      for j := 0 to |ds|
        invariant routingRules == old(routingRules) + KindRoutingRules(ruleStr, rule, k, bus)[..j]
      {
        routingRules := routingRules + [RoutingRuleFor(ruleStr, rule, k, ds[j], bus)];
        assert KindRoutingRules(ruleStr, rule, k, bus)[..j + 1] == KindRoutingRules(ruleStr, rule, k, bus)[..j] + [RoutingRuleFor(ruleStr, rule, k, ds[j], bus)];
        AppendAssoc(old(routingRules), KindRoutingRules(ruleStr, rule, k, bus)[..j], [RoutingRuleFor(ruleStr, rule, k, ds[j], bus)]);
      }
      assert KindRoutingRules(ruleStr, rule, k, bus)[..|ds|] == KindRoutingRules(ruleStr, rule, k, bus);
    }
  }
}
