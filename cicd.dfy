/** The CI/CD stage (src/cicd.ts): deduplicates the local accounts, builds the global bus stack,
    resolves the "GlobalBus" placeholder in the shared rules and in every account's rules, and
    builds one local bus stack per account entry. Also the hand-off from the pipeline stack to
    the stage, as written and as its comment intends. */
module Cicd {
  import opened Configuration
  import opened Resolution
  import opened LocalStack
  import opened GlobalStack

  // ---------------------------------------------------------------------------
  // Local accounts (src/cicd.ts:34-36)

  function AccountIds(accounts: seq<AccountEntry>): (ids: seq<string>)
    ensures |ids| == |accounts|
    ensures forall i :: 0 <= i < |accounts| ==> ids[i] == accounts[i].env.account
  {
    seq(|accounts|, i requires 0 <= i < |accounts| => accounts[i].env.account)
  }

  /** The first position of `x` in `xs`. */
  function FirstIndex(xs: seq<string>, x: string): (p: nat)
    requires x in xs
    ensures p < |xs| && xs[p] == x
    ensures forall q :: 0 <= q < p ==> xs[q] != x
  {
    if xs[0] == x then 0 else 1 + FirstIndex(xs[1..], x)
  }

  /** `[...new Set(xs)]`: each element once, and exactly the elements of `xs`. */
  function Distinct(xs: seq<string>): (r: seq<string>)
    ensures NoDuplicates(r)
    ensures forall x :: x in r <==> x in xs
  {
    if xs == [] then []
    else
      var p := Distinct(xs[..|xs| - 1]);
      if xs[|xs| - 1] in p then p else p + [xs[|xs| - 1]]
  }

  /** ... in the order of first occurrence, as a JavaScript `Set` iterates. */
  lemma {:induction false} DistinctKeepsFirstOrder(xs: seq<string>)
    ensures forall i, j :: 0 <= i < j < |Distinct(xs)| ==> FirstIndex(xs, Distinct(xs)[i]) < FirstIndex(xs, Distinct(xs)[j])
  {
    if xs != [] {
      var n := |xs| - 1;
      var p := Distinct(xs[..n]);
      DistinctKeepsFirstOrder(xs[..n]);
      forall y | y in p ensures FirstIndex(xs, y) == FirstIndex(xs[..n], y) && FirstIndex(xs, y) < n {
        FirstIndexPrefix(xs, n, y);
      }
      if xs[n] !in p {
        assert xs[n] !in xs[..n];
        assert FirstIndex(xs, xs[n]) == n;
      }
    }
  }

  lemma FirstIndexPrefix(xs: seq<string>, n: nat, y: string)
    requires n <= |xs| && y in xs[..n]
    ensures FirstIndex(xs, y) == FirstIndex(xs[..n], y)
  {
    var b := FirstIndex(xs[..n], y);
    assert xs[b] == y;
  }

  // ---------------------------------------------------------------------------
  // The rule collections the stage writes

  function AccountRuleSets(accounts: seq<AccountEntry>): set<RuleSet> {
    set i | 0 <= i < |accounts| && accounts[i].rules.Some? :: accounts[i].rules.value
  }

  function OptRuleSet(rs: Option<RuleSet>): set<RuleSet> {
    match rs
    case None => {}
    case Some(r) => {r}
  }

  function StageRuleSets(accounts: seq<AccountEntry>, sharedRules: Option<RuleSet>): set<RuleSet> {
    OptRuleSet(sharedRules) + AccountRuleSets(accounts)
  }

  /** The current value of an optional rule collection. */
  function Current(rs: Option<RuleSet>): Option<Rules>
    reads OptRuleSet(rs)
  {
    match rs
    case None => None
    case Some(r) => Some(r.rules)
  }

  function ResolveOpt(rules: Option<Rules>, globalArn: string): Option<Rules> {
    match rules
    case None => None
    case Some(rs) => Some(ResolveRules(rs, globalArn))
  }

  const GlobalStackId: string := "GlobalStack"

  function LocalStackId(env: Env): string {
    "LocalStack-" + env.account + "-" + env.region
  }

  /** The global bus ARN is never the placeholder, so resolution always substitutes something else. */
  lemma GlobalArnIsNotToken(env: Env)
    ensures GlobalBusArn(env) != GlobalBusToken
  {
    assert GlobalBusArn(env)[0] == 'a' && GlobalBusToken[0] == 'G';
  }

  // ---------------------------------------------------------------------------
  // The stage (src/cicd.ts:26-104)

  /** The two resolution loops (src/cicd.ts:39-83): the shared rules first, then each account's
      rules. Every collection ends up resolved exactly once, also when several holders share
      it; absent rules are skipped. */
  method ResolveStage(accounts: seq<AccountEntry>, sharedRules: Option<RuleSet>, globalArn: string)
    modifies StageRuleSets(accounts, sharedRules)
    ensures forall rs :: rs in StageRuleSets(accounts, sharedRules) ==> rs.rules == ResolveRules(old(rs.rules), globalArn)
    ensures Current(sharedRules) == ResolveOpt(old(Current(sharedRules)), globalArn)
    ensures forall i :: 0 <= i < |accounts| ==> Current(accounts[i].rules) == ResolveOpt(old(Current(accounts[i].rules)), globalArn)
  {
    ghost var targets := StageRuleSets(accounts, sharedRules);
    ghost var visited: set<RuleSet> := {};

    if sharedRules != None {
      ResolveInPlace(sharedRules.value, globalArn);
      visited := {sharedRules.value};
    }

    for i := 0 to |accounts|
      invariant visited <= targets
      invariant sharedRules.Some? ==> sharedRules.value in visited
      invariant forall i' :: 0 <= i' < i && accounts[i'].rules.Some? ==> accounts[i'].rules.value in visited
      invariant forall rs :: rs in targets ==>
        rs.rules == if rs in visited then ResolveRules(old(rs.rules), globalArn) else old(rs.rules)
    {
      var entry := accounts[i];
      if entry.rules == None {
        continue;
      }
      var rs := entry.rules.value;
      ResolveIdempotent(old(rs.rules), globalArn);
      ResolveInPlace(rs, globalArn);
      visited := visited + {rs};
    }
    assert forall i :: 0 <= i < |accounts| && accounts[i].rules.Some? ==> accounts[i].rules.value in targets;
  }

  /** The local stack of one account entry as src/cicd.ts:86-95 builds it: named after the
      account and region, for the global bus `globalArn`, configured from the account's rules
      `rules` and then from `sharedRules`. */
  predicate Configured(local: LocalBusStack, env: Env, rules: Option<Rules>, sharedRules: Option<Rules>, globalArn: string)
    reads local
  {
    && local.id == LocalStackId(env)
    && local.env == env
    && local.name == env.name
    && local.globalBusArn == globalArn
    && local.customBus == CustomBusRef(env)
    && local.defaultBus == DefaultBusRef(env)
    && local.logGroupName == LogGroupName(env)
    && local.routingRules == StackRoutingRules(env, rules, sharedRules)
  }

  /** The loop of src/cicd.ts:85-97: one local stack per account entry, in order, each from the
      entry's rules as they are. */
  method NewLocalStacks(accounts: seq<AccountEntry>, sharedRules: Option<Rules>, globalArn: string) returns (locals: seq<LocalBusStack>)
    ensures |locals| == |accounts|
    ensures forall i :: 0 <= i < |locals| ==> fresh(locals[i])
    ensures forall i :: 0 <= i < |locals| ==>
      Configured(locals[i], accounts[i].env, Current(accounts[i].rules), sharedRules, globalArn)
  {
    locals := LocalStacksLoop(accounts, sharedRules, globalArn);
    assert forall i :: 0 <= i < |accounts| ==> Current(accounts[i].rules) == old(Current(accounts[i].rules));
  }

  /** The loop itself, stated against the rules as they were when it started. */
  method LocalStacksLoop(accounts: seq<AccountEntry>, sharedRules: Option<Rules>, globalArn: string) returns (locals: seq<LocalBusStack>)
    ensures |locals| == |accounts|
    ensures forall i :: 0 <= i < |locals| ==> fresh(locals[i])
    ensures forall i :: 0 <= i < |locals| ==>
      Configured(locals[i], accounts[i].env, old(Current(accounts[i].rules)), sharedRules, globalArn)
  {
    locals := [];
    for i := 0 to |accounts|
      invariant |locals| == i
      invariant forall m :: 0 <= m < i ==> fresh(locals[m])
      invariant forall m :: 0 <= m < i ==>
        Configured(locals[m], accounts[m].env, old(Current(accounts[m].rules)), sharedRules, globalArn)
    {
      var entry := accounts[i];
      var local := NewLocalStack(entry.env, Current(entry.rules), sharedRules, globalArn);
      locals := locals + [local];
    }
  }

  /** One iteration of that loop. */
  method NewLocalStack(env: Env, rules: Option<Rules>, sharedRules: Option<Rules>, globalArn: string) returns (local: LocalBusStack)
    ensures fresh(local)
    ensures Configured(local, env, rules, sharedRules, globalArn)
  {
    local := new LocalBusStack(LocalStackId(env), env, env.name, globalArn, rules, sharedRules);
  }

  /** The global stack of src/cicd.ts:31-37 for `config`: the global bus, its registry and log
      group named after the production env, one publish policy per deduplicated entry account and
      the two global rules, built as src/bus/global-stack.ts:20-113 does. */
  predicate GlobalConfigured(global: GlobalBusStack, config: AppEnvConfig)
  {
    var accounts := Distinct(AccountIds(config.accounts));
    && global.id == GlobalStackId
    && global.env == config.env
    && global.localAccounts == accounts
    && global.logsAccountEventBusArn == config.codepipeline.logsAccountEventBusArn
    && global.globalBusName == GlobalBusName(config.env)
    && global.globalBusArn == GlobalBusArn(config.env)
    && global.registry == Registry(RegistryId, RegistryDescription, RegistryName(config.env))
    && global.logGroupName == GlobalLogGroupName(config.env)
    && global.policies == Policies(accounts, GlobalBusName(config.env))
    && global.createAccessKeyRule == CreateAccessKeyRule(accounts, GlobalBusName(config.env))
    && global.codePipelineRule == CodePipelineRule(config.codepipeline.logsAccountEventBusArn, GlobalBusName(config.env))
  }

  /** The global side of the stage (src/cicd.ts:34-37): one global stack for the local
      accounts, each account once, in the order of its first entry. */
  method NewGlobalStack(config: AppEnvConfig) returns (global: GlobalBusStack)
    ensures fresh(global)
    ensures GlobalConfigured(global, config)
  {
    var localAccounts := Distinct(AccountIds(config.accounts));
    global := new GlobalBusStack(GlobalStackId, config.env, localAccounts, config.codepipeline.logsAccountEventBusArn);
  }

  /** Why src/cicd.ts:34-36 deduplicates: the publish policies of the stage's global stack have
      pairwise distinct construct IDs and statement IDs, however often an account recurs among
      the entries. */
  lemma StagePolicyIdsDistinct(config: AppEnvConfig)
    ensures
      var ps := Policies(Distinct(AccountIds(config.accounts)), GlobalBusName(config.env));
      forall i, j :: 0 <= i < j < |ps| ==> ps[i].id != ps[j].id && ps[i].statementId != ps[j].statementId
  {
    PolicyIdsDistinct(Distinct(AccountIds(config.accounts)), GlobalBusName(config.env));
  }

  /** The account side of the stage (src/cicd.ts:39-97): resolves every rule collection, then
      builds one local stack per account entry from the resolved rules. */
  method ConfigureAccounts(accounts: seq<AccountEntry>, sharedRules: Option<RuleSet>, globalArn: string) returns (locals: seq<LocalBusStack>)
    modifies StageRuleSets(accounts, sharedRules)
    ensures forall rs :: rs in StageRuleSets(accounts, sharedRules) ==> rs.rules == ResolveRules(old(rs.rules), globalArn)
    ensures |locals| == |accounts|
    ensures forall i :: 0 <= i < |locals| ==> fresh(locals[i])
    ensures forall i :: 0 <= i < |locals| ==>
      Configured(locals[i], accounts[i].env, Current(accounts[i].rules), Current(sharedRules), globalArn)
  {
    ResolveStage(accounts, sharedRules, globalArn);
    locals := NewLocalStacks(accounts, Current(sharedRules), globalArn);
  }

  /** The stage (src/cicd.ts:26-104): builds the global stack for the deduplicated accounts,
      rewrites in place every rule collection it was handed, then builds one local stack per
      account entry, each configured from the resolved account rules and the resolved shared
      rules. */
  method CicdStage(config: AppEnvConfig, sharedRules: Option<RuleSet>) returns (global: GlobalBusStack, locals: seq<LocalBusStack>)
    modifies StageRuleSets(config.accounts, sharedRules)
    ensures fresh(global)
    ensures GlobalConfigured(global, config)
    ensures forall rs :: rs in StageRuleSets(config.accounts, sharedRules) ==>
      rs.rules == ResolveRules(old(rs.rules), GlobalBusArn(config.env))
    ensures |locals| == |config.accounts|
    ensures forall i :: 0 <= i < |locals| ==> fresh(locals[i])
    ensures forall i :: 0 <= i < |locals| ==>
      Configured(locals[i], config.accounts[i].env, Current(config.accounts[i].rules), Current(sharedRules), GlobalBusArn(config.env))
  {
    global := NewGlobalStack(config);
    locals := ConfigureAccounts(config.accounts, sharedRules, GlobalBusArn(config.env));
  }

  // ---------------------------------------------------------------------------
  // The hand-off from the pipeline stack (src/cicd.ts:151-156)

  /** As written: the stage gets the caller's shared-rules object itself, so the caller's
      template comes back rewritten. */
  method ProductionStage(production: AppEnvConfig, sharedRules: Option<RuleSet>) returns (global: GlobalBusStack, locals: seq<LocalBusStack>)
    modifies StageRuleSets(production.accounts, sharedRules)
    ensures sharedRules.Some? ==>
      sharedRules.value.rules == ResolveRules(old(sharedRules.value.rules), GlobalBusArn(production.env))
    ensures |locals| == |production.accounts|
  {
    global, locals := CicdStage(production, sharedRules);
  }

  /** As the comment at src/cicd.ts:19-22 intends: the stage gets a copy, so the caller's
      template is left as it was (unless an account entry holds that very object), every account's
      rules are still resolved once, and every local stack is configured from the resolved copy. */
  method ProductionStageCopying(production: AppEnvConfig, sharedRules: Option<RuleSet>) returns (global: GlobalBusStack, locals: seq<LocalBusStack>)
    modifies AccountRuleSets(production.accounts)
    ensures sharedRules.Some? && sharedRules.value !in AccountRuleSets(production.accounts) ==>
      sharedRules.value.rules == old(sharedRules.value.rules)
    ensures forall rs :: rs in AccountRuleSets(production.accounts) ==>
      rs.rules == ResolveRules(old(rs.rules), GlobalBusArn(production.env))
    ensures GlobalConfigured(global, production)
    ensures |locals| == |production.accounts|
    ensures forall i :: 0 <= i < |locals| ==>
      var entry := production.accounts[i];
      && locals[i].id == LocalStackId(entry.env)
      && locals[i].routingRules == StackRoutingRules(entry.env, Current(entry.rules),
           ResolveOpt(old(Current(sharedRules)), GlobalBusArn(production.env)))
  {
    var copy: Option<RuleSet> := None;
    if sharedRules != None {
      var c := new RuleSet(sharedRules.value.rules);
      copy := Some(c);
    }
    ghost var resolvedCopy := ResolveOpt(Current(copy), GlobalBusArn(production.env));
    assert resolvedCopy == ResolveOpt(old(Current(sharedRules)), GlobalBusArn(production.env));
    global, locals := CicdStage(production, copy);
    assert Current(copy) == resolvedCopy by {
      if copy.Some? {
        assert copy.value in StageRuleSets(production.accounts, copy);
      }
    }
  }

  /** A one-rule template holding the placeholder, and a production config without accounts. */
  function SampleTemplate(): Rules {
    [("toGlobal", Rule("forward", Some(Destinations(None, None, Some([Destination("global", GlobalBusToken, JObject([]), CustomBus)]))), CustomBus))]
  }

  function SampleProduction(): AppEnvConfig {
    AppEnvConfig(Env("production", "111111111111", "eu-west-1"), VpcConfig("10.0.0.0/16", 2), CodePipelineConfig("arn:aws:events:eu-west-1:222222222222:event-bus/logs"), [])
  }

  /** The discrepancy, on a concrete input: the caller's template is not the same after the
      stage, whereas the comment says the modification must not affect it. */
  method TemplateRewrittenByStage() returns (before: Rules, after: Rules)
    ensures before == SampleTemplate()
    ensures after != before
  {
    var template := new RuleSet(SampleTemplate());
    before := template.rules;
    var _, _ := ProductionStage(SampleProduction(), Some(template));
    after := template.rules;
    GlobalArnIsNotToken(SampleProduction().env);
    assert KindList(after[0].1, Bus)[0].arn == GlobalBusArn(SampleProduction().env);
  }

  /** The same input through the corrected hand-off: the template is left as it was. */
  method TemplateKeptByCopy() returns (before: Rules, after: Rules)
    ensures before == SampleTemplate()
    ensures after == before
  {
    var template := new RuleSet(SampleTemplate());
    before := template.rules;
    var _, _ := ProductionStageCopying(SampleProduction(), Some(template));
    after := template.rules;
  }
}
