/** The global bus stack (src/bus/global-stack.ts): the global bus, its schema registry, one
    publish policy per local account, a log group, and two rules on the global bus. The CDK
    constructs are modelled by the records they are built from. */
module GlobalStack {
  import opened Configuration

  function GlobalBusName(env: Env): string {
    "GlobalBus-" + env.account + "-" + env.region
  }

  /** The ARN EventBridge gives the bus named `GlobalBusName(env)` in that account and region. */
  function GlobalBusArn(env: Env): string {
    "arn:aws:events:" + env.region + ":" + env.account + ":event-bus/" + GlobalBusName(env)
  }

  function RegistryName(env: Env): string {
    "GlobalBusRegistry-" + env.account + "-" + env.region
  }

  function GlobalLogGroupName(env: Env): string {
    "GlobalBus-LogGroup-" + env.account + "-" + env.region
  }

  datatype Registry = Registry(id: string, description: string, registryName: string)

  const RegistryId: string := "GlobalBusRegsitry"
  const RegistryDescription: string := "Schema Registry for the GlobalBus"

  /** A `CfnEventBusPolicy`: lets `principal` put events on the bus `eventBusName`. */
  datatype BusPolicy = BusPolicy(id: string, statementId: string, action: string, eventBusName: string, principal: string)

  const PolicyIdPrefix: string := "LocalToGlobalBusPermissionPolicy-"
  const StatementIdPrefix: string := "GrantLocalAccountToWriteToGlobalBus"
  const PutEvents: string := "events:PutEvents"

  function PolicyFor(account: string, busName: string): BusPolicy {
    BusPolicy(PolicyIdPrefix + account, StatementIdPrefix + account, PutEvents, busName, account)
  }

  /** What the policy loop emits: one policy per account, in order. */
  function Policies(accounts: seq<string>, busName: string): (ps: seq<BusPolicy>)
    ensures |ps| == |accounts|
  {
    seq(|accounts|, i requires 0 <= i < |accounts| => PolicyFor(accounts[i], busName))
  }

  /** Exactly one policy per account, in order: it lets that account put events on the bus. */
  lemma PolicyFields(accounts: seq<string>, busName: string)
    ensures |Policies(accounts, busName)| == |accounts|
    ensures forall i :: 0 <= i < |accounts| ==>
      var p := Policies(accounts, busName)[i];
      && p.principal == accounts[i]
      && p.action == "events:PutEvents"
      && p.eventBusName == busName
      && p.statementId == "GrantLocalAccountToWriteToGlobalBus" + accounts[i]
      && p.id == "LocalToGlobalBusPermissionPolicy-" + accounts[i]
  {
  }

  /** The fields of an EventBridge pattern the two global rules use. */
  datatype EventPattern = EventPattern(
    account: Option<seq<string>>,
    source: seq<string>,
    detailType: seq<string>,
    detailEventName: Option<seq<string>>)

  datatype GlobalTarget = FunctionTarget(functionId: string, retryAttempts: nat) | BusTarget(arn: string)

  datatype GlobalRule = GlobalRule(
    id: string,
    enabled: bool,
    description: string,
    eventBusName: string,
    pattern: EventPattern,
    targets: seq<GlobalTarget>)

  const CreateAccessKeyFunctionId: string := "CreateAccessKeyLambda"

  function CreateAccessKeyRule(localAccounts: seq<string>, busName: string): GlobalRule {
    GlobalRule(
      "CreateAccessKeyRule",
      true,
      "Rule to run remove-secret-key on CreateAccessKey Events",
      busName,
      EventPattern(Some(localAccounts), ["aws.cloudtrail"], ["AWSAPI_Call"], Some(["CreateAccessKey"])),
      [FunctionTarget(CreateAccessKeyFunctionId, 3)])
  }

  function CodePipelineRule(logsAccountEventBusArn: string, busName: string): GlobalRule {
    GlobalRule(
      "CodePipelineRule",
      true,
      "Write codepipeline stage change events to event bus in logs account",
      busName,
      EventPattern(None, ["aws.codepipeline"], ["CodePipeline Stage Execution State Change"], None),
      [BusTarget(logsAccountEventBusArn)])
  }

  lemma PrefixInjective(p: string, a: string, b: string)
    ensures p + a == p + b <==> a == b
  {
    if p + a == p + b {
      assert a == (p + a)[|p|..] && b == (p + b)[|p|..];
    }
  }

  /** Policy IDs and statement IDs are distinct exactly when the accounts are: the loop's
      construct IDs clash only on a repeated account. */
  lemma PolicyIdsDistinct(accounts: seq<string>, busName: string)
    ensures NoDuplicates(accounts) <==>
      forall i, j :: 0 <= i < j < |accounts| ==> Policies(accounts, busName)[i].id != Policies(accounts, busName)[j].id
    ensures NoDuplicates(accounts) <==>
      forall i, j :: 0 <= i < j < |accounts| ==> Policies(accounts, busName)[i].statementId != Policies(accounts, busName)[j].statementId
  {
    forall i, j | 0 <= i < j < |accounts|
      ensures Policies(accounts, busName)[i].id == Policies(accounts, busName)[j].id <==> accounts[i] == accounts[j]
      ensures Policies(accounts, busName)[i].statementId == Policies(accounts, busName)[j].statementId <==> accounts[i] == accounts[j]
    {
      PrefixInjective(PolicyIdPrefix, accounts[i], accounts[j]);
      PrefixInjective(StatementIdPrefix, accounts[i], accounts[j]);
    }
  }

  /** An account may publish to the global bus exactly when the CreateAccessKey rule watches it. */
  lemma PublishersAreWatched(accounts: seq<string>, busName: string, a: string)
    ensures (exists i :: 0 <= i < |accounts| && Policies(accounts, busName)[i].principal == a)
        <==> a in CreateAccessKeyRule(accounts, busName).pattern.account.value
  {
    if a in accounts {
      var i :| 0 <= i < |accounts| && accounts[i] == a;
      assert Policies(accounts, busName)[i].principal == a;
    }
  }

  /** The CreateAccessKey rule watches exactly the local accounts, for CloudTrail's CreateAccessKey
      calls, and runs the remove-secret-key function with three retries; the codepipeline rule
      forwards stage changes to the logs account's bus. Both are on the global bus. */
  lemma GlobalRulesFields(localAccounts: seq<string>, logsAccountEventBusArn: string, busName: string)
    ensures
      var r := CreateAccessKeyRule(localAccounts, busName);
      && r.pattern.account == Some(localAccounts)
      && r.pattern.source == ["aws.cloudtrail"]
      && r.pattern.detailType == ["AWSAPI_Call"]
      && r.pattern.detailEventName == Some(["CreateAccessKey"])
      && r.targets == [FunctionTarget("CreateAccessKeyLambda", 3)]
      && r.eventBusName == busName
    ensures
      var r := CodePipelineRule(logsAccountEventBusArn, busName);
      && r.pattern.account.None?
      && r.pattern.source == ["aws.codepipeline"]
      && r.targets == [BusTarget(logsAccountEventBusArn)]
      && r.eventBusName == busName
  {
  }

  class GlobalBusStack {
    const id: string
    const env: Env
    const localAccounts: seq<string>
    const logsAccountEventBusArn: string
    const globalBusName: string
    const globalBusArn: string
    const registry: Registry
    const logGroupName: string
    const createAccessKeyRule: GlobalRule
    const codePipelineRule: GlobalRule
    const policies: seq<BusPolicy>

    /** Creates the bus and its registry, one publish policy per local account (in order), the
        log group, and the two rules on the global bus. */
    constructor (id: string, env: Env, localAccounts: seq<string>, logsAccountEventBusArn: string)
      ensures this.id == id && this.env == env && this.localAccounts == localAccounts
      ensures this.logsAccountEventBusArn == logsAccountEventBusArn
      ensures globalBusName == GlobalBusName(env) && globalBusArn == GlobalBusArn(env)
      ensures registry == Registry(RegistryId, RegistryDescription, RegistryName(env))
      ensures logGroupName == GlobalLogGroupName(env)
      ensures policies == Policies(localAccounts, GlobalBusName(env))
      ensures createAccessKeyRule == CreateAccessKeyRule(localAccounts, GlobalBusName(env))
      ensures codePipelineRule == CodePipelineRule(logsAccountEventBusArn, GlobalBusName(env))
    {
      this.id := id;
      this.env := env;
      this.localAccounts := localAccounts;
      this.logsAccountEventBusArn := logsAccountEventBusArn;
      globalBusName := GlobalBusName(env);
      globalBusArn := GlobalBusArn(env);
      registry := Registry(RegistryId, RegistryDescription, RegistryName(env));
      logGroupName := GlobalLogGroupName(env);
      var ps: seq<BusPolicy> := [];
      for i := 0 to |localAccounts|
        invariant ps == Policies(localAccounts[..i], GlobalBusName(env))
      {
        ps := ps + [PolicyFor(localAccounts[i], GlobalBusName(env))];
        assert localAccounts[..i + 1] == localAccounts[..i] + [localAccounts[i]];
      }
      assert localAccounts[..|localAccounts|] == localAccounts;
      policies := ps;
      createAccessKeyRule := CreateAccessKeyRule(localAccounts, GlobalBusName(env));
      codePipelineRule := CodePipelineRule(logsAccountEventBusArn, GlobalBusName(env));
    }
  }
}
