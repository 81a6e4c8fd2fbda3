# centralised-bus: rule configuration, placeholder resolution and rule expansion

This is a Dafny model of the core of the centralised-bus CDK application. The application
deploys one global EventBridge bus and, for each account entry, a local bus stack. The local
stack routes events to bus, lambda and sqs destinations, as the configuration's rules
describe. The model covers five parts:

- **Configuration** (`configuration.dfy`, after `src/config.ts`). It holds the vocabulary:
  environments, destinations, the three optional destination lists of a rule, rule collections
  and the application config. It also holds `Config`'s file-name default and field copy. A
  `Rules` object the program shares by reference is a class, `RuleSet`, with one mutable field.
- **Placeholder resolution** (`resolution.dfy`, after `src/cicd.ts:39-83`). Every `bus`
  destination whose ARN is the literal `"GlobalBus"` receives the global bus ARN.
  - The specification is `ResolveRules`, on values.
  - The in-place pass is `ResolveInPlace`, a nested loop that rewrites a `RuleSet`. It is proved
    to leave exactly `ResolveRules(old rules)` behind.
  - Substitution completeness, idempotence and the absence of cross-contamination are lemmas.
- **Rule expansion** (`local_stack.dfy`, after `src/bus/local-stack.ts`). `LocalBusStack` is a
  class whose methods append one routing-rule record per destination, as the source's loops
  create one `EventRule` per destination.
  - Each method is proved against the value-level functions `KindRoutingRules`,
    `RuleRoutingRules`, `RulesRoutingRules` and `StackRoutingRules`.
  - Lemmas about those functions give the count, the exact position and fields of every routing
    rule, soundness, and when construct IDs are distinct.
- **Global stack** (`global_stack.dfy`, after `src/bus/global-stack.ts`). It covers the bus,
  registry and log-group names, the per-account publish policies (built by a loop) and the two
  global rules.
- **The stage** (`cicd.dfy`, after `src/cicd.ts`). It covers:
  - the account deduplication (`[...new Set(...)]`);
  - the resolution of the shared rules and of every account's rules, in place, on objects that
    may be shared;
  - one local stack per account entry;
  - the hand-off at `src/cicd.ts:155`, both as written and as its comment intends.

Three facts about the program shape the model:

- Resolution rewrites the caller's rule objects in place and makes no copy.
- The program defines no validation or parse errors, and it never checks for a leftover
  placeholder. `ResolvedBusTargets` shows that after resolution against a real ARN, no routing
  rule to a bus carries the placeholder.
- The destination kinds are `bus`, `lambda` and `sqs`.

## Model

| member | source | states |
|---|---|---|
| Configuration.ConfigFileName | src/config.ts:86 | An absent or empty file name gives `config.yml`; any other name is kept; the result is never empty. |
| Configuration.LoadConfig | src/config.ts:85-92 | `cicd`, `production` and `sharedRules` are copied unchanged from the document parsed from `ConfigFileName(fileName)`. |
| Configuration.RuleSet.constructor | src/config.ts:44-46 | A rules object holds exactly the rule collection it was created with. |
| Resolution.ResolveList | src/cicd.ts:52-56 | Resolving a bus list keeps its length. |
| Resolution.ResolveRule | src/cicd.ts:42-56 | A rule without destinations or without a bus list is unchanged. The description, attachment and presence of every list are kept, and lambda and sqs lists are identical. In the bus list, every `"GlobalBus"` ARN becomes the global ARN; every other ARN, and every name, filter and attachment, is kept. |
| Resolution.ResolveRules | src/cicd.ts:41-57 | The same rule names in the same order, each rule resolved on its own. |
| Resolution.ResolveIdempotent | src/cicd.ts:53-54 | Resolving twice equals resolving once, for every global ARN. |
| Resolution.ListCounts | src/cicd.ts:52-56 | On one bus list: no placeholder is left; the global ARN's count grows by the number of placeholders; every other ARN's count is unchanged. |
| Resolution.ResolveCounts | src/cicd.ts:41-57 | Substitution completeness over a whole collection: with k placeholders among the bus destinations, resolution leaves none, adds exactly k occurrences of the global ARN, and changes no other ARN's count. |
| Resolution.NoCrossContamination | src/cicd.ts:39-83 | One template resolved for account B carries no trace of account A's global ARN. Resolved for A, it carries A's ARN exactly as often as it held the placeholder. |
| Resolution.ResolveInPlace | src/cicd.ts:41-57 | The in-place loop (also the one at lines 66-82) leaves the rules object holding exactly `ResolveRules` of its old contents. |
| LocalStack.SelectBus | src/bus/local-stack.ts:39-44 | A rule goes to the default bus (by ARN `arn:aws:events:{region}:{account}:event-bus/default`) exactly when `attachTo` is `DefaultBus`, otherwise to the custom bus `LocalBus-{account}-{region}`. |
| LocalStack.KindRoutingRules | src/bus/local-stack.ts:78-98 | One routing rule per destination of that kind; a missing destinations block or list emits none. |
| LocalStack.RoutingRuleCount | src/bus/local-stack.ts:33-68 | A rule loop emits as many routing rules as the collection has destinations in all present lists. |
| LocalStack.RoutingRulesAppend | src/bus/local-stack.ts:33-68 | Emitting a concatenation emits the first part's rules, in order, then the second's. |
| LocalStack.RuleRoutingRuleAt | src/bus/local-stack.ts:46-48 | Within one rule, destination j of kind k is emitted after all earlier kinds (bus, then lambda, then sqs). |
| LocalStack.RoutingRuleAt | src/bus/local-stack.ts:33-48 | Exact emission order: destination j of kind k of rule i sits after every destination of the earlier rules and earlier kinds, and is the record built from that destination. |
| LocalStack.RoutingRuleFields | src/bus/local-stack.ts:82-97 | That routing rule has ID `{rule}{kind}{name}Rule` and is enabled. Its bus is the default bus exactly when the rule asks for it. Its target is `{rule}{kind}{name}Target` at the destination's ARN. Its description is `{rule}/{name} {description}` and its pattern is the destination's filter unchanged. |
| LocalStack.RoutingRuleSource | src/bus/local-stack.ts:77-152 | Soundness: every emitted routing rule is built from some destination of some rule on that rule's bus. |
| LocalStack.RuleIdsDistinct | src/bus/local-stack.ts:83-136 | Within one rule, two destinations' construct IDs are equal exactly when the kinds and names are equal. |
| LocalStack.WellNamedIdsDistinct | src/config.ts:29-31 | A rule whose destination names are unique within each kind gets pairwise distinct construct IDs. |
| LocalStack.IdsClashAcrossRules | src/bus/local-stack.ts:83 | Across rules, IDs can clash with well-formed names: rule `x` with bus `sqsy` and rule `xbus` with sqs `y` both give `xbussqsyRule`. |
| LocalStack.ResolvedBusTargets | src/bus/local-stack.ts:82-92 | After resolution against an ARN other than the placeholder, no routing rule to a bus targets `"GlobalBus"`. |
| LocalStack.LocalBusStack.constructor | src/bus/local-stack.ts:20-75 | The custom bus, default bus and log group are named from the account and region. The routing rules are those of the account rules followed by those of the shared rules. |
| LocalStack.LocalBusStack.AddRules | src/bus/local-stack.ts:33-49 | One rule loop appends exactly `RulesRoutingRules(rules)` to the stack's routing rules. |
| LocalStack.LocalBusStack.AddRule | src/bus/local-stack.ts:37-48 | One iteration picks the bus as `SelectBus` does and appends the rule's bus, lambda and sqs routing rules, in that order. |
| LocalStack.LocalBusStack.AddBusDestination | src/bus/local-stack.ts:77-99 | Appends exactly the bus-kind routing rules of the rule. |
| LocalStack.LocalBusStack.AddLambdaDestination | src/bus/local-stack.ts:101-127 | Appends exactly the lambda-kind routing rules of the rule. |
| LocalStack.LocalBusStack.AddSqsDestination | src/bus/local-stack.ts:129-152 | Appends exactly the sqs-kind routing rules of the rule. |
| LocalStack.LocalBusStack.AddTargets | src/bus/local-stack.ts:82-98 | The per-destination loop appends one routing rule per destination, in list order. |
| GlobalStack.Policies | src/bus/global-stack.ts:34-46 | The policy loop emits as many policies as there are accounts. |
| GlobalStack.PolicyFields | src/bus/global-stack.ts:34-46 | Policy i lets account i perform `events:PutEvents` on the global bus. Its statement ID is `GrantLocalAccountToWriteToGlobalBus{account}` and its construct ID is `LocalToGlobalBusPermissionPolicy-{account}`. |
| GlobalStack.PolicyIdsDistinct | src/bus/global-stack.ts:36-40 | Policy construct IDs, and statement IDs, are pairwise distinct exactly when the accounts are. |
| GlobalStack.PublishersAreWatched | src/bus/global-stack.ts:33-84 | An account has a publish policy exactly when the CreateAccessKey rule's pattern lists it. |
| GlobalStack.GlobalRulesFields | src/bus/global-stack.ts:73-111 | The CreateAccessKey rule watches the local accounts for CloudTrail `AWSAPI_Call` / `CreateAccessKey` and runs the function with 3 retries. The codepipeline rule has no account filter and one bus target, the logs account's bus. Both are on the global bus. |
| GlobalStack.GlobalBusStack.constructor | src/bus/global-stack.ts:20-113 | The bus is `GlobalBus-{account}-{region}` with its ARN, and the registry `GlobalBusRegistry-{account}-{region}`. There is one policy per local account in order (built by a loop), plus the log group and the two rules. |
| Cicd.AccountIds | src/cicd.ts:35 | The account of every entry, position by position. |
| Cicd.Distinct | src/cicd.ts:34-36 | No duplicates, and exactly the accounts that occur among the entries. |
| Cicd.DistinctKeepsFirstOrder | src/cicd.ts:34-36 | The deduplicated accounts come in the order of their first occurrence. |
| Cicd.GlobalArnIsNotToken | src/cicd.ts:53-54 | The global bus ARN never equals the placeholder. |
| Cicd.ResolveStage | src/cicd.ts:39-83 | The shared rules and every account's rules each end up `ResolveRules` of their old contents, exactly once, even when objects are shared between entries. Absent rules are skipped. |
| Cicd.NewLocalStacks | src/cicd.ts:85-97 | One fresh local stack per entry, in order. Each has ID `LocalStack-{account}-{region}`, the entry's env and name and the global ARN. Its custom bus, default bus and log group are named from the entry's account and region, and it is configured from the entry's rules and then the shared rules. |
| Cicd.LocalStacksLoop | src/cicd.ts:85-97 | The same loop, stated against the rules as they were when it started. |
| Cicd.NewLocalStack | src/cicd.ts:91-97 | One iteration: a fresh local stack configured as above. |
| Cicd.NewGlobalStack | src/cicd.ts:31-37 | The global stack `GlobalStack` for the production env and the logs-account bus ARN. Its accounts are the deduplicated entry accounts. It holds one publish policy per deduplicated account, in order, and a CreateAccessKey rule that watches exactly those accounts. Its bus name and ARN, registry, log group and codepipeline rule are those of the production env. |
| Cicd.StagePolicyIdsDistinct | src/cicd.ts:34-36 | The publish policies built for the deduplicated entry accounts have pairwise distinct construct IDs and statement IDs, however often an account recurs among the entries. |
| Cicd.ConfigureAccounts | src/cicd.ts:39-97 | Every rules object is resolved in place, then the local stacks are built from the resolved contents. |
| Cicd.CicdStage | src/cicd.ts:26-104 | The whole stage. The global stack is as `NewGlobalStack` states: one publish policy per deduplicated account and the CreateAccessKey rule over those accounts. Every rules object the stage was handed is rewritten to `ResolveRules` of its old value against the global ARN. One local stack per entry is configured from the resolved rules. |
| Cicd.ProductionStage | src/cicd.ts:151-156 | As written: the caller's shared-rules object itself is rewritten by the stage. |
| Cicd.ProductionStageCopying | src/cicd.ts:19-23 | As the comment intends: the caller's template is unchanged (unless an account entry holds that same object), every account's rules are resolved, the global stack is built as in `CicdStage`, and the local stacks are configured from the resolved copy. |
| Cicd.TemplateRewrittenByStage | src/cicd.ts:155 | On a one-rule template holding the placeholder, the template after the as-written hand-off differs from before. |
| Cicd.TemplateKeptByCopy | src/cicd.ts:19-22 | On the same template, the corrected hand-off leaves it as it was. |

## Left out

- Reading the file, YAML parsing and `console.log` in `Config` (src/config.ts:87-94) are I/O. The parser is the function parameter `parse` of `LoadConfig`.
- The `console.log` calls in the local stack's loops (src/bus/local-stack.ts:34-36, 53-55) are output only.
- CDK construct creation (`EventBus`, `EventRule`, `CfnRegistry`, `CfnEventBusPolicy`, `LogGroup`) is modelled by the records each construct is built from. The Lambda `Function` is kept only as its construct ID, the target of the CreateAccessKey rule. The construct tree and its duplicate-ID check are not modelled; two rules whose IDs clash (see `IdsClashAcrossRules`) would make CDK throw.
- The Lambda function's runtime, handler, timeout, memory size and code asset (src/bus/global-stack.ts:59-71) are deployment settings with no logic.
- `GlobalBusArn` is the ARN EventBridge assigns to the named bus. In the program, `globalBus.eventBusArn` is a CDK token that resolves to that ARN at deploy time.
- Resolution is modelled per rules object (`RuleSet`), not per destination object. Aliasing of individual destination or list objects is not modelled, e.g. one destination object placed both in a bus list and in a lambda list. The program would rewrite such an object through the bus list and the change would show through the other list.
- JavaScript's `for..in` visits integer-like keys first in ascending order; `Rules` is kept in the object's key order as given, so that reordering is not modelled.
- Rule values that are not objects (where the `in` operator would throw), and `attachTo` strings outside the enum, are excluded by the types.
- The program raises no errors of its own: it validates nothing, and it does not check for a leftover placeholder. So the model has no error results.
- `CicdStack`'s pipeline wiring (src/cicd.ts:106-177), src/peering-stack.ts, src/tagging.ts, src/stack.ts, src/constructs/event-bus/event-bus.ts and the Go lambda are not part of this model.
- `Cicd.CicdStage` states each local stack's routing rules from the rule objects' contents after resolution. Its stage-wide resolution clause says those contents are `ResolveRules` of the old ones, so the two clauses together give the configuration from the original rules.

## Findings

| source | as written | input that shows it | evidently intended | confidence | as-written member | corrected member |
|---|---|---|---|---|---|---|
| src/cicd.ts:155 | `sharedRules: props.sharedRules` hands the caller's object to the stage, whose loop at src/cicd.ts:54 overwrites `dest.arn` in it. | Shared rules `{toGlobal: {destinations: {bus: [{name: "global", arn: "GlobalBus", …}]}}}` and a production config without accounts: afterwards the caller's template holds the global bus ARN instead of `"GlobalBus"`. | The comment at src/cicd.ts:19-22: the stage gets a copy, and the original object is not affected. | not executed | Cicd.TemplateRewrittenByStage | Cicd.ProductionStageCopying |
