/** The configuration vocabulary of the centralised bus: environments, destinations, rules and
    the application config that the CI/CD stage walks (src/config.ts). */
module Configuration {

  datatype Option<+T> = None | Some(value: T)

  /** An EventBridge event pattern, carried as a JSON-like tree. The core forwards a
      destination's filter unchanged and never looks inside it. */
  datatype Json = JString(s: string) | JList(items: seq<Json>) | JObject(fields: seq<(string, Json)>)

  datatype Env = Env(name: string, account: string, region: string)

  datatype RepoEntry = RepoEntry(owner: string, repo: string, branch: string, path: string, pipelineName: string)

  datatype CicdStackConfig = CicdStackConfig(env: Env, repo: RepoEntry, githubTokenArn: string)

  /** The local bus a rule is attached to: exactly two values. */
  datatype AttachTo = CustomBus | DefaultBus

  /** The three optional destination lists of a rule. */
  datatype Kind = Sqs | Lambda | Bus

  /** One routing target. `arn` is the only field the core ever rewrites. */
  datatype Destination = Destination(name: string, arn: string, filter: Json, attachTo: AttachTo)

  /** Each list is optional: a missing, `null` or `undefined` list is `None`. */
  datatype Destinations = Destinations(sqs: Option<seq<Destination>>, lambda: Option<seq<Destination>>, bus: Option<seq<Destination>>)

  /** A missing or `null` destinations block is `None`. */
  datatype Rule = Rule(description: string, destinations: Option<Destinations>, attachTo: AttachTo)

  /** `Rules` maps rule names to rules; the pairs are kept in the object's key order. */
  type Rules = seq<(string, Rule)>

  /** A `Rules` object as the program holds it: a mutable value behind a reference that several
      holders may share. Resolution rewrites `rules` in place. */
  class RuleSet {
    var rules: Rules

    constructor (rules: Rules)
      ensures this.rules == rules
    {
      this.rules := rules;
    }
  }

  /** An entry of `AppEnvConfig.accounts`; its rules are optional. */
  datatype AccountEntry = AccountEntry(env: Env, rules: Option<RuleSet>)

  datatype VpcConfig = VpcConfig(cidr: string, maxAzs: int)

  /** The `codepipeline` section: where pipeline stage changes are forwarded. */
  datatype CodePipelineConfig = CodePipelineConfig(logsAccountEventBusArn: string)

  datatype AppEnvConfig = AppEnvConfig(
    env: Env,
    vpc: VpcConfig,
    codepipeline: CodePipelineConfig,
    accounts: seq<AccountEntry>)

  /** The three top-level sections of the parsed configuration document, i.e. the untyped value
      `YAML.parse` returns. It is kept apart from `Config` because the program copies the
      sections one by one out of that value into a `Config` object (src/config.ts:90-92); the
      parser is a parameter of the model, so this is the type of what it hands back. */
  datatype Document = Document(cicd: CicdStackConfig, production: AppEnvConfig, sharedRules: Option<RuleSet>)

  /** The `Config` object: the three sections, as the constructor assigns them. */
  datatype Config = Config(cicd: CicdStackConfig, production: AppEnvConfig, sharedRules: Option<RuleSet>)

  predicate NoDuplicates<T(==)>(s: seq<T>) {
    forall i, j :: 0 <= i < j < |s| ==> s[i] != s[j]
  }

  /** A destination name is meant to hold no space and to be unique within one kind of one rule;
      nothing in the program enforces either. */
  predicate WellNamed(r: Rule) {
    forall k: Kind ::
      && (forall i :: 0 <= i < |KindList(r, k)| ==> ' ' !in KindList(r, k)[i].name)
      && (forall i, j :: 0 <= i < j < |KindList(r, k)| ==> KindList(r, k)[i].name != KindList(r, k)[j].name)
  }

  const DefaultConfigFile: string := "config.yml"

  /** `fileName || 'config.yml'`: an absent or empty name falls back to the default. */
  function ConfigFileName(fileName: Option<string>): (r: string)
    ensures fileName.Some? && fileName.value != "" ==> r == fileName.value
    ensures fileName.None? || fileName.value == "" ==> r == DefaultConfigFile
    ensures r != ""
  {
    match fileName
    case Some(f) => if f != "" then f else DefaultConfigFile
    case None => DefaultConfigFile
  }

  /** The `Config` constructor. Reading and parsing the file is the parameter `parse`. */
  function LoadConfig(fileName: Option<string>, parse: string -> Document): (c: Config)
    ensures c.cicd == parse(ConfigFileName(fileName)).cicd
    ensures c.production == parse(ConfigFileName(fileName)).production
    ensures c.sharedRules == parse(ConfigFileName(fileName)).sharedRules
  {
    var doc := parse(ConfigFileName(fileName));
    Config(doc.cicd, doc.production, doc.sharedRules)
  }

  // ---------------------------------------------------------------------------
  // Destination lists of a rule

  /** The list of kind `k`, or `None` when the block or the list is missing. */
  function Present(r: Rule, k: Kind): Option<seq<Destination>> {
    match r.destinations
    case None => None
    case Some(ds) =>
      match k
      case Sqs => ds.sqs
      case Lambda => ds.lambda
      case Bus => ds.bus
  }

  /** The list of kind `k`, a missing list read as empty. */
  function KindList(r: Rule, k: Kind): seq<Destination> {
    match Present(r, k)
    case None => []
    case Some(l) => l
  }

  /** An absent collection read as an empty one, as `for (x in undefined)` does. */
  function OrEmpty(rules: Option<Rules>): Rules {
    match rules
    case None => []
    case Some(rs) => rs
  }
}
