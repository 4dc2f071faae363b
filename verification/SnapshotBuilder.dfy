/**
  Building a session's configuration snapshot from stored documents and inline overrides.
  The four kinds of stored document are maps from id to document.
 */
module SnapshotBuilder {
  import opened ConfigSnapshot
  import opened DeterminismScanner
  import opened JsonReading
  import opened SnapshotReadBack
  import opened Wrappers
  import DM = DecimalMath

  datatype Document = Document(id: string, version: Version, body: string)

  type Documents = map<string, Document>

  datatype Repository = Repository(solver: Documents, risk: Documents, fee: Documents, reward: Documents)

  /** One section of a request: an id, and a body that replaces the stored one. */
  datatype Choice = Choice(id: string, inlineBody: Option<string>)

  datatype Request = Request(solver: Choice, risk: Choice, fee: Choice, reward: Choice,
                             randomSeed: Option<DM.Int64>, tolerance: Option<Token>,
                             avgisRule: string, decisionPriceSource: string)

  datatype Resolved = Found(section: Section) | Missing(error: string)

  datatype Result = Built(snapshot: Snapshot, json: string) | Refused(error: string)

  const DEFAULT_AVGIS_RULE: string := "volume_weighted"
  const DEFAULT_PRICE_SOURCE: string := "marketdata_mid_with_clearprice_fallback"

  /** The documents of one kind, if there is a repository. */
  function Kind(repo: Option<Repository>, pick: Repository -> Documents): Option<Documents> {
    if repo.None? then None else Some(pick(repo.value))
  }

  function Solver(r: Repository): Documents { r.solver }
  function Risk(r: Repository): Documents { r.risk }
  function Fee(r: Repository): Documents { r.fee }
  function Reward(r: Repository): Documents { r.reward }

  function Resolve(docs: Option<Documents>, choice: Choice, name: string): Resolved {
    if choice.inlineBody.Some? then
      Found(Section(choice.id, 0, choice.inlineBody.value, true))
    else if choice.id == "" then Missing("Missing " + name + " id and no inline override")
    else if docs.None? then Missing("Config repository is not configured for " + name)
    else if choice.id !in docs.value then Missing(name + " not found: id=" + choice.id)
    else
      var doc := docs.value[choice.id];
      Found(Section(if doc.id == "" then choice.id else doc.id, doc.version, doc.body, false))
  }

  /** A text, or its default when empty. */
  function OrDefault(text: string, default: string): string {
    if text == "" then default else text
  }

  function Assemble(r: Request, solver: Section, risk: Section,
                    fee: Section, reward: Section): Snapshot {
    Snapshot(solver, risk, fee, reward,
             if r.randomSeed.Some? then r.randomSeed.value else 0,
             if r.tolerance.Some? then r.tolerance.value else "0",
             OrDefault(r.avgisRule, DEFAULT_AVGIS_RULE),
             OrDefault(r.decisionPriceSource, DEFAULT_PRICE_SOURCE))
  }

  function BuildOf(repo: Option<Repository>, r: Request): Result {
    var solver := Resolve(Kind(repo, Solver), r.solver, "solver_config");
    var risk := Resolve(Kind(repo, Risk), r.risk, "risk_limits");
    var fee := Resolve(Kind(repo, Fee), r.fee, "fee_model");
    var reward := Resolve(Kind(repo, Reward), r.reward, "reward_config");
    if solver.Missing? then Refused(solver.error)
    else if risk.Missing? then Refused(risk.error)
    else if fee.Missing? then Refused(fee.error)
    else if reward.Missing? then Refused(reward.error)
    else
      var s := Assemble(r, solver.section, risk.section, fee.section, reward.section);
      Built(s, SnapshotText(s))
  }

  method ResolveSection(docs: Option<Documents>, choice: Choice, name: string) returns (out: Resolved)
    ensures out == Resolve(docs, choice, name)
  {
    var section := Section(choice.id, 0, "", false);
    if choice.inlineBody.Some? {
      section := section.(body := choice.inlineBody.value, version := 0, inlineOverride := true);
      return Found(section);
    }
    if |choice.id| == 0 {
      return Missing("Missing " + name + " id and no inline override");
    }
    if docs.None? {
      return Missing("Config repository is not configured for " + name);
    }
    if choice.id !in docs.value {
      return Missing(name + " not found: id=" + choice.id);
    }
    var doc := docs.value[choice.id];
    section := section.(id := OrDefault(doc.id, choice.id));
    section := section.(version := doc.version, body := doc.body, inlineOverride := false);
    out := Found(section);
  }

  method Build(repo: Option<Repository>, r: Request) returns (result: Result)
    ensures result == BuildOf(repo, r)
  {
    hide Resolve, SnapshotText;
    var solver := ResolveSection(Kind(repo, Solver), r.solver, "solver_config");
    if solver.Missing? { return Refused(solver.error); }
    var risk := ResolveSection(Kind(repo, Risk), r.risk, "risk_limits");
    if risk.Missing? { return Refused(risk.error); }
    var fee := ResolveSection(Kind(repo, Fee), r.fee, "fee_model");
    if fee.Missing? { return Refused(fee.error); }
    var reward := ResolveSection(Kind(repo, Reward), r.reward, "reward_config");
    if reward.Missing? { return Refused(reward.error); }
    var snapshot := Assemble(r, solver.section, risk.section, fee.section, reward.section);
    var json := SerializeSnapshot(snapshot);
    result := Built(snapshot, json);
  }

  // ------------------------------------------------------------ properties

  /** Something the builder can use for a section. */
  predicate Available(docs: Option<Documents>, choice: Choice) {
    choice.inlineBody.Some? || (choice.id != "" && docs.Some? && choice.id in docs.value)
  }

  predicate AllAvailable(repo: Option<Repository>, r: Request) {
    && Available(Kind(repo, Solver), r.solver) && Available(Kind(repo, Risk), r.risk)
    && Available(Kind(repo, Fee), r.fee) && Available(Kind(repo, Reward), r.reward)
  }

  /** A snapshot is built exactly when every section has an override or a stored document. */
  lemma BuiltIffAvailable(repo: Option<Repository>, r: Request)
    ensures BuildOf(repo, r).Built? <==> AllAvailable(repo, r)
  {
    hide SnapshotText, Assemble;
  }

  /** The two collections hold the same document, or none, for what the choice needs. */
  predicate SameDocument(a: Option<Documents>, b: Option<Documents>, choice: Choice) {
    choice.inlineBody.None? ==>
      && (a.None? <==> b.None?)
      && (a.Some? && b.Some? ==>
            (choice.id in a.value <==> choice.id in b.value)
            && (choice.id in a.value && choice.id in b.value ==> a.value[choice.id] == b.value[choice.id]))
  }

  /**
    The result depends on the stored documents only through those the request names without
    overriding them; with four overrides it does not depend on the repository at all.
   */
  lemma OnlyNamedDocumentsMatter(a: Option<Repository>, b: Option<Repository>, r: Request)
    requires SameDocument(Kind(a, Solver), Kind(b, Solver), r.solver)
    requires SameDocument(Kind(a, Risk), Kind(b, Risk), r.risk)
    requires SameDocument(Kind(a, Fee), Kind(b, Fee), r.fee)
    requires SameDocument(Kind(a, Reward), Kind(b, Reward), r.reward)
    ensures BuildOf(a, r) == BuildOf(b, r)
  {
    hide SnapshotText, Assemble;
    SameResolution(Kind(a, Solver), Kind(b, Solver), r.solver, "solver_config");
    SameResolution(Kind(a, Risk), Kind(b, Risk), r.risk, "risk_limits");
    SameResolution(Kind(a, Fee), Kind(b, Fee), r.fee, "fee_model");
    SameResolution(Kind(a, Reward), Kind(b, Reward), r.reward, "reward_config");
    hide Resolve;
  }

  lemma SameResolution(a: Option<Documents>, b: Option<Documents>, choice: Choice, name: string)
    requires SameDocument(a, b, choice)
    ensures Resolve(a, choice, name) == Resolve(b, choice, name)
  {
  }

  /** What a session is configured with, independently of the document's layout. */
  datatype Content = Content(body: string, overridden: bool)

  datatype Configuration = Configuration(solver: Content, risk: Content, fee: Content, reward: Content,
                                         seed: DM.Int64, avgisRule: string, decisionPriceSource: string)

  function ContentOf(docs: Option<Documents>, choice: Choice): Content
    requires Available(docs, choice)
  {
    if choice.inlineBody.Some? then Content(choice.inlineBody.value, true)
    else Content(docs.value[choice.id].body, false)
  }

  function Configured(repo: Option<Repository>, r: Request): Configuration
    requires AllAvailable(repo, r)
  {
    Configuration(ContentOf(Kind(repo, Solver), r.solver), ContentOf(Kind(repo, Risk), r.risk),
                  ContentOf(Kind(repo, Fee), r.fee), ContentOf(Kind(repo, Reward), r.reward),
                  if r.randomSeed.Some? then r.randomSeed.value else 0,
                  OrDefault(r.avgisRule, DEFAULT_AVGIS_RULE),
                  OrDefault(r.decisionPriceSource, DEFAULT_PRICE_SOURCE))
  }

  function Recorded(s: Snapshot): Configuration {
    Configuration(Content(s.solverConfig.body, s.solverConfig.inlineOverride),
                  Content(s.riskLimits.body, s.riskLimits.inlineOverride),
                  Content(s.feeModel.body, s.feeModel.inlineOverride),
                  Content(s.rewardConfig.body, s.rewardConfig.inlineOverride),
                  s.randomSeed, s.avgisRule, s.decisionPriceSource)
  }

  lemma ResolvedContent(docs: Option<Documents>, choice: Choice, name: string)
    requires Available(docs, choice)
    ensures var out := Resolve(docs, choice, name);
            out.Found? && Content(out.section.body, out.section.inlineOverride) == ContentOf(docs, choice)
  {
  }

  /** The snapshot records the configuration asked for, and its text is that of the snapshot. */
  lemma BuiltRecords(repo: Option<Repository>, r: Request)
    requires AllAvailable(repo, r)
    ensures var built := BuildOf(repo, r);
            built.Built? && Recorded(built.snapshot) == Configured(repo, r) && built.json == SnapshotText(built.snapshot)
  {
    ResolvedContent(Kind(repo, Solver), r.solver, "solver_config");
    ResolvedContent(Kind(repo, Risk), r.risk, "risk_limits");
    ResolvedContent(Kind(repo, Fee), r.fee, "fee_model");
    ResolvedContent(Kind(repo, Reward), r.reward, "reward_config");
    hide Resolve, ContentOf, SnapshotText;
  }

  /**
    Equal texts mean equal configurations: whatever repositories and ids two snapshots were
    built from, if their texts agree then so do all four bodies, which of them were
    overrides, the seed and both rules.
   */
  lemma SameTextSameConfiguration(a: Option<Repository>, r: Request, b: Option<Repository>, q: Request)
    requires BuildOf(a, r).Built? && BuildOf(b, q).Built? && BuildOf(a, r).json == BuildOf(b, q).json
    ensures AllAvailable(a, r) && AllAvailable(b, q) && Configured(a, r) == Configured(b, q)
  {
    BuiltIffAvailable(a, r);
    BuiltIffAvailable(b, q);
    hide AllAvailable, BuildOf, Configured, Recorded, SnapshotText;
    BuiltRecords(a, r);
    BuiltRecords(b, q);
    SnapshotTextInjective(BuildOf(a, r).snapshot, BuildOf(b, q).snapshot);
  }

  /** From request to checker: the seed asked for is the seed read back from the built text. */
  lemma BuiltSeedReadBack(repo: Option<Repository>, r: Request)
    requires BuildOf(repo, r).Built? && AllClean(BuildOf(repo, r).snapshot, SEED_KEY)
    ensures AllAvailable(repo, r) && ReadInt(BuildOf(repo, r).json, SEED_KEY) == Some(Configured(repo, r).seed)
  {
    BuiltIffAvailable(repo, r);
    hide AllAvailable, BuildOf, AllClean, ReadInt, SnapshotText, ContentOf;
    BuiltRecords(repo, r);
    SeedReadBack(BuildOf(repo, r).snapshot);
  }

  /**
    The document says of a section what was asked: the override under the asked id at version
    0, or else the stored document, under its own id unless that is empty.
   */
  ghost predicate SaysChoice(doc: Json, key: string, docs: Option<Documents>, choice: Choice) {
    var j := Member(doc, key);
    && j.Some?
    && (match choice.inlineBody
        case Some(body) =>
          && TextAt(j.value, "id") == Some(choice.id) && TextAt(j.value, "body_json") == Some(body)
          && IntegerAt(j.value, "version") == Some(0) && BoolAt(j.value, "inline_override") == Some(true)
        case None =>
          && docs.Some? && choice.id in docs.value
          && var stored := docs.value[choice.id];
          && TextAt(j.value, "id") == Some(if stored.id == "" then choice.id else stored.id)
          && TextAt(j.value, "body_json") == Some(stored.body)
          && IntegerAt(j.value, "version") == Some(stored.version)
          && BoolAt(j.value, "inline_override") == Some(false))
  }

  /** A document says what a request asked of a repository. */
  ghost predicate SaysRequest(doc: Json, repo: Option<Repository>, r: Request) {
    && SaysChoice(doc, "solver_config", if repo.Some? then Some(repo.value.solver) else None, r.solver)
    && SaysChoice(doc, "risk_limits", if repo.Some? then Some(repo.value.risk) else None, r.risk)
    && SaysChoice(doc, "fee_model", if repo.Some? then Some(repo.value.fee) else None, r.fee)
    && SaysChoice(doc, "reward_config", if repo.Some? then Some(repo.value.reward) else None, r.reward)
    && IntegerAt(doc, "random_seed") == Some(if r.randomSeed.Some? then r.randomSeed.value else 0)
    && TokenAt(doc, "tolerance") == Some(if r.tolerance.Some? then r.tolerance.value else "0")
    && TextAt(doc, "avgis_rule") == Some(if r.avgisRule == "" then "volume_weighted" else r.avgisRule)
    && TextAt(doc, "decision_price_source")
         == Some(if r.decisionPriceSource == "" then "marketdata_mid_with_clearprice_fallback" else r.decisionPriceSource)
  }

  lemma ChoiceSaid(doc: Json, key: string, docs: Option<Documents>, choice: Choice)
    requires Resolve(docs, choice, key).Found? && SaysSection(doc, key, Resolve(docs, choice, key).section)
    ensures SaysChoice(doc, key, docs, choice)
  {
    hide Member, TextAt, IntegerAt, BoolAt;
  }

  /** From request to stored text: read as JSON, what is built says what was asked. */
  lemma BuiltSaysRequest(repo: Option<Repository>, r: Request)
    requires BuildOf(repo, r).Built?
    ensures var doc := ReadDocument(BuildOf(repo, r).json); doc.Some? && SaysRequest(doc.value, repo, r)
  {
    hide Resolve, SnapshotText, ReadDocument, SaysSection, SaysChoice, TextAt, IntegerAt, TokenAt;
    var s := BuildOf(repo, r).snapshot;
    SnapshotDecoded(s);
    var doc := ReadDocument(SnapshotText(s)).value;
    ChoiceSaid(doc, "solver_config", Kind(repo, Solver), r.solver);
    ChoiceSaid(doc, "risk_limits", Kind(repo, Risk), r.risk);
    ChoiceSaid(doc, "fee_model", Kind(repo, Fee), r.fee);
    ChoiceSaid(doc, "reward_config", Kind(repo, Reward), r.reward);
  }

  /** Why a section cannot be resolved, in words; no reason when it can. */
  function Reason(docs: Option<Documents>, choice: Choice, key: string): Option<string> {
    if choice.inlineBody.Some? then None
    else if choice.id == "" then Some("Missing " + key + " id and no inline override")
    else if docs.None? then Some("Config repository is not configured for " + key)
    else if choice.id in docs.value then None
    else Some(key + " not found: id=" + choice.id)
  }

  /** A refused build gives the reason of the first section that has one. */
  lemma RefusalMeaning(repo: Option<Repository>, r: Request, e: string)
    ensures BuildOf(repo, r) == Refused(e) <==>
              var solver := Reason(if repo.Some? then Some(repo.value.solver) else None, r.solver, "solver_config");
              var risk := Reason(if repo.Some? then Some(repo.value.risk) else None, r.risk, "risk_limits");
              var fee := Reason(if repo.Some? then Some(repo.value.fee) else None, r.fee, "fee_model");
              var reward := Reason(if repo.Some? then Some(repo.value.reward) else None, r.reward, "reward_config");
              || solver == Some(e)
              || (solver == None && risk == Some(e))
              || (solver == risk == None && fee == Some(e))
              || (solver == risk == fee == None && reward == Some(e))
  {
    hide Assemble, SnapshotText;
  }
}
