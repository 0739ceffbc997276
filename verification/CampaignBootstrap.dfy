/**
  Starting a run from a compiled campaign: `CampaignRunService.create`
  (packages/collection_application/src/collection_application/campaign_runs.py).

  A dictionary lookup that could raise KeyError is an error value here, so that proving it never
  happens is proving something.  Publishing a seed artifact may fail; SHA-256 and the name-based
  UUIDs of the two namespaces are injective.
 */
module CampaignBootstrap {
  import opened Text
  import opened Utf8
  import opened Json
  import opened CanonicalJson
  import CanonicalBundles
  import opened CampaignCompile

  datatype RunError =
    | NotReady
    | PolicyKeyError(key: string)
    | ProviderInvalid(binding: string)
    | SeedKeyError(path: string)
    | OwnerContractBroken
    | ContentTypeKeyError(format: string)
    | Unsupported(binding: string)
    | PublicationFailed(binding: string)

  datatype Env = Env(
    runId: string,
    policyDigest: Policy -> string,
    publish: (string, seq<Byte>) -> Option<string>,
    sha: seq<Byte> -> string,
    uuid: string -> string,
    artifactUuid: string -> string)

  datatype WorkUnit = WorkUnit(
    binding: string,
    workId: string,
    stageRunId: string,
    artifactId: string,
    sourceKey: string,
    identity: Json,
    semanticKey: string,
    contentType: string,
    role: string,
    maxAttempts: nat)

  /** `_seed_content_type`. */
  function ContentType(format: string): Option<string> {
    if format == "csv" then Some("text/csv")
    else if format == "json" then Some("application/json")
    else if format == "jsonl" then Some("application/x-ndjson")
    else None
  }

  function Mode(partialAllowed: bool): string {
    if partialAllowed then "partial" else "atomic"
  }

  /** The identity payload of a manual import work unit. */
  function Identity(
    runId: string, b: Binding, policyDigest: string, sourceDigest: string, format: string,
    mode: string): seq<Member> {
    [ Member("contract", Str("manual-import-work-identity@1")),
      Member("runId", Str(runId)),
      Member("bindingKey", Str(b.key)),
      Member("sourcePolicyDigest", Str(policyDigest)),
      Member("sourceDigest", Str(sourceDigest)),
      Member("format", Str(format)),
      Member("mode", Str(mode)),
      Member("extractionProfile", Str(b.extractionProfile)) ]
  }

  function SemanticKey(identity: Json, sha: seq<Byte> -> string): string {
    CanonicalBundles.Sha256Identity(CanonicalBytes(identity), sha)
  }

  /** `_manual_import_work`. */
  function ManualWork(env: Env, b: Binding, policy: Policy, content: seq<Byte>): Result<WorkUnit, RunError> {
    if !b.seed.File? || !policy.access.Manual? then Err(OwnerContractBroken)
    else if ContentType(b.seed.format).None? then Err(ContentTypeKeyError(b.seed.format))
    else
      match env.publish(b.key, content)
      case None => Err(PublicationFailed(b.key))
      case Some(digest) =>
        var mode := Mode(policy.access.partialAllowed);
        var identity := Obj(Identity(env.runId, b, env.policyDigest(policy), digest, b.seed.format, mode));
        var key := SemanticKey(identity, env.sha);
        Ok(WorkUnit(b.key, WorkId(env, key), StageId(env, "discovery"), ArtifactId(env, b.key), b.sourceKey,
                    identity, key,
                    ContentType(b.seed.format).value, "manual_source:" + b.seed.format + ":" + mode,
                    policy.retryBudget + 1))
  }

  function WorkId(env: Env, semanticKey: string): string {
    env.uuid(env.runId + ":" + semanticKey)
  }

  function StageId(env: Env, stage: string): string {
    env.uuid(env.runId + ":stage:" + stage)
  }

  function ArtifactId(env: Env, bindingKey: string): string {
    env.artifactUuid("artifact:" + env.artifactUuid(env.runId + ":" + bindingKey + ":source"))
  }

  // ------------------------------------------------------- sources and stages

  datatype SourceSpec = SourceSpec(
    sourceKey: string, policyDigest: string, active: bool, maxActive: nat, minimumIntervalMs: nat)

  /** `_source_spec`. */
  function SourceFor(env: Env, policy: Policy): SourceSpec {
    match policy.access
    case Manual(_, _, _) => SourceSpec(policy.sourceKey, env.policyDigest(policy), LegalOk(policy), 1, 0)
    case Network(concurrency, rate) =>
      SourceSpec(policy.sourceKey, env.policyDigest(policy), LegalOk(policy), concurrency, Interval(rate))
  }

  /** `max(0, int(1000 / rate))`; the contract keeps the rate positive. */
  function Interval(rate: real): nat {
    if rate > 0.0 then (1000.0 / rate).Floor else 0
  }

  function SourcesFor(env: Env, policies: map<string, Policy>, bindings: seq<Binding>): (r: seq<SourceSpec>)
    requires forall b :: b in bindings ==> b.policyKey in policies
    ensures |r| == |bindings|
    ensures forall i :: 0 <= i < |bindings| ==> r[i] == SourceFor(env, policies[bindings[i].policyKey])
  {
    if bindings == [] then []
    else
      var last := bindings[|bindings| - 1];
      assert last in bindings;
      SourcesFor(env, policies, bindings[..|bindings| - 1]) + [SourceFor(env, policies[last.policyKey])]
  }

  datatype StageSpec = StageSpec(id: string, stage: string, running: bool)

  const STAGES := ["discovery", "acquisition", "extraction", "normalization",
                   "geography", "entity_resolution", "quality", "export"]

  function StagesFor(env: Env, names: seq<string>): (r: seq<StageSpec>)
    ensures |r| == |names|
    ensures forall i :: 0 <= i < |names| ==>
      r[i] == StageSpec(StageId(env, names[i]), names[i], names[i] == "discovery")
  {
    if names == [] then []
    else [StageSpec(StageId(env, names[0]), names[0], names[0] == "discovery")] + StagesFor(env, names[1..])
  }

  /** The bootstrap plan: sources, stages and the initial work. */
  datatype Plan = Plan(sources: seq<SourceSpec>, stages: seq<StageSpec>, work: seq<WorkUnit>)

  // ------------------------------------------------------------- initial work

  /** The work an enabled binding starts with. */
  function WorkFor(env: Env, policies: map<string, Policy>, files: Files, b: Binding): Result<WorkUnit, RunError> {
    if b.policyKey !in policies then Err(PolicyKeyError(b.policyKey))
    else if b.capability != ManualImport then Err(Unsupported(b.key))
    else if !b.seed.File? then Err(ProviderInvalid(b.key))
    else if b.seed.path !in files then Err(SeedKeyError(b.seed.path))
    else ManualWork(env, b, policies[b.policyKey], files[b.seed.path])
  }

  /** The error of a binding without work, by the first check it fails. */
  lemma {:induction false} WorkFails(env: Env, policies: map<string, Policy>, files: Files, b: Binding)
    ensures var r := WorkFor(env, policies, files, b);
      if b.policyKey !in policies then r == Err(PolicyKeyError(b.policyKey))
      else if b.capability != ManualImport then r == Err(Unsupported(b.key))
      else if b.seed.NotApplicable? then r == Err(ProviderInvalid(b.key))
      else if b.seed.path !in files then r == Err(SeedKeyError(b.seed.path))
      else if policies[b.policyKey].access.Network? then r == Err(OwnerContractBroken)
      else if b.seed.format !in {"csv", "json", "jsonl"} then r == Err(ContentTypeKeyError(b.seed.format))
      else if env.publish(b.key, files[b.seed.path]) == None then r == Err(PublicationFailed(b.key))
      else r.Ok?
  {
  }

  function EnabledOf(bindings: seq<Binding>, enabled: seq<string>): (r: seq<Binding>)
    ensures forall b :: b in r <==> b in bindings && b.key in enabled
  {
    if bindings == [] then []
    else
      EnabledOf(bindings[..|bindings| - 1], enabled)
      + if bindings[|bindings| - 1].key in enabled then [bindings[|bindings| - 1]] else []
  }

  /** Work for a list of bindings, stopping at the first error. */
  function Works(work: Binding -> Result<WorkUnit, RunError>, bindings: seq<Binding>): Result<seq<WorkUnit>, RunError> {
    if bindings == [] then Ok([])
    else
      match Works(work, bindings[..|bindings| - 1])
      case Err(e) => Err(e)
      case Ok(units) =>
        match work(bindings[|bindings| - 1])
        case Err(e) => Err(e)
        case Ok(unit) => Ok(units + [unit])
  }

  function Starter(env: Env, policies: map<string, Policy>, files: Files): Binding -> Result<WorkUnit, RunError> {
    (b: Binding) => WorkFor(env, policies, files, b)
  }

  function InitialWork(env: Env, docs: Documents, files: Files): Result<seq<WorkUnit>, RunError> {
    if !docs.campaign.ready then Err(NotReady)
    else Works(Starter(env, docs.policies, files), EnabledOf(docs.bindings, docs.campaign.enabled))
  }

  lemma {:induction false} ErrorStays(
    work: Binding -> Result<WorkUnit, RunError>, bindings: seq<Binding>, enabled: seq<string>, n: nat, e: RunError)
    requires n <= |bindings| && Works(work, EnabledOf(bindings[..n], enabled)) == Err(e)
    ensures Works(work, EnabledOf(bindings, enabled)) == Err(e)
    decreases |bindings| - n
  {
    if n == |bindings| {
      assert bindings[..n] == bindings;
    } else {
      EnabledNext(bindings, enabled, n);
      WorksNext(work, EnabledOf(bindings[..n], enabled), bindings[n]);
      ErrorStays(work, bindings, enabled, n + 1, e);
    }
  }

  lemma {:induction false} EnabledNext(bindings: seq<Binding>, enabled: seq<string>, n: nat)
    requires n < |bindings|
    ensures bindings[n].key in enabled ==>
      EnabledOf(bindings[..n + 1], enabled) == EnabledOf(bindings[..n], enabled) + [bindings[n]]
    ensures bindings[n].key !in enabled ==> EnabledOf(bindings[..n + 1], enabled) == EnabledOf(bindings[..n], enabled)
  {
    assert bindings[..n + 1][..n] == bindings[..n];
  }

  lemma {:induction false} WorksNext(work: Binding -> Result<WorkUnit, RunError>, bindings: seq<Binding>, b: Binding)
    ensures Works(work, bindings + [b]) ==
      match Works(work, bindings)
      case Err(e) => Err(e)
      case Ok(units) =>
        (match work(b)
         case Err(e) => Err(e)
         case Ok(unit) => Ok(units + [unit]))
  {
    assert (bindings + [b])[..|bindings|] == bindings;
  }

  /** Either every binding has its work, in order, or the error is that of the first one without. */
  lemma {:induction false} WorksExactly(work: Binding -> Result<WorkUnit, RunError>, bindings: seq<Binding>)
    ensures match Works(work, bindings)
      case Ok(units) => OneEach(work, bindings, units)
      case Err(e) => exists i :: 0 <= i < |bindings| && work(bindings[i]) == Err(e)
                       && forall j :: 0 <= j < i ==> work(bindings[j]).Ok?
  {
    if bindings != [] {
      var init := bindings[..|bindings| - 1];
      WorksExactly(work, init);
      var last := work(bindings[|bindings| - 1]);
      match Works(work, init)
      case Err(e) =>
        var i :| 0 <= i < |init| && work(init[i]) == Err(e) && forall j :: 0 <= j < i ==> work(init[j]).Ok?;
        assert work(bindings[i]) == Err(e) && forall j :: 0 <= j < i ==> work(bindings[j]) == work(init[j]);
      case Ok(units) =>
        assert forall j :: 0 <= j < |init| ==> work(bindings[j]) == work(init[j]) == Ok(units[j]);
    }
  }

  lemma {:induction false} AllWork(work: Binding -> Result<WorkUnit, RunError>, bindings: seq<Binding>)
    requires Works(work, bindings).Ok?
    ensures forall b :: b in bindings ==> work(b).Ok?
  {
    if bindings != [] {
      var init, last := bindings[..|bindings| - 1], bindings[|bindings| - 1];
      AllWork(work, init);
      assert bindings == init + [last];
    }
  }

  lemma {:induction false} WorksHavePolicies(
    env: Env, policies: map<string, Policy>, files: Files, bindings: seq<Binding>)
    requires Works(Starter(env, policies, files), bindings).Ok?
    ensures forall b :: b in bindings ==> b.policyKey in policies
  {
    AllWork(Starter(env, policies, files), bindings);
    forall b | b in bindings ensures b.policyKey in policies {
      assert Starter(env, policies, files)(b).Ok?;
    }
  }

  /** The plan of a run: its sources and work come from the enabled bindings, in document order. */
  function Bootstrap(env: Env, docs: Documents, files: Files): Result<Plan, RunError> {
    match InitialWork(env, docs, files)
    case Err(e) => Err(e)
    case Ok(units) =>
      var chosen := EnabledOf(docs.bindings, docs.campaign.enabled);
      WorksHavePolicies(env, docs.policies, files, chosen);
      Ok(Plan(SourcesFor(env, docs.policies, chosen), StagesFor(env, STAGES), units))
  }

  lemma {:induction false} SourcesNext(env: Env, policies: map<string, Policy>, bindings: seq<Binding>, b: Binding)
    requires b.policyKey in policies && forall c :: c in bindings ==> c.policyKey in policies
    ensures SourcesFor(env, policies, bindings + [b])
      == SourcesFor(env, policies, bindings) + [SourceFor(env, policies[b.policyKey])]
  {
    assert (bindings + [b])[..|bindings|] == bindings;
  }

  /** `create`: the loop over the bindings of the campaign. */
  method Create(env: Env, docs: Documents, files: Files) returns (r: Result<Plan, RunError>)
    ensures r == Bootstrap(env, docs, files)
    ensures !docs.campaign.ready ==> r == Err(NotReady)
  {
    if !docs.campaign.ready {
      return Err(NotReady);
    }
    var stages := StagesFor(env, STAGES);
    var work := Starter(env, docs.policies, files);
    var collected := Collect(env, docs.policies, docs.bindings, docs.campaign.enabled, work);
    if collected.Err? {
      return Err(collected.error);
    }
    r := Ok(Plan(collected.value.0, stages, collected.value.1));
  }

  /** Source rows and work for the enabled bindings, up to the first error. */
  method Collect(env: Env, policies: map<string, Policy>, bindings: seq<Binding>, enabled: seq<string>,
                 work: Binding -> Result<WorkUnit, RunError>)
    returns (r: Result<(seq<SourceSpec>, seq<WorkUnit>), RunError>)
    requires forall b: Binding :: b.policyKey !in policies ==> work(b) == Err(PolicyKeyError(b.policyKey))
    ensures r.Err? ==> Works(work, EnabledOf(bindings, enabled)) == Err(r.error)
    ensures r.Ok? ==> Works(work, EnabledOf(bindings, enabled)) == Ok(r.value.1)
    ensures r.Ok? ==> forall b :: b in EnabledOf(bindings, enabled) ==> b.policyKey in policies
    ensures r.Ok? ==> r.value.0 == SourcesFor(env, policies, EnabledOf(bindings, enabled))
  {
    var sources: seq<SourceSpec> := [];
    var units: seq<WorkUnit> := [];
    for i := 0 to |bindings|
      invariant Works(work, EnabledOf(bindings[..i], enabled)) == Ok(units)
      invariant forall b :: b in EnabledOf(bindings[..i], enabled) ==> b.policyKey in policies
      invariant sources == SourcesFor(env, policies, EnabledOf(bindings[..i], enabled))
    {
      var binding := bindings[i];
      EnabledNext(bindings, enabled, i);
      if binding.key !in enabled {
        continue;
      }
      WorksNext(work, EnabledOf(bindings[..i], enabled), binding);
      if binding.policyKey !in policies {
        ErrorStays(work, bindings, enabled, i + 1, PolicyKeyError(binding.policyKey));
        return Err(PolicyKeyError(binding.policyKey));
      }
      SourcesNext(env, policies, EnabledOf(bindings[..i], enabled), binding);
      sources := sources + [SourceFor(env, policies[binding.policyKey])];
      var unit := work(binding);
      if unit.Err? {
        ErrorStays(work, bindings, enabled, i + 1, unit.error);
        return Err(unit.error);
      }
      units := units + [unit.value];
    }
    assert bindings[..|bindings|] == bindings;
    r := Ok((sources, units));
  }

  // ------------------------------------------------------ no internal error

  /** Only manual imports are enabled. */
  ghost predicate OnlyManual(docs: Documents) {
    forall b :: b in docs.bindings && b.key in docs.campaign.enabled ==> b.capability == ManualImport
  }

  /** Only publication can stand between a binding and its work unit. */
  ghost predicate Startable(work: Binding -> Result<WorkUnit, RunError>, b: Binding) {
    var w := work(b);
    (w.Err? ==> w.error == PublicationFailed(b.key)) && (w.Ok? ==> w.value.binding == b.key)
  }

  lemma {:induction false} ReadableStarts(
    env: Env, policies: map<string, Policy>, files: Files, read: SeedReader, b: Binding)
    requires b.capability == ManualImport && ReadSeed(b, policies, files, read).Ok? && SeedFormat(b.seed.format)
    ensures Startable(Starter(env, policies, files), b)
  {
    FormatKnown(b.seed.format);
  }

  /** Every lookup for an enabled manual binding of a compiled bundle succeeds. */
  lemma {:induction false} CompiledBinding(
    requested: string, env: Env, docs: Documents, files: Files, read: SeedReader, b: Binding)
    requires Compiles(requested, docs, files, read) && OnlyManual(docs)
    requires b in docs.bindings && b.key in docs.campaign.enabled
    ensures Startable(Starter(env, docs.policies, files), b)
  {
    var i :| 0 <= i < |docs.bindings| && docs.bindings[i] == b;
    assert docs.bindings[i].capability == ManualImport;
    ReadableStarts(env, docs.policies, files, read, b);
  }

  lemma {:induction false} FormatKnown(format: string)
    ensures SeedFormat(format) <==> ContentType(format).Some?
  {
  }

  /** The units of a list of bindings, one each, in order. */
  ghost predicate OneEach(work: Binding -> Result<WorkUnit, RunError>, bindings: seq<Binding>, units: seq<WorkUnit>) {
    |units| == |bindings| && forall i :: 0 <= i < |units| ==> work(bindings[i]) == Ok(units[i])
  }

  lemma {:induction false} WorksOf(work: Binding -> Result<WorkUnit, RunError>, bindings: seq<Binding>)
    requires forall b :: b in bindings ==> Startable(work, b)
    ensures Works(work, bindings).Err? ==> Works(work, bindings).error.PublicationFailed?
    ensures Works(work, bindings).Ok? ==> OneEach(work, bindings, Works(work, bindings).value)
  {
    if bindings != [] {
      var init := bindings[..|bindings| - 1];
      WorksOf(work, init);
      assert Startable(work, bindings[|bindings| - 1]);
    }
  }

  // -------------------------------------------------- one unit per binding

  ghost predicate KeysDiffer(bindings: seq<Binding>) {
    forall i, j :: 0 <= i < j < |bindings| ==> bindings[i].key != bindings[j].key
  }

  lemma {:induction false} EnabledKeysDiffer(bindings: seq<Binding>, enabled: seq<string>)
    requires KeysDiffer(bindings)
    ensures KeysDiffer(EnabledOf(bindings, enabled))
  {
    if bindings != [] {
      var n := |bindings| - 1;
      var init := bindings[..n];
      EnabledKeysDiffer(init, enabled);
      var chosen := EnabledOf(init, enabled);
      forall i | 0 <= i < |chosen| ensures chosen[i].key != bindings[n].key {
        assert chosen[i] in init;
        var j :| 0 <= j < |init| && init[j] == chosen[i];
        assert bindings[j] == init[j];
      }
    }
  }

  /** Lists without repetition that hold the same elements are equally long. */
  lemma {:induction false} SameLength(a: seq<string>, b: seq<string>)
    requires Distinct(a) && Distinct(b) && forall x :: x in a <==> x in b
    ensures |a| == |b|
  {
    SetSize(a);
    SetSize(b);
    assert (set x | x in a) == (set x | x in b);
  }

  lemma {:induction false} SetSize(a: seq<string>)
    requires Distinct(a)
    ensures |set x | x in a| == |a|
  {
    if a != [] {
      var init := a[..|a| - 1];
      SetSize(init);
      assert (set x | x in a) == (set x | x in init) + {a[|a| - 1]};
    }
  }

  lemma {:induction false} EnabledCount(docs: Documents)
    requires ContractsHold(docs) && AllIn(docs.campaign.enabled, BindingKeys(docs.bindings))
    ensures |EnabledOf(docs.bindings, docs.campaign.enabled)| == |docs.campaign.enabled|
  {
    var chosen := EnabledOf(docs.bindings, docs.campaign.enabled);
    EnabledKeysDiffer(docs.bindings, docs.campaign.enabled);
    EnabledKeys(docs.bindings, docs.campaign.enabled);
    SameLength(BindingKeys(chosen), docs.campaign.enabled);
  }

  lemma {:induction false} EnabledKeys(bindings: seq<Binding>, enabled: seq<string>)
    requires AllIn(enabled, BindingKeys(bindings))
    ensures forall x :: x in BindingKeys(EnabledOf(bindings, enabled)) <==> x in enabled
  {
    var chosen := EnabledOf(bindings, enabled);
    forall x ensures x in BindingKeys(chosen) <==> x in enabled {
      KeyOwners(bindings, x);
      KeyOwners(chosen, x);
    }
  }

  lemma {:induction false} KeyOwners(bindings: seq<Binding>, x: string)
    ensures x in BindingKeys(bindings) <==> exists b :: b in bindings && b.key == x
  {
    var keys := BindingKeys(bindings);
    if x in keys {
      var i :| 0 <= i < |keys| && keys[i] == x;
      assert bindings[i] in bindings;
    }
    if b: Binding :| b in bindings && b.key == x {
      var i :| 0 <= i < |bindings| && bindings[i] == b;
      assert keys[i] == x;
    }
  }

  // ------------------------------------------------------ identities differ

  lemma {:induction false} IdentityFields(
    runId: string, b: Binding, policyDigest: string, sourceDigest: string, format: string, mode: string)
    ensures var es := Identity(runId, b, policyDigest, sourceDigest, format, mode);
      |es| == 8 && es[2].value == Str(b.key) && UniqueKeys(es) && WellFormed(Obj(es))
  {
    var es := Identity(runId, b, policyDigest, sourceDigest, format, mode);
    assert |es[0].key| == 8 && |es[1].key| == 5 && |es[2].key| == 10 && |es[3].key| == 18;
    assert |es[4].key| == 12 && |es[5].key| == 6 && |es[6].key| == 4 && |es[7].key| == 17;
    assert forall i, j :: 0 <= i < j < 8 ==> |es[i].key| != |es[j].key|;
  }

  /** The payload names every field it is made of. */
  lemma {:induction false} IdentityBinds(
    runId: string, b: Binding, policyDigest: string, sourceDigest: string, format: string, mode: string)
    ensures var v := Obj(Identity(runId, b, policyDigest, sourceDigest, format, mode));
      && Binds(v, "contract", Str("manual-import-work-identity@1")) && Binds(v, "runId", Str(runId))
      && Binds(v, "bindingKey", Str(b.key)) && Binds(v, "sourcePolicyDigest", Str(policyDigest))
      && Binds(v, "sourceDigest", Str(sourceDigest)) && Binds(v, "format", Str(format))
      && Binds(v, "mode", Str(mode)) && Binds(v, "extractionProfile", Str(b.extractionProfile))
  {
    IdentityFields(runId, b, policyDigest, sourceDigest, format, mode);
    var es := Identity(runId, b, policyDigest, sourceDigest, format, mode);
    assert forall i :: 0 <= i < 8 ==> es[i] in es;
    assert es[0] == Member("contract", Str("manual-import-work-identity@1")) && es[1] == Member("runId", Str(runId));
    assert es[2] == Member("bindingKey", Str(b.key)) && es[3] == Member("sourcePolicyDigest", Str(policyDigest));
    assert es[4] == Member("sourceDigest", Str(sourceDigest)) && es[5] == Member("format", Str(format));
    assert es[6] == Member("mode", Str(mode)) && es[7] == Member("extractionProfile", Str(b.extractionProfile));
  }

  lemma {:induction false} FieldNames(runId: string, a: Binding, pa: string, sa: string, fa: string, ma: string,
                                      b: Binding, pb: string, sb: string, fb: string, mb: string, i: int)
    requires 0 <= i < 8
    ensures Identity(runId, a, pa, sa, fa, ma)[i].key == Identity(runId, b, pb, sb, fb, mb)[i].key
  {
  }

  ghost predicate Injective(sha: seq<Byte> -> string) {
    forall x, y :: sha(x) == sha(y) ==> x == y
  }

  /** The semantic key identifies the work: two payloads share it exactly when run, binding, policy,
      source content, format, mode and extraction profile agree. */
  lemma {:induction false} SemanticKeyIdentifies(
    run1: string, a: Binding, pa: string, sa: string, fa: string, ma: string,
    run2: string, b: Binding, pb: string, sb: string, fb: string, mb: string, sha: seq<Byte> -> string)
    requires Injective(sha)
    ensures var x, y := Obj(Identity(run1, a, pa, sa, fa, ma)), Obj(Identity(run2, b, pb, sb, fb, mb));
      SemanticKey(x, sha) == SemanticKey(y, sha) <==>
      && run1 == run2 && a.key == b.key && pa == pb && sa == sb && fa == fb && ma == mb
      && a.extractionProfile == b.extractionProfile
  {
    var ea, eb := Identity(run1, a, pa, sa, fa, ma), Identity(run2, b, pb, sb, fb, mb);
    IdentityFields(run1, a, pa, sa, fa, ma);
    IdentityFields(run2, b, pb, sb, fb, mb);
    IdentityNames(run1, a, pa, sa, fa, ma, run2, b, pb, sb, fb, mb);
    CanonicalBundles.SameAligned(ea, eb);
    CanonicalBytesIdentify(Obj(ea), Obj(eb));
    if CanonicalBytes(Obj(ea)) != CanonicalBytes(Obj(eb)) {
      KeysDifferBySha(CanonicalBytes(Obj(ea)), CanonicalBytes(Obj(eb)), sha);
    }
    IdentityTexts(ea, run1, a, pa, sa, fa, ma);
    IdentityTexts(eb, run2, b, pb, sb, fb, mb);
    SameTexts(ea, eb);
  }

  lemma {:induction false} IdentityNames(
    run1: string, a: Binding, pa: string, sa: string, fa: string, ma: string,
    run2: string, b: Binding, pb: string, sb: string, fb: string, mb: string)
    ensures var ea, eb := Identity(run1, a, pa, sa, fa, ma), Identity(run2, b, pb, sb, fb, mb);
      |ea| == |eb| && forall i :: 0 <= i < |ea| ==> ea[i].key == eb[i].key
  {
  }

  lemma {:induction false} IdentityTexts(
    es: seq<Member>, runId: string, b: Binding, policyDigest: string, sourceDigest: string, format: string,
    mode: string)
    requires es == Identity(runId, b, policyDigest, sourceDigest, format, mode)
    ensures |es| == 8 && (forall i :: 0 <= i < 8 ==> es[i].value.Str?)
    ensures es[0].value.s == "manual-import-work-identity@1" && es[1].value.s == runId
    ensures es[2].value.s == b.key && es[3].value.s == policyDigest && es[4].value.s == sourceDigest
    ensures es[5].value.s == format && es[6].value.s == mode && es[7].value.s == b.extractionProfile
  {
  }

  lemma {:induction false} SameTexts(ea: seq<Member>, eb: seq<Member>)
    requires |ea| == |eb| == 8 && forall i :: 0 <= i < 8 ==> ea[i].value.Str? && eb[i].value.Str?
    ensures (forall i :: 0 <= i < 8 ==> Same(ea[i].value, eb[i].value)) <==>
      && ea[0].value.s == eb[0].value.s && ea[1].value.s == eb[1].value.s
      && ea[2].value.s == eb[2].value.s && ea[3].value.s == eb[3].value.s
      && ea[4].value.s == eb[4].value.s && ea[5].value.s == eb[5].value.s
      && ea[6].value.s == eb[6].value.s && ea[7].value.s == eb[7].value.s
  {
    forall i | 0 <= i < 8 ensures Same(ea[i].value, eb[i].value) <==> ea[i].value.s == eb[i].value.s {
    }
    if forall i :: 0 <= i < 8 ==> Same(ea[i].value, eb[i].value) {
      assert forall i :: 0 <= i < 8 ==> ea[i].value.s == eb[i].value.s;
    }
  }

  /** An identity payload of a given binding. */
  ghost predicate IdentifiesBinding(identity: Json, runId: string, key: string) {
    exists b: Binding, p, s, f, m ::
      b.key == key && identity == Obj(Identity(runId, b, p, s, f, m))
  }

  /** Payloads of different bindings are different data, so their semantic keys differ. */
  lemma {:induction false} IdentitiesDiffer(
    x: Json, y: Json, runId: string, k: string, l: string, sha: seq<Byte> -> string)
    requires Injective(sha) && k != l && IdentifiesBinding(x, runId, k) && IdentifiesBinding(y, runId, l)
    ensures !Same(x, y) && SemanticKey(x, sha) != SemanticKey(y, sha)
  {
    var a: Binding, pa, sa, fa, ma :| a.key == k && x == Obj(Identity(runId, a, pa, sa, fa, ma));
    var b: Binding, pb, sb, fb, mb :| b.key == l && y == Obj(Identity(runId, b, pb, sb, fb, mb));
    IdentityFields(runId, a, pa, sa, fa, ma);
    IdentityFields(runId, b, pb, sb, fb, mb);
    var ea, eb := Identity(runId, a, pa, sa, fa, ma), Identity(runId, b, pb, sb, fb, mb);
    forall i | 0 <= i < 8 ensures ea[i].key == eb[i].key {
      FieldNames(runId, a, pa, sa, fa, ma, b, pb, sb, fb, mb, i);
    }
    CanonicalBundles.SameAligned(ea, eb);
    assert !Same(ea[2].value, eb[2].value);
    CanonicalBytesIdentify(x, y);
    KeysDifferBySha(CanonicalBytes(x), CanonicalBytes(y), sha);
  }

  lemma {:induction false} KeysDifferBySha(x: seq<Byte>, y: seq<Byte>, sha: seq<Byte> -> string)
    requires Injective(sha) && x != y
    ensures CanonicalBundles.Sha256Identity(x, sha) != CanonicalBundles.Sha256Identity(y, sha)
  {
    DropPrefix("sha256:", sha(x));
    DropPrefix("sha256:", sha(y));
  }

  lemma {:induction false} UnitIdentifies(env: Env, policies: map<string, Policy>, files: Files, b: Binding)
    requires WorkFor(env, policies, files, b).Ok?
    ensures var u := WorkFor(env, policies, files, b).value;
      && u.binding == b.key && IdentifiesBinding(u.identity, env.runId, b.key)
      && u.semanticKey == SemanticKey(u.identity, env.sha)
      && u.workId == WorkId(env, u.semanticKey) && u.artifactId == ArtifactId(env, b.key)
  {
  }

  /** The work unit of a binding, field by field. */
  ghost predicate UnitOf(env: Env, policies: map<string, Policy>, files: Files, b: Binding, u: WorkUnit) {
    && b.policyKey in policies && policies[b.policyKey].access.Manual? && b.seed.File? && b.seed.path in files
    && b.seed.format in {"csv", "json", "jsonl"}
    && var policy := policies[b.policyKey];
      var digest := env.publish(b.key, files[b.seed.path]);
      var mode := if policy.access.partialAllowed then "partial" else "atomic";
      && digest.Some?
      && u.binding == b.key && u.sourceKey == b.sourceKey
      && u.stageRunId == env.uuid(env.runId + ":stage:discovery")
      && u.artifactId == env.artifactUuid("artifact:" + env.artifactUuid(env.runId + ":" + b.key + ":source"))
      && u.identity
        == Obj(Identity(env.runId, b, env.policyDigest(policy), digest.value, b.seed.format, mode))
      && u.semanticKey == "sha256:" + env.sha(CanonicalBytes(u.identity))
      && u.workId == env.uuid(env.runId + ":" + u.semanticKey)
      && u.role == "manual_source:" + b.seed.format + ":" + mode
      && u.maxAttempts == policy.retryBudget + 1
      && u.contentType == if b.seed.format == "csv" then "text/csv"
                          else if b.seed.format == "json" then "application/json"
                          else "application/x-ndjson"
  }

  lemma {:induction false} WorkIsUnit(env: Env, policies: map<string, Policy>, files: Files, b: Binding)
    requires WorkFor(env, policies, files, b).Ok?
    ensures UnitOf(env, policies, files, b, WorkFor(env, policies, files, b).value)
  {
    StageText(env);
  }

  lemma {:induction false} StageText(env: Env)
    ensures StageId(env, "discovery") == env.uuid(env.runId + ":stage:discovery")
  {
    var run := env.runId;
    assert run + ":stage:" + "discovery" == run + (":stage:" + "discovery");
    assert ":stage:" + "discovery" == ":stage:discovery";
  }

  lemma {:induction false} IdsDiffer(env: Env, k: string, l: string, x: string, y: string)
    requires CollisionFree(env)
    ensures x != y ==> WorkId(env, x) != WorkId(env, y)
    ensures k != l ==> ArtifactId(env, k) != ArtifactId(env, l)
  {
    if WorkId(env, x) == WorkId(env, y) {
      DropPrefix(env.runId + ":", x);
      DropPrefix(env.runId + ":", y);
    }
    if ArtifactId(env, k) == ArtifactId(env, l) {
      var inner := env.artifactUuid(env.runId + ":" + k + ":source");
      var inner' := env.artifactUuid(env.runId + ":" + l + ":source");
      DropPrefix("artifact:", inner);
      DropPrefix("artifact:", inner');
      Sandwich(env.runId + ":", k, l, ":source");
    }
  }

  // ------------------------------------------------------------ main result

  /** One unit per enabled binding, told apart by payload and by semantic key. */
  ghost predicate OnePerBinding(units: seq<WorkUnit>, enabled: seq<string>) {
    && |units| == |enabled|
    && (forall i :: 0 <= i < |units| ==> units[i].binding in enabled)
    && (forall i, j :: 0 <= i < j < |units| ==> Apart(units[i], units[j]))
  }

  ghost predicate Apart(u: WorkUnit, v: WorkUnit) {
    && u.binding != v.binding && !Same(u.identity, v.identity) && u.semanticKey != v.semanticKey
    && u.workId != v.workId && u.artifactId != v.artifactId
  }

  /** One active source row per enabled binding, under the binding's own source key, for one request at a time. */
  ghost predicate SourcesReady(
    env: Env, policies: map<string, Policy>, sources: seq<SourceSpec>, chosen: seq<Binding>) {
    && |sources| == |chosen|
    && forall i :: 0 <= i < |chosen| ==>
         && chosen[i].policyKey in policies
         && sources[i] == SourceSpec(chosen[i].sourceKey, env.policyDigest(policies[chosen[i].policyKey]), true, 1, 0)
  }

  /** The hash and the two UUID namespaces have no collisions. */
  ghost predicate CollisionFree(env: Env) {
    Injective(env.sha) && InjectiveText(env.uuid) && InjectiveText(env.artifactUuid)
  }

  ghost predicate InjectiveText(f: string -> string) {
    forall x, y :: f(x) == f(y) ==> x == y
  }

  /** The eight stages in pipeline order, of which only discovery is running. */
  ghost predicate StagesReady(env: Env, stages: seq<StageSpec>) {
    && |stages| == 8
    && (forall i :: 0 <= i < 8 ==>
          stages[i].id == env.uuid(env.runId + ":stage:" + stages[i].stage) && (stages[i].running <==> i == 0))
    && stages[0].stage == "discovery" && stages[1].stage == "acquisition" && stages[2].stage == "extraction"
    && stages[3].stage == "normalization" && stages[4].stage == "geography"
    && stages[5].stage == "entity_resolution" && stages[6].stage == "quality" && stages[7].stage == "export"
  }

  lemma {:induction false} StagesStart(env: Env)
    ensures StagesReady(env, StagesFor(env, STAGES))
  {
    FirstStage();
    StagesNamed(env, STAGES);
  }

  lemma {:induction false} FirstStage()
    ensures |STAGES| == 8 && forall i :: 0 <= i < 8 ==> (STAGES[i] == "discovery" <==> i == 0)
  {
    assert |STAGES[0]| == 9 && |STAGES[1]| == 11 && |STAGES[2]| == 10 && |STAGES[3]| == 13;
    assert |STAGES[4]| == 9 && |STAGES[5]| == 17 && |STAGES[6]| == 7 && |STAGES[7]| == 6;
    assert STAGES[0][0] == 'd' && STAGES[4][0] == 'g';
  }

  lemma {:induction false} StagesNamed(env: Env, names: seq<string>)
    requires forall i :: 0 <= i < |names| ==> (names[i] == "discovery" <==> i == 0)
    ensures forall i :: 0 <= i < |names| ==>
      StagesFor(env, names)[i] == StageSpec(env.uuid(env.runId + ":stage:" + names[i]), names[i], i == 0)
  {
  }

  /** The bindings at increasing positions, none left out that is enabled. */
  ghost predicate Chosen(bindings: seq<Binding>, enabled: seq<string>, chosen: seq<Binding>, picks: seq<int>) {
    && |picks| == |chosen|
    && (forall j :: 0 <= j < |picks| ==> 0 <= picks[j] < |bindings| && bindings[picks[j]] == chosen[j])
    && (forall j, k :: 0 <= j < k < |picks| ==> picks[j] < picks[k])
    && forall i :: 0 <= i < |bindings| ==> (i in picks <==> bindings[i].key in enabled)
  }

  lemma {:induction false} EnabledInOrder(bindings: seq<Binding>, enabled: seq<string>) returns (picks: seq<int>)
    ensures Chosen(bindings, enabled, EnabledOf(bindings, enabled), picks)
  {
    picks := [];
    if bindings != [] {
      var init, last := bindings[..|bindings| - 1], bindings[|bindings| - 1];
      var before := EnabledInOrder(init, enabled);
      picks := ChosenNext(init, last, enabled, EnabledOf(init, enabled), before);
      assert bindings == init + [last];
    }
  }

  lemma {:induction false} ChosenNext(
    bindings: seq<Binding>, last: Binding, enabled: seq<string>, chosen: seq<Binding>, before: seq<int>)
    returns (picks: seq<int>)
    requires Chosen(bindings, enabled, chosen, before)
    ensures Chosen(bindings + [last], enabled, chosen + if last.key in enabled then [last] else [], picks)
  {
    var n, all := |bindings|, bindings + [last];
    picks := before + if last.key in enabled then [n] else [];
    assert n !in before;
    assert forall j :: 0 <= j < |before| ==> all[before[j]] == bindings[before[j]];
    forall i | 0 <= i < |all| ensures i in picks <==> all[i].key in enabled {
      assert i < n ==> all[i] == bindings[i];
    }
  }

  /** The pause between requests is the largest whole number of milliseconds within the allowed rate. */
  lemma {:induction false} IntervalIsLargest(rate: real)
    requires rate > 0.0
    ensures Interval(rate) as real * rate <= 1000.0 < (Interval(rate) + 1) as real * rate
  {
    Scaled(1000.0, rate, Interval(rate) as real, (Interval(rate) + 1) as real);
  }

  lemma {:induction false} Scaled(x: real, rate: real, low: real, high: real)
    requires rate > 0.0 && low <= x / rate < high
    ensures low * rate <= x < high * rate
  {
    var q := x / rate;
    assert q * rate == x;
    assert (q - low) * rate >= 0.0;
    assert (high - q) * rate > 0.0;
  }

  ghost predicate UnitsOf(
    env: Env, policies: map<string, Policy>, files: Files, chosen: seq<Binding>, units: seq<WorkUnit>)
  {
    |units| == |chosen| && forall i :: 0 <= i < |units| ==> UnitOf(env, policies, files, chosen[i], units[i])
  }

  lemma {:induction false} WorkIsUnits(
    env: Env, policies: map<string, Policy>, files: Files, chosen: seq<Binding>, units: seq<WorkUnit>)
    requires OneEach(Starter(env, policies, files), chosen, units)
    ensures UnitsOf(env, policies, files, chosen, units)
  {
    forall i | 0 <= i < |units| ensures UnitOf(env, policies, files, chosen[i], units[i]) {
      assert Starter(env, policies, files)(chosen[i]) == Ok(units[i]);
      WorkIsUnit(env, policies, files, chosen[i]);
    }
  }

  /** For every ready bundle that compiles with only manual imports enabled: no lookup fails and no
      owner contract is broken; and when the run is created there is exactly one work unit per
      enabled binding, with pairwise different payloads, semantic keys and identifiers, and one
      active source row per enabled binding. */
  lemma {:induction false} CompiledRunsStart(
    requested: string, env: Env, docs: Documents, files: Files, read: SeedReader)
    requires Compiles(requested, docs, files, read) && OnlyManual(docs) && docs.campaign.ready && CollisionFree(env)
    ensures Bootstrap(env, docs, files).Err? ==> Bootstrap(env, docs, files).error.PublicationFailed?
    ensures Bootstrap(env, docs, files).Ok? ==>
      var plan := Bootstrap(env, docs, files).value;
      exists chosen, picks ::
        && Chosen(docs.bindings, docs.campaign.enabled, chosen, picks)
        && OnePerBinding(plan.work, docs.campaign.enabled)
        && UnitsOf(env, docs.policies, files, chosen, plan.work)
        && SourcesReady(env, docs.policies, plan.sources, chosen)
        && StagesReady(env, plan.stages)
  {
    var picks := EnabledInOrder(docs.bindings, docs.campaign.enabled);
    WorkStarts(requested, env, docs, files, read);
    SourcesStart(requested, env, docs, files, read);
    StagesStart(env);
  }

  lemma {:induction false} SourcesStart(requested: string, env: Env, docs: Documents, files: Files, read: SeedReader)
    requires Compiles(requested, docs, files, read) && OnlyManual(docs)
    ensures var chosen := EnabledOf(docs.bindings, docs.campaign.enabled);
      && (forall b :: b in chosen ==> b.policyKey in docs.policies)
      && SourcesReady(env, docs.policies, SourcesFor(env, docs.policies, chosen), chosen)
  {
    var chosen := EnabledOf(docs.bindings, docs.campaign.enabled);
    forall b | b in chosen
      ensures b.policyKey in docs.policies
      ensures SourceFor(env, docs.policies[b.policyKey])
        == SourceSpec(b.sourceKey, env.policyDigest(docs.policies[b.policyKey]), true, 1, 0)
    {
      CompiledSource(requested, env, docs, files, read, b);
    }
    SourcesInOrder(env, docs.policies, chosen);
  }

  lemma {:induction false} SourcesInOrder(env: Env, policies: map<string, Policy>, chosen: seq<Binding>)
    requires forall b :: b in chosen ==> b.policyKey in policies
    requires forall b :: b in chosen ==>
      SourceFor(env, policies[b.policyKey])
        == SourceSpec(b.sourceKey, env.policyDigest(policies[b.policyKey]), true, 1, 0)
    ensures SourcesReady(env, policies, SourcesFor(env, policies, chosen), chosen)
  {
  }

  lemma {:induction false} CompiledSource(
    requested: string, env: Env, docs: Documents, files: Files, read: SeedReader, b: Binding)
    requires Compiles(requested, docs, files, read) && OnlyManual(docs)
    requires b in docs.bindings && b.key in docs.campaign.enabled
    ensures b.policyKey in docs.policies
    ensures SourceFor(env, docs.policies[b.policyKey])
      == SourceSpec(b.sourceKey, env.policyDigest(docs.policies[b.policyKey]), true, 1, 0)
  {
    var i :| 0 <= i < |docs.bindings| && docs.bindings[i] == b;
    assert docs.bindings[i].capability == ManualImport;
    assert ReadSeed(docs.bindings[i], docs.policies, files, read).Ok?;
    assert BindingOk(b, docs);
  }

  lemma {:induction false} WorkStarts(requested: string, env: Env, docs: Documents, files: Files, read: SeedReader)
    requires Compiles(requested, docs, files, read) && OnlyManual(docs) && docs.campaign.ready && CollisionFree(env)
    ensures InitialWork(env, docs, files).Err? ==> InitialWork(env, docs, files).error.PublicationFailed?
    ensures InitialWork(env, docs, files).Ok? ==>
      && OnePerBinding(InitialWork(env, docs, files).value, docs.campaign.enabled)
      && UnitsOf(env, docs.policies, files, EnabledOf(docs.bindings, docs.campaign.enabled),
                 InitialWork(env, docs, files).value)
  {
    var chosen := EnabledOf(docs.bindings, docs.campaign.enabled);
    var work := Starter(env, docs.policies, files);
    forall b | b in chosen ensures Startable(work, b) {
      CompiledBinding(requested, env, docs, files, read, b);
    }
    WorksOf(work, chosen);
    if Works(work, chosen).Ok? {
      var units := Works(work, chosen).value;
      EnabledCount(docs);
      EnabledKeysDiffer(docs.bindings, docs.campaign.enabled);
      UnitsDiffer(env, docs.policies, files, chosen, units);
      UnitsEnabled(work, chosen, units, docs.campaign.enabled);
      WorkIsUnits(env, docs.policies, files, chosen, units);
    }
  }

  lemma {:induction false} UnitsEnabled(
    work: Binding -> Result<WorkUnit, RunError>, chosen: seq<Binding>, units: seq<WorkUnit>, enabled: seq<string>)
    requires OneEach(work, chosen, units)
    requires forall b :: b in chosen ==> Startable(work, b) && b.key in enabled
    ensures forall i :: 0 <= i < |units| ==> units[i].binding in enabled
  {
    forall i | 0 <= i < |units| ensures units[i].binding in enabled {
      assert Startable(work, chosen[i]);
    }
  }

  lemma {:induction false} UnitsDiffer(
    env: Env, policies: map<string, Policy>, files: Files, chosen: seq<Binding>, units: seq<WorkUnit>)
    requires OneEach(Starter(env, policies, files), chosen, units) && KeysDiffer(chosen) && CollisionFree(env)
    ensures forall i, j :: 0 <= i < j < |units| ==> Apart(units[i], units[j])
  {
    forall i, j | 0 <= i < j < |units| ensures Apart(units[i], units[j]) {
      assert Starter(env, policies, files)(chosen[i]) == Ok(units[i]);
      assert Starter(env, policies, files)(chosen[j]) == Ok(units[j]);
      PairDiffers(env, policies, files, chosen[i], chosen[j], units[i], units[j]);
    }
  }

  lemma {:induction false} PairDiffers(
    env: Env, policies: map<string, Policy>, files: Files, b: Binding, c: Binding, u: WorkUnit, v: WorkUnit)
    requires WorkFor(env, policies, files, b) == Ok(u) && WorkFor(env, policies, files, c) == Ok(v)
    requires b.key != c.key && CollisionFree(env)
    ensures Apart(u, v)
  {
    IdsDiffer(env, b.key, c.key, u.semanticKey, v.semanticKey);
    UnitIdentifies(env, policies, files, b);
    UnitIdentifies(env, policies, files, c);
    IdentitiesDiffer(u.identity, v.identity, env.runId, b.key, c.key, env.sha);
  }
}
