/**
  Which pipeline transition follows a successful work unit, and the digest that identifies the
  plan (packages/collection_application/src/collection_application/pipeline_advancement.py).

  The wording of blockers and SHA-256 are inputs.
 */
module PipelineTransitions {
  import opened Text
  import opened Utf8
  import opened Json
  import opened CanonicalJson
  import CanonicalBundles
  import CampaignCompile
  import CampaignBootstrap

  datatype Artifact = Artifact(id: string, role: string, digest: string, size: nat, contentType: string)

  datatype Source = Source(
    workUnit: string, run: string, stageRun: string, stage: string, capability: string,
    contract: string, outputDigest: string, output: Artifact, inputs: seq<Artifact>)

  /** The constructor's check: no two inputs share an identity or a role. */
  ghost predicate Valid(s: Source) {
    forall i, j :: 0 <= i < j < |s.inputs| ==> s.inputs[i].id != s.inputs[j].id && s.inputs[i].role != s.inputs[j].role
  }

  // -------------------------------------------------------------- source roles

  /** The two role patterns for a manual source. */
  predicate IsSourceRole(role: string) {
    exists p, f, m :: p in {"manual_source", "manual_import_source"} && f in {"csv", "json", "jsonl"}
      && m in {"atomic", "partial"} && role == p + ":" + f + ":" + m
  }

  /** The twelve roles. */
  lemma {:induction false} SourceRoles(role: string)
    ensures IsSourceRole(role) <==> RoleUnder("manual_source", role) || RoleUnder("manual_import_source", role)
  {
    var one, two := "manual_source", "manual_import_source";
    RolesOf(one, role);
    RolesOf(two, role);
  }

  predicate RoleUnder(p: string, role: string) {
    || role == p + ":csv:atomic" || role == p + ":csv:partial" || role == p + ":json:atomic"
    || role == p + ":json:partial" || role == p + ":jsonl:atomic" || role == p + ":jsonl:partial"
  }

  lemma {:induction false} RolesOf(p: string, role: string)
    ensures RoleUnder(p, role) <==>
      exists f, m :: f in {"csv", "json", "jsonl"} && m in {"atomic", "partial"} && role == p + ":" + f + ":" + m
  {
    forall f, m ensures p + ":" + f + ":" + m == p + (":" + f + ":" + m) {
    }
    assert ":" + "csv" + ":" + "atomic" == ":csv:atomic" && ":" + "csv" + ":" + "partial" == ":csv:partial";
    assert ":" + "json" + ":" + "atomic" == ":json:atomic" && ":" + "json" + ":" + "partial" == ":json:partial";
    assert ":" + "jsonl" + ":" + "atomic" == ":jsonl:atomic" && ":" + "jsonl" + ":" + "partial" == ":jsonl:partial";
  }

  function Matching(inputs: seq<Artifact>): (r: seq<Artifact>)
    ensures forall a :: a in r <==> a in inputs && IsSourceRole(a.role)
  {
    if inputs == [] then []
    else (if IsSourceRole(inputs[0].role) then [inputs[0]] else []) + Matching(inputs[1..])
  }

  function Ids(artifacts: seq<Artifact>): (r: seq<Json>)
    ensures |r| == |artifacts| && forall i :: 0 <= i < |artifacts| ==> r[i] == Str(artifacts[i].id)
  {
    if artifacts == [] then [] else [Str(artifacts[0].id)] + Ids(artifacts[1..])
  }

  // ----------------------------------------------------------------- decision

  datatype Verdict = Apply(key: string) | Block(key: string, code: string, context: seq<Member>)

  const ADMISSION := "manual-import-plan-admission"
  const CONFLICT := "PIPELINE_INPUT_ARTIFACT_CONFLICT"

  /** `PipelineTransitionRegistry.plan` up to the digest. */
  function Decide(s: Source): Verdict {
    if s.stage == "discovery" && s.capability == "manual_import" && s.contract == "manual-import-plan@1" then
      DecideImport(s)
    else if s.stage == "discovery" && s.capability == "manual_record" && s.contract == "manual-import-record@1" then
      DecideRecord(s)
    else
      Block("unsupported-transition", "PIPELINE_TRANSITION_UNSUPPORTED",
            [Member("stage", Str(s.stage)), Member("capability", Str(s.capability)),
             Member("outputContract", Str(s.contract)), Member("outputRole", Str(s.output.role))])
  }

  function DecideImport(s: Source): Verdict {
    if s.output.role != "manual_import_plan" then
      Block(ADMISSION, "PIPELINE_OUTPUT_ARTIFACT_CONFLICT",
            [Member("expectedRole", Str("manual_import_plan")), Member("actualRole", Str(s.output.role))])
    else
      var parents := Matching(s.inputs);
      if parents == [] then
        Block(ADMISSION, "PIPELINE_INPUT_ARTIFACT_MISSING",
              [Member("requiredRolePattern", Str("manual[_import]_source:<format>:<atomic|partial>"))])
      else if |parents| != 1 then
        Block(ADMISSION, CONFLICT, [Member("matchingArtifactIds", Arr(Ids(parents)))])
      else Apply(ADMISSION)
  }

  function DecideRecord(s: Source): Verdict {
    if s.output.role != "manual_import_record" then
      Block("manual-record-routing", "PIPELINE_OUTPUT_ARTIFACT_CONFLICT",
            [Member("expectedRole", Str("manual_import_record")), Member("actualRole", Str(s.output.role))])
    else
      Block("manual-record-routing", "MANUAL_RECORD_DOWNSTREAM_SOURCE_UNAVAILABLE",
            [Member("campaignRunId", Str(s.run))])
  }

  predicate IsImport(s: Source) {
    && s.stage == "discovery" && s.capability == "manual_import" && s.contract == "manual-import-plan@1"
    && s.output.role == "manual_import_plan"
  }

  /** A plan applies exactly for a discovery manual-import plan with its own output role and one
      matching source artifact. */
  lemma {:induction false} AppliesExactly(s: Source)
    ensures Decide(s).Apply? <==> IsImport(s) && |Matching(s.inputs)| == 1
    ensures Decide(s).Apply? ==> Decide(s).key == ADMISSION
  {
  }

  ghost predicate FromImport(s: Source) {
    s.stage == "discovery" && s.capability == "manual_import" && s.contract == "manual-import-plan@1"
  }

  ghost predicate FromRecord(s: Source) {
    s.stage == "discovery" && s.capability == "manual_record" && s.contract == "manual-import-record@1"
  }

  ghost predicate BlockedAs(s: Source, code: string, context: seq<Member>) {
    Decide(s).Block? && Decide(s).code == code && Decide(s).context == context
  }

  /** The transition is named after the owner of the output contract. */
  lemma {:induction false} OwnerDecides(s: Source)
    ensures FromImport(s) <==> Decide(s).key == "manual-import-plan-admission"
    ensures FromRecord(s) <==> Decide(s).key == "manual-record-routing"
    ensures !FromImport(s) && !FromRecord(s) <==> Decide(s).key == "unsupported-transition"
  {
    assert |"manual-import-plan-admission"| == 28 && |"manual-record-routing"| == 21;
    assert |"unsupported-transition"| == 22 && |"manual_import"| == |"manual_record"| == 13;
    assert "manual_import"[7] == 'i' && "manual_record"[7] == 'r';
  }

  /** Each refusal with its code and its context. */
  lemma {:induction false} Refusals(s: Source)
    ensures !FromImport(s) && !FromRecord(s) ==> BlockedAs(s, "PIPELINE_TRANSITION_UNSUPPORTED",
      [Member("stage", Str(s.stage)), Member("capability", Str(s.capability)),
       Member("outputContract", Str(s.contract)), Member("outputRole", Str(s.output.role))])
    ensures FromImport(s) && s.output.role != "manual_import_plan" ==>
      BlockedAs(s, "PIPELINE_OUTPUT_ARTIFACT_CONFLICT",
        [Member("expectedRole", Str("manual_import_plan")), Member("actualRole", Str(s.output.role))])
    ensures FromRecord(s) && s.output.role != "manual_import_record" ==>
      BlockedAs(s, "PIPELINE_OUTPUT_ARTIFACT_CONFLICT",
        [Member("expectedRole", Str("manual_import_record")), Member("actualRole", Str(s.output.role))])
    ensures FromRecord(s) && s.output.role == "manual_import_record" ==>
      BlockedAs(s, "MANUAL_RECORD_DOWNSTREAM_SOURCE_UNAVAILABLE", [Member("campaignRunId", Str(s.run))])
  {
    assert "manual_import"[7] == 'i' && "manual_record"[7] == 'r';
  }

  /** An import plan with its own role is refused for having no source, or more than one. */
  lemma {:induction false} SourceRefusals(s: Source)
    requires FromImport(s) && s.output.role == "manual_import_plan"
    ensures (forall a :: a in s.inputs ==> !IsSourceRole(a.role)) <==> BlockedAs(s, "PIPELINE_INPUT_ARTIFACT_MISSING",
      [Member("requiredRolePattern", Str("manual[_import]_source:<format>:<atomic|partial>"))])
    ensures |Matching(s.inputs)| > 1 <==> BlockedAs(s, "PIPELINE_INPUT_ARTIFACT_CONFLICT",
      [Member("matchingArtifactIds", Arr(Ids(Matching(s.inputs))))])
  {
    var parents := Matching(s.inputs);
    assert |"PIPELINE_INPUT_ARTIFACT_MISSING"| == 31 && |"PIPELINE_INPUT_ARTIFACT_CONFLICT"| == 32;
    if parents != [] {
      assert parents[0] in s.inputs && IsSourceRole(parents[0].role);
    }
    assert Decide(s) == DecideImport(s);
  }

  /** Only the report of several matching sources looks at the order of the inputs. */
  predicate Conflicting(s: Source) {
    IsImport(s) && |Matching(s.inputs)| > 1
  }

  // ------------------------------------------------------------------ payload

  /** A dictionary display with these keys. */
  function Record(names: seq<string>, values: seq<Json>): (r: seq<Member>)
    requires |names| == |values|
    ensures |r| == |names| && forall i :: 0 <= i < |names| ==> r[i] == Member(names[i], values[i])
  {
    if names == [] then [] else [Member(names[0], values[0])] + Record(names[1..], values[1..])
  }

  lemma {:induction false} RecordSame(names: seq<string>, a: seq<Json>, b: seq<Json>)
    requires Distinct(names) && |names| == |a| == |b|
    ensures Same(Obj(Record(names, a)), Obj(Record(names, b))) <==> forall i :: 0 <= i < |a| ==> Same(a[i], b[i])
  {
    var ea, eb := Record(names, a), Record(names, b);
    CanonicalBundles.SameAligned(ea, eb);
    forall i | 0 <= i < |a| ensures ea[i].value == a[i] && eb[i].value == b[i] {
    }
  }

  lemma {:induction false} RecordWellFormed(names: seq<string>, values: seq<Json>)
    requires Distinct(names) && |names| == |values| && forall i :: 0 <= i < |values| ==> WellFormed(values[i])
    ensures WellFormed(Obj(Record(names, values)))
  {
  }

  function ArtifactNames(): seq<string> {
    ["artifactId", "role", "contentDigest", "sizeBytes", "contentType"]
  }

  function BlockerNames(): seq<string> {
    ["owner", "code", "message", "requiredAction", "context"]
  }

  function PlanNames(): seq<string> {
    ["sourceWorkUnitId", "runId", "stageRunId", "stage", "capability", "outputContract", "outputDigest",
     "outputArtifact", "inputArtifacts", "transitionKey", "disposition", "blocker"]
  }

  lemma {:induction false} NamesDistinct()
    ensures Distinct(ArtifactNames()) && Distinct(BlockerNames())
    ensures |ArtifactNames()| == 5 && |BlockerNames()| == 5
  {
    var a := ArtifactNames();
    assert |a[0]| == 10 && |a[1]| == 4 && |a[2]| == 13 && |a[3]| == 9 && |a[4]| == 11;
    var b := BlockerNames();
    assert |b[0]| == 5 && |b[1]| == 4 && |b[2]| == 7 && |b[3]| == 14 && b[4][0] == 'c' && |b[4]| == 7 && b[2][0] == 'm';
  }

  lemma {:induction false} PlanNamesDistinct()
    ensures Distinct(PlanNames()) && |PlanNames()| == 12
  {
    var n := PlanNames();
    assert |n[0]| == 16 && |n[1]| == 5 && |n[2]| == 10 && |n[3]| == 5 && |n[4]| == 10 && |n[5]| == 14;
    assert |n[6]| == 12 && |n[7]| == 14 && |n[8]| == 14 && |n[9]| == 13 && |n[10]| == 11 && |n[11]| == 7;
    assert n[1][0] == 'r' && n[3][0] == 's' && n[2][0] == 's' && n[4][0] == 'c';
    assert n[5][6] == 'C' && n[7][6] == 'A' && n[8][0] == 'i' && n[5][0] == 'o' && n[7][0] == 'o';
  }

  function ArtifactValues(a: Artifact): seq<Json> {
    [Str(a.id), Str(a.role), Str(a.digest), Int(a.size), Str(a.contentType)]
  }

  function ArtifactJson(a: Artifact): Json {
    Obj(Record(ArtifactNames(), ArtifactValues(a)))
  }

  function ArtifactJsons(artifacts: seq<Artifact>): (r: seq<Json>)
    ensures |r| == |artifacts| && forall i :: 0 <= i < |artifacts| ==> r[i] == ArtifactJson(artifacts[i])
  {
    if artifacts == [] then [] else [ArtifactJson(artifacts[0])] + ArtifactJsons(artifacts[1..])
  }

  /** Order of the inputs in the payload: (role, identity). */
  predicate ArtifactLe(a: Artifact, b: Artifact) {
    StrLt(a.role, b.role) || (a.role == b.role && StrLe(a.id, b.id))
  }

  /** `wording` is the message and the required action, by transition key and code. */
  datatype Env = Env(wording: (string, string) -> (string, string), sha: seq<Byte> -> string)

  /** The blocker's context, headed by the work unit and put into key order by `_canonical_mapping`. */
  function Context(s: Source, context: seq<Member>): seq<Member> {
    [Member("sourceWorkUnitId", Str(s.workUnit))] + context
  }

  function BlockerJson(env: Env, s: Source, v: Verdict): Json {
    if v.Apply? then Null
    else Obj(Record(BlockerNames(),
      [Str("PipelineAdvancement"), Str(v.code),
       Str(env.wording(v.key, v.code).0), Str(env.wording(v.key, v.code).1),
       Canon(Obj(Context(s, v.context)))]))
  }

  function PlanValues(env: Env, s: Source, v: Verdict): seq<Json> {
    [Str(s.workUnit), Str(s.run), Str(s.stageRun), Str(s.stage), Str(s.capability), Str(s.contract),
     Str(s.outputDigest), ArtifactJson(s.output), Arr(ArtifactJsons(Sort(s.inputs, ArtifactLe))), Str(v.key),
     Str(if v.Apply? then "apply" else "block"), BlockerJson(env, s, v)]
  }

  function PayloadFor(env: Env, s: Source, v: Verdict): Json {
    Obj(Record(PlanNames(), PlanValues(env, s, v)))
  }

  function Payload(env: Env, s: Source): Json {
    PayloadFor(env, s, Decide(s))
  }

  function PlanDigest(env: Env, s: Source): string {
    CanonicalBundles.Sha256Identity(CanonicalBytes(Payload(env, s)), env.sha)
  }

  datatype Plan = Plan(workUnit: string, key: string, applies: bool, digest: string, blocker: Json)

  /** The plan; its constructor refuses a blocker on an applicable plan and its absence on a blocked one. */
  function PlanOf(env: Env, s: Source): (p: Plan)
    ensures p.applies <==> p.blocker == Null
    ensures p.applies <==> IsImport(s) && |Matching(s.inputs)| == 1
    ensures p.workUnit == s.workUnit && p.key == Decide(s).key
    ensures p.digest == "sha256:" + env.sha(CanonicalBytes(Payload(env, s)))
    ensures p.blocker == BlockerJson(env, s, Decide(s))
  {
    AppliesExactly(s);
    var v := Decide(s);
    Plan(s.workUnit, v.key, v.Apply?, PlanDigest(env, s), BlockerJson(env, s, v))
  }

  // ------------------------------------------------------------- permutations

  lemma {:induction false} ArtifactLeOrder()
    ensures TotalPreorder(ArtifactLe)
  {
    StrLeTotalOrder();
    forall x, y ensures ArtifactLe(x, y) || ArtifactLe(y, x) {
      assert StrLe(x.role, y.role) || StrLe(y.role, x.role);
      assert StrLe(x.id, y.id) || StrLe(y.id, x.id);
    }
    forall x, y, z | ArtifactLe(x, y) && ArtifactLe(y, z) ensures ArtifactLe(x, z) {
      ArtifactLeTransitive(x, y, z);
    }
  }

  lemma {:induction false} ArtifactLeTransitive(x: Artifact, y: Artifact, z: Artifact)
    requires ArtifactLe(x, y) && ArtifactLe(y, z)
    ensures ArtifactLe(x, z)
  {
    if StrLt(x.role, y.role) && StrLt(y.role, z.role) {
      StrLtTransitive(x.role, y.role, z.role);
    } else if StrLt(x.id, y.id) && StrLt(y.id, z.id) {
      StrLtTransitive(x.id, y.id, z.id);
    }
  }

  lemma {:induction false} RoleTies(s: Source)
    requires Valid(s)
    ensures TiesEqual(s.inputs, ArtifactLe)
  {
    forall x, y | x in s.inputs && y in s.inputs && ArtifactLe(x, y) && ArtifactLe(y, x) ensures x == y {
      var i :| 0 <= i < |s.inputs| && s.inputs[i] == x;
      var j :| 0 <= j < |s.inputs| && s.inputs[j] == y;
      if StrLt(x.role, y.role) && StrLt(y.role, x.role) {
        StrLtTransitive(x.role, y.role, x.role);
      }
      StrLtIrreflexive(x.role);
      assert x.role == y.role;
    }
  }

  lemma {:induction false} MatchingCount(a: seq<Artifact>, x: Artifact)
    ensures multiset(Matching(a))[x] == if IsSourceRole(x.role) then multiset(a)[x] else 0
  {
    if a != [] {
      MatchingCount(a[1..], x);
      assert a == [a[0]] + a[1..];
    }
  }

  lemma {:induction false} MatchingPermutes(a: seq<Artifact>, b: seq<Artifact>)
    requires multiset(a) == multiset(b)
    ensures multiset(Matching(a)) == multiset(Matching(b)) && |Matching(a)| == |Matching(b)|
  {
    forall x ensures multiset(Matching(a))[x] == multiset(Matching(b))[x] {
      MatchingCount(a, x);
      MatchingCount(b, x);
    }
    SameElements(Matching(a), Matching(b));
  }

  /** The same work with its inputs listed in another order. */
  ghost predicate Reordered(s: Source, t: Source) {
    t == s.(inputs := t.inputs) && multiset(s.inputs) == multiset(t.inputs)
  }

  lemma {:induction false} VerdictUnderPermutation(s: Source, t: Source)
    requires Reordered(s, t)
    ensures !Conflicting(s) ==> Decide(s) == Decide(t)
    ensures Conflicting(s) <==> Conflicting(t)
    ensures Conflicting(s) ==> Decide(s) == ConflictVerdict(Ids(Matching(s.inputs)))
    ensures Conflicting(t) ==> Decide(t) == ConflictVerdict(Ids(Matching(t.inputs)))
  {
    MatchingPermutes(s.inputs, t.inputs);
    if IsImport(s) {
      assert Decide(s) == DecideImport(s) && Decide(t) == DecideImport(t);
    }
  }

  function ConflictVerdict(ids: seq<Json>): Verdict {
    Block(ADMISSION, CONFLICT, [Member("matchingArtifactIds", Arr(ids))])
  }

  // ------------------------------------------- what the digest depends on

  lemma {:induction false} ArtifactWellFormed(a: Artifact)
    ensures WellFormed(ArtifactJson(a))
  {
    NamesDistinct();
    RecordWellFormed(ArtifactNames(), ArtifactValues(a));
  }

  lemma {:induction false} ArtifactsWellFormed(artifacts: seq<Artifact>)
    ensures WellFormed(Arr(ArtifactJsons(artifacts)))
  {
    forall i | 0 <= i < |artifacts| ensures WellFormed(ArtifactJsons(artifacts)[i]) {
      ArtifactWellFormed(artifacts[i]);
    }
  }

  lemma {:induction false} ContextWellFormed(s: Source, ids: seq<Json>)
    requires forall i :: 0 <= i < |ids| ==> ids[i].Str?
    ensures WellFormed(Obj(Context(s, ConflictVerdict(ids).context)))
  {
    var es := Context(s, ConflictVerdict(ids).context);
    assert |es[0].key| == 16 && |es[1].key| == 19;
    assert forall i :: 0 <= i < |ids| ==> WellFormed(ids[i]);
    assert es[1].value == Arr(ids) && es[0].value == Str(s.workUnit);
  }

  /** In a blocker only the context depends on the listed identities. */
  lemma {:induction false} ConflictBlockers(env: Env, s: Source, t: Source, a: seq<Json>, b: seq<Json>)
    requires Reordered(s, t)
    requires (forall i :: 0 <= i < |a| ==> a[i].Str?) && (forall i :: 0 <= i < |b| ==> b[i].Str?)
    requires Same(BlockerJson(env, s, ConflictVerdict(a)), BlockerJson(env, t, ConflictVerdict(b)))
    ensures a == b
  {
    var ca, cb := Obj(Context(s, ConflictVerdict(a).context)), Obj(Context(t, ConflictVerdict(b).context));
    BlockerContexts(env, s, t, ConflictVerdict(a), ConflictVerdict(b));
    ContextWellFormed(s, a);
    ContextWellFormed(t, b);
    SameThroughCanon(ca, cb);
    ContextIds(s, t, a, b);
  }

  lemma {:induction false} BlockerContexts(env: Env, s: Source, t: Source, v: Verdict, w: Verdict)
    requires v.Block? && w.Block? && Same(BlockerJson(env, s, v), BlockerJson(env, t, w))
    ensures Same(Canon(Obj(Context(s, v.context))), Canon(Obj(Context(t, w.context))))
  {
    NamesDistinct();
    var a := [Str("PipelineAdvancement"), Str(v.code),
              Str(env.wording(v.key, v.code).0), Str(env.wording(v.key, v.code).1),
              Canon(Obj(Context(s, v.context)))];
    var b := [Str("PipelineAdvancement"), Str(w.code),
              Str(env.wording(w.key, w.code).0), Str(env.wording(w.key, w.code).1),
              Canon(Obj(Context(t, w.context)))];
    RecordSame(BlockerNames(), a, b);
    assert Same(a[4], b[4]);
  }

  lemma {:induction false} SameThroughCanon(a: Json, b: Json)
    requires WellFormed(a) && WellFormed(b) && Same(Canon(a), Canon(b))
    ensures Same(a, b)
  {
    CanonWellFormed(a);
    CanonWellFormed(b);
    CanonicalBundles.SameIsCanon(Canon(a), Canon(b));
    CanonIdempotent(a);
    CanonIdempotent(b);
    CanonicalBundles.SameIsCanon(a, b);
  }

  lemma {:induction false} ContextIds(s: Source, t: Source, a: seq<Json>, b: seq<Json>)
    requires (forall i :: 0 <= i < |a| ==> a[i].Str?) && (forall i :: 0 <= i < |b| ==> b[i].Str?)
    requires Same(Obj(Context(s, ConflictVerdict(a).context)), Obj(Context(t, ConflictVerdict(b).context)))
    ensures a == b
  {
    ContextFields(s, a);
    ContextFields(t, b);
    SecondSame(Context(s, ConflictVerdict(a).context), Context(t, ConflictVerdict(b).context));
    SameStrings(a, b);
  }

  lemma {:induction false} ContextFields(s: Source, ids: seq<Json>)
    ensures var es := Context(s, ConflictVerdict(ids).context);
      |es| == 2 && UniqueKeys(es) && es[0].key == "sourceWorkUnitId" && es[1] == Member("matchingArtifactIds", Arr(ids))
  {
    var es := Context(s, ConflictVerdict(ids).context);
    assert |es[0].key| == 16 && |es[1].key| == 19;
  }

  lemma {:induction false} SecondSame(ea: seq<Member>, eb: seq<Member>)
    requires |ea| == |eb| == 2 && UniqueKeys(eb) && ea[0].key == eb[0].key && ea[1].key == eb[1].key
    requires Same(Obj(ea), Obj(eb))
    ensures Same(ea[1].value, eb[1].value)
  {
    CanonicalBundles.SameAt(ea, eb, 1);
  }

  lemma {:induction false} SameStrings(a: seq<Json>, b: seq<Json>)
    requires (forall i :: 0 <= i < |a| ==> a[i].Str?) && (forall i :: 0 <= i < |b| ==> b[i].Str?)
    requires Same(Arr(a), Arr(b))
    ensures a == b
  {
    assert |a| == |b|;
    forall i | 0 <= i < |a| ensures a[i] == b[i] {
      assert Same(a[i], b[i]);
    }
  }

  lemma {:induction false} PlanWellFormed(env: Env, s: Source, v: Verdict)
    requires WellFormed(BlockerJson(env, s, v))
    ensures WellFormed(PayloadFor(env, s, v))
  {
    ArtifactWellFormed(s.output);
    ArtifactsWellFormed(Sort(s.inputs, ArtifactLe));
    PlanNamesDistinct();
    var values := PlanValues(env, s, v);
    assert values[11] == BlockerJson(env, s, v);
    assert forall i :: 0 <= i < 12 ==> WellFormed(values[i]);
    RecordWellFormed(PlanNames(), values);
  }

  lemma {:induction false} PayloadWellFormed(env: Env, s: Source)
    ensures WellFormed(Payload(env, s))
  {
    var v := Decide(s);
    if v.Block? {
      if Conflicting(s) {
        VerdictUnderPermutation(s, s);
        ContextWellFormed(s, Ids(Matching(s.inputs)));
      } else {
        OtherContexts(s);
        PlainContextWellFormed(s, v.context);
      }
      BlockerWellFormed(env, s, v);
    }
    PlanWellFormed(env, s, v);
  }

  /** Texts under distinct names of another length than the first name's sixteen characters. */
  predicate PlainContext(context: seq<Member>) {
    && UniqueKeys(context)
    && forall i :: 0 <= i < |context| ==> context[i].value.Str? && |context[i].key| != 16
  }

  lemma {:induction false} PlainContextWellFormed(s: Source, context: seq<Member>)
    requires PlainContext(context)
    ensures WellFormed(Obj(Context(s, context)))
  {
    var es := Context(s, context);
    assert |es[0].key| == 16;
    forall i | 1 <= i < |es| ensures es[i] == context[i - 1] {
    }
  }

  lemma {:induction false} OtherContexts(s: Source)
    requires Decide(s).Block? && !Conflicting(s)
    ensures PlainContext(Decide(s).context)
  {
    if FromImport(s) && s.output.role == "manual_import_plan" {
      assert |"requiredRolePattern"| == 19;
    } else if FromImport(s) || (FromRecord(s) && s.output.role != "manual_import_record") {
      assert |"expectedRole"| == 12 && |"actualRole"| == 10;
    } else if FromRecord(s) {
      assert |"campaignRunId"| == 13;
    } else {
      FourNames(s);
    }
  }

  lemma {:induction false} FourNames(s: Source)
    requires !FromImport(s) && !FromRecord(s)
    ensures PlainContext(Decide(s).context)
  {
    Refusals(s);
    var context := Decide(s).context;
    assert |context[0].key| == 5 && |context[1].key| == 10 && |context[2].key| == 14 && |context[3].key| == 10;
    assert context[1].key[0] == 'c' && context[3].key[0] == 'o';
  }

  lemma {:induction false} BlockerWellFormed(env: Env, s: Source, v: Verdict)
    requires v.Block? && WellFormed(Obj(Context(s, v.context)))
    ensures WellFormed(BlockerJson(env, s, v))
  {
    CanonWellFormed(Obj(Context(s, v.context)));
    NamesDistinct();
    RecordWellFormed(BlockerNames(),
      [Str("PipelineAdvancement"), Str(v.code),
       Str(env.wording(v.key, v.code).0), Str(env.wording(v.key, v.code).1),
       Canon(Obj(Context(s, v.context)))]);
  }

  lemma {:induction false} PayloadBlockers(env: Env, s: Source, v: Verdict, t: Source, w: Verdict)
    requires Same(PayloadFor(env, s, v), PayloadFor(env, t, w))
    ensures Same(BlockerJson(env, s, v), BlockerJson(env, t, w))
  {
    PlanNamesDistinct();
    RecordSameAt(PlanNames(), PlanValues(env, s, v), PlanValues(env, t, w), 11);
  }

  lemma {:induction false} RecordSameAt(names: seq<string>, a: seq<Json>, b: seq<Json>, i: nat)
    requires Distinct(names) && |names| == |a| == |b| && i < |a|
    requires Same(Obj(Record(names, a)), Obj(Record(names, b)))
    ensures Same(a[i], b[i])
  {
    RecordSame(names, a, b);
  }

  lemma {:induction false} SameInputs(s: Source, t: Source)
    requires Valid(s) && Reordered(s, t)
    ensures Sort(s.inputs, ArtifactLe) == Sort(t.inputs, ArtifactLe)
  {
    ArtifactLeOrder();
    RoleTies(s);
    SortPermutation(s.inputs, t.inputs, ArtifactLe);
  }

  lemma {:induction false} SamePayload(env: Env, s: Source, t: Source)
    requires Valid(s) && Reordered(s, t) && Decide(s) == Decide(t)
    ensures Payload(env, s) == Payload(env, t)
  {
    SameInputs(s, t);
    assert BlockerJson(env, s, Decide(s)) == BlockerJson(env, t, Decide(t));
  }

  /** Listing the inputs in another order keeps the digest exactly when at most one of them matches
      a source role, or the matching ones keep their order. */
  lemma {:induction false} DigestUnderPermutation(env: Env, s: Source, t: Source)
    requires Valid(s) && Reordered(s, t) && CampaignBootstrap.Injective(env.sha)
    ensures PlanDigest(env, s) == PlanDigest(env, t) <==>
      !Conflicting(s) || Ids(Matching(s.inputs)) == Ids(Matching(t.inputs))
  {
    VerdictUnderPermutation(s, t);
    if !Conflicting(s) || Ids(Matching(s.inputs)) == Ids(Matching(t.inputs)) {
      SamePayload(env, s, t);
    } else {
      DigestsDiffer(env, s, t);
    }
  }

  lemma {:induction false} DigestsDiffer(env: Env, s: Source, t: Source)
    requires Reordered(s, t) && Conflicting(s) && CampaignBootstrap.Injective(env.sha)
    requires Ids(Matching(s.inputs)) != Ids(Matching(t.inputs))
    ensures PlanDigest(env, s) != PlanDigest(env, t)
  {
    PayloadsDiffer(env, s, t);
    PayloadWellFormed(env, s);
    VerdictUnderPermutation(s, t);
    PayloadWellFormed(env, t);
    BytesDiffer(Payload(env, s), Payload(env, t), env.sha);
  }

  // ---------------------------------------- the digest identifies the work

  lemma {:induction false} SameArtifact(a: Artifact, b: Artifact)
    requires Same(ArtifactJson(a), ArtifactJson(b))
    ensures a == b
  {
    NamesDistinct();
    RecordSame(ArtifactNames(), ArtifactValues(a), ArtifactValues(b));
    SameArtifactValues(ArtifactValues(a), ArtifactValues(b), a, b);
  }

  lemma {:induction false} SameArtifactValues(x: seq<Json>, y: seq<Json>, a: Artifact, b: Artifact)
    requires x == ArtifactValues(a) && y == ArtifactValues(b) && forall i :: 0 <= i < 5 ==> Same(x[i], y[i])
    ensures a == b
  {
    SameText(x[0], y[0], a.id, b.id);
    SameText(x[1], y[1], a.role, b.role);
    SameText(x[2], y[2], a.digest, b.digest);
    assert Same(x[3], y[3]) && x[3] == Int(a.size) && y[3] == Int(b.size);
    SameText(x[4], y[4], a.contentType, b.contentType);
  }

  lemma {:induction false} SameArtifacts(a: seq<Artifact>, b: seq<Artifact>)
    requires Same(Arr(ArtifactJsons(a)), Arr(ArtifactJsons(b)))
    ensures a == b
  {
    assert |a| == |b|;
    forall i | 0 <= i < |a| ensures a[i] == b[i] {
      assert Same(ArtifactJsons(a)[i], ArtifactJsons(b)[i]);
      SameArtifact(a[i], b[i]);
    }
  }

  lemma {:induction false} SameText(a: Json, b: Json, x: string, y: string)
    requires Same(a, b) && a == Str(x) && b == Str(y)
    ensures x == y
  {
  }

  /** `a` and `b` are the values of two payloads. */
  lemma {:induction false} SameWork(a: seq<Json>, b: seq<Json>, s: Source, t: Source)
    requires |a| == |b| == 12 && forall i :: 0 <= i < 12 ==> Same(a[i], b[i])
    requires HeadOf(a, s) && HeadOf(b, t)
    ensures Reordered(s, t)
  {
    SameText(a[0], b[0], s.workUnit, t.workUnit);
    SameText(a[1], b[1], s.run, t.run);
    SameText(a[2], b[2], s.stageRun, t.stageRun);
    SameText(a[3], b[3], s.stage, t.stage);
    SameText(a[4], b[4], s.capability, t.capability);
    SameText(a[5], b[5], s.contract, t.contract);
    SameText(a[6], b[6], s.outputDigest, t.outputDigest);
    assert Same(a[7], b[7]) && Same(a[8], b[8]);
    SameArtifact(s.output, t.output);
    var x, y := Sort(s.inputs, ArtifactLe), Sort(t.inputs, ArtifactLe);
    SameArtifacts(x, y);
    assert multiset(s.inputs) == multiset(x) && multiset(t.inputs) == multiset(y);
  }

  /** The first nine values of a payload. */
  ghost predicate HeadOf(values: seq<Json>, s: Source) {
    && |values| == 12
    && values[0] == Str(s.workUnit) && values[1] == Str(s.run) && values[2] == Str(s.stageRun)
    && values[3] == Str(s.stage) && values[4] == Str(s.capability) && values[5] == Str(s.contract)
    && values[6] == Str(s.outputDigest) && values[7] == ArtifactJson(s.output)
    && values[8] == Arr(ArtifactJsons(Sort(s.inputs, ArtifactLe)))
  }

  lemma {:induction false} PlanHead(env: Env, s: Source, v: Verdict)
    ensures HeadOf(PlanValues(env, s, v), s)
  {
  }

  lemma {:induction false} SameAll(names: seq<string>, a: seq<Json>, b: seq<Json>, s: Source, t: Source)
    requires Distinct(names) && |names| == |a| == |b| == 12 && HeadOf(a, s) && HeadOf(b, t)
    requires Same(Obj(Record(names, a)), Obj(Record(names, b)))
    ensures Reordered(s, t)
  {
    RecordSame(names, a, b);
    SameWork(a, b, s, t);
  }

  lemma {:induction false} SamePayloadIsReordered(env: Env, s: Source, t: Source, v: Verdict, w: Verdict)
    requires Same(PayloadFor(env, s, v), PayloadFor(env, t, w))
    ensures Reordered(s, t)
  {
    PlanNamesDistinct();
    PlanHead(env, s, v);
    PlanHead(env, t, w);
    SameAll(PlanNames(), PlanValues(env, s, v), PlanValues(env, t, w), s, t);
  }

  /** The digest identifies the work: two works share it exactly when they agree on everything but the
      order of their inputs, and on that order too where the inputs are in conflict. */
  lemma {:induction false} DigestIdentifies(env: Env, s: Source, t: Source)
    requires Valid(s) && CampaignBootstrap.Injective(env.sha)
    ensures PlanDigest(env, s) == PlanDigest(env, t) <==>
      && s.workUnit == t.workUnit && s.run == t.run && s.stageRun == t.stageRun && s.stage == t.stage
      && s.capability == t.capability && s.contract == t.contract && s.outputDigest == t.outputDigest
      && s.output == t.output && multiset(s.inputs) == multiset(t.inputs)
      && (Conflicting(s) ==> Ids(Matching(s.inputs)) == Ids(Matching(t.inputs)))
  {
    if Reordered(s, t) {
      DigestUnderPermutation(env, s, t);
    } else {
      if Same(Payload(env, s), Payload(env, t)) {
        SamePayloadIsReordered(env, s, t, Decide(s), Decide(t));
        assert false;
      }
      PayloadWellFormed(env, s);
      PayloadWellFormed(env, t);
      BytesDiffer(Payload(env, s), Payload(env, t), env.sha);
    }
  }

  // ------------------------------------------------ what a plan says, by name

  lemma {:induction false} RecordBinds(names: seq<string>, values: seq<Json>, i: nat)
    requires Distinct(names) && |names| == |values| && i < |names|
    ensures Binds(Obj(Record(names, values)), names[i], values[i])
  {
    assert Record(names, values)[i] == Member(names[i], values[i]);
  }

  lemma {:induction false} PlanNamesAre()
    ensures var names := PlanNames();
      && |names| == 12
      && names[0] == "sourceWorkUnitId" && names[1] == "runId" && names[2] == "stageRunId" && names[3] == "stage"
      && names[4] == "capability" && names[5] == "outputContract" && names[6] == "outputDigest"
      && names[7] == "outputArtifact" && names[8] == "inputArtifacts" && names[9] == "transitionKey"
      && names[10] == "disposition" && names[11] == "blocker"
  {
  }

  /** The work and its artifacts in the hashed document, each under its name. */
  lemma {:induction false} PayloadBinds(env: Env, s: Source)
    ensures var p := Payload(env, s);
      && Binds(p, "sourceWorkUnitId", Str(s.workUnit)) && Binds(p, "runId", Str(s.run))
      && Binds(p, "stageRunId", Str(s.stageRun)) && Binds(p, "stage", Str(s.stage))
      && Binds(p, "capability", Str(s.capability)) && Binds(p, "outputContract", Str(s.contract))
      && Binds(p, "outputDigest", Str(s.outputDigest)) && Binds(p, "outputArtifact", ArtifactJson(s.output))
      && Binds(p, "inputArtifacts", Arr(ArtifactJsons(Sort(s.inputs, ArtifactLe))))
  {
    var names, values := PlanNames(), PlanValues(env, s, Decide(s));
    PlanNamesDistinct();
    PlanHead(env, s, Decide(s));
    AllBound(names, values);
    PlanNamesAre();
  }

  /** The decision in the hashed document. */
  lemma {:induction false} PayloadBindsDecision(env: Env, s: Source)
    ensures var p := Payload(env, s);
      && Binds(p, "transitionKey", Str(Decide(s).key))
      && Binds(p, "disposition", Str(if Decide(s).Apply? then "apply" else "block"))
      && Binds(p, "blocker", BlockerJson(env, s, Decide(s)))
  {
    PlanNamesDistinct();
    AllBound(PlanNames(), PlanValues(env, s, Decide(s)));
    PlanNamesAre();
  }

  lemma {:induction false} AllBound(names: seq<string>, values: seq<Json>)
    requires Distinct(names) && |names| == |values|
    ensures forall i :: 0 <= i < |names| ==> Binds(Obj(Record(names, values)), names[i], values[i])
  {
    forall i | 0 <= i < |names| ensures Binds(Obj(Record(names, values)), names[i], values[i]) {
      RecordBinds(names, values, i);
    }
  }

  lemma {:induction false} ArtifactBinds(a: Artifact)
    ensures var v := ArtifactJson(a);
      && Binds(v, "artifactId", Str(a.id)) && Binds(v, "role", Str(a.role)) && Binds(v, "contentDigest", Str(a.digest))
      && Binds(v, "sizeBytes", Int(a.size)) && Binds(v, "contentType", Str(a.contentType))
  {
    var names, values := ArtifactNames(), ArtifactValues(a);
    NamesDistinct();
    forall i: nat | i < 5 ensures Binds(ArtifactJson(a), names[i], values[i]) {
      RecordBinds(names, values, i);
    }
    assert names[0] == "artifactId" && names[1] == "role" && names[2] == "contentDigest";
    assert names[3] == "sizeBytes" && names[4] == "contentType";
  }

  lemma {:induction false} BlockerBinds(env: Env, s: Source, v: Verdict)
    requires v.Block?
    ensures var b := BlockerJson(env, s, v);
      && Binds(b, "owner", Str("PipelineAdvancement")) && Binds(b, "code", Str(v.code))
      && Binds(b, "message", Str(env.wording(v.key, v.code).0))
      && Binds(b, "requiredAction", Str(env.wording(v.key, v.code).1))
      && Binds(b, "context", Canon(Obj([Member("sourceWorkUnitId", Str(s.workUnit))] + v.context)))
  {
    var names, b := BlockerNames(), BlockerJson(env, s, v);
    var values := [Str("PipelineAdvancement"), Str(v.code),
                   Str(env.wording(v.key, v.code).0), Str(env.wording(v.key, v.code).1),
                   Canon(Obj(Context(s, v.context)))];
    NamesDistinct();
    forall i: nat | i < 5 ensures Binds(b, names[i], values[i]) {
      RecordBinds(names, values, i);
    }
    assert names[0] == "owner" && names[1] == "code" && names[2] == "message";
    assert names[3] == "requiredAction" && names[4] == "context";
  }

  lemma {:induction false} BytesDiffer(x: Json, y: Json, sha: seq<Byte> -> string)
    requires WellFormed(x) && WellFormed(y) && !Same(x, y) && CampaignBootstrap.Injective(sha)
    ensures CanonicalBundles.Sha256Identity(CanonicalBytes(x), sha)
         != CanonicalBundles.Sha256Identity(CanonicalBytes(y), sha)
  {
    CanonicalBytesIdentify(x, y);
    CampaignBootstrap.KeysDifferBySha(CanonicalBytes(x), CanonicalBytes(y), sha);
  }

  lemma {:induction false} PayloadsDiffer(env: Env, s: Source, t: Source)
    requires Reordered(s, t) && Conflicting(s) && Ids(Matching(s.inputs)) != Ids(Matching(t.inputs))
    ensures !Same(Payload(env, s), Payload(env, t))
  {
    VerdictUnderPermutation(s, t);
    ConflictPayloadsDiffer(env, s, t, Ids(Matching(s.inputs)), Ids(Matching(t.inputs)), Decide(s), Decide(t));
  }

  lemma {:induction false} ConflictPayloadsDiffer(
    env: Env, s: Source, t: Source, a: seq<Json>, b: seq<Json>, v: Verdict, w: Verdict)
    requires Reordered(s, t) && a != b && v == ConflictVerdict(a) && w == ConflictVerdict(b)
    requires (forall i :: 0 <= i < |a| ==> a[i].Str?) && (forall i :: 0 <= i < |b| ==> b[i].Str?)
    ensures !Same(PayloadFor(env, s, v), PayloadFor(env, t, w))
  {
    if Same(PayloadFor(env, s, v), PayloadFor(env, t, w)) {
      PayloadBlockers(env, s, v, t, w);
      ConflictBlockers(env, s, t, a, b);
    }
  }

  /** The promise on every work with at most one matching source, whatever its other inputs. */
  lemma {:induction false} PlanUnderPermutation(env: Env, s: Source, t: Source)
    requires Valid(s) && Reordered(s, t) && |Matching(s.inputs)| <= 1
    ensures PlanOf(env, s) == PlanOf(env, t)
  {
    VerdictUnderPermutation(s, t);
    SamePayload(env, s, t);
  }

  /** Two sources in either order: the digests differ. */
  lemma {:induction false} SwappedSources(env: Env, s: Source, a: Artifact, b: Artifact)
    requires IsImport(s) && s.inputs == [a, b] && a.id != b.id && CampaignBootstrap.Injective(env.sha)
    requires IsSourceRole(a.role) && IsSourceRole(b.role)
    ensures PlanDigest(env, s) != PlanDigest(env, s.(inputs := [b, a]))
  {
    var t := s.(inputs := [b, a]);
    MatchingPair(a, b);
    MatchingPair(b, a);
    assert Ids([a, b])[0] == Str(a.id) && Ids([b, a])[0] == Str(b.id);
    DigestsDiffer(env, s, t);
  }

  lemma {:induction false} MatchingPair(a: Artifact, b: Artifact)
    requires IsSourceRole(a.role) && IsSourceRole(b.role)
    ensures Matching([a, b]) == [a, b]
  {
    assert [a, b][1..] == [b] && [b][1..] == [];
    assert Matching([b]) == [b];
  }

  // ------------------------------------------------- from run start to here

  /** The source artifact a campaign run binds to its manual import work has a source role: with no
      other source bound, the plan that work produces is applied. */
  lemma {:induction false} BootstrappedWorkApplies(
    env: CampaignBootstrap.Env, b: CampaignCompile.Binding, policy: CampaignCompile.Policy,
                                                   content: seq<Byte>, s: Source, a: Artifact)
    requires CampaignBootstrap.ManualWork(env, b, policy, content).Ok?
    requires IsImport(s) && s.inputs == [a]
    requires a.role == CampaignBootstrap.ManualWork(env, b, policy, content).value.role
    ensures Decide(s) == Apply(ADMISSION)
  {
    var f, m := b.seed.format, CampaignBootstrap.Mode(policy.access.partialAllowed);
    CampaignBootstrap.FormatKnown(f);
    RoleMatches(f, m, a.role);
    assert [a][1..] == [];
    assert Matching([a]) == [a];
    AppliesExactly(s);
  }

  lemma {:induction false} RoleMatches(f: string, m: string, role: string)
    requires f in {"csv", "json", "jsonl"} && m in {"atomic", "partial"} && role == "manual_source:" + f + ":" + m
    ensures IsSourceRole(role)
  {
    var p := "manual_source";
    assert p + ":" == "manual_source:";
    assert role == p + ":" + f + ":" + m;
  }
}
