/**
  Compiling a campaign bundle: reading manual seeds
  (packages/collection_application/src/collection_application/manual_seed.py) and checking
  references between documents (campaign_validation.py).

  The parsed documents, the raw files and the import core that reads one seed file are inputs.
 */
module CampaignCompile {
  import opened Text
  import opened Utf8

  datatype Capability = BrowserFetch | HttpFetch | ManualImport | OpenstreetmapQuery

  datatype Seed = File(path: string, format: string) | NotApplicable

  datatype Binding = Binding(
    key: string, sourceKey: string, policyKey: string, capability: Capability, seed: Seed, extractionProfile: string)

  datatype Access =
    | Manual(formats: seq<string>, maxFileBytes: nat, partialAllowed: bool)
    | Network(maxConcurrency: nat, maxRequestsPerSecond: real)

  datatype LegalStatus = Approved | Blocked | Expired | ReferenceOnly | ResearchOnly

  datatype Policy = Policy(
    key: string, sourceKey: string, legalStatus: LegalStatus, access: Access, allowedFields: seq<string>,
    retryBudget: nat)

  datatype Category = Category(key: string, kinds: seq<string>)

  datatype Campaign = Campaign(
    key: string, geographyRevision: string, entityKinds: seq<string>, categories: seq<string>,
    enabled: seq<string>, ready: bool)

  datatype Documents = Documents(
    campaign: Campaign, entityKinds: seq<string>, taxonomy: seq<Category>, bindings: seq<Binding>,
    attributes: seq<string>, policies: map<string, Policy>, geography: Option<string>)

  datatype Row = Row(number: nat, kind: string)

  type Files = map<string, seq<Byte>>
  type SeedRows = map<string, seq<Row>>

  /** `build_manual_import_plan` in atomic mode: the records, or nothing for a rejected file. */
  type SeedReader = (seq<Byte>, string, nat) -> Option<seq<Row>>

  predicate SeedFormat(f: string) {
    f == "csv" || f == "json" || f == "jsonl"
  }

  /** What the document contracts guarantee: unique keys, manual imports read a file, seed formats
      come from the fixed list, request rates are positive. */
  ghost predicate ContractsHold(docs: Documents) {
    && (forall i, j :: 0 <= i < j < |docs.bindings| ==> docs.bindings[i].key != docs.bindings[j].key)
    && Distinct(docs.campaign.enabled)
    && (forall b :: b in docs.bindings ==>
          (b.capability == ManualImport ==> b.seed.File?) && (b.seed.File? ==> SeedFormat(b.seed.format)))
    && (forall k :: k in docs.policies && docs.policies[k].access.Network? ==>
          docs.policies[k].access.maxRequestsPerSecond > 0.0)
  }

  // ------------------------------------------------------------ manual seeds

  datatype SeedError =
    | BindingInvalid(binding: string)
    | PolicyMissing(binding: string)
    | PolicyInvalid(binding: string)
    | FormatForbidden(binding: string)
    | SeedMissing(binding: string)
    | SeedRejected(binding: string)

  /** The rows of one manual binding's seed file. */
  function ReadSeed(
    b: Binding, policies: map<string, Policy>, files: Files, read: SeedReader): Result<seq<Row>, SeedError> {
    if !b.seed.File? then Err(BindingInvalid(b.key))
    else if b.policyKey !in policies then Err(PolicyMissing(b.key))
    else if !policies[b.policyKey].access.Manual? then Err(PolicyInvalid(b.key))
    else if b.seed.format !in policies[b.policyKey].access.formats then Err(FormatForbidden(b.key))
    else if b.seed.path !in files then Err(SeedMissing(b.key))
    else
      match read(files[b.seed.path], b.seed.format, policies[b.policyKey].access.maxFileBytes)
      case None => Err(SeedRejected(b.key))
      case Some(rows) => Ok(rows)
  }

  /** The rows a binding's seed file holds, when all it refers to is there. */
  ghost predicate SeedIs(
    b: Binding, policies: map<string, Policy>, files: Files, read: SeedReader, rows: seq<Row>)
  {
    && b.seed.File? && b.seed.path in files
    && b.policyKey in policies && policies[b.policyKey].access.Manual?
    && b.seed.format in policies[b.policyKey].access.formats
    && read(files[b.seed.path], b.seed.format, policies[b.policyKey].access.maxFileBytes) == Some(rows)
  }

  lemma {:induction false} SeedVerdict(b: Binding, policies: map<string, Policy>, files: Files, read: SeedReader)
    ensures var r := ReadSeed(b, policies, files, read);
      && (forall rows :: r == Ok(rows) <==> SeedIs(b, policies, files, read, rows))
      && (r.Err? ==>
            if b.seed.NotApplicable? then r.error == BindingInvalid(b.key)
            else if b.policyKey !in policies then r.error == PolicyMissing(b.key)
            else if policies[b.policyKey].access.Network? then r.error == PolicyInvalid(b.key)
            else if b.seed.format !in policies[b.policyKey].access.formats then r.error == FormatForbidden(b.key)
            else if b.seed.path !in files then r.error == SeedMissing(b.key)
            else r.error == SeedRejected(b.key))
  {
  }

  /** Every manual binding, enabled or not, can be read. */
  ghost predicate SeedsReadable(bindings: seq<Binding>, policies: map<string, Policy>, files: Files, read: SeedReader) {
    forall i :: 0 <= i < |bindings| && bindings[i].capability == ManualImport ==>
      ReadSeed(bindings[i], policies, files, read).Ok?
  }

  /** For each seed path, the rows of the last manual binding that reads it. */
  function Seeds(bindings: seq<Binding>, policies: map<string, Policy>, files: Files, read: SeedReader): SeedRows {
    if bindings == [] then map[]
    else
      var seeds := Seeds(bindings[..|bindings| - 1], policies, files, read);
      var b := bindings[|bindings| - 1];
      if b.capability != ManualImport then seeds
      else
        match ReadSeed(b, policies, files, read)
        case Err(_) => seeds
        case Ok(rows) => seeds[b.seed.path := rows]
  }

  /** The paths with rows are those that some manual binding reads. */
  lemma {:induction false} SeedPaths(
    bindings: seq<Binding>, policies: map<string, Policy>, files: Files, read: SeedReader, path: string)
    requires SeedsReadable(bindings, policies, files, read)
    ensures path in Seeds(bindings, policies, files, read) <==> SomeReads(bindings, path)
  {
    if bindings != [] {
      var init, last := bindings[..|bindings| - 1], bindings[|bindings| - 1];
      assert forall i :: 0 <= i < |init| ==> bindings[i] == init[i];
      SeedPaths(init, policies, files, read, path);
      SeedVerdict(last, policies, files, read);
      SomeReadsLast(bindings, path);
    }
  }

  ghost predicate SomeReads(bindings: seq<Binding>, path: string) {
    exists i :: 0 <= i < |bindings| && ReadsFrom(bindings[i], path)
  }

  lemma {:induction false} SomeReadsLast(bindings: seq<Binding>, path: string)
    requires bindings != []
    ensures SomeReads(bindings, path) <==>
      SomeReads(bindings[..|bindings| - 1], path) || ReadsFrom(bindings[|bindings| - 1], path)
  {
    var init := bindings[..|bindings| - 1];
    assert forall i :: 0 <= i < |init| ==> bindings[i] == init[i];
    if SomeReads(init, path) {
      var i :| 0 <= i < |init| && ReadsFrom(init[i], path);
      assert ReadsFrom(bindings[i], path);
    }
  }

  /** A path has the rows of the last manual binding that reads it. */
  lemma {:induction false} LastSeed(
    bindings: seq<Binding>, policies: map<string, Policy>, files: Files, read: SeedReader, i: nat)
    requires SeedsReadable(bindings, policies, files, read)
    requires i < |bindings| && bindings[i].capability == ManualImport && bindings[i].seed.File?
    requires forall j :: i < j < |bindings| ==> !ReadsFrom(bindings[j], bindings[i].seed.path)
    ensures var path := bindings[i].seed.path; var seeds := Seeds(bindings, policies, files, read);
      path in seeds && SeedIs(bindings[i], policies, files, read, seeds[path])
  {
    var init, last := bindings[..|bindings| - 1], bindings[|bindings| - 1];
    if i < |init| {
      assert forall j :: 0 <= j < |init| ==> bindings[j] == init[j];
      LastSeed(init, policies, files, read, i);
    } else {
      SeedVerdict(last, policies, files, read);
    }
  }

  ghost predicate ReadsFrom(b: Binding, path: string) {
    b.capability == ManualImport && b.seed.File? && b.seed.path == path
  }

  /** The error of the first manual binding that cannot be read. */
  ghost predicate FirstUnread(
    bindings: seq<Binding>, policies: map<string, Policy>, files: Files, read: SeedReader, i: nat, e: SeedError)
  {
    && i < |bindings| && bindings[i].capability == ManualImport
    && ReadSeed(bindings[i], policies, files, read) == Err(e)
    && SeedsReadable(bindings[..i], policies, files, read)
  }

  /** `load_manual_seed_rows`. */
  method LoadSeedRows(bindings: seq<Binding>, policies: map<string, Policy>, files: Files, read: SeedReader)
    returns (r: Result<SeedRows, SeedError>)
    ensures r.Ok? <==> SeedsReadable(bindings, policies, files, read)
    ensures r.Ok? ==> r.value == Seeds(bindings, policies, files, read)
    ensures r.Err? ==> exists i: nat :: FirstUnread(bindings, policies, files, read, i, r.error)
  {
    var result: SeedRows := map[];
    for i := 0 to |bindings|
      invariant SeedsReadable(bindings[..i], policies, files, read)
      invariant result == Seeds(bindings[..i], policies, files, read)
    {
      var binding := bindings[i];
      assert bindings[..i + 1][..i] == bindings[..i];
      if binding.capability != ManualImport {
        continue;
      }
      var rows := ReadSeed(binding, policies, files, read);
      if rows.Err? {
        assert FirstUnread(bindings, policies, files, read, i, rows.error);
        return Err(rows.error);
      }
      result := result[binding.seed.path := rows.value];
    }
    assert bindings[..|bindings|] == bindings;
    r := Ok(result);
  }

  // -------------------------------------------------------------- references

  datatype Violation =
    | CampaignKey(actual: string)
    | GeographyMissing
    | GeographyMismatch(actual: string)
    | Missing(reference: string, value: string)
    | PolicyAbsent(binding: string)
    | SourceMismatch(binding: string)
    | LegalStatusForbids(binding: string, status: LegalStatus)
    | EntityKindUnknown(path: string, row: nat)

  predicate AllIn(values: seq<string>, owned: seq<string>) {
    forall v :: v in values ==> v in owned
  }

  predicate LegalOk(p: Policy) {
    p.legalStatus == Approved || p.legalStatus == ReferenceOnly
  }

  function BindingKeys(bindings: seq<Binding>): (r: seq<string>)
    ensures |r| == |bindings| && forall i :: 0 <= i < |bindings| ==> r[i] == bindings[i].key
  {
    if bindings == [] then [] else [bindings[0].key] + BindingKeys(bindings[1..])
  }

  function CategoryKeys(items: seq<Category>): (r: seq<string>)
    ensures |r| == |items| && forall i :: 0 <= i < |items| ==> r[i] == items[i].key
  {
    if items == [] then [] else [items[0].key] + CategoryKeys(items[1..])
  }

  /** An enabled binding agrees with its policy. */
  predicate BindingOk(b: Binding, docs: Documents) {
    && b.policyKey in docs.policies
    && docs.policies[b.policyKey].sourceKey == b.sourceKey
    && LegalOk(docs.policies[b.policyKey])
    && AllIn(docs.policies[b.policyKey].allowedFields, docs.attributes)
  }

  ghost predicate BindingsOk(docs: Documents) {
    forall b :: b in docs.bindings && b.key in docs.campaign.enabled ==> BindingOk(b, docs)
  }

  ghost predicate CategoriesOk(items: seq<Category>, kinds: seq<string>) {
    forall i :: 0 <= i < |items| ==> AllIn(items[i].kinds, kinds)
  }

  ghost predicate RowsOk(rows: seq<Row>, kinds: seq<string>) {
    forall i :: 0 <= i < |rows| ==> rows[i].kind in kinds
  }

  ghost predicate SeedKindsOk(seeds: SeedRows, kinds: seq<string>) {
    forall path :: path in seeds ==> RowsOk(seeds[path], kinds)
  }

  /** All references of a campaign resolve. */
  ghost predicate ReferencesHold(requested: string, docs: Documents, seeds: SeedRows) {
    var c := docs.campaign;
    && c.key == requested
    && (c.ready ==> docs.geography.Some?)
    && (docs.geography.Some? ==> docs.geography.value == c.geographyRevision)
    && AllIn(c.entityKinds, docs.entityKinds)
    && AllIn(c.categories, CategoryKeys(docs.taxonomy))
    && AllIn(c.enabled, BindingKeys(docs.bindings))
    && CategoriesOk(docs.taxonomy, docs.entityKinds)
    && BindingsOk(docs)
    && SeedKindsOk(seeds, docs.entityKinds)
  }

  // ------------------------------------------------- what each violation means

  ghost predicate MissingFrom(x: Violation, reference: string, values: seq<string>, owned: seq<string>) {
    exists v :: v in values && v !in owned && x == Missing(reference, v)
  }

  ghost predicate CategoryViolated(x: Violation, items: seq<Category>, kinds: seq<string>) {
    exists i :: 0 <= i < |items| &&
      MissingFrom(x, "taxonomy." + items[i].key + ".applicable_entity_kinds", items[i].kinds, kinds)
  }

  /** An enabled binding and its policy: absent, of another source, not to be used, or allowing unknown fields. */
  ghost predicate BindingViolated(x: Violation, b: Binding, docs: Documents) {
    if b.policyKey !in docs.policies then x == PolicyAbsent(b.key)
    else
      var p := docs.policies[b.policyKey];
      || (p.sourceKey != b.sourceKey && x == SourceMismatch(b.key))
      || (p.legalStatus in {Blocked, Expired, ResearchOnly} && x == LegalStatusForbids(b.key, p.legalStatus))
      || MissingFrom(x, "policy." + p.key + ".allowed_fields", p.allowedFields, docs.attributes)
  }

  ghost predicate NamedViolated(x: Violation, keys: seq<string>, docs: Documents) {
    exists b :: b in docs.bindings && b.key in keys && BindingViolated(x, b, docs)
  }

  ghost predicate RowViolated(x: Violation, path: string, rows: seq<Row>, kinds: seq<string>) {
    exists i :: 0 <= i < |rows| && rows[i].kind !in kinds && x == EntityKindUnknown(path, rows[i].number)
  }

  ghost predicate SeedViolated(x: Violation, seeds: SeedRows, paths: set<string>, kinds: seq<string>) {
    exists path :: path in paths && path in seeds && RowViolated(x, path, seeds[path], kinds)
  }

  /** The campaign's key and geography. */
  ghost predicate HeaderViolated(x: Violation, requested: string, docs: Documents) {
    var c := docs.campaign;
    || (c.key != requested && x == CampaignKey(c.key))
    || (c.ready && docs.geography == None && x == GeographyMissing)
    || (docs.geography.Some? && docs.geography.value != c.geographyRevision
        && x == GeographyMismatch(docs.geography.value))
  }

  /** The campaign's references to kinds, categories and bindings. */
  ghost predicate OwnViolated(x: Violation, docs: Documents) {
    var c := docs.campaign;
    || MissingFrom(x, "campaign.entity_kinds", c.entityKinds, docs.entityKinds)
    || MissingFrom(x, "campaign.target_categories", c.categories, CategoryKeys(docs.taxonomy))
    || MissingFrom(x, "campaign.enabled_source_bindings", c.enabled, BindingKeys(docs.bindings))
  }

  /** Every violation there is. */
  ghost predicate Violated(x: Violation, requested: string, docs: Documents, seeds: SeedRows) {
    || HeaderViolated(x, requested, docs)
    || OwnViolated(x, docs)
    || CategoryViolated(x, docs.taxonomy, docs.entityKinds)
    || NamedViolated(x, docs.campaign.enabled, docs)
    || SeedViolated(x, seeds, seeds.Keys, docs.entityKinds)
  }

  function CategoryReference(c: Category): string {
    "taxonomy." + c.key + ".applicable_entity_kinds"
  }

  function PolicyReference(p: Policy): string {
    "policy." + p.key + ".allowed_fields"
  }

  /** `_append_missing`. */
  method AppendMissing(violations: seq<Violation>, reference: string, values: seq<string>, owned: seq<string>)
    returns (r: seq<Violation>)
    ensures forall x :: x in r <==> x in violations || MissingFrom(x, reference, values, owned)
  {
    r := violations;
    for i := 0 to |values|
      invariant forall x :: x in r <==> x in violations || MissingFrom(x, reference, values[..i], owned)
    {
      assert values[..i + 1] == values[..i] + [values[i]];
      if values[i] !in owned {
        r := r + [Missing(reference, values[i])];
      }
    }
    assert values[..|values|] == values;
  }

  method CheckCategories(violations: seq<Violation>, docs: Documents) returns (r: seq<Violation>)
    ensures forall x :: x in r <==> x in violations || CategoryViolated(x, docs.taxonomy, docs.entityKinds)
  {
    r := violations;
    for i := 0 to |docs.taxonomy|
      invariant forall x :: x in r <==> x in violations || CategoryViolated(x, docs.taxonomy[..i], docs.entityKinds)
    {
      CategoryNext(docs.taxonomy, i, docs.entityKinds);
      r := AppendMissing(r, CategoryReference(docs.taxonomy[i]), docs.taxonomy[i].kinds, docs.entityKinds);
    }
    assert docs.taxonomy[..|docs.taxonomy|] == docs.taxonomy;
  }

  lemma {:induction false} CategoryNext(items: seq<Category>, n: nat, kinds: seq<string>)
    requires n < |items|
    ensures forall x :: CategoryViolated(x, items[..n + 1], kinds) <==>
      CategoryViolated(x, items[..n], kinds) || MissingFrom(x, CategoryReference(items[n]), items[n].kinds, kinds)
  {
    forall x ensures CategoryViolated(x, items[..n + 1], kinds) <==>
      CategoryViolated(x, items[..n], kinds) || MissingFrom(x, CategoryReference(items[n]), items[n].kinds, kinds)
    {
      var more := items[..n + 1];
      assert more[n] == items[n];
      assert forall i :: 0 <= i < n ==> more[i] == items[..n][i];
    }
  }

  /** `binding_map.get(key)`. */
  method FindBinding(bindings: seq<Binding>, key: string) returns (r: Option<Binding>)
    requires forall i, j :: 0 <= i < j < |bindings| ==> bindings[i].key != bindings[j].key
    ensures r.None? ==> forall b :: b in bindings ==> b.key != key
    ensures r.Some? ==> r.value in bindings && r.value.key == key
    ensures r.Some? ==> forall b :: b in bindings && b.key == key ==> b == r.value
  {
    for i := 0 to |bindings|
      invariant forall j :: 0 <= j < i ==> bindings[j].key != key
    {
      if bindings[i].key == key {
        return Some(bindings[i]);
      }
    }
    r := None;
  }

  method CheckBinding(violations: seq<Violation>, b: Binding, docs: Documents) returns (r: seq<Violation>)
    ensures forall x :: x in r <==> x in violations || BindingViolated(x, b, docs)
  {
    r := violations;
    if b.policyKey !in docs.policies {
      return r + [PolicyAbsent(b.key)];
    }
    var policy := docs.policies[b.policyKey];
    if policy.sourceKey != b.sourceKey {
      r := r + [SourceMismatch(b.key)];
    }
    if !LegalOk(policy) {
      r := r + [LegalStatusForbids(b.key, policy.legalStatus)];
    }
    r := AppendMissing(r, PolicyReference(policy), policy.allowedFields, docs.attributes);
  }

  method CheckBindings(violations: seq<Violation>, docs: Documents) returns (r: seq<Violation>)
    requires ContractsHold(docs)
    ensures forall x :: x in r <==> x in violations || NamedViolated(x, docs.campaign.enabled, docs)
  {
    var keys := docs.campaign.enabled;
    r := violations;
    for i := 0 to |keys|
      invariant forall x :: x in r <==> x in violations || NamedViolated(x, keys[..i], docs)
    {
      assert keys[..i + 1] == keys[..i] + [keys[i]];
      var binding := FindBinding(docs.bindings, keys[i]);
      NamedNext(keys[..i], keys[i], binding, docs);
      if binding.None? {
        continue;
      }
      r := CheckBinding(r, binding.value, docs);
    }
    assert keys[..|keys|] == keys;
  }

  lemma {:induction false} NamedNext(keys: seq<string>, key: string, found: Option<Binding>, docs: Documents)
    requires forall b :: b in docs.bindings && b.key == key <==> found == Some(b)
    ensures forall x :: NamedViolated(x, keys + [key], docs) <==>
      NamedViolated(x, keys, docs) || (found.Some? && BindingViolated(x, found.value, docs))
  {
    forall x | found.Some? && BindingViolated(x, found.value, docs) ensures NamedViolated(x, keys + [key], docs) {
      assert found.value in docs.bindings && found.value.key in keys + [key];
    }
  }

  method CheckRows(
    violations: seq<Violation>, path: string, rows: seq<Row>, kinds: seq<string>) returns (r: seq<Violation>)
    ensures forall x :: x in r <==> x in violations || RowViolated(x, path, rows, kinds)
  {
    r := violations;
    for i := 0 to |rows|
      invariant forall x :: x in r <==> x in violations || RowViolated(x, path, rows[..i], kinds)
    {
      RowNext(path, rows, i, kinds);
      if rows[i].kind !in kinds {
        r := r + [EntityKindUnknown(path, rows[i].number)];
      }
    }
    assert rows[..|rows|] == rows;
  }

  lemma {:induction false} RowNext(path: string, rows: seq<Row>, n: nat, kinds: seq<string>)
    requires n < |rows|
    ensures forall x :: RowViolated(x, path, rows[..n + 1], kinds) <==>
      RowViolated(x, path, rows[..n], kinds) || (rows[n].kind !in kinds && x == EntityKindUnknown(path, rows[n].number))
  {
    forall x ensures RowViolated(x, path, rows[..n + 1], kinds) <==>
      RowViolated(x, path, rows[..n], kinds) || (rows[n].kind !in kinds && x == EntityKindUnknown(path, rows[n].number))
    {
      var more := rows[..n + 1];
      assert more[n] == rows[n];
      assert forall i :: 0 <= i < n ==> more[i] == rows[..n][i];
    }
  }

  method CheckSeeds(violations: seq<Violation>, seeds: SeedRows, kinds: seq<string>) returns (r: seq<Violation>)
    ensures forall x :: x in r <==> x in violations || SeedViolated(x, seeds, seeds.Keys, kinds)
  {
    r := violations;
    var rest := seeds.Keys;
    while rest != {}
      invariant rest <= seeds.Keys
      invariant forall x :: x in r <==> x in violations || SeedViolated(x, seeds, seeds.Keys - rest, kinds)
      decreases |rest|
    {
      var path :| path in rest;
      SeedNext(seeds, seeds.Keys - rest, path, kinds);
      r := CheckRows(r, path, seeds[path], kinds);
      assert seeds.Keys - (rest - {path}) == (seeds.Keys - rest) + {path};
      rest := rest - {path};
    }
    assert seeds.Keys - rest == seeds.Keys;
  }

  lemma {:induction false} SeedNext(seeds: SeedRows, paths: set<string>, path: string, kinds: seq<string>)
    requires path in seeds
    ensures forall x :: SeedViolated(x, seeds, paths + {path}, kinds) <==>
      SeedViolated(x, seeds, paths, kinds) || RowViolated(x, path, seeds[path], kinds)
  {
    forall x | RowViolated(x, path, seeds[path], kinds) ensures SeedViolated(x, seeds, paths + {path}, kinds) {
      assert path in paths + {path};
    }
  }

  // ------------------------------------------- no violation, every reference

  lemma {:induction false} NoneMissing(reference: string, values: seq<string>, owned: seq<string>)
    ensures (forall x :: !MissingFrom(x, reference, values, owned)) <==> AllIn(values, owned)
  {
    if v :| v in values && v !in owned {
      assert MissingFrom(Missing(reference, v), reference, values, owned);
    }
  }

  lemma {:induction false} NoneCategory(items: seq<Category>, kinds: seq<string>)
    ensures (forall x :: !CategoryViolated(x, items, kinds)) <==> CategoriesOk(items, kinds)
  {
    forall i | 0 <= i < |items|
      ensures (forall x :: !MissingFrom(x, CategoryReference(items[i]), items[i].kinds, kinds))
        <==> AllIn(items[i].kinds, kinds)
    {
      NoneMissing(CategoryReference(items[i]), items[i].kinds, kinds);
    }
    if !CategoriesOk(items, kinds) {
      var i :| 0 <= i < |items| && !AllIn(items[i].kinds, kinds);
      var x :| MissingFrom(x, CategoryReference(items[i]), items[i].kinds, kinds);
      assert CategoryViolated(x, items, kinds);
    }
  }

  lemma {:induction false} NoneBinding(b: Binding, docs: Documents)
    ensures (forall x :: !BindingViolated(x, b, docs)) <==> BindingOk(b, docs)
  {
    if b.policyKey !in docs.policies {
      assert BindingViolated(PolicyAbsent(b.key), b, docs);
    } else {
      var p := docs.policies[b.policyKey];
      NoneMissing(PolicyReference(p), p.allowedFields, docs.attributes);
      if p.sourceKey != b.sourceKey {
        assert BindingViolated(SourceMismatch(b.key), b, docs);
      } else if !LegalOk(p) {
        assert BindingViolated(LegalStatusForbids(b.key, p.legalStatus), b, docs);
      } else if !AllIn(p.allowedFields, docs.attributes) {
        var x :| MissingFrom(x, PolicyReference(p), p.allowedFields, docs.attributes);
        assert BindingViolated(x, b, docs);
      }
    }
  }

  lemma {:induction false} NoneNamed(docs: Documents)
    ensures (forall x :: !NamedViolated(x, docs.campaign.enabled, docs)) <==> BindingsOk(docs)
  {
    forall b | b in docs.bindings ensures (forall x :: !BindingViolated(x, b, docs)) <==> BindingOk(b, docs) {
      NoneBinding(b, docs);
    }
    if !BindingsOk(docs) {
      var b :| b in docs.bindings && b.key in docs.campaign.enabled && !BindingOk(b, docs);
      var x :| BindingViolated(x, b, docs);
      assert NamedViolated(x, docs.campaign.enabled, docs);
    }
  }

  lemma {:induction false} NoneRow(path: string, rows: seq<Row>, kinds: seq<string>)
    ensures (forall x :: !RowViolated(x, path, rows, kinds)) <==> RowsOk(rows, kinds)
  {
    if i :| 0 <= i < |rows| && rows[i].kind !in kinds {
      assert RowViolated(EntityKindUnknown(path, rows[i].number), path, rows, kinds);
    }
  }

  lemma {:induction false} NoneSeed(seeds: SeedRows, kinds: seq<string>)
    ensures (forall x :: !SeedViolated(x, seeds, seeds.Keys, kinds)) <==> SeedKindsOk(seeds, kinds)
  {
    forall path | path in seeds
      ensures (forall x :: !RowViolated(x, path, seeds[path], kinds)) <==> RowsOk(seeds[path], kinds)
    {
      NoneRow(path, seeds[path], kinds);
    }
    if !SeedKindsOk(seeds, kinds) {
      var path :| path in seeds && !RowsOk(seeds[path], kinds);
      var x :| RowViolated(x, path, seeds[path], kinds);
      assert SeedViolated(x, seeds, seeds.Keys, kinds);
    }
  }

  lemma {:induction false} NoneHeader(requested: string, docs: Documents)
    ensures var c := docs.campaign; (forall x :: !HeaderViolated(x, requested, docs)) <==>
      && c.key == requested && (c.ready ==> docs.geography.Some?)
      && (docs.geography.Some? ==> docs.geography.value == c.geographyRevision)
  {
    var c := docs.campaign;
    if c.key != requested {
      assert HeaderViolated(CampaignKey(c.key), requested, docs);
    }
    if c.ready && docs.geography.None? {
      assert HeaderViolated(GeographyMissing, requested, docs);
    }
    if docs.geography.Some? && docs.geography.value != c.geographyRevision {
      assert HeaderViolated(GeographyMismatch(docs.geography.value), requested, docs);
    }
  }

  lemma {:induction false} NoneOwn(docs: Documents)
    ensures var c := docs.campaign; (forall x :: !OwnViolated(x, docs)) <==>
      && AllIn(c.entityKinds, docs.entityKinds) && AllIn(c.categories, CategoryKeys(docs.taxonomy))
      && AllIn(c.enabled, BindingKeys(docs.bindings))
  {
    var c := docs.campaign;
    var kinds, categories, enabled :=
      "campaign.entity_kinds", "campaign.target_categories", "campaign.enabled_source_bindings";
    NoneMissing(kinds, c.entityKinds, docs.entityKinds);
    NoneMissing(categories, c.categories, CategoryKeys(docs.taxonomy));
    NoneMissing(enabled, c.enabled, BindingKeys(docs.bindings));
    assert forall x :: OwnViolated(x, docs) <==>
      || MissingFrom(x, kinds, c.entityKinds, docs.entityKinds)
      || MissingFrom(x, categories, c.categories, CategoryKeys(docs.taxonomy))
      || MissingFrom(x, enabled, c.enabled, BindingKeys(docs.bindings));
  }

  /** Nothing is violated exactly when every reference holds. */
  lemma {:induction false} NoneViolated(requested: string, docs: Documents, seeds: SeedRows)
    ensures (forall x :: !Violated(x, requested, docs, seeds)) <==> ReferencesHold(requested, docs, seeds)
  {
    NoneHeader(requested, docs);
    NoneOwn(docs);
    NoneCategory(docs.taxonomy, docs.entityKinds);
    NoneNamed(docs);
    NoneSeed(seeds, docs.entityKinds);
    assert forall x :: Violated(x, requested, docs, seeds) <==>
      || HeaderViolated(x, requested, docs) || OwnViolated(x, docs)
      || CategoryViolated(x, docs.taxonomy, docs.entityKinds) || NamedViolated(x, docs.campaign.enabled, docs)
      || SeedViolated(x, seeds, seeds.Keys, docs.entityKinds);
  }

  method CheckHeader(requested: string, docs: Documents) returns (r: seq<Violation>)
    ensures forall x :: x in r <==> HeaderViolated(x, requested, docs)
  {
    var c := docs.campaign;
    r := [];
    if c.key != requested {
      r := r + [CampaignKey(c.key)];
    }
    if c.ready && docs.geography.None? {
      r := r + [GeographyMissing];
    }
    if docs.geography.Some? && docs.geography.value != c.geographyRevision {
      r := r + [GeographyMismatch(docs.geography.value)];
    }
  }

  method CheckOwn(violations: seq<Violation>, docs: Documents) returns (r: seq<Violation>)
    ensures forall x :: x in r <==> x in violations || OwnViolated(x, docs)
  {
    var c := docs.campaign;
    r := AppendMissing(violations, "campaign.entity_kinds", c.entityKinds, docs.entityKinds);
    r := AppendMissing(r, "campaign.target_categories", c.categories, CategoryKeys(docs.taxonomy));
    r := AppendMissing(r, "campaign.enabled_source_bindings", c.enabled, BindingKeys(docs.bindings));
  }

  /** `validate_campaign_references`: the list holds every violation there is and nothing else. */
  method ValidateReferences(requested: string, docs: Documents, seeds: SeedRows) returns (violations: seq<Violation>)
    requires ContractsHold(docs)
    ensures forall x :: x in violations <==> Violated(x, requested, docs, seeds)
    ensures violations == [] <==> ReferencesHold(requested, docs, seeds)
  {
    violations := CheckHeader(requested, docs);
    violations := CheckOwn(violations, docs);
    violations := CheckCategories(violations, docs);
    violations := CheckBindings(violations, docs);
    violations := CheckSeeds(violations, seeds, docs.entityKinds);
    NoneViolated(requested, docs, seeds);
    EmptyList(violations, requested, docs, seeds);
  }

  lemma {:induction false} EmptyList(
    violations: seq<Violation>, requested: string, docs: Documents, seeds: SeedRows)
    requires forall x :: x in violations <==> Violated(x, requested, docs, seeds)
    ensures violations == [] <==> forall x :: !Violated(x, requested, docs, seeds)
  {
    if violations != [] {
      assert violations[0] in violations;
    }
  }

  /** The bundle compiles: seeds are readable and references hold. */
  ghost predicate Compiles(requested: string, docs: Documents, files: Files, read: SeedReader) {
    && ContractsHold(docs)
    && SeedsReadable(docs.bindings, docs.policies, files, read)
    && ReferencesHold(requested, docs, Seeds(docs.bindings, docs.policies, files, read))
  }

  datatype CompileError = SeedFault(seed: SeedError) | ReferenceInvalid(violations: seq<Violation>)

  /** The checks of `CampaignSnapshotService.compile`: it succeeds exactly on bundles that compile. */
  method Compile(
    requested: string, docs: Documents, files: Files, read: SeedReader) returns (r: Result<SeedRows, CompileError>)
    requires ContractsHold(docs)
    ensures r.Ok? <==> Compiles(requested, docs, files, read)
    ensures r.Ok? ==> r.value == Seeds(docs.bindings, docs.policies, files, read)
    ensures r.Err? && r.error.SeedFault? ==> exists i: nat ::
      FirstUnread(docs.bindings, docs.policies, files, read, i, r.error.seed)
    ensures r.Err? && r.error.ReferenceInvalid? ==>
      && SeedsReadable(docs.bindings, docs.policies, files, read)
      && forall x :: x in r.error.violations <==>
           Violated(x, requested, docs, Seeds(docs.bindings, docs.policies, files, read))
  {
    var seeds := LoadSeedRows(docs.bindings, docs.policies, files, read);
    if seeds.Err? {
      return Err(SeedFault(seeds.error));
    }
    var violations := ValidateReferences(requested, docs, seeds.value);
    if violations != [] {
      return Err(ReferenceInvalid(violations));
    }
    r := Ok(seeds.value);
  }
}
