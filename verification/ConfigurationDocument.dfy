/** Configuration documents and the errors their validator reports. */
module ConfigurationDocument {
  import opened Common

  datatype Connection = Connection(
    connectionId: string, displayLabel: string, providerType: string, secretReferenceId: string, safeMetadata: string)

  datatype Retention = Permanent | DeleteAfterDays(days: int)

  datatype Vault = Vault(
    vaultId: string, providerConnectionId: string, displayLabel: string, purpose: string,
    bucketLabel: string, prefixTemplate: string, retention: Retention)

  datatype Role = Primary | Replica

  datatype Target = Target(role: Role, vaultId: string)

  datatype Route = Route(routeId: string, assetClass: string, targets: seq<Target>, imagePresetId: Option<string>)

  datatype Preset = Preset(
    presetId: string, targetVaultId: string, widths: seq<int>, outputFormat: string, quality: int, fit: string)

  datatype Document = Document(
    connections: seq<Connection>, vaults: seq<Vault>, routes: seq<Route>, presets: seq<Preset>)

  /** What the check of nested metadata answers for its text: an error code, or nothing. */
  type MetadataCheck = string -> Option<string>

  // ---------------------------------------------------------------- texts

  predicate LowerAlphaNumeric(c: char) {
    'a' <= c <= 'z' || '0' <= c <= '9'
  }

  predicate Identifier(text: string) {
    1 <= |text| <= 128 && LowerAlphaNumeric(text[0])
    && forall c :: c in text[1..] ==> LowerAlphaNumeric(c) || c == '.' || c == '_' || c == ':' || c == '-'
  }

  predicate AlphaNumeric(c: char) {
    LowerAlphaNumeric(c) || 'A' <= c <= 'Z'
  }

  predicate SecretReference(text: string) {
    1 <= |text| <= 256 && AlphaNumeric(text[0])
    && forall c :: c in text[1..] ==> AlphaNumeric(c) || c == '.' || c == '_' || c == ':' || c == '-'
  }

  /** White space as trimming and pattern matching see it. */
  predicate Blank(c: char) {
    var u := c as int;
    9 <= u <= 13 || u == 32 || u == 160 || u == 0x1680 || 0x2000 <= u <= 0x200a
    || u == 0x2028 || u == 0x2029 || u == 0x202f || u == 0x205f || u == 0x3000 || u == 0xfeff
  }

  /** Something other than white space, in at most 160 characters. */
  predicate Label(text: string) {
    |text| <= 160 && exists c :: c in text && !Blank(c)
  }

  predicate BucketLabel(text: string) {
    1 <= |text| <= 255 && forall c :: c in text ==> !('A' <= c <= 'Z') && !Blank(c)
  }

  predicate Contains(text: string, part: string) {
    |part| <= |text| && (text[..|part|] == part || (text != "" && Contains(text[1..], part)))
  }

  predicate PrefixTemplate(text: string) {
    && |text| >= 2 && text[|text| - 2..] == "/*" && text[0] != '/'
    && !Contains(text, "..") && !Contains(text, "\\")
  }

  // ---------------------------------------------------------------- errors

  predicate Unique<T(==)>(values: seq<T>) {
    forall i, j :: 0 <= i < j < |values| ==> values[i] != values[j]
  }

  function When(condition: bool, code: string): seq<string> {
    if condition then [code] else []
  }

  function Ids<T>(items: seq<T>, id: T -> string): (ids: seq<string>)
    ensures |ids| == |items| && forall i :: 0 <= i < |items| ==> ids[i] == id(items[i])
  {
    seq(|items|, i requires 0 <= i < |items| => id(items[i]))
  }

  function ConnectionIds(d: Document): seq<string> {
    Ids(d.connections, (c: Connection) => c.connectionId)
  }

  function VaultIds(d: Document): seq<string> {
    Ids(d.vaults, (v: Vault) => v.vaultId)
  }

  function PresetIds(d: Document): seq<string> {
    Ids(d.presets, (p: Preset) => p.presetId)
  }

  function RouteIds(d: Document): seq<string> {
    Ids(d.routes, (r: Route) => r.routeId)
  }

  function AssetClasses(d: Document): seq<string> {
    Ids(d.routes, (r: Route) => r.assetClass)
  }

  function TargetVaults(r: Route): seq<string> {
    Ids(r.targets, (t: Target) => t.vaultId)
  }

  function WithRole(targets: seq<Target>, role: Role): seq<Target> {
    if targets == [] then []
    else (if targets[0].role == role then [targets[0]] else []) + WithRole(targets[1..], role)
  }

  function DuplicateErrors(d: Document): seq<string> {
    When(!Unique(ConnectionIds(d)), "duplicate-provider-connection-id")
    + When(!Unique(VaultIds(d)), "duplicate-vault-id")
    + When(!Unique(PresetIds(d)), "duplicate-image-preset-id")
    + When(!Unique(RouteIds(d)), "duplicate-route-id")
    + When(!Unique(AssetClasses(d)), "duplicate-asset-class-route")
  }

  function ConnectionErrors(c: Connection, check: MetadataCheck): seq<string> {
    When(!Identifier(c.connectionId), "invalid-provider-connection-id")
    + When(!Label(c.displayLabel), "invalid-provider-connection-label")
    + When(!SecretReference(c.secretReferenceId), "invalid-secret-reference-id")
    + (match check(c.safeMetadata) case None => [] case Some(code) => [code])
  }

  predicate RetentionInRange(r: Retention) {
    r.Permanent? || 1 <= r.days <= 36500
  }

  function VaultErrors(v: Vault, d: Document): seq<string> {
    When(!Identifier(v.vaultId), "invalid-vault-id")
    + When(v.providerConnectionId !in ConnectionIds(d), "unknown-provider-connection")
    + When(!Label(v.displayLabel), "invalid-vault-label")
    + When(!BucketLabel(v.bucketLabel), "invalid-bucket-label")
    + When(!PrefixTemplate(v.prefixTemplate), "invalid-prefix-template")
    + When(!RetentionInRange(v.retention), "invalid-delete-after-days")
  }

  predicate Widths(widths: seq<int>) {
    1 <= |widths| <= 8 && Unique(widths) && forall w :: w in widths ==> 16 <= w <= 16384
  }

  function PresetErrors(p: Preset, d: Document): seq<string> {
    When(!Identifier(p.presetId), "invalid-image-preset-id")
    + When(p.targetVaultId !in VaultIds(d), "unknown-image-preset-vault")
    + When(!Widths(p.widths), "invalid-image-preset-widths")
    + When(!(1 <= p.quality <= 100), "invalid-image-preset-quality")
  }

  function RouteErrors(r: Route, d: Document): seq<string> {
    When(!Identifier(r.routeId), "invalid-route-id")
    + When(|WithRole(r.targets, Primary)| != 1, "route-primary-required")
    + When(|r.targets| > 33, "too-many-route-targets")
    + When(!Unique(TargetVaults(r)), "duplicate-route-vault")
    + When(exists v :: v in TargetVaults(r) && v !in VaultIds(d), "unknown-route-vault")
    + When(|WithRole(r.targets, Replica)| > 32, "too-many-route-replicas")
    + When(r.assetClass != "image" && r.imagePresetId.Some?, "image-preset-on-non-image-route")
    + When(r.imagePresetId.Some? && r.imagePresetId.value !in PresetIds(d), "unknown-route-image-preset")
  }

  function Gather<T>(items: seq<T>, errors: T -> seq<string>): seq<string> {
    if items == [] then [] else errors(items[0]) + Gather(items[1..], errors)
  }

  /** All errors in the order they are found. */
  function AllErrors(d: Document, check: MetadataCheck): seq<string> {
    DuplicateErrors(d)
    + Gather(d.connections, (c: Connection) => ConnectionErrors(c, check))
    + Gather(d.vaults, (v: Vault) => VaultErrors(v, d))
    + Gather(d.presets, (p: Preset) => PresetErrors(p, d))
    + Gather(d.routes, (r: Route) => RouteErrors(r, d))
  }

  /** The first occurrence of every code. */
  function Distinct(codes: seq<string>): seq<string> {
    if codes == [] then []
    else
      var before := Distinct(codes[..|codes| - 1]);
      var last := codes[|codes| - 1];
      if last in before then before else before + [last]
  }

  function Errors(d: Document, check: MetadataCheck): seq<string> {
    Distinct(AllErrors(d, check))
  }

  // ---------------------------------------------------------------- the validator's loops

  method CheckConnections(d: Document, check: MetadataCheck, found: seq<string>) returns (errors: seq<string>)
    ensures errors == found + Gather(d.connections, (c: Connection) => ConnectionErrors(c, check))
  {
    hide ConnectionErrors;
    errors := found;
    var i := 0;
    while i < |d.connections|
      invariant 0 <= i <= |d.connections|
      invariant errors + Gather(d.connections[i..], (c: Connection) => ConnectionErrors(c, check))
        == found + Gather(d.connections, (c: Connection) => ConnectionErrors(c, check))
    {
      assert d.connections[i..][1..] == d.connections[i + 1..];
      errors := errors + ConnectionErrors(d.connections[i], check);
      i := i + 1;
    }
  }

  method CheckVaults(d: Document, found: seq<string>) returns (errors: seq<string>)
    ensures errors == found + Gather(d.vaults, (v: Vault) => VaultErrors(v, d))
  {
    hide VaultErrors;
    errors := found;
    var i := 0;
    while i < |d.vaults|
      invariant 0 <= i <= |d.vaults|
      invariant errors + Gather(d.vaults[i..], (v: Vault) => VaultErrors(v, d)) == found + Gather(d.vaults, (v: Vault) => VaultErrors(v, d))
    {
      assert d.vaults[i..][1..] == d.vaults[i + 1..];
      errors := errors + VaultErrors(d.vaults[i], d);
      i := i + 1;
    }
  }

  method CheckPresets(d: Document, found: seq<string>) returns (errors: seq<string>)
    ensures errors == found + Gather(d.presets, (p: Preset) => PresetErrors(p, d))
  {
    hide PresetErrors;
    errors := found;
    var i := 0;
    while i < |d.presets|
      invariant 0 <= i <= |d.presets|
      invariant errors + Gather(d.presets[i..], (p: Preset) => PresetErrors(p, d)) == found + Gather(d.presets, (p: Preset) => PresetErrors(p, d))
    {
      assert d.presets[i..][1..] == d.presets[i + 1..];
      errors := errors + PresetErrors(d.presets[i], d);
      i := i + 1;
    }
  }

  method CheckRoutes(d: Document, found: seq<string>) returns (errors: seq<string>)
    ensures errors == found + Gather(d.routes, (r: Route) => RouteErrors(r, d))
  {
    hide RouteErrors;
    errors := found;
    var i := 0;
    while i < |d.routes|
      invariant 0 <= i <= |d.routes|
      invariant errors + Gather(d.routes[i..], (r: Route) => RouteErrors(r, d)) == found + Gather(d.routes, (r: Route) => RouteErrors(r, d))
    {
      assert d.routes[i..][1..] == d.routes[i + 1..];
      errors := errors + RouteErrors(d.routes[i], d);
      i := i + 1;
    }
  }

  method Validate(d: Document, check: MetadataCheck) returns (errors: seq<string>)
    ensures errors == Errors(d, check)
  {
    hide DuplicateErrors, Gather;
    var found := DuplicateErrors(d);
    found := CheckConnections(d, check, found);
    found := CheckVaults(d, found);
    found := CheckPresets(d, found);
    found := CheckRoutes(d, found);
    errors := RemoveRepeats(found);
  }

  method RemoveRepeats(codes: seq<string>) returns (distinct: seq<string>)
    ensures distinct == Distinct(codes)
  {
    distinct := [];
    var i := 0;
    while i < |codes|
      invariant 0 <= i <= |codes| && distinct == Distinct(codes[..i])
    {
      assert codes[..i + 1][..i] == codes[..i];
      if codes[i] !in distinct {
        distinct := distinct + [codes[i]];
      }
      i := i + 1;
    }
    assert codes[..|codes|] == codes;
  }

  // ---------------------------------------------------------------- what validity means

  predicate ValidConnection(c: Connection, check: MetadataCheck) {
    Identifier(c.connectionId) && Label(c.displayLabel) && SecretReference(c.secretReferenceId) && check(c.safeMetadata).None?
  }

  predicate ValidVault(v: Vault, d: Document) {
    && Identifier(v.vaultId) && (exists c :: c in d.connections && c.connectionId == v.providerConnectionId)
    && Label(v.displayLabel) && BucketLabel(v.bucketLabel) && PrefixTemplate(v.prefixTemplate) && RetentionInRange(v.retention)
  }

  predicate ValidPreset(p: Preset, d: Document) {
    && Identifier(p.presetId) && (exists v :: v in d.vaults && v.vaultId == p.targetVaultId)
    && Widths(p.widths) && 1 <= p.quality <= 100
  }

  /** One primary, at most 32 replicas, every target on a vault of its own, and a preset only for images. */
  predicate ValidRoute(r: Route, d: Document) {
    && Identifier(r.routeId)
    && |WithRole(r.targets, Primary)| == 1 && |WithRole(r.targets, Replica)| <= 32 && |r.targets| <= 33
    && Unique(TargetVaults(r))
    && (forall t :: t in r.targets ==> exists v :: v in d.vaults && v.vaultId == t.vaultId)
    && (r.imagePresetId.Some? ==> r.assetClass == "image" && exists p :: p in d.presets && p.presetId == r.imagePresetId.value)
  }

  predicate UniqueNames(d: Document) {
    Unique(ConnectionIds(d)) && Unique(VaultIds(d)) && Unique(PresetIds(d)) && Unique(RouteIds(d)) && Unique(AssetClasses(d))
  }

  predicate Valid(d: Document, check: MetadataCheck) {
    && UniqueNames(d)
    && (forall c :: c in d.connections ==> ValidConnection(c, check))
    && (forall v :: v in d.vaults ==> ValidVault(v, d))
    && (forall p :: p in d.presets ==> ValidPreset(p, d))
    && (forall r :: r in d.routes ==> ValidRoute(r, d))
  }

  lemma {:induction false} NothingGathered<T>(items: seq<T>, errors: T -> seq<string>)
    ensures Gather(items, errors) == [] <==> forall x :: x in items ==> errors(x) == []
  {
    if items != [] {
      NothingGathered(items[1..], errors);
      assert items == [items[0]] + items[1..];
    }
  }

  lemma {:induction false} NothingDistinct(codes: seq<string>)
    ensures Distinct(codes) == [] <==> codes == []
  {
    if codes != [] {
      NothingDistinct(codes[..|codes| - 1]);
    }
  }

  lemma IdsMember<T>(items: seq<T>, id: T -> string, name: string)
    ensures name in Ids(items, id) <==> exists x :: x in items && id(x) == name
  {
    if name in Ids(items, id) {
      var i :| 0 <= i < |items| && Ids(items, id)[i] == name;
      assert items[i] in items;
    }
    forall x | x in items && id(x) == name
      ensures name in Ids(items, id)
    {
      var i :| 0 <= i < |items| && items[i] == x;
      assert Ids(items, id)[i] == name;
    }
  }

  lemma ConnectionClean(c: Connection, check: MetadataCheck)
    ensures ConnectionErrors(c, check) == [] <==> ValidConnection(c, check)
  {
    hide Identifier, Label, SecretReference;
  }

  lemma VaultClean(v: Vault, d: Document)
    ensures VaultErrors(v, d) == [] <==> ValidVault(v, d)
  {
    IdsMember(d.connections, (c: Connection) => c.connectionId, v.providerConnectionId);
    hide Identifier, Label, BucketLabel, PrefixTemplate, RetentionInRange;
  }

  lemma PresetClean(p: Preset, d: Document)
    ensures PresetErrors(p, d) == [] <==> ValidPreset(p, d)
  {
    IdsMember(d.vaults, (v: Vault) => v.vaultId, p.targetVaultId);
    hide Identifier, Widths;
  }

  lemma KnownVaults(r: Route, d: Document)
    ensures (exists v :: v in TargetVaults(r) && v !in VaultIds(d))
      <==> !(forall t :: t in r.targets ==> exists v :: v in d.vaults && v.vaultId == t.vaultId)
  {
    if name :| name in TargetVaults(r) && name !in VaultIds(d) {
      IdsMember(r.targets, (t: Target) => t.vaultId, name);
      IdsMember(d.vaults, (v: Vault) => v.vaultId, name);
    } else {
      forall t | t in r.targets
        ensures exists v :: v in d.vaults && v.vaultId == t.vaultId
      {
        IdsMember(r.targets, (t: Target) => t.vaultId, t.vaultId);
        IdsMember(d.vaults, (v: Vault) => v.vaultId, t.vaultId);
      }
    }
  }

  lemma RouteClean(r: Route, d: Document)
    ensures RouteErrors(r, d) == [] <==> ValidRoute(r, d)
  {
    KnownVaults(r, d);
    if r.imagePresetId.Some? {
      IdsMember(d.presets, (p: Preset) => p.presetId, r.imagePresetId.value);
    }
    hide Identifier, WithRole, TargetVaults, VaultIds;
  }

  lemma DuplicatesClean(d: Document)
    ensures DuplicateErrors(d) == [] <==> UniqueNames(d)
  {
    hide Unique;
  }

  /** The validator reports nothing exactly for valid documents. */
  lemma NoErrorsMeansValid(d: Document, check: MetadataCheck)
    ensures Errors(d, check) == [] <==> Valid(d, check)
  {
    NothingDistinct(AllErrors(d, check));
    NothingGathered(d.connections, (c: Connection) => ConnectionErrors(c, check));
    NothingGathered(d.vaults, (v: Vault) => VaultErrors(v, d));
    NothingGathered(d.presets, (p: Preset) => PresetErrors(p, d));
    NothingGathered(d.routes, (r: Route) => RouteErrors(r, d));
    DuplicatesClean(d);
    forall c ensures ConnectionErrors(c, check) == [] <==> ValidConnection(c, check) { ConnectionClean(c, check); }
    forall v ensures VaultErrors(v, d) == [] <==> ValidVault(v, d) { VaultClean(v, d); }
    forall p ensures PresetErrors(p, d) == [] <==> ValidPreset(p, d) { PresetClean(p, d); }
    forall r ensures RouteErrors(r, d) == [] <==> ValidRoute(r, d) { RouteClean(r, d); }
    hide DuplicateErrors, UniqueNames, ConnectionErrors, ValidConnection, VaultErrors, ValidVault, PresetErrors, ValidPreset,
      RouteErrors, ValidRoute;
  }
}
