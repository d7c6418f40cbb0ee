/** When writing one version changes another. */
module ConfigurationSharing {
  import opened Common
  import opened ConfigurationDocument
  import opened ConfigurationTables
  import opened ConfigurationRoundTrip
  import opened ConfigurationPersistence
  import opened ConfigurationResolver
  import opened ConfigurationWriter
  import Lifecycle = ConfigurationVersions

  // ---------------------------------------------------------------- the connection rows after a write

  /** The last connection of the list under this identifier: the one that stays. */
  function Latest(connections: seq<Connection>, id: string): Option<Connection> {
    if connections == [] then None
    else
      match Latest(connections[1..], id)
      case Some(c) => Some(c)
      case None => if connections[0].connectionId == id then Some(connections[0]) else None
  }

  /** A row as it is after the connections were written for this client and environment. */
  function Overwritten(row: ConnectionRow, clientId: string, environment: string, connections: seq<Connection>): ConnectionRow {
    if row.clientId == clientId && row.environment == environment && Latest(connections, row.connection.connectionId).Some? then
      row.(connection := Latest(connections, row.connection.connectionId).value)
    else row
  }

  lemma {:induction false} LatestIsNamed(connections: seq<Connection>, id: string)
    ensures Latest(connections, id).Some? ==> Latest(connections, id).value in connections && Latest(connections, id).value.connectionId == id
    ensures Latest(connections, id).None? ==> forall c :: c in connections ==> c.connectionId != id
  {
    if connections != [] {
      LatestIsNamed(connections[1..], id);
    }
  }

  lemma UpsertRow(rows: seq<ConnectionRow>, clientId: string, environment: string, c: Connection, ids: Ids, place: nat)
    requires UniqueKeys(rows) && place < |rows|
    ensures var u := Upsert(rows, clientId, environment, c, ids);
      && place < |u.rows|
      && u.rows[place] == (if HasKey(rows[place], clientId, environment, c.connectionId) then ConnectionRow(clientId, environment, c)
                           else rows[place])
  {
    var k := RowOf(rows, clientId, environment, c.connectionId, |rows|);
    if k.Some? && HasKey(rows[place], clientId, environment, c.connectionId) {
      assert !(k.value < place) && !(place < k.value);
    }
  }

  lemma {:induction false} UpsertAllRows(rows: seq<ConnectionRow>, clientId: string, environment: string, connections: seq<Connection>, ids: Ids)
    requires UniqueKeys(rows) && IdsHold(ids, rows, clientId, environment)
    ensures var u := UpsertAll(rows, clientId, environment, connections, ids);
      && UniqueKeys(u.rows) && KeysStay(rows, u.rows) && IdsHold(u.ids, u.rows, clientId, environment)
      && forall place :: 0 <= place < |rows| ==> u.rows[place] == Overwritten(rows[place], clientId, environment, connections)
    decreases |connections|
  {
    hide Upsert, UniqueKeys, IdsHold;
    if connections == [] {
      KeysReflexive(rows);
    } else {
      var c, rest := connections[0], connections[1..];
      var next := Upsert(rows, clientId, environment, c, ids);
      UpsertOne(rows, clientId, environment, c, ids);
      UpsertAllRows(next.rows, clientId, environment, rest, next.ids);
      var u := UpsertAll(rows, clientId, environment, connections, ids);
      KeysTransitive(rows, next.rows, u.rows);
      forall place | 0 <= place < |rows|
        ensures u.rows[place] == Overwritten(rows[place], clientId, environment, connections)
      {
        UpsertRow(rows, clientId, environment, c, ids, place);
        assert u.rows[place] == Overwritten(next.rows[place], clientId, environment, rest);
        LatestIsNamed(rest, c.connectionId);
      }
    }
  }

  // ---------------------------------------------------------------- writes that do not fail

  lemma {:induction false} VaultsKnown(rows: seq<VaultRow>, version: string, vaults: seq<Vault>, connections: Ids, ids: Ids)
    requires InsertVaults(rows, version, vaults, connections, ids).Ok?
    ensures forall v :: v in vaults ==> v.providerConnectionId in connections
    decreases |vaults|
  {
    if vaults != [] {
      VaultsKnown(rows + [VaultRowFor(version, vaults[0], connections[vaults[0].providerConnectionId])], version, vaults[1..],
        connections, ids[vaults[0].vaultId := |rows|]);
    }
  }

  lemma {:induction false} PresetsKnown(rows: seq<PresetRow>, version: string, presets: seq<Preset>, vaults: Ids, ids: Ids)
    requires InsertPresets(rows, version, presets, vaults, ids).Ok?
    ensures forall p :: p in presets ==> p.targetVaultId in vaults
    decreases |presets|
  {
    if presets != [] {
      var p := presets[0];
      PresetsKnown(rows + [PresetRow(version, p.presetId, vaults[p.targetVaultId], p.widths, p.outputFormat, p.quality, p.fit)],
        version, presets[1..], vaults, ids[p.presetId := |rows|]);
    }
  }

  lemma {:induction false} TargetsKnown(rows: seq<TargetRow>, version: string, routeRow: nat, targets: seq<Target>, order: nat, vaults: Ids)
    requires InsertTargets(rows, version, routeRow, targets, order, vaults).Ok?
    ensures forall t :: t in targets ==> t.vaultId in vaults
    decreases |targets|
  {
    if targets != [] {
      TargetsKnown(rows + [TargetRow(version, routeRow, vaults[targets[0].vaultId], targets[0].role, order)], version, routeRow,
        targets[1..], order + 1, vaults);
    }
  }

  lemma {:induction false} RoutesKnown(rows: seq<RouteRow>, targets: seq<TargetRow>, version: string, routes: seq<Route>,
      vaults: Ids, presets: Ids)
    requires InsertRoutes(rows, targets, version, routes, vaults, presets).Ok?
    ensures forall r :: r in routes ==> RouteKnown(r, vaults, presets)
    decreases |routes|
  {
    hide PrimaryFirst, OrderAt, InsertTargets;
    if routes != [] {
      var r := routes[0];
      var more := InsertTargets(targets, version, |rows|, PrimaryFirst(r.targets), OrderAt(r.targets, 0), vaults);
      TargetsKnown(targets, version, |rows|, PrimaryFirst(r.targets), OrderAt(r.targets, 0), vaults);
      var presetRow := if r.imagePresetId.Some? then Some(presets[r.imagePresetId.value]) else None;
      RoutesKnown(rows + [RouteRow(version, r.routeId, r.assetClass, presetRow)], more.value, version, routes[1..], vaults, presets);
    }
  }

  /** The connection rows there were are overwritten as the document says; nothing else of them changes. */
  ghost predicate RowsOverwritten(t: Tables, u: Tables, clientId: string, environment: string, d: Document) {
    && |t.connections| <= |u.connections|
    && forall place :: 0 <= place < |t.connections| ==>
         u.connections[place] == Overwritten(t.connections[place], clientId, environment, d.connections)
  }

  /** Whatever document is written without failing, valid or not. */
  lemma InsertAppends(t: Tables, clientId: string, environment: string, version: string, d: Document)
    returns (u: Tables, connections: Ids, vaults: Ids, presets: Ids)
    requires TablesGood(t) && InsertDocument(t, clientId, environment, version, d).Ok?
    ensures InsertDocument(t, clientId, environment, version, d) == Ok(u)
    ensures Appended(t, u, clientId, environment, version, d, connections, vaults, presets)
    ensures RowsOverwritten(t, u, clientId, environment, d)
  {
    hide KeysStay, UniqueKeys, HasKey, PrimaryFirst, RoutesWritten, Overwritten, InsertVaults, InsertPresets, InsertRoutes, UpsertAll;
    UpsertAllRows(t.connections, clientId, environment, d.connections, map[]);
    var upserted := UpsertAll(t.connections, clientId, environment, d.connections, map[]);
    connections := upserted.ids;
    assert |t.connections| <= |upserted.rows| by {
      KeysGrow(t.connections, upserted.rows);
    }
    VaultsKnown(t.vaults, version, d.vaults, connections, map[]);
    InsertVaultsAppends(t.vaults, version, d.vaults, connections, map[]);
    var inserted := InsertVaults(t.vaults, version, d.vaults, connections, map[]).value;
    vaults := inserted.ids;
    PresetsKnown(t.presets, version, d.presets, vaults, map[]);
    InsertPresetsAppends(t.presets, version, d.presets, vaults, map[]);
    var prepared := InsertPresets(t.presets, version, d.presets, vaults, map[]).value;
    presets := prepared.ids;
    RoutesKnown(t.routes, t.targets, version, d.routes, vaults, presets);
    InsertRoutesWrites(t.routes, t.targets, version, d.routes, vaults, presets);
    var routed := InsertRoutes(t.routes, t.targets, version, d.routes, vaults, presets).value;
    u := Tables(upserted.rows, inserted.rows, prepared.rows, routed.routes, routed.targets);
  }

  lemma KeysGrow(before: seq<ConnectionRow>, after: seq<ConnectionRow>)
    requires KeysStay(before, after)
    ensures |before| <= |after|
  {
  }

  // ---------------------------------------------------------------- what another version reads

  /** The same identifiers in the same places. */
  ghost predicate SameNames(a: seq<Connection>, b: seq<Connection>) {
    |a| == |b| && forall i :: 0 <= i < |a| ==> a[i].connectionId == b[i].connectionId
  }

  lemma {:induction false} UnusedRows(rows: seq<ConnectionRow>, vaults: seq<VaultRow>, version: string, from: nat)
    requires from <= |rows| && forall k :: from <= k < |rows| ==> !Uses(vaults, version, k)
    ensures ConnectionsFrom(rows, vaults, version, from) == []
    decreases |rows| - from
  {
    if from < |rows| {
      UnusedRows(rows, vaults, version, from + 1);
      assert !Uses(vaults, version, from);
    }
  }

  /** Where the same rows are used, the connections read are the same exactly when the used rows hold the same connections. */
  lemma {:induction false} ConnectionsSame(before: seq<ConnectionRow>, after: seq<ConnectionRow>, earlier: seq<VaultRow>, vaults: seq<VaultRow>,
      version: string, from: nat)
    requires from <= |before| && KeysStay(before, after)
    requires forall k: nat :: Uses(vaults, version, k) <==> Uses(earlier, version, k)
    requires forall k: nat :: Uses(earlier, version, k) ==> k < |before|
    ensures var a, b := ConnectionsFrom(after, vaults, version, from), ConnectionsFrom(before, earlier, version, from);
      && SameNames(a, b)
      && (a == b <==> forall k :: from <= k < |before| && Uses(earlier, version, k) ==> after[k].connection == before[k].connection)
    decreases |before| - from
  {
    var a, b := ConnectionsFrom(after, vaults, version, from), ConnectionsFrom(before, earlier, version, from);
    if from == |before| {
      UnusedRows(after, vaults, version, from);
    } else {
      ConnectionsSame(before, after, earlier, vaults, version, from + 1);
      ConnectionsStep(after, vaults, version, from);
      ConnectionsStep(before, earlier, version, from);
      var x, y := ConnectionsFrom(after, vaults, version, from + 1), ConnectionsFrom(before, earlier, version, from + 1);
      hide Uses, ConnectionsFrom;
      if Uses(earlier, version, from) {
        assert a == [after[from].connection] + x && b == [before[from].connection] + y;
        assert a[1..] == x && b[1..] == y && a[0] == after[from].connection && b[0] == before[from].connection;
        assert a == b <==> after[from].connection == before[from].connection && x == y;
      } else {
        assert a == x && b == y;
      }
    }
  }

  lemma ConnectionsStep(rows: seq<ConnectionRow>, vaults: seq<VaultRow>, version: string, from: nat)
    requires from < |rows|
    ensures ConnectionsFrom(rows, vaults, version, from)
      == (if Uses(vaults, version, from) then [rows[from].connection] else []) + ConnectionsFrom(rows, vaults, version, from + 1)
  {
  }

  /**
   * Writing one version leaves every other version's vaults, presets and routes as they read before, and the identifiers of
   * its connections.
   */
  lemma OtherVersionsKeep(t: Tables, clientId: string, environment: string, version: string, d: Document, other: string)
    requires TablesGood(t) && other != version
    ensures var r := InsertDocument(t, clientId, environment, version, d);
      r.Ok? ==>
        && TablesGood(r.value)
        && LoadDocument(r.value, other).vaults == LoadDocument(t, other).vaults
        && LoadDocument(r.value, other).presets == LoadDocument(t, other).presets
        && LoadDocument(r.value, other).routes == LoadDocument(t, other).routes
        && SameNames(LoadDocument(r.value, other).connections, LoadDocument(t, other).connections)
  {
    hide InsertDocument, Appended, RowsOverwritten, ConnectionsFrom, VaultsOf, PresetsOf, RoutesFrom;
    if InsertDocument(t, clientId, environment, version, d).Ok? {
      var u, connections, vaults, presets := InsertAppends(t, clientId, environment, version, d);
      AppendedIsGood(t, u, clientId, environment, version, d, connections, vaults, presets);
      AppendedElsewhere(t, u, clientId, environment, version, d, connections, vaults, presets, other);
      AppendedUses(t, u, clientId, environment, version, d, connections, vaults, presets, other);
      ConnectionsSame(t.connections, u.connections, t.vaults, u.vaults, other, 0);
    }
  }

  lemma AppendedUses(t: Tables, u: Tables, clientId: string, environment: string, version: string, d: Document,
      connections: Ids, vaults: Ids, presets: Ids, other: string)
    requires TablesGood(t) && other != version
    requires Appended(t, u, clientId, environment, version, d, connections, vaults, presets)
    ensures KeysStay(t.connections, u.connections)
    ensures forall k: nat :: Uses(u.vaults, other, k) <==> Uses(t.vaults, other, k)
    ensures forall k: nat :: Uses(t.vaults, other, k) ==> k < |t.connections|
  {
    hide KeysStay, UniqueKeys, RoutesWritten, IdsHold, VaultIdsHold, PresetIdsHold, HasKey;
    forall k: nat ensures Uses(u.vaults, other, k) <==> Uses(t.vaults, other, k) {
      if Uses(t.vaults, other, k) {
        var i :| 0 <= i < |t.vaults| && t.vaults[i].version == other && t.vaults[i].connectionRow == k;
        assert u.vaults[i] == t.vaults[i];
      }
      if Uses(u.vaults, other, k) {
        var i :| 0 <= i < |u.vaults| && u.vaults[i].version == other && u.vaults[i].connectionRow == k;
        assert i < |t.vaults| && t.vaults[i] == u.vaults[i];
      }
    }
  }

  /** No row the version uses is about to be overwritten with another connection. */
  ghost predicate Undisturbed(t: Tables, clientId: string, environment: string, d: Document, other: string) {
    forall place :: 0 <= place < |t.connections| && Uses(t.vaults, other, place) ==>
      var row := t.connections[place];
      row.clientId == clientId && row.environment == environment && Latest(d.connections, row.connection.connectionId).Some? ==>
        Latest(d.connections, row.connection.connectionId).value == row.connection
  }

  /** Another version reads the same document as before exactly when none of its connections is overwritten with another. */
  lemma OtherVersionReadsTheSame(t: Tables, clientId: string, environment: string, version: string, d: Document, other: string)
    requires TablesGood(t) && other != version
    ensures var r := InsertDocument(t, clientId, environment, version, d);
      r.Ok? ==>
        && TablesGood(r.value)
        && (LoadDocument(r.value, other) == LoadDocument(t, other) <==> Undisturbed(t, clientId, environment, d, other))
  {
    hide InsertDocument, Appended, ConnectionsFrom, VaultsOf, PresetsOf, RoutesFrom, Uses;
    if InsertDocument(t, clientId, environment, version, d).Ok? {
      OtherVersionsKeep(t, clientId, environment, version, d, other);
      var u, connections, vaults, presets := InsertAppends(t, clientId, environment, version, d);
      AppendedUses(t, u, clientId, environment, version, d, connections, vaults, presets, other);
      ConnectionsSame(t.connections, u.connections, t.vaults, u.vaults, other, 0);
      assert LoadDocument(u, other) == LoadDocument(t, other)
        <==> LoadDocument(u, other).connections == LoadDocument(t, other).connections;
    }
  }

  lemma {:induction false} LatestOfDistinct(connections: seq<Connection>, c: Connection)
    requires DistinctConnections(connections) && c in connections
    ensures Latest(connections, c.connectionId) == Some(c)
  {
    LatestIsNamed(connections[1..], c.connectionId);
    if c in connections[1..] {
      LatestOfDistinct(connections[1..], c);
    } else {
      assert forall d :: d in connections[1..] ==> d.connectionId != c.connectionId;
    }
  }

  /** If the version uses this connection's row at all, the row holds just this connection. */
  ghost predicate HeldAlready(t: Tables, clientId: string, environment: string, c: Connection, other: string) {
    forall place :: 0 <= place < |t.connections| && Uses(t.vaults, other, place) ==>
      HasKey(t.connections[place], clientId, environment, c.connectionId) ==> t.connections[place].connection == c
  }

  /**
   * Connection rows are shared. After a valid document is written, another version reads the same as before exactly when every
   * connection of the document whose row that version uses was stored just so already.
   */
  lemma SharedConnectionIsOverwritten(t: Tables, clientId: string, environment: string, version: string, d: Document,
      check: MetadataCheck, other: string)
    requires TablesGood(t) && Valid(d, check) && other != version
    ensures var r := InsertDocument(t, clientId, environment, version, d);
      && r.Ok? && TablesGood(r.value)
      && (LoadDocument(r.value, other) == LoadDocument(t, other) <==>
          forall c :: c in d.connections ==> HeldAlready(t, clientId, environment, c, other))
  {
    hide Valid, InsertDocument, Stored, Appended, Uses, LoadDocument, Undisturbed, HeldAlready;
    var u, connections, vaults, presets := InsertStores(t, clientId, environment, version, d, check);
    OtherVersionReadsTheSame(t, clientId, environment, version, d, other);
    ValidParts(d, check);
    DistinctById(d);
    UndisturbedByValid(t, clientId, environment, d, other);
  }

  lemma UndisturbedByValid(t: Tables, clientId: string, environment: string, d: Document, other: string)
    requires DistinctConnections(d.connections)
    ensures Undisturbed(t, clientId, environment, d, other) <==>
      forall c :: c in d.connections ==> HeldAlready(t, clientId, environment, c, other)
  {
    hide Uses;
    forall c | c in d.connections ensures Latest(d.connections, c.connectionId) == Some(c) {
      LatestOfDistinct(d.connections, c);
    }
    forall place | 0 <= place < |t.connections|
      ensures var latest := Latest(d.connections, t.connections[place].connection.connectionId);
        latest.Some? ==> latest.value in d.connections && latest.value.connectionId == t.connections[place].connection.connectionId
    {
      LatestIsNamed(d.connections, t.connections[place].connection.connectionId);
    }
  }

  // ---------------------------------------------------------------- an active version that changes

  /** The tables of one client's environment, and the state of every version row. */
  datatype Scope = Scope(tables: Tables, states: map<string, Lifecycle.VersionState>)

  function AfterDraft(s: Scope, clientId: string, environment: string, version: string, d: Document): Result<Scope> {
    match InsertDocument(s.tables, clientId, environment, version, d)
    case Err(code) => Err(code)
    case Ok(tables) => Ok(Scope(tables, s.states[version := Lifecycle.Draft]))
  }

  /** Activation checks the document as it is read, and writes version rows only. */
  ghost function AfterActivation(s: Scope, version: string, check: MetadataCheck): Result<Scope>
    requires Linked(s.tables)
  {
    if version !in s.states then Err("configuration-version-not-found")
    else if s.states[version] != Lifecycle.Draft then Err("configuration-version-immutable")
    else if Errors(LoadDocument(s.tables, version), check) != [] then Err("configuration-version-invalid")
    else
      Ok(s.(states := map k | k in s.states ::
        if k == version then Lifecycle.Active
        else if s.states[k] == Lifecycle.Active then Lifecycle.Superseded
        else s.states[k]))
  }

  lemma UsedConnectionIsHeld(t: Tables, clientId: string, environment: string, version: string, d: Document, check: MetadataCheck,
      c: Connection, v: Vault) returns (place: nat)
    requires TablesGood(t) && NewVersion(t, version) && Valid(d, check)
    requires c in d.connections && v in d.vaults && v.providerConnectionId == c.connectionId
    ensures var r := InsertDocument(t, clientId, environment, version, d);
      && r.Ok? && TablesGood(r.value) && place < |r.value.connections| && Uses(r.value.vaults, version, place)
      && HasKey(r.value.connections[place], clientId, environment, c.connectionId) && r.value.connections[place].connection == c
  {
    hide Valid, InsertDocument, Uses, NewVersion, RoutesWritten;
    var u, connections, vaults, presets := InsertStores(t, clientId, environment, version, d, check);
    AppendedIsGood(t, u, clientId, environment, version, d, connections, vaults, presets);
    place := connections[c.connectionId];
    UsedRows(t, u, clientId, environment, version, d, connections, vaults, presets, place);
  }

  /**
   * An active version does not keep its document. Draft, activate, then write a draft that has another connection under an
   * identifier the active version uses: the version is still active, and reads differently.
   */
  lemma LaterDraftChangesActiveVersion(s: Scope, clientId: string, environment: string, version: string, d: Document, later: string,
      e: Document, check: MetadataCheck, c: Connection, v: Vault, changed: Connection)
    requires TablesGood(s.tables) && NewVersion(s.tables, version) && later != version
    requires Valid(d, check) && Valid(e, check)
    requires c in d.connections && v in d.vaults && v.providerConnectionId == c.connectionId
    requires changed in e.connections && changed.connectionId == c.connectionId && changed != c
    ensures var drafted := AfterDraft(s, clientId, environment, version, d);
      && drafted.Ok? && Linked(drafted.value.tables)
      && var active := AfterActivation(drafted.value, version, check);
         && active.Ok? && active.value.states[version] == Lifecycle.Active && Linked(active.value.tables)
         && var after := AfterDraft(active.value, clientId, environment, later, e);
            && after.Ok? && after.value.states[version] == Lifecycle.Active && Linked(after.value.tables)
            && LoadDocument(after.value.tables, version) != LoadDocument(active.value.tables, version)
  {
    hide Valid, InsertDocument, NewVersion, Uses, LoadDocument, Errors;
    NoErrorsMeansValid(d, check);
    ReadBackPassesValidation(s.tables, clientId, environment, version, d, check);
    var place := UsedConnectionIsHeld(s.tables, clientId, environment, version, d, check, c, v);
    var t := InsertDocument(s.tables, clientId, environment, version, d).value;
    SharedConnectionIsOverwritten(t, clientId, environment, later, e, check, version);
    assert !HeldAlready(t, clientId, environment, changed, version);
  }

  /** One connection under this label, and one vault on it. */
  function Sample(name: string): Document {
    Document([Connection("storage", name, "s3", "secret", "")],
             [Vault("media", "storage", "Media", "originals", "bucket", "media/*", Permanent)], [], [])
  }

  lemma {:induction false} CharacterMissing(text: string, part: string)
    requires part != "" && part[0] !in text
    ensures !Contains(text, part)
  {
    if text != "" {
      CharacterMissing(text[1..], part);
    }
  }

  lemma SampleTemplate()
    ensures PrefixTemplate("media/*")
  {
    hide Contains;
    CharacterMissing("media/*", "..");
    CharacterMissing("media/*", "\\");
  }

  lemma SampleLabel()
    ensures Label("Media") && BucketLabel("bucket")
  {
    assert "Media"[0] in "Media" && !Blank("Media"[0]);
  }

  lemma SampleNames()
    ensures Identifier("storage") && Identifier("media") && SecretReference("secret")
  {
  }

  lemma SampleIsValid(name: string, check: MetadataCheck)
    requires Label(name) && check("").None?
    ensures Valid(Sample(name), check)
  {
    SampleTemplate();
    SampleLabel();
    SampleNames();
    hide Identifier, SecretReference, BucketLabel, Label, PrefixTemplate;
    var d := Sample(name);
    assert ValidConnection(d.connections[0], check);
    assert d.connections[0] in d.connections && ValidVault(d.vaults[0], d);
    assert |ConnectionIds(d)| == |VaultIds(d)| == 1;
  }

  /** There are such documents: it is enough to change a connection's label. */
  lemma RelabellingChangesActiveVersion(clientId: string, environment: string, check: MetadataCheck, name: string, other: string)
    requires Label(name) && Label(other) && name != other && check("").None?
    ensures var empty := Scope(Tables([], [], [], [], []), map[]);
      var drafted := AfterDraft(empty, clientId, environment, "first", Sample(name));
      && drafted.Ok? && Linked(drafted.value.tables)
      && var active := AfterActivation(drafted.value, "first", check);
         && active.Ok? && active.value.states["first"] == Lifecycle.Active && Linked(active.value.tables)
         && var after := AfterDraft(active.value, clientId, environment, "second", Sample(other));
            && after.Ok? && after.value.states["first"] == Lifecycle.Active && Linked(after.value.tables)
            && LoadDocument(after.value.tables, "first") != LoadDocument(active.value.tables, "first")
  {
    SampleIsValid(name, check);
    SampleIsValid(other, check);
    var d, e := Sample(name), Sample(other);
    hide Valid, AfterDraft, AfterActivation, LoadDocument, Label;
    LaterDraftChangesActiveVersion(Scope(Tables([], [], [], [], []), map[]), clientId, environment, "first", d, "second", e, check,
      d.connections[0], d.vaults[0], e.connections[0]);
  }
}
