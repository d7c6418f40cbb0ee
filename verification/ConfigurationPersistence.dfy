/** The configuration round trip as a whole. */
module ConfigurationPersistence {
  import opened Common
  import opened ConfigurationDocument
  import opened ConfigurationTables
  import opened ConfigurationRoundTrip

  /** Foreign keys hold, and a connection has one row per client and environment. */
  ghost predicate TablesGood(t: Tables) {
    Linked(t) && UniqueKeys(t.connections)
  }

  ghost predicate NewVersion(t: Tables, version: string) {
    && (forall k :: 0 <= k < |t.vaults| ==> t.vaults[k].version != version)
    && (forall k :: 0 <= k < |t.presets| ==> t.presets[k].version != version)
    && (forall k :: 0 <= k < |t.routes| ==> t.routes[k].version != version)
  }

  /** What every write that does not fail has added, and what it left as it was. */
  ghost predicate Appended(t: Tables, u: Tables, clientId: string, environment: string, version: string, d: Document,
      connections: Ids, vaults: Ids, presets: Ids)
  {
    && UniqueKeys(u.connections) && KeysStay(t.connections, u.connections)
    && IdsHold(connections, u.connections, clientId, environment)
    && (forall v :: v in d.vaults ==> v.providerConnectionId in connections)
    && u.vaults == t.vaults + NewVaultRows(version, d.vaults, connections) && VaultIdsHold(vaults, u.vaults)
    && (forall p :: p in d.presets ==> p.targetVaultId in vaults)
    && u.presets == t.presets + NewPresetRows(version, d.presets, vaults) && PresetIdsHold(presets, u.presets)
    && TargetsLinked(t.targets, |t.routes|)
    && RoutesWritten(t.routes, t.targets, Routed(u.routes, u.targets), version, d.routes, vaults, presets)
  }

  /** Besides, every connection of a document with distinct identifiers is in its row. */
  ghost predicate Stored(t: Tables, u: Tables, clientId: string, environment: string, version: string, d: Document,
      connections: Ids, vaults: Ids, presets: Ids)
  {
    Appended(t, u, clientId, environment, version, d, connections, vaults, presets) && Written(d.connections, u.connections, connections)
  }

  lemma DistinctById(d: Document)
    requires Unique(ConnectionIds(d))
    ensures DistinctConnections(d.connections)
  {
    var ids := ConnectionIds(d);
    forall i, j | 0 <= i < j < |d.connections|
      ensures d.connections[i].connectionId != d.connections[j].connectionId
    {
      assert ids[i] != ids[j];
    }
  }

  /** Writing a valid document never fails. */
  lemma InsertStores(t: Tables, clientId: string, environment: string, version: string, d: Document, check: MetadataCheck)
    returns (u: Tables, connections: Ids, vaults: Ids, presets: Ids)
    requires TablesGood(t) && Valid(d, check)
    ensures InsertDocument(t, clientId, environment, version, d) == Ok(u)
    ensures Stored(t, u, clientId, environment, version, d, connections, vaults, presets)
    ensures Appended(t, u, clientId, environment, version, d, connections, vaults, presets)
  {
    hide Valid, ValidConnection, ValidVault, ValidPreset, ValidRoute, Unique, KeysStay, UniqueKeys, HasKey, PrimaryFirst, RoutesWritten;
    ValidParts(d, check);
    DistinctById(d);
    assert [] + d.connections == d.connections;
    UpsertAllWrites(t.connections, clientId, environment, d.connections, map[], []);
    var upserted := UpsertAll(t.connections, clientId, environment, d.connections, map[]);
    connections := upserted.ids;
    KnownConnections(d, check, connections);
    InsertVaultsAppends(t.vaults, version, d.vaults, connections, map[]);
    var inserted := InsertVaults(t.vaults, version, d.vaults, connections, map[]).value;
    vaults := inserted.ids;
    KnownVaultsForAll(d, check, vaults);
    InsertPresetsAppends(t.presets, version, d.presets, vaults, map[]);
    var prepared := InsertPresets(t.presets, version, d.presets, vaults, map[]).value;
    presets := prepared.ids;
    KnownForRoutes(d, check, vaults, presets);
    InsertRoutesWrites(t.routes, t.targets, version, d.routes, vaults, presets);
    var routed := InsertRoutes(t.routes, t.targets, version, d.routes, vaults, presets).value;
    u := Tables(upserted.rows, inserted.rows, prepared.rows, routed.routes, routed.targets);
  }

  lemma ValidParts(d: Document, check: MetadataCheck)
    requires Valid(d, check)
    ensures Unique(ConnectionIds(d))
  {
  }

  lemma KnownConnections(d: Document, check: MetadataCheck, ids: Ids)
    requires Valid(d, check) && ids.Keys == NamesOf(d.connections)
    ensures forall v :: v in d.vaults ==> v.providerConnectionId in ids
  {
    forall v | v in d.vaults
      ensures v.providerConnectionId in ids
    {
      assert ValidVault(v, d);
      var c :| c in d.connections && c.connectionId == v.providerConnectionId;
    }
  }

  lemma KnownVaultsForAll(d: Document, check: MetadataCheck, ids: Ids)
    requires Valid(d, check) && forall v :: v in d.vaults ==> v.vaultId in ids
    ensures forall p :: p in d.presets ==> p.targetVaultId in ids
  {
    forall p | p in d.presets
      ensures p.targetVaultId in ids
    {
      assert ValidPreset(p, d);
    }
  }

  lemma KnownForRoutes(d: Document, check: MetadataCheck, vaults: Ids, presets: Ids)
    requires Valid(d, check)
    requires (forall v :: v in d.vaults ==> v.vaultId in vaults) && (forall p :: p in d.presets ==> p.presetId in presets)
    ensures forall r :: r in d.routes ==> RouteKnown(r, vaults, presets)
  {
    forall r | r in d.routes
      ensures RouteKnown(r, vaults, presets)
    {
      assert ValidRoute(r, d);
      KnownTargets(r, vaults);
    }
  }

  // ---------------------------------------------------------------- the tables stay good

  lemma {:induction false} RowsOfMember(rows: seq<TargetRow>, r: TargetRow)
    requires r in rows
    ensures r in RowsOf(rows, r.routeRow)
  {
    if rows[0] != r {
      assert rows == [rows[0]] + rows[1..];
      RowsOfMember(rows[1..], r);
    }
  }

  lemma TargetVaultsLinked(t: Tables, u: Tables, version: string, d: Document, vaults: Ids, presets: Ids)
    requires RoutesWritten(t.routes, t.targets, Routed(u.routes, u.targets), version, d.routes, vaults, presets)
    requires VaultIdsHold(vaults, u.vaults) && |t.vaults| <= |u.vaults| && forall r :: r in t.targets ==> r.vaultRow < |t.vaults|
    ensures forall r :: r in u.targets ==> r.vaultRow < |u.vaults|
  {
    hide PrimaryFirst, OrderAt;
    forall r | r in u.targets
      ensures r.vaultRow < |u.vaults|
    {
      RowsOfMember(u.targets, r);
      if r.routeRow < |t.routes| {
        assert r in RowsOf(t.targets, r.routeRow);
      } else {
        var i := r.routeRow - |t.routes|;
        assert RouteWritten(Routed(u.routes, u.targets), |t.routes| + i, version, d.routes[i], vaults, presets);
        TargetRowsRead(version, r.routeRow, d.routes[i], vaults, u.vaults);
      }
    }
  }

  lemma AppendedIsGood(t: Tables, u: Tables, clientId: string, environment: string, version: string, d: Document,
      connections: Ids, vaults: Ids, presets: Ids)
    requires TablesGood(t) && Appended(t, u, clientId, environment, version, d, connections, vaults, presets)
    ensures TablesGood(u)
  {
    hide HasKey, RowsOf, PrimaryFirst, UniqueKeys;
    TargetVaultsLinked(t, u, version, d, vaults, presets);
    forall k | 0 <= k < |u.routes| && u.routes[k].presetRow.Some?
      ensures u.routes[k].presetRow.value < |u.presets|
    {
      if k < |t.routes| {
        assert u.routes[k] == u.routes[..|t.routes|][k];
      } else {
        var i := k - |t.routes|;
        assert RouteWritten(Routed(u.routes, u.targets), |t.routes| + i, version, d.routes[i], vaults, presets);
      }
    }
    forall k | 0 <= k < |u.vaults|
      ensures u.vaults[k].connectionRow < |u.connections|
    {
      if k >= |t.vaults| {
        assert d.vaults[k - |t.vaults|] in d.vaults;
      }
    }
    forall k | 0 <= k < |u.presets|
      ensures u.presets[k].vaultRow < |u.vaults|
    {
      if k >= |t.presets| {
        assert d.presets[k - |t.presets|] in d.presets;
      }
    }
  }

  // ---------------------------------------------------------------- reading back

  predicate Uses(vaults: seq<VaultRow>, version: string, place: nat) {
    exists k :: 0 <= k < |vaults| && vaults[k].version == version && vaults[k].connectionRow == place
  }

  lemma {:induction false} ConnectionsMember(rows: seq<ConnectionRow>, vaults: seq<VaultRow>, version: string, from: nat, c: Connection)
    requires from <= |rows|
    ensures c in ConnectionsFrom(rows, vaults, version, from)
      <==> exists k :: from <= k < |rows| && Uses(vaults, version, k) && rows[k].connection == c
    decreases |rows| - from
  {
    if from < |rows| {
      ConnectionsMember(rows, vaults, version, from + 1, c);
      assert Uses(vaults, version, from) <==>
        exists k :: 0 <= k < |vaults| && vaults[k].version == version && vaults[k].connectionRow == from;
    }
  }

  lemma {:induction false} ConnectionsDistinct(rows: seq<ConnectionRow>, vaults: seq<VaultRow>, version: string, from: nat)
    requires from <= |rows|
    requires forall i, j :: from <= i < j < |rows| && Uses(vaults, version, i) && Uses(vaults, version, j) ==>
      rows[i].connection.connectionId != rows[j].connection.connectionId
    ensures DistinctConnections(ConnectionsFrom(rows, vaults, version, from))
    decreases |rows| - from
  {
    if from < |rows| {
      var rest := ConnectionsFrom(rows, vaults, version, from + 1);
      ConnectionsDistinct(rows, vaults, version, from + 1);
      if Uses(vaults, version, from) {
        forall c | c in rest
          ensures c.connectionId != rows[from].connection.connectionId
        {
          ConnectionsMember(rows, vaults, version, from + 1, c);
        }
      }
    }
  }

  /** `loaded` is `d` up to the order of connections, unused connections, and primary targets coming first. */
  ghost predicate SameDocument(loaded: Document, d: Document) {
    && loaded.vaults == d.vaults && loaded.presets == d.presets && loaded.routes == AllAsLoaded(d.routes)
    && DistinctConnections(loaded.connections)
    && forall c :: c in loaded.connections <==> c in d.connections && exists v :: v in d.vaults && v.providerConnectionId == c.connectionId
  }

  lemma UsedRows(t: Tables, u: Tables, clientId: string, environment: string, version: string, d: Document,
      connections: Ids, vaults: Ids, presets: Ids, place: nat)
    requires TablesGood(t) && NewVersion(t, version) && Stored(t, u, clientId, environment, version, d, connections, vaults, presets)
    ensures Uses(u.vaults, version, place) <==> exists v :: v in d.vaults && connections[v.providerConnectionId] == place
  {
    hide KeysStay, UniqueKeys, RoutesWritten, IdsHold, Written, VaultIdsHold, PresetIdsHold;
    var n := |t.vaults|;
    if Uses(u.vaults, version, place) {
      var k :| 0 <= k < |u.vaults| && u.vaults[k].version == version && u.vaults[k].connectionRow == place;
      assert k >= n;
      assert d.vaults[k - n] in d.vaults;
    }
    if v :| v in d.vaults && connections[v.providerConnectionId] == place {
      var i :| 0 <= i < |d.vaults| && d.vaults[i] == v;
      assert u.vaults[n + i].connectionRow == place && u.vaults[n + i].version == version;
    }
  }

  lemma ConnectionsRead(t: Tables, u: Tables, clientId: string, environment: string, version: string, d: Document,
      connections: Ids, vaults: Ids, presets: Ids, check: MetadataCheck)
    requires TablesGood(t) && NewVersion(t, version) && Valid(d, check)
    requires Stored(t, u, clientId, environment, version, d, connections, vaults, presets)
    ensures var loaded := ConnectionsFrom(u.connections, u.vaults, version, 0);
      && DistinctConnections(loaded)
      && forall c :: c in loaded <==> c in d.connections && exists v :: v in d.vaults && v.providerConnectionId == c.connectionId
  {
    hide Valid, KeysStay, RoutesWritten, VaultIdsHold, PresetIdsHold, Uses, ConnectionsFrom;
    forall place: nat
      ensures Uses(u.vaults, version, place) <==> exists v :: v in d.vaults && connections[v.providerConnectionId] == place
    {
      UsedRows(t, u, clientId, environment, version, d, connections, vaults, presets, place);
    }
    ConnectionsDistinct(u.connections, u.vaults, version, 0);
    forall c
      ensures c in ConnectionsFrom(u.connections, u.vaults, version, 0)
        <==> c in d.connections && exists v :: v in d.vaults && v.providerConnectionId == c.connectionId
    {
      ConnectionsMember(u.connections, u.vaults, version, 0, c);
      UsedConnection(t, u, clientId, environment, version, d, connections, vaults, presets, check, c);
    }
  }

  lemma UsedConnection(t: Tables, u: Tables, clientId: string, environment: string, version: string, d: Document,
      connections: Ids, vaults: Ids, presets: Ids, check: MetadataCheck, c: Connection)
    requires TablesGood(t) && Valid(d, check) && Stored(t, u, clientId, environment, version, d, connections, vaults, presets)
    requires forall place: nat ::
      Uses(u.vaults, version, place) <==> exists v :: v in d.vaults && connections[v.providerConnectionId] == place
    ensures (exists k :: 0 <= k < |u.connections| && Uses(u.vaults, version, k) && u.connections[k].connection == c)
      <==> c in d.connections && exists v :: v in d.vaults && v.providerConnectionId == c.connectionId
  {
    hide KeysStay, RoutesWritten, VaultIdsHold, PresetIdsHold, Uses, ConnectionsFrom, Unique, ValidConnection, ValidPreset, ValidRoute;
    if k :| 0 <= k < |u.connections| && Uses(u.vaults, version, k) && u.connections[k].connection == c {
      var v :| v in d.vaults && connections[v.providerConnectionId] == k;
      assert ValidVault(v, d);
      var named :| named in d.connections && named.connectionId == v.providerConnectionId;
      assert u.connections[k].connection == named;
    }
    if c in d.connections {
      if v :| v in d.vaults && v.providerConnectionId == c.connectionId {
        var k := connections[c.connectionId];
        assert Uses(u.vaults, version, k) && u.connections[k].connection == c;
      }
    }
  }

  lemma VaultsRead(t: Tables, u: Tables, clientId: string, environment: string, version: string, d: Document,
      connections: Ids, vaults: Ids, presets: Ids)
    requires TablesGood(u) && NewVersion(t, version)
    requires Stored(t, u, clientId, environment, version, d, connections, vaults, presets)
    ensures VaultsOf(u.vaults, u.connections, version) == d.vaults
  {
    hide UniqueKeys, RoutesWritten, Written, PresetIdsHold, VaultIdsHold, KeysStay, NewVaultRows, VaultsOf;
    VaultsOfGrown(t.vaults, NewVaultRows(version, d.vaults, connections), u.vaults, u.connections, version);
    NoVaults(t.vaults, u.connections, version);
    NewVaultsRead(version, d.vaults, connections, u.connections);
  }

  lemma PresetsRead(t: Tables, u: Tables, clientId: string, environment: string, version: string, d: Document,
      connections: Ids, vaults: Ids, presets: Ids)
    requires TablesGood(u) && NewVersion(t, version)
    requires Stored(t, u, clientId, environment, version, d, connections, vaults, presets)
    ensures PresetsOf(u.presets, u.vaults, version) == d.presets
  {
    hide UniqueKeys, RoutesWritten, Written, PresetIdsHold, KeysStay, NewVaultRows, NewPresetRows, PresetsOf, IdsHold;
    PresetsOfGrown(t.presets, NewPresetRows(version, d.presets, vaults), u.presets, u.vaults, version);
    NoPresets(t.presets, u.vaults, version);
    NewPresetsRead(version, d.presets, vaults, u.vaults);
  }

  lemma RoutesRead(t: Tables, u: Tables, clientId: string, environment: string, version: string, d: Document,
      connections: Ids, vaults: Ids, presets: Ids)
    requires TablesGood(t) && TablesGood(u) && NewVersion(t, version)
    requires Stored(t, u, clientId, environment, version, d, connections, vaults, presets)
    ensures RoutesFrom(u.routes, u.targets, u.vaults, u.presets, version, 0) == AllAsLoaded(d.routes)
  {
    hide UniqueKeys, KeysStay, IdsHold, Written, RouteWritten, RowsOf;
    forall k | 0 <= k < |t.routes|
      ensures u.routes[k].version != version
    {
      assert u.routes[k] == u.routes[..|t.routes|][k];
    }
    OldRoutesSkipped(u.routes, u.targets, u.vaults, u.presets, version, 0, |t.routes|);
    NewRoutesRead(t.routes, t.targets, Routed(u.routes, u.targets), version, d.routes, u.vaults, vaults, presets, u.presets, 0);
    assert AllAsLoaded(d.routes)[0..] == AllAsLoaded(d.routes);
  }

  /** A valid document that is written under a new version reads back as the same document. */
  lemma WrittenDocumentReadsBack(t: Tables, clientId: string, environment: string, version: string, d: Document, check: MetadataCheck)
    requires TablesGood(t) && NewVersion(t, version) && Valid(d, check)
    ensures var r := InsertDocument(t, clientId, environment, version, d);
      r.Ok? && TablesGood(r.value) && SameDocument(LoadDocument(r.value, version), d)
  {
    hide Valid, InsertDocument, Stored, Appended, NewVersion;
    var u, connections, vaults, presets := InsertStores(t, clientId, environment, version, d, check);
    AppendedIsGood(t, u, clientId, environment, version, d, connections, vaults, presets);
    ConnectionsRead(t, u, clientId, environment, version, d, connections, vaults, presets, check);
    VaultsRead(t, u, clientId, environment, version, d, connections, vaults, presets);
    PresetsRead(t, u, clientId, environment, version, d, connections, vaults, presets);
    RoutesRead(t, u, clientId, environment, version, d, connections, vaults, presets);
  }
}
