/** The loops that write a document. */
module ConfigurationWriter {
  import opened Common
  import opened ConfigurationDocument
  import opened ConfigurationTables
  import opened ConfigurationRoundTrip
  import opened ConfigurationPersistence

  /** The configuration tables, written row by row inside one transaction. */
  class ConfigurationRows {
    var connections: seq<ConnectionRow>
    var vaults: seq<VaultRow>
    var presets: seq<PresetRow>
    var routes: seq<RouteRow>
    var targets: seq<TargetRow>

    ghost function Rows(): Tables
      reads this
    {
      Tables(connections, vaults, presets, routes, targets)
    }

    constructor ()
      ensures Rows() == Tables([], [], [], [], [])
    {
      connections, vaults, presets, routes, targets := [], [], [], [], [];
    }

    method UpsertProviderConnections(clientId: string, environment: string, list: seq<Connection>) returns (ids: Ids)
      modifies this`connections
      ensures Upserted(connections, ids) == UpsertAll(old(connections), clientId, environment, list, map[])
    {
      ids := map[];
      var i := 0;
      while i < |list|
        invariant 0 <= i <= |list|
        invariant UpsertAll(old(connections), clientId, environment, list, map[])
          == UpsertAll(connections, clientId, environment, list[i..], ids)
      {
        var c := list[i];
        assert list[i..][1..] == list[i + 1..];
        var found := RowOf(connections, clientId, environment, c.connectionId, |connections|);
        match found {
          case Some(k) =>
            connections := connections[k := ConnectionRow(clientId, environment, c)];
            ids := ids[c.connectionId := k];
          case None =>
            ids := ids[c.connectionId := |connections|];
            connections := connections + [ConnectionRow(clientId, environment, c)];
        }
        i := i + 1;
      }
    }

    method InsertVaultRows(version: string, list: seq<Vault>, connectionIds: Ids) returns (r: Result<Ids>)
      modifies this`vaults
      ensures match InsertVaults(old(vaults), version, list, connectionIds, map[])
        case Err(code) => r == Err(code)
        case Ok(done) => r == Ok(done.ids) && vaults == done.rows
    {
      var ids: Ids := map[];
      var i := 0;
      while i < |list|
        invariant 0 <= i <= |list|
        invariant InsertVaults(old(vaults), version, list, connectionIds, map[])
          == InsertVaults(vaults, version, list[i..], connectionIds, ids)
      {
        var v := list[i];
        assert list[i..][1..] == list[i + 1..];
        if v.providerConnectionId !in connectionIds {
          return Err("unknown-provider-connection");
        }
        ids := ids[v.vaultId := |vaults|];
        vaults := vaults + [VaultRowFor(version, v, connectionIds[v.providerConnectionId])];
        i := i + 1;
      }
      return Ok(ids);
    }

    method InsertPresetRows(version: string, list: seq<Preset>, vaultIds: Ids) returns (r: Result<Ids>)
      modifies this`presets
      ensures match InsertPresets(old(presets), version, list, vaultIds, map[])
        case Err(code) => r == Err(code)
        case Ok(done) => r == Ok(done.ids) && presets == done.rows
    {
      var ids: Ids := map[];
      var i := 0;
      while i < |list|
        invariant 0 <= i <= |list|
        invariant InsertPresets(old(presets), version, list, vaultIds, map[])
          == InsertPresets(presets, version, list[i..], vaultIds, ids)
      {
        var p := list[i];
        assert list[i..][1..] == list[i + 1..];
        if p.targetVaultId !in vaultIds {
          return Err("unknown-image-preset-vault");
        }
        ids := ids[p.presetId := |presets|];
        presets := presets + [PresetRow(version, p.presetId, vaultIds[p.targetVaultId], p.widths, p.outputFormat, p.quality, p.fit)];
        i := i + 1;
      }
      return Ok(ids);
    }

    method InsertTargetRows(version: string, routeRow: nat, list: seq<Target>, first: nat, vaultIds: Ids) returns (r: Result<()>)
      modifies this`targets
      ensures match InsertTargets(old(targets), version, routeRow, list, first, vaultIds)
        case Err(code) => r == Err(code)
        case Ok(done) => r == Ok(()) && targets == done
    {
      var i := 0;
      while i < |list|
        invariant 0 <= i <= |list|
        invariant InsertTargets(old(targets), version, routeRow, list, first, vaultIds)
          == InsertTargets(targets, version, routeRow, list[i..], first + i, vaultIds)
      {
        assert list[i..][1..] == list[i + 1..];
        if list[i].vaultId !in vaultIds {
          return Err("unknown-route-vault");
        }
        targets := targets + [TargetRow(version, routeRow, vaultIds[list[i].vaultId], list[i].role, first + i)];
        i := i + 1;
      }
      return Ok(());
    }

    method InsertRouteRows(version: string, list: seq<Route>, vaultIds: Ids, presetIds: Ids) returns (r: Result<()>)
      modifies this`routes, this`targets
      ensures match InsertRoutes(old(routes), old(targets), version, list, vaultIds, presetIds)
        case Err(code) => r == Err(code)
        case Ok(done) => r == Ok(()) && Routed(routes, targets) == done
    {
      hide InsertTargets, PrimaryFirst, OrderAt;
      var i := 0;
      while i < |list|
        invariant 0 <= i <= |list|
        invariant InsertRoutes(old(routes), old(targets), version, list, vaultIds, presetIds)
          == InsertRoutes(routes, targets, version, list[i..], vaultIds, presetIds)
      {
        var route := list[i];
        assert list[i..][1..] == list[i + 1..];
        var presetRow: Option<nat> := None;
        if route.imagePresetId.Some? {
          if route.imagePresetId.value !in presetIds {
            return Err("unknown-route-image-preset");
          }
          presetRow := Some(presetIds[route.imagePresetId.value]);
        }
        var placed := InsertTargetRows(version, |routes|, PrimaryFirst(route.targets), OrderAt(route.targets, 0), vaultIds);
        if placed.Err? {
          return Err(placed.code);
        }
        routes := routes + [RouteRow(version, route.routeId, route.assetClass, presetRow)];
        i := i + 1;
      }
      return Ok(());
    }

    /** Writes everything or, when a reference is unknown, nothing: the transaction rolls back. */
    method InsertDocument(clientId: string, environment: string, version: string, d: Document) returns (r: Result<()>)
      modifies this
      ensures match ConfigurationTables.InsertDocument(old(Rows()), clientId, environment, version, d)
        case Err(code) => r == Err(code) && Rows() == old(Rows())
        case Ok(after) => r == Ok(()) && Rows() == after
    {
      var before := (connections, vaults, presets, routes, targets);
      r := InsertAll(clientId, environment, version, d);
      if r.Err? {
        connections, vaults, presets, routes, targets := before.0, before.1, before.2, before.3, before.4;
      }
    }

    method InsertAll(clientId: string, environment: string, version: string, d: Document) returns (r: Result<()>)
      modifies this
      ensures match ConfigurationTables.InsertDocument(old(Rows()), clientId, environment, version, d)
        case Err(code) => r == Err(code)
        case Ok(after) => r == Ok(()) && Rows() == after
    {
      var connectionIds := UpsertProviderConnections(clientId, environment, d.connections);
      var vaultIds := InsertVaultRows(version, d.vaults, connectionIds);
      if vaultIds.Err? {
        return Err(vaultIds.code);
      }
      var presetIds := InsertPresetRows(version, d.presets, vaultIds.value);
      if presetIds.Err? {
        return Err(presetIds.code);
      }
      r := InsertRouteRows(version, d.routes, vaultIds.value, presetIds.value);
    }
  }

  // ---------------------------------------------------------------- the other versions

  lemma {:induction false} PresetsKeepNames(rows: seq<PresetRow>, before: seq<VaultRow>, after: seq<VaultRow>, version: string)
    requires |before| <= |after| && after[..|before|] == before && forall k :: 0 <= k < |rows| ==> rows[k].vaultRow < |before|
    ensures PresetsOf(rows, after, version) == PresetsOf(rows, before, version)
  {
    if rows != [] {
      assert after[rows[0].vaultRow] == after[..|before|][rows[0].vaultRow];
      PresetsKeepNames(rows[1..], before, after, version);
    }
  }

  /** Target rows of old routes read the same while the vault table grows. */
  lemma TargetsKeepNames(rows: seq<TargetRow>, before: seq<VaultRow>, after: seq<VaultRow>)
    requires |before| <= |after| && after[..|before|] == before && forall r :: r in rows ==> r.vaultRow < |before|
    ensures AsTargets(rows, after) == AsTargets(rows, before)
  {
    forall i | 0 <= i < |rows|
      ensures after[rows[i].vaultRow].vaultId == before[rows[i].vaultRow].vaultId
    {
      assert after[rows[i].vaultRow] == after[..|before|][rows[i].vaultRow];
    }
  }

  /** The tables only grow, and the target rows of old routes stay as they are. */
  ghost predicate Grown(t: Tables, u: Tables) {
    && Linked(t) && Linked(u)
    && |t.vaults| <= |u.vaults| && u.vaults[..|t.vaults|] == t.vaults
    && |t.presets| <= |u.presets| && u.presets[..|t.presets|] == t.presets
    && |t.routes| <= |u.routes| && u.routes[..|t.routes|] == t.routes
    && forall k :: 0 <= k < |t.routes| ==> RowsOf(u.targets, k) == RowsOf(t.targets, k)
  }

  lemma {:induction false} RoutesStay(t: Tables, u: Tables, version: string, from: nat)
    requires Grown(t, u) && from <= |t.routes| && forall k :: |t.routes| <= k < |u.routes| ==> u.routes[k].version != version
    ensures RoutesFrom(u.routes, u.targets, u.vaults, u.presets, version, from)
      == RoutesFrom(t.routes, t.targets, t.vaults, t.presets, version, from)
    decreases |t.routes| - from
  {
    hide RowsOf, AsTargets;
    if from < |t.routes| {
      RoutesStay(t, u, version, from + 1);
      assert u.routes[from] == u.routes[..|t.routes|][from];
      TargetsKeepNames(RowsOf(t.targets, from), t.vaults, u.vaults);
      if t.routes[from].presetRow.Some? {
        assert u.presets[t.routes[from].presetRow.value] == u.presets[..|t.presets|][t.routes[from].presetRow.value];
      }
    } else {
      OldRoutesSkipped(u.routes, u.targets, u.vaults, u.presets, version, from, |u.routes|);
    }
  }

  lemma VaultsElsewhere(t: Tables, u: Tables, version: string, list: seq<Vault>, ids: Ids, other: string)
    requires Linked(t) && Linked(u) && KeysStay(t.connections, u.connections) && other != version
    requires (forall v :: v in list ==> v.providerConnectionId in ids) && u.vaults == t.vaults + NewVaultRows(version, list, ids)
    ensures VaultsOf(u.vaults, u.connections, other) == VaultsOf(t.vaults, t.connections, other)
  {
    hide KeysStay, VaultsOf;
    var added := NewVaultRows(version, list, ids);
    VaultsKeepNames(t.vaults, t.connections, u.connections, other);
    VaultsOfGrown(t.vaults, added, u.vaults, u.connections, other);
    NoVaults(added, u.connections, other);
  }

  lemma PresetsElsewhere(t: Tables, u: Tables, version: string, list: seq<Preset>, ids: Ids, other: string)
    requires Linked(t) && Linked(u) && |t.vaults| <= |u.vaults| && u.vaults[..|t.vaults|] == t.vaults && other != version
    requires (forall p :: p in list ==> p.targetVaultId in ids) && u.presets == t.presets + NewPresetRows(version, list, ids)
    ensures PresetsOf(u.presets, u.vaults, other) == PresetsOf(t.presets, t.vaults, other)
  {
    hide PresetsOf;
    var added := NewPresetRows(version, list, ids);
    PresetsKeepNames(t.presets, t.vaults, u.vaults, other);
    PresetsOfGrown(t.presets, added, u.presets, u.vaults, other);
    NoPresets(added, u.vaults, other);
  }

  lemma RoutesElsewhere(t: Tables, u: Tables, version: string, list: seq<Route>, vaults: Ids, presets: Ids, other: string)
    requires Grown(t, u) && other != version && TargetsLinked(t.targets, |t.routes|)
    requires RoutesWritten(t.routes, t.targets, Routed(u.routes, u.targets), version, list, vaults, presets)
    ensures RoutesFrom(u.routes, u.targets, u.vaults, u.presets, other, 0)
      == RoutesFrom(t.routes, t.targets, t.vaults, t.presets, other, 0)
  {
    hide RowsOf, RouteRowFor, PrimaryFirst;
    forall k | |t.routes| <= k < |u.routes|
      ensures u.routes[k].version == version
    {
      var i := k - |t.routes|;
      assert RouteWritten(Routed(u.routes, u.targets), |t.routes| + i, version, list[i], vaults, presets);
      RouteRowVersion(version, list[i], presets);
    }
    RoutesStay(t, u, other, 0);
  }

  lemma AppendedElsewhere(t: Tables, u: Tables, clientId: string, environment: string, version: string, d: Document,
      connections: Ids, vaults: Ids, presets: Ids, other: string)
    requires TablesGood(t) && TablesGood(u) && other != version
    requires Appended(t, u, clientId, environment, version, d, connections, vaults, presets)
    ensures VaultsOf(u.vaults, u.connections, other) == VaultsOf(t.vaults, t.connections, other)
    ensures PresetsOf(u.presets, u.vaults, other) == PresetsOf(t.presets, t.vaults, other)
    ensures RoutesFrom(u.routes, u.targets, u.vaults, u.presets, other, 0)
      == RoutesFrom(t.routes, t.targets, t.vaults, t.presets, other, 0)
  {
    hide UniqueKeys, IdsHold, PresetIdsHold, VaultIdsHold, KeysStay, RowsOf, RouteWritten, NewVaultRows, NewPresetRows,
      VaultsOf, PresetsOf, RoutesFrom;
    VaultsElsewhere(t, u, version, d.vaults, connections, other);
    PresetsElsewhere(t, u, version, d.presets, vaults, other);
    RoutesElsewhere(t, u, version, d.routes, vaults, presets, other);
  }

  lemma RouteRowVersion(version: string, r: Route, presets: Ids)
    requires r.imagePresetId.Some? ==> r.imagePresetId.value in presets
    ensures RouteRowFor(version, r, presets).version == version
  {
  }
}
