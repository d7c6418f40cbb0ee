/** Writing a document to its tables and reading it. */
module ConfigurationTables {
  // A row's place in its table stands for its identifier; connections are shared by all versions of a client's
  // environment and updated in place.

  import opened Common
  import opened ConfigurationDocument

  datatype ConnectionRow = ConnectionRow(clientId: string, environment: string, connection: Connection)

  datatype VaultRow = VaultRow(
    version: string, vaultId: string, connectionRow: nat, displayLabel: string, purpose: string,
    bucketLabel: string, prefixTemplate: string, retention: Retention)

  datatype PresetRow = PresetRow(
    version: string, presetId: string, vaultRow: nat, widths: seq<int>, outputFormat: string, quality: int, fit: string)

  datatype RouteRow = RouteRow(version: string, routeId: string, assetClass: string, presetRow: Option<nat>)

  datatype TargetRow = TargetRow(version: string, routeRow: nat, vaultRow: nat, role: Role, order: nat)

  datatype Tables = Tables(
    connections: seq<ConnectionRow>, vaults: seq<VaultRow>, presets: seq<PresetRow>,
    routes: seq<RouteRow>, targets: seq<TargetRow>)

  type Ids = map<string, nat>

  // ---------------------------------------------------------------- writing

  predicate HasKey(row: ConnectionRow, clientId: string, environment: string, connectionId: string) {
    row.clientId == clientId && row.environment == environment && row.connection.connectionId == connectionId
  }

  /** The row of a connection among the first `n`. */
  function RowOf(rows: seq<ConnectionRow>, clientId: string, environment: string, connectionId: string, n: nat): (found: Option<nat>)
    requires n <= |rows|
    ensures found.Some? ==> found.value < n && HasKey(rows[found.value], clientId, environment, connectionId)
    ensures found.None? ==> forall k :: 0 <= k < n ==> !HasKey(rows[k], clientId, environment, connectionId)
  {
    if n == 0 then None
    else if HasKey(rows[n - 1], clientId, environment, connectionId) then Some(n - 1)
    else RowOf(rows, clientId, environment, connectionId, n - 1)
  }

  datatype Upserted = Upserted(rows: seq<ConnectionRow>, ids: Ids)

  function Upsert(rows: seq<ConnectionRow>, clientId: string, environment: string, c: Connection, ids: Ids): Upserted {
    var row := ConnectionRow(clientId, environment, c);
    match RowOf(rows, clientId, environment, c.connectionId, |rows|)
    case Some(k) => Upserted(rows[k := row], ids[c.connectionId := k])
    case None => Upserted(rows + [row], ids[c.connectionId := |rows|])
  }

  function UpsertAll(rows: seq<ConnectionRow>, clientId: string, environment: string, connections: seq<Connection>, ids: Ids): Upserted
    decreases |connections|
  {
    if connections == [] then Upserted(rows, ids)
    else
      var u := Upsert(rows, clientId, environment, connections[0], ids);
      UpsertAll(u.rows, clientId, environment, connections[1..], u.ids)
  }

  datatype Inserted<R> = Inserted(rows: seq<R>, ids: Ids)

  function VaultRowFor(version: string, v: Vault, connectionRow: nat): VaultRow {
    VaultRow(version, v.vaultId, connectionRow, v.displayLabel, v.purpose, v.bucketLabel, v.prefixTemplate, v.retention)
  }

  function InsertVaults(rows: seq<VaultRow>, version: string, vaults: seq<Vault>, connections: Ids, ids: Ids): Result<Inserted<VaultRow>>
    decreases |vaults|
  {
    if vaults == [] then Ok(Inserted(rows, ids))
    else
      var v := vaults[0];
      if v.providerConnectionId !in connections then Err("unknown-provider-connection")
      else
        InsertVaults(rows + [VaultRowFor(version, v, connections[v.providerConnectionId])], version, vaults[1..], connections,
          ids[v.vaultId := |rows|])
  }

  function InsertPresets(rows: seq<PresetRow>, version: string, presets: seq<Preset>, vaults: Ids, ids: Ids): Result<Inserted<PresetRow>>
    decreases |presets|
  {
    if presets == [] then Ok(Inserted(rows, ids))
    else
      var p := presets[0];
      if p.targetVaultId !in vaults then Err("unknown-image-preset-vault")
      else
        InsertPresets(rows + [PresetRow(version, p.presetId, vaults[p.targetVaultId], p.widths, p.outputFormat, p.quality, p.fit)],
          version, presets[1..], vaults, ids[p.presetId := |rows|])
  }

  /** The first primary target, if any, then the replicas. */
  function PrimaryFirst(targets: seq<Target>): seq<Target> {
    (if WithRole(targets, Primary) == [] then [] else [WithRole(targets, Primary)[0]]) + WithRole(targets, Replica)
  }

  /** Replicas count from 1, whether or not there is a primary. */
  function OrderAt(targets: seq<Target>, i: nat): nat {
    if WithRole(targets, Primary) == [] then i + 1 else i
  }

  function InsertTargets(rows: seq<TargetRow>, version: string, routeRow: nat, targets: seq<Target>, order: nat, vaults: Ids): Result<seq<TargetRow>>
    decreases |targets|
  {
    if targets == [] then Ok(rows)
    else if targets[0].vaultId !in vaults then Err("unknown-route-vault")
    else
      InsertTargets(rows + [TargetRow(version, routeRow, vaults[targets[0].vaultId], targets[0].role, order)],
        version, routeRow, targets[1..], order + 1, vaults)
  }

  datatype Routed = Routed(routes: seq<RouteRow>, targets: seq<TargetRow>)

  function InsertRoutes(rows: seq<RouteRow>, targets: seq<TargetRow>, version: string, routes: seq<Route>, vaults: Ids, presets: Ids): Result<Routed>
    decreases |routes|
  {
    if routes == [] then Ok(Routed(rows, targets))
    else
      var r := routes[0];
      if r.imagePresetId.Some? && r.imagePresetId.value !in presets then Err("unknown-route-image-preset")
      else
        var presetRow := if r.imagePresetId.Some? then Some(presets[r.imagePresetId.value]) else None;
        match InsertTargets(targets, version, |rows|, PrimaryFirst(r.targets), OrderAt(r.targets, 0), vaults)
        case Err(code) => Err(code)
        case Ok(more) =>
          InsertRoutes(rows + [RouteRow(version, r.routeId, r.assetClass, presetRow)], more, version, routes[1..], vaults, presets)
  }

  function InsertDocument(t: Tables, clientId: string, environment: string, version: string, d: Document): Result<Tables> {
    var connections := UpsertAll(t.connections, clientId, environment, d.connections, map[]);
    match InsertVaults(t.vaults, version, d.vaults, connections.ids, map[])
    case Err(code) => Err(code)
    case Ok(vaults) =>
      match InsertPresets(t.presets, version, d.presets, vaults.ids, map[])
      case Err(code) => Err(code)
      case Ok(presets) =>
        match InsertRoutes(t.routes, t.targets, version, d.routes, vaults.ids, presets.ids)
        case Err(code) => Err(code)
        case Ok(routes) => Ok(Tables(connections.rows, vaults.rows, presets.rows, routes.routes, routes.targets))
  }

  // ---------------------------------------------------------------- reading

  /** References between rows lead somewhere. */
  ghost predicate Linked(t: Tables) {
    && (forall k :: 0 <= k < |t.vaults| ==> t.vaults[k].connectionRow < |t.connections|)
    && (forall k :: 0 <= k < |t.presets| ==> t.presets[k].vaultRow < |t.vaults|)
    && (forall k :: 0 <= k < |t.routes| && t.routes[k].presetRow.Some? ==> t.routes[k].presetRow.value < |t.presets|)
    && (forall r :: r in t.targets ==> r.routeRow < |t.routes| && r.vaultRow < |t.vaults|)
  }

  function VaultsOf(rows: seq<VaultRow>, connections: seq<ConnectionRow>, version: string): seq<Vault>
    requires forall k :: 0 <= k < |rows| ==> rows[k].connectionRow < |connections|
  {
    if rows == [] then []
    else
      var r, rest := rows[0], VaultsOf(rows[1..], connections, version);
      if r.version != version then rest
      else
        [Vault(r.vaultId, connections[r.connectionRow].connection.connectionId, r.displayLabel, r.purpose, r.bucketLabel,
               r.prefixTemplate, r.retention)] + rest
  }

  function PresetsOf(rows: seq<PresetRow>, vaults: seq<VaultRow>, version: string): seq<Preset>
    requires forall k :: 0 <= k < |rows| ==> rows[k].vaultRow < |vaults|
  {
    if rows == [] then []
    else
      var r, rest := rows[0], PresetsOf(rows[1..], vaults, version);
      if r.version != version then rest
      else [Preset(r.presetId, vaults[r.vaultRow].vaultId, r.widths, r.outputFormat, r.quality, r.fit)] + rest
  }

  /** The target rows of a route, in table order, which is target order. */
  function RowsOf(rows: seq<TargetRow>, routeRow: nat): (found: seq<TargetRow>)
    ensures forall r :: r in found ==> r in rows && r.routeRow == routeRow
  {
    if rows == [] then []
    else (if rows[0].routeRow == routeRow then [rows[0]] else []) + RowsOf(rows[1..], routeRow)
  }

  function AsTargets(rows: seq<TargetRow>, vaults: seq<VaultRow>): (targets: seq<Target>)
    requires forall r :: r in rows ==> r.vaultRow < |vaults|
    ensures |targets| == |rows|
  {
    seq(|rows|, i requires 0 <= i < |rows| => Target(rows[i].role, vaults[rows[i].vaultRow].vaultId))
  }

  /** The routes from place `from` on. */
  function RoutesFrom(rows: seq<RouteRow>, targets: seq<TargetRow>, vaults: seq<VaultRow>, presets: seq<PresetRow>, version: string, from: nat): seq<Route>
    requires from <= |rows|
    requires forall r :: r in targets ==> r.vaultRow < |vaults|
    requires forall k :: 0 <= k < |rows| && rows[k].presetRow.Some? ==> rows[k].presetRow.value < |presets|
    decreases |rows| - from
  {
    if from == |rows| then []
    else
      var r, rest := rows[from], RoutesFrom(rows, targets, vaults, presets, version, from + 1);
      if r.version != version then rest
      else
        [Route(r.routeId, r.assetClass, AsTargets(RowsOf(targets, from), vaults),
               if r.presetRow.Some? then Some(presets[r.presetRow.value].presetId) else None)] + rest
  }

  /** The connections that some vault of the version uses, each once, in table order. */
  function ConnectionsFrom(rows: seq<ConnectionRow>, vaults: seq<VaultRow>, version: string, from: nat): seq<Connection>
    requires from <= |rows|
    decreases |rows| - from
  {
    if from == |rows| then []
    else
      (if exists k :: 0 <= k < |vaults| && vaults[k].version == version && vaults[k].connectionRow == from then [rows[from].connection] else [])
      + ConnectionsFrom(rows, vaults, version, from + 1)
  }

  ghost function LoadDocument(t: Tables, version: string): Document
    requires Linked(t)
  {
    Document(
      ConnectionsFrom(t.connections, t.vaults, version, 0),
      VaultsOf(t.vaults, t.connections, version),
      RoutesFrom(t.routes, t.targets, t.vaults, t.presets, version, 0),
      PresetsOf(t.presets, t.vaults, version))
  }
}
