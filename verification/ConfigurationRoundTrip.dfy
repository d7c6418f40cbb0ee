/** The parts of a configuration document, each written to its tables and read back from them. */
module ConfigurationRoundTrip {
  import opened Common
  import opened ConfigurationDocument
  import opened ConfigurationTables

  // ---------------------------------------------------------------- connections

  ghost predicate UniqueKeys(rows: seq<ConnectionRow>) {
    forall i, j :: 0 <= i < j < |rows| ==>
      !HasKey(rows[j], rows[i].clientId, rows[i].environment, rows[i].connection.connectionId)
  }

  /** Rows are only added, and keep their keys. */
  ghost predicate KeysStay(before: seq<ConnectionRow>, after: seq<ConnectionRow>) {
    |before| <= |after|
    && forall k :: 0 <= k < |before| ==>
         HasKey(after[k], before[k].clientId, before[k].environment, before[k].connection.connectionId)
  }

  ghost predicate IdsHold(ids: Ids, rows: seq<ConnectionRow>, clientId: string, environment: string) {
    forall id :: id in ids ==> ids[id] < |rows| && HasKey(rows[ids[id]], clientId, environment, id)
  }

  /** The row each identifier leads to holds the connection written under it. */
  ghost predicate Written(connections: seq<Connection>, rows: seq<ConnectionRow>, ids: Ids) {
    forall c :: c in connections ==>
      c.connectionId in ids && ids[c.connectionId] < |rows| && rows[ids[c.connectionId]].connection == c
  }

  lemma UpsertOne(rows: seq<ConnectionRow>, clientId: string, environment: string, c: Connection, ids: Ids)
    requires UniqueKeys(rows) && IdsHold(ids, rows, clientId, environment)
    ensures var u := Upsert(rows, clientId, environment, c, ids);
      && UniqueKeys(u.rows) && KeysStay(rows, u.rows) && IdsHold(u.ids, u.rows, clientId, environment)
      && u.ids.Keys == ids.Keys + {c.connectionId} && Written([c], u.rows, u.ids)
  {
    var u := Upsert(rows, clientId, environment, c, ids);
    assert forall x :: x in [c] ==> x == c;
  }

  /** Writing another connection leaves the rows of other identifiers alone. */
  lemma UpsertSpares(rows: seq<ConnectionRow>, clientId: string, environment: string, c: Connection, ids: Ids, earlier: Connection)
    requires UniqueKeys(rows) && IdsHold(ids, rows, clientId, environment)
    requires Written([earlier], rows, ids) && earlier.connectionId != c.connectionId
    ensures var u := Upsert(rows, clientId, environment, c, ids); Written([earlier], u.rows, u.ids)
  {
    assert earlier in [earlier];
    assert forall x :: x in [earlier] ==> x == earlier;
  }

  function NamesOf(connections: seq<Connection>): set<string> {
    set c | c in connections :: c.connectionId
  }

  lemma UpsertKeepsWritten(rows: seq<ConnectionRow>, clientId: string, environment: string, c: Connection, ids: Ids, done: seq<Connection>)
    requires UniqueKeys(rows) && IdsHold(ids, rows, clientId, environment) && Written(done, rows, ids)
    requires forall d :: d in done ==> c.connectionId != d.connectionId
    ensures var u := Upsert(rows, clientId, environment, c, ids); Written(done + [c], u.rows, u.ids)
  {
    hide Upsert, UniqueKeys, IdsHold;
    var u := Upsert(rows, clientId, environment, c, ids);
    UpsertOne(rows, clientId, environment, c, ids);
    forall d | d in done
      ensures Written([d], u.rows, u.ids)
    {
      assert forall x :: x in [d] ==> x == d;
      UpsertSpares(rows, clientId, environment, c, ids, d);
    }
    WrittenMore(done, c, u.rows, u.ids);
  }

  ghost predicate DistinctConnections(connections: seq<Connection>) {
    forall i, j :: 0 <= i < j < |connections| ==> connections[i].connectionId != connections[j].connectionId
  }

  lemma NextIsNew(done: seq<Connection>, connections: seq<Connection>)
    requires connections != [] && DistinctConnections(done + connections)
    ensures forall d :: d in done ==> connections[0].connectionId != d.connectionId
  {
    var all := done + connections;
    forall d | d in done
      ensures connections[0].connectionId != d.connectionId
    {
      var i :| 0 <= i < |done| && done[i] == d;
      assert all[i] == d && all[|done|] == connections[0];
    }
  }

  lemma NamesJoin(connections: seq<Connection>)
    requires connections != []
    ensures NamesOf(connections) == {connections[0].connectionId} + NamesOf(connections[1..])
  {
    assert connections == [connections[0]] + connections[1..];
  }

  /** What writing all connections leaves behind. */
  ghost predicate AllWritten(rows: seq<ConnectionRow>, ids: Ids, connections: seq<Connection>, done: seq<Connection>, u: Upserted,
      clientId: string, environment: string)
  {
    && UniqueKeys(u.rows) && KeysStay(rows, u.rows) && IdsHold(u.ids, u.rows, clientId, environment)
    && u.ids.Keys == ids.Keys + NamesOf(connections) && Written(done + connections, u.rows, u.ids)
  }

  lemma {:induction false} UpsertAllWrites(rows: seq<ConnectionRow>, clientId: string, environment: string,
      connections: seq<Connection>, ids: Ids, done: seq<Connection>)
    requires UniqueKeys(rows) && IdsHold(ids, rows, clientId, environment) && Written(done, rows, ids)
    requires DistinctConnections(done + connections)
    ensures AllWritten(rows, ids, connections, done, UpsertAll(rows, clientId, environment, connections, ids), clientId, environment)
    decreases |connections|
  {
    hide Upsert, UniqueKeys, IdsHold, Written, KeysStay, DistinctConnections, NamesOf;
    if connections == [] {
      KeysReflexive(rows);
      assert done + connections == done && NamesOf(connections) == {} by {
        NoNames();
      }
    } else {
      var c, rest := connections[0], connections[1..];
      var u := Upsert(rows, clientId, environment, c, ids);
      assert done + [c] + rest == done + connections;
      NextIsNew(done, connections);
      UpsertOne(rows, clientId, environment, c, ids);
      UpsertKeepsWritten(rows, clientId, environment, c, ids, done);
      UpsertAllWrites(u.rows, clientId, environment, rest, u.ids, done + [c]);
      KeysTransitive(rows, u.rows, UpsertAll(u.rows, clientId, environment, rest, u.ids).rows);
      NamesJoin(connections);
    }
  }

  lemma NoNames()
    ensures NamesOf([]) == {}
  {
  }

  lemma WrittenMore(done: seq<Connection>, c: Connection, rows: seq<ConnectionRow>, ids: Ids)
    requires Written([c], rows, ids) && forall d :: d in done ==> Written([d], rows, ids)
    ensures Written(done + [c], rows, ids)
  {
    forall d | d in done + [c]
      ensures d.connectionId in ids && ids[d.connectionId] < |rows| && rows[ids[d.connectionId]].connection == d
    {
      assert d in [d] && Written([d], rows, ids);
    }
  }

  lemma KeysReflexive(rows: seq<ConnectionRow>)
    ensures KeysStay(rows, rows)
  {
  }

  lemma KeysTransitive(a: seq<ConnectionRow>, b: seq<ConnectionRow>, c: seq<ConnectionRow>)
    requires KeysStay(a, b) && KeysStay(b, c)
    ensures KeysStay(a, c)
  {
  }

  // ---------------------------------------------------------------- vaults

  function NewVaultRows(version: string, vaults: seq<Vault>, connections: Ids): (rows: seq<VaultRow>)
    requires forall v :: v in vaults ==> v.providerConnectionId in connections
    ensures |rows| == |vaults|
  {
    seq(|vaults|, i requires 0 <= i < |vaults| => VaultRowFor(version, vaults[i], connections[vaults[i].providerConnectionId]))
  }

  ghost predicate VaultIdsHold(ids: Ids, rows: seq<VaultRow>) {
    forall id :: id in ids ==> ids[id] < |rows| && rows[ids[id]].vaultId == id
  }

  lemma {:induction false} InsertVaultsAppends(rows: seq<VaultRow>, version: string, vaults: seq<Vault>, connections: Ids, ids: Ids)
    requires (forall v :: v in vaults ==> v.providerConnectionId in connections) && VaultIdsHold(ids, rows)
    ensures var r := InsertVaults(rows, version, vaults, connections, ids);
      && r.Ok? && r.value.rows == rows + NewVaultRows(version, vaults, connections)
      && VaultIdsHold(r.value.ids, r.value.rows)
      && forall v :: v in vaults ==> v.vaultId in r.value.ids
    ensures forall id :: id in ids ==> id in InsertVaults(rows, version, vaults, connections, ids).value.ids
    decreases |vaults|
  {
    if vaults != [] {
      var v, rest := vaults[0], vaults[1..];
      var row := VaultRowFor(version, v, connections[v.providerConnectionId]);
      InsertVaultsAppends(rows + [row], version, rest, connections, ids[v.vaultId := |rows|]);
      assert [row] + NewVaultRows(version, rest, connections) == NewVaultRows(version, vaults, connections);
      assert rows + [row] + NewVaultRows(version, rest, connections) == rows + NewVaultRows(version, vaults, connections);
      assert vaults == [v] + rest;
    } else {
      assert rows + NewVaultRows(version, vaults, connections) == rows;
    }
  }

  lemma {:induction false} VaultsOfJoin(a: seq<VaultRow>, b: seq<VaultRow>, connections: seq<ConnectionRow>, version: string)
    requires forall k :: 0 <= k < |a| ==> a[k].connectionRow < |connections|
    requires forall k :: 0 <= k < |b| ==> b[k].connectionRow < |connections|
    ensures VaultsOf(a + b, connections, version) == VaultsOf(a, connections, version) + VaultsOf(b, connections, version)
    decreases |a|
  {
    if a == [] {
      assert a + b == b;
    } else {
      assert (a + b)[1..] == a[1..] + b;
      VaultsOfJoin(a[1..], b, connections, version);
    }
  }

  lemma {:induction false} NoVaults(rows: seq<VaultRow>, connections: seq<ConnectionRow>, version: string)
    requires forall k :: 0 <= k < |rows| ==> rows[k].connectionRow < |connections| && rows[k].version != version
    ensures VaultsOf(rows, connections, version) == []
  {
    if rows != [] {
      NoVaults(rows[1..], connections, version);
    }
  }

  /** Rows put behind others read behind them; both keep their references. */
  lemma VaultsOfGrown(rows: seq<VaultRow>, added: seq<VaultRow>, all: seq<VaultRow>, connections: seq<ConnectionRow>, version: string)
    requires all == rows + added && forall k :: 0 <= k < |all| ==> all[k].connectionRow < |connections|
    ensures forall k :: 0 <= k < |rows| ==> rows[k].connectionRow < |connections|
    ensures forall k :: 0 <= k < |added| ==> added[k].connectionRow < |connections|
    ensures VaultsOf(all, connections, version) == VaultsOf(rows, connections, version) + VaultsOf(added, connections, version)
  {
    hide VaultsOf;
    forall k | 0 <= k < |rows|
      ensures rows[k].connectionRow < |connections|
    {
      assert rows[k] == all[k];
    }
    forall k | 0 <= k < |added|
      ensures added[k].connectionRow < |connections|
    {
      assert added[k] == all[|rows| + k];
    }
    VaultsOfJoin(rows, added, connections, version);
  }

  lemma {:induction false} NewVaultsRead(version: string, vaults: seq<Vault>, ids: Ids, connections: seq<ConnectionRow>)
    requires forall v :: v in vaults ==>
      && v.providerConnectionId in ids && ids[v.providerConnectionId] < |connections|
      && connections[ids[v.providerConnectionId]].connection.connectionId == v.providerConnectionId
    ensures VaultsOf(NewVaultRows(version, vaults, ids), connections, version) == vaults
    decreases |vaults|
  {
    if vaults != [] {
      var rows := NewVaultRows(version, vaults, ids);
      assert rows[1..] == NewVaultRows(version, vaults[1..], ids);
      NewVaultsRead(version, vaults[1..], ids, connections);
      assert vaults == [vaults[0]] + vaults[1..];
    }
  }

  /** Reading vaults needs only the identifiers of the connections. */
  lemma {:induction false} VaultsKeepNames(rows: seq<VaultRow>, before: seq<ConnectionRow>, after: seq<ConnectionRow>, version: string)
    requires (forall k :: 0 <= k < |rows| ==> rows[k].connectionRow < |before|) && KeysStay(before, after)
    ensures VaultsOf(rows, after, version) == VaultsOf(rows, before, version)
  {
    if rows != [] {
      VaultsKeepNames(rows[1..], before, after, version);
    }
  }

  // ---------------------------------------------------------------- presets

  function NewPresetRows(version: string, presets: seq<Preset>, vaults: Ids): (rows: seq<PresetRow>)
    requires forall p :: p in presets ==> p.targetVaultId in vaults
    ensures |rows| == |presets|
  {
    seq(|presets|, i requires 0 <= i < |presets| =>
      var p := presets[i];
      PresetRow(version, p.presetId, vaults[p.targetVaultId], p.widths, p.outputFormat, p.quality, p.fit))
  }

  ghost predicate PresetIdsHold(ids: Ids, rows: seq<PresetRow>) {
    forall id :: id in ids ==> ids[id] < |rows| && rows[ids[id]].presetId == id
  }

  lemma {:induction false} InsertPresetsAppends(rows: seq<PresetRow>, version: string, presets: seq<Preset>, vaults: Ids, ids: Ids)
    requires (forall p :: p in presets ==> p.targetVaultId in vaults) && PresetIdsHold(ids, rows)
    ensures var r := InsertPresets(rows, version, presets, vaults, ids);
      && r.Ok? && r.value.rows == rows + NewPresetRows(version, presets, vaults)
      && PresetIdsHold(r.value.ids, r.value.rows)
      && forall p :: p in presets ==> p.presetId in r.value.ids
    ensures forall id :: id in ids ==> id in InsertPresets(rows, version, presets, vaults, ids).value.ids
    decreases |presets|
  {
    if presets != [] {
      var p, rest := presets[0], presets[1..];
      var row := PresetRow(version, p.presetId, vaults[p.targetVaultId], p.widths, p.outputFormat, p.quality, p.fit);
      InsertPresetsAppends(rows + [row], version, rest, vaults, ids[p.presetId := |rows|]);
      assert rows + [row] + NewPresetRows(version, rest, vaults) == rows + NewPresetRows(version, presets, vaults);
      assert presets == [p] + rest;
    } else {
      assert rows + NewPresetRows(version, presets, vaults) == rows;
    }
  }

  lemma {:induction false} PresetsOfJoin(a: seq<PresetRow>, b: seq<PresetRow>, vaults: seq<VaultRow>, version: string)
    requires forall k :: 0 <= k < |a| ==> a[k].vaultRow < |vaults|
    requires forall k :: 0 <= k < |b| ==> b[k].vaultRow < |vaults|
    ensures PresetsOf(a + b, vaults, version) == PresetsOf(a, vaults, version) + PresetsOf(b, vaults, version)
    decreases |a|
  {
    if a == [] {
      assert a + b == b;
    } else {
      assert (a + b)[1..] == a[1..] + b;
      PresetsOfJoin(a[1..], b, vaults, version);
    }
  }

  lemma {:induction false} NoPresets(rows: seq<PresetRow>, vaults: seq<VaultRow>, version: string)
    requires forall k :: 0 <= k < |rows| ==> rows[k].vaultRow < |vaults| && rows[k].version != version
    ensures PresetsOf(rows, vaults, version) == []
  {
    if rows != [] {
      NoPresets(rows[1..], vaults, version);
    }
  }

  lemma PresetsOfGrown(rows: seq<PresetRow>, added: seq<PresetRow>, all: seq<PresetRow>, vaults: seq<VaultRow>, version: string)
    requires all == rows + added && forall k :: 0 <= k < |all| ==> all[k].vaultRow < |vaults|
    ensures forall k :: 0 <= k < |rows| ==> rows[k].vaultRow < |vaults|
    ensures forall k :: 0 <= k < |added| ==> added[k].vaultRow < |vaults|
    ensures PresetsOf(all, vaults, version) == PresetsOf(rows, vaults, version) + PresetsOf(added, vaults, version)
  {
    hide PresetsOf;
    forall k | 0 <= k < |rows|
      ensures rows[k].vaultRow < |vaults|
    {
      assert rows[k] == all[k];
    }
    forall k | 0 <= k < |added|
      ensures added[k].vaultRow < |vaults|
    {
      assert added[k] == all[|rows| + k];
    }
    PresetsOfJoin(rows, added, vaults, version);
  }

  lemma {:induction false} NewPresetsRead(version: string, presets: seq<Preset>, ids: Ids, vaults: seq<VaultRow>)
    requires VaultIdsHold(ids, vaults) && forall p :: p in presets ==> p.targetVaultId in ids
    ensures PresetsOf(NewPresetRows(version, presets, ids), vaults, version) == presets
    decreases |presets|
  {
    if presets != [] {
      var rows := NewPresetRows(version, presets, ids);
      assert rows[1..] == NewPresetRows(version, presets[1..], ids);
      NewPresetsRead(version, presets[1..], ids, vaults);
      assert presets == [presets[0]] + presets[1..];
    }
  }

  // ---------------------------------------------------------------- targets

  function NewTargetRows(version: string, routeRow: nat, targets: seq<Target>, order: nat, vaults: Ids): (rows: seq<TargetRow>)
    requires forall t :: t in targets ==> t.vaultId in vaults
    ensures |rows| == |targets|
  {
    seq(|targets|, i requires 0 <= i < |targets| =>
      TargetRow(version, routeRow, vaults[targets[i].vaultId], targets[i].role, order + i))
  }

  lemma {:induction false} InsertTargetsAppends(rows: seq<TargetRow>, version: string, routeRow: nat, targets: seq<Target>, order: nat, vaults: Ids)
    requires forall t :: t in targets ==> t.vaultId in vaults
    ensures InsertTargets(rows, version, routeRow, targets, order, vaults)
      == Ok(rows + NewTargetRows(version, routeRow, targets, order, vaults))
    decreases |targets|
  {
    if targets != [] {
      var row := TargetRow(version, routeRow, vaults[targets[0].vaultId], targets[0].role, order);
      InsertTargetsAppends(rows + [row], version, routeRow, targets[1..], order + 1, vaults);
      assert rows + [row] + NewTargetRows(version, routeRow, targets[1..], order + 1, vaults)
        == rows + NewTargetRows(version, routeRow, targets, order, vaults);
    } else {
      assert rows + NewTargetRows(version, routeRow, targets, order, vaults) == rows;
    }
  }

  ghost predicate TargetsLinked(rows: seq<TargetRow>, routes: nat) {
    forall r :: r in rows ==> r.routeRow < routes
  }

  lemma {:induction false} RowsOfJoin(a: seq<TargetRow>, b: seq<TargetRow>, routeRow: nat)
    ensures RowsOf(a + b, routeRow) == RowsOf(a, routeRow) + RowsOf(b, routeRow)
    decreases |a|
  {
    if a == [] {
      assert a + b == b;
    } else {
      assert (a + b)[1..] == a[1..] + b;
      RowsOfJoin(a[1..], b, routeRow);
    }
  }

  lemma {:induction false} NoRows(rows: seq<TargetRow>, routeRow: nat)
    requires forall r :: r in rows ==> r.routeRow != routeRow
    ensures RowsOf(rows, routeRow) == []
  {
    if rows != [] {
      assert rows[0] in rows;
      NoRows(rows[1..], routeRow);
    }
  }

  lemma {:induction false} OnlyRows(rows: seq<TargetRow>, routeRow: nat)
    requires forall r :: r in rows ==> r.routeRow == routeRow
    ensures RowsOf(rows, routeRow) == rows
  {
    if rows != [] {
      assert rows[0] in rows && rows == [rows[0]] + rows[1..];
      OnlyRows(rows[1..], routeRow);
    }
  }

  lemma {:induction false} RoleMember(targets: seq<Target>, role: Role, t: Target)
    ensures t in WithRole(targets, role) <==> t in targets && t.role == role
  {
    if targets != [] {
      RoleMember(targets[1..], role, t);
      assert targets == [targets[0]] + targets[1..];
    }
  }

  lemma PrimaryFirstMembers(targets: seq<Target>, t: Target)
    requires t in PrimaryFirst(targets)
    ensures t in targets
  {
    RoleMember(targets, Primary, t);
    RoleMember(targets, Replica, t);
  }

  // ---------------------------------------------------------------- routes

  function AsLoaded(r: Route): Route {
    r.(targets := PrimaryFirst(r.targets))
  }

  /** Everything that is written of the route refers to known rows; a second primary target is not written. */
  ghost predicate RouteKnown(r: Route, vaults: Ids, presets: Ids) {
    (forall t :: t in PrimaryFirst(r.targets) ==> t.vaultId in vaults) && (r.imagePresetId.Some? ==> r.imagePresetId.value in presets)
  }

  function RouteRowFor(version: string, r: Route, presets: Ids): RouteRow
    requires r.imagePresetId.Some? ==> r.imagePresetId.value in presets
  {
    RouteRow(version, r.routeId, r.assetClass, if r.imagePresetId.Some? then Some(presets[r.imagePresetId.value]) else None)
  }

  /** The target rows of one route. */
  function RouteTargetRows(version: string, routeRow: nat, r: Route, vaults: Ids): seq<TargetRow>
    requires forall t :: t in PrimaryFirst(r.targets) ==> t.vaultId in vaults
  {
    NewTargetRows(version, routeRow, PrimaryFirst(r.targets), OrderAt(r.targets, 0), vaults)
  }

  /** What writing routes has to leave behind. */
  ghost predicate RoutesWritten(rows: seq<RouteRow>, targets: seq<TargetRow>, after: Routed, version: string, routes: seq<Route>,
      vaults: Ids, presets: Ids)
  {
    && |after.routes| == |rows| + |routes| && after.routes[..|rows|] == rows
    && TargetsLinked(after.targets, |after.routes|)
    && (forall k :: 0 <= k < |rows| ==> RowsOf(after.targets, k) == RowsOf(targets, k))
    && forall i :: 0 <= i < |routes| ==> RouteWritten(after, |rows| + i, version, routes[i], vaults, presets)
  }

  ghost predicate RouteWritten(after: Routed, place: nat, version: string, r: Route, vaults: Ids, presets: Ids) {
    && place < |after.routes|
    && (r.imagePresetId.Some? ==> r.imagePresetId.value in presets)
    && (forall t :: t in PrimaryFirst(r.targets) ==> t.vaultId in vaults)
    && after.routes[place] == RouteRowFor(version, r, presets)
    && RowsOf(after.targets, place) == RouteTargetRows(version, place, r, vaults)
  }

  lemma KnownTargets(r: Route, vaults: Ids)
    requires forall t :: t in r.targets ==> t.vaultId in vaults
    ensures forall t :: t in PrimaryFirst(r.targets) ==> t.vaultId in vaults
  {
    forall t | t in PrimaryFirst(r.targets)
      ensures t.vaultId in vaults
    {
      PrimaryFirstMembers(r.targets, t);
    }
  }

  lemma RouteTargetsWritten(targets: seq<TargetRow>, version: string, place: nat, r: Route, vaults: Ids)
    requires TargetsLinked(targets, place) && forall t :: t in PrimaryFirst(r.targets) ==> t.vaultId in vaults
    ensures var more := InsertTargets(targets, version, place, PrimaryFirst(r.targets), OrderAt(r.targets, 0), vaults);
      && more.Ok? && TargetsLinked(more.value, place + 1)
      && (forall k :: 0 <= k < place ==> RowsOf(more.value, k) == RowsOf(targets, k))
      && RowsOf(more.value, place) == RouteTargetRows(version, place, r, vaults)
  {
    hide PrimaryFirst, OrderAt;
    var added := RouteTargetRows(version, place, r, vaults);
    InsertTargetsAppends(targets, version, place, PrimaryFirst(r.targets), OrderAt(r.targets, 0), vaults);
    forall k | 0 <= k <= place
      ensures RowsOf(targets + added, k) == RowsOf(targets, k) + RowsOf(added, k)
      ensures RowsOf(added, k) == if k == place then added else []
    {
      RowsOfJoin(targets, added, k);
      if k == place {
        OnlyRows(added, k);
      } else {
        NoRows(added, k);
      }
    }
    NoRows(targets, place);
  }

  lemma {:induction false} InsertRoutesWrites(rows: seq<RouteRow>, targets: seq<TargetRow>, version: string, routes: seq<Route>,
      vaults: Ids, presets: Ids)
    requires TargetsLinked(targets, |rows|) && forall r :: r in routes ==> RouteKnown(r, vaults, presets)
    ensures var done := InsertRoutes(rows, targets, version, routes, vaults, presets);
      done.Ok? && RoutesWritten(rows, targets, done.value, version, routes, vaults, presets)
    decreases |routes|
  {
    hide InsertTargets, PrimaryFirst, OrderAt, RowsOf, RouteTargetRows;
    if routes != [] {
      var r, rest := routes[0], routes[1..];
      assert RouteKnown(r, vaults, presets);
      RouteTargetsWritten(targets, version, |rows|, r, vaults);
      var more := InsertTargets(targets, version, |rows|, PrimaryFirst(r.targets), OrderAt(r.targets, 0), vaults).value;
      var next := rows + [RouteRowFor(version, r, presets)];
      InsertRoutesWrites(next, more, version, rest, vaults, presets);
      var done := InsertRoutes(next, more, version, rest, vaults, presets).value;
      WrittenOneMore(rows, targets, next, more, done, version, r, rest, vaults, presets);
      assert routes == [r] + rest;
    }
  }

  lemma WrittenOneMore(rows: seq<RouteRow>, targets: seq<TargetRow>, next: seq<RouteRow>, more: seq<TargetRow>, done: Routed,
      version: string, r: Route, rest: seq<Route>, vaults: Ids, presets: Ids)
    requires RouteKnown(r, vaults, presets) && forall t :: t in PrimaryFirst(r.targets) ==> t.vaultId in vaults
    requires next == rows + [RouteRowFor(version, r, presets)] && RoutesWritten(next, more, done, version, rest, vaults, presets)
    requires forall k :: 0 <= k < |rows| ==> RowsOf(more, k) == RowsOf(targets, k)
    requires RowsOf(more, |rows|) == RouteTargetRows(version, |rows|, r, vaults)
    ensures RoutesWritten(rows, targets, done, version, [r] + rest, vaults, presets)
  {
    hide RowsOf, PrimaryFirst, RouteRowFor, RouteTargetRows;
    var routes := [r] + rest;
    assert done.routes[..|rows|] == done.routes[..|next|][..|rows|];
    assert done.routes[|rows|] == done.routes[..|next|][|rows|];
    forall i | 0 <= i < |routes|
      ensures RouteWritten(done, |rows| + i, version, routes[i], vaults, presets)
    {
      if i > 0 {
        assert |rows| + i == |next| + (i - 1) && routes[i] == rest[i - 1];
      }
    }
  }

  /** Target rows read back as the targets they were written for. */
  lemma TargetRowsRead(version: string, place: nat, r: Route, ids: Ids, vaults: seq<VaultRow>)
    requires VaultIdsHold(ids, vaults) && forall t :: t in PrimaryFirst(r.targets) ==> t.vaultId in ids
    ensures forall row :: row in RouteTargetRows(version, place, r, ids) ==> row.vaultRow < |vaults|
    ensures AsTargets(RouteTargetRows(version, place, r, ids), vaults) == PrimaryFirst(r.targets)
  {
    hide PrimaryFirst, OrderAt;
  }

  function AllAsLoaded(routes: seq<Route>): (loaded: seq<Route>)
    ensures |loaded| == |routes| && forall i :: 0 <= i < |routes| ==> loaded[i] == AsLoaded(routes[i])
  {
    seq(|routes|, i requires 0 <= i < |routes| => AsLoaded(routes[i]))
  }

  lemma {:induction false} NewRoutesRead(rows: seq<RouteRow>, targets: seq<TargetRow>, after: Routed, version: string, routes: seq<Route>,
      vaults: seq<VaultRow>, vaultIds: Ids, ids: Ids, presets: seq<PresetRow>, i: nat)
    requires RoutesWritten(rows, targets, after, version, routes, vaultIds, ids) && i <= |routes|
    requires PresetIdsHold(ids, presets) && VaultIdsHold(vaultIds, vaults)
    requires forall r :: r in after.targets ==> r.vaultRow < |vaults|
    requires forall k :: 0 <= k < |after.routes| && after.routes[k].presetRow.Some? ==> after.routes[k].presetRow.value < |presets|
    ensures RoutesFrom(after.routes, after.targets, vaults, presets, version, |rows| + i) == AllAsLoaded(routes)[i..]
    decreases |routes| - i
  {
    hide PrimaryFirst, RowsOf, RouteTargetRows, AsTargets;
    if i < |routes| {
      NewRoutesRead(rows, targets, after, version, routes, vaults, vaultIds, ids, presets, i + 1);
      assert RouteWritten(after, |rows| + i, version, routes[i], vaultIds, ids);
      TargetRowsRead(version, |rows| + i, routes[i], vaultIds, vaults);
      assert AllAsLoaded(routes)[i..] == [AsLoaded(routes[i])] + AllAsLoaded(routes)[i + 1..];
    }
  }

  lemma {:induction false} OldRoutesSkipped(rows: seq<RouteRow>, targets: seq<TargetRow>, vaults: seq<VaultRow>, presets: seq<PresetRow>,
      version: string, from: nat, to: nat)
    requires from <= to <= |rows|
    requires forall r :: r in targets ==> r.vaultRow < |vaults|
    requires forall k :: 0 <= k < |rows| && rows[k].presetRow.Some? ==> rows[k].presetRow.value < |presets|
    requires forall k :: from <= k < to ==> rows[k].version != version
    ensures RoutesFrom(rows, targets, vaults, presets, version, from) == RoutesFrom(rows, targets, vaults, presets, version, to)
    decreases |rows| - from
  {
    hide RowsOf, AsTargets;
    if from < to {
      OldRoutesSkipped(rows, targets, vaults, presets, version, from + 1, to);
    }
  }
}
