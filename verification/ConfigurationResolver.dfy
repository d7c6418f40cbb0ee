/** What the resolver accepts of what is stored. */
module ConfigurationResolver {
  import opened Common
  import opened ConfigurationDocument
  import opened ConfigurationTables
  import opened ConfigurationRoundTrip
  import opened ConfigurationPersistence

  // ---------------------------------------------------------------- targets keep their vaults

  ghost predicate DistinctVaults(targets: seq<Target>) {
    forall i, j :: 0 <= i < j < |targets| ==> targets[i].vaultId != targets[j].vaultId
  }

  lemma UniqueTargets(r: Route)
    ensures Unique(TargetVaults(r)) <==> DistinctVaults(r.targets)
  {
    var ids := TargetVaults(r);
    assert forall i :: 0 <= i < |ids| ==> ids[i] == r.targets[i].vaultId;
  }

  lemma {:induction false} RoleDistinct(targets: seq<Target>, role: Role)
    requires DistinctVaults(targets)
    ensures DistinctVaults(WithRole(targets, role))
  {
    if targets != [] {
      RoleDistinct(targets[1..], role);
      forall t | t in WithRole(targets[1..], role)
        ensures t.vaultId != targets[0].vaultId
      {
        RoleMember(targets[1..], role, t);
        var i :| 0 <= i < |targets[1..]| && targets[1..][i] == t;
        assert targets[i + 1] == t;
      }
    }
  }

  lemma DifferentRoles(targets: seq<Target>, p: Target, r: Target)
    requires DistinctVaults(targets) && p in targets && r in targets && p.role != r.role
    ensures p.vaultId != r.vaultId
  {
    var i :| 0 <= i < |targets| && targets[i] == p;
    var j :| 0 <= j < |targets| && targets[j] == r;
    assert i < j || j < i;
  }

  lemma {:induction false} AllOfRole(targets: seq<Target>, role: Role)
    requires forall t :: t in targets ==> t.role == role
    ensures forall other: Role :: WithRole(targets, other) == if other == role then targets else []
  {
    if targets != [] {
      assert targets == [targets[0]] + targets[1..];
      AllOfRole(targets[1..], role);
    }
  }

  lemma {:induction false} RoleJoin(a: seq<Target>, b: seq<Target>, role: Role)
    ensures WithRole(a + b, role) == WithRole(a, role) + WithRole(b, role)
  {
    if a == [] {
      assert a + b == b;
    } else {
      assert (a + b)[1..] == a[1..] + b;
      RoleJoin(a[1..], b, role);
    }
  }

  lemma {:induction false} RolesAddUp(targets: seq<Target>)
    ensures |WithRole(targets, Primary)| + |WithRole(targets, Replica)| == |targets|
  {
    if targets != [] {
      RolesAddUp(targets[1..]);
    }
  }

  lemma PrimaryThenReplicas(targets: seq<Target>)
    requires |WithRole(targets, Primary)| == 1
    ensures PrimaryFirst(targets) == WithRole(targets, Primary) + WithRole(targets, Replica)
    ensures |PrimaryFirst(targets)| == |targets|
  {
    hide WithRole;
    var primary := WithRole(targets, Primary);
    assert primary == [primary[0]];
    RolesAddUp(targets);
  }

  lemma RolesKept(targets: seq<Target>, role: Role)
    requires |WithRole(targets, Primary)| == 1
    ensures WithRole(PrimaryFirst(targets), role) == WithRole(targets, role)
  {
    hide WithRole, PrimaryFirst;
    var primary, replicas := WithRole(targets, Primary), WithRole(targets, Replica);
    forall other: Role, t | t in WithRole(targets, other)
      ensures t.role == other
    {
      RoleMember(targets, other, t);
    }
    PrimaryThenReplicas(targets);
    AllOfRole(primary, Primary);
    AllOfRole(replicas, Replica);
    RoleJoin(primary, replicas, role);
    assert primary + [] == primary && [] + replicas == replicas;
  }

  lemma VaultsKept(targets: seq<Target>)
    requires |WithRole(targets, Primary)| == 1 && DistinctVaults(targets)
    ensures DistinctVaults(PrimaryFirst(targets))
  {
    hide WithRole, PrimaryFirst;
    var primary, replicas := WithRole(targets, Primary), WithRole(targets, Replica);
    PrimaryThenReplicas(targets);
    RoleDistinct(targets, Replica);
    RoleMember(targets, Primary, primary[0]);
    forall t | t in replicas
      ensures t.vaultId != primary[0].vaultId
    {
      RoleMember(targets, Replica, t);
      DifferentRoles(targets, primary[0], t);
    }
  }

  /** With exactly one primary, putting it first only reorders the targets. */
  lemma PrimaryFirstReorders(targets: seq<Target>)
    requires |WithRole(targets, Primary)| == 1 && DistinctVaults(targets)
    ensures var ordered := PrimaryFirst(targets);
      && |ordered| == |targets| && DistinctVaults(ordered)
      && WithRole(ordered, Primary) == WithRole(targets, Primary) && WithRole(ordered, Replica) == WithRole(targets, Replica)
  {
    hide WithRole, PrimaryFirst;
    PrimaryThenReplicas(targets);
    RolesKept(targets, Primary);
    RolesKept(targets, Replica);
    VaultsKept(targets);
  }

  // ---------------------------------------------------------------- a document read back is valid

  lemma LoadedRouteIsValid(r: Route, d: Document, loaded: Document)
    requires ValidRoute(r, d) && loaded.vaults == d.vaults && loaded.presets == d.presets
    ensures ValidRoute(AsLoaded(r), loaded)
  {
    hide Identifier;
    UniqueTargets(r);
    UniqueTargets(AsLoaded(r));
    PrimaryFirstReorders(r.targets);
    forall t | t in PrimaryFirst(r.targets)
      ensures t in r.targets
    {
      PrimaryFirstMembers(r.targets, t);
    }
    hide PrimaryFirst, TargetVaults, WithRole;
  }

  lemma LoadedNamesAreUnique(d: Document, loaded: Document)
    requires UniqueNames(d) && SameDocument(loaded, d)
    ensures UniqueNames(loaded)
  {
    var ids := ConnectionIds(loaded);
    assert forall i :: 0 <= i < |ids| ==> ids[i] == loaded.connections[i].connectionId;
    assert VaultIds(loaded) == VaultIds(d) && PresetIds(loaded) == PresetIds(d);
    assert RouteIds(loaded) == RouteIds(d) && AssetClasses(loaded) == AssetClasses(d);
  }

  lemma LoadedIsValid(d: Document, loaded: Document, check: MetadataCheck)
    requires Valid(d, check) && SameDocument(loaded, d)
    ensures Valid(loaded, check)
  {
    hide ValidConnection, Identifier, Label, BucketLabel, PrefixTemplate, RetentionInRange, Widths, UniqueNames;
    LoadedNamesAreUnique(d, loaded);
    forall v | v in loaded.vaults
      ensures ValidVault(v, loaded)
    {
      assert ValidVault(v, d);
      var c :| c in d.connections && c.connectionId == v.providerConnectionId;
      assert c in loaded.connections;
    }
    forall p | p in loaded.presets
      ensures ValidPreset(p, loaded)
    {
      assert ValidPreset(p, d);
    }
    forall r | r in loaded.routes
      ensures ValidRoute(r, loaded)
    {
      var i :| 0 <= i < |loaded.routes| && loaded.routes[i] == r;
      assert d.routes[i] in d.routes && r == AsLoaded(d.routes[i]);
      LoadedRouteIsValid(d.routes[i], d, loaded);
    }
  }

  /** Writing keeps validity: what is read back passes the validator without any error. */
  lemma ReadBackPassesValidation(t: Tables, clientId: string, environment: string, version: string, d: Document, check: MetadataCheck)
    requires TablesGood(t) && NewVersion(t, version) && Errors(d, check) == []
    ensures var r := InsertDocument(t, clientId, environment, version, d);
      r.Ok? && TablesGood(r.value) && Errors(LoadDocument(r.value, version), check) == []
  {
    hide Errors, Valid, SameDocument, InsertDocument, LoadDocument;
    NoErrorsMeansValid(d, check);
    WrittenDocumentReadsBack(t, clientId, environment, version, d, check);
    var loaded := LoadDocument(InsertDocument(t, clientId, environment, version, d).value, version);
    LoadedIsValid(d, loaded, check);
    NoErrorsMeansValid(loaded, check);
  }

  // ---------------------------------------------------------------- the resolver

  function PrimaryRows(rows: seq<TargetRow>): seq<TargetRow> {
    if rows == [] then []
    else (if rows[0].role == Primary then [rows[0]] else []) + PrimaryRows(rows[1..])
  }

  /** One primary in place 0, and replicas in distinct places after it. */
  ghost predicate WellOrdered(rows: seq<TargetRow>) {
    && |PrimaryRows(rows)| == 1 && PrimaryRows(rows)[0].order == 0
    && (forall i :: 0 <= i < |rows| && rows[i].role == Replica ==> rows[i].order > 0)
    && forall i, j :: 0 <= i < j < |rows| && rows[i].role == rows[j].role == Replica ==> rows[i].order != rows[j].order
  }

  /** The check of target rows, with its loop over the orders seen so far. */
  method NormalizeTargets(rows: seq<TargetRow>) returns (r: Result<seq<TargetRow>>)
    ensures r.Ok? <==> WellOrdered(rows)
    ensures r.Ok? ==> r.value == rows
    ensures r.Err? ==>
      r.code == if |PrimaryRows(rows)| != 1 || PrimaryRows(rows)[0].order != 0
                then "configuration-primary-target-not-ready" else "active-configuration-not-ready"
  {
    var primaryRows := PrimaryRows(rows);
    if |primaryRows| != 1 || primaryRows[0].order != 0 {
      return Err("configuration-primary-target-not-ready");
    }
    var replicaOrders: set<nat> := {};
    var i := 0;
    while i < |rows|
      invariant 0 <= i <= |rows|
      invariant forall n :: n in replicaOrders <==> exists k :: 0 <= k < i && rows[k].role == Replica && rows[k].order == n
      invariant forall k :: 0 <= k < i && rows[k].role == Replica ==> rows[k].order > 0
      invariant forall k, l :: 0 <= k < l < i && rows[k].role == rows[l].role == Replica ==> rows[k].order != rows[l].order
    {
      if rows[i].role == Replica {
        if rows[i].order == 0 || rows[i].order in replicaOrders {
          return Err("active-configuration-not-ready");
        }
        replicaOrders := replicaOrders + {rows[i].order};
      }
      i := i + 1;
    }
    return Ok(rows);
  }

  lemma {:induction false} NoPrimaryRows(rows: seq<TargetRow>)
    requires forall r :: r in rows ==> r.role == Replica
    ensures PrimaryRows(rows) == []
  {
    if rows != [] {
      assert rows[0] in rows;
      NoPrimaryRows(rows[1..]);
    }
  }

  lemma RouteRowsAreWellOrdered(version: string, place: nat, r: Route, vaults: Ids)
    requires |WithRole(r.targets, Primary)| == 1 && forall t :: t in PrimaryFirst(r.targets) ==> t.vaultId in vaults
    ensures WellOrdered(RouteTargetRows(version, place, r, vaults))
  {
    var rows, ordered := RouteTargetRows(version, place, r, vaults), PrimaryFirst(r.targets);
    var primary, replicas := WithRole(r.targets, Primary), WithRole(r.targets, Replica);
    RoleMember(r.targets, Primary, primary[0]);
    assert ordered == [primary[0]] + replicas && OrderAt(r.targets, 0) == 0;
    forall i | 1 <= i < |rows|
      ensures rows[i].role == Replica && rows[i].order == i
    {
      assert rows[i].role == ordered[i].role && ordered[i] == replicas[i - 1];
      RoleMember(r.targets, Replica, replicas[i - 1]);
    }
    assert rows[0].role == Primary && rows[0].order == 0;
    forall row | row in rows[1..]
      ensures row.role == Replica
    {
      var i :| 0 <= i < |rows[1..]| && rows[1..][i] == row;
      assert rows[i + 1] == row;
    }
    NoPrimaryRows(rows[1..]);
  }

  /** The target rows of every route of a valid document pass the resolver's check. */
  lemma StoredRoutesAreWellOrdered(t: Tables, clientId: string, environment: string, version: string, d: Document, check: MetadataCheck, i: nat)
    requires TablesGood(t) && Valid(d, check) && i < |d.routes|
    ensures var r := InsertDocument(t, clientId, environment, version, d);
      && r.Ok? && |r.value.routes| == |t.routes| + |d.routes|
      && r.value.routes[|t.routes| + i].routeId == d.routes[i].routeId
      && WellOrdered(RowsOf(r.value.targets, |t.routes| + i))
  {
    hide InsertDocument, RowsOf, WellOrdered, PrimaryFirst, RouteTargetRows;
    var u, connections, vaults, presets := InsertStores(t, clientId, environment, version, d, check);
    assert RouteWritten(Routed(u.routes, u.targets), |t.routes| + i, version, d.routes[i], vaults, presets);
    assert ValidRoute(d.routes[i], d);
    RouteRowsAreWellOrdered(version, |t.routes| + i, d.routes[i], vaults);
  }
}
