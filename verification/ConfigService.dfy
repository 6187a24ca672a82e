/** The import as the service runs it: loops of upserts and replace-alls over the tables, inside one transaction. */
module ConfigService {
  import opened Options
  import opened ConfigValidation
  import opened OrganizationImport

  method UpsertCollection<C>(t: Table<Scoped, C>, org: nat, items: seq<(string, C)>, patch: (C, C) -> C, now: int)
    returns (r: Table<Scoped, C>)
    ensures r == UpsertAll(t, org, items, patch, now)
  {
    r := t;
    var i := 0;
    while i < |items|
      invariant 0 <= i <= |items|
      invariant r == UpsertAll(t, org, items[..i], patch, now)
    {
      assert items[..i + 1][..i] == items[..i];
      var k := (org, items[i].0);
      if k in r.rows {
        r := r.(rows := r.rows[k := r.rows[k].(cols := patch(r.rows[k].cols, items[i].1), updatedAt := now)]);
      } else {
        r := Table(r.rows[k := Row(r.lastId + 1, items[i].1, now, now)], r.lastId + 1);
      }
      i := i + 1;
    }
    assert items[..|items|] == items;
  }

  class Store {
    var organizations: Table<string, OrganizationCols>
    var locations: Table<Scoped, LocationCols>
    var providers: Table<Scoped, ProviderCols>
    var serviceAreas: Table<Scoped, CatalogCols>
    var consultationTypes: Table<Scoped, CatalogCols>
    var routingGroups: Table<Scoped, GroupCols>
    var officeHours: HourTable
    var members: MemberTable
    var settings: SettingTable

    function State(): Tables
      reads this
    {
      Tables(organizations, locations, providers, serviceAreas, consultationTypes, routingGroups, officeHours, members,
             settings)
    }

    constructor ()
      ensures State() == EMPTY
    {
      organizations := Table(map[], 0);
      locations := Table(map[], 0);
      providers := Table(map[], 0);
      serviceAreas := Table(map[], 0);
      consultationTypes := Table(map[], 0);
      routingGroups := Table(map[], 0);
      officeHours := map[];
      members := map[];
      settings := map[];
    }

    /** Back to the state at BEGIN. */
    method Rollback(begun: Tables)
      modifies this
      ensures State() == begun
    {
      organizations, locations, providers := begun.organizations, begun.locations, begun.providers;
      serviceAreas, consultationTypes, routingGroups :=
        begun.serviceAreas, begun.consultationTypes, begun.routingGroups;
      officeHours, members, settings := begun.officeHours, begun.members, begun.settings;
    }

    method ReplaceForLocation(location: nat, hours: seq<Hour>) returns (ok: bool)
      modifies this`officeHours
      ensures ok <==> ReplaceHours(old(officeHours), location, hours).Some?
      ensures ok ==> officeHours == ReplaceHours(old(officeHours), location, hours).value
    {
      officeHours := ClearHours(officeHours, location);
      ghost var cleared := officeHours;
      var i := 0;
      while i < |hours|
        invariant 0 <= i <= |hours|
        invariant InsertHours(cleared, location, hours[..i]) == Some(officeHours)
      {
        assert hours[..i + 1][..i] == hours[..i];
        var k := (location, hours[i].dayOfWeek, hours[i].opens);
        if k in officeHours {
          InsertHoursStops(cleared, location, hours, i + 1);
          return false;
        }
        officeHours := officeHours[k := hours[i].closes];
        i := i + 1;
      }
      assert hours[..|hours|] == hours;
      ok := true;
    }

    method ReplaceForGroup(group: nat, providerIds: seq<nat>) returns (ok: bool)
      modifies this`members
      ensures ok <==> ReplaceMembers(old(members), group, providerIds).Some?
      ensures ok ==> members == ReplaceMembers(old(members), group, providerIds).value
    {
      members := ClearMembers(members, group);
      ghost var cleared := members;
      var i := 0;
      while i < |providerIds|
        invariant 0 <= i <= |providerIds|
        invariant InsertMembers(cleared, group, providerIds[..i]) == Some(members)
      {
        assert providerIds[..i + 1][..i] == providerIds[..i];
        if (group, providerIds[i]) in members {
          InsertMembersStops(cleared, group, providerIds, i + 1);
          return false;
        }
        members := members[(group, providerIds[i]) := i];
        i := i + 1;
      }
      assert providerIds[..|providerIds|] == providerIds;
      ok := true;
    }

    method ReplaceAllHours(org: nat, items: seq<LocationItem>) returns (ok: bool)
      requires forall x | x in items :: (org, x.key) in locations.rows
      modifies this`officeHours
      ensures ok <==> HoursOfAll(old(officeHours), locations, org, items).Some?
      ensures ok ==> officeHours == HoursOfAll(old(officeHours), locations, org, items).value
    {
      hide ReplaceHours;
      ghost var before := officeHours;
      var i := 0;
      while i < |items|
        invariant 0 <= i <= |items|
        invariant HoursOfAll(before, locations, org, items[..i]) == Some(officeHours)
      {
        assert items[..i + 1][..i] == items[..i] && items[i] in items;
        if items[i].officeHours.Some? {
          ok := ReplaceForLocation(locations.rows[(org, items[i].key)].id, items[i].officeHours.value);
          if !ok {
            HoursOfAllStops(before, locations, org, items, i + 1);
            return;
          }
        }
        i := i + 1;
      }
      assert items[..|items|] == items;
      ok := true;
    }

    method ReplaceAllMembers(org: nat, items: seq<GroupItem>) returns (error: Option<ImportError>)
      requires forall x | x in items :: (org, x.key) in routingGroups.rows
      modifies this`members
      ensures var r := MembersOfAll(old(members), routingGroups, providers, org, items);
              match r case Done(m) => error.None? && members == m case Failed(e) => error == Some(e)
    {
      hide ReplaceMembers;
      ghost var before := members;
      var i := 0;
      while i < |items|
        invariant 0 <= i <= |items|
        invariant MembersOfAll(before, routingGroups, providers, org, items[..i]) == Done(members)
      {
        assert items[..i + 1][..i] == items[..i] && items[i] in items;
        if items[i].providers.Some? {
          var ids := ResolveProviders(providers, org, items[i].providers.value);
          if ids.None? {
            MembersOfAllStops(before, routingGroups, providers, org, items, i + 1);
            return Some(UnknownEntity("provider"));
          }
          var ok := ReplaceForGroup(routingGroups.rows[(org, items[i].key)].id, ids.value);
          if !ok {
            MembersOfAllStops(before, routingGroups, providers, org, items, i + 1);
            return Some(UniqueViolation);
          }
        }
        i := i + 1;
      }
      assert items[..|items|] == items;
      error := None;
    }

    method ImportLocations(org: nat, items: seq<LocationItem>, now: int) returns (ok: bool)
      modifies this`locations, this`officeHours
      ensures locations == UpsertAll(old(locations), org, LocationRows(items), PatchLocation, now)
      ensures forall x | x in items :: (org, x.key) in locations.rows
      ensures ok <==> HoursOfAll(old(officeHours), locations, org, items).Some?
      ensures ok ==> officeHours == HoursOfAll(old(officeHours), locations, org, items).value
    {
      hide UpsertAll, HoursOfAll, LocationRows;
      LocationsUpserted(locations, org, items, now);
      locations := UpsertCollection(locations, org, LocationRows(items), PatchLocation, now);
      ok := ReplaceAllHours(org, items);
    }

    /** Routing groups after the service areas they name, then their members. */
    method ImportGroups(org: nat, items: seq<GroupItem>, now: int) returns (error: Option<ImportError>)
      modifies this`routingGroups, this`members
      ensures GroupRows(items, serviceAreas, org).None? ==> error == Some(UnknownEntity("service_area"))
      ensures GroupRows(items, serviceAreas, org).Some? ==>
                && routingGroups
                     == UpsertAll(old(routingGroups), org, GroupRows(items, serviceAreas, org).value, PatchGroup, now)
                && (forall x | x in items :: (org, x.key) in routingGroups.rows)
                && match MembersOfAll(old(members), routingGroups, providers, org, items)
                   case Done(m) => error.None? && members == m
                   case Failed(e) => error == Some(e)
    {
      hide UpsertAll, MembersOfAll, GroupRows;
      var rows := GroupRows(items, serviceAreas, org);
      if rows.None? { return Some(UnknownEntity("service_area")); }
      GroupsUpserted(routingGroups, serviceAreas, org, items, now);
      routingGroups := UpsertCollection(routingGroups, org, rows.value, PatchGroup, now);
      error := ReplaceAllMembers(org, items);
    }

    method UpsertSettings(org: nat, items: seq<SettingItem>, now: int)
      modifies this`settings
      ensures settings == SettingsOfAll(old(settings), org, items, now)
    {
      ghost var before := settings;
      var i := 0;
      while i < |items|
        invariant 0 <= i <= |items|
        invariant settings == SettingsOfAll(before, org, items[..i], now)
      {
        assert items[..i + 1][..i] == items[..i];
        settings := settings[(org, items[i].namespace, items[i].key) := Stored(items[i].value, now)];
        i := i + 1;
      }
      assert items[..|items|] == items;
    }

    /** The body of the transaction: it may stop half way. */
    method ApplyDocument(d: Document, now: int) returns (error: Option<ImportError>)
      modifies this
      ensures match Apply(old(State()), d, now) case Done(t) => error.None? && State() == t
              case Failed(e) => error == Some(e)
    {
      hide UpsertAll, HoursOfAll, MembersOfAll, SettingsOfAll, GroupRows, LocationRows, ProviderRows, CatalogRows;
      ghost var before := State();
      organizations := Upsert(organizations, d.organization.key, d.organization.cols, PatchOrganization, now);
      var org := organizations.rows[d.organization.key].id;
      providers := UpsertCollection(providers, org, ProviderRows(d.providers), PatchProvider, now);
      var ok := ImportLocations(org, d.locations, now);
      if !ok { return Some(UniqueViolation); }
      serviceAreas := UpsertCollection(serviceAreas, org, CatalogRows(d.serviceAreas), PatchCatalog, now);
      consultationTypes :=
        UpsertCollection(consultationTypes, org, CatalogRows(d.consultationTypes), PatchCatalog, now);
      error := ImportGroups(org, d.routingGroups, now);
      if error.Some? { return; }
      UpsertSettings(org, d.settings, now);
    }

    /** All or nothing: a failed import leaves every table as it was. */
    method ImportOrganization(tree: Json, now: int) returns (error: Option<ImportError>)
      modifies this
      ensures match Import(old(State()), tree, now)
              case Done(t) => error.None? && State() == t
              case Failed(e) => error == Some(e) && State() == old(State())
    {
      hide Parse, Apply;
      var d := Parse(tree);
      if d.Invalid? { return Some(ValidationFailed(d.problems)); }
      var begun := State();
      error := ApplyDocument(d.item, now);
      if error.Some? { Rollback(begun); }
    }
  }

  // ── Once a fold has failed it stays failed ─────────────────────────────────

  lemma {:induction false} InsertHoursStops(h: HourTable, location: nat, hours: seq<Hour>, i: nat)
    requires i <= |hours| && InsertHours(h, location, hours[..i]).None?
    ensures InsertHours(h, location, hours).None?
    decreases |hours|
  {
    if i == |hours| {
      assert hours[..i] == hours;
    } else {
      assert hours[..|hours| - 1][..i] == hours[..i];
      InsertHoursStops(h, location, hours[..|hours| - 1], i);
    }
  }

  lemma {:induction false} InsertMembersStops(m: MemberTable, group: nat, ids: seq<nat>, i: nat)
    requires i <= |ids| && InsertMembers(m, group, ids[..i]).None?
    ensures InsertMembers(m, group, ids).None?
    decreases |ids|
  {
    if i == |ids| {
      assert ids[..i] == ids;
    } else {
      assert ids[..|ids| - 1][..i] == ids[..i];
      InsertMembersStops(m, group, ids[..|ids| - 1], i);
    }
  }

  lemma {:induction false} HoursOfAllStops(h: HourTable, locations: Table<Scoped, LocationCols>, org: nat,
                                           items: seq<LocationItem>, i: nat)
    requires forall x | x in items :: (org, x.key) in locations.rows
    requires i <= |items| && HoursOfAll(h, locations, org, items[..i]).None?
    ensures HoursOfAll(h, locations, org, items).None?
    decreases |items|
  {
    if i == |items| {
      assert items[..i] == items;
    } else {
      assert items[..|items| - 1][..i] == items[..i];
      HoursOfAllStops(h, locations, org, items[..|items| - 1], i);
    }
  }

  lemma {:induction false} MembersOfAllStops(m: MemberTable, groups: Table<Scoped, GroupCols>,
                                             providers: Table<Scoped, ProviderCols>, org: nat,
                                             items: seq<GroupItem>, i: nat)
    requires forall x | x in items :: (org, x.key) in groups.rows
    requires i <= |items| && MembersOfAll(m, groups, providers, org, items[..i]).Failed?
    ensures MembersOfAll(m, groups, providers, org, items) == MembersOfAll(m, groups, providers, org, items[..i])
    decreases |items|
  {
    if i == |items| {
      assert items[..i] == items;
    } else {
      assert items[..|items| - 1][..i] == items[..i];
      MembersOfAllStops(m, groups, providers, org, items[..|items| - 1], i);
    }
  }
}
