/** Any import of any document keeps a store well-formed; so every store built by imports round-trips. */
module ImportInvariants {
  import opened Options
  import opened ConfigValidation
  import opened OrganizationImport
  import opened OrganizationExport
  import opened ImportFolds

  // ── What validation lets through ───────────────────────────────────────────

  lemma CollectionIsClean<T>(o: map<Prop, Json>, p: Prop, f: Json -> Checked<T>, clean: T -> bool)
    requires Collection(o, p, f).Valid?
    requires p in o && o[p].Arr? ==> forall j | j in o[p].items :: f(j).Valid? ==> clean(f(j).item)
    ensures forall x | x in Collection(o, p, f).item :: clean(x)
  {
    if p in o { AllAreClean(o[p].items, f, clean); }
  }

  lemma ParsedIsClean(tree: Json)
    requires Parse(tree).Valid?
    ensures CleanDocument(Parse(tree).item)
  {
    hide NormalizeOrganization, NormalizeLocation, NormalizeProvider, NormalizeCatalogItem, NormalizeRoutingGroup,
         NormalizeSetting, NormalizeAll, Collection, CleanOrganization, CleanLocation, CleanProvider, CleanCatalogItem,
         CleanGroup, CleanSetting;
    var o := tree.fields;
    OrganizationIsClean(o[Organization]);
    forall j | NormalizeLocation(j).Valid? ensures CleanLocation(NormalizeLocation(j).item) { LocationIsClean(j); }
    CollectionIsClean(o, Locations, NormalizeLocation, CleanLocation);
    forall j | NormalizeProvider(j).Valid? ensures CleanProvider(NormalizeProvider(j).item) { ProviderIsClean(j); }
    CollectionIsClean(o, Providers, NormalizeProvider, CleanProvider);
    forall j | NormalizeCatalogItem(j).Valid?
      ensures CleanCatalogItem(NormalizeCatalogItem(j).item)
    {
      CatalogItemIsClean(j);
    }
    CollectionIsClean(o, ServiceAreas, NormalizeCatalogItem, CleanCatalogItem);
    CollectionIsClean(o, ConsultationTypes, NormalizeCatalogItem, CleanCatalogItem);
    forall j | NormalizeRoutingGroup(j).Valid? ensures CleanGroup(NormalizeRoutingGroup(j).item) { GroupIsClean(j); }
    CollectionIsClean(o, RoutingGroups, NormalizeRoutingGroup, CleanGroup);
    forall j | NormalizeSetting(j).Valid? ensures CleanSetting(NormalizeSetting(j).item) { SettingIsClean(j); }
    CollectionIsClean(o, Settings, NormalizeSetting, CleanSetting);
  }

  // ── What the folds keep, whatever the items ────────────────────────────────

  /** Rows keep their ids, new ones get greater ids and belong to the organization. */
  ghost predicate Grown<C>(t: Table<Scoped, C>, r: Table<Scoped, C>, org: nat) {
    && t.lastId <= r.lastId
    && (forall k | k in t.rows :: k in r.rows && r.rows[k].id == t.rows[k].id)
    && (forall k | k in r.rows && k !in t.rows :: k.0 == org && t.lastId < r.rows[k].id)
  }

  lemma {:induction false} UpsertGrows<C>(t: Table<Scoped, C>, org: nat, items: seq<(string, C)>, patch: (C, C) -> C,
                                          now: int)
    ensures Grown(t, UpsertAll(t, org, items, patch, now), org)
  {
    if items != [] { UpsertGrows(t, org, items[..|items| - 1], patch, now); }
  }

  lemma {:induction false} UpsertKeeps<C(!new)>(t: Table<Scoped, C>, org: nat, items: seq<(string, C)>,
                                                patch: (C, C) -> C, now: int, p: (Scoped, C) -> bool)
    requires forall k | k in t.rows :: p(k, t.rows[k].cols)
    requires forall i | 0 <= i < |items| :: p((org, items[i].0), items[i].1)
    requires forall k, c, d :: p(k, c) && p(k, d) ==> p(k, patch(c, d))
    ensures forall k | k in UpsertAll(t, org, items, patch, now).rows ::
              p(k, UpsertAll(t, org, items, patch, now).rows[k].cols)
  {
    if items != [] {
      var n := |items| - 1;
      forall i | 0 <= i < n ensures items[..n][i] == items[i] {}
      UpsertKeeps(t, org, items[..n], patch, now, p);
    }
  }

  /** Hours stay clean and stay with locations that exist. */
  ghost predicate HoursOk(h: HourTable, lastId: nat) {
    forall k | k in h :: CleanHour(Hour(k.1, k.2, h[k])) && k.0 <= lastId
  }

  lemma {:induction false} InsertHoursOk(h: HourTable, location: nat, hours: seq<Hour>, lastId: nat)
    requires HoursOk(h, lastId) && location <= lastId && forall x | x in hours :: CleanHour(x)
    ensures InsertHours(h, location, hours).Some? ==> HoursOk(InsertHours(h, location, hours).value, lastId)
  {
    hide CleanHour;
    if hours != [] { InsertHoursOk(h, location, hours[..|hours| - 1], lastId); }
  }

  lemma {:induction false} HoursOfAllOk(h: HourTable, locations: Table<Scoped, LocationCols>, org: nat,
                                        items: seq<LocationItem>)
    requires HoursOk(h, locations.lastId) && UniqueIds(locations)
    requires forall x | x in items :: (org, x.key) in locations.rows && CleanLocation(x)
    ensures HoursOfAll(h, locations, org, items).Some? ==>
              HoursOk(HoursOfAll(h, locations, org, items).value, locations.lastId)
  {
    hide CleanHour, CleanKey, CleanLocationCols, InsertHours;
    if items != [] {
      var n := |items| - 1;
      HoursOfAllOk(h, locations, org, items[..n]);
      var before := HoursOfAll(h, locations, org, items[..n]);
      var x := items[n];
      assert x in items;
      if before.Some? && x.officeHours.Some? {
        InsertHoursOk(ClearHours(before.value, locations.rows[(org, x.key)].id), locations.rows[(org, x.key)].id,
                      x.officeHours.value, locations.lastId);
      }
    }
  }

  /** Members belong to groups that exist and refer to providers of the same organization. */
  ghost predicate MemberOk(m: (nat, nat), groups: Table<Scoped, GroupCols>, providers: Table<Scoped, ProviderCols>) {
    && m.0 <= groups.lastId
    && forall k | k in groups.rows && groups.rows[k].id == m.0 :: Refers(providers, k.0, m.1)
  }

  lemma {:induction false} InsertedMembers(m: MemberTable, group: nat, ids: seq<nat>)
    requires InsertMembers(m, group, ids).Some?
    ensures forall k | k in InsertMembers(m, group, ids).value :: k in m || (k.0 == group && k.1 in ids)
  {
    if ids != [] {
      var n := |ids| - 1;
      InsertedMembers(m, group, ids[..n]);
      assert ids == ids[..n] + [ids[n]];
    }
  }

  lemma {:induction false} ResolvedRefer(providers: Table<Scoped, ProviderCols>, org: nat, keys: seq<string>)
    requires ResolveProviders(providers, org, keys).Some?
    ensures forall id | id in ResolveProviders(providers, org, keys).value :: Refers(providers, org, id)
  {
    if keys != [] {
      var n := |keys| - 1;
      ResolvedRefer(providers, org, keys[..n]);
      var k := (org, keys[n]);
      assert k in providers.rows && k.0 == org;
    }
  }

  lemma {:induction false} MembersOfAllOk(m: MemberTable, groups: Table<Scoped, GroupCols>,
                                          providers: Table<Scoped, ProviderCols>, org: nat, items: seq<GroupItem>)
    requires UniqueIds(groups) && (forall x | x in items :: (org, x.key) in groups.rows)
    requires forall k | k in m :: MemberOk(k, groups, providers)
    ensures var r := MembersOfAll(m, groups, providers, org, items);
            r.Done? ==> forall k | k in r.value :: MemberOk(k, groups, providers)
  {
    hide Refers, InsertMembers, ResolveProviders;
    if items != [] {
      var n := |items| - 1;
      var x := items[n];
      MembersOfAllOk(m, groups, providers, org, items[..n]);
      var before := MembersOfAll(m, groups, providers, org, items[..n]);
      var r := MembersOfAll(m, groups, providers, org, items);
      assert x in items;
      if r.Done? && x.providers.Some? {
        var ids := ResolveProviders(providers, org, x.providers.value).value;
        var id := groups.rows[(org, x.key)].id;
        ResolvedRefer(providers, org, x.providers.value);
        InsertedMembers(ClearMembers(before.value, id), id, ids);
      }
    }
  }

  ghost predicate SettingsOk(s: SettingTable, lastId: nat) {
    forall k | k in s :: CleanSetting(SettingItem(k.1, k.2, s[k].value)) && k.0 <= lastId
  }

  lemma {:induction false} SettingsOfAllOk(s: SettingTable, org: nat, items: seq<SettingItem>, now: int, lastId: nat)
    requires SettingsOk(s, lastId) && org <= lastId && forall x | x in items :: CleanSetting(x)
    ensures SettingsOk(SettingsOfAll(s, org, items, now), lastId)
  {
    hide CleanKey;
    if items != [] { SettingsOfAllOk(s, org, items[..|items| - 1], now, lastId); }
  }

  lemma GroupRowsRefer(items: seq<GroupItem>, areas: Table<Scoped, CatalogCols>, org: nat)
    requires GroupRows(items, areas, org).Some?
    ensures var rows := GroupRows(items, areas, org).value;
            |rows| == |items| && forall i | 0 <= i < |items| ::
              rows[i].0 == items[i].key && rows[i].1.name == items[i].name
                                                                && Refers(areas, org, rows[i].1.serviceAreaId)
  {
    GroupRowsKeys(items, areas, org);
    forall i | 0 <= i < |items| ensures Refers(areas, org, GroupRows(items, areas, org).value[i].1.serviceAreaId) {
      var k := (org, items[i].serviceArea);
      assert k in areas.rows && k.0 == org;
    }
  }

  lemma GrownRefers<C>(t: Table<Scoped, C>, r: Table<Scoped, C>, org: nat, any: nat, id: nat)
    requires Grown(t, r, org) && Refers(t, any, id)
    ensures Refers(r, any, id)
  {
    var k :| k in t.rows && k.0 == any && t.rows[k].id == id;
    assert k in r.rows && r.rows[k].id == id;
  }

  // ── Table by table ─────────────────────────────────────────────────────────

  lemma LocationsStay(s: Tables, org: nat, items: seq<LocationItem>, now: int)
    requires CleanRows(s) && UniqueIds(s.locations) && forall x | x in items :: CleanLocation(x)
    ensures var r := UpsertAll(s.locations, org, LocationRows(items), PatchLocation, now);
            UniqueIds(r) && Grown(s.locations, r, org) && forall k | k in r.rows ::
              CleanLocation(LocationItem(k.1, r.rows[k].cols, None))
  {
    hide CleanKey, CleanText, UniqueIds, UpsertAll, CleanOption, CleanOrganization, CleanProvider, CleanCatalogItem,
         CleanSetting, CleanHour;
    UpsertGrows(s.locations, org, LocationRows(items), PatchLocation, now);
    UpsertKeepsIdsUnique(s.locations, org, LocationRows(items), PatchLocation, now);
    var p := (k: Scoped, c: LocationCols) => CleanLocation(LocationItem(k.1, c, None));
    forall i | 0 <= i < |items|
      ensures p((org, LocationRows(items)[i].0), LocationRows(items)[i].1)
    {
      assert items[i] in items;
    }
    forall k, c, d | p(k, c) && p(k, d) ensures p(k, PatchLocation(c, d)) { PatchedLocation(c, d); }
    UpsertKeeps(s.locations, org, LocationRows(items), PatchLocation, now, p);
    var r := UpsertAll(s.locations, org, LocationRows(items), PatchLocation, now);
    forall k | k in r.rows
      ensures CleanLocation(LocationItem(k.1, r.rows[k].cols, None))
    {
      assert p(k, r.rows[k].cols);
    }
  }

  lemma PatchedLocation(c: LocationCols, d: LocationCols)
    requires CleanLocationCols(c) && CleanLocationCols(d)
    ensures CleanLocationCols(PatchLocation(c, d))
  {
    hide CleanText;
  }

  lemma ProvidersStay(s: Tables, org: nat, items: seq<ProviderItem>, now: int)
    requires CleanRows(s) && UniqueIds(s.providers) && forall x | x in items :: CleanProvider(x)
    ensures var r := UpsertAll(s.providers, org, ProviderRows(items), PatchProvider, now);
            UniqueIds(r) && Grown(s.providers, r, org) && forall k | k in r.rows ::
              CleanProvider(ProviderItem(k.1, r.rows[k].cols))
  {
    hide CleanKey, CleanText, UniqueIds, UpsertAll, CleanEmail, CleanOption, CleanOrganization, CleanLocation,
         CleanCatalogItem, CleanSetting, CleanHour;
    UpsertGrows(s.providers, org, ProviderRows(items), PatchProvider, now);
    UpsertKeepsIdsUnique(s.providers, org, ProviderRows(items), PatchProvider, now);
    var p := (k: Scoped, c: ProviderCols) => CleanProvider(ProviderItem(k.1, c));
    forall i | 0 <= i < |items|
      ensures p((org, ProviderRows(items)[i].0), ProviderRows(items)[i].1)
    {
      assert items[i] in items;
    }
    forall k: Scoped, c, d | p(k, c) && p(k, d) ensures p(k, PatchProvider(c, d)) { PatchedProvider(k.1, c, d); }
    UpsertKeeps(s.providers, org, ProviderRows(items), PatchProvider, now, p);
    var r := UpsertAll(s.providers, org, ProviderRows(items), PatchProvider, now);
    forall k | k in r.rows ensures CleanProvider(ProviderItem(k.1, r.rows[k].cols)) { assert p(k, r.rows[k].cols); }
  }

  lemma PatchedProvider(key: string, c: ProviderCols, d: ProviderCols)
    requires CleanProvider(ProviderItem(key, c)) && CleanProvider(ProviderItem(key, d))
    ensures CleanProvider(ProviderItem(key, PatchProvider(c, d)))
  {
    hide CleanText, CleanKey, EmailShaped, LowerDomain;
  }

  lemma CatalogStays(t: Table<Scoped, CatalogCols>, org: nat, items: seq<CatalogItem>, now: int)
    requires UniqueIds(t) && forall k | k in t.rows :: CleanCatalogItem(CatalogItem(k.1, t.rows[k].cols))
    requires forall x | x in items :: CleanCatalogItem(x)
    ensures var r := UpsertAll(t, org, CatalogRows(items), PatchCatalog, now);
            UniqueIds(r) && Grown(t, r, org) && forall k | k in r.rows ::
              CleanCatalogItem(CatalogItem(k.1, r.rows[k].cols))
  {
    hide CleanCatalogItem, UniqueIds, UpsertAll;
    UpsertGrows(t, org, CatalogRows(items), PatchCatalog, now);
    UpsertKeepsIdsUnique(t, org, CatalogRows(items), PatchCatalog, now);
    var p := (k: Scoped, c: CatalogCols) => CleanCatalogItem(CatalogItem(k.1, c));
    forall i | 0 <= i < |items| ensures p((org, CatalogRows(items)[i].0), CatalogRows(items)[i].1) {
      assert items[i] in items && items[i] == CatalogItem(items[i].key, items[i].cols);
    }
    UpsertKeeps(t, org, CatalogRows(items), PatchCatalog, now, p);
    var r := UpsertAll(t, org, CatalogRows(items), PatchCatalog, now);
    forall k | k in r.rows ensures CleanCatalogItem(CatalogItem(k.1, r.rows[k].cols)) { assert p(k, r.rows[k].cols); }
  }

  ghost predicate GroupRowOk(areas: Table<Scoped, CatalogCols>, k: Scoped, c: GroupCols) {
    CleanKey(k.1) && CleanText(c.name, NAME_LIMIT) && Refers(areas, k.0, c.serviceAreaId)
  }

  lemma GroupsStay(s: Tables, areas: Table<Scoped, CatalogCols>, org: nat, items: seq<GroupItem>, now: int)
    requires CleanRows(s) && References(s) && UniqueIds(s.routingGroups) && Grown(s.serviceAreas, areas, org)
    requires (forall x | x in items :: CleanGroup(x)) && GroupRows(items, areas, org).Some?
    ensures var r := UpsertAll(s.routingGroups, org, GroupRows(items, areas, org).value, PatchGroup, now);
            UniqueIds(r) && Grown(s.routingGroups, r, org) && forall k | k in r.rows ::
              GroupRowOk(areas, k, r.rows[k].cols)
  {
    hide CleanKey, CleanText, UniqueIds, UpsertAll, Refers, Grown, GroupRows, CleanOrganization, CleanLocation,
         CleanProvider, CleanCatalogItem, CleanSetting, CleanHour;
    var rows := GroupRows(items, areas, org).value;
    GroupRowsRefer(items, areas, org);
    UpsertGrows(s.routingGroups, org, rows, PatchGroup, now);
    UpsertKeepsIdsUnique(s.routingGroups, org, rows, PatchGroup, now);
    var p := (k: Scoped, c: GroupCols) => GroupRowOk(areas, k, c);
    forall k | k in s.routingGroups.rows ensures p(k, s.routingGroups.rows[k].cols) {
      GrownRefers(s.serviceAreas, areas, org, k.0, s.routingGroups.rows[k].cols.serviceAreaId);
    }
    forall i | 0 <= i < |rows| ensures p((org, rows[i].0), rows[i].1) { assert items[i] in items; }
    UpsertKeeps(s.routingGroups, org, rows, PatchGroup, now, p);
    var r := UpsertAll(s.routingGroups, org, rows, PatchGroup, now);
    forall k | k in r.rows ensures GroupRowOk(areas, k, r.rows[k].cols) { assert p(k, r.rows[k].cols); }
  }

  /** Members stored before still belong where they did: a new group's id is greater than any they name. */
  lemma OldMembersOk(s: Tables, groups: Table<Scoped, GroupCols>, providers: Table<Scoped, ProviderCols>, org: nat)
    requires References(s) && Bounded(s) && Grown(s.routingGroups, groups, org) && Grown(s.providers, providers, org)
    ensures forall m | m in s.members :: MemberOk(m, groups, providers)
  {
    hide Refers;
    forall m | m in s.members ensures MemberOk(m, groups, providers) {
      forall k | k in groups.rows && groups.rows[k].id == m.0 ensures Refers(providers, k.0, m.1) {
        assert k in s.routingGroups.rows;
        GrownRefers(s.providers, providers, org, k.0, m.1);
      }
    }
  }

  lemma OrganizationsStay(s: Tables, x: OrganizationItem, now: int)
    requires CleanRows(s) && UniqueIds(s.organizations) && CleanOrganization(x)
    ensures var r := Upsert(s.organizations, x.key, x.cols, PatchOrganization, now);
            && UniqueIds(r) && s.organizations.lastId <= r.lastId && r.rows[x.key].id <= r.lastId
            && forall k | k in r.rows :: CleanOrganization(OrganizationItem(k, r.rows[k].cols))
  {
    hide CleanKey, CleanText, CleanLocation, CleanProvider, CleanCatalogItem, CleanSetting, CleanHour;
  }

  lemma BoundedGrown<C>(t: Table<Scoped, C>, r: Table<Scoped, C>, org: nat, was: nat, lastId: nat)
    requires (forall k | k in t.rows :: k.0 <= was) && Grown(t, r, org) && org <= lastId && was <= lastId
    ensures forall k | k in r.rows :: k.0 <= lastId
  {
  }

  /** Any import keeps every id unique, every reference inside its organization, and every column clean. */
  lemma ImportKeepsStoresWellFormed(s: Tables, tree: Json, now: int)
    requires WellFormed(s) && Import(s, tree, now).Done?
    ensures WellFormed(Import(s, tree, now).value)
  {
    hide CleanOrganization, CleanLocation, CleanProvider, CleanCatalogItem, CleanGroup, CleanSetting, CleanHour,
         CleanKey, CleanText, UniqueIds, Refers, Grown, Parse, UpsertAll, HoursOfAll, MembersOfAll, SettingsOfAll,
         GroupRows, LocationRows, ProviderRows, CatalogRows, References, Bounded, CleanRows;
    ParsedIsClean(tree);
    var d := Parse(tree).item;
    OrganizationsStay(s, d.organization, now);
    var organizations := Upsert(s.organizations, d.organization.key, d.organization.cols, PatchOrganization, now);
    var org := organizations.rows[d.organization.key].id;
    ProvidersStay(s, org, d.providers, now);
    LocationsStay(s, org, d.locations, now);
    CatalogsAreClean(s);
    CatalogStays(s.serviceAreas, org, d.serviceAreas, now);
    CatalogStays(s.consultationTypes, org, d.consultationTypes, now);
    var providers := UpsertAll(s.providers, org, ProviderRows(d.providers), PatchProvider, now);
    var locations := UpsertAll(s.locations, org, LocationRows(d.locations), PatchLocation, now);
    var areas := UpsertAll(s.serviceAreas, org, CatalogRows(d.serviceAreas), PatchCatalog, now);
    GroupsStay(s, areas, org, d.routingGroups, now);
    var groups := UpsertAll(s.routingGroups, org, GroupRows(d.routingGroups, areas, org).value, PatchGroup, now);
    LocationsUpserted(s.locations, org, d.locations, now);
    GroupsUpserted(s.routingGroups, areas, org, d.routingGroups, now);
    OldHoursOk(s, locations, org);
    HoursOfAllOk(s.officeHours, locations, org, d.locations);
    OldMembersOk(s, groups, providers, org);
    MembersOfAllOk(s.members, groups, providers, org, d.routingGroups);
    OldSettingsOk(s, organizations.lastId);
    SettingsOfAllOk(s.settings, org, d.settings, now, organizations.lastId);
    Assemble(s, Import(s, tree, now).value, org);
  }

  lemma CatalogsAreClean(s: Tables)
    requires CleanRows(s)
    ensures forall k | k in s.serviceAreas.rows :: CleanCatalogItem(CatalogItem(k.1, s.serviceAreas.rows[k].cols))
    ensures forall k | k in s.consultationTypes.rows ::
              CleanCatalogItem(CatalogItem(k.1, s.consultationTypes.rows[k].cols))
  {
    hide CleanCatalogItem;
  }

  lemma OldHoursOk(s: Tables, locations: Table<Scoped, LocationCols>, org: nat)
    requires CleanRows(s) && Bounded(s) && Grown(s.locations, locations, org)
    ensures HoursOk(s.officeHours, locations.lastId)
  {
    hide CleanHour;
  }

  lemma OldSettingsOk(s: Tables, lastId: nat)
    requires CleanRows(s) && Bounded(s) && s.organizations.lastId <= lastId
    ensures SettingsOk(s.settings, lastId)
  {
    hide CleanSetting;
  }

  lemma Assemble(s: Tables, r: Tables, org: nat)
    requires Bounded(s) && Ids(r) && org <= r.organizations.lastId && s.organizations.lastId <= r.organizations.lastId
    requires Grown(s.providers, r.providers, org) && Grown(s.locations, r.locations, org)
             && Grown(s.serviceAreas, r.serviceAreas, org)
    requires Grown(s.consultationTypes, r.consultationTypes, org) && Grown(s.routingGroups, r.routingGroups, org)
    requires forall k | k in r.organizations.rows ::
               CleanOrganization(OrganizationItem(k, r.organizations.rows[k].cols))
    requires forall k | k in r.locations.rows :: CleanLocation(LocationItem(k.1, r.locations.rows[k].cols, None))
    requires forall k | k in r.providers.rows :: CleanProvider(ProviderItem(k.1, r.providers.rows[k].cols))
    requires forall k | k in r.serviceAreas.rows :: CleanCatalogItem(CatalogItem(k.1, r.serviceAreas.rows[k].cols))
    requires forall k | k in r.consultationTypes.rows ::
               CleanCatalogItem(CatalogItem(k.1, r.consultationTypes.rows[k].cols))
    requires forall k | k in r.routingGroups.rows :: GroupRowOk(r.serviceAreas, k, r.routingGroups.rows[k].cols)
    requires HoursOk(r.officeHours, r.locations.lastId) && SettingsOk(r.settings, r.organizations.lastId)
    requires forall m | m in r.members :: MemberOk(m, r.routingGroups, r.providers)
    ensures WellFormed(r)
  {
    hide CleanOrganization, CleanLocation, CleanProvider, CleanCatalogItem, CleanSetting, CleanHour, CleanKey,
         CleanText, UniqueIds, Refers, Grown;
    BoundedGrown(s.locations, r.locations, org, s.organizations.lastId, r.organizations.lastId);
    BoundedGrown(s.providers, r.providers, org, s.organizations.lastId, r.organizations.lastId);
    BoundedGrown(s.serviceAreas, r.serviceAreas, org, s.organizations.lastId, r.organizations.lastId);
    BoundedGrown(s.consultationTypes, r.consultationTypes, org, s.organizations.lastId, r.organizations.lastId);
    BoundedGrown(s.routingGroups, r.routingGroups, org, s.organizations.lastId, r.organizations.lastId);
  }
}
