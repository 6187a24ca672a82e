/**
 * Import and export are inverse: an organization's own export changes nothing it stores but update times (and, for
 * groups whose positions have gaps or repeats, the positions), and an export carried to a store that does not know the
 * organization is exported from there unchanged.
 */
module OrganizationRoundTrip {
  import opened Options
  import opened ConfigValidation
  import opened OrganizationImport
  import opened Listings
  import opened OrganizationExport
  import opened ImportFolds
  import opened ImportInvariants
  import opened Sequences

  // ── What an export lists ───────────────────────────────────────────────────

  /** What listing a table's rows amounts to: a row for each, none twice. */
  ghost predicate Lists<C>(t: Table<Scoped, C>, org: nat, rows: seq<(string, C)>) {
    && (forall i | 0 <= i < |rows| :: (org, rows[i].0) in t.rows && t.rows[(org, rows[i].0)].cols == rows[i].1)
    && (forall k | k in t.rows && k.0 == org :: Named(rows, k.1))
    && DistinctKeys(rows)
  }

  lemma ListsOwn<C(!new)>(t: Table<Scoped, C>, org: nat, rows: seq<(string, C)>, patch: (C, C) -> C)
    requires Lists(t, org, rows) && forall c :: patch(c, c) == c
    ensures OwnItems(t, org, rows, patch)
  {
    hide Named, DistinctKeys;
  }

  lemma LocationsListed(t: Table<Scoped, LocationCols>, h: HourTable, org: nat, items: seq<LocationItem>)
    requires items == Listing(LocationSet(t, h, org), LocationBefore)
    ensures forall x | x in items :: (org, x.key) in t.rows && x.cols == t.rows[(org, x.key)].cols
                                     && x.officeHours == Some(HoursOf(h, t.rows[(org, x.key)].id))
    ensures forall k | k in t.rows && k.0 == org ::
              LocationItem(k.1, t.rows[k].cols, Some(HoursOf(h, t.rows[k].id))) in items
    ensures DistinctLocations(items)
  {
    hide HoursOf, Listing;
    assert forall x | x in items :: x in LocationSet(t, h, org);
    forall k | k in t.rows && k.0 == org
      ensures LocationItem(k.1, t.rows[k].cols, Some(HoursOf(h, t.rows[k].id))) in items
    {
      assert LocationItem(k.1, t.rows[k].cols, Some(HoursOf(h, t.rows[k].id))) in LocationSet(t, h, org);
    }
    forall x, y | x in items && y in items && x.key == y.key ensures x == y {}
  }

  lemma ListedLocations(t: Table<Scoped, LocationCols>, h: HourTable, org: nat, items: seq<LocationItem>)
    requires items == Listing(LocationSet(t, h, org), LocationBefore)
    ensures forall x | x in items ::
              (org, x.key) in t.rows && x.officeHours == Some(HoursOf(h, t.rows[(org, x.key)].id))
    ensures DistinctLocations(items) && Lists(t, org, LocationRows(items))
  {
    hide HoursOf, Listing, LocationSet;
    LocationsListed(t, h, org, items);
    forall i | 0 <= i < |items| ensures items[i] in items && LocationRows(items)[i] == (items[i].key, items[i].cols) {}
    forall k | k in t.rows && k.0 == org ensures Named(LocationRows(items), k.1) {
      var i :| 0 <= i < |items| && items[i] == LocationItem(k.1, t.rows[k].cols, Some(HoursOf(h, t.rows[k].id)));
      assert LocationRows(items)[i].0 == k.1;
    }
  }

  lemma ProvidersListed(t: Table<Scoped, ProviderCols>, org: nat, items: seq<ProviderItem>)
    requires items == Listing(ProviderSet(t, org), ProviderBefore)
    ensures forall x | x in items :: (org, x.key) in t.rows && x.cols == t.rows[(org, x.key)].cols
    ensures forall k | k in t.rows && k.0 == org :: ProviderItem(k.1, t.rows[k].cols) in items
    ensures forall i, j | 0 <= i < j < |items| :: items[i].key != items[j].key
  {
    hide Listing;
    assert forall x | x in items :: x in ProviderSet(t, org);
    forall k | k in t.rows && k.0 == org ensures ProviderItem(k.1, t.rows[k].cols) in items {
      assert ProviderItem(k.1, t.rows[k].cols) in ProviderSet(t, org);
    }
    forall x, y | x in items && y in items && x.key == y.key ensures x == y {}
  }

  lemma ListedProviders(t: Table<Scoped, ProviderCols>, org: nat, items: seq<ProviderItem>)
    requires items == Listing(ProviderSet(t, org), ProviderBefore)
    ensures Lists(t, org, ProviderRows(items))
  {
    hide Listing, ProviderSet;
    ProvidersListed(t, org, items);
    forall i | 0 <= i < |items| ensures items[i] in items && ProviderRows(items)[i] == (items[i].key, items[i].cols) {}
    forall k | k in t.rows && k.0 == org ensures Named(ProviderRows(items), k.1) {
      var i :| 0 <= i < |items| && items[i] == ProviderItem(k.1, t.rows[k].cols);
      assert ProviderRows(items)[i].0 == k.1;
    }
  }

  lemma CatalogListed(t: Table<Scoped, CatalogCols>, org: nat, items: seq<CatalogItem>)
    requires items == Listing(CatalogSet(t, org), CatalogBefore)
    ensures forall x | x in items :: (org, x.key) in t.rows && x.cols == t.rows[(org, x.key)].cols
    ensures forall k | k in t.rows && k.0 == org :: CatalogItem(k.1, t.rows[k].cols) in items
    ensures forall i, j | 0 <= i < j < |items| :: items[i].key != items[j].key
  {
    hide Listing;
    assert forall x | x in items :: x in CatalogSet(t, org);
    forall k | k in t.rows && k.0 == org ensures CatalogItem(k.1, t.rows[k].cols) in items {
      assert CatalogItem(k.1, t.rows[k].cols) in CatalogSet(t, org);
    }
    forall x, y | x in items && y in items && x.key == y.key ensures x == y {}
  }

  lemma ListedCatalog(t: Table<Scoped, CatalogCols>, org: nat, items: seq<CatalogItem>)
    requires items == Listing(CatalogSet(t, org), CatalogBefore)
    ensures Lists(t, org, CatalogRows(items))
  {
    hide Listing, CatalogSet;
    CatalogListed(t, org, items);
    forall i | 0 <= i < |items| ensures items[i] in items && CatalogRows(items)[i] == (items[i].key, items[i].cols) {}
    forall k | k in t.rows && k.0 == org ensures Named(CatalogRows(items), k.1) {
      var i :| 0 <= i < |items| && items[i] == CatalogItem(k.1, t.rows[k].cols);
      assert CatalogRows(items)[i].0 == k.1;
    }
  }

  lemma ListedGroups(s: Tables, org: nat, items: seq<GroupItem>)
    requires items == Listing(GroupSet(s, org), GroupBefore)
    ensures forall x | x in items :: (org, x.key) in s.routingGroups.rows && x == GroupOf(s, (org, x.key))
    ensures DistinctGroups(items)
    ensures forall k | k in s.routingGroups.rows && k.0 == org :: GroupOf(s, k) in items
  {
    hide MembersOf, KeyOfId, Listing;
    forall x | x in items ensures (org, x.key) in s.routingGroups.rows && x == GroupOf(s, (org, x.key)) {
      assert x in GroupSet(s, org);
      var k :| k in s.routingGroups.rows && k.0 == org && x == GroupOf(s, k);
      assert k == (org, x.key);
    }
    forall k | k in s.routingGroups.rows && k.0 == org ensures GroupOf(s, k) in items {
      assert GroupOf(s, k) in GroupSet(s, org);
    }
    forall i, j | 0 <= i < j < |items| ensures items[i].key != items[j].key {
      assert items[i] in items && items[j] in items && items[i] != items[j];
    }
  }

  lemma SettingsListed(t: SettingTable, org: nat, items: seq<SettingItem>)
    requires items == Listing(SettingSet(t, org), SettingBefore)
    ensures forall x | x in items :: (org, x.namespace, x.key) in t && x.value == t[(org, x.namespace, x.key)].value
    ensures forall k | k in t && k.0 == org :: SettingItem(k.1, k.2, t[k].value) in items
    ensures DistinctSettings(items)
  {
    hide Listing;
    assert forall x | x in items :: x in SettingSet(t, org);
    forall k | k in t && k.0 == org ensures SettingItem(k.1, k.2, t[k].value) in items {
      assert SettingItem(k.1, k.2, t[k].value) in SettingSet(t, org);
    }
    forall x, y | x in items && y in items && x.namespace == y.namespace && x.key == y.key ensures x == y {}
  }

  lemma ListedSettings(t: SettingTable, org: nat, items: seq<SettingItem>)
    requires items == Listing(SettingSet(t, org), SettingBefore)
    ensures forall x | x in items :: (org, x.namespace, x.key) in t && x.value == t[(org, x.namespace, x.key)].value
    ensures DistinctSettings(items)
    ensures forall k | k in t && k.0 == org :: SettingNamed(items, k.1, k.2)
  {
    hide Listing, SettingSet;
    SettingsListed(t, org, items);
    forall k | k in t && k.0 == org ensures SettingNamed(items, k.1, k.2) {
      var i :| 0 <= i < |items| && items[i] == SettingItem(k.1, k.2, t[k].value);
    }
  }

  /** A group's exported member keys: each once, each a provider of the organization, together exactly the members. */
  lemma MemberKeys(s: Tables, k: Scoped)
    requires Ids(s) && References(s) && k in s.routingGroups.rows
    ensures var g := s.routingGroups.rows[k].id; var keys := MembersOf(s.members, s.providers, g);
            && Distinct(keys) && Known(s.providers, k.0, keys)
            && (forall p | (g, p) in s.members :: KeyOfId(s.providers, p) in keys && Refers(s.providers, k.0, p))
            && (forall key | key in keys ::
                  (k.0, key) in s.providers.rows && (g, s.providers.rows[(k.0, key)].id) in s.members)
  {
    hide UniqueIds, Refers, KeyOfId, Listing;
    var g := s.routingGroups.rows[k].id;
    var pairs := Listing(MemberSet(s.members, s.providers, g), MemberBefore);
    var keys := MembersOf(s.members, s.providers, g);
    forall i | 0 <= i < |keys|
      ensures (k.0, keys[i]) in s.providers.rows && (g, s.providers.rows[(k.0, keys[i])].id) in s.members
      ensures pairs[i].0 == s.members[(g, s.providers.rows[(k.0, keys[i])].id)]
    {
      assert pairs[i] in pairs;
      var m :| m in s.members && m.0 == g && pairs[i] == (s.members[m], KeyOfId(s.providers, m.1));
      ReferredKey(s.providers, k.0, m.1);
      assert m == (g, m.1);
    }
    forall i, j | 0 <= i < j < |keys| ensures keys[i] != keys[j] {
      assert pairs[i] != pairs[j] && pairs[i] == (pairs[i].0, keys[i]) && pairs[j] == (pairs[j].0, keys[j]);
    }
    forall p | (g, p) in s.members ensures KeyOfId(s.providers, p) in keys && Refers(s.providers, k.0, p) {
      var m := (g, p);
      assert (s.members[m], KeyOfId(s.providers, m.1)) in MemberSet(s.members, s.providers, g);
      var i :| 0 <= i < |pairs| && pairs[i] == (s.members[m], KeyOfId(s.providers, m.1));
      assert keys[i] == KeyOfId(s.providers, p);
    }
  }

  // ── Importing an organization's own export ─────────────────────────────────

  ghost function IndexOf<T>(l: seq<T>, x: T): nat {
    if i :| 0 <= i < |l| && l[i] == x then i else 0
  }

  /** A member's place in its group's exported order. */
  ghost function PlaceOf(s: Tables, member: (nat, nat)): nat {
    IndexOf(MembersOf(s.members, s.providers, member.0), KeyOfId(s.providers, member.1))
  }

  ghost function Renumbered(s: Tables, org: nat): MemberTable {
    map k | k in s.members :: if Refers(s.routingGroups, org, k.0) then PlaceOf(s, k) else s.members[k]
  }

  function TouchSettings(t: SettingTable, org: nat, now: int): SettingTable {
    map k | k in t :: if k.0 == org then t[k].(updatedAt := now) else t[k]
  }

  ghost function Reimported(s: Tables, key: string, now: int): Tables
    requires key in s.organizations.rows
  {
    var row := s.organizations.rows[key];
    Tables(
      s.organizations.(rows := s.organizations.rows[key := row.(updatedAt := now)]),
      Touch(s.locations, row.id, now), Touch(s.providers, row.id, now), Touch(s.serviceAreas, row.id, now),
      Touch(s.consultationTypes, row.id, now), Touch(s.routingGroups, row.id, now),
      s.officeHours, Renumbered(s, row.id), TouchSettings(s.settings, row.id, now))
  }

  lemma ReimportRows<C(!new)>(t: Table<Scoped, C>, org: nat, rows: seq<(string, C)>, patch: (C, C) -> C, now: int)
    requires Lists(t, org, rows) && forall c :: patch(c, c) == c
    ensures UpsertAll(t, org, rows, patch, now) == Touch(t, org, now)
  {
    ListsOwn(t, org, rows, patch);
    UpsertOwn(t, org, rows, patch, now);
  }

  lemma TouchKeepsIds<C>(t: Table<Scoped, C>, org: nat, now: int)
    ensures UniqueIds(t) ==> UniqueIds(Touch(t, org, now))
    ensures forall k :: k in t.rows <==> k in Touch(t, org, now).rows
    ensures forall k | k in t.rows :: Touch(t, org, now).rows[k].id == t.rows[k].id
  {
  }

  lemma AreaResolves(s: Tables, org: nat, items: seq<GroupItem>, areas: Table<Scoped, CatalogCols>)
    requires Ids(s) && References(s)
    requires items == Listing(GroupSet(s, org), GroupBefore)
    requires forall k :: k in s.serviceAreas.rows <==> k in areas.rows
    requires forall k | k in s.serviceAreas.rows :: areas.rows[k].id == s.serviceAreas.rows[k].id
    ensures forall x | x in items :: (org, x.key) in s.routingGroups.rows && (org, x.serviceArea) in areas.rows
              && s.routingGroups.rows[(org, x.key)].cols
                   == GroupCols(x.name, areas.rows[(org, x.serviceArea)].id, x.active)
  {
    hide MembersOf, KeyOfId, UniqueIds, Refers, Listing, GroupSet;
    ListedGroups(s, org, items);
    forall x | x in items
      ensures (org, x.serviceArea) in areas.rows
              && areas.rows[(org, x.serviceArea)].id == s.routingGroups.rows[(org, x.key)].cols.serviceAreaId
    {
      ReferredKey(s.serviceAreas, org, s.routingGroups.rows[(org, x.key)].cols.serviceAreaId);
    }
  }

  lemma OwnGroupRows(s: Tables, org: nat, items: seq<GroupItem>, now: int)
    requires Ids(s) && References(s)
    requires items == Listing(GroupSet(s, org), GroupBefore)
    ensures var rows := GroupRows(items, Touch(s.serviceAreas, org, now), org);
            rows.Some? && Lists(s.routingGroups, org, rows.value)
  {
    hide GroupOf, UniqueIds, References, Touch, Listing, GroupSet, GroupRows;
    var areas := Touch(s.serviceAreas, org, now);
    TouchKeepsIds(s.serviceAreas, org, now);
    ListedGroups(s, org, items);
    AreaResolves(s, org, items, areas);
    forall i | 0 <= i < |items| ensures items[i] in items {}
    GroupRowsResolve(items, areas, org);
    GroupRowsKeys(items, areas, org);
    var rows := GroupRows(items, areas, org).value;
    forall k | k in s.routingGroups.rows && k.0 == org ensures Named(rows, k.1) {
      var i :| 0 <= i < |items| && items[i] == GroupOf(s, k);
      GroupKey(s, k);
      assert rows[i].0 == k.1;
    }
  }

  lemma GroupKey(s: Tables, k: Scoped)
    requires k in s.routingGroups.rows
    ensures GroupOf(s, k).key == k.1
  {
  }

  /** Where one group's members end up. */
  lemma OwnGroupMembers(s: Tables, k: Scoped, providers: Table<Scoped, ProviderCols>, r: MemberTable, p: nat)
    requires Ids(s) && References(s) && k in s.routingGroups.rows
    requires forall j :: j in s.providers.rows <==> j in providers.rows
    requires forall j | j in s.providers.rows :: providers.rows[j].id == s.providers.rows[j].id
    requires var keys := MembersOf(s.members, s.providers, s.routingGroups.rows[k].id);
             var ids := ResolveProviders(providers, k.0, keys);
             ids.Some? && Placed(r, s.routingGroups.rows[k].id, ids.value)
    ensures var m := (s.routingGroups.rows[k].id, p);
            (m in r <==> m in s.members) && (m in s.members ==> r[m] == PlaceOf(s, m))
  {
    hide UniqueIds, Refers, KeyOfId, ResolveProviders, MembersOf;
    var g := s.routingGroups.rows[k].id;
    var keys := MembersOf(s.members, s.providers, g);
    var m := (g, p);
    MemberKeys(s, k);
    ResolveAll(providers, k.0, keys);
    var ids := ResolveProviders(providers, k.0, keys).value;
    if m in s.members {
      ReferredKey(s.providers, k.0, p);
      var i := IndexOf(keys, KeyOfId(s.providers, p));
      assert keys[i] == KeyOfId(s.providers, p);
      assert ids[i] == p;
    }
    if p in ids {
      var i :| 0 <= i < |ids| && ids[i] == p;
      assert keys[i] in keys;
    }
  }

  lemma KnownToo(t: Table<Scoped, ProviderCols>, r: Table<Scoped, ProviderCols>, org: nat, keys: seq<string>)
    requires Known(t, org, keys) && forall k | k in t.rows :: k in r.rows
    ensures Known(r, org, keys)
  {
  }

  lemma OwnMembers(s: Tables, org: nat, items: seq<GroupItem>, now: int)
    requires Ids(s) && References(s)
    requires items == Listing(GroupSet(s, org), GroupBefore)
    ensures forall x | x in items :: (org, x.key) in Touch(s.routingGroups, org, now).rows
    ensures MembersOfAll(s.members, Touch(s.routingGroups, org, now), Touch(s.providers, org, now), org, items)
              == Done(Renumbered(s, org))
  {
    hide UniqueIds, KeyOfId, ResolveProviders, MembersOf, Touch, Placed, Distinct, Known, PlaceOf, MembersOfAll,
         Listing, GroupSet, References;
    var groups, providers := Touch(s.routingGroups, org, now), Touch(s.providers, org, now);
    TouchKeepsIds(s.routingGroups, org, now);
    TouchKeepsIds(s.providers, org, now);
    ListedGroups(s, org, items);
    forall x | x in items
      ensures x.providers.Some? && Known(providers, org, x.providers.value) && Distinct(x.providers.value)
    {
      MemberKeys(s, (org, x.key));
      KnownToo(s.providers, providers, org, x.providers.value);
    }
    MembersOfAllPlaces(s.members, groups, providers, org, items);
    var r := MembersOfAll(s.members, groups, providers, org, items).value;
    forall m: (nat, nat) ensures (m in r <==> m in s.members) && (m in s.members ==> r[m] == Renumbered(s, org)[m]) {
      if Refers(s.routingGroups, org, m.0) {
        var k :| k in s.routingGroups.rows && k.0 == org && s.routingGroups.rows[k].id == m.0;
        assert GroupPlaced(r, groups, providers, org, GroupOf(s, k));
        OwnGroupMembers(s, k, providers, r, m.1);
      } else {
        forall x | x in items ensures m.0 != groups.rows[(org, x.key)].id {}
      }
    }
    assert r == Renumbered(s, org);
  }

  lemma OwnSettings(t: SettingTable, org: nat, items: seq<SettingItem>, now: int)
    requires items == Listing(SettingSet(t, org), SettingBefore)
    ensures SettingsOfAll(t, org, items, now) == TouchSettings(t, org, now)
  {
    hide SettingNamed, Listing, SettingSet, SettingsOfAll;
    ListedSettings(t, org, items);
    SettingsOfAllPlaces(t, org, items, now);
    var r := SettingsOfAll(t, org, items, now);
    forall k: (nat, string, string) ensures (k in r <==> k in t) && (k in t ==> r[k] == TouchSettings(t, org, now)[k]) {
      if k.0 == org && SettingNamed(items, k.1, k.2) {
        NamedSetting(items, k.1, k.2);
        var i :| 0 <= i < |items| && items[i] in items && items[i].namespace == k.1 && items[i].key == k.2;
        assert r[k] == Stored(items[i].value, now);
      }
    }
    assert r == TouchSettings(t, org, now);
  }

  lemma NamedSetting(items: seq<SettingItem>, namespace: string, key: string)
    requires SettingNamed(items, namespace, key)
    ensures exists i :: 0 <= i < |items| && items[i] in items && items[i].namespace == namespace && items[i].key == key
  {
    var i :| 0 <= i < |items| && items[i].namespace == namespace && items[i].key == key;
    assert items[i] in items;
  }

  /** No provider of the organization has an address that lower-casing made too long to be accepted again. */
  ghost predicate AddressesFit(s: Tables, key: string)
    requires key in s.organizations.rows
  {
    forall k | k in s.providers.rows && k.0 == s.organizations.rows[key].id :: EmailFits(s.providers.rows[k].cols.email)
  }

  lemma AddressesFitTheExport(s: Tables, key: string)
    requires key in s.organizations.rows
    ensures EmailsFit(Export(s, key)) <==> AddressesFit(s, key)
  {
    hide Listing, EmailFits, LocationSet, CatalogSet, GroupSet, SettingSet, ProviderRows;
    var org, items := s.organizations.rows[key].id, Export(s, key).providers;
    assert forall x :: x in items <==> x in ProviderSet(s.providers, org);
    forall k | k in s.providers.rows && k.0 == org
      ensures ProviderItem(k.1, s.providers.rows[k].cols) in ProviderSet(s.providers, org)
    {
    }
  }

  /**
   * The whole effect of importing an organization's own export: update times, and members renumbered in order; or, if
   * an address has outgrown its limit, nothing, for the export is refused.
   */
  lemma OwnExportOnlyTouches(s: Tables, key: string, now: int)
    requires WellFormed(s) && key in s.organizations.rows
    ensures Import(s, RenderDocument(Export(s, key)), now)
            == if AddressesFit(s, key) then Done(Reimported(s, key, now)) else Failed(ValidationFailed([Email]))
  {
    hide Export, Import, WellFormed;
    AddressesFitTheExport(s, key);
    if AddressesFit(s, key) { OwnExportReimported(s, key, now); } else { UnfitExportIsRefused(s, key, s, now); }
  }

  lemma UnfitExportIsRefused(s: Tables, key: string, t: Tables, now: int)
    requires WellFormed(s) && key in s.organizations.rows && !EmailsFit(Export(s, key))
    ensures Import(t, RenderDocument(Export(s, key)), now) == Failed(ValidationFailed([Email]))
  {
    hide Export, WellFormed, Parse, RenderDocument, EmailsFit;
    ExportIsClean(s, key);
    DocumentRoundTrip(Export(s, key));
  }

  lemma OwnExportReimported(s: Tables, key: string, now: int)
    requires WellFormed(s) && key in s.organizations.rows && EmailsFit(Export(s, key))
    ensures Import(s, RenderDocument(Export(s, key)), now) == Done(Reimported(s, key, now))
  {
    hide CleanRows, UniqueIds, References, Bounded, Parse, RenderDocument, CleanDocument, LocationSet, ProviderSet,
         CatalogSet, GroupSet, SettingSet, Listing, UpsertAll, HoursOfAll, MembersOfAll, SettingsOfAll, GroupRows,
         Renumbered, Touch, TouchSettings, OwnItems, Named, Lists, DistinctKeys, DistinctLocations, HoursOf,
         LocationRows, ProviderRows, CatalogRows;
    var d := Export(s, key);
    ExportIsClean(s, key);
    DocumentRoundTrip(d);
    var org := s.organizations.rows[key].id;
    ListedProviders(s.providers, org, d.providers);
    ReimportRows(s.providers, org, ProviderRows(d.providers), PatchProvider, now);
    ListedLocations(s.locations, s.officeHours, org, d.locations);
    ReimportRows(s.locations, org, LocationRows(d.locations), PatchLocation, now);
    TouchKeepsIds(s.locations, org, now);
    OwnHoursOfAll(s.officeHours, Touch(s.locations, org, now), org, d.locations);
    ListedCatalog(s.serviceAreas, org, d.serviceAreas);
    ReimportRows(s.serviceAreas, org, CatalogRows(d.serviceAreas), PatchCatalog, now);
    ListedCatalog(s.consultationTypes, org, d.consultationTypes);
    ReimportRows(s.consultationTypes, org, CatalogRows(d.consultationTypes), PatchCatalog, now);
    OwnGroupRows(s, org, d.routingGroups, now);
    ReimportRows(s.routingGroups, org, GroupRows(d.routingGroups, Touch(s.serviceAreas, org, now), org).value,
                 PatchGroup, now);
    OwnMembers(s, org, d.routingGroups, now);
    OwnSettings(s.settings, org, d.settings, now);
  }

  // ── An export that is refused ──────────────────────────────────────────────

  /** A firm with one attorney, as given in a configuration document. */
  function LongAddressFirm(firm: string, ann: string, name: string, email: string): Document {
    Document(OrganizationItem(firm, OrganizationCols(name, None, name, true)), [],
             [ProviderItem(ann, ProviderCols(name, None, Some(email), None, true))], [], [], [], [])
  }

  lemma OneIsValid<T>(j: Json, f: Json -> Checked<T>)
    requires f(j).Valid?
    ensures NormalizeAll([j], f) == Valid([f(j).item])
  {
    assert NormalizeAll([j][1..], f) == Valid([]);
    assert [f(j).item] + [] == [f(j).item];
  }

  lemma LongAddressFirmIsParsed(firm: string, ann: string, name: string)
    requires CleanKey(firm) && CleanKey(ann) && CleanText(name, NAME_LIMIT) && CleanText(name, TIMEZONE_LIMIT)
    ensures exists email ::
              !EmailFits(Some(email))
              && Parse(RenderDocument(LongAddressFirm(firm, ann, name, LongAddress())))
                 == Valid(LongAddressFirm(firm, ann, name, email))
  {
    hide NormalizeOrganization, NormalizeProvider, RenderOrganization, RenderProvider, CleanKey, CleanText, EmailField,
         LongAddress;
    var d := LongAddressFirm(firm, ann, name, LongAddress());
    var x := d.providers[0];
    LongProviderIsAccepted(x);
    OrganizationRoundTrip(d.organization);
    var email := EmailField(Some(Str(LongAddress()))).value;
    var items := RenderAll(d.providers, RenderProvider).items;
    assert items == [RenderProvider(x)];
    OneIsValid(RenderProvider(x), NormalizeProvider);
    assert NormalizeAll(items, NormalizeProvider) == Valid([x.(cols := x.cols.(email := Some(email)))]);
    assert Parse(RenderDocument(d)) == Valid(LongAddressFirm(firm, ann, name, email));
  }

  lemma LongAddressFirmIsImported(firm: string, ann: string, name: string, email: string, now: int)
    ensures var r := Apply(EMPTY, LongAddressFirm(firm, ann, name, email), now);
            && r.Done? && firm in r.value.organizations.rows && r.value.organizations.rows[firm].id == 1
            && (1, ann) in r.value.providers.rows
            && r.value.providers.rows[(1, ann)].cols.email == Some(email)
  {
    var d := LongAddressFirm(firm, ann, name, email);
    var rows := ProviderRows(d.providers);
    assert rows == [(ann, d.providers[0].cols)] && rows[..0] == [];
    assert UpsertAll(EMPTY.providers, 1, [], PatchProvider, now) == EMPTY.providers;
  }

  /** The input: a firm is imported, and what it then exports is refused, by itself and by any other store. */
  lemma LengthenedAddressIsNotReimported(firm: string, ann: string, name: string, now: int)
    requires CleanKey(firm) && CleanKey(ann) && CleanText(name, NAME_LIMIT) && CleanText(name, TIMEZONE_LIMIT)
    ensures var r := Import(EMPTY, RenderDocument(LongAddressFirm(firm, ann, name, LongAddress())), now);
            && r.Done? && WellFormed(r.value) && firm in r.value.organizations.rows
            && Import(r.value, RenderDocument(Export(r.value, firm)), now) == Failed(ValidationFailed([Email]))
  {
    hide Parse, Apply, Export, RenderDocument, CleanKey, CleanText, WellFormed, LongAddress, EmailFits;
    LongAddressFirmIsParsed(firm, ann, name);
    var tree := RenderDocument(LongAddressFirm(firm, ann, name, LongAddress()));
    var email :| !EmailFits(Some(email)) && Parse(tree) == Valid(LongAddressFirm(firm, ann, name, email));
    LongAddressFirmIsImported(firm, ann, name, email, now);
    var r := Import(EMPTY, tree, now);
    EmptyStoreIsWellFormed();
    ImportKeepsStoresWellFormed(EMPTY, tree, now);
    assert !AddressesFit(r.value, firm);
    OwnExportOnlyTouches(r.value, firm, now);
  }

  // ── When that is no change at all ──────────────────────────────────────────

  ghost predicate SameRows<K(!new), C>(a: Table<K, C>, b: Table<K, C>) {
    && a.lastId == b.lastId
    && (forall k :: k in a.rows <==> k in b.rows)
    && (forall k | k in a.rows :: a.rows[k].(updatedAt := 0) == b.rows[k].(updatedAt := 0))
  }

  ghost predicate SameButTimes(s: Tables, t: Tables) {
    && SameRows(s.organizations, t.organizations) && SameRows(s.locations, t.locations)
    && SameRows(s.providers, t.providers)
    && SameRows(s.serviceAreas, t.serviceAreas) && SameRows(s.consultationTypes, t.consultationTypes)
    && SameRows(s.routingGroups, t.routingGroups)
    && s.officeHours == t.officeHours && s.members == t.members
    && (forall k :: k in s.settings <==> k in t.settings)
    && (forall k | k in s.settings :: s.settings[k].value == t.settings[k].value)
  }

  ghost predicate Held(m: MemberTable, group: nat, position: nat) {
    exists k :: k in m && k.0 == group && m[k] == position
  }

  /** A group's n members hold the positions 0 to n-1: no gap and no repeat. */
  ghost predicate Tidy(s: Tables, group: nat) {
    forall i | 0 <= i < |MemberSet(s.members, s.providers, group)| :: Held(s.members, group, i)
  }

  lemma {:induction false} BeforeIsAsymmetric(a: string, b: string)
    requires Before(a, b)
    ensures !Before(b, a)
  {
    if a != "" && a[0] == b[0] { BeforeIsAsymmetric(a[1..], b[1..]); }
  }

  lemma MemberBeforeIsAsymmetric()
    ensures Asymmetric(MemberBefore)
  {
    forall x: (nat, string), y: (nat, string) | MemberBefore(x, y) ensures !MemberBefore(y, x) {
      if x.0 == y.0 { BeforeIsAsymmetric(x.1, y.1); }
    }
  }

  lemma {:induction false} AllListed<T(!new)>(s: set<T>, l: seq<T>)
    requires (forall x | x in l :: x in s) && (forall i, j | 0 <= i < j < |l| :: l[i] != l[j]) && |l| == |s|
    ensures forall x :: x in l <==> x in s
    decreases |l|
  {
    if l != [] {
      assert l[0] in s;
      var rest := s - {l[0]};
      forall x | x in l[1..] ensures x in rest {
        var i :| 0 <= i < |l[1..]| && l[1..][i] == x;
        assert l[i + 1] == x && x in l;
      }
      AllListed(rest, l[1..]);
      forall x | x in s ensures x in l {
        if x != l[0] { assert x in l[1..]; }
      }
    }
  }

  /** A sequence of keys at positions 0, 1, 2 and so on is what a listing by position gives back. */
  lemma PositionsList(pairs: set<(nat, string)>, keys: seq<string>)
    requires forall x | x in pairs :: x.0 < |keys| && x.1 == keys[x.0]
    requires forall i | 0 <= i < |keys| :: (i, keys[i]) in pairs
    ensures Keys(Listing(pairs, MemberBefore)) == keys
  {
    hide Before, Listing;
    var l := Numbered(keys);
    forall x ensures x in l <==> x in pairs {
      if x in pairs { assert l[x.0] == x; }
    }
    MemberBeforeIsAsymmetric();
    ListingIsUnique(pairs, MemberBefore, l);
    assert Keys(l) == keys;
  }

  function Numbered(keys: seq<string>): seq<(nat, string)> {
    seq(|keys|, i requires 0 <= i < |keys| => (i, keys[i]))
  }

  /** As many pairs as keys, and each key at its index: then there are no others. */
  lemma NoOtherPairs(pairs: set<(nat, string)>, keys: seq<string>)
    requires |pairs| == |keys| && forall i | 0 <= i < |keys| :: (i, keys[i]) in pairs
    ensures forall x | x in pairs :: x.0 < |keys| && x.1 == keys[x.0]
  {
    var l := Numbered(keys);
    AllListed(pairs, l);
    forall x | x in pairs ensures x.0 < |keys| && x.1 == keys[x.0] {
      assert x in l;
      var i :| 0 <= i < |l| && l[i] == x;
    }
  }

  ghost predicate InPlace(s: Tables, group: nat) {
    forall m | m in s.members && m.0 == group :: s.members[m] == PlaceOf(s, m)
  }

  ghost function RowAt(m: MemberTable, group: nat, i: nat): (k: (nat, nat))
    requires Held(m, group, i)
    ensures k in m && k.0 == group && m[k] == i
  {
    var k :| k in m && k.0 == group && m[k] == i; k
  }

  lemma TidyIsInPlace(s: Tables, k: Scoped)
    requires Ids(s) && References(s) && k in s.routingGroups.rows && Tidy(s, s.routingGroups.rows[k].id)
    ensures InPlace(s, s.routingGroups.rows[k].id)
  {
    hide Ids, References, KeyOfId, Listing, Held;
    var g := s.routingGroups.rows[k].id;
    var pairs := MemberSet(s.members, s.providers, g);
    var held: seq<string> :=
      seq(|pairs|, i requires 0 <= i < |pairs| => KeyOfId(s.providers, RowAt(s.members, g, i).1));
    forall i | 0 <= i < |held| ensures (i, held[i]) in pairs {
      var row := RowAt(s.members, g, i);
      assert (s.members[row], KeyOfId(s.providers, row.1)) == (i, held[i]);
    }
    NoOtherPairs(pairs, held);
    PositionsList(pairs, held);
    MemberKeys(s, k);
    assert held == MembersOf(s.members, s.providers, g);
    forall m | m in s.members && m.0 == g ensures s.members[m] == PlaceOf(s, m) {
      var x := (s.members[m], KeyOfId(s.providers, m.1));
      assert x in pairs;
      IndexIsUnique(held, x.0);
    }
  }

  lemma IndexIsUnique<T>(l: seq<T>, i: nat)
    requires Distinct(l) && i < |l|
    ensures IndexOf(l, l[i]) == i
  {
  }

  lemma InPlaceIsTidy(s: Tables, k: Scoped)
    requires Ids(s) && References(s) && k in s.routingGroups.rows && InPlace(s, s.routingGroups.rows[k].id)
    ensures Tidy(s, s.routingGroups.rows[k].id)
  {
    hide Ids, References, KeyOfId, Listing;
    var g := s.routingGroups.rows[k].id;
    var keys := MembersOf(s.members, s.providers, g);
    MemberKeys(s, k);
    forall i | 0 <= i < |keys| ensures Held(s.members, g, i) {
      assert keys[i] in keys;
      var m := (g, s.providers.rows[(k.0, keys[i])].id);
      OwnKey(s, k.0, keys[i]);
      IndexIsUnique(keys, i);
      assert m in s.members && s.members[m] == PlaceOf(s, m) == i;
    }
  }

  lemma OwnKey(s: Tables, org: nat, key: string)
    requires Ids(s) && (org, key) in s.providers.rows
    ensures KeyOfId(s.providers, s.providers.rows[(org, key)].id) == key
  {
    KeyOfOwnId(s.providers, (org, key));
  }

  lemma TouchedRows<C>(t: Table<Scoped, C>, org: nat, now: int)
    ensures SameRows(t, Touch(t, org, now))
  {
  }

  lemma TouchedSettings(t: SettingTable, org: nat, now: int)
    ensures forall k :: k in t <==> k in TouchSettings(t, org, now)
    ensures forall k | k in t :: t[k].value == TouchSettings(t, org, now)[k].value
  {
  }

  /**
   * Importing an organization's own export succeeds exactly when its addresses fit, and is then a no-op but for update
   * times exactly when each of its groups holds the positions 0 to n-1. Legacy members, all at position 0, are
   * renumbered.
   */
  lemma OwnExportIsANoOpExactlyWhenTidy(s: Tables, key: string, now: int)
    requires WellFormed(s) && key in s.organizations.rows
    ensures var r := Import(s, RenderDocument(Export(s, key)), now);
            && (r.Done? <==> AddressesFit(s, key))
            && (r.Done? ==>
                  (SameButTimes(s, r.value) <==>
                   forall k | k in s.routingGroups.rows && k.0 == s.organizations.rows[key].id ::
                     Tidy(s, s.routingGroups.rows[k].id)))
  {
    hide CleanRows, UniqueIds, References, Bounded, Export, Import, RenderDocument, Tidy, PlaceOf, Touch, TouchSettings,
         SameRows;
    OwnExportOnlyTouches(s, key, now);
    var org := s.organizations.rows[key].id;
    TouchedRows(s.locations, org, now);
    TouchedRows(s.providers, org, now);
    TouchedRows(s.serviceAreas, org, now);
    TouchedRows(s.consultationTypes, org, now);
    TouchedRows(s.routingGroups, org, now);
    TouchedSettings(s.settings, org, now);
    TouchedOrganization(s, key, now);
    RenumberedWhenTidy(s, org);
  }

  lemma TouchedOrganization(s: Tables, key: string, now: int)
    requires key in s.organizations.rows
    ensures SameRows(s.organizations, Reimported(s, key, now).organizations)
  {
    hide Renumbered, Touch, TouchSettings;
  }

  lemma RenumberedWhenTidy(s: Tables, org: nat)
    requires Ids(s) && References(s)
    ensures s.members == Renumbered(s, org)
            <==> forall k | k in s.routingGroups.rows && k.0 == org :: Tidy(s, s.routingGroups.rows[k].id)
  {
    hide Ids, References, Tidy, PlaceOf;
    var r := Renumbered(s, org);
    if s.members == r {
      forall k | k in s.routingGroups.rows && k.0 == org ensures Tidy(s, s.routingGroups.rows[k].id) {
        assert Refers(s.routingGroups, org, s.routingGroups.rows[k].id);
        forall m | m in s.members && m.0 == s.routingGroups.rows[k].id ensures s.members[m] == PlaceOf(s, m) {
          assert s.members[m] == r[m];
        }
        InPlaceIsTidy(s, k);
      }
    }
    if forall k | k in s.routingGroups.rows && k.0 == org :: Tidy(s, s.routingGroups.rows[k].id) {
      forall m | m in s.members ensures s.members[m] == r[m] {
        if Refers(s.routingGroups, org, m.0) {
          var k :| k in s.routingGroups.rows && k.0 == org && s.routingGroups.rows[k].id == m.0;
          TidyIsInPlace(s, k);
        }
      }
    }
  }

  /** Members that share a position, as all legacy members of a group do, do not survive their own export unchanged. */
  lemma SharedPositionsAreRenumbered(s: Tables, key: string, k: Scoped, p: nat, q: nat, now: int)
    requires WellFormed(s) && key in s.organizations.rows
    requires k in s.routingGroups.rows && k.0 == s.organizations.rows[key].id
    requires var g := s.routingGroups.rows[k].id;
             p != q && (g, p) in s.members && (g, q) in s.members && s.members[(g, p)] == s.members[(g, q)]
    ensures var r := Import(s, RenderDocument(Export(s, key)), now);
            (r.Done? <==> AddressesFit(s, key)) && (r.Done? ==> !SameButTimes(s, r.value))
  {
    hide Bounded, CleanRows, UniqueIds, References, Export, Import, RenderDocument, Tidy, KeyOfId, MembersOf,
         SameButTimes, AddressesFit;
    OwnExportIsANoOpExactlyWhenTidy(s, key, now);
    var g := s.routingGroups.rows[k].id;
    MemberKeys(s, k);
    ReferredKey(s.providers, k.0, p);
    ReferredKey(s.providers, k.0, q);
    if Tidy(s, g) {
      TidyIsInPlace(s, k);
      assert PlaceOf(s, (g, p)) == PlaceOf(s, (g, q));
      SamePlaceSameKey(MembersOf(s.members, s.providers, g), KeyOfId(s.providers, p), KeyOfId(s.providers, q));
    }
  }

  lemma SamePlaceSameKey(keys: seq<string>, a: string, b: string)
    requires a in keys && b in keys && IndexOf(keys, a) == IndexOf(keys, b)
    ensures a == b
  {
  }

  /** A firm with one practice area, whose routing group has two attorneys from before positions existed. */
  function LegacyFirm(firm: string, ann: string, bob: string, law: string, team: string, name: string): Tables {
    Tables(
      Table(map[firm := Row(1, OrganizationCols(name, None, name, true), 0, 0)], 1),
      Table(map[], 0),
      Table(map[(1, ann) := Row(1, ProviderCols(name, None, None, None, true), 0, 0),
                (1, bob) := Row(2, ProviderCols(name, None, None, None, true), 0, 0)], 2),
      Table(map[(1, law) := Row(1, CatalogCols(name, 0, true), 0, 0)], 1),
      Table(map[], 0),
      Table(map[(1, team) := Row(1, GroupCols(name, 1, true), 0, 0)], 1),
      map[], map[(1, 1) := 0, (1, 2) := 0], map[])
  }

  lemma LegacyRowsAreClean(firm: string, ann: string, bob: string, law: string, team: string, name: string)
    requires CleanKey(firm) && CleanKey(ann) && CleanKey(bob) && CleanKey(law) && CleanKey(team)
    requires CleanText(name, NAME_LIMIT) && CleanText(name, TIMEZONE_LIMIT)
    ensures CleanRows(LegacyFirm(firm, ann, bob, law, team, name))
  {
    hide CleanText, CleanKey;
  }

  lemma LegacyIds(firm: string, ann: string, bob: string, law: string, team: string, name: string)
    requires ann != bob
    ensures var s := LegacyFirm(firm, ann, bob, law, team, name); Ids(s) && Bounded(s)
  {
  }

  lemma LegacyRefers(firm: string, ann: string, bob: string, law: string, team: string, name: string)
    requires ann != bob
    ensures References(LegacyFirm(firm, ann, bob, law, team, name))
  {
    hide Refers, References;
    var s := LegacyFirm(firm, ann, bob, law, team, name);
    RowRefers(s.serviceAreas, 1, law);
    RowRefers(s.providers, 1, ann);
    RowRefers(s.providers, 1, bob);
    OneGroupRefers(s, (1, team));
  }

  lemma RowRefers<C>(t: Table<Scoped, C>, org: nat, key: string)
    requires (org, key) in t.rows
    ensures Refers(t, org, t.rows[(org, key)].id)
  {
  }

  lemma OneGroupRefers(s: Tables, k: Scoped)
    requires k in s.routingGroups.rows && s.routingGroups.rows.Keys == {k}
    requires Refers(s.serviceAreas, k.0, s.routingGroups.rows[k].cols.serviceAreaId)
    requires forall m | m in s.members :: Refers(s.providers, k.0, m.1)
    ensures References(s)
  {
    hide Refers;
    forall j | j in s.routingGroups.rows ensures j == k { assert j in s.routingGroups.rows.Keys; }
  }

  /** The concrete case: such a firm's own export is not a no-op. */
  lemma LegacyFirmIsRenumbered(firm: string, ann: string, bob: string, law: string, team: string, name: string,
                               now: int)
    requires CleanKey(firm) && CleanKey(ann) && CleanKey(bob) && CleanKey(law) && CleanKey(team) && ann != bob
    requires CleanText(name, NAME_LIMIT) && CleanText(name, TIMEZONE_LIMIT)
    ensures var s := LegacyFirm(firm, ann, bob, law, team, name);
            && firm in s.organizations.rows && WellFormed(s)
            && var r := Import(s, RenderDocument(Export(s, firm)), now); r.Done? && !SameButTimes(s, r.value)
  {
    hide Ids, Bounded, References, CleanRows, Export, Import, RenderDocument, SameButTimes, CleanKey, CleanText;
    LegacyRowsAreClean(firm, ann, bob, law, team, name);
    LegacyIds(firm, ann, bob, law, team, name);
    LegacyRefers(firm, ann, bob, law, team, name);
    SharedPositionsAreRenumbered(LegacyFirm(firm, ann, bob, law, team, name), firm, (1, team), 1, 2, now);
  }

  // ── Two stores that export alike ───────────────────────────────────────────

  ghost predicate SameCols<C>(a: Table<Scoped, C>, org: nat, b: Table<Scoped, C>, other: nat) {
    forall key: string ::
      && ((org, key) in a.rows <==> (other, key) in b.rows)
      && ((org, key) in a.rows ==> a.rows[(org, key)].cols == b.rows[(other, key)].cols)
  }

  ghost predicate SameHours(s: Tables, org: nat, t: Tables, other: nat) {
    forall key: string | (org, key) in s.locations.rows && (other, key) in t.locations.rows ::
      HoursOf(s.officeHours, s.locations.rows[(org, key)].id)
        == HoursOf(t.officeHours, t.locations.rows[(other, key)].id)
  }

  ghost predicate SameGroups(s: Tables, org: nat, t: Tables, other: nat) {
    forall key: string ::
      && ((org, key) in s.routingGroups.rows <==> (other, key) in t.routingGroups.rows)
      && ((org, key) in s.routingGroups.rows ==> GroupOf(s, (org, key)) == GroupOf(t, (other, key)))
  }

  ghost predicate SameSettings(s: SettingTable, org: nat, t: SettingTable, other: nat) {
    forall namespace: string, key: string ::
      && ((org, namespace, key) in s <==> (other, namespace, key) in t)
      && ((org, namespace, key) in s ==> s[(org, namespace, key)].value == t[(other, namespace, key)].value)
  }

  lemma SameProviderSet(a: Table<Scoped, ProviderCols>, org: nat, b: Table<Scoped, ProviderCols>, other: nat)
    requires SameCols(a, org, b, other)
    ensures ProviderSet(a, org) == ProviderSet(b, other)
  {
    forall x ensures x in ProviderSet(a, org) <==> x in ProviderSet(b, other) {
      assert x in ProviderSet(a, org)
             <==> (org, x.key) in a.rows && x == ProviderItem(x.key, a.rows[(org, x.key)].cols);
      assert x in ProviderSet(b, other)
             <==> (other, x.key) in b.rows && x == ProviderItem(x.key, b.rows[(other, x.key)].cols);
    }
  }

  lemma SameCatalogSet(a: Table<Scoped, CatalogCols>, org: nat, b: Table<Scoped, CatalogCols>, other: nat)
    requires SameCols(a, org, b, other)
    ensures CatalogSet(a, org) == CatalogSet(b, other)
  {
    forall x ensures x in CatalogSet(a, org) <==> x in CatalogSet(b, other) {
      assert x in CatalogSet(a, org) <==> (org, x.key) in a.rows && x == CatalogItem(x.key, a.rows[(org, x.key)].cols);
      assert x in CatalogSet(b, other)
             <==> (other, x.key) in b.rows && x == CatalogItem(x.key, b.rows[(other, x.key)].cols);
    }
  }

  lemma SameLocationSet(s: Tables, org: nat, t: Tables, other: nat)
    requires SameCols(s.locations, org, t.locations, other) && SameHours(s, org, t, other)
    ensures LocationSet(s.locations, s.officeHours, org) == LocationSet(t.locations, t.officeHours, other)
  {
    hide HoursOf;
    forall x
      ensures x in LocationSet(s.locations, s.officeHours, org) <==> x in LocationSet(t.locations, t.officeHours, other)
    {
      assert x in LocationSet(s.locations, s.officeHours, org) <==>
        (org, x.key) in s.locations.rows
        && x == LocationItem(x.key, s.locations.rows[(org, x.key)].cols,
                             Some(HoursOf(s.officeHours, s.locations.rows[(org, x.key)].id)));
      assert x in LocationSet(t.locations, t.officeHours, other) <==>
        (other, x.key) in t.locations.rows
        && x == LocationItem(x.key, t.locations.rows[(other, x.key)].cols,
                             Some(HoursOf(t.officeHours, t.locations.rows[(other, x.key)].id)));
    }
  }

  lemma SameGroupSet(s: Tables, org: nat, t: Tables, other: nat)
    requires SameGroups(s, org, t, other)
    ensures GroupSet(s, org) == GroupSet(t, other)
  {
    hide MembersOf, KeyOfId;
    forall x ensures x in GroupSet(s, org) <==> x in GroupSet(t, other) {
      assert x in GroupSet(s, org) <==> (org, x.key) in s.routingGroups.rows && x == GroupOf(s, (org, x.key));
      assert x in GroupSet(t, other) <==> (other, x.key) in t.routingGroups.rows && x == GroupOf(t, (other, x.key));
    }
  }

  lemma SameSettingSet(s: SettingTable, org: nat, t: SettingTable, other: nat)
    requires SameSettings(s, org, t, other)
    ensures SettingSet(s, org) == SettingSet(t, other)
  {
    forall x ensures x in SettingSet(s, org) <==> x in SettingSet(t, other) {
      assert x in SettingSet(s, org)
             <==> (org, x.namespace, x.key) in s && x.value == s[(org, x.namespace, x.key)].value;
      assert x in SettingSet(t, other)
             <==> (other, x.namespace, x.key) in t && x.value == t[(other, x.namespace, x.key)].value;
    }
  }

  /** Everything an export reads is alike. */
  ghost predicate Mirrors(s: Tables, org: nat, t: Tables, other: nat) {
    && SameCols(s.providers, org, t.providers, other) && SameCols(s.locations, org, t.locations, other)
    && SameHours(s, org, t, other)
    && SameCols(s.serviceAreas, org, t.serviceAreas, other)
    && SameCols(s.consultationTypes, org, t.consultationTypes, other)
    && SameGroups(s, org, t, other) && SameSettings(s.settings, org, t.settings, other)
  }

  lemma MirrorsExportAlike(s: Tables, t: Tables, key: string)
    requires key in s.organizations.rows && key in t.organizations.rows
             && s.organizations.rows[key].cols == t.organizations.rows[key].cols
    requires Mirrors(s, s.organizations.rows[key].id, t, t.organizations.rows[key].id)
    ensures Export(s, key) == Export(t, key)
  {
    hide SameCols, SameHours, SameGroups, SameSettings, LocationSet, ProviderSet, CatalogSet, GroupSet, SettingSet,
         Listing;
    var org, other := s.organizations.rows[key].id, t.organizations.rows[key].id;
    SameLocationSet(s, org, t, other);
    SameProviderSet(s.providers, org, t.providers, other);
    SameCatalogSet(s.serviceAreas, org, t.serviceAreas, other);
    SameCatalogSet(s.consultationTypes, org, t.consultationTypes, other);
    SameGroupSet(s, org, t, other);
    SameSettingSet(s.settings, org, t.settings, other);
  }

  /**
   * A group whose members sit at positions 0, 1, 2 and so on in the order another group exports them exports the same
   * keys.
   */
  lemma PlacedExports(r: MemberTable, providers: Table<Scoped, ProviderCols>, org: nat, group: nat, keys: seq<string>)
    requires UniqueIds(providers) && Known(providers, org, keys) && Distinct(keys)
    requires ResolveProviders(providers, org, keys).Some?
             && Placed(r, group, ResolveProviders(providers, org, keys).value)
    ensures MembersOf(r, providers, group) == keys
  {
    hide UniqueIds, KeyOfId, Listing, Before, ResolveProviders;
    ResolveAll(providers, org, keys);
    var ids := ResolveProviders(providers, org, keys).value;
    var pairs := MemberSet(r, providers, group);
    forall i | 0 <= i < |keys| ensures KeyOfId(providers, ids[i]) == keys[i] && (i, keys[i]) in pairs {
      KeyOfOwnId(providers, (org, keys[i]));
      assert ids[i] in ids;
      assert (r[(group, ids[i])], KeyOfId(providers, ids[i])) in pairs;
    }
    forall x | x in pairs ensures 0 <= x.0 < |keys| && x.1 == keys[x.0] {
      var k :| k in r && k.0 == group && x == (r[k], KeyOfId(providers, k.1));
      assert k == (group, k.1);
      var i :| 0 <= i < |ids| && ids[i] == k.1;
    }
    PositionsList(pairs, keys);
  }

  // ── Exporting again after importing one's own export ───────────────────────

  lemma TouchedCols<C>(t: Table<Scoped, C>, org: nat, now: int)
    ensures SameCols(t, org, Touch(t, org, now), org)
  {
  }

  /** Whatever its positions were, an organization that imports its own export exports the same document again. */
  lemma OwnExportIsExportedAgain(s: Tables, key: string, now: int)
    requires WellFormed(s) && key in s.organizations.rows
    ensures var r := Import(s, RenderDocument(Export(s, key)), now);
            && (r.Done? <==> AddressesFit(s, key))
            && (r.Done? ==> key in r.value.organizations.rows && Export(r.value, key) == Export(s, key))
  {
    hide Export, Import, WellFormed;
    OwnExportOnlyTouches(s, key, now);
    ReimportedExport(s, key, now);
  }

  lemma ReimportedExport(s: Tables, key: string, now: int)
    requires WellFormed(s) && key in s.organizations.rows
    ensures key in Reimported(s, key, now).organizations.rows && Export(Reimported(s, key, now), key) == Export(s, key)
  {
    hide CleanRows, UniqueIds, References, Bounded, Export, Renumbered, Touch, TouchSettings, SameCols, Listing,
         HoursOf, GroupOf;
    var t := Reimported(s, key, now);
    var org := s.organizations.rows[key].id;
    TouchedCols(s.providers, org, now);
    TouchedCols(s.locations, org, now);
    TouchedCols(s.serviceAreas, org, now);
    TouchedCols(s.consultationTypes, org, now);
    TouchKeepsIds(s.locations, org, now);
    TouchedSettings(s.settings, org, now);
    TouchKeepsIds(s.routingGroups, org, now);
    assert SameGroups(s, org, t, org) by {
      forall k: string | (org, k) in s.routingGroups.rows ensures GroupOf(s, (org, k)) == GroupOf(t, (org, k)) {
        ReimportedGroup(s, key, (org, k), now);
      }
    }
    MirrorsExportAlike(s, t, key);
  }

  lemma ReimportedGroup(s: Tables, key: string, k: Scoped, now: int)
    requires Ids(s) && References(s) && key in s.organizations.rows
    requires k in s.routingGroups.rows && k.0 == s.organizations.rows[key].id
    ensures var t := Reimported(s, key, now); k in t.routingGroups.rows && GroupOf(s, k) == GroupOf(t, k)
  {
    hide UniqueIds, KeyOfId, Refers, ResolveProviders, MembersOf, MembersOfAll, Listing, Placed, Distinct, Known,
         GroupSet, HoursOf, TouchSettings, Renumbered;
    var t := Reimported(s, key, now);
    var org := k.0;
    var items := Listing(GroupSet(s, org), GroupBefore);
    TouchKeepsIds(s.serviceAreas, org, now);
    TouchKeepsIds(s.providers, org, now);
    TouchKeepsIds(s.routingGroups, org, now);
    var area := s.routingGroups.rows[k].cols.serviceAreaId;
    ReferredKey(s.serviceAreas, org, area);
    KeyOfOwnId(t.serviceAreas, (org, KeyOfId(s.serviceAreas, area)));
    ListedGroups(s, org, items);
    forall x | x in items
      ensures x.providers.Some? && Known(t.providers, org, x.providers.value) && Distinct(x.providers.value)
    {
      MemberKeys(s, (org, x.key));
      KnownToo(s.providers, t.providers, org, x.providers.value);
    }
    OwnMembers(s, org, items, now);
    MembersOfAllPlaces(s.members, t.routingGroups, t.providers, org, items);
    assert GroupPlaced(t.members, t.routingGroups, t.providers, org, GroupOf(s, k));
    PlacedExports(t.members, t.providers, org, s.routingGroups.rows[k].id,
                  MembersOf(s.members, s.providers, s.routingGroups.rows[k].id));
  }

  // ── Carrying an export to another store ────────────────────────────────────

  lemma AddedCols<C>(a: Table<Scoped, C>, org: nat, t: Table<Scoped, C>, r: Table<Scoped, C>, other: nat,
                     rows: seq<(string, C)>)
    requires Lists(a, org, rows) && Added(t, r, other, rows) && forall k | k in t.rows :: k.0 != other
    ensures SameCols(a, org, r, other)
  {
    hide DistinctKeys;
    forall key: string
      ensures (org, key) in a.rows <==> (other, key) in r.rows
      ensures (org, key) in a.rows ==> a.rows[(org, key)].cols == r.rows[(other, key)].cols
    {
      assert (other, key) in r.rows <==> Named(rows, key);
      if Named(rows, key) {
        var i :| 0 <= i < |rows| && rows[i].0 == key;
      }
    }
  }

  /** New rows for an organization the table has none of. */
  lemma CarryRows<C(!new)>(a: Table<Scoped, C>, org: nat, t: Table<Scoped, C>, other: nat, rows: seq<(string, C)>,
                           patch: (C, C) -> C, now: int)
    requires Lists(a, org, rows) && UniqueIds(t) && forall k | k in t.rows :: k.0 != other
    ensures var r := UpsertAll(t, other, rows, patch, now);
            && SameCols(a, org, r, other) && UniqueIds(r)
            && (forall k | k in r.rows && k.0 == other :: t.lastId < r.rows[k].id)
            && (forall i | 0 <= i < |rows| ::
                  (other, rows[i].0) in r.rows && r.rows[(other, rows[i].0)].cols == rows[i].1)
  {
    hide Named, DistinctKeys, SameCols;
    UpsertNew(t, other, rows, patch, now);
    UpsertKeepsIdsUnique(t, other, rows, patch, now);
    AddedCols(a, org, t, UpsertAll(t, other, rows, patch, now), other, rows);
  }

  lemma CarriedHours(s: Tables, org: nat, h: HourTable, locations: Table<Scoped, LocationCols>, other: nat,
                     items: seq<LocationItem>, r: Tables)
    requires items == Listing(LocationSet(s.locations, s.officeHours, org), LocationBefore)
    requires UniqueIds(locations) && SameCols(s.locations, org, locations, other)
    ensures forall x | x in items :: (other, x.key) in locations.rows
    ensures var hours := HoursOfAll(h, locations, other, items);
            hours.Some? && (r.locations == locations && r.officeHours == hours.value ==> SameHours(s, org, r, other))
  {
    hide UniqueIds, HoursOf, Listing, LocationSet, HoursPlaced, HoursOfAll, DistinctHours, DistinctLocations;
    ListedLocations(s.locations, s.officeHours, org, items);
    LocationsListed(s.locations, s.officeHours, org, items);
    forall x | x in items ensures DistinctHours(x.officeHours.value) {
      ListedHoursAreDistinct(s.officeHours, s.locations.rows[(org, x.key)].id);
    }
    HoursOfAllPlaces(h, locations, other, items);
    var hours := HoursOfAll(h, locations, other, items).value;
    forall key: string | (org, key) in s.locations.rows
      ensures HoursOf(s.officeHours, s.locations.rows[(org, key)].id) == HoursOf(hours, locations.rows[(other, key)].id)
    {
      var k := (org, key);
      var x := LocationItem(key, s.locations.rows[k].cols, Some(HoursOf(s.officeHours, s.locations.rows[k].id)));
      assert x == LocationItem(k.1, s.locations.rows[k].cols, Some(HoursOf(s.officeHours, s.locations.rows[k].id)));
      assert x in items;
      PlacedHoursAreListed(s.officeHours, s.locations.rows[k].id, hours, locations.rows[(other, key)].id);
    }
  }

  lemma PlacedHoursAreListed(h: HourTable, location: nat, r: HourTable, id: nat)
    requires HoursPlaced(r, id, HoursOf(h, location))
    ensures HoursOf(h, location) == HoursOf(r, id)
  {
    hide HoursPlaced, Listing;
    PlacedSet(r, id, HoursOf(h, location));
    assert HourSet(r, id) == HourSet(h, location);
  }

  lemma CarriedSettings(s: SettingTable, org: nat, t: SettingTable, other: nat, items: seq<SettingItem>, now: int)
    requires items == Listing(SettingSet(s, org), SettingBefore) && forall k | k in t :: k.0 != other
    ensures SameSettings(s, org, SettingsOfAll(t, other, items, now), other)
  {
    hide SettingNamed, Listing, SettingSet, SettingsOfAll;
    ListedSettings(s, org, items);
    SettingsOfAllPlaces(t, other, items, now);
    var r := SettingsOfAll(t, other, items, now);
    forall namespace: string, key: string
      ensures (org, namespace, key) in s <==> (other, namespace, key) in r
      ensures (org, namespace, key) in s ==> s[(org, namespace, key)].value == r[(other, namespace, key)].value
    {
      var k := (org, namespace, key);
      assert (other, namespace, key) in r <==> SettingNamed(items, namespace, key);
      assert k in s ==> SettingNamed(items, k.1, k.2);
      if SettingNamed(items, namespace, key) {
        NamedSetting(items, namespace, key);
        var i :| 0 <= i < |items| && items[i] in items && items[i].namespace == namespace && items[i].key == key;
        assert r[(other, items[i].namespace, items[i].key)] == Stored(items[i].value, now);
      }
    }
  }

  lemma CarriedGroups(s: Tables, org: nat, t: Tables, other: nat, items: seq<GroupItem>, rows: seq<(string, GroupCols)>,
                      m: MemberTable)
    requires Ids(s) && References(s) && UniqueIds(t.providers) && UniqueIds(t.serviceAreas)
             && UniqueIds(t.routingGroups)
    requires items == Listing(GroupSet(s, org), GroupBefore)
    requires SameCols(s.providers, org, t.providers, other) && SameCols(s.serviceAreas, org, t.serviceAreas, other)
    requires GroupRows(items, t.serviceAreas, other) == Some(rows)
    requires forall i | 0 <= i < |rows| ::
               (other, rows[i].0) in t.routingGroups.rows && t.routingGroups.rows[(other, rows[i].0)].cols == rows[i].1
    requires forall key: string | (other, key) in t.routingGroups.rows :: Named(rows, key)
    requires forall x | x in items :: (other, x.key) in t.routingGroups.rows
    ensures var members := MembersOfAll(m, t.routingGroups, t.providers, other, items);
            members.Done? && (t.members == members.value ==> SameGroups(s, org, t, other))
  {
    hide UniqueIds, KeyOfId, Refers, ResolveProviders, MembersOf, MembersOfAll, Listing, Placed, Distinct, Known,
         GroupSet, GroupRows, SameCols, Named;
    ListedGroups(s, org, items);
    forall x | x in items
      ensures x.providers.Some? && Known(t.providers, other, x.providers.value) && Distinct(x.providers.value)
    {
      MemberKeys(s, (org, x.key));
      KnownThere(s.providers, org, t.providers, other, x.providers.value);
    }
    MembersOfAllPlaces(m, t.routingGroups, t.providers, other, items);
    GroupRowsKeys(items, t.serviceAreas, other);
    if t.members == MembersOfAll(m, t.routingGroups, t.providers, other, items).value {
      forall key: string
        ensures (org, key) in s.routingGroups.rows <==> (other, key) in t.routingGroups.rows
        ensures (org, key) in s.routingGroups.rows ==> GroupOf(s, (org, key)) == GroupOf(t, (other, key))
      {
        if (other, key) in t.routingGroups.rows { NamedGroup(items, rows, key); }
        if (org, key) in s.routingGroups.rows {
          var k := (org, key);
          assert GroupOf(s, k) in items;
          CarriedGroup(s, org, t, other, items, rows, key);
        }
      }
    }
  }

  lemma NamedGroup(items: seq<GroupItem>, rows: seq<(string, GroupCols)>, key: string)
    requires |rows| == |items| && (forall i | 0 <= i < |items| :: rows[i].0 == items[i].key) && Named(rows, key)
    ensures exists x :: x in items && x.key == key
  {
    var i :| 0 <= i < |rows| && rows[i].0 == key;
    assert items[i] in items;
  }

  lemma KnownThere(a: Table<Scoped, ProviderCols>, org: nat, b: Table<Scoped, ProviderCols>, other: nat,
                   keys: seq<string>)
    requires Known(a, org, keys) && SameCols(a, org, b, other)
    ensures Known(b, other, keys)
  {
  }

  lemma CarriedGroup(s: Tables, org: nat, t: Tables, other: nat, items: seq<GroupItem>, rows: seq<(string, GroupCols)>,
                     key: string)
    requires Ids(s) && References(s) && UniqueIds(t.providers) && UniqueIds(t.serviceAreas)
    requires SameCols(s.providers, org, t.providers, other)
    requires (org, key) in s.routingGroups.rows && GroupOf(s, (org, key)) in items
             && (other, key) in t.routingGroups.rows
    requires GroupRows(items, t.serviceAreas, other) == Some(rows)
    requires forall i | 0 <= i < |rows| ::
               (other, rows[i].0) in t.routingGroups.rows && t.routingGroups.rows[(other, rows[i].0)].cols == rows[i].1
    requires GroupPlaced(t.members, t.routingGroups, t.providers, other, GroupOf(s, (org, key)))
    ensures GroupOf(s, (org, key)) == GroupOf(t, (other, key))
  {
    hide UniqueIds, KeyOfId, Refers, ResolveProviders, MembersOf, Listing, Placed, Distinct, Known, GroupRows, SameCols;
    var x := GroupOf(s, (org, key));
    GroupRowsKeys(items, t.serviceAreas, other);
    var i :| 0 <= i < |items| && items[i] == x;
    assert rows[i].0 == key;
    KeyOfOwnId(t.serviceAreas, (other, x.serviceArea));
    MemberKeys(s, (org, key));
    KnownThere(s.providers, org, t.providers, other, x.providers.value);
    PlacedExports(t.members, t.providers, other, t.routingGroups.rows[(other, key)].id, x.providers.value);
  }

  lemma AreasResolveThere(s: Tables, org: nat, areas: Table<Scoped, CatalogCols>, other: nat, items: seq<GroupItem>)
    requires Ids(s) && References(s) && items == Listing(GroupSet(s, org), GroupBefore)
    requires SameCols(s.serviceAreas, org, areas, other)
    ensures GroupRows(items, areas, other).Some? && DistinctKeys(GroupRows(items, areas, other).value)
  {
    hide UniqueIds, References, Listing, GroupSet, GroupOf, GroupRows, KeyOfId;
    AreaResolves(s, org, items, s.serviceAreas);
    ListedGroups(s, org, items);
    forall i | 0 <= i < |items| ensures (other, items[i].serviceArea) in areas.rows {
      assert items[i] in items;
    }
    GroupRowsResolve(items, areas, other);
    GroupRowsKeys(items, areas, other);
  }

  /** A store that does not know an organization holds nothing under the id it would get. */
  lemma VacantId(t: Tables)
    requires Bounded(t)
    ensures var other := t.organizations.lastId + 1;
            && (forall k | k in t.locations.rows :: k.0 != other) && (forall k | k in t.providers.rows :: k.0 != other)
            && (forall k | k in t.serviceAreas.rows :: k.0 != other)
            && (forall k | k in t.consultationTypes.rows :: k.0 != other)
            && (forall k | k in t.routingGroups.rows :: k.0 != other) && (forall k | k in t.settings :: k.0 != other)
  {
  }

  /**
   * An export imported into any well-formed store that does not know the organization, the empty one among them, is
   * accepted exactly when its addresses fit, and is then what that store exports: no field, no reference and no order
   * is lost on the way.
   */
  lemma ExportCarriesOver(s: Tables, key: string, t: Tables, now: int)
    requires WellFormed(s) && key in s.organizations.rows
    requires WellFormed(t) && key !in t.organizations.rows
    ensures var r := Import(t, RenderDocument(Export(s, key)), now);
            && (r.Done? <==> AddressesFit(s, key))
            && (r.Done? ==> key in r.value.organizations.rows && Export(r.value, key) == Export(s, key))
  {
    hide Export, Import, WellFormed;
    AddressesFitTheExport(s, key);
    if AddressesFit(s, key) { FitExportCarriesOver(s, key, t, now); } else { UnfitExportIsRefused(s, key, t, now); }
  }

  lemma FitExportCarriesOver(s: Tables, key: string, t: Tables, now: int)
    requires WellFormed(s) && key in s.organizations.rows && EmailsFit(Export(s, key))
    requires WellFormed(t) && key !in t.organizations.rows
    ensures var r := Import(t, RenderDocument(Export(s, key)), now);
            r.Done? && key in r.value.organizations.rows && Export(r.value, key) == Export(s, key)
  {
    hide CleanRows, UniqueIds, References, Bounded, Parse, RenderDocument, CleanDocument, LocationSet, ProviderSet,
         CatalogSet, GroupSet, SettingSet, Listing, UpsertAll, HoursOfAll, MembersOfAll, SettingsOfAll, GroupRows,
         Named, DistinctKeys, DistinctLocations, Lists, SameCols, SameHours, SameGroups, SameSettings, HoursOf,
         LocationRows, ProviderRows, CatalogRows;
    var d := Export(s, key);
    ExportIsClean(s, key);
    DocumentRoundTrip(d);
    VacantId(t);
    var org, other := s.organizations.rows[key].id, t.organizations.lastId + 1;
    var organizations := Upsert(t.organizations, d.organization.key, d.organization.cols, PatchOrganization, now);
    ListedProviders(s.providers, org, d.providers);
    CarryRows(s.providers, org, t.providers, other, ProviderRows(d.providers), PatchProvider, now);
    ListedLocations(s.locations, s.officeHours, org, d.locations);
    CarryRows(s.locations, org, t.locations, other, LocationRows(d.locations), PatchLocation, now);
    ListedCatalog(s.serviceAreas, org, d.serviceAreas);
    CarryRows(s.serviceAreas, org, t.serviceAreas, other, CatalogRows(d.serviceAreas), PatchCatalog, now);
    ListedCatalog(s.consultationTypes, org, d.consultationTypes);
    CarryRows(s.consultationTypes, org, t.consultationTypes, other, CatalogRows(d.consultationTypes), PatchCatalog,
              now);
    var locations := UpsertAll(t.locations, other, LocationRows(d.locations), PatchLocation, now);
    var providers := UpsertAll(t.providers, other, ProviderRows(d.providers), PatchProvider, now);
    var areas := UpsertAll(t.serviceAreas, other, CatalogRows(d.serviceAreas), PatchCatalog, now);
    var types := UpsertAll(t.consultationTypes, other, CatalogRows(d.consultationTypes), PatchCatalog, now);
    AreasResolveThere(s, org, areas, other, d.routingGroups);
    var rows := GroupRows(d.routingGroups, areas, other).value;
    CarryGroupRows(t.routingGroups, other, rows, now);
    var groups := UpsertAll(t.routingGroups, other, rows, PatchGroup, now);
    GroupsUpserted(t.routingGroups, areas, other, d.routingGroups, now);
    LocationsUpserted(t.locations, other, d.locations, now);
    var hours := HoursOfAll(t.officeHours, locations, other, d.locations);
    var members := MembersOfAll(t.members, groups, providers, other, d.routingGroups);
    CarriedSettings(s.settings, org, t.settings, other, d.settings, now);
    var settings := SettingsOfAll(t.settings, other, d.settings, now);
    var guess := Tables(organizations, locations, providers, areas, types, groups,
                        if hours.Some? then hours.value else map[], if members.Done? then members.value
                        else map[], settings);
    CarriedHours(s, org, t.officeHours, locations, other, d.locations, guess);
    CarriedGroups(s, org, guess, other, d.routingGroups, rows, t.members);
    MirrorsExportAlike(s, guess, key);
  }

  lemma CarryGroupRows(t: Table<Scoped, GroupCols>, other: nat, rows: seq<(string, GroupCols)>, now: int)
    requires UniqueIds(t) && DistinctKeys(rows) && forall k | k in t.rows :: k.0 != other
    ensures var r := UpsertAll(t, other, rows, PatchGroup, now);
            && UniqueIds(r)
            && (forall key: string | (other, key) in r.rows :: Named(rows, key))
            && (forall i | 0 <= i < |rows| ::
                  (other, rows[i].0) in r.rows && r.rows[(other, rows[i].0)].cols == rows[i].1)
  {
    hide Named, DistinctKeys;
    UpsertNew(t, other, rows, PatchGroup, now);
    UpsertKeepsIdsUnique(t, other, rows, PatchGroup, now);
  }

  /** Moving a configuration through the empty store loses nothing. */
  lemma EmptyStoreIsWellFormed()
    ensures WellFormed(EMPTY)
  {
  }
}
