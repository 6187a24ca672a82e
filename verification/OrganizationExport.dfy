/**
 * Exporting an organization, and why importing is its inverse in both directions: an organization's own export changes
 * nothing it stores, and an empty store that imports an export, exports the same document.
 */
module OrganizationExport {
  import opened Options
  import opened ConfigValidation
  import opened OrganizationImport
  import opened Listings

  // ── Export ─────────────────────────────────────────────────────────────────

  predicate HourBefore(a: Hour, b: Hour) {
    a.dayOfWeek < b.dayOfWeek || (a.dayOfWeek == b.dayOfWeek && Before(a.opens, b.opens))
  }

  predicate LocationBefore(a: LocationItem, b: LocationItem) {
    Before(a.key, b.key)
  }

  predicate ProviderBefore(a: ProviderItem, b: ProviderItem) {
    Before(a.key, b.key)
  }

  predicate CatalogBefore(a: CatalogItem, b: CatalogItem) {
    a.cols.displayOrder < b.cols.displayOrder || (a.cols.displayOrder == b.cols.displayOrder && Before(a.key, b.key))
  }

  predicate GroupBefore(a: GroupItem, b: GroupItem) {
    Before(a.key, b.key)
  }

  predicate SettingBefore(a: SettingItem, b: SettingItem) {
    Before(a.namespace, b.namespace) || (a.namespace == b.namespace && Before(a.key, b.key))
  }

  /** By position, then by provider key. */
  predicate MemberBefore(a: (nat, string), b: (nat, string)) {
    a.0 < b.0 || (a.0 == b.0 && Before(a.1, b.1))
  }

  ghost function KeyOfId<C>(t: Table<Scoped, C>, id: nat): string {
    if k: Scoped :| k in t.rows && t.rows[k].id == id then k.1 else ""
  }

  ghost function HourSet(h: HourTable, location: nat): set<Hour> {
    set k | k in h && k.0 == location :: Hour(k.1, k.2, h[k])
  }

  ghost function HoursOf(h: HourTable, location: nat): seq<Hour> {
    Listing(HourSet(h, location), HourBefore)
  }

  ghost function MemberSet(m: MemberTable, providers: Table<Scoped, ProviderCols>, group: nat): set<(nat, string)> {
    set k | k in m && k.0 == group :: (m[k], KeyOfId(providers, k.1))
  }

  function Keys(pairs: seq<(nat, string)>): seq<string> {
    seq(|pairs|, i requires 0 <= i < |pairs| => pairs[i].1)
  }

  ghost function MembersOf(m: MemberTable, providers: Table<Scoped, ProviderCols>, group: nat): seq<string> {
    Keys(Listing(MemberSet(m, providers, group), MemberBefore))
  }

  ghost function LocationSet(t: Table<Scoped, LocationCols>, h: HourTable, org: nat): set<LocationItem> {
    set k | k in t.rows && k.0 == org :: LocationItem(k.1, t.rows[k].cols, Some(HoursOf(h, t.rows[k].id)))
  }

  ghost function ProviderSet(t: Table<Scoped, ProviderCols>, org: nat): set<ProviderItem> {
    set k | k in t.rows && k.0 == org :: ProviderItem(k.1, t.rows[k].cols)
  }

  ghost function CatalogSet(t: Table<Scoped, CatalogCols>, org: nat): set<CatalogItem> {
    set k | k in t.rows && k.0 == org :: CatalogItem(k.1, t.rows[k].cols)
  }

  ghost function GroupSet(s: Tables, org: nat): set<GroupItem> {
    set k | k in s.routingGroups.rows && k.0 == org :: GroupOf(s, k)
  }

  ghost function GroupOf(s: Tables, k: Scoped): GroupItem
    requires k in s.routingGroups.rows
  {
    var row := s.routingGroups.rows[k];
    GroupItem(k.1, row.cols.name, KeyOfId(s.serviceAreas, row.cols.serviceAreaId), row.cols.active,
              Some(MembersOf(s.members, s.providers, row.id)))
  }

  ghost function SettingSet(t: SettingTable, org: nat): set<SettingItem> {
    set k | k in t && k.0 == org :: SettingItem(k.1, k.2, t[k].value)
  }

  ghost function Export(s: Tables, key: string): Document
    requires key in s.organizations.rows
  {
    var row := s.organizations.rows[key];
    Document(
      OrganizationItem(key, row.cols),
      Listing(LocationSet(s.locations, s.officeHours, row.id), LocationBefore),
      Listing(ProviderSet(s.providers, row.id), ProviderBefore),
      Listing(CatalogSet(s.serviceAreas, row.id), CatalogBefore),
      Listing(CatalogSet(s.consultationTypes, row.id), CatalogBefore),
      Listing(GroupSet(s, row.id), GroupBefore),
      Listing(SettingSet(s.settings, row.id), SettingBefore))
  }

  // ── Well-formed stores ─────────────────────────────────────────────────────

  ghost predicate UniqueIds<K(!new), C>(t: Table<K, C>) {
    && (forall k | k in t.rows :: t.rows[k].id <= t.lastId)
    && (forall j, k | j in t.rows && k in t.rows && t.rows[j].id == t.rows[k].id :: j == k)
  }

  ghost predicate Ids(s: Tables) {
    && UniqueIds(s.organizations) && UniqueIds(s.locations) && UniqueIds(s.providers)
    && UniqueIds(s.serviceAreas) && UniqueIds(s.consultationTypes) && UniqueIds(s.routingGroups)
  }

  /** The row of a table with an id, in an organization. */
  ghost predicate Refers<C>(t: Table<Scoped, C>, org: nat, id: nat) {
    exists k :: k in t.rows && k.0 == org && t.rows[k].id == id
  }

  /** Foreign keys, none of which leaves its organization. */
  ghost predicate References(s: Tables) {
    && (forall k | k in s.routingGroups.rows :: Refers(s.serviceAreas, k.0, s.routingGroups.rows[k].cols.serviceAreaId))
    && (forall k | k in s.routingGroups.rows :: forall m | m in s.members && m.0 == s.routingGroups.rows[k].id ::
          Refers(s.providers, k.0, m.1))
  }

  /** No row belongs to an organization, location or group that does not exist yet. */
  ghost predicate Bounded(s: Tables) {
    && (forall k | k in s.locations.rows :: k.0 <= s.organizations.lastId)
    && (forall k | k in s.providers.rows :: k.0 <= s.organizations.lastId)
    && (forall k | k in s.serviceAreas.rows :: k.0 <= s.organizations.lastId)
    && (forall k | k in s.consultationTypes.rows :: k.0 <= s.organizations.lastId)
    && (forall k | k in s.routingGroups.rows :: k.0 <= s.organizations.lastId)
    && (forall k | k in s.settings :: k.0 <= s.organizations.lastId)
    && (forall k | k in s.officeHours :: k.0 <= s.locations.lastId)
    && (forall k | k in s.members :: k.0 <= s.routingGroups.lastId)
  }

  /** Every column was once a validator's output. */
  ghost predicate CleanRows(s: Tables) {
    && (forall k | k in s.organizations.rows :: CleanOrganization(OrganizationItem(k, s.organizations.rows[k].cols)))
    && (forall k | k in s.locations.rows :: CleanLocation(LocationItem(k.1, s.locations.rows[k].cols, None)))
    && (forall k | k in s.providers.rows :: CleanProvider(ProviderItem(k.1, s.providers.rows[k].cols)))
    && (forall k | k in s.serviceAreas.rows :: CleanCatalogItem(CatalogItem(k.1, s.serviceAreas.rows[k].cols)))
    && (forall k | k in s.consultationTypes.rows ::
          CleanCatalogItem(CatalogItem(k.1, s.consultationTypes.rows[k].cols)))
    && (forall k | k in s.routingGroups.rows ::
          CleanKey(k.1) && CleanText(s.routingGroups.rows[k].cols.name, NAME_LIMIT))
    && (forall k | k in s.officeHours :: CleanHour(Hour(k.1, k.2, s.officeHours[k])))
    && (forall k | k in s.settings :: CleanSetting(SettingItem(k.1, k.2, s.settings[k].value)))
  }

  ghost predicate WellFormed(s: Tables) {
    Ids(s) && References(s) && Bounded(s) && CleanRows(s)
  }

  lemma KeyOfOwnId<C>(t: Table<Scoped, C>, k: Scoped)
    requires UniqueIds(t) && k in t.rows
    ensures KeyOfId(t, t.rows[k].id) == k.1
  {
  }

  lemma ReferredKey<C>(t: Table<Scoped, C>, org: nat, id: nat)
    requires UniqueIds(t) && Refers(t, org, id)
    ensures (org, KeyOfId(t, id)) in t.rows && t.rows[(org, KeyOfId(t, id))].id == id
  {
    var k :| k in t.rows && k.0 == org && t.rows[k].id == id;
    KeyOfOwnId(t, k);
    assert k == (org, k.1);
  }

  lemma LocationsAreClean(s: Tables, org: nat)
    requires CleanRows(s)
    ensures forall x | x in LocationSet(s.locations, s.officeHours, org) :: CleanLocation(x)
  {
    hide CleanOrganization, CleanLocationCols, CleanProvider, CleanCatalogItem, CleanSetting, CleanHour, CleanKey,
         CleanText, Listing;
    forall x | x in LocationSet(s.locations, s.officeHours, org) ensures CleanLocation(x) {
      var k :| k in s.locations.rows && k.0 == org
        && x == LocationItem(k.1, s.locations.rows[k].cols, Some(HoursOf(s.officeHours, s.locations.rows[k].id)));
      assert CleanLocation(LocationItem(k.1, s.locations.rows[k].cols, None));
      forall h | h in x.officeHours.value ensures CleanHour(h) {
        assert h in HourSet(s.officeHours, s.locations.rows[k].id);
      }
    }
  }

  lemma OthersAreClean(s: Tables, org: nat)
    requires CleanRows(s)
    ensures forall x | x in ProviderSet(s.providers, org) :: CleanProvider(x)
    ensures forall x | x in CatalogSet(s.serviceAreas, org) :: CleanCatalogItem(x)
    ensures forall x | x in CatalogSet(s.consultationTypes, org) :: CleanCatalogItem(x)
    ensures forall x | x in SettingSet(s.settings, org) :: CleanSetting(x)
  {
    hide CleanOrganization, CleanLocation, CleanProvider, CleanCatalogItem, CleanSetting, CleanHour, CleanKey,
         CleanText;
  }

  /** What a well-formed store exports is what validators leave: it passes them again if its addresses fit. */
  lemma ExportIsClean(s: Tables, key: string)
    requires WellFormed(s) && key in s.organizations.rows
    ensures CleanDocument(Export(s, key))
  {
    hide CleanOrganization, CleanLocation, CleanProvider, CleanCatalogItem, CleanGroup, CleanSetting, CleanHour,
         CleanKey, CleanText, Ids, References, Bounded, KeyOfId, Listing, LocationSet, ProviderSet, CatalogSet,
         SettingSet, GroupOf;
    var org := s.organizations.rows[key].id;
    LocationsAreClean(s, org);
    OthersAreClean(s, org);
    forall x | x in GroupSet(s, org) ensures CleanGroup(x) {
      var k :| k in s.routingGroups.rows && k.0 == org && x == GroupOf(s, k);
      GroupIsCleanToo(s, k);
    }
  }

  lemma GroupIsCleanToo(s: Tables, k: Scoped)
    requires WellFormed(s) && k in s.routingGroups.rows
    ensures CleanGroup(GroupOf(s, k))
  {
    hide CleanOrganization, CleanLocation, CleanCatalogItem, CleanSetting, CleanHour, CleanKey, CleanText, UniqueIds,
         Refers, KeyOfId, Listing, CleanOption, CleanEmail;
    var x := GroupOf(s, k);
    ReferredKey(s.serviceAreas, k.0, s.routingGroups.rows[k].cols.serviceAreaId);
    AreaKeyIsClean(s, (k.0, x.serviceArea));
    forall p | p in x.providers.value ensures CleanKey(p) {
      var pairs := Listing(MemberSet(s.members, s.providers, s.routingGroups.rows[k].id), MemberBefore);
      var i :| 0 <= i < |pairs| && pairs[i].1 == p;
      assert pairs[i] in pairs;
      var m :| m in s.members && m.0 == s.routingGroups.rows[k].id
        && pairs[i] == (s.members[m], KeyOfId(s.providers, m.1));
      ReferredKey(s.providers, k.0, m.1);
      assert CleanProvider(ProviderItem(p, s.providers.rows[(k.0, p)].cols));
    }
  }

  lemma AreaKeyIsClean(s: Tables, k: Scoped)
    requires CleanRows(s) && k in s.serviceAreas.rows
    ensures CleanKey(k.1)
  {
    assert CleanCatalogItem(CatalogItem(k.1, s.serviceAreas.rows[k].cols));
  }

  // ── The order of an export ─────────────────────────────────────────────────

  lemma {:induction false} BeforeIsTotal(a: string, b: string)
    ensures a == b || Before(a, b) || Before(b, a)
  {
    if a != "" && b != "" && a[0] == b[0] {
      BeforeIsTotal(a[1..], b[1..]);
      assert a == [a[0]] + a[1..] && b == [b[0]] + b[1..];
    }
  }

  lemma {:induction false} BeforeIsTransitive(a: string, b: string, c: string)
    requires Before(a, b) && Before(b, c)
    ensures Before(a, c)
  {
    if a != "" && a[0] == b[0] && b[0] == c[0] { BeforeIsTransitive(a[1..], b[1..], c[1..]); }
  }

  /** Alphabetical order, for the solver: any two strings compare, and comparison chains. */
  ghost predicate Alphabetical() {
    && (forall a, b :: a == b || Before(a, b) || Before(b, a))
    && (forall a, b, c :: Before(a, b) && Before(b, c) ==> Before(a, c))
  }

  lemma StringsAreAlphabetical()
    ensures Alphabetical()
  {
    hide Before;
    forall a, b ensures a == b || Before(a, b) || Before(b, a) { BeforeIsTotal(a, b); }
    forall a, b, c | Before(a, b) && Before(b, c) ensures Before(a, c) { BeforeIsTransitive(a, b, c); }
  }

  lemma ExportIsInOrder(s: Tables, key: string)
    requires key in s.organizations.rows
    ensures var d := Export(s, key);
            && InOrder(d.locations, LocationBefore) && InOrder(d.providers, ProviderBefore)
            && InOrder(d.serviceAreas, CatalogBefore) && InOrder(d.consultationTypes, CatalogBefore)
            && InOrder(d.routingGroups, GroupBefore) && InOrder(d.settings, SettingBefore)
            && (forall x | x in d.locations :: x.officeHours.Some? && InOrder(x.officeHours.value, HourBefore))
  {
    hide Before, Listing, HoursOf, GroupOf, InOrder, Total;
    StringsAreAlphabetical();
    var org := s.organizations.rows[key].id;
    LocationsTotal(s.locations, s.officeHours, org);
    ListingIsInOrder(LocationSet(s.locations, s.officeHours, org), LocationBefore);
    ProvidersTotal(s.providers, org);
    ListingIsInOrder(ProviderSet(s.providers, org), ProviderBefore);
    CatalogTotal(s.serviceAreas, org);
    ListingIsInOrder(CatalogSet(s.serviceAreas, org), CatalogBefore);
    CatalogTotal(s.consultationTypes, org);
    ListingIsInOrder(CatalogSet(s.consultationTypes, org), CatalogBefore);
    GroupsTotal(s, org);
    ListingIsInOrder(GroupSet(s, org), GroupBefore);
    SettingsTotal(s.settings, org);
    ListingIsInOrder(SettingSet(s.settings, org), SettingBefore);
    forall x | x in Export(s, key).locations ensures x.officeHours.Some? && InOrder(x.officeHours.value, HourBefore) {
      assert x in LocationSet(s.locations, s.officeHours, org);
      var k :| k in s.locations.rows && k.0 == org
        && x == LocationItem(k.1, s.locations.rows[k].cols, Some(HoursOf(s.officeHours, s.locations.rows[k].id)));
      HoursInOrder(s.officeHours, s.locations.rows[k].id);
    }
  }

  lemma HoursInOrder(h: HourTable, location: nat)
    requires Alphabetical()
    ensures InOrder(HoursOf(h, location), HourBefore)
  {
    hide Before, Listing, InOrder;
    ListingIsInOrder(HourSet(h, location), HourBefore);
  }

  lemma LocationsTotal(t: Table<Scoped, LocationCols>, h: HourTable, org: nat)
    requires Alphabetical()
    ensures Total(LocationSet(t, h, org), LocationBefore)
  {
    hide Before, HoursOf;
  }

  lemma ProvidersTotal(t: Table<Scoped, ProviderCols>, org: nat)
    requires Alphabetical()
    ensures Total(ProviderSet(t, org), ProviderBefore)
  {
    hide Before;
  }

  lemma CatalogTotal(t: Table<Scoped, CatalogCols>, org: nat)
    requires Alphabetical()
    ensures Total(CatalogSet(t, org), CatalogBefore)
  {
    hide Before;
  }

  lemma GroupsTotal(s: Tables, org: nat)
    requires Alphabetical()
    ensures Total(GroupSet(s, org), GroupBefore)
  {
    hide Before, MembersOf, KeyOfId;
  }

  lemma SettingsTotal(t: SettingTable, org: nat)
    requires Alphabetical()
    ensures Total(SettingSet(t, org), SettingBefore)
  {
    hide Before;
  }

  /**
   * Every list of an export is sorted: by key, by display order and key, by namespace and key, by day and opening time.
   */
  lemma ExportIsSorted(s: Tables, key: string)
    requires key in s.organizations.rows
    ensures var d := Export(s, key);
            && (forall i, j | 0 <= i < j < |d.locations| :: Before(d.locations[i].key, d.locations[j].key))
            && (forall i, j | 0 <= i < j < |d.providers| :: Before(d.providers[i].key, d.providers[j].key))
            && SortedCatalog(d.serviceAreas) && SortedCatalog(d.consultationTypes)
            && (forall i, j | 0 <= i < j < |d.routingGroups| :: Before(d.routingGroups[i].key, d.routingGroups[j].key))
            && (forall i, j | 0 <= i < j < |d.settings| ::
                  || Before(d.settings[i].namespace, d.settings[j].namespace)
                  || (d.settings[i].namespace == d.settings[j].namespace
                      && Before(d.settings[i].key, d.settings[j].key)))
            && (forall x | x in d.locations :: x.officeHours.Some? && SortedHours(x.officeHours.value))
  {
    hide Before, Export, HourBefore, CatalogBefore;
    ExportIsInOrder(s, key);
    var d := Export(s, key);
    SortedItems(d.serviceAreas);
    SortedItems(d.consultationTypes);
    forall x | x in d.locations ensures x.officeHours.Some? && SortedHours(x.officeHours.value) {
      SortedTimes(x.officeHours.value);
    }
  }

  ghost predicate SortedCatalog(items: seq<CatalogItem>) {
    forall i, j | 0 <= i < j < |items| ::
      || items[i].cols.displayOrder < items[j].cols.displayOrder
      || (items[i].cols.displayOrder == items[j].cols.displayOrder && Before(items[i].key, items[j].key))
  }

  ghost predicate SortedHours(hours: seq<Hour>) {
    forall i, j | 0 <= i < j < |hours| ::
      || hours[i].dayOfWeek < hours[j].dayOfWeek
      || (hours[i].dayOfWeek == hours[j].dayOfWeek && Before(hours[i].opens, hours[j].opens))
  }

  lemma SortedItems(items: seq<CatalogItem>)
    requires InOrder(items, CatalogBefore)
    ensures SortedCatalog(items)
  {
    hide Before;
  }

  lemma SortedTimes(hours: seq<Hour>)
    requires InOrder(hours, HourBefore)
    ensures SortedHours(hours)
  {
    hide Before;
  }

  /** The first key comes before the second by position, or by itself where they share one. */
  ghost predicate Precedes(members: set<(nat, string)>, a: string, b: string) {
    exists i, j :: (i, a) in members && (j, b) in members && (i < j || (i == j && Before(a, b)))
  }

  /** A group's providers are exported by position, and by key where positions are shared. */
  lemma MembersAreSorted(m: MemberTable, providers: Table<Scoped, ProviderCols>, group: nat)
    ensures var keys := MembersOf(m, providers, group);
            forall i, j | 0 <= i < j < |keys| :: Precedes(MemberSet(m, providers, group), keys[i], keys[j])
  {
    hide Before, MemberSet, KeyOfId;
    StringsAreAlphabetical();
    var members := MemberSet(m, providers, group);
    MembersTotal(members);
    ListingIsInOrder(members, MemberBefore);
    var pairs := Listing(members, MemberBefore);
    var keys := MembersOf(m, providers, group);
    forall i, j | 0 <= i < j < |keys| ensures Precedes(members, keys[i], keys[j]) {
      assert pairs[i] in members && pairs[j] in members && MemberBefore(pairs[i], pairs[j]);
      assert (pairs[i].0, keys[i]) in members && (pairs[j].0, keys[j]) in members;
    }
  }

  lemma MembersTotal(members: set<(nat, string)>)
    requires Alphabetical()
    ensures Total(members, MemberBefore)
  {
    hide Before;
  }
}
