/**
 * Importing and exporting an organization's configuration: tables with row ids and foreign keys on one side, a JSON
 * document without ids or times on the other.
 *
 * A table's unique index is its map's key, so inserting an existing key is the UNIQUE violation. Row ids are handed
 * out in increasing order; the configuration tables never delete.
 */
module OrganizationImport {
  import opened Options
  import opened ConfigValidation

  // ── Tables ─────────────────────────────────────────────────────────────────

  datatype Row<C> = Row(id: nat, cols: C, createdAt: int, updatedAt: int)
  datatype Table<K, C> = Table(rows: map<K, Row<C>>, lastId: nat)

  /** (organization id, key) */
  type Scoped = (nat, string)

  datatype GroupCols = GroupCols(name: string, serviceAreaId: nat, active: bool)
  datatype Stored = Stored(value: Json, updatedAt: int)

  type HourTable = map<(nat, int, string), string>             // (location id, day, opens) -> closes
  type MemberTable = map<(nat, nat), nat>                      // (group id, provider id) -> position
  type SettingTable = map<(nat, string, string), Stored>       // (organization id, namespace, key)

  datatype Tables = Tables(
    organizations: Table<string, OrganizationCols>,
    locations: Table<Scoped, LocationCols>,
    providers: Table<Scoped, ProviderCols>,
    serviceAreas: Table<Scoped, CatalogCols>,
    consultationTypes: Table<Scoped, CatalogCols>,
    routingGroups: Table<Scoped, GroupCols>,
    officeHours: HourTable,
    members: MemberTable,
    settings: SettingTable)

  const EMPTY :=
    Tables(Table(map[], 0), Table(map[], 0), Table(map[], 0), Table(map[], 0), Table(map[], 0), Table(map[], 0), map[],
           map[], map[])

  // ── The document ───────────────────────────────────────────────────────────

  datatype Document = Document(
    organization: OrganizationItem,
    locations: seq<LocationItem>,
    providers: seq<ProviderItem>,
    serviceAreas: seq<CatalogItem>,
    consultationTypes: seq<CatalogItem>,
    routingGroups: seq<GroupItem>,
    settings: seq<SettingItem>)

  function NormalizeAll<T>(items: seq<Json>, f: Json -> Checked<T>): Checked<seq<T>> {
    if items == [] then Valid([])
    else
      var first := f(items[0]);
      if first.Invalid? then Invalid(first.problems)
      else
        var rest := NormalizeAll(items[1..], f);
        if rest.Invalid? then rest else Valid([first.item] + rest.item)
  }

  /** An omitted collection imports nothing, as an empty one does. */
  function Collection<T>(o: map<Prop, Json>, p: Prop, f: Json -> Checked<T>): Checked<seq<T>> {
    if p !in o then Valid([])
    else if !o[p].Arr? then Invalid([p])
    else NormalizeAll(o[p].items, f)
  }

  function Parse(tree: Json): Checked<Document> {
    if !tree.Obj? then Invalid([Body])
    else
      var o := tree.fields;
      var org := if Organization in o then NormalizeOrganization(o[Organization]) else Invalid([Body]);
      if org.Invalid? then Invalid(org.problems) else
      var locations := Collection(o, Locations, NormalizeLocation);
      if locations.Invalid? then Invalid(locations.problems) else
      var providers := Collection(o, Providers, NormalizeProvider);
      if providers.Invalid? then Invalid(providers.problems) else
      var areas := Collection(o, ServiceAreas, NormalizeCatalogItem);
      if areas.Invalid? then Invalid(areas.problems) else
      var types := Collection(o, ConsultationTypes, NormalizeCatalogItem);
      if types.Invalid? then Invalid(types.problems) else
      var groups := Collection(o, RoutingGroups, NormalizeRoutingGroup);
      if groups.Invalid? then Invalid(groups.problems) else
      var settings := Collection(o, Settings, NormalizeSetting);
      if settings.Invalid? then Invalid(settings.problems) else
      Valid(Document(org.item, locations.item, providers.item, areas.item, types.item, groups.item, settings.item))
  }

  function RenderAll<T>(items: seq<T>, render: T -> Json): Json {
    Arr(seq(|items|, i requires 0 <= i < |items| => render(items[i])))
  }

  function RenderDocument(d: Document): Json {
    Obj(map[
      Organization := RenderOrganization(d.organization),
      Locations := RenderAll(d.locations, RenderLocation),
      Providers := RenderAll(d.providers, RenderProvider),
      ServiceAreas := RenderAll(d.serviceAreas, RenderCatalogItem),
      ConsultationTypes := RenderAll(d.consultationTypes, RenderCatalogItem),
      RoutingGroups := RenderAll(d.routingGroups, RenderGroup),
      Settings := RenderAll(d.settings, RenderSetting)])
  }

  predicate CleanDocument(d: Document) {
    && CleanOrganization(d.organization)
    && (forall x | x in d.locations :: CleanLocation(x))
    && (forall x | x in d.providers :: CleanProvider(x))
    && (forall x | x in d.serviceAreas :: CleanCatalogItem(x))
    && (forall x | x in d.consultationTypes :: CleanCatalogItem(x))
    && (forall x | x in d.routingGroups :: CleanGroup(x))
    && (forall x | x in d.settings :: CleanSetting(x))
  }

  lemma {:induction false} AllRoundTrip<T>(items: seq<T>, f: Json -> Checked<T>, render: T -> Json)
    requires forall x | x in items :: f(render(x)) == Valid(x)
    ensures NormalizeAll(RenderAll(items, render).items, f) == Valid(items)
  {
    if items != [] {
      AllRoundTrip(items[1..], f, render);
      assert RenderAll(items, render).items[1..] == RenderAll(items[1..], render).items;
      assert items == [items[0]] + items[1..];
    }
  }

  /** The first problem met decides. */
  lemma {:induction false} AllRoundTripOrFail<T>(items: seq<T>, f: Json -> Checked<T>, render: T -> Json,
                                                 fits: T -> bool, problems: seq<Prop>)
    requires forall x | x in items :: f(render(x)) == if fits(x) then Valid(x) else Invalid(problems)
    ensures NormalizeAll(RenderAll(items, render).items, f)
            == if forall x | x in items :: fits(x) then Valid(items) else Invalid(problems)
  {
    if items != [] {
      AllRoundTripOrFail(items[1..], f, render, fits, problems);
      assert RenderAll(items, render).items[1..] == RenderAll(items[1..], render).items;
      assert items == [items[0]] + items[1..];
      assert items[0] in items;
    }
  }

  lemma {:induction false} AllAreClean<T>(items: seq<Json>, f: Json -> Checked<T>, clean: T -> bool)
    requires forall j | j in items :: f(j).Valid? ==> clean(f(j).item)
    requires NormalizeAll(items, f).Valid?
    ensures forall x | x in NormalizeAll(items, f).item :: clean(x)
  {
    if items != [] { AllAreClean(items[1..], f, clean); }
  }

  /** No address has outgrown the limit. */
  predicate EmailsFit(d: Document) {
    forall x | x in d.providers :: EmailFits(x.cols.email)
  }

  /** A document made of validators' outputs is read back as it was, if and only if its addresses fit. */
  lemma DocumentRoundTrip(d: Document)
    requires CleanDocument(d)
    ensures Parse(RenderDocument(d)) == if EmailsFit(d) then Valid(d) else Invalid([Email])
  {
    hide NormalizeOrganization, NormalizeLocation, NormalizeProvider, NormalizeCatalogItem, NormalizeRoutingGroup,
         NormalizeSetting, NormalizeAll, RenderOrganization, RenderLocation, RenderProvider, RenderCatalogItem,
         RenderGroup, RenderSetting, CleanOrganization, CleanLocation, CleanProvider, CleanCatalogItem, CleanGroup,
         CleanSetting;
    OrganizationRoundTrip(d.organization);
    forall x | x in d.locations ensures NormalizeLocation(RenderLocation(x)) == Valid(x) { LocationRoundTrip(x); }
    AllRoundTrip(d.locations, NormalizeLocation, RenderLocation);
    var fits := (x: ProviderItem) => EmailFits(x.cols.email);
    forall x | x in d.providers
      ensures NormalizeProvider(RenderProvider(x)) == if fits(x) then Valid(x) else Invalid([Email])
    {
      ProviderRoundTrip(x);
    }
    AllRoundTripOrFail(d.providers, NormalizeProvider, RenderProvider, fits, [Email]);
    forall x | x in d.serviceAreas
      ensures NormalizeCatalogItem(RenderCatalogItem(x)) == Valid(x)
    {
      CatalogItemRoundTrip(x);
    }
    AllRoundTrip(d.serviceAreas, NormalizeCatalogItem, RenderCatalogItem);
    forall x | x in d.consultationTypes
      ensures NormalizeCatalogItem(RenderCatalogItem(x)) == Valid(x)
    {
      CatalogItemRoundTrip(x);
    }
    AllRoundTrip(d.consultationTypes, NormalizeCatalogItem, RenderCatalogItem);
    forall x | x in d.routingGroups ensures NormalizeRoutingGroup(RenderGroup(x)) == Valid(x) { GroupRoundTrip(x); }
    AllRoundTrip(d.routingGroups, NormalizeRoutingGroup, RenderGroup);
    forall x | x in d.settings ensures NormalizeSetting(RenderSetting(x)) == Valid(x) { SettingRoundTrip(x); }
    AllRoundTrip(d.settings, NormalizeSetting, RenderSetting);
  }

  // ── Import ─────────────────────────────────────────────────────────────────

  datatype ImportError = ValidationFailed(problems: seq<Prop>) | UnknownEntity(entity: string) | UniqueViolation

  datatype Result<T> = Done(value: T) | Failed(error: ImportError)

  function Upsert<K, C>(t: Table<K, C>, k: K, item: C, patch: (C, C) -> C, now: int): Table<K, C> {
    if k in t.rows then
      t.(rows := t.rows[k := t.rows[k].(cols := patch(t.rows[k].cols, item), updatedAt := now)])
    else
      Table(t.rows[k := Row(t.lastId + 1, item, now, now)], t.lastId + 1)
  }

  function UpsertAll<C>(t: Table<Scoped, C>, org: nat, items: seq<(string, C)>, patch: (C, C) -> C,
                        now: int): Table<Scoped, C> {
    if items == [] then t
    else
      var last := items[|items| - 1];
      Upsert(UpsertAll(t, org, items[..|items| - 1], patch, now), (org, last.0), last.1, patch, now)
  }

  function Kept<T>(was: Option<T>, given: Option<T>): Option<T> {
    if given.Some? then given else was
  }

  /** An omitted optional leaves the column as it is. */
  function PatchOrganization(was: OrganizationCols, given: OrganizationCols): OrganizationCols {
    given.(displayName := Kept(was.displayName, given.displayName))
  }

  function PatchLocation(was: LocationCols, given: LocationCols): LocationCols {
    LocationCols(given.name, Kept(was.addressLine1, given.addressLine1), Kept(was.addressLine2, given.addressLine2),
                 Kept(was.city, given.city), Kept(was.region, given.region), Kept(was.postalCode, given.postalCode),
                 Kept(was.phone, given.phone), given.active)
  }

  function PatchProvider(was: ProviderCols, given: ProviderCols): ProviderCols {
    ProviderCols(given.name, Kept(was.displayName, given.displayName), Kept(was.email, given.email),
                 Kept(was.phone, given.phone), given.active)
  }

  function PatchCatalog(was: CatalogCols, given: CatalogCols): CatalogCols {
    given
  }

  function PatchGroup(was: GroupCols, given: GroupCols): GroupCols {
    given
  }

  function LocationRows(items: seq<LocationItem>): seq<(string, LocationCols)> {
    seq(|items|, i requires 0 <= i < |items| => (items[i].key, items[i].cols))
  }

  function ProviderRows(items: seq<ProviderItem>): seq<(string, ProviderCols)> {
    seq(|items|, i requires 0 <= i < |items| => (items[i].key, items[i].cols))
  }

  function CatalogRows(items: seq<CatalogItem>): seq<(string, CatalogCols)> {
    seq(|items|, i requires 0 <= i < |items| => (items[i].key, items[i].cols))
  }

  function ClearHours(h: HourTable, location: nat): HourTable {
    map k | k in h && k.0 != location :: h[k]
  }

  function InsertHours(h: HourTable, location: nat, hours: seq<Hour>): Option<HourTable> {
    if hours == [] then Some(h)
    else
      var before := InsertHours(h, location, hours[..|hours| - 1]);
      var hour := hours[|hours| - 1];
      if before.None? || (location, hour.dayOfWeek, hour.opens) in before.value then None
      else Some(before.value[(location, hour.dayOfWeek, hour.opens) := hour.closes])
  }

  function ReplaceHours(h: HourTable, location: nat, hours: seq<Hour>): Option<HourTable> {
    InsertHours(ClearHours(h, location), location, hours)
  }

  /** Office hours of every location that names them. */
  function HoursOfAll(h: HourTable, locations: Table<Scoped, LocationCols>, org: nat,
                      items: seq<LocationItem>): Option<HourTable>
    requires forall x | x in items :: (org, x.key) in locations.rows
  {
    if items == [] then Some(h)
    else
      var before := HoursOfAll(h, locations, org, items[..|items| - 1]);
      var x := items[|items| - 1];
      if before.None? || x.officeHours.None? then before
      else ReplaceHours(before.value, locations.rows[(org, x.key)].id, x.officeHours.value)
  }

  function ClearMembers(m: MemberTable, group: nat): MemberTable {
    map k | k in m && k.0 != group :: m[k]
  }

  function InsertMembers(m: MemberTable, group: nat, providers: seq<nat>): Option<MemberTable> {
    if providers == [] then Some(m)
    else
      var n := |providers| - 1;
      var before := InsertMembers(m, group, providers[..n]);
      if before.None? || (group, providers[n]) in before.value then None
      else Some(before.value[(group, providers[n]) := n])
  }

  function ReplaceMembers(m: MemberTable, group: nat, providers: seq<nat>): Option<MemberTable> {
    InsertMembers(ClearMembers(m, group), group, providers)
  }

  function ResolveProviders(providers: Table<Scoped, ProviderCols>, org: nat, keys: seq<string>): Option<seq<nat>> {
    if keys == [] then Some([])
    else
      var n := |keys| - 1;
      var before := ResolveProviders(providers, org, keys[..n]);
      if before.None? || (org, keys[n]) !in providers.rows then None
      else Some(before.value + [providers.rows[(org, keys[n])].id])
  }

  function MembersOfAll(m: MemberTable, groups: Table<Scoped, GroupCols>, providers: Table<Scoped, ProviderCols>,
                        org: nat, items: seq<GroupItem>): Result<MemberTable>
    requires forall x | x in items :: (org, x.key) in groups.rows
  {
    if items == [] then Done(m)
    else
      var before := MembersOfAll(m, groups, providers, org, items[..|items| - 1]);
      var x := items[|items| - 1];
      if before.Failed? || x.providers.None? then before
      else
        var ids := ResolveProviders(providers, org, x.providers.value);
        if ids.None? then Failed(UnknownEntity("provider"))
        else
          var after := ReplaceMembers(before.value, groups.rows[(org, x.key)].id, ids.value);
          if after.None? then Failed(UniqueViolation) else Done(after.value)
  }

  function GroupRows(items: seq<GroupItem>, areas: Table<Scoped, CatalogCols>,
                     org: nat): Option<seq<(string, GroupCols)>> {
    if items == [] then Some([])
    else
      var n := |items| - 1;
      var before := GroupRows(items[..n], areas, org);
      if before.None? || (org, items[n].serviceArea) !in areas.rows then None
      else Some(before.value
                + [(items[n].key,
                    GroupCols(items[n].name, areas.rows[(org, items[n].serviceArea)].id, items[n].active))])
  }

  function SettingsOfAll(s: SettingTable, org: nat, items: seq<SettingItem>, now: int): SettingTable {
    if items == [] then s
    else
      var x := items[|items| - 1];
      SettingsOfAll(s, org, items[..|items| - 1], now)[(org, x.namespace, x.key) := Stored(x.value, now)]
  }

  lemma {:induction false} UpsertedKeys<C>(t: Table<Scoped, C>, org: nat, items: seq<(string, C)>, patch: (C, C) -> C,
                                           now: int)
    ensures forall k :: k in UpsertAll(t, org, items, patch, now).rows
              <==> k in t.rows || exists i :: 0 <= i < |items| && k == (org, items[i].0)
  {
    if items != [] {
      var n := |items| - 1;
      UpsertedKeys(t, org, items[..n], patch, now);
      forall k
        ensures k in UpsertAll(t, org, items, patch, now).rows
                <==> k in t.rows || exists i :: 0 <= i < |items| && k == (org, items[i].0)
      {
        if k in UpsertAll(t, org, items[..n], patch, now).rows && k !in t.rows {
          var i :| 0 <= i < n && k == (org, items[..n][i].0);
          assert k == (org, items[i].0);
        }
        if i :| 0 <= i < |items| && k == (org, items[i].0) && i < n {
          assert k == (org, items[..n][i].0);
        }
      }
    }
  }

  lemma {:induction false} GroupRowsKeys(items: seq<GroupItem>, areas: Table<Scoped, CatalogCols>, org: nat)
    requires GroupRows(items, areas, org).Some?
    ensures var rows := GroupRows(items, areas, org).value;
            && |rows| == |items|
            && forall i | 0 <= i < |items| :: && rows[i].0 == items[i].key && (org, items[i].serviceArea) in areas.rows
                 && rows[i].1 == GroupCols(items[i].name, areas.rows[(org, items[i].serviceArea)].id, items[i].active)
  {
    if items != [] { GroupRowsKeys(items[..|items| - 1], areas, org); }
  }

  /** Everything after validation, inside the one transaction: a failure at any point leaves no trace. */
  function Apply(s: Tables, d: Document, now: int): Result<Tables> {
    var organizations := Upsert(s.organizations, d.organization.key, d.organization.cols, PatchOrganization, now);
    var org := organizations.rows[d.organization.key].id;
    var providers := UpsertAll(s.providers, org, ProviderRows(d.providers), PatchProvider, now);
    var locations := UpsertAll(s.locations, org, LocationRows(d.locations), PatchLocation, now);
    assert forall x | x in d.locations ::
             (org, x.key) in locations.rows by { LocationsUpserted(s.locations, org, d.locations, now); }
    var hours := HoursOfAll(s.officeHours, locations, org, d.locations);
    if hours.None? then Failed(UniqueViolation) else
    var areas := UpsertAll(s.serviceAreas, org, CatalogRows(d.serviceAreas), PatchCatalog, now);
    var types := UpsertAll(s.consultationTypes, org, CatalogRows(d.consultationTypes), PatchCatalog, now);
    var rows := GroupRows(d.routingGroups, areas, org);
    if rows.None? then Failed(UnknownEntity("service_area")) else
    var groups := UpsertAll(s.routingGroups, org, rows.value, PatchGroup, now);
    assert forall x | x in d.routingGroups ::
             (org, x.key) in groups.rows by { GroupsUpserted(s.routingGroups, areas, org, d.routingGroups, now); }
    var members := MembersOfAll(s.members, groups, providers, org, d.routingGroups);
    if members.Failed? then Failed(members.error) else
    Done(Tables(organizations, locations, providers, areas, types, groups, hours.value, members.value,
                SettingsOfAll(s.settings, org, d.settings, now)))
  }

  lemma LocationsUpserted(t: Table<Scoped, LocationCols>, org: nat, items: seq<LocationItem>, now: int)
    ensures forall x | x in items :: (org, x.key) in UpsertAll(t, org, LocationRows(items), PatchLocation, now).rows
  {
    UpsertedKeys(t, org, LocationRows(items), PatchLocation, now);
    forall x | x in items ensures (org, x.key) in UpsertAll(t, org, LocationRows(items), PatchLocation, now).rows {
      var i :| 0 <= i < |items| && items[i] == x;
      assert (org, x.key) == (org, LocationRows(items)[i].0);
    }
  }

  lemma GroupsUpserted(t: Table<Scoped, GroupCols>, areas: Table<Scoped, CatalogCols>, org: nat, items: seq<GroupItem>,
                       now: int)
    requires GroupRows(items, areas, org).Some?
    ensures forall x | x in items ::
              (org, x.key) in UpsertAll(t, org, GroupRows(items, areas, org).value, PatchGroup, now).rows
  {
    var rows := GroupRows(items, areas, org).value;
    GroupRowsKeys(items, areas, org);
    UpsertedKeys(t, org, rows, PatchGroup, now);
    forall x | x in items ensures (org, x.key) in UpsertAll(t, org, rows, PatchGroup, now).rows {
      var i :| 0 <= i < |items| && items[i] == x;
      assert (org, x.key) == (org, rows[i].0);
    }
  }

  function Import(s: Tables, tree: Json, now: int): Result<Tables> {
    var d := Parse(tree);
    if d.Invalid? then Failed(ValidationFailed(d.problems)) else Apply(s, d.item, now)
  }
}
