/**
 * What an import of any document does to any store: which documents are read, what every row, office hour, membership
 * and setting is afterwards, and exactly when the import fails and with which error.
 */
module ImportLaws {
  import opened Options
  import opened ConfigValidation
  import opened OrganizationImport
  import opened OrganizationExport
  import opened ImportFolds
  import opened Sequences

  // ── Reading the document ───────────────────────────────────────────────────

  /** A collection that is there is an array, each element accepted by itself, kept in order. */
  ghost predicate Collected<T(!new)>(o: map<Prop, Json>, p: Prop, f: Json -> Checked<T>, items: seq<T>) {
    if p !in o then items == []
    else
      && o[p].Arr? && |items| == |o[p].items|
      && forall i | 0 <= i < |items| :: f(o[p].items[i]) == Valid(items[i])
  }

  ghost predicate Acceptable<T(!new)>(o: map<Prop, Json>, p: Prop, f: Json -> Checked<T>) {
    p in o ==> o[p].Arr? && forall i | 0 <= i < |o[p].items| :: f(o[p].items[i]).Valid?
  }

  lemma {:induction false} AllNormalized<T(!new)>(items: seq<Json>, f: Json -> Checked<T>)
    ensures var r := NormalizeAll(items, f);
            && (r.Valid? <==> forall i | 0 <= i < |items| :: f(items[i]).Valid?)
            && (r.Valid? ==> |r.item| == |items| && forall i | 0 <= i < |items| :: f(items[i]) == Valid(r.item[i]))
  {
    if items != [] {
      AllNormalized(items[1..], f);
      forall i | 0 < i < |items| ensures items[1..][i - 1] == items[i] {}
    }
  }

  lemma CollectionLaw<T(!new)>(o: map<Prop, Json>, p: Prop, f: Json -> Checked<T>)
    ensures var r := Collection(o, p, f);
            (r.Valid? <==> Acceptable(o, p, f)) && (r.Valid? ==> Collected(o, p, f, r.item))
  {
    if p in o && o[p].Arr? { AllNormalized(o[p].items, f); }
  }

  /** A document is read exactly if its organization and every element of every collection is accepted. */
  lemma DocumentIsReadExactlyWhen(tree: Json)
    ensures Parse(tree).Valid? <==>
              && tree.Obj? && Organization in tree.fields && NormalizeOrganization(tree.fields[Organization]).Valid?
              && Acceptable(tree.fields, Locations, NormalizeLocation)
              && Acceptable(tree.fields, Providers, NormalizeProvider)
              && Acceptable(tree.fields, ServiceAreas, NormalizeCatalogItem)
              && Acceptable(tree.fields, ConsultationTypes, NormalizeCatalogItem)
              && Acceptable(tree.fields, RoutingGroups, NormalizeRoutingGroup)
              && Acceptable(tree.fields, Settings, NormalizeSetting)
    ensures !tree.Obj? || Organization !in tree.fields ==> Parse(tree) == Invalid([Body])
    ensures tree.Obj? && Organization in tree.fields && NormalizeOrganization(tree.fields[Organization]).Invalid? ==>
              Parse(tree) == Invalid(NormalizeOrganization(tree.fields[Organization]).problems)
    ensures Parse(tree).Valid? ==>
              var d := Parse(tree).item;
              && NormalizeOrganization(tree.fields[Organization]) == Valid(d.organization)
              && Collected(tree.fields, Locations, NormalizeLocation, d.locations)
              && Collected(tree.fields, Providers, NormalizeProvider, d.providers)
              && Collected(tree.fields, ServiceAreas, NormalizeCatalogItem, d.serviceAreas)
              && Collected(tree.fields, ConsultationTypes, NormalizeCatalogItem, d.consultationTypes)
              && Collected(tree.fields, RoutingGroups, NormalizeRoutingGroup, d.routingGroups)
              && Collected(tree.fields, Settings, NormalizeSetting, d.settings)
  {
    hide Collection, Acceptable, Collected, NormalizeOrganization, NormalizeLocation, NormalizeProvider,
         NormalizeCatalogItem, NormalizeRoutingGroup, NormalizeSetting;
    if tree.Obj? {
      var o := tree.fields;
      CollectionLaw(o, Locations, NormalizeLocation);
      CollectionLaw(o, Providers, NormalizeProvider);
      CollectionLaw(o, ServiceAreas, NormalizeCatalogItem);
      CollectionLaw(o, ConsultationTypes, NormalizeCatalogItem);
      CollectionLaw(o, RoutingGroups, NormalizeRoutingGroup);
      CollectionLaw(o, Settings, NormalizeSetting);
    }
  }

  // ── Rows ───────────────────────────────────────────────────────────────────

  /** The columns of a row; one that a document may leave out is optional. */
  ghost function LocationColumns(c: LocationCols): seq<Option<Json>> {
    [Some(Str(c.name)), Text(c.addressLine1), Text(c.addressLine2), Text(c.city), Text(c.region), Text(c.postalCode),
     Text(c.phone), Some(Bool(c.active))]
  }

  ghost function ProviderColumns(c: ProviderCols): seq<Option<Json>> {
    [Some(Str(c.name)), Text(c.displayName), Text(c.email), Text(c.phone), Some(Bool(c.active))]
  }

  ghost function CatalogColumns(c: CatalogCols): seq<Option<Json>> {
    [Some(Str(c.name)), Some(Int(c.displayOrder)), Some(Bool(c.active))]
  }

  ghost function GroupColumns(c: GroupCols): seq<Option<Json>> {
    [Some(Str(c.name)), Some(Int(c.serviceAreaId)), Some(Bool(c.active))]
  }

  /** The last item of that key that gives the column. */
  ghost predicate LastGiving<C(!new)>(items: seq<(string, C)>, key: string, columns: C -> seq<Option<Json>>, q: nat,
                                      i: int)
    requires forall c :: q < |columns(c)|
  {
    && 0 <= i < |items| && items[i].0 == key && columns(items[i].1)[q].Some?
    && forall j | i < j < |items| && items[j].0 == key :: columns(items[j].1)[q].None?
  }

  /** A column holds what the document gives last; what it leaves out stays as it was, or empty in a new row. */
  ghost predicate Merged<C(!new)>(t: Table<Scoped, C>, r: Table<Scoped, C>, org: nat, items: seq<(string, C)>,
                                  key: string, columns: C -> seq<Option<Json>>, q: nat)
    requires forall c :: q < |columns(c)|
  {
    Named(items, key) ==>
      && (org, key) in r.rows
      && var after := columns(r.rows[(org, key)].cols)[q];
         && (forall i | LastGiving(items, key, columns, q, i) :: after == columns(items[i].1)[q])
         && ((forall i | 0 <= i < |items| && items[i].0 == key :: columns(items[i].1)[q].None?) ==>
               after == if (org, key) in t.rows then columns(t.rows[(org, key)].cols)[q] else None)
  }

  lemma LastGivingOfMore<C(!new)>(items: seq<(string, C)>, key: string, columns: C -> seq<Option<Json>>, q: nat, i: int)
    requires items != [] && forall c :: q < |columns(c)|
    requires LastGiving(items, key, columns, q, i)
    ensures i == |items| - 1 || LastGiving(items[..|items| - 1], key, columns, q, i)
  {
  }

  lemma MergeStep<C(!new)>(t: Table<Scoped, C>, before: Table<Scoped, C>, org: nat, items: seq<(string, C)>,
                           patch: (C, C) -> C, now: int, key: string, columns: C -> seq<Option<Json>>, q: nat)
    requires items != [] && forall c :: q < |columns(c)|
    requires forall a, b :: columns(patch(a, b))[q] == if columns(b)[q].Some? then columns(b)[q] else columns(a)[q]
    requires var n := |items| - 1;
             && Merged(t, before, org, items[..n], key, columns, q)
             && (!Named(items[..n], key) ==>
                   && ((org, key) in before.rows <==> (org, key) in t.rows)
                   && ((org, key) in t.rows ==> before.rows[(org, key)] == t.rows[(org, key)]))
    ensures var last := items[|items| - 1];
            Merged(t, Upsert(before, (org, last.0), last.1, patch, now), org, items, key, columns, q)
  {
    hide LastGiving;
    var n := |items| - 1;
    var last := items[n];
    var r := Upsert(before, (org, last.0), last.1, patch, now);
    NamedLonger(items, key);
    forall i | 0 <= i < n ensures items[..n][i] == items[i] {}
    if Named(items, key) {
      var after := columns(r.rows[(org, key)].cols)[q];
      forall i | LastGiving(items, key, columns, q, i) ensures 0 <= i < |items| {
        GivingIsOf(items, key, columns, q, i);
      }
      forall i | LastGiving(items, key, columns, q, i) ensures after == columns(items[i].1)[q] {
        LastGivingOfMore(items, key, columns, q, i);
        GivingIsOf(items, key, columns, q, i);
        if i < n && last.0 == key {
          assert columns(last.1)[q].None?;
        }
      }
    }
  }

  lemma GivingIsOf<C(!new)>(items: seq<(string, C)>, key: string, columns: C -> seq<Option<Json>>, q: nat, i: int)
    requires forall c :: q < |columns(c)|
    requires LastGiving(items, key, columns, q, i)
    ensures 0 <= i < |items| && items[i].0 == key && columns(items[i].1)[q].Some?
    ensures i < |items| - 1 && items[|items| - 1].0 == key ==> columns(items[|items| - 1].1)[q].None?
    ensures i < |items| - 1 ==> Named(items[..|items| - 1], key)
  {
    if i < |items| - 1 { assert items[..|items| - 1][i].0 == key; }
  }

  lemma {:induction false} UpsertMerges<C(!new)>(t: Table<Scoped, C>, org: nat, items: seq<(string, C)>,
                                                 patch: (C, C) -> C, now: int, key: string,
                                                 columns: C -> seq<Option<Json>>, q: nat)
    requires forall c :: q < |columns(c)|
    requires forall a, b :: columns(patch(a, b))[q] == if columns(b)[q].Some? then columns(b)[q] else columns(a)[q]
    ensures Merged(t, UpsertAll(t, org, items, patch, now), org, items, key, columns, q)
  {
    hide Merged, Named, Upsert;
    if items == [] {
      NothingMerged(t, org, items, key, columns, q);
    } else {
      var n := |items| - 1;
      var before := UpsertAll(t, org, items[..n], patch, now);
      UpsertMerges(t, org, items[..n], patch, now, key, columns, q);
      UpsertRest(t, org, items[..n], patch, now);
      MergeStep(t, before, org, items, patch, now, key, columns, q);
    }
  }

  lemma NothingMerged<C(!new)>(t: Table<Scoped, C>, org: nat, items: seq<(string, C)>, key: string,
                               columns: C -> seq<Option<Json>>, q: nat)
    requires items == [] && forall c :: q < |columns(c)|
    ensures Merged(t, t, org, items, key, columns, q)
  {
  }

  /** The rows there are afterwards, their ids and times: named rows are written now, the others are as they were. */
  ghost predicate Rest<C>(t: Table<Scoped, C>, r: Table<Scoped, C>, org: nat, items: seq<(string, C)>, now: int) {
    && (forall k :: k in r.rows <==> k in t.rows || (k.0 == org && Named(items, k.1)))
    && (forall k | k in t.rows && !(k.0 == org && Named(items, k.1)) :: r.rows[k] == t.rows[k])
    && (forall k | k in r.rows && k.0 == org && Named(items, k.1) ::
          && r.rows[k].updatedAt == now
          && (if k in t.rows then r.rows[k].id == t.rows[k].id && r.rows[k].createdAt == t.rows[k].createdAt
              else t.lastId < r.rows[k].id <= r.lastId && r.rows[k].createdAt == now))
    && t.lastId <= r.lastId
  }

  lemma RestStep<C>(t: Table<Scoped, C>, before: Table<Scoped, C>, org: nat, items: seq<(string, C)>,
                    patch: (C, C) -> C, now: int)
    requires items != [] && Rest(t, before, org, items[..|items| - 1], now)
    ensures var last := items[|items| - 1]; Rest(t, Upsert(before, (org, last.0), last.1, patch, now), org, items, now)
  {
    hide Named;
    var n := |items| - 1;
    forall key ensures Named(items, key) <==> Named(items[..n], key) || key == items[n].0 { NamedLonger(items, key); }
  }

  lemma {:induction false} UpsertRest<C>(t: Table<Scoped, C>, org: nat, items: seq<(string, C)>, patch: (C, C) -> C,
                                         now: int)
    ensures Rest(t, UpsertAll(t, org, items, patch, now), org, items, now)
  {
    hide Rest, Upsert;
    if items == [] {
      NoRest(t, org, items, now);
    } else {
      UpsertRest(t, org, items[..|items| - 1], patch, now);
      RestStep(t, UpsertAll(t, org, items[..|items| - 1], patch, now), org, items, patch, now);
    }
  }

  lemma NoRest<C>(t: Table<Scoped, C>, org: nat, items: seq<(string, C)>, now: int)
    requires items == []
    ensures Rest(t, t, org, items, now)
  {
  }

  // ── Office hours ───────────────────────────────────────────────────────────

  /** Inserting stops at a repeated day and opening time, and only there. */
  lemma {:induction false} InsertHoursExactly(h: HourTable, location: nat, hours: seq<Hour>)
    requires forall k | k in h :: k.0 != location
    ensures InsertHours(h, location, hours).Some? <==> DistinctHours(hours)
  {
    hide HoursPlaced, SameAway;
    if hours != [] {
      var n := |hours| - 1;
      InsertHoursExactly(h, location, hours[..n]);
      if DistinctHours(hours[..n]) {
        InsertHoursPlaces(h, location, hours[..n]);
        RepeatedHour(InsertHours(h, location, hours[..n]).value, location, hours);
      } else {
        forall i | 0 <= i < n ensures hours[..n][i] == hours[i] {}
      }
    }
  }

  lemma RepeatedHour(before: HourTable, location: nat, hours: seq<Hour>)
    requires hours != [] && DistinctHours(hours[..|hours| - 1])
    requires HoursPlaced(before, location, hours[..|hours| - 1])
    ensures var x := hours[|hours| - 1]; (location, x.dayOfWeek, x.opens) !in before <==> DistinctHours(hours)
  {
    var n := |hours| - 1;
    var x := hours[n];
    forall i | 0 <= i < n ensures hours[..n][i] == hours[i] && hours[i] in hours[..n] {}
    if (location, x.dayOfWeek, x.opens) in before {
      var y := Hour(x.dayOfWeek, x.opens, before[(location, x.dayOfWeek, x.opens)]);
      assert y in hours[..n];
      var i :| 0 <= i < n && hours[..n][i] == y;
      assert hours[i] == y;
    }
  }

  lemma ReplaceHoursExactly(h: HourTable, location: nat, hours: seq<Hour>)
    ensures ReplaceHours(h, location, hours).Some? <==> DistinctHours(hours)
  {
    InsertHoursExactly(ClearHours(h, location), location, hours);
  }

  /** The last item of that location that lists hours. */
  ghost predicate LastHours(items: seq<LocationItem>, key: string, i: int) {
    && 0 <= i < |items| && items[i].key == key && items[i].officeHours.Some?
    && forall j | i < j < |items| && items[j].key == key :: items[j].officeHours.None?
  }

  ghost predicate NoHours(items: seq<LocationItem>, key: string) {
    forall i | 0 <= i < |items| && items[i].key == key :: items[i].officeHours.None?
  }

  /** Where no hours are listed they stay; where they are, the last list replaces them; nothing else is touched. */
  ghost predicate HoursFollow(h: HourTable, r: HourTable, locations: Table<Scoped, LocationCols>, org: nat,
                              items: seq<LocationItem>) {
    && (forall key, i | (org, key) in locations.rows && LastHours(items, key, i) ::
          HoursPlaced(r, locations.rows[(org, key)].id, items[i].officeHours.value))
    && (forall key | (org, key) in locations.rows && NoHours(items, key) ::
          SameAt(h, r, locations.rows[(org, key)].id))
    && (forall id: nat | (forall key | (org, key) in locations.rows :: locations.rows[(org, key)].id != id) ::
          SameAt(h, r, id))
  }

  ghost predicate SameAt(h: HourTable, r: HourTable, location: nat) {
    forall k: (nat, int, string) | k.0 == location :: (k in r <==> k in h) && (k in h ==> r[k] == h[k])
  }

  lemma HoursStep(h: HourTable, before: HourTable, r: HourTable, locations: Table<Scoped, LocationCols>, org: nat,
                  items: seq<LocationItem>)
    requires UniqueIds(locations) && items != [] && (org, items[|items| - 1].key) in locations.rows
    requires HoursFollow(h, before, locations, org, items[..|items| - 1])
    requires var x := items[|items| - 1]; var id := locations.rows[(org, x.key)].id;
             if x.officeHours.None? then r == before
             else HoursPlaced(r, id, x.officeHours.value) && SameAway(before, r, id)
    ensures HoursFollow(h, r, locations, org, items)
  {
    hide HoursPlaced;
    var n := |items| - 1;
    var x := items[n];
    var id := locations.rows[(org, x.key)].id;
    forall i | 0 <= i < n ensures items[..n][i] == items[i] {}
    forall key, i | (org, key) in locations.rows && LastHours(items, key, i)
      ensures HoursPlaced(r, locations.rows[(org, key)].id, items[i].officeHours.value)
    {
      if i < n {
        assert LastHours(items[..n], key, i);
        assert key == x.key ==> x.officeHours.None?;
        if x.officeHours.Some? {
          assert (org, key) != (org, x.key);
          PlacedStays(before, r, id, locations.rows[(org, key)].id, items[i].officeHours.value);
        }
      }
    }
    forall key | (org, key) in locations.rows && NoHours(items, key)
      ensures SameAt(h, r, locations.rows[(org, key)].id)
    {
      assert NoHours(items[..n], key);
      assert key == x.key ==> x.officeHours.None?;
      assert key != x.key ==> (org, key) != (org, x.key);
    }
    forall other: nat | (forall key | (org, key) in locations.rows :: locations.rows[(org, key)].id != other)
      ensures SameAt(h, r, other)
    {
      assert other != id && SameAt(h, before, other);
    }
  }

  lemma {:induction false} HoursOfAllFollow(h: HourTable, locations: Table<Scoped, LocationCols>, org: nat,
                                            items: seq<LocationItem>)
    requires UniqueIds(locations) && forall x | x in items :: (org, x.key) in locations.rows
    ensures var r := HoursOfAll(h, locations, org, items);
            && (r.Some? <==> forall i | 0 <= i < |items| :: items[i].officeHours.Some? ==>
                               DistinctHours(items[i].officeHours.value))
            && (r.Some? ==> HoursFollow(h, r.value, locations, org, items))
  {
    hide ReplaceHours, DistinctHours, HoursFollow;
    if items == [] {
      NoHoursFollow(h, locations, org, items);
    } else {
      var n := |items| - 1;
      var x := items[n];
      assert x in items;
      HoursOfAllFollow(h, locations, org, items[..n]);
      forall i | 0 <= i < n ensures items[..n][i] == items[i] {}
      var before := HoursOfAll(h, locations, org, items[..n]);
      if before.Some? {
        if x.officeHours.Some? {
          var id := locations.rows[(org, x.key)].id;
          ReplaceHoursExactly(before.value, id, x.officeHours.value);
          if DistinctHours(x.officeHours.value) { ReplaceHoursPlaces(before.value, id, x.officeHours.value); }
        }
        var r := HoursOfAll(h, locations, org, items);
        if r.Some? { HoursStep(h, before.value, r.value, locations, org, items); }
      }
    }
  }

  lemma NoHoursFollow(h: HourTable, locations: Table<Scoped, LocationCols>, org: nat, items: seq<LocationItem>)
    requires items == []
    ensures HoursFollow(h, h, locations, org, items)
  {
  }

  // ── Membership ─────────────────────────────────────────────────────────────

  lemma {:induction false} InsertMembersExactly(m: MemberTable, group: nat, ids: seq<nat>)
    requires forall k | k in m :: k.0 != group
    ensures InsertMembers(m, group, ids).Some? <==> Distinct(ids)
  {
    hide Placed, SameElsewhere;
    if ids != [] {
      var n := |ids| - 1;
      InsertMembersExactly(m, group, ids[..n]);
      forall i | 0 <= i < n ensures ids[..n][i] == ids[i] {}
      if Distinct(ids[..n]) {
        InsertMembersPlaces(m, group, ids[..n]);
        RepeatedMember(InsertMembers(m, group, ids[..n]).value, group, ids);
      }
    }
  }

  lemma RepeatedMember(before: MemberTable, group: nat, ids: seq<nat>)
    requires ids != [] && Distinct(ids[..|ids| - 1]) && Placed(before, group, ids[..|ids| - 1])
    ensures (group, ids[|ids| - 1]) !in before <==> Distinct(ids)
  {
    var n := |ids| - 1;
    forall i | 0 <= i < n ensures ids[..n][i] == ids[i] && ids[i] in ids[..n] {}
    if (group, ids[n]) in before {
      var i :| 0 <= i < n && ids[..n][i] == ids[n];
      assert ids[i] == ids[n];
    }
  }

  /** A membership list that can be stored: every provider known, none twice. */
  ghost predicate Storable(providers: Table<Scoped, ProviderCols>, org: nat, keys: seq<string>) {
    && (forall i | 0 <= i < |keys| :: (org, keys[i]) in providers.rows)
    && forall i, j | 0 <= i < j < |keys| :: keys[i] != keys[j]
  }

  ghost predicate Unknown(providers: Table<Scoped, ProviderCols>, org: nat, keys: seq<string>) {
    exists i :: 0 <= i < |keys| && (org, keys[i]) !in providers.rows
  }

  lemma {:induction false} ResolvedExactly(providers: Table<Scoped, ProviderCols>, org: nat, keys: seq<string>)
    ensures ResolveProviders(providers, org, keys).None? <==> Unknown(providers, org, keys)
  {
    if keys != [] {
      var n := |keys| - 1;
      ResolvedExactly(providers, org, keys[..n]);
      forall i | 0 <= i < n ensures keys[..n][i] == keys[i] {}
    }
  }

  lemma StorableExactly(m: MemberTable, group: nat, providers: Table<Scoped, ProviderCols>, org: nat, keys: seq<string>)
    requires UniqueIds(providers)
    ensures var ids := ResolveProviders(providers, org, keys);
            && (ids.None? <==> Unknown(providers, org, keys))
            && (ids.Some? ==> (ReplaceMembers(m, group, ids.value).Some? <==> Storable(providers, org, keys)))
  {
    ResolvedExactly(providers, org, keys);
    var ids := ResolveProviders(providers, org, keys);
    if ids.Some? {
      ResolveAll(providers, org, keys);
      InsertMembersExactly(ClearMembers(m, group), group, ids.value);
      forall i, j | 0 <= i < j < |keys| ensures ids.value[i] != ids.value[j] <==> keys[i] != keys[j] {
        assert ids.value[i] == providers.rows[(org, keys[i])].id && ids.value[j] == providers.rows[(org, keys[j])].id;
        assert keys[i] != keys[j] ==> (org, keys[i]) != (org, keys[j]);
      }
    }
  }

  ghost predicate GroupStorable(providers: Table<Scoped, ProviderCols>, org: nat, x: GroupItem) {
    x.providers.Some? ==> Storable(providers, org, x.providers.value)
  }

  /** The first group that cannot be stored. */
  ghost predicate FirstUnstorable(providers: Table<Scoped, ProviderCols>, org: nat, items: seq<GroupItem>, i: int) {
    && 0 <= i < |items| && !GroupStorable(providers, org, items[i])
    && forall j | 0 <= j < i :: GroupStorable(providers, org, items[j])
  }

  /** Every list can be stored, or the first that cannot decides: an unknown provider, or else a repeated one. */
  lemma {:induction false} MembersOfAllExactly(m: MemberTable, groups: Table<Scoped, GroupCols>,
                                               providers: Table<Scoped, ProviderCols>, org: nat, items: seq<GroupItem>)
    requires UniqueIds(providers) && forall x | x in items :: (org, x.key) in groups.rows
    ensures var r := MembersOfAll(m, groups, providers, org, items);
            && (r.Done? <==> forall i | 0 <= i < |items| :: GroupStorable(providers, org, items[i]))
            && (forall i | FirstUnstorable(providers, org, items, i) ::
                  r == Failed(if Unknown(providers, org, items[i].providers.value) then UnknownEntity("provider")
                              else UniqueViolation))
  {
    hide Storable, Unknown, ReplaceMembers;
    if items != [] {
      var n := |items| - 1;
      var x := items[n];
      assert x in items;
      MembersOfAllExactly(m, groups, providers, org, items[..n]);
      forall i | 0 <= i < n ensures items[..n][i] == items[i] {}
      var before := MembersOfAll(m, groups, providers, org, items[..n]);
      forall i | FirstUnstorable(providers, org, items, i) && i < n
        ensures FirstUnstorable(providers, org, items[..n], i)
      {
      }
      if before.Done? && x.providers.Some? {
        StorableExactly(before.value, groups.rows[(org, x.key)].id, providers, org, x.providers.value);
        UnknownIsUnstorable(providers, org, x.providers.value);
      }
    }
  }

  lemma UnknownIsUnstorable(providers: Table<Scoped, ProviderCols>, org: nat, keys: seq<string>)
    ensures Unknown(providers, org, keys) ==> !Storable(providers, org, keys)
  {
  }

  ghost predicate LastProviders(items: seq<GroupItem>, key: string, i: int) {
    && 0 <= i < |items| && items[i].key == key && items[i].providers.Some?
    && forall j | i < j < |items| && items[j].key == key :: items[j].providers.None?
  }

  ghost predicate NoProviders(items: seq<GroupItem>, key: string) {
    forall i | 0 <= i < |items| && items[i].key == key :: items[i].providers.None?
  }

  /** A group's members are exactly the named providers, in the order named. */
  ghost predicate MembersAre(r: MemberTable, group: nat, providers: Table<Scoped, ProviderCols>, org: nat,
                             keys: seq<string>) {
    && (forall i | 0 <= i < |keys| ::
          && (org, keys[i]) in providers.rows
          && (group, providers.rows[(org, keys[i])].id) in r && r[(group, providers.rows[(org, keys[i])].id)] == i)
    && (forall k | k in r && k.0 == group ::
          exists i :: 0 <= i < |keys| && (org, keys[i]) in providers.rows && providers.rows[(org, keys[i])].id == k.1)
  }

  ghost predicate SameMembers(m: MemberTable, r: MemberTable, group: nat) {
    forall k: (nat, nat) | k.0 == group :: (k in r <==> k in m) && (k in m ==> r[k] == m[k])
  }

  ghost predicate MembersFollow(m: MemberTable, r: MemberTable, groups: Table<Scoped, GroupCols>,
                                providers: Table<Scoped, ProviderCols>, org: nat, items: seq<GroupItem>) {
    && (forall key, i | (org, key) in groups.rows && LastProviders(items, key, i) ::
          MembersAre(r, groups.rows[(org, key)].id, providers, org, items[i].providers.value))
    && (forall key | (org, key) in groups.rows && NoProviders(items, key) ::
          SameMembers(m, r, groups.rows[(org, key)].id))
    && (forall id: nat | (forall key | (org, key) in groups.rows :: groups.rows[(org, key)].id != id) ::
          SameMembers(m, r, id))
  }

  lemma ReplacedMembersAre(m: MemberTable, group: nat, providers: Table<Scoped, ProviderCols>, org: nat,
                           keys: seq<string>)
    requires UniqueIds(providers) && Storable(providers, org, keys)
    ensures var ids := ResolveProviders(providers, org, keys);
            && ids.Some? && ReplaceMembers(m, group, ids.value).Some?
            && var r := ReplaceMembers(m, group, ids.value).value;
               MembersAre(r, group, providers, org, keys) && SameElsewhere(m, r, group)
  {
    hide ReplaceMembers;
    ResolveAll(providers, org, keys);
    ResolvedAreDistinct(providers, org, keys);
    var ids := ResolveProviders(providers, org, keys).value;
    ReplaceMembersPlaces(m, group, ids);
    var r := ReplaceMembers(m, group, ids).value;
    forall i | 0 <= i < |keys|
      ensures (group, providers.rows[(org, keys[i])].id) in r && r[(group, providers.rows[(org, keys[i])].id)] == i
    {
      assert ids[i] in ids;
    }
    forall k | k in r && k.0 == group
      ensures exists i ::
                0 <= i < |keys| && (org, keys[i]) in providers.rows && providers.rows[(org, keys[i])].id == k.1
    {
      assert (group, k.1) in r;
      var i :| 0 <= i < |ids| && ids[i] == k.1;
      assert providers.rows[(org, keys[i])].id == k.1;
    }
  }

  lemma MembersAreStill(m: MemberTable, r: MemberTable, replaced: nat, group: nat,
                        providers: Table<Scoped, ProviderCols>, org: nat, keys: seq<string>)
    requires SameElsewhere(m, r, replaced) && group != replaced && MembersAre(m, group, providers, org, keys)
    ensures MembersAre(r, group, providers, org, keys)
  {
  }

  lemma MembersStep(m: MemberTable, before: MemberTable, r: MemberTable, groups: Table<Scoped, GroupCols>,
                    providers: Table<Scoped, ProviderCols>, org: nat, items: seq<GroupItem>)
    requires UniqueIds(groups) && items != [] && (org, items[|items| - 1].key) in groups.rows
    requires MembersFollow(m, before, groups, providers, org, items[..|items| - 1])
    requires var x := items[|items| - 1]; var id := groups.rows[(org, x.key)].id;
             if x.providers.None? then r == before
             else MembersAre(r, id, providers, org, x.providers.value) && SameElsewhere(before, r, id)
    ensures MembersFollow(m, r, groups, providers, org, items)
  {
    hide MembersAre;
    var n := |items| - 1;
    var x := items[n];
    var id := groups.rows[(org, x.key)].id;
    forall i | 0 <= i < n ensures items[..n][i] == items[i] {}
    forall key, i | (org, key) in groups.rows && LastProviders(items, key, i)
      ensures MembersAre(r, groups.rows[(org, key)].id, providers, org, items[i].providers.value)
    {
      if i < n {
        assert LastProviders(items[..n], key, i);
        assert key == x.key ==> x.providers.None?;
        if x.providers.Some? {
          assert (org, key) != (org, x.key);
          MembersAreStill(before, r, id, groups.rows[(org, key)].id, providers, org, items[i].providers.value);
        }
      }
    }
    forall key | (org, key) in groups.rows && NoProviders(items, key)
      ensures SameMembers(m, r, groups.rows[(org, key)].id)
    {
      assert NoProviders(items[..n], key);
      assert key == x.key ==> x.providers.None?;
      assert key != x.key ==> (org, key) != (org, x.key);
    }
    forall other: nat | (forall key | (org, key) in groups.rows :: groups.rows[(org, key)].id != other)
      ensures SameMembers(m, r, other)
    {
      assert other != id && SameMembers(m, before, other);
    }
  }

  lemma {:induction false} MembersOfAllFollow(m: MemberTable, groups: Table<Scoped, GroupCols>,
                                              providers: Table<Scoped, ProviderCols>, org: nat, items: seq<GroupItem>)
    requires UniqueIds(groups) && UniqueIds(providers) && forall x | x in items :: (org, x.key) in groups.rows
    ensures var r := MembersOfAll(m, groups, providers, org, items);
            r.Done? ==> MembersFollow(m, r.value, groups, providers, org, items)
  {
    hide ReplaceMembers, Storable, Unknown, MembersFollow;
    if items == [] {
      NoMembersFollow(m, groups, providers, org, items);
    } else {
      var n := |items| - 1;
      var x := items[n];
      assert x in items;
      MembersOfAllFollow(m, groups, providers, org, items[..n]);
      var before := MembersOfAll(m, groups, providers, org, items[..n]);
      var r := MembersOfAll(m, groups, providers, org, items);
      if r.Done? {
        if x.providers.Some? {
          var id := groups.rows[(org, x.key)].id;
          StorableExactly(before.value, id, providers, org, x.providers.value);
          ReplacedMembersAre(before.value, id, providers, org, x.providers.value);
        }
        MembersStep(m, before.value, r.value, groups, providers, org, items);
      }
    }
  }

  lemma NoMembersFollow(m: MemberTable, groups: Table<Scoped, GroupCols>, providers: Table<Scoped, ProviderCols>,
                        org: nat, items: seq<GroupItem>)
    requires items == []
    ensures MembersFollow(m, m, groups, providers, org, items)
  {
  }

  // ── Settings ───────────────────────────────────────────────────────────────

  ghost predicate LastSetting(items: seq<SettingItem>, namespace: string, key: string, i: int) {
    && 0 <= i < |items| && items[i].namespace == namespace && items[i].key == key
    && forall j | i < j < |items| :: items[j].namespace != namespace || items[j].key != key
  }

  /** A named setting has its last value, written now; the rest are as they were. */
  ghost predicate SettingsFollow(s: SettingTable, r: SettingTable, org: nat, items: seq<SettingItem>, now: int) {
    && (forall k :: k in r <==> k in s || (k.0 == org && SettingNamed(items, k.1, k.2)))
    && (forall namespace, key, i | LastSetting(items, namespace, key, i) ::
          (org, namespace, key) in r && r[(org, namespace, key)] == Stored(items[i].value, now))
    && (forall k | k in s && !(k.0 == org && SettingNamed(items, k.1, k.2)) :: r[k] == s[k])
  }

  lemma {:induction false} SettingsOfAllFollow(s: SettingTable, org: nat, items: seq<SettingItem>, now: int)
    ensures SettingsFollow(s, SettingsOfAll(s, org, items, now), org, items, now)
  {
    if items != [] {
      var n := |items| - 1;
      var x := items[n];
      SettingsOfAllFollow(s, org, items[..n], now);
      assert items == items[..n] + [x];
      forall namespace, key
        ensures SettingNamed(items, namespace, key)
                <==> SettingNamed(items[..n], namespace, key) || (x.namespace == namespace && x.key == key)
      {
        SettingNamedLonger(items[..n], x, namespace, key);
      }
      var r := SettingsOfAll(s, org, items, now);
      forall namespace, key, i | LastSetting(items, namespace, key, i)
        ensures (org, namespace, key) in r && r[(org, namespace, key)] == Stored(items[i].value, now)
      {
        if i < n { assert LastSetting(items[..n], namespace, key, i); }
      }
    }
  }

  // ── The whole import ───────────────────────────────────────────────────────

  /** The organization's row, found or new. */
  ghost predicate OrganizationPlaced(t: Table<string, OrganizationCols>, r: Table<string, OrganizationCols>,
                                     x: OrganizationItem, now: int) {
    && x.key in r.rows && r.rows == t.rows[x.key := r.rows[x.key]]
    && var row := r.rows[x.key];
       && row.cols.name == x.cols.name && row.cols.timezone == x.cols.timezone && row.cols.active == x.cols.active
       && row.updatedAt == now
       && (if x.key in t.rows then
             && row.id == t.rows[x.key].id && row.createdAt == t.rows[x.key].createdAt
             && row.cols.displayName == if x.cols.displayName.Some? then x.cols.displayName
                                        else t.rows[x.key].cols.displayName
           else row.id == t.lastId + 1 && row.createdAt == now && row.cols.displayName == x.cols.displayName)
  }

  ghost predicate LocationsPlaced(t: Table<Scoped, LocationCols>, r: Table<Scoped, LocationCols>, org: nat,
                                  items: seq<LocationItem>, now: int) {
    forall rows | |rows| == |items| && forall i | 0 <= i < |items| :: rows[i] == (items[i].key, items[i].cols) ::
      && Rest(t, r, org, rows, now)
      && forall key, q: nat | q < 8 :: Merged(t, r, org, rows, key, LocationColumns, q)
  }

  ghost predicate ProvidersPlaced(t: Table<Scoped, ProviderCols>, r: Table<Scoped, ProviderCols>, org: nat,
                                  items: seq<ProviderItem>, now: int) {
    forall rows | |rows| == |items| && forall i | 0 <= i < |items| :: rows[i] == (items[i].key, items[i].cols) ::
      && Rest(t, r, org, rows, now)
      && forall key, q: nat | q < 5 :: Merged(t, r, org, rows, key, ProviderColumns, q)
  }

  ghost predicate CatalogPlaced(t: Table<Scoped, CatalogCols>, r: Table<Scoped, CatalogCols>, org: nat,
                                items: seq<CatalogItem>, now: int) {
    forall rows | |rows| == |items| && forall i | 0 <= i < |items| :: rows[i] == (items[i].key, items[i].cols) ::
      && Rest(t, r, org, rows, now)
      && forall key, q: nat | q < 3 :: Merged(t, r, org, rows, key, CatalogColumns, q)
  }

  /** A group's row names its service area's id after the import. */
  ghost predicate GroupsPlaced(t: Table<Scoped, GroupCols>, r: Table<Scoped, GroupCols>,
                               areas: Table<Scoped, CatalogCols>, org: nat, items: seq<GroupItem>, now: int) {
    && (forall i | 0 <= i < |items| :: (org, items[i].serviceArea) in areas.rows)
    && forall rows |
         |rows| == |items| && forall i | 0 <= i < |items| ::
           rows[i] == (items[i].key,
                       GroupCols(items[i].name, areas.rows[(org, items[i].serviceArea)].id, items[i].active)) ::
         && Rest(t, r, org, rows, now)
         && forall key, q: nat | q < 3 :: Merged(t, r, org, rows, key, GroupColumns, q)
  }

  lemma LocationsLaw(t: Table<Scoped, LocationCols>, org: nat, items: seq<LocationItem>, now: int)
    ensures LocationsPlaced(t, UpsertAll(t, org, LocationRows(items), PatchLocation, now), org, items, now)
  {
    hide Rest, Merged, UpsertAll;
    var given := LocationRows(items);
    UpsertRest(t, org, given, PatchLocation, now);
    forall key, q: nat | q < 8
      ensures Merged(t, UpsertAll(t, org, given, PatchLocation, now), org, given, key, LocationColumns, q)
    {
      UpsertMerges(t, org, given, PatchLocation, now, key, LocationColumns, q);
    }
    forall rows | |rows| == |items| && forall i | 0 <= i < |items| :: rows[i] == (items[i].key, items[i].cols)
      ensures rows == given
    {
    }
  }

  lemma ProvidersLaw(t: Table<Scoped, ProviderCols>, org: nat, items: seq<ProviderItem>, now: int)
    ensures ProvidersPlaced(t, UpsertAll(t, org, ProviderRows(items), PatchProvider, now), org, items, now)
  {
    hide Rest, Merged, UpsertAll;
    var given := ProviderRows(items);
    UpsertRest(t, org, given, PatchProvider, now);
    forall key, q: nat | q < 5
      ensures Merged(t, UpsertAll(t, org, given, PatchProvider, now), org, given, key, ProviderColumns, q)
    {
      UpsertMerges(t, org, given, PatchProvider, now, key, ProviderColumns, q);
    }
    forall rows | |rows| == |items| && forall i | 0 <= i < |items| :: rows[i] == (items[i].key, items[i].cols)
      ensures rows == given
    {
    }
  }

  lemma CatalogLaw(t: Table<Scoped, CatalogCols>, org: nat, items: seq<CatalogItem>, now: int)
    ensures CatalogPlaced(t, UpsertAll(t, org, CatalogRows(items), PatchCatalog, now), org, items, now)
  {
    hide Rest, Merged, UpsertAll;
    var given := CatalogRows(items);
    UpsertRest(t, org, given, PatchCatalog, now);
    forall key, q: nat | q < 3
      ensures Merged(t, UpsertAll(t, org, given, PatchCatalog, now), org, given, key, CatalogColumns, q)
    {
      UpsertMerges(t, org, given, PatchCatalog, now, key, CatalogColumns, q);
    }
    forall rows | |rows| == |items| && forall i | 0 <= i < |items| :: rows[i] == (items[i].key, items[i].cols)
      ensures rows == given
    {
    }
  }

  lemma GroupsLaw(t: Table<Scoped, GroupCols>, areas: Table<Scoped, CatalogCols>, org: nat, items: seq<GroupItem>,
                  now: int)
    requires GroupRows(items, areas, org).Some?
    ensures GroupsPlaced(t, UpsertAll(t, org, GroupRows(items, areas, org).value, PatchGroup, now), areas, org, items,
                         now)
  {
    hide Rest, Merged, UpsertAll, GroupRows;
    var given := GroupRows(items, areas, org).value;
    GroupRowsKeys(items, areas, org);
    UpsertRest(t, org, given, PatchGroup, now);
    forall key, q: nat | q < 3
      ensures Merged(t, UpsertAll(t, org, given, PatchGroup, now), org, given, key, GroupColumns, q)
    {
      UpsertMerges(t, org, given, PatchGroup, now, key, GroupColumns, q);
    }
    forall rows |
      |rows| == |items| && forall i | 0 <= i < |items| ::
        rows[i] == (items[i].key,
                    GroupCols(items[i].name, areas.rows[(org, items[i].serviceArea)].id, items[i].active))
      ensures rows == given
    {
      forall i | 0 <= i < |items| ensures rows[i] == given[i] { assert given[i] == (given[i].0, given[i].1); }
    }
  }

  /**
   * What a successful import leaves, table by table: every column, office hour, membership and setting the document
   * gives is stored, and whatever it leaves out is as it was.
   */
  lemma ImportPlacesTheDocument(s: Tables, d: Document, now: int)
    requires Ids(s) && Apply(s, d, now).Done?
    ensures var t := Apply(s, d, now).value;
            && OrganizationPlaced(s.organizations, t.organizations, d.organization, now)
            && var org := t.organizations.rows[d.organization.key].id;
               && LocationsPlaced(s.locations, t.locations, org, d.locations, now)
               && ProvidersPlaced(s.providers, t.providers, org, d.providers, now)
               && CatalogPlaced(s.serviceAreas, t.serviceAreas, org, d.serviceAreas, now)
               && CatalogPlaced(s.consultationTypes, t.consultationTypes, org, d.consultationTypes, now)
               && GroupsPlaced(s.routingGroups, t.routingGroups, t.serviceAreas, org, d.routingGroups, now)
               && HoursFollow(s.officeHours, t.officeHours, t.locations, org, d.locations)
               && MembersFollow(s.members, t.members, t.routingGroups, t.providers, org, d.routingGroups)
               && SettingsFollow(s.settings, t.settings, org, d.settings, now)
  {
    hide LocationsPlaced, ProvidersPlaced, CatalogPlaced, GroupsPlaced, HoursFollow, MembersFollow, SettingsFollow,
         UpsertAll, HoursOfAll, MembersOfAll, SettingsOfAll, GroupRows, LocationRows, ProviderRows, CatalogRows,
         UniqueIds;
    var organizations := Upsert(s.organizations, d.organization.key, d.organization.cols, PatchOrganization, now);
    var org := organizations.rows[d.organization.key].id;
    var providers := UpsertAll(s.providers, org, ProviderRows(d.providers), PatchProvider, now);
    var locations := UpsertAll(s.locations, org, LocationRows(d.locations), PatchLocation, now);
    var areas := UpsertAll(s.serviceAreas, org, CatalogRows(d.serviceAreas), PatchCatalog, now);
    var rows := GroupRows(d.routingGroups, areas, org).value;
    var groups := UpsertAll(s.routingGroups, org, rows, PatchGroup, now);
    LocationsUpserted(s.locations, org, d.locations, now);
    GroupsUpserted(s.routingGroups, areas, org, d.routingGroups, now);
    UpsertKeepsIdsUnique(s.locations, org, LocationRows(d.locations), PatchLocation, now);
    UpsertKeepsIdsUnique(s.providers, org, ProviderRows(d.providers), PatchProvider, now);
    UpsertKeepsIdsUnique(s.routingGroups, org, rows, PatchGroup, now);
    LocationsLaw(s.locations, org, d.locations, now);
    ProvidersLaw(s.providers, org, d.providers, now);
    CatalogLaw(s.serviceAreas, org, d.serviceAreas, now);
    CatalogLaw(s.consultationTypes, org, d.consultationTypes, now);
    GroupsLaw(s.routingGroups, areas, org, d.routingGroups, now);
    HoursOfAllFollow(s.officeHours, locations, org, d.locations);
    MembersOfAllFollow(s.members, groups, providers, org, d.routingGroups);
    SettingsOfAllFollow(s.settings, org, d.settings, now);
  }

  lemma {:induction false} AreasKnown(items: seq<GroupItem>, areas: Table<Scoped, CatalogCols>, org: nat)
    ensures GroupRows(items, areas, org).Some?
            <==> forall i | 0 <= i < |items| :: (org, items[i].serviceArea) in areas.rows
  {
    if items != [] {
      var n := |items| - 1;
      AreasKnown(items[..n], areas, org);
      forall i | 0 <= i < n ensures items[..n][i] == items[i] {}
    }
  }

  /** Listed by the document, or there before. */
  ghost predicate AreaKnown(s: Tables, d: Document, org: nat, key: string) {
    (org, key) in s.serviceAreas.rows || exists i :: 0 <= i < |d.serviceAreas| && d.serviceAreas[i].key == key
  }

  ghost predicate ProviderKnown(s: Tables, d: Document, org: nat, key: string) {
    (org, key) in s.providers.rows || exists i :: 0 <= i < |d.providers| && d.providers[i].key == key
  }

  lemma KnownAfter(s: Tables, d: Document, org: nat, now: int)
    ensures var areas := UpsertAll(s.serviceAreas, org, CatalogRows(d.serviceAreas), PatchCatalog, now);
            forall key :: (org, key) in areas.rows <==> AreaKnown(s, d, org, key)
    ensures var providers := UpsertAll(s.providers, org, ProviderRows(d.providers), PatchProvider, now);
            forall key :: (org, key) in providers.rows <==> ProviderKnown(s, d, org, key)
  {
    hide UpsertAll;
    UpsertedKeys(s.serviceAreas, org, CatalogRows(d.serviceAreas), PatchCatalog, now);
    UpsertedKeys(s.providers, org, ProviderRows(d.providers), PatchProvider, now);
    forall i | 0 <= i < |d.serviceAreas| ensures CatalogRows(d.serviceAreas)[i].0 == d.serviceAreas[i].key {}
    forall i | 0 <= i < |d.providers| ensures ProviderRows(d.providers)[i].0 == d.providers[i].key {}
  }

  ghost predicate HoursDistinct(d: Document) {
    forall i | 0 <= i < |d.locations| && d.locations[i].officeHours.Some? ::
      DistinctHours(d.locations[i].officeHours.value)
  }

  ghost predicate AreasAllKnown(s: Tables, d: Document, org: nat) {
    forall i | 0 <= i < |d.routingGroups| :: AreaKnown(s, d, org, d.routingGroups[i].serviceArea)
  }

  /** A group whose members can all be found, each once. */
  ghost predicate MembersSound(s: Tables, d: Document, org: nat, x: GroupItem) {
    x.providers.Some? ==>
      && (forall i | 0 <= i < |x.providers.value| :: ProviderKnown(s, d, org, x.providers.value[i]))
      && forall i, j | 0 <= i < j < |x.providers.value| :: x.providers.value[i] != x.providers.value[j]
  }

  /** The tables an import reads its references from, half way. */
  ghost function OrgId(s: Tables, d: Document): nat {
    if d.organization.key in s.organizations.rows then s.organizations.rows[d.organization.key].id
    else s.organizations.lastId + 1
  }

  ghost function AreasAfter(s: Tables, d: Document, now: int): Table<Scoped, CatalogCols> {
    UpsertAll(s.serviceAreas, OrgId(s, d), CatalogRows(d.serviceAreas), PatchCatalog, now)
  }

  ghost function ProvidersAfter(s: Tables, d: Document, now: int): Table<Scoped, ProviderCols> {
    UpsertAll(s.providers, OrgId(s, d), ProviderRows(d.providers), PatchProvider, now)
  }

  lemma SoundExactly(s: Tables, d: Document, now: int, x: GroupItem)
    ensures MembersSound(s, d, OrgId(s, d), x) <==> GroupStorable(ProvidersAfter(s, d, now), OrgId(s, d), x)
    ensures x.providers.Some? ==>
              (Unknown(ProvidersAfter(s, d, now), OrgId(s, d), x.providers.value)
               <==> exists p | p in x.providers.value :: !ProviderKnown(s, d, OrgId(s, d), p))
  {
    hide UpsertAll, ProviderKnown, AreaKnown;
    KnownAfter(s, d, OrgId(s, d), now);
  }

  /** The checks an import makes, in order. */
  lemma Stages(s: Tables, d: Document, now: int)
    requires Ids(s)
    ensures var r := Apply(s, d, now); var org := OrgId(s, d);
            && (!HoursDistinct(d) ==> r == Failed(UniqueViolation))
            && (HoursDistinct(d) && !AreasAllKnown(s, d, org) ==> r == Failed(UnknownEntity("service_area")))
            && (HoursDistinct(d) && AreasAllKnown(s, d, org) ==>
                  && (r.Done? <==> forall i | 0 <= i < |d.routingGroups| ::
                        GroupStorable(ProvidersAfter(s, d, now), org, d.routingGroups[i]))
                  && forall i | FirstUnstorable(ProvidersAfter(s, d, now), org, d.routingGroups, i) ::
                       r == Failed(if Unknown(ProvidersAfter(s, d, now), org, d.routingGroups[i].providers.value)
                                   then UnknownEntity("provider") else UniqueViolation))
  {
    hide UpsertAll, HoursOfAll, MembersOfAll, SettingsOfAll, GroupRows, LocationRows, ProviderRows, CatalogRows,
         UniqueIds, HoursFollow, DistinctHours, AreaKnown, Storable, Unknown, FirstUnstorable;
    var org := OrgId(s, d);
    var locations := UpsertAll(s.locations, org, LocationRows(d.locations), PatchLocation, now);
    var areas := AreasAfter(s, d, now);
    LocationsUpserted(s.locations, org, d.locations, now);
    UpsertKeepsIdsUnique(s.locations, org, LocationRows(d.locations), PatchLocation, now);
    UpsertKeepsIdsUnique(s.providers, org, ProviderRows(d.providers), PatchProvider, now);
    HoursOfAllFollow(s.officeHours, locations, org, d.locations);
    KnownAfter(s, d, org, now);
    AreasKnown(d.routingGroups, areas, org);
    var rows := GroupRows(d.routingGroups, areas, org);
    if HoursDistinct(d) && rows.Some? {
      GroupsUpserted(s.routingGroups, areas, org, d.routingGroups, now);
      MembersOfAllExactly(s.members, UpsertAll(s.routingGroups, org, rows.value, PatchGroup, now),
                          ProvidersAfter(s, d, now), org, d.routingGroups);
    }
  }

  /**
   * Exactly when an import succeeds, and which error it ends with: a repeated office hour first, then a group's unknown
   * service area, then the first group with an unknown provider or a repeated one.
   */
  lemma ImportSucceedsExactlyWhen(s: Tables, d: Document, now: int)
    requires Ids(s)
    ensures var org := if d.organization.key in s.organizations.rows then s.organizations.rows[d.organization.key].id
                       else s.organizations.lastId + 1;
            var r := Apply(s, d, now);
            && (r.Done? <==> HoursDistinct(d) && AreasAllKnown(s, d, org)
                             && forall i | 0 <= i < |d.routingGroups| :: MembersSound(s, d, org, d.routingGroups[i]))
            && (!HoursDistinct(d) ==> r == Failed(UniqueViolation))
            && (HoursDistinct(d) && !AreasAllKnown(s, d, org) ==> r == Failed(UnknownEntity("service_area")))
            && (HoursDistinct(d) && AreasAllKnown(s, d, org) ==>
                  forall i | 0 <= i < |d.routingGroups| && !MembersSound(s, d, org, d.routingGroups[i])
                             && forall j | 0 <= j < i :: MembersSound(s, d, org, d.routingGroups[j]) ::
                    r == Failed(if exists p | p in d.routingGroups[i].providers.value :: !ProviderKnown(s, d, org, p)
                                then UnknownEntity("provider") else UniqueViolation))
  {
    hide Apply, Ids, HoursDistinct, AreasAllKnown, MembersSound, ProviderKnown, Unknown, Storable, ProvidersAfter;
    Stages(s, d, now);
    forall i | 0 <= i < |d.routingGroups|
      ensures MembersSound(s, d, OrgId(s, d), d.routingGroups[i])
              <==> GroupStorable(ProvidersAfter(s, d, now), OrgId(s, d), d.routingGroups[i])
      ensures d.routingGroups[i].providers.Some? ==>
                (Unknown(ProvidersAfter(s, d, now), OrgId(s, d), d.routingGroups[i].providers.value)
                 <==> exists p | p in d.routingGroups[i].providers.value :: !ProviderKnown(s, d, OrgId(s, d), p))
    {
      SoundExactly(s, d, now, d.routingGroups[i]);
    }
  }
}
