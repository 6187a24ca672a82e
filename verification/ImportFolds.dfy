/** What each fold of an import leaves in its table: upserts, office hours, membership, settings. */
module ImportFolds {
  import opened Options
  import opened ConfigValidation
  import opened OrganizationImport
  import opened Listings
  import opened Sequences
  import opened OrganizationExport

  // ── Upserting a collection ─────────────────────────────────────────────────

  ghost predicate Named<C>(items: seq<(string, C)>, key: string) {
    exists i :: 0 <= i < |items| && items[i].0 == key
  }

  ghost predicate DistinctKeys<C>(items: seq<(string, C)>) {
    forall i, j | 0 <= i < j < |items| :: items[i].0 != items[j].0
  }

  lemma NamedLonger<C>(items: seq<(string, C)>, key: string)
    requires items != []
    ensures Named(items, key) <==> Named(items[..|items| - 1], key) || key == items[|items| - 1].0
  {
    var n := |items| - 1;
    if Named(items[..n], key) {
      var i :| 0 <= i < n && items[..n][i].0 == key;
      assert items[i].0 == key;
    }
    if Named(items, key) && key != items[n].0 {
      var i :| 0 <= i < |items| && items[i].0 == key;
      assert items[..n][i].0 == key;
    }
  }

  /** One organization's rows, updated now and otherwise as they were. */
  function Touch<C>(t: Table<Scoped, C>, org: nat, now: int): Table<Scoped, C> {
    Table(map k | k in t.rows :: if k.0 == org then t.rows[k].(updatedAt := now) else t.rows[k], t.lastId)
  }

  ghost predicate OwnItems<C>(t: Table<Scoped, C>, org: nat, items: seq<(string, C)>, patch: (C, C) -> C) {
    forall i | 0 <= i < |items| ::
      && (org, items[i].0) in t.rows
      && t.rows[(org, items[i].0)].cols == items[i].1
      && patch(items[i].1, items[i].1) == items[i].1
  }

  lemma {:induction false} UpsertOwnPrefix<C>(t: Table<Scoped, C>, org: nat, items: seq<(string, C)>,
                                              patch: (C, C) -> C, now: int)
    requires OwnItems(t, org, items, patch)
    ensures var r := UpsertAll(t, org, items, patch, now);
            && r.lastId == t.lastId && r.rows.Keys == t.rows.Keys
            && forall k | k in t.rows ::
                 r.rows[k] == if k.0 == org && Named(items, k.1) then t.rows[k].(updatedAt := now) else t.rows[k]
  {
    hide Named;
    if items != [] {
      var n := |items| - 1;
      UpsertOwnPrefix(t, org, items[..n], patch, now);
      forall key ensures Named(items, key) <==> Named(items[..n], key) || key == items[n].0 { NamedLonger(items, key); }
      var before := UpsertAll(t, org, items[..n], patch, now);
      assert (org, items[n].0) in before.rows;
    } else {
      NothingNamed(items);
    }
  }

  lemma NothingNamed<C>(items: seq<(string, C)>)
    requires items == []
    ensures forall key :: !Named(items, key)
  {
  }

  /** Upserting what a table already holds for an organization only touches it. */
  lemma UpsertOwn<C>(t: Table<Scoped, C>, org: nat, items: seq<(string, C)>, patch: (C, C) -> C, now: int)
    requires OwnItems(t, org, items, patch)
    requires forall k | k in t.rows && k.0 == org :: Named(items, k.1)
    ensures UpsertAll(t, org, items, patch, now) == Touch(t, org, now)
  {
    hide Named, OwnItems;
    UpsertOwnPrefix(t, org, items, patch, now);
    assert UpsertAll(t, org, items, patch, now).rows == Touch(t, org, now).rows;
  }

  lemma {:induction false} UpsertKeepsIdsUnique<C>(t: Table<Scoped, C>, org: nat, items: seq<(string, C)>,
                                                   patch: (C, C) -> C, now: int)
    requires UniqueIds(t)
    ensures UniqueIds(UpsertAll(t, org, items, patch, now))
  {
    if items != [] { UpsertKeepsIdsUnique(t, org, items[..|items| - 1], patch, now); }
  }

  /** What a collection of new rows leaves in a table: the given columns under fresh ids, the rest as it was. */
  ghost predicate Added<C>(t: Table<Scoped, C>, r: Table<Scoped, C>, org: nat, items: seq<(string, C)>) {
    && t.lastId <= r.lastId
    && (forall k :: k in r.rows <==> k in t.rows || (k.0 == org && Named(items, k.1)))
    && (forall k | k in t.rows :: r.rows[k] == t.rows[k])
    && (forall k | k in r.rows && k !in t.rows :: t.lastId < r.rows[k].id)
    && (forall i | 0 <= i < |items| :: (org, items[i].0) in r.rows && r.rows[(org, items[i].0)].cols == items[i].1)
  }

  lemma {:induction false} UpsertNew<C>(t: Table<Scoped, C>, org: nat, items: seq<(string, C)>, patch: (C, C) -> C,
                                        now: int)
    requires DistinctKeys(items)
    requires forall k | k in t.rows :: k.0 != org
    ensures Added(t, UpsertAll(t, org, items, patch, now), org, items)
  {
    hide Named;
    if items != [] {
      var n := |items| - 1;
      UpsertNew(t, org, items[..n], patch, now);
      var before := UpsertAll(t, org, items[..n], patch, now);
      forall key ensures Named(items, key) <==> Named(items[..n], key) || key == items[n].0 { NamedLonger(items, key); }
      NotNamedBefore(items);
      assert (org, items[n].0) !in before.rows;
      forall i | 0 <= i < n ensures items[..n][i] == items[i] {}
    } else {
      NothingNamed(items);
    }
  }

  lemma NotNamedBefore<C>(items: seq<(string, C)>)
    requires DistinctKeys(items) && items != []
    ensures !Named(items[..|items| - 1], items[|items| - 1].0)
  {
  }

  // ── Replacing office hours ─────────────────────────────────────────────────

  ghost predicate DistinctHours(hours: seq<Hour>) {
    forall i, j | 0 <= i < j < |hours| :: (hours[i].dayOfWeek, hours[i].opens) != (hours[j].dayOfWeek, hours[j].opens)
  }

  ghost predicate SameAway(h: HourTable, r: HourTable, location: nat) {
    forall k: (nat, int, string) | k.0 != location :: (k in r <==> k in h) && (k in h ==> r[k] == h[k])
  }

  ghost predicate HoursPlaced(r: HourTable, location: nat, hours: seq<Hour>) {
    && (forall k | k in r && k.0 == location :: Hour(k.1, k.2, r[k]) in hours)
    && (forall x | x in hours ::
          (location, x.dayOfWeek, x.opens) in r && r[(location, x.dayOfWeek, x.opens)] == x.closes)
  }

  lemma FreshHour(h: HourTable, location: nat, hours: seq<Hour>, x: Hour)
    requires HoursPlaced(h, location, hours)
    requires forall y | y in hours :: (y.dayOfWeek, y.opens) != (x.dayOfWeek, x.opens)
    ensures (location, x.dayOfWeek, x.opens) !in h
  {
  }

  lemma HourAdded(was: HourTable, h: HourTable, location: nat, hours: seq<Hour>, x: Hour)
    requires HoursPlaced(h, location, hours) && (location, x.dayOfWeek, x.opens) !in h && SameAway(was, h, location)
    ensures var r := h[(location, x.dayOfWeek, x.opens) := x.closes];
            HoursPlaced(r, location, hours + [x]) && SameAway(was, r, location)
  {
  }

  lemma DistinctPrefix(hours: seq<Hour>)
    requires DistinctHours(hours) && hours != []
    ensures var n := |hours| - 1;
            && DistinctHours(hours[..n]) && hours == hours[..n] + [hours[n]]
            && forall x | x in hours[..n] :: (x.dayOfWeek, x.opens) != (hours[n].dayOfWeek, hours[n].opens)
  {
    var n := |hours| - 1;
    forall x | x in hours[..n] ensures (x.dayOfWeek, x.opens) != (hours[n].dayOfWeek, hours[n].opens) {
      var i :| 0 <= i < n && hours[i] == x;
    }
  }

  lemma {:induction false} InsertHoursPlaces(h: HourTable, location: nat, hours: seq<Hour>)
    requires DistinctHours(hours) && forall k | k in h :: k.0 != location
    ensures var r := InsertHours(h, location, hours);
            r.Some? && HoursPlaced(r.value, location, hours) && SameAway(h, r.value, location)
  {
    hide HoursPlaced, DistinctHours, SameAway;
    if hours == [] {
      NoHoursPlaced(h, location);
    } else {
      var n := |hours| - 1;
      DistinctPrefix(hours);
      InsertHoursPlaces(h, location, hours[..n]);
      var before := InsertHours(h, location, hours[..n]).value;
      FreshHour(before, location, hours[..n], hours[n]);
      HourAdded(h, before, location, hours[..n], hours[n]);
    }
  }

  lemma NoHoursPlaced(h: HourTable, location: nat)
    requires forall k | k in h :: k.0 != location
    ensures HoursPlaced(h, location, []) && SameAway(h, h, location)
  {
  }

  lemma ReplaceHoursPlaces(h: HourTable, location: nat, hours: seq<Hour>)
    requires DistinctHours(hours)
    ensures var r := ReplaceHours(h, location, hours);
            r.Some? && HoursPlaced(r.value, location, hours) && SameAway(h, r.value, location)
  {
    InsertHoursPlaces(ClearHours(h, location), location, hours);
  }

  lemma PlacedSet(r: HourTable, location: nat, hours: seq<Hour>)
    requires HoursPlaced(r, location, hours)
    ensures forall x :: x in HourSet(r, location) <==> x in hours
  {
    forall x ensures x in HourSet(r, location) <==> x in hours {
      if x in hours {
        var k := (location, x.dayOfWeek, x.opens);
        assert k in r && Hour(k.1, k.2, r[k]) == x;
      }
    }
  }

  lemma ListedHoursAreDistinct(h: HourTable, location: nat)
    ensures DistinctHours(HoursOf(h, location))
  {
    var l := HoursOf(h, location);
    forall i, j | 0 <= i < j < |l| ensures (l[i].dayOfWeek, l[i].opens) != (l[j].dayOfWeek, l[j].opens) {
      assert l[i] in HourSet(h, location) && l[j] in HourSet(h, location) && l[i] != l[j];
    }
  }

  /** Replacing a location's hours by the hours it has is no change. */
  lemma ReplaceOwnHours(h: HourTable, location: nat)
    ensures ReplaceHours(h, location, HoursOf(h, location)) == Some(h)
  {
    hide ReplaceHours, HoursOf;
    var l := HoursOf(h, location);
    ListedHoursAreDistinct(h, location);
    ReplaceHoursPlaces(h, location, l);
    OwnHoursList(h, location);
    var r := ReplaceHours(h, location, l).value;
    forall k ensures (k in r <==> k in h) && (k in h ==> r[k] == h[k]) {
      if k.0 == location {
        if k in h {
          assert Hour(k.1, k.2, h[k]) in HourSet(h, location);
          assert Hour(k.1, k.2, h[k]) in l;
        }
        if k in r {
          assert Hour(k.1, k.2, r[k]) in HourSet(h, location);
        }
      }
    }
    assert r == h;
  }

  lemma OwnHoursList(h: HourTable, location: nat)
    ensures forall x :: x in HoursOf(h, location) <==> x in HourSet(h, location)
  {
  }

  ghost predicate DistinctLocations(items: seq<LocationItem>) {
    forall i, j | 0 <= i < j < |items| :: items[i].key != items[j].key
  }

  lemma {:induction false} OwnHoursOfAll(h: HourTable, locations: Table<Scoped, LocationCols>, org: nat,
                                         items: seq<LocationItem>)
    requires forall x | x in items ::
               (org, x.key) in locations.rows && x.officeHours == Some(HoursOf(h, locations.rows[(org, x.key)].id))
    ensures HoursOfAll(h, locations, org, items) == Some(h)
  {
    hide HoursOf, ReplaceHours;
    if items != [] {
      var x := items[|items| - 1];
      OwnHoursOfAll(h, locations, org, items[..|items| - 1]);
      ReplaceOwnHours(h, locations.rows[(org, x.key)].id);
      assert x in items;
    }
  }

  ghost predicate AllHoursPlaced(h: HourTable, r: HourTable, locations: Table<Scoped, LocationCols>, org: nat,
                                 items: seq<LocationItem>)
    requires forall x | x in items :: (org, x.key) in locations.rows
  {
    && (forall x | x in items ::
          x.officeHours.Some? && HoursPlaced(r, locations.rows[(org, x.key)].id, x.officeHours.value))
    && (forall k: (nat, int, string) | (forall x | x in items :: k.0 != locations.rows[(org, x.key)].id) ::
          (k in r <==> k in h) && (k in h ==> r[k] == h[k]))
  }

  lemma {:induction false} HoursOfAllPlaces(h: HourTable, locations: Table<Scoped, LocationCols>, org: nat,
                                            items: seq<LocationItem>)
    requires UniqueIds(locations) && DistinctLocations(items)
    requires forall x | x in items ::
               (org, x.key) in locations.rows && x.officeHours.Some? && DistinctHours(x.officeHours.value)
    ensures var r := HoursOfAll(h, locations, org, items); r.Some? && AllHoursPlaced(h, r.value, locations, org, items)
  {
    hide ReplaceHours, HoursPlaced, DistinctHours;
    if items != [] {
      var n := |items| - 1;
      var x := items[n];
      var id := locations.rows[(org, x.key)].id;
      HoursOfAllPlaces(h, locations, org, items[..n]);
      var before := HoursOfAll(h, locations, org, items[..n]).value;
      assert x in items;
      ReplaceHoursPlaces(before, id, x.officeHours.value);
      var r := ReplaceHours(before, id, x.officeHours.value).value;
      assert items == items[..n] + [x];
      forall y | y in items
        ensures y.officeHours.Some? && HoursPlaced(r, locations.rows[(org, y.key)].id, y.officeHours.value)
      {
        if y in items[..n] {
          var i :| 0 <= i < n && items[i] == y;
          assert y.key != x.key;
          PlacedStays(before, r, id, locations.rows[(org, y.key)].id, y.officeHours.value);
        }
      }
    }
  }

  lemma PlacedStays(h: HourTable, r: HourTable, replaced: nat, location: nat, hours: seq<Hour>)
    requires SameAway(h, r, replaced) && HoursPlaced(h, location, hours) && location != replaced
    ensures HoursPlaced(r, location, hours)
  {
  }

  // ── Replacing membership ───────────────────────────────────────────────────

  ghost predicate SameElsewhere(m: MemberTable, r: MemberTable, group: nat) {
    forall k: (nat, nat) | k.0 != group :: (k in r <==> k in m) && (k in m ==> r[k] == m[k])
  }

  /** A group's members are exactly these, at positions 0, 1, 2 and so on. */
  ghost predicate Placed(r: MemberTable, group: nat, ids: seq<nat>) {
    && (forall p :: (group, p) in r <==> p in ids)
    && (forall i | 0 <= i < |ids| :: r[(group, ids[i])] == i)
  }

  lemma {:induction false} InsertMembersPlaces(m: MemberTable, group: nat, ids: seq<nat>)
    requires Distinct(ids) && forall k | k in m :: k.0 != group
    ensures var r := InsertMembers(m, group, ids);
            r.Some? && Placed(r.value, group, ids) && SameElsewhere(m, r.value, group)
  {
    if ids != [] {
      var n := |ids| - 1;
      InsertMembersPlaces(m, group, ids[..n]);
      assert ids == ids[..n] + [ids[n]];
      assert ids[n] !in ids[..n];
      var before := InsertMembers(m, group, ids[..n]).value;
      var r := before[(group, ids[n]) := n];
      forall i | 0 <= i < |ids| ensures (group, ids[i]) in r && r[(group, ids[i])] == i {
        if i < n { assert ids[..n][i] == ids[i]; }
      }
    }
  }

  lemma ReplaceMembersPlaces(m: MemberTable, group: nat, ids: seq<nat>)
    requires Distinct(ids)
    ensures var r := ReplaceMembers(m, group, ids);
            r.Some? && Placed(r.value, group, ids) && SameElsewhere(m, r.value, group)
  {
    InsertMembersPlaces(ClearMembers(m, group), group, ids);
  }

  ghost predicate Known(t: Table<Scoped, ProviderCols>, org: nat, keys: seq<string>) {
    forall i | 0 <= i < |keys| :: (org, keys[i]) in t.rows
  }

  lemma {:induction false} ResolveAll(t: Table<Scoped, ProviderCols>, org: nat, keys: seq<string>)
    requires Known(t, org, keys)
    ensures var ids := ResolveProviders(t, org, keys);
            ids.Some? && |ids.value| == |keys| && forall i | 0 <= i < |keys| ::
              ids.value[i] == t.rows[(org, keys[i])].id
  {
    if keys != [] { ResolveAll(t, org, keys[..|keys| - 1]); }
  }

  lemma ResolvedAreDistinct(t: Table<Scoped, ProviderCols>, org: nat, keys: seq<string>)
    requires Known(t, org, keys) && Distinct(keys) && UniqueIds(t)
    ensures ResolveProviders(t, org, keys).Some? && Distinct(ResolveProviders(t, org, keys).value)
  {
    ResolveAll(t, org, keys);
    var ids := ResolveProviders(t, org, keys).value;
    forall i, j | 0 <= i < j < |ids| ensures ids[i] != ids[j] {
      assert (org, keys[i]) != (org, keys[j]);
    }
  }

  ghost predicate DistinctGroups(items: seq<GroupItem>) {
    forall i, j | 0 <= i < j < |items| :: items[i].key != items[j].key
  }

  ghost predicate GroupPlaced(r: MemberTable, groups: Table<Scoped, GroupCols>, providers: Table<Scoped, ProviderCols>,
                              org: nat, x: GroupItem)
    requires (org, x.key) in groups.rows
  {
    && x.providers.Some?
    && ResolveProviders(providers, org, x.providers.value).Some?
    && Placed(r, groups.rows[(org, x.key)].id, ResolveProviders(providers, org, x.providers.value).value)
  }

  ghost predicate AllMembersPlaced(m: MemberTable, r: MemberTable, groups: Table<Scoped, GroupCols>,
                                   providers: Table<Scoped, ProviderCols>, org: nat, items: seq<GroupItem>)
    requires forall x | x in items :: (org, x.key) in groups.rows
  {
    && (forall x | x in items :: GroupPlaced(r, groups, providers, org, x))
    && (forall k: (nat, nat) | (forall x | x in items :: k.0 != groups.rows[(org, x.key)].id) ::
          (k in r <==> k in m) && (k in m ==> r[k] == m[k]))
  }

  lemma {:induction false} MembersOfAllPlaces(m: MemberTable, groups: Table<Scoped, GroupCols>,
                                              providers: Table<Scoped, ProviderCols>, org: nat, items: seq<GroupItem>)
    requires UniqueIds(groups) && UniqueIds(providers) && DistinctGroups(items)
    requires forall x | x in items ::
               (org, x.key) in groups.rows && x.providers.Some? && Known(providers, org, x.providers.value)
                                      && Distinct(x.providers.value)
    ensures var r := MembersOfAll(m, groups, providers, org, items);
            r.Done? && AllMembersPlaced(m, r.value, groups, providers, org, items)
  {
    hide ReplaceMembers, Placed, Known, Distinct, ResolveProviders;
    if items != [] {
      var n := |items| - 1;
      var x := items[n];
      var id := groups.rows[(org, x.key)].id;
      MembersOfAllPlaces(m, groups, providers, org, items[..n]);
      var before := MembersOfAll(m, groups, providers, org, items[..n]).value;
      assert x in items;
      ResolvedAreDistinct(providers, org, x.providers.value);
      var ids := ResolveProviders(providers, org, x.providers.value).value;
      ReplaceMembersPlaces(before, id, ids);
      var r := ReplaceMembers(before, id, ids).value;
      assert items == items[..n] + [x];
      forall y | y in items ensures GroupPlaced(r, groups, providers, org, y) {
        if y in items[..n] {
          var i :| 0 <= i < n && items[i] == y;
          assert y.key != x.key;
          MembersStay(before, r, id, groups.rows[(org, y.key)].id,
                      ResolveProviders(providers, org, y.providers.value).value);
        }
      }
    }
  }

  lemma MembersStay(m: MemberTable, r: MemberTable, replaced: nat, group: nat, ids: seq<nat>)
    requires SameElsewhere(m, r, replaced) && Placed(m, group, ids) && group != replaced
    ensures Placed(r, group, ids)
  {
    forall p ensures (group, p) in r <==> p in ids {
      assert (group, p) in r <==> (group, p) in m;
    }
    forall i | 0 <= i < |ids| ensures (group, ids[i]) in r && r[(group, ids[i])] == i {
      assert ids[i] in ids;
      assert (group, ids[i]) in m;
    }
  }

  lemma {:induction false} GroupRowsResolve(items: seq<GroupItem>, areas: Table<Scoped, CatalogCols>, org: nat)
    requires forall i | 0 <= i < |items| :: (org, items[i].serviceArea) in areas.rows
    ensures GroupRows(items, areas, org).Some?
  {
    if items != [] { GroupRowsResolve(items[..|items| - 1], areas, org); }
  }

  ghost predicate SettingNamed(items: seq<SettingItem>, namespace: string, key: string) {
    exists i :: 0 <= i < |items| && items[i].namespace == namespace && items[i].key == key
  }

  /** The named settings have the given values, written now; the rest are as they were. */
  ghost predicate SettingsPlaced(s: SettingTable, r: SettingTable, org: nat, items: seq<SettingItem>, now: int) {
    && (forall k :: k in r <==> k in s || (k.0 == org && SettingNamed(items, k.1, k.2)))
    && (forall i | 0 <= i < |items| :: r[(org, items[i].namespace, items[i].key)] == Stored(items[i].value, now))
    && (forall k | k in s && !(k.0 == org && SettingNamed(items, k.1, k.2)) :: r[k] == s[k])
  }

  lemma SettingNamedLonger(items: seq<SettingItem>, x: SettingItem, namespace: string, key: string)
    ensures SettingNamed(items + [x], namespace, key)
            <==> SettingNamed(items, namespace, key) || (x.namespace == namespace && x.key == key)
  {
    var all := items + [x];
    if SettingNamed(items, namespace, key) {
      var i :| 0 <= i < |items| && items[i].namespace == namespace && items[i].key == key;
      assert all[i] == items[i];
    }
    assert all[|items|] == x;
  }

  lemma SettingAdded(s: SettingTable, r: SettingTable, org: nat, items: seq<SettingItem>, x: SettingItem, now: int)
    requires SettingsPlaced(s, r, org, items, now) && !SettingNamed(items, x.namespace, x.key)
    ensures SettingsPlaced(s, r[(org, x.namespace, x.key) := Stored(x.value, now)], org, items + [x], now)
  {
    var all := items + [x];
    forall namespace, key
      ensures SettingNamed(all, namespace, key)
              <==> SettingNamed(items, namespace, key) || (x.namespace == namespace && x.key == key)
    {
      SettingNamedLonger(items, x, namespace, key);
    }
    forall i | 0 <= i < |items| ensures all[i] == items[i] && SettingNamed(items, items[i].namespace, items[i].key) {}
  }

  ghost predicate DistinctSettings(items: seq<SettingItem>) {
    forall i, j | 0 <= i < j < |items| :: (items[i].namespace, items[i].key) != (items[j].namespace, items[j].key)
  }

  lemma {:induction false} SettingsOfAllPlaces(s: SettingTable, org: nat, items: seq<SettingItem>, now: int)
    requires DistinctSettings(items)
    ensures SettingsPlaced(s, SettingsOfAll(s, org, items, now), org, items, now)
  {
    hide SettingsPlaced;
    if items != [] {
      var n := |items| - 1;
      SettingsOfAllPlaces(s, org, items[..n], now);
      SettingAdded(s, SettingsOfAll(s, org, items[..n], now), org, items[..n], items[n], now);
      assert items == items[..n] + [items[n]];
    } else {
      NoSettingsPlaced(s, org, now);
    }
  }

  lemma NoSettingsPlaced(s: SettingTable, org: nat, now: int)
    ensures SettingsPlaced(s, s, org, [], now)
  {
  }
}
