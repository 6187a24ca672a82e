/**
 * Which calendar an availability check and its booking use: the configured event types, the gate a configuration
 * passes before it is stored, and the route resolved from it at run time.
 *
 * A lookup in a JavaScript object finds an inherited property when there is no own one, so an unmapped key named like
 * one of `Object.prototype`'s is not seen as unmapped. The model keeps that.
 */
module CalendarRouting {
  import opened Options
  import ConfigValidation
  import Contexts = BookingContexts

  const MAX_SAFE_INTEGER := 9_007_199_254_740_991
  const DEFAULT_DURATION := 30
  const MAX_DURATION := 480

  /** The names every plain object inherits. */
  const INHERITED: set<string> := {
    "constructor", "toString", "toLocaleString", "valueOf", "hasOwnProperty", "isPrototypeOf", "propertyIsEnumerable",
    "__proto__", "__defineGetter__", "__defineSetter__", "__lookupGetter__", "__lookupSetter__"}

  // ── The document ───────────────────────────────────────────────────────────

  /** A JSON value where a number is expected; numbers that are not integers are `NotInteger`. */
  datatype RawValue = Integer(n: int) | NotInteger

  datatype RawMap = Omitted | NotAMap | Entries(entries: seq<(string, RawValue)>)

  datatype Raw =
    | Missing
    | NotAnObject
    | Fields(unknown: seq<string>, eventTypeId: Option<RawValue>, attorneys: RawMap, groups: RawMap,
             duration: Option<RawValue>)

  datatype Config = Config(eventTypeId: Option<int>, attorneyEventTypes: map<string, int>,
                           routingGroupEventTypes: map<string, int>, durationMinutes: int)

  datatype Which = AttorneyMap | GroupMap

  datatype Issue =
    | MustBeObject | UnknownField(name: string) | BadEventTypeId | MustMap(which: Which) | BlankKey(which: Which)
    | BadId(which: Which, name: string) | BadDuration
    | UnknownAttorney(name: string) | InactiveAttorney(name: string)
    | UnknownGroup(name: string) | InactiveGroup(name: string) | Ambiguous(name: string, sharing: nat)

  const EMPTY_CONFIG := Config(None, map[], map[], DEFAULT_DURATION)

  predicate SafeId(v: RawValue) {
    v.Integer? && 0 < v.n <= MAX_SAFE_INTEGER
  }

  predicate SoundDuration(v: RawValue) {
    v.Integer? && 0 < v.n <= MAX_DURATION
  }

  /** An assignment to `__proto__` of something that is no object is dropped. */
  function Assign(m: map<string, int>, key: string, id: int): map<string, int> {
    if key == "__proto__" then m else m[key := id]
  }

  function MapValue(entries: seq<(string, RawValue)>): map<string, int> {
    if entries == [] then map[]
    else
      var before := MapValue(entries[..|entries| - 1]);
      var (key, id) := entries[|entries| - 1];
      if ConfigValidation.Trim(key) == "" || !SafeId(id) then before
      else Assign(before, ConfigValidation.Trim(key), id.n)
  }

  function MapIssues(which: Which, entries: seq<(string, RawValue)>): seq<Issue> {
    if entries == [] then []
    else
      var (key, id) := entries[|entries| - 1];
      MapIssues(which, entries[..|entries| - 1])
        + if ConfigValidation.Trim(key) == "" then [BlankKey(which)] else if !SafeId(id) then [BadId(which, key)]
          else []
  }

  function RawMapValue(m: RawMap): map<string, int> {
    if m.Entries? then MapValue(m.entries) else map[]
  }

  function RawMapIssues(which: Which, m: RawMap): seq<Issue> {
    match m case Omitted => [] case NotAMap => [MustMap(which)] case Entries(entries) => MapIssues(which, entries)
  }

  function Unknowns(names: seq<string>): seq<Issue> {
    seq(|names|, i requires 0 <= i < |names| => UnknownField(names[i]))
  }

  /** Lenient: malformed fields fall back, each with an issue. */
  function Normalize(raw: Raw): (Config, seq<Issue>) {
    match raw
    case Missing => (EMPTY_CONFIG, [])
    case NotAnObject => (EMPTY_CONFIG, [MustBeObject])
    case Fields(unknown, id, attorneys, groups, duration) =>
      (Config(if id.Some? && SafeId(id.value) then Some(id.value.n) else None,
              RawMapValue(attorneys), RawMapValue(groups),
              if duration.Some? && SoundDuration(duration.value) then duration.value.n else DEFAULT_DURATION),
       Unknowns(unknown)
         + (if id.Some? && !SafeId(id.value) then [BadEventTypeId] else [])
         + RawMapIssues(AttorneyMap, attorneys) + RawMapIssues(GroupMap, groups)
         + (if duration.Some? && !SoundDuration(duration.value) then [BadDuration] else []))
  }

  predicate SoundMap(m: map<string, int>) {
    forall key | key in m ::
      key != "" && key != "__proto__" && ConfigValidation.Trim(key) == key && 0 < m[key] <= MAX_SAFE_INTEGER
  }

  predicate Sound(c: Config) {
    && (c.eventTypeId.Some? ==> 0 < c.eventTypeId.value <= MAX_SAFE_INTEGER)
    && SoundMap(c.attorneyEventTypes) && SoundMap(c.routingGroupEventTypes)
    && 0 < c.durationMinutes <= MAX_DURATION
  }

  lemma {:induction false} MapValueIsSound(entries: seq<(string, RawValue)>)
    ensures SoundMap(MapValue(entries))
  {
    hide MapValue;
    if entries == [] {
      NoEntries(AttorneyMap);
    } else {
      var last := entries[|entries| - 1];
      MapValueIsSound(entries[..|entries| - 1]);
      MapStep(entries);
      TrimmedTwice(last.0);
    }
  }

  lemma TrimmedTwice(key: string)
    ensures ConfigValidation.Trim(ConfigValidation.Trim(key)) == ConfigValidation.Trim(key)
  {
    hide ConfigValidation.Trim;
  }

  /** Whatever the document, the value is usable. */
  lemma NormalizedIsSound(raw: Raw)
    ensures Sound(Normalize(raw).0)
  {
    hide MapValue, SoundMap;
    NoMap();
    if raw.Fields? {
      if raw.attorneys.Entries? { MapValueIsSound(raw.attorneys.entries); }
      if raw.groups.Entries? { MapValueIsSound(raw.groups.entries); }
    }
  }

  lemma NoMap()
    ensures SoundMap(map[])
  {
  }

  /** The entries of a map, in some order, as JSON. */
  ghost predicate Writes(entries: seq<(string, RawValue)>, m: map<string, int>) {
    && (forall i | 0 <= i < |entries| :: entries[i].0 in m && entries[i].1 == Integer(m[entries[i].0]))
    && (forall key | key in m :: exists i :: 0 <= i < |entries| && entries[i].0 == key)
  }

  lemma SoundEntry(m: map<string, int>, key: string)
    requires SoundMap(m) && key in m
    ensures ConfigValidation.Trim(key) == key && key != "" && key != "__proto__" && SafeId(Integer(m[key]))
  {
  }

  lemma {:induction false} WrittenMap(which: Which, entries: seq<(string, RawValue)>, m: map<string, int>)
    requires SoundMap(m) && forall i | 0 <= i < |entries| ::
               entries[i].0 in m && entries[i].1 == Integer(m[entries[i].0])
    ensures MapIssues(which, entries) == []
    ensures forall i | 0 <= i < |entries| :: entries[i].0 in MapValue(entries)
    ensures forall key | key in MapValue(entries) :: key in m && MapValue(entries)[key] == m[key]
  {
    hide SoundMap, SafeId, ConfigValidation.Trim, MapValue, MapIssues;
    if entries == [] {
      NoEntries(which);
    } else {
      var n := |entries| - 1;
      forall i | 0 <= i < n ensures entries[..n][i] == entries[i] {}
      WrittenMap(which, entries[..n], m);
      SoundEntry(m, entries[n].0);
      OneMoreEntry(which, entries, n);
      assert entries[..n + 1] == entries;
      forall i | 0 <= i < |entries| ensures entries[i].0 in MapValue(entries) {
        if i < n { assert entries[..n][i].0 in MapValue(entries[..n]); }
      }
    }
  }

  /** The canonical document is a fixed point: stored and read again it is the same, without issues. */
  lemma NormalizedIsFixed(c: Config, attorneys: seq<(string, RawValue)>, groups: seq<(string, RawValue)>)
    requires Sound(c) && Writes(attorneys, c.attorneyEventTypes) && Writes(groups, c.routingGroupEventTypes)
    ensures Normalize(Fields([], if c.eventTypeId.Some? then Some(Integer(c.eventTypeId.value)) else None,
                             Entries(attorneys), Entries(groups), Some(Integer(c.durationMinutes)))) == (c, [])
  {
    hide SoundMap, MapValue, MapIssues;
    WrittenMap(AttorneyMap, attorneys, c.attorneyEventTypes);
    WrittenMap(GroupMap, groups, c.routingGroupEventTypes);
    assert Unknowns([]) == [];
    assert MapValue(attorneys) == c.attorneyEventTypes;
    assert MapValue(groups) == c.routingGroupEventTypes;
    var raw := Fields([], if c.eventTypeId.Some? then Some(Integer(c.eventTypeId.value)) else None,
                             Entries(attorneys), Entries(groups), Some(Integer(c.durationMinutes)));
    assert Normalize(raw).0 == c && Normalize(raw).1 == [];
  }

  /** An entry with a usable key and no usable id, and one with no usable key. */
  ghost predicate IdFault(entry: (string, RawValue), name: string) {
    && entry.0 == name && ConfigValidation.Trim(entry.0) != ""
    && !(entry.1.Integer? && 0 < entry.1.n <= 9_007_199_254_740_991)
  }

  ghost predicate KeyFault(entry: (string, RawValue)) {
    ConfigValidation.Trim(entry.0) == ""
  }

  lemma LastFault(which: Which, entries: seq<(string, RawValue)>)
    requires entries != []
    ensures var last := entries[|entries| - 1]; var before := MapIssues(which, entries[..|entries| - 1]);
            MapIssues(which, entries) == before + if KeyFault(last) then [BlankKey(which)]
                                                  else if IdFault(last, last.0) then [BadId(which, last.0)] else []
  {
    hide ConfigValidation.Trim;
  }

  /** The faults of one map's entries, each named by its issue. */
  lemma {:induction false} EntryFaults(which: Which, entries: seq<(string, RawValue)>, x: Issue)
    ensures x in MapIssues(which, entries)
            <==> exists i :: 0 <= i < |entries|
                   && (if KeyFault(entries[i]) then x == BlankKey(which)
                       else x.BadId? && x.which == which && IdFault(entries[i], x.name))
  {
    hide ConfigValidation.Trim, MapIssues, KeyFault, IdFault;
    if entries == [] {
      NoEntries(which);
    } else {
      var n := |entries| - 1;
      LastFault(which, entries);
      EntryFaults(which, entries[..n], x);
      forall i | 0 <= i < n ensures entries[..n][i] == entries[i] {}
      if x.BadId? { OwnName(entries[n], x); }
    }
  }

  lemma OwnName(entry: (string, RawValue), x: Issue)
    requires x.BadId?
    ensures IdFault(entry, x.name) <==> IdFault(entry, entry.0) && x.name == entry.0
  {
  }

  lemma MapStep(entries: seq<(string, RawValue)>)
    requires entries != []
    ensures var n := |entries| - 1; var key := ConfigValidation.Trim(entries[n].0);
            var before := MapValue(entries[..n]);
            MapValue(entries) == if key == "" || !SafeId(entries[n].1) then before
                                 else Assign(before, key, entries[n].1.n)
  {
    hide ConfigValidation.Trim, Assign, SafeId;
  }

  /** A key that is mapped has the id of the last sound entry spelt like it. */
  lemma {:induction false} LastSoundEntryCounts(entries: seq<(string, RawValue)>, key: string, i: nat)
    requires i < |entries| && key != "" && key != "__proto__" && ConfigValidation.Trim(entries[i].0) == key
    requires entries[i].1.Integer? && 0 < entries[i].1.n <= 9_007_199_254_740_991
    requires forall j | i < j < |entries| && ConfigValidation.Trim(entries[j].0) == key ::
               !(entries[j].1.Integer? && 0 < entries[j].1.n <= 9_007_199_254_740_991)
    ensures key in MapValue(entries) && MapValue(entries)[key] == entries[i].1.n
  {
    hide ConfigValidation.Trim, MapValue;
    var n := |entries| - 1;
    MapStep(entries);
    if i < n {
      forall j | i <= j < n ensures entries[..n][j] == entries[j] {}
      LastSoundEntryCounts(entries[..n], key, i);
    }
  }

  lemma MapFault(which: Which, m: RawMap, x: Issue)
    ensures x in RawMapIssues(which, m)
            <==> if m.Entries? then x in MapIssues(which, m.entries) else m.NotAMap? && x == MustMap(which)
    ensures x in RawMapIssues(which, m) ==> x == MustMap(which) || x == BlankKey(which) || x.BadId?
  {
    hide MapIssues;
    if m.Entries? { EntryFaults(which, m.entries, x); }
  }

  lemma FieldFault(raw: Raw, x: Issue)
    requires raw.Fields?
    ensures x in Normalize(raw).1 <==>
              || (x.UnknownField? && x.name in raw.unknown)
              || (x == BadEventTypeId && raw.eventTypeId.Some? && !SafeId(raw.eventTypeId.value))
              || x in RawMapIssues(AttorneyMap, raw.attorneys) || x in RawMapIssues(GroupMap, raw.groups)
              || (x == BadDuration && raw.duration.Some? && !SoundDuration(raw.duration.value))
  {
    hide RawMapIssues, RawMapValue, SafeId, SoundDuration;
    if x.UnknownField? && x.name in raw.unknown {
      var i :| 0 <= i < |raw.unknown| && raw.unknown[i] == x.name;
      assert Unknowns(raw.unknown)[i] == x;
    }
  }

  /** Each fault of a document, and nothing else, has its issue. */
  lemma EveryFaultIsNamed(raw: Raw, x: Issue)
    ensures x in Normalize(raw).1 <==>
              match x
              case MustBeObject => raw.NotAnObject?
              case UnknownField(name) => raw.Fields? && name in raw.unknown
              case BadEventTypeId =>
                raw.Fields? && raw.eventTypeId.Some?
                && !(raw.eventTypeId.value.Integer? && 0 < raw.eventTypeId.value.n <= 9_007_199_254_740_991)
              case MustMap(which) => raw.Fields? && (if which.AttorneyMap? then raw.attorneys else raw.groups).NotAMap?
              case BlankKey(which) =>
                raw.Fields? && var m := if which.AttorneyMap? then raw.attorneys else raw.groups;
                m.Entries? && exists i :: 0 <= i < |m.entries| && KeyFault(m.entries[i])
              case BadId(which, name) =>
                raw.Fields? && var m := if which.AttorneyMap? then raw.attorneys else raw.groups;
                m.Entries? && exists i :: 0 <= i < |m.entries| && IdFault(m.entries[i], name)
              case BadDuration =>
                raw.Fields? && raw.duration.Some?
                && !(raw.duration.value.Integer? && 0 < raw.duration.value.n <= 480)
              case _ => false
  {
    hide RawMapIssues, RawMapValue, MapIssues, Unknowns, KeyFault, IdFault;
    if raw.Fields? {
      FieldFault(raw, x);
      MapFault(AttorneyMap, raw.attorneys, x);
      MapFault(GroupMap, raw.groups, x);
      if raw.attorneys.Entries? { EntryFaults(AttorneyMap, raw.attorneys.entries, x); }
      if raw.groups.Entries? { EntryFaults(GroupMap, raw.groups.entries, x); }
      NoKeyNoId();
    }
  }

  /** A field without a fault is kept as given, one that is absent or at fault falls back: no id, thirty minutes. */
  lemma FaultyFieldsFallBack(raw: Raw)
    ensures var (c, issues) := Normalize(raw);
            if raw.Fields? then
              && c.eventTypeId == (if raw.eventTypeId.None? || BadEventTypeId in issues then None
                                   else Some(raw.eventTypeId.value.n))
              && c.durationMinutes == (if raw.duration.None? || BadDuration in issues then 30 else raw.duration.value.n)
            else c.eventTypeId == None && c.durationMinutes == 30
                 && c.attorneyEventTypes == map[] && c.routingGroupEventTypes == map[]
  {
    hide RawMapIssues, RawMapValue, SafeId, SoundDuration;
    if raw.Fields? {
      FieldFault(raw, BadEventTypeId);
      FieldFault(raw, BadDuration);
      MapFault(AttorneyMap, raw.attorneys, BadEventTypeId);
      MapFault(GroupMap, raw.groups, BadEventTypeId);
      MapFault(AttorneyMap, raw.attorneys, BadDuration);
      MapFault(GroupMap, raw.groups, BadDuration);
    }
  }

  lemma NoKeyNoId()
    ensures forall entry, name :: KeyFault(entry) ==> !IdFault(entry, name)
  {
  }

  // ── Resolving a route ──────────────────────────────────────────────────────

  datatype Group = Group(key: string, serviceArea: string, active: bool, providers: seq<string>)

  /** A configured id, or a property every object inherits, which is no integer. */
  type EventType = Contexts.EventTypeId

  datatype Route = Route(routeKind: string, eventType: EventType, attorneyId: Option<string>,
                         routingGroupKey: Option<string>,
                         practiceAreaId: Option<string>, attributedAttorneyId: Option<string>)

  datatype Unresolved = NoRoutingGroup | AmbiguousRoutingGroup | AttorneyUnmapped | AttorneyNotPermitted
    | RoutingGroupUnmapped | NotConfigured

  datatype Resolution = Resolved(route: Route) | Failed(reason: Unresolved)

  /** `map[key]`, when it is truthy. */
  function Lookup(m: map<string, int>, key: string): Option<EventType> {
    if key in m then (if m[key] != 0 then Some(Contexts.Id(m[key])) else None)
    else if key in INHERITED then Some(Contexts.NoInteger)
    else None
  }

  function ActiveFor(groups: seq<Group>, area: string): seq<Group> {
    if groups == [] then []
    else
      var last := groups[|groups| - 1];
      ActiveFor(groups[..|groups| - 1], area) + if last.active && last.serviceArea == area then [last] else []
  }

  function AttorneyRoute(c: Config, attorney: string, area: Option<string>): Resolution {
    var found := Lookup(c.attorneyEventTypes, attorney);
    if found.None? then Failed(AttorneyUnmapped)
    else Resolved(Route("attorney", found.value, Some(attorney), None, area, Some(attorney)))
  }

  function Resolve(c: Config, attorney: Option<string>, area: Option<string>, groups: seq<Group>): Resolution {
    if Truthy(attorney) && Truthy(area) then
      var serving := ActiveFor(groups, area.value);
      if |serving| == 0 then Failed(NoRoutingGroup)
      else if |serving| > 1 then Failed(AmbiguousRoutingGroup)
      else if attorney.value !in serving[0].providers then Failed(AttorneyNotPermitted)
      else AttorneyRoute(c, attorney.value, area)
    else if Truthy(attorney) then AttorneyRoute(c, attorney.value, None)
    else if Truthy(area) then
      var serving := ActiveFor(groups, area.value);
      if |serving| == 0 then Failed(NoRoutingGroup)
      else if |serving| > 1 then Failed(AmbiguousRoutingGroup)
      else
        var found := Lookup(c.routingGroupEventTypes, serving[0].key);
        if found.None? then Failed(RoutingGroupUnmapped)
        else Resolved(Route("routing-group", found.value, None, Some(serving[0].key), area, None))
    else if c.eventTypeId.Some? && c.eventTypeId.value != 0 then
      Resolved(Route("default", Contexts.Id(c.eventTypeId.value), None, None, None, None))
    else Failed(NotConfigured)
  }

  // ── The gate ───────────────────────────────────────────────────────────────

  /** The catalog an organization's mappings are checked against: attorneys with their activity, and routing groups. */
  datatype Catalog = Catalog(attorneys: map<string, bool>, groups: seq<Group>)

  /** A routing group's key and its practice area's are never blank, and a key names one group. */
  ghost predicate WellKept(groups: seq<Group>) {
    && (forall g | g in groups :: g.key != "" && g.serviceArea != "")
    && (forall i, j | 0 <= i < j < |groups| :: groups[i].key != groups[j].key)
  }

  function Find(groups: seq<Group>, key: string): (found: Option<Group>)
    ensures found.Some? ==> found.value in groups && found.value.key == key
    ensures found.None? ==> forall g | g in groups :: g.key != key
  {
    if groups == [] then None
    else if groups[0].key == key then Some(groups[0])
    else Find(groups[1..], key)
  }

  function AttorneyIssues(catalog: Catalog, key: string): seq<Issue> {
    if key !in catalog.attorneys then [UnknownAttorney(key)]
    else if !catalog.attorneys[key] then [InactiveAttorney(key)]
    else []
  }

  function GroupIssues(catalog: Catalog, key: string): seq<Issue> {
    var found := Find(catalog.groups, key);
    if found.None? then [UnknownGroup(key)]
    else if !found.value.active then [InactiveGroup(key)]
    else
      var sharing := ActiveFor(catalog.groups, found.value.serviceArea);
      if |sharing| > 1 then [Ambiguous(key, |sharing|)] else []
  }

  predicate PassesGate(c: Config, catalog: Catalog) {
    && (forall key | key in c.attorneyEventTypes :: AttorneyIssues(catalog, key) == [])
    && (forall key | key in c.routingGroupEventTypes :: GroupIssues(catalog, key) == [])
  }

  lemma {:induction false} ActiveMembers(groups: seq<Group>, area: string)
    ensures forall g :: g in ActiveFor(groups, area) <==> g in groups && g.active && g.serviceArea == area
  {
    if groups != [] {
      ActiveMembers(groups[..|groups| - 1], area);
      assert groups == groups[..|groups| - 1] + [groups[|groups| - 1]];
    }
  }

  lemma {:induction false} KeyNamesOne(groups: seq<Group>, g: Group)
    requires WellKept(groups) && g in groups
    ensures Find(groups, g.key) == Some(g)
  {
    var found := Find(groups, g.key).value;
    var i :| 0 <= i < |groups| && groups[i] == g;
    var j :| 0 <= j < |groups| && groups[j] == found;
  }

  /** One key passes exactly when resolving by its group's practice area gives back that group and its event type. */
  lemma GroupPassesExactlyWhenItRoutes(c: Config, catalog: Catalog, key: string)
    requires Sound(c) && WellKept(catalog.groups) && key in c.routingGroupEventTypes
    ensures GroupIssues(catalog, key) == [] <==>
              exists g :: g in catalog.groups && g.key == key && g.active
                && Resolve(c, None, Some(g.serviceArea), catalog.groups)
                   == Resolved(Route("routing-group", Contexts.Id(c.routingGroupEventTypes[key]), None, Some(key),
                                     Some(g.serviceArea), None))
  {
    var found := Find(catalog.groups, key);
    if found.Some? {
      var g := found.value;
      ActiveMembers(catalog.groups, g.serviceArea);
      var sharing := ActiveFor(catalog.groups, g.serviceArea);
      if g.active {
        assert g in sharing;
        if |sharing| == 1 { assert sharing[0] == g; }
      }
      forall h | h in catalog.groups && h.key == key ensures h == g { KeyNamesOne(catalog.groups, h); }
    }
  }

  /**
   * The gate makes routing total, and nothing weaker would: a sound configuration has no group issue exactly when
   * every mapped routing group is an active one whose practice area resolves to it and to its event type.
   */
  lemma GateMakesRoutingTotal(c: Config, catalog: Catalog)
    requires Sound(c) && WellKept(catalog.groups)
    ensures PassesGate(c, catalog) <==>
              && (forall key | key in c.attorneyEventTypes :: key in catalog.attorneys && catalog.attorneys[key])
              && (forall key | key in c.routingGroupEventTypes ::
                    exists g :: g in catalog.groups && g.key == key && g.active
                      && Resolve(c, None, Some(g.serviceArea), catalog.groups)
                         == Resolved(Route("routing-group", Contexts.Id(c.routingGroupEventTypes[key]), None, Some(key),
                                           Some(g.serviceArea), None)))
  {
    hide Sound, WellKept, GroupIssues, Resolve;
    forall key | key in c.routingGroupEventTypes
      ensures GroupIssues(catalog, key) == [] <==>
                exists g :: g in catalog.groups && g.key == key && g.active
                  && Resolve(c, None, Some(g.serviceArea), catalog.groups)
                     == Resolved(Route("routing-group", Contexts.Id(c.routingGroupEventTypes[key]), None, Some(key),
                                       Some(g.serviceArea), None))
    {
      GroupPassesExactlyWhenItRoutes(c, catalog, key);
    }
  }

  /** The places of the active groups that serve an area. */
  ghost function Serving(groups: seq<Group>, area: string): set<int> {
    set i | 0 <= i < |groups| && groups[i].active && groups[i].serviceArea == area
  }

  lemma LastServing(groups: seq<Group>, area: string)
    requires groups != []
    ensures var n := |groups| - 1;
            Serving(groups, area)
            == Serving(groups[..n], area) + if groups[n].active && groups[n].serviceArea == area then {n} else {}
    ensures |groups| - 1 !in Serving(groups[..|groups| - 1], area)
  {
  }

  lemma LastActive(groups: seq<Group>, area: string)
    requires groups != []
    ensures var n := |groups| - 1;
            ActiveFor(groups, area)
            == ActiveFor(groups[..n], area)
               + if groups[n].active && groups[n].serviceArea == area then [groups[n]] else []
  {
  }

  lemma {:induction false} ActiveAreServing(groups: seq<Group>, area: string)
    ensures |ActiveFor(groups, area)| == |Serving(groups, area)|
    ensures forall i | Serving(groups, area) == {i} :: 0 <= i < |groups| && ActiveFor(groups, area) == [groups[i]]
  {
    if groups == [] {
      assert Serving(groups, area) == {};
    } else {
      hide ActiveFor, Serving;
      var n := |groups| - 1;
      ActiveAreServing(groups[..n], area);
      LastServing(groups, area);
      LastActive(groups, area);
      forall i | Serving(groups, area) == {i} ensures i < n ==> Serving(groups[..n], area) == {i}
      ensures i >= n ==> i == n && Serving(groups[..n], area) == {} {
        assert i in Serving(groups, area);
      }
    }
  }

  /** What an attorney's mapping gives; an unmapped name every object inherits gives no integer. */
  ghost predicate AttorneyAnswered(r: Resolution, c: Config, attorney: string, area: Option<string>) {
    if attorney in c.attorneyEventTypes
    then r == Resolved(Route("attorney", Contexts.Id(c.attorneyEventTypes[attorney]), Some(attorney), None, area,
                             Some(attorney)))
    else if attorney in INHERITED
    then r == Resolved(Route("attorney", Contexts.NoInteger, Some(attorney), None, area, Some(attorney)))
    else r == Failed(AttorneyUnmapped)
  }

  ghost predicate GroupAnswered(r: Resolution, c: Config, key: string, area: string) {
    if key in c.routingGroupEventTypes
    then r == Resolved(Route("routing-group", Contexts.Id(c.routingGroupEventTypes[key]), None, Some(key), Some(area),
                             None))
    else if key in INHERITED
    then r == Resolved(Route("routing-group", Contexts.NoInteger, None, Some(key), Some(area), None))
    else r == Failed(RoutingGroupUnmapped)
  }

  /**
   * The one routing decision, by how many active groups serve the area: none and several are told apart, one admits
   * only its own providers, and the default is used only where neither an attorney nor an area is named.
   */
  lemma RouteFollowsTheServingGroups(c: Config, attorney: Option<string>, area: Option<string>, groups: seq<Group>)
    requires Sound(c)
    ensures var r := Resolve(c, attorney, area, groups);
            var named := attorney.Some? && attorney.value != ""; var placed := area.Some? && area.value != "";
            && (placed ==>
                  && (r == Failed(NoRoutingGroup) <==> |Serving(groups, area.value)| == 0)
                  && (r == Failed(AmbiguousRoutingGroup) <==> |Serving(groups, area.value)| > 1)
                  && (forall i | Serving(groups, area.value) == {i} ::
                        if !named then GroupAnswered(r, c, groups[i].key, area.value)
                        else if attorney.value in groups[i].providers then AttorneyAnswered(r, c, attorney.value, area)
                        else r == Failed(AttorneyNotPermitted)))
            && (!placed && named ==> AttorneyAnswered(r, c, attorney.value, None))
            && (!placed && !named ==>
                  r == if c.eventTypeId.Some?
                       then Resolved(Route("default", Contexts.Id(c.eventTypeId.value), None, None, None, None))
                       else Failed(NotConfigured))
  {
    hide ActiveFor;
    if area.Some? {
      var serving := Serving(groups, area.value);
      ActiveAreServing(groups, area.value);
      if |serving| == 1 {
        var i :| i in serving;
        assert |serving - {i}| == 0;
        assert serving == {i};
      }
      forall i | serving == {i} ensures |serving| == 1 {}
    }
  }

  /** Which fault of a mapped key the gate names, with the number of groups that share its area. */
  lemma GateNamesTheFault(catalog: Catalog, key: string)
    requires WellKept(catalog.groups)
    ensures AttorneyIssues(catalog, key)
            == if key in catalog.attorneys && catalog.attorneys[key] then []
               else if key in catalog.attorneys then [InactiveAttorney(key)] else [UnknownAttorney(key)]
    ensures (forall g | g in catalog.groups :: g.key != key) ==> GroupIssues(catalog, key) == [UnknownGroup(key)]
    ensures forall g | g in catalog.groups && g.key == key ::
              var sharing := |Serving(catalog.groups, g.serviceArea)|;
              GroupIssues(catalog, key)
              == if !g.active then [InactiveGroup(key)] else if sharing > 1 then [Ambiguous(key, sharing)] else []
  {
    hide WellKept, ActiveFor;
    forall g | g in catalog.groups && g.key == key
      ensures Find(catalog.groups, key) == Some(g)
      ensures |ActiveFor(catalog.groups, g.serviceArea)| == |Serving(catalog.groups, g.serviceArea)|
    {
      KeyNamesOne(catalog.groups, g);
      ActiveAreServing(catalog.groups, g.serviceArea);
    }
  }

  // ── Resolved routes and booking contexts ───────────────────────────────────

  /** A context offered on a route. */
  predicate OfferedOn(o: Contexts.Offer, r: Route) {
    && o.routeKind == r.routeKind && o.attorneyId == r.attorneyId && o.routingGroupKey == r.routingGroupKey
    && o.practiceAreaId == r.practiceAreaId
    && o.eventTypeId == Some(r.eventType)
  }

  /** The name whose event type a request would look up, if it looks one up. */
  function LookedUp(attorney: Option<string>, area: Option<string>, groups: seq<Group>): Option<(Which, string)> {
    if Truthy(attorney) then Some((AttorneyMap, attorney.value))
    else if Truthy(area) && |ActiveFor(groups, area.value)| == 1
      then Some((GroupMap, ActiveFor(groups, area.value)[0].key))
    else None
  }

  predicate InheritedName(c: Config, name: Option<(Which, string)>) {
    name.Some? && name.value.1 in INHERITED
    && name.value.1 !in (if name.value.0.AttorneyMap? then c.attorneyEventTypes else c.routingGroupEventTypes)
  }

  /**
   * A resolved route has a real, positive event type, and every booking context offered on it passes the route-kind and
   * event-type parts of the context check, unless the name looked up is unmapped and inherited. Then, and only then,
   * the check refuses every such context for its event type.
   */
  lemma ResolvedRoutesAreConsistent(c: Config, attorney: Option<string>, area: Option<string>, groups: seq<Group>,
                                    o: Contexts.Offer)
    requires Sound(c) && WellKept(groups)
    requires var r := Resolve(c, attorney, area, groups); r.Resolved? && OfferedOn(o, r.route)
    ensures var problem := Contexts.RouteProblemOf(o);
            if InheritedName(c, LookedUp(attorney, area, groups)) then
              && o.eventTypeId == Some(Contexts.NoInteger)
              && problem.Some? && problem.value in {Contexts.BadEventType, Contexts.BadOfferedSlots}
              && (OfferedSlotsAreSound(o) ==> problem.value == Contexts.BadEventType)
            else
              && o.eventTypeId.Some? && o.eventTypeId.value.Id? && o.eventTypeId.value.id > 0
              && (problem.Some? ==> problem.value in {Contexts.BadOfferedSlots, Contexts.BadDuration})
  {
    var r := Resolve(c, attorney, area, groups).route;
    if Truthy(area) {
      ActiveMembers(groups, area.value);
      var serving := ActiveFor(groups, area.value);
      if |serving| == 1 { assert serving[0] in serving; }
    }
  }

  /** Slots the context check has nothing against. */
  predicate OfferedSlotsAreSound(o: Contexts.Offer) {
    o.offeredSlots != [] && forall s | s in o.offeredSlots :: s.ms.Some?
  }

  /**
   * An attorney whose key is `constructor` and who has no event type is routed all the same, to no event type at all.
   */
  lemma UnmappedConstructorIsRouted(c: Config, groups: seq<Group>)
    requires "constructor" !in c.attorneyEventTypes
    ensures var r := Resolve(c, Some("constructor"), None, groups);
            r.Resolved? && r.route.eventType.NoInteger? && InheritedName(c, LookedUp(Some("constructor"), None, groups))
  {
    assert "constructor" in INHERITED;
  }

  // ── The loops ──────────────────────────────────────────────────────────────

  lemma OneMoreEntry(which: Which, entries: seq<(string, RawValue)>, i: nat)
    requires i < |entries|
    ensures var (key, id) := entries[i]; var trimmed := ConfigValidation.Trim(key);
            && MapValue(entries[..i + 1])
                 == (if trimmed == "" || !SafeId(id) then MapValue(entries[..i])
                     else Assign(MapValue(entries[..i]), trimmed, id.n))
            && MapIssues(which, entries[..i + 1])
               == MapIssues(which, entries[..i])
                 + (if trimmed == "" then [BlankKey(which)] else if !SafeId(id) then [BadId(which, key)] else [])
  {
    hide ConfigValidation.Trim, Assign;
    assert entries[..i + 1][..i] == entries[..i];
  }

  method EventTypeMap(which: Which, raw: RawMap) returns (m: map<string, int>, issues: seq<Issue>)
    ensures m == RawMapValue(raw) && issues == RawMapIssues(which, raw)
  {
    hide MapValue, MapIssues, Assign, ConfigValidation.Trim;
    m, issues := map[], [];
    if raw.NotAMap? { issues := [MustMap(which)]; }
    if !raw.Entries? { return; }
    var entries := raw.entries;
    NoEntries(which);
    var i := 0;
    while i < |entries|
      invariant 0 <= i <= |entries|
      invariant m == MapValue(entries[..i]) && issues == MapIssues(which, entries[..i])
    {
      OneMoreEntry(which, entries, i);
      var (key, id) := entries[i];
      var trimmed := ConfigValidation.Trim(key);
      if trimmed == "" {
        issues := issues + [BlankKey(which)];
      } else if !SafeId(id) {
        issues := issues + [BadId(which, key)];
      } else {
        m := Assign(m, trimmed, id.n);
      }
      i := i + 1;
    }
    assert entries[..|entries|] == entries;
  }

  lemma NoEntries(which: Which)
    ensures MapValue([]) == map[] && MapIssues(which, []) == []
  {
  }

  /** The strict check: no issue exactly when the configuration passes the gate. */
  method Validate(c: Config, catalog: Catalog) returns (issues: seq<Issue>)
    ensures issues == [] <==> PassesGate(c, catalog)
    ensures forall x :: x in issues <==>
              (exists key :: key in c.attorneyEventTypes && x in AttorneyIssues(catalog, key))
              || (exists key :: key in c.routingGroupEventTypes && x in GroupIssues(catalog, key))
  {
    hide AttorneyIssues, GroupIssues;
    issues := [];
    var left := c.attorneyEventTypes.Keys;
    while left != {}
      invariant left <= c.attorneyEventTypes.Keys
      invariant issues == []
                <==> forall key | key in c.attorneyEventTypes && key !in left :: AttorneyIssues(catalog, key) == []
      invariant forall x :: x in issues
                  <==> exists key :: key in c.attorneyEventTypes && key !in left && x in AttorneyIssues(catalog, key)
      decreases left
    {
      var key :| key in left;
      left := left - {key};
      issues := issues + AttorneyIssues(catalog, key);
    }
    ghost var first := issues;
    left := c.routingGroupEventTypes.Keys;
    while left != {}
      invariant left <= c.routingGroupEventTypes.Keys
      invariant issues == []
                <==> first == [] && forall key | key in c.routingGroupEventTypes && key !in left ::
                    GroupIssues(catalog, key) == []
      invariant forall x :: x in issues <==>
                  x in first || exists key ::
                    key in c.routingGroupEventTypes && key !in left && x in GroupIssues(catalog, key)
      decreases left
    {
      var key :| key in left;
      left := left - {key};
      issues := issues + GroupIssues(catalog, key);
    }
  }
}
