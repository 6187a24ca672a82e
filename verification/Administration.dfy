/**
 * Administered configuration changes: an optimistic version check, the change and its audit row in one transaction,
 * for the areas that write settings, routing groups and locations.
 *
 * The first part says what a request comes to, all or nothing. The service at the end gets there as the server does:
 * it writes in place, row by row, may find out half way that it cannot, and relies on the transaction's savepoints.
 * A domain's own validator is not modelled: a request carries its verdict, the canonical document or none.
 */
module Administration {
  import opened Options
  import opened Sequences
  import ConfigValidation
  import opened Transactions = ConfigTransactions

  // ── Configuration ──────────────────────────────────────────────────────────

  datatype Group = Group(name: string, serviceArea: string, active: bool, providers: seq<string>, updatedAt: int)

  type Hour = ConfigValidation.Hour

  /** A location's hours by day and opening time, which the table keeps unique. */
  type Hours = map<(int, string), string>

  datatype Location = Location(name: string, active: bool, officeHours: Hours, updatedAt: int)

  /** One organization's configuration, as the Configuration Store presents it. Settings are JSON documents. */
  datatype Config = Config(
    settings: map<(string, string), string>, groups: map<string, Group>, locations: map<string, Location>,
    serviceAreas: set<string>, providers: set<string>)

  // ── Requests ───────────────────────────────────────────────────────────────

  /**
   * A field of a patch: omitted, null, or a value. Null is dropped where a field is optional, invalid where it is not.
   */
  datatype Field<T> = Omitted | Nulled | Given(value: T)

  datatype GroupPatch = GroupPatch(name: Option<string>, serviceArea: Option<string>, active: Field<bool>)

  datatype LocationPatch = LocationPatch(name: Option<string>, active: Field<bool>)

  datatype NewGroup = NewGroup(key: string, name: string, serviceArea: string, active: bool, members: seq<string>)

  /** None where the payload's own validation fails. */
  datatype Request =
    | SetDomain(namespace: string, key: string, normalized: Option<string>)
    | CreateGroup(given: Option<NewGroup>)
    | UpdateGroup(groupKey: string, patch: Option<GroupPatch>)
    | Reorder(groupKey: string, attorneys: seq<string>)
    | UpdateLocation(locationKey: string, fields: Option<LocationPatch>)
    | SetHours(locationKey: string, hours: Option<seq<Hour>>)

  datatype Snapshot =
    | NoDocument | Document(text: string) | OfGroup(group: Group) | OfLocation(location: Location)
    | OfHours(hours: Hours)

  datatype Context = Context(actor: string, organizationKey: string, expectedVersion: Option<nat>)

  datatype AuditRow = AuditRow(
    organizationKey: string, entity: string, action: string, actor: string, version: nat,
    before: Option<Snapshot>, after: Snapshot, at: int)

  datatype Error = Conflict | Invalid | Unknown(kind: string) | Duplicate | UniqueViolation | AuditFailed

  datatype Reply = Done(result: Snapshot, version: nat) | Failed(error: Error)

  datatype Change = Changed(config: Config, result: Snapshot) | Threw(error: Error)

  // ── Entities ───────────────────────────────────────────────────────────────

  function SettingEntity(namespace: string, key: string): string {
    "setting:" + namespace + "/" + key
  }

  function GroupEntity(key: string): string {
    "routing-group:" + key
  }

  function LocationEntity(key: string): string {
    "location:" + key
  }

  function HoursEntity(key: string): string {
    "location:" + key + ":hours"
  }

  function EntityOf(r: Request): string {
    match r
    case SetDomain(namespace, key, _) => SettingEntity(namespace, key)
    case CreateGroup(_) => "routing-groups"
    case UpdateGroup(key, _) => GroupEntity(key)
    case Reorder(key, _) => GroupEntity(key)
    case UpdateLocation(key, _) => LocationEntity(key)
    case SetHours(key, _) => HoursEntity(key)
  }

  function ActionOf(r: Request): string {
    match r
    case CreateGroup(_) => "create"
    case Reorder(_, _) => "reorder"
    case _ => "update"
  }

  /** A namespace is kebab-case. */
  predicate Registered(r: Request) {
    r.SetDomain? ==> '/' !in r.namespace
  }

  lemma SettingNamesDiffer(n: string, k: string, m: string, j: string)
    requires '/' !in n && '/' !in m && SettingEntity(n, k) == SettingEntity(m, j)
    ensures n == m && k == j
  {
    var s := n + "/" + k;
    assert SettingEntity(n, k)[8..] == s && SettingEntity(m, j)[8..] == m + "/" + j;
    assert s[|n|] == '/' && s[..|n|] == n && (m + "/" + j)[|m|] == '/' && (m + "/" + j)[..|m|] == m;
    forall i | 0 <= i < |m| ensures s[i] != '/' {
      assert (m + "/" + j)[i] == m[i] && m[i] in m;
    }
    forall i | 0 <= i < |n| ensures s[i] != '/' {
      assert s[i] == n[i] && n[i] in n;
    }
    assert s[|n| + 1..] == k && (m + "/" + j)[|m| + 1..] == j;
  }

  lemma GroupNamesDiffer(k: string, j: string)
    requires GroupEntity(k) == GroupEntity(j)
    ensures k == j
  {
    assert GroupEntity(k)[14..] == k && GroupEntity(j)[14..] == j;
  }

  /** A location's own entity is not its hours', nor another location's, as long as keys hold no colon. */
  lemma LocationNamesDiffer(k: string, j: string)
    requires ':' !in k
    ensures LocationEntity(k) == LocationEntity(j) ==> k == j
    ensures LocationEntity(k) != HoursEntity(j)
    ensures HoursEntity(k) == HoursEntity(j) ==> k == j
  {
    assert LocationEntity(k)[9..] == k && LocationEntity(j)[9..] == j && HoursEntity(j)[9..] == j + ":hours";
    assert (j + ":hours")[|j|] == ':';
    assert HoursEntity(k)[9..] == k + ":hours" && (k + ":hours")[..|k|] == k && (j + ":hours")[..|j|] == j;
  }

  /** The audited entity's first letters tell the area. */
  lemma EntityLetters(r: Request)
    ensures EntityOf(r)[0] == 's' <==> r.SetDomain?
    ensures |EntityOf(r)| > 13 && EntityOf(r)[0] == 'r' && EntityOf(r)[13] == ':' <==> r.UpdateGroup? || r.Reorder?
    ensures EntityOf(r)[0] == 'l' <==> r.UpdateLocation? || r.SetHours?
  {
  }

  // ── Changes ────────────────────────────────────────────────────────────────

  predicate AllKnown(keys: seq<string>, known: set<string>) {
    forall k | k in keys :: k in known
  }

  /** One by one; none where a day and opening time repeats. */
  function HoursTable(hours: seq<Hour>): Option<Hours> {
    if hours == [] then Some(map[])
    else
      var before := HoursTable(hours[..|hours| - 1]);
      var x := hours[|hours| - 1];
      if before.None? || (x.dayOfWeek, x.opens) in before.value then None
      else Some(before.value[(x.dayOfWeek, x.opens) := x.closes])
  }

  /**
   * What the request's area reads before administering: absent for a create, an error when there is nothing to change.
   */
  function BeforeOf(c: Config, r: Request): (Option<Snapshot>, Option<Error>) {
    match r
    case SetDomain(namespace, key, _) =>
      (Some(if (namespace, key) in c.settings then Document(c.settings[(namespace, key)]) else NoDocument), None)
    case CreateGroup(_) => (None, None)
    case UpdateGroup(key, _) => BeforeGroup(c, key)
    case Reorder(key, _) => BeforeGroup(c, key)
    case UpdateLocation(key, _) =>
      if key in c.locations then (Some(OfLocation(c.locations[key])), None) else (None, Some(Unknown("location")))
    case SetHours(key, _) =>
      if key in c.locations then (Some(OfHours(c.locations[key].officeHours)), None)
      else (None, Some(Unknown("location")))
  }

  function BeforeGroup(c: Config, key: string): (Option<Snapshot>, Option<Error>) {
    if key in c.groups then (Some(OfGroup(c.groups[key])), None) else (None, Some(Unknown("routing_group")))
  }

  function Taken<T>(was: T, given: Option<T>): T {
    if given.Some? then given.value else was
  }

  function Merged<T>(was: T, given: Field<T>): T {
    if given.Given? then given.value else was
  }

  /** A patch must name a field, though a null one will do. */
  predicate NamesAField(r: Request) {
    match r
    case UpdateGroup(_, Some(p)) => p.name.Some? || p.serviceArea.Some? || !p.active.Omitted?
    case UpdateLocation(_, Some(p)) => p.name.Some? || !p.active.Omitted?
    case _ => true
  }

  /** What the change comes to: the whole new configuration, or the error it throws. */
  function ChangeOf(c: Config, r: Request, now: int): Change {
    match r
    case SetDomain(namespace, key, normalized) =>
      if normalized.None? then Threw(Invalid)
      else Changed(c.(settings := c.settings[(namespace, key) := normalized.value]), Document(normalized.value))
    case CreateGroup(given) =>
      if given.None? then Threw(Invalid)
      else if given.value.serviceArea !in c.serviceAreas then Threw(Unknown("service_area"))
      else if given.value.key in c.groups then Threw(Duplicate)
      else if !AllKnown(given.value.members, c.providers) then Threw(Unknown("provider"))
      else if !Distinct(given.value.members) then Threw(Duplicate)
      else
        var x := given.value;
        var g := Group(x.name, x.serviceArea, x.active, x.members, now);
        Changed(c.(groups := c.groups[x.key := g]), OfGroup(g))
    case UpdateGroup(key, patch) =>
      if key !in c.groups then Threw(Unknown("routing_group"))
      else if patch.None? || !NamesAField(r) then Threw(Invalid)
      else if patch.value.serviceArea.Some? && patch.value.serviceArea.value !in c.serviceAreas
        then Threw(Unknown("service_area"))
      else
        var was := c.groups[key];
        var g := was.(name := Taken(was.name, patch.value.name),
                      serviceArea := Taken(was.serviceArea, patch.value.serviceArea),
                      active := Merged(was.active, patch.value.active), updatedAt := now);
        Changed(c.(groups := c.groups[key := g]), OfGroup(g))
    case Reorder(key, attorneys) =>
      if key !in c.groups then Threw(Unknown("routing_group"))
      else if !AllKnown(attorneys, c.providers) then Threw(Unknown("provider"))
      else if !Distinct(attorneys) then Threw(UniqueViolation)
      else
        var g := c.groups[key].(providers := attorneys);
        Changed(c.(groups := c.groups[key := g]), OfGroup(g))
    case UpdateLocation(key, fields) =>
      if key !in c.locations then Threw(Unknown("location"))
      else if fields.None? || !NamesAField(r) then Threw(Invalid)
      else
        var was := c.locations[key];
        var l := was.(name := Taken(was.name, fields.value.name), active := Merged(was.active, fields.value.active),
                      updatedAt := now);
        Changed(c.(locations := c.locations[key := l]), OfLocation(l))
    case SetHours(key, hours) =>
      if key !in c.locations then Threw(Unknown("location"))
      else if hours.None? then Threw(Invalid)
      else if HoursTable(hours.value).None? then Threw(UniqueViolation)
      else
        var l := c.locations[key].(officeHours := HoursTable(hours.value).value);
        Changed(c.(locations := c.locations[key := l]), OfHours(l.officeHours))
  }

  // ── Administering ──────────────────────────────────────────────────────────

  datatype Console = Console(organizations: map<string, Config>, audit: seq<AuditRow>)

  predicate Concerns(row: AuditRow, organizationKey: string, entity: string) {
    row.organizationKey == organizationKey && row.entity == entity
  }

  /** `COALESCE(MAX(version), 0)` over the entity's audit rows. */
  function CurrentVersion(audit: seq<AuditRow>, organizationKey: string, entity: string): nat {
    if audit == [] then 0
    else
      var rest := CurrentVersion(audit[..|audit| - 1], organizationKey, entity);
      var row := audit[|audit| - 1];
      if Concerns(row, organizationKey, entity) && row.version > rest then row.version else rest
  }

  /** An attorney order names at least one attorney, none of them blank. */
  predicate WellShaped(r: Request) {
    r.Reorder? ==> r.attorneys != [] && forall a | a in r.attorneys :: ConfigValidation.Trim(a) != ""
  }

  /** The transaction's outcome; `writable` is whether the audit table takes the row. */
  function Transacted(s: Console, ctx: Context, r: Request, before: Option<Snapshot>, now: int,
                      writable: bool): (Console, Reply) {
    var org := ctx.organizationKey;
    var version := CurrentVersion(s.audit, org, EntityOf(r));
    if ctx.expectedVersion.Some? && ctx.expectedVersion.value != version then (s, Failed(Conflict))
    else if org !in s.organizations then (s, Failed(Unknown("organization")))
    else
      match ChangeOf(s.organizations[org], r, now)
      case Threw(error) => (s, Failed(error))
      case Changed(config, result) =>
        if !writable then (s, Failed(AuditFailed))
        else
          var row := AuditRow(org, EntityOf(r), ActionOf(r), ctx.actor, version + 1, before, result, now);
          (Console(s.organizations[org := config], s.audit + [row]), Done(result, version + 1))
  }

  function Administer(s: Console, ctx: Context, r: Request, now: int, writable: bool): (Console, Reply) {
    var org := ctx.organizationKey;
    if !WellShaped(r) || (r.SetDomain? && r.normalized.None?) then (s, Failed(Invalid))
    else if org !in s.organizations && !r.SetDomain? && !r.CreateGroup? then (s, Failed(Unknown("organization")))
    else
      var (before, missing) := if org in s.organizations then BeforeOf(s.organizations[org], r)
                               else (if r.SetDomain? then Some(NoDocument) else None, None);
      if missing.Some? then (s, Failed(missing.value))
      else Transacted(s, ctx, r, before, now, writable)
  }

  /**
   * Anything else that writes configuration: another area, a seed, an import. It leaves these entities' audit alone.
   */
  datatype Step =
    | Request(ctx: Context, request: Request, now: int, writable: bool)
    | Bypass(organizations: map<string, Config>)

  function Apply(s: Console, step: Step): Console {
    match step
    case Request(ctx, r, now, writable) => Administer(s, ctx, r, now, writable).0
    case Bypass(organizations) => s.(organizations := organizations)
  }

  function Run(s: Console, steps: seq<Step>): Console
    decreases |steps|
  {
    if steps == [] then s else Run(Apply(s, steps[0]), steps[1..])
  }

  /** A success adds one audit row and changes one organization. */
  lemma SuccessAddsOneRow(s: Console, ctx: Context, r: Request, now: int, writable: bool)
    ensures var (t, reply) := Administer(s, ctx, r, now, writable);
            && (reply.Failed? ==> t == s)
            && (reply.Done? ==>
                  && ctx.organizationKey in s.organizations && t.organizations.Keys == s.organizations.Keys
                  && |t.audit| == |s.audit| + 1 && s.audit <= t.audit
                  && t.audit[|s.audit|].organizationKey == ctx.organizationKey
                  && t.audit[|s.audit|].entity == EntityOf(r)
                  && t.audit[|s.audit|].version == CurrentVersion(s.audit, ctx.organizationKey, EntityOf(r)) + 1
                       == reply.version
                  && t.audit[|s.audit|].after == reply.result
                  && forall org | org in s.organizations && org != ctx.organizationKey ::
                       t.organizations[org] == s.organizations[org])
  {
    hide BeforeOf, ChangeOf, CurrentVersion, EntityOf, WellShaped;
  }

  // ── Versions ───────────────────────────────────────────────────────────────

  function CountRows(audit: seq<AuditRow>, organizationKey: string, entity: string): nat {
    if audit == [] then 0
    else
      CountRows(audit[..|audit| - 1], organizationKey, entity)
        + if Concerns(audit[|audit| - 1], organizationKey, entity) then 1 else 0
  }

  /** Each row's version is one more than the number of earlier rows of its entity: 1, 2, 3 and so on. */
  ghost predicate Numbered(audit: seq<AuditRow>) {
    forall i | 0 <= i < |audit| ::
      audit[i].version == CountRows(audit[..i], audit[i].organizationKey, audit[i].entity) + 1
  }

  lemma NumberedPrefix(audit: seq<AuditRow>)
    requires Numbered(audit) && audit != []
    ensures Numbered(audit[..|audit| - 1])
  {
    var n := |audit| - 1;
    forall i | 0 <= i < n ensures audit[..n][..i] == audit[..i] {}
  }

  lemma {:induction false} VersionIsCount(audit: seq<AuditRow>, org: string, entity: string)
    requires Numbered(audit)
    ensures CurrentVersion(audit, org, entity) == CountRows(audit, org, entity)
  {
    if audit != [] {
      NumberedPrefix(audit);
      VersionIsCount(audit[..|audit| - 1], org, entity);
    }
  }

  lemma NumberedNext(audit: seq<AuditRow>, row: AuditRow)
    requires Numbered(audit) && row.version == CurrentVersion(audit, row.organizationKey, row.entity) + 1
    ensures Numbered(audit + [row])
  {
    VersionIsCount(audit, row.organizationKey, row.entity);
    var longer := audit + [row];
    forall i | 0 <= i < |longer|
      ensures longer[i].version == CountRows(longer[..i], longer[i].organizationKey, longer[i].entity) + 1
    {
      assert longer[..i] == audit[..i];
      if i == |audit| { assert audit[..i] == audit; }
    }
  }

  lemma StepNumbers(s: Console, step: Step)
    requires Numbered(s.audit)
    ensures Numbered(Apply(s, step).audit) && s.audit <= Apply(s, step).audit
  {
    hide Numbered, CurrentVersion, Administer, EntityOf;
    if step.Request? {
      SuccessAddsOneRow(s, step.ctx, step.request, step.now, step.writable);
      var t := Apply(s, step);
      if |t.audit| > |s.audit| {
        NumberedNext(s.audit, t.audit[|s.audit|]);
        assert t.audit == s.audit + [t.audit[|s.audit|]];
      }
    }
  }

  /** In every run, bypassing writes included, an entity's audit versions are exactly 1 to n. */
  lemma {:induction false} VersionsAreExact(s: Console, steps: seq<Step>)
    requires Numbered(s.audit)
    ensures Numbered(Run(s, steps).audit) && s.audit <= Run(s, steps).audit
    decreases |steps|
  {
    hide Numbered, Apply;
    if steps != [] {
      StepNumbers(s, steps[0]);
      VersionsAreExact(Apply(s, steps[0]), steps[1..]);
    }
  }

  lemma {:induction false} CountGrows(audit: seq<AuditRow>, more: seq<AuditRow>, org: string, entity: string)
    requires audit <= more
    ensures CountRows(audit, org, entity) <= CountRows(more, org, entity)
    ensures CountRows(audit, org, entity) == CountRows(more, org, entity) <==>
              forall i | |audit| <= i < |more| :: !Concerns(more[i], org, entity)
    decreases |more|
  {
    if |more| == |audit| {
      assert more == audit;
    } else {
      var n := |more| - 1;
      CountGrows(audit, more[..n], org, entity);
      assert more[..n][..|audit|] == audit;
      forall i | |audit| <= i < n ensures more[..n][i] == more[i] {}
    }
  }

  /** A writer naming the version it read conflicts exactly when another write to the entity was audited since. */
  lemma ExpectedVersionGuards(s: Console, steps: seq<Step>, ctx: Context, r: Request, now: int, writable: bool)
    requires Numbered(s.audit)
    requires ctx.expectedVersion == Some(CurrentVersion(s.audit, ctx.organizationKey, EntityOf(r)))
    ensures var t := Run(s, steps);
            var quiet := forall i | |s.audit| <= i < |t.audit| ::
              !Concerns(t.audit[i], ctx.organizationKey, EntityOf(r));
            && (Administer(t, ctx, r, now, writable).1.Done? ==> quiet)
            && (Administer(t, ctx.(expectedVersion := None), r, now, writable).1.Done? ==>
                  (Administer(t, ctx, r, now, writable).1.Done? <==> quiet))
  {
    hide Numbered, CurrentVersion, BeforeOf, ChangeOf, EntityOf, CountRows, WellShaped;
    var t := Run(s, steps);
    VersionsAreExact(s, steps);
    VersionIsCount(s.audit, ctx.organizationKey, EntityOf(r));
    VersionIsCount(t.audit, ctx.organizationKey, EntityOf(r));
    CountGrows(s.audit, t.audit, ctx.organizationKey, EntityOf(r));
  }

  // ── The chain of snapshots ─────────────────────────────────────────────────

  /** The entities whose history is looked at: settings and routing groups, or locations and their hours. */
  datatype Kind = Documents | Places

  predicate Chainable(kind: Kind, entity: string) {
    match kind
    case Documents => (|entity| > 0 && entity[0] == 's') || (|entity| > 13 && entity[0] == 'r' && entity[13] == ':')
    case Places => |entity| > 0 && entity[0] == 'l'
  }

  /** The same, but for the hours in two snapshots of a location. */
  predicate Alike(a: Snapshot, b: Snapshot) {
    if a.OfLocation? && b.OfLocation?
    then a.location.(officeHours := map[]) == b.location.(officeHours := map[])
    else a == b
  }

  /** Nothing of the entity was audited from `from` on. */
  ghost predicate Silent(audit: seq<AuditRow>, from: nat, to: nat, org: string, entity: string)
    requires to <= |audit|
  {
    forall j | from <= j < to :: !Concerns(audit[j], org, entity)
  }

  /** Location keys are kebab-case. */
  predicate PlainKeys(organizations: map<string, Config>) {
    forall org | org in organizations :: forall k | k in organizations[org].locations :: ':' !in k
  }

  ghost predicate HoldsDocument(c: Config, entity: string, value: Snapshot) {
    && (forall n: string, k: string | '/' !in n && entity == SettingEntity(n, k) ::
          (n, k) in c.settings && value == Document(c.settings[(n, k)]))
    && (forall k | entity == GroupEntity(k) :: k in c.groups && value == OfGroup(c.groups[k]))
  }

  ghost predicate HoldsPlace(c: Config, entity: string, value: Snapshot) {
    && (forall k | ':' !in k && entity == LocationEntity(k) ::
          k in c.locations && value.OfLocation? && Alike(value, OfLocation(c.locations[k])))
    && (forall k | ':' !in k && entity == HoursEntity(k) ::
          k in c.locations && value == OfHours(c.locations[k].officeHours))
  }

  /** What is stored under an entity's name now. */
  ghost predicate Holds(kind: Kind, organizations: map<string, Config>, org: string, entity: string, value: Snapshot) {
    && org in organizations
    && match kind
       case Documents => HoldsDocument(organizations[org], entity, value)
       case Places => HoldsPlace(organizations[org], entity, value)
  }

  /** Two rows of one entity with none between them. */
  ghost predicate Consecutive(audit: seq<AuditRow>, i: nat, j: nat) {
    && i < j < |audit| && Concerns(audit[j], audit[i].organizationKey, audit[i].entity)
    && Silent(audit, i + 1, j, audit[i].organizationKey, audit[i].entity)
  }

  ghost predicate Last(audit: seq<AuditRow>, i: nat) {
    i < |audit| && Silent(audit, i + 1, |audit|, audit[i].organizationKey, audit[i].entity)
  }

  predicate Follows(kind: Kind, before: Option<Snapshot>, after: Snapshot) {
    match kind
    case Documents => before == Some(after)
    case Places => before.Some? && Alike(before.value, after)
  }

  /** A location's rows show the location. */
  ghost predicate Shaped(kind: Kind, row: AuditRow) {
    kind.Places? ==> forall k | ':' !in k && row.entity == LocationEntity(k) :: row.after.OfLocation?
  }

  /** Each `before` is the previous `after`, and the last `after` is what is stored; a location's but for its hours. */
  ghost predicate Chained(kind: Kind, s: Console) {
    && PlainKeys(s.organizations)
    && (forall i | 0 <= i < |s.audit| :: Shaped(kind, s.audit[i]))
    && (forall i: nat, j: nat | Consecutive(s.audit, i, j) && Chainable(kind, s.audit[i].entity) ::
          Follows(kind, s.audit[j].before, s.audit[i].after))
    && (forall i: nat | Last(s.audit, i) && Chainable(kind, s.audit[i].entity) ::
          Holds(kind, s.organizations, s.audit[i].organizationKey, s.audit[i].entity, s.audit[i].after))
  }

  lemma Named(r: Request)
    ensures r.SetDomain? ==> EntityOf(r) == SettingEntity(r.namespace, r.key)
    ensures r.UpdateGroup? || r.Reorder? ==> EntityOf(r) == GroupEntity(r.groupKey)
    ensures r.UpdateLocation? ==> EntityOf(r) == LocationEntity(r.locationKey)
    ensures r.SetHours? ==> EntityOf(r) == HoursEntity(r.locationKey)
  {
  }

  /** Entities of different areas never share a name. */
  lemma AreasDiffer(n: string, k: string, g: string, l: string)
    ensures SettingEntity(n, k)[0] == 's' && GroupEntity(g)[0] == 'r' && LocationEntity(l)[0] == 'l'
            && HoursEntity(l)[0] == 'l'
  {
  }

  lemma DocumentNames(r: Request)
    requires Registered(r) && (r.SetDomain? || r.UpdateGroup? || r.Reorder?)
    ensures forall n: string, k: string | '/' !in n && EntityOf(r) == SettingEntity(n, k) ::
              r.SetDomain? && n == r.namespace && k == r.key
    ensures forall k | EntityOf(r) == GroupEntity(k) :: (r.UpdateGroup? || r.Reorder?) && k == r.groupKey
  {
    hide SettingEntity, GroupEntity, LocationEntity, HoursEntity;
    Named(r);
    forall n: string, k: string | '/' !in n && EntityOf(r) == SettingEntity(n, k)
      ensures r.SetDomain? && n == r.namespace && k == r.key
    {
      AreasDiffer(n, k, if r.SetDomain? then "" else r.groupKey, "");
      if r.SetDomain? { SettingNamesDiffer(n, k, r.namespace, r.key); }
    }
    forall k | EntityOf(r) == GroupEntity(k) ensures (r.UpdateGroup? || r.Reorder?) && k == r.groupKey {
      if r.SetDomain? { AreasDiffer(r.namespace, r.key, k, ""); } else { GroupNamesDiffer(k, r.groupKey); }
    }
  }

  lemma PlaceNames(r: Request)
    requires (r.UpdateLocation? || r.SetHours?) && ':' !in r.locationKey
    ensures forall k | ':' !in k && EntityOf(r) == LocationEntity(k) :: r.UpdateLocation? && k == r.locationKey
    ensures forall k | ':' !in k && EntityOf(r) == HoursEntity(k) :: r.SetHours? && k == r.locationKey
  {
    hide SettingEntity, GroupEntity, LocationEntity, HoursEntity;
    Named(r);
    forall k | ':' !in k
      ensures EntityOf(r) == LocationEntity(k) ==> r.UpdateLocation? && k == r.locationKey
      ensures EntityOf(r) == HoursEntity(k) ==> r.SetHours? && k == r.locationKey
    {
      LocationNamesDiffer(k, r.locationKey);
      LocationNamesDiffer(r.locationKey, k);
    }
  }

  /** A document row: its `before` is what was held, and its `after` is what is held now. */
  lemma DocumentRow(c: Config, d: Config, r: Request, now: int, value: Snapshot)
    requires Registered(r) && (r.SetDomain? || r.UpdateGroup? || r.Reorder?)
    requires BeforeOf(c, r).1.None? && ChangeOf(c, r, now).Changed? && ChangeOf(c, r, now).config == d
    ensures HoldsDocument(c, EntityOf(r), value) ==> BeforeOf(c, r).0 == Some(value)
    ensures HoldsDocument(d, EntityOf(r), ChangeOf(c, r, now).result)
  {
    hide SettingEntity, GroupEntity, AllKnown, EntityOf;
    DocumentNames(r);
    Named(r);
  }

  lemma PlaceRow(c: Config, d: Config, r: Request, now: int, value: Snapshot)
    requires (r.UpdateLocation? || r.SetHours?) && ':' !in r.locationKey
    requires BeforeOf(c, r).1.None? && ChangeOf(c, r, now).Changed? && ChangeOf(c, r, now).config == d
    ensures HoldsPlace(c, EntityOf(r), value) ==> Follows(Places, BeforeOf(c, r).0, value)
    ensures HoldsPlace(d, EntityOf(r), ChangeOf(c, r, now).result)
  {
    hide LocationEntity, HoursEntity, HoursTable, EntityOf;
    PlaceNames(r);
    Named(r);
  }

  /** The new row's `before` is what was held, and its `after` is what is held now. */
  lemma RowTellsTheChange(kind: Kind, s: Console, ctx: Context, r: Request, now: int, writable: bool, value: Snapshot)
    requires Administer(s, ctx, r, now, writable).1.Done? && Registered(r) && PlainKeys(s.organizations)
    requires Chainable(kind, EntityOf(r))
    ensures var t := Administer(s, ctx, r, now, writable).0; var row := t.audit[|s.audit|];
            && (Holds(kind, s.organizations, ctx.organizationKey, EntityOf(r), value) ==>
                  Follows(kind, row.before, value))
            && Holds(kind, t.organizations, ctx.organizationKey, EntityOf(r), row.after) && Shaped(kind, row)
  {
    hide CurrentVersion, WellShaped, EntityOf, BeforeOf, ChangeOf, HoldsDocument, HoldsPlace;
    EntityLetters(r);
    var t := Administer(s, ctx, r, now, writable).0;
    var c, d := s.organizations[ctx.organizationKey], t.organizations[ctx.organizationKey];
    if kind.Documents? {
      DocumentRow(c, d, r, now, value);
    } else {
      FoundPlace(c, r);
      PlaceRow(c, d, r, now, value);
      HeldIsShaped(d, t.audit[|s.audit|]);
    }
  }

  lemma HeldIsShaped(c: Config, row: AuditRow)
    requires HoldsPlace(c, row.entity, row.after)
    ensures Shaped(Places, row)
  {
    hide LocationEntity, HoursEntity;
  }

  lemma FoundPlace(c: Config, r: Request)
    requires (r.UpdateLocation? || r.SetHours?) && BeforeOf(c, r).1.None?
    ensures r.locationKey in c.locations
  {
  }

  /**
   * A change leaves what is held under every other entity alone, but for the hours a location's snapshot leaves out.
   */
  lemma OtherEntities(kind: Kind, c: Config, r: Request, now: int, entity: string, value: Snapshot)
    requires ChangeOf(c, r, now).Changed? && Registered(r) && entity != EntityOf(r)
    requires if kind.Documents? then HoldsDocument(c, entity, value) else HoldsPlace(c, entity, value)
    ensures var d := ChangeOf(c, r, now).config;
            if kind.Documents? then HoldsDocument(d, entity, value) else HoldsPlace(d, entity, value)
  {
    hide SettingEntity, GroupEntity, LocationEntity, HoursEntity, AllKnown, HoursTable;
    Named(r);
  }

  lemma PlainKeysStay(s: Console, ctx: Context, r: Request, now: int, writable: bool)
    requires PlainKeys(s.organizations)
    ensures PlainKeys(Administer(s, ctx, r, now, writable).0.organizations)
  {
    hide CurrentVersion, WellShaped, EntityOf, BeforeOf, AllKnown, HoursTable;
  }

  lemma OthersAreHeld(kind: Kind, s: Console, ctx: Context, r: Request, now: int, writable: bool, org: string,
                      entity: string, value: Snapshot)
    requires Administer(s, ctx, r, now, writable).1.Done? && Registered(r)
    requires Holds(kind, s.organizations, org, entity, value)
    requires !(org == ctx.organizationKey && entity == EntityOf(r))
    ensures Holds(kind, Administer(s, ctx, r, now, writable).0.organizations, org, entity, value)
  {
    hide CurrentVersion, WellShaped, EntityOf, BeforeOf, ChangeOf, HoldsDocument, HoldsPlace;
    if org == ctx.organizationKey { OtherEntities(kind, s.organizations[org], r, now, entity, value); }
  }

  lemma StepChains(kind: Kind, s: Console, ctx: Context, r: Request, now: int, writable: bool)
    requires Chained(kind, s) && Registered(r)
    ensures Chained(kind, Administer(s, ctx, r, now, writable).0)
  {
    hide Administer, Holds, Chainable, EntityOf, Follows, PlainKeys, Shaped;
    var (t, reply) := Administer(s, ctx, r, now, writable);
    SuccessAddsOneRow(s, ctx, r, now, writable);
    PlainKeysStay(s, ctx, r, now, writable);
    if reply.Done? {
      var n := |s.audit|;
      forall i: nat | Consecutive(t.audit, i, n) && Chainable(kind, t.audit[i].entity)
        ensures Follows(kind, t.audit[n].before, t.audit[i].after)
      {
        LastHolds(kind, s, t, i);
        RowTellsTheChange(kind, s, ctx, r, now, writable, t.audit[i].after);
      }
      forall i: nat | Last(t.audit, i) && Chainable(kind, t.audit[i].entity)
        ensures Holds(kind, t.organizations, t.audit[i].organizationKey, t.audit[i].entity, t.audit[i].after)
      {
        if i == n {
          RowTellsTheChange(kind, s, ctx, r, now, writable, t.audit[n].after);
        } else {
          assert !Concerns(t.audit[n], t.audit[i].organizationKey, t.audit[i].entity);
          LastHolds(kind, s, t, i);
          OthersAreHeld(kind, s, ctx, r, now, writable, t.audit[i].organizationKey, t.audit[i].entity,
                        t.audit[i].after);
        }
      }
      NewIsShaped(kind, s, ctx, r, now, writable);
      Extended(kind, s, t);
    }
  }

  lemma NewIsShaped(kind: Kind, s: Console, ctx: Context, r: Request, now: int, writable: bool)
    requires Administer(s, ctx, r, now, writable).1.Done? && Registered(r) && PlainKeys(s.organizations)
    ensures var t := Administer(s, ctx, r, now, writable).0;
            |t.audit| == |s.audit| + 1 && Shaped(kind, t.audit[|s.audit|])
  {
    hide Administer, Holds, EntityOf, Follows, PlainKeys;
    SuccessAddsOneRow(s, ctx, r, now, writable);
    var t := Administer(s, ctx, r, now, writable).0;
    if Chainable(kind, EntityOf(r)) {
      RowTellsTheChange(kind, s, ctx, r, now, writable, NoDocument);
    }
  }

  lemma LastHolds(kind: Kind, s: Console, t: Console, i: nat)
    requires Chained(kind, s) && s.audit <= t.audit && i < |s.audit| && Chainable(kind, t.audit[i].entity)
    requires Silent(t.audit, i + 1, |s.audit|, t.audit[i].organizationKey, t.audit[i].entity)
    ensures Holds(kind, s.organizations, t.audit[i].organizationKey, t.audit[i].entity, t.audit[i].after)
  {
    hide Holds, Chainable, Follows, Shaped;
    forall j | i <= j < |s.audit| ensures s.audit[j] == t.audit[j] {}
    assert Last(s.audit, i);
  }

  /** Rows consecutive in a longer trail were so before it grew. */
  lemma PairsBefore(audit: seq<AuditRow>, more: seq<AuditRow>, i: nat, j: nat)
    requires audit <= more && j < |audit| && Consecutive(more, i, j)
    ensures Consecutive(audit, i, j) && audit[i] == more[i] && audit[j] == more[j]
  {
    forall k | i <= k <= j ensures audit[k] == more[k] {}
  }

  lemma Extended(kind: Kind, s: Console, t: Console)
    requires Chained(kind, s) && |t.audit| == |s.audit| + 1 && s.audit <= t.audit && PlainKeys(t.organizations)
    requires Shaped(kind, t.audit[|s.audit|])
    requires forall i: nat | Consecutive(t.audit, i, |s.audit|) && Chainable(kind, t.audit[i].entity) ::
               Follows(kind, t.audit[|s.audit|].before, t.audit[i].after)
    requires forall i: nat | Last(t.audit, i) && Chainable(kind, t.audit[i].entity) ::
               Holds(kind, t.organizations, t.audit[i].organizationKey, t.audit[i].entity, t.audit[i].after)
    ensures Chained(kind, t)
  {
    hide Holds, Chainable, Follows, PlainKeys, Shaped, Concerns, Last;
    forall i | 0 <= i < |s.audit| ensures t.audit[i] == s.audit[i] {}
    forall i: nat, j: nat | Consecutive(t.audit, i, j) && Chainable(kind, t.audit[i].entity)
      ensures Follows(kind, t.audit[j].before, t.audit[i].after)
    {
      if j < |s.audit| { PairsBefore(s.audit, t.audit, i, j); }
    }
  }

  predicate Extends<K, V(==)>(was: map<K, V>, now: map<K, V>) {
    forall k | k in was :: k in now && now[k] == was[k]
  }

  /** A write that changes no looked-at entity there is: to attorneys or practice areas, or a new location, say. */
  ghost predicate Elsewhere(kind: Kind, was: map<string, Config>, now: map<string, Config>) {
    && PlainKeys(now)
    && forall org | org in was ::
         && org in now
         && match kind
            case Documents => Extends(was[org].settings, now[org].settings) && Extends(was[org].groups, now[org].groups)
            case Places => Extends(was[org].locations, now[org].locations)
  }

  ghost predicate Administered(kind: Kind, s: Console, steps: seq<Step>)
    decreases |steps|
  {
    steps != [] ==>
      && (match steps[0]
          case Request(_, r, _, _) => Registered(r)
          case Bypass(organizations) => Elsewhere(kind, s.organizations, organizations))
      && Administered(kind, Apply(s, steps[0]), steps[1..])
  }

  lemma ElsewhereChains(kind: Kind, s: Console, organizations: map<string, Config>)
    requires Chained(kind, s) && Elsewhere(kind, s.organizations, organizations)
    ensures Chained(kind, s.(organizations := organizations))
  {
    hide Chainable, Concerns, SettingEntity, GroupEntity, LocationEntity, HoursEntity, Follows, PlainKeys, Shaped;
  }

  /**
   * While every write to the looked-at entities is administered, their audit is an unbroken history: each `before` is
   * the previous `after`, and the last `after` is the stored value. A location's is so but for its hours.
   */
  lemma {:induction false} HistoryIsUnbroken(kind: Kind, s: Console, steps: seq<Step>)
    requires Chained(kind, s) && Administered(kind, s, steps)
    ensures Chained(kind, Run(s, steps))
    decreases |steps|
  {
    hide Chained, Administer;
    if steps != [] {
      match steps[0] {
        case Request(ctx, r, now, writable) => StepChains(kind, s, ctx, r, now, writable);
        case Bypass(organizations) => ElsewhereChains(kind, s, organizations);
      }
      HistoryIsUnbroken(kind, Apply(s, steps[0]), steps[1..]);
    }
  }

  /**
   * A location's history is broken only by its hours, which its snapshots show but another entity audits: over every
   * run, of two consecutive audit rows of a location the later `before` is the earlier `after` if and only if the hours
   * held at the two moments are the same.
   */
  lemma LocationHistoryChainsExactlyWhenHoursAgree(organizations: map<string, Config>, steps: seq<Step>, key: string,
                                                   i: nat, j: nat)
    requires PlainKeys(organizations) && Administered(Places, Console(organizations, []), steps) && ':' !in key
    requires var audit := Run(Console(organizations, []), steps).audit;
             Consecutive(audit, i, j) && audit[i].entity == LocationEntity(key)
    ensures var audit := Run(Console(organizations, []), steps).audit;
            && audit[i].after.OfLocation? && audit[j].before.Some? && audit[j].before.value.OfLocation?
            && (audit[j].before == Some(audit[i].after)
                <==> audit[j].before.value.location.officeHours == audit[i].after.location.officeHours)
  {
    hide Run, Administered, Holds, Concerns;
    assert Chained(Places, Console(organizations, []));
    HistoryIsUnbroken(Places, Console(organizations, []), steps);
    var audit := Run(Console(organizations, []), steps).audit;
    AreasDiffer("", "", "", key);
    assert Shaped(Places, audit[i]) && Follows(Places, audit[j].before, audit[i].after);
    SameOrNot(audit[j].before.value, audit[i].after);
  }

  lemma SameOrNot(a: Snapshot, b: Snapshot)
    requires Alike(a, b) && b.OfLocation?
    ensures a.OfLocation? && (a == b <==> a.location.officeHours == b.location.officeHours)
  {
    if a.OfLocation? && a.location.officeHours == b.location.officeHours {
      assert a.location.(officeHours := map[]).name == b.location.(officeHours := map[]).name;
    }
  }

  // ── What the trail says of a location's hours ──────────────────────────────

  /** The hours a row shows of a location, if it is a row of the location or of its hours. */
  function Shown(row: AuditRow, org: string, key: string): Option<Hours> {
    if Concerns(row, org, HoursEntity(key)) && row.after.OfHours? then Some(row.after.hours)
    else if Concerns(row, org, LocationEntity(key)) && row.after.OfLocation? then Some(row.after.location.officeHours)
    else None
  }

  /** The hours the trail's latest such row shows. */
  function Told(audit: seq<AuditRow>, org: string, key: string): Option<Hours> {
    if audit == [] then None
    else
      var shown := Shown(audit[|audit| - 1], org, key);
      if shown.Some? then shown else Told(audit[..|audit| - 1], org, key)
  }

  ghost predicate HasHours(organizations: map<string, Config>, org: string, key: string, hours: Hours) {
    && org in organizations && key in organizations[org].locations
    && organizations[org].locations[key].officeHours == hours
  }

  /** A row of a location shows, before and after, a location; one of hours shows hours. */
  ghost predicate Telling(row: AuditRow, key: string) {
    && (row.entity == HoursEntity(key) ==> row.after.OfHours?)
    && (row.entity == LocationEntity(key) ==>
          row.after.OfLocation? && row.before.Some? && row.before.value.OfLocation?)
  }

  /** The hours shown before a row of a location are the ones told by the rows before it. */
  ghost predicate BeforeAsTold(audit: seq<AuditRow>, row: AuditRow, key: string) {
    row.entity == LocationEntity(key) && row.before.Some? && row.before.value.OfLocation?
    && Told(audit, row.organizationKey, key).Some? ==>
      Told(audit, row.organizationKey, key) == Some(row.before.value.location.officeHours)
  }

  ghost predicate HoursAsTold(s: Console) {
    && PlainKeys(s.organizations)
    && (forall org, key | ':' !in key && Told(s.audit, org, key).Some? ::
          HasHours(s.organizations, org, key, Told(s.audit, org, key).value))
    && (forall i, key | 0 <= i < |s.audit| && ':' !in key ::
          Telling(s.audit[i], key) && BeforeAsTold(s.audit[..i], s.audit[i], key))
  }

  /** One request, as far as one location's hours are concerned. */
  lemma RequestOnHours(c: Config, r: Request, now: int, key: string)
    requires ':' !in key && forall k | k in c.locations :: ':' !in k
    requires BeforeOf(c, r).1.None? && ChangeOf(c, r, now).Changed?
    ensures var d := ChangeOf(c, r, now).config; var result := ChangeOf(c, r, now).result;
            && (EntityOf(r) == HoursEntity(key) ==>
                  result.OfHours? && key in d.locations && d.locations[key].officeHours == result.hours)
            && (EntityOf(r) == LocationEntity(key) ==>
                  && result.OfLocation? && key in d.locations
                  && d.locations[key].officeHours == result.location.officeHours
                  && key in c.locations && BeforeOf(c, r).0 == Some(OfLocation(c.locations[key])))
            && (EntityOf(r) != HoursEntity(key) && key in c.locations ==>
                  key in d.locations && d.locations[key].officeHours == c.locations[key].officeHours)
  {
    hide HoursTable, AllKnown, SettingEntity, GroupEntity, LocationEntity, HoursEntity, EntityOf;
    Named(r);
    EntityKinds(r, key);
    if (r.UpdateLocation? || r.SetHours?) {
      FoundPlace(c, r);
      LocationNamesDiffer(r.locationKey, key);
      LocationNamesDiffer(key, r.locationKey);
    }
  }

  lemma EntityKinds(r: Request, key: string)
    ensures EntityOf(r) == HoursEntity(key) || EntityOf(r) == LocationEntity(key) ==> r.UpdateLocation? || r.SetHours?
  {
    EntityLetters(r);
    AreasDiffer("", "", "", key);
  }

  lemma ToldNext(audit: seq<AuditRow>, row: AuditRow, org: string, key: string)
    ensures Told(audit + [row], org, key)
            == if Shown(row, org, key).Some? then Shown(row, org, key) else Told(audit, org, key)
  {
    assert (audit + [row])[..|audit|] == audit;
  }

  lemma RowOnHours(s: Console, ctx: Context, r: Request, now: int, writable: bool, org: string, key: string)
    requires HoursAsTold(s) && Administer(s, ctx, r, now, writable).1.Done? && ':' !in key
    ensures var t := Administer(s, ctx, r, now, writable).0;
            && |t.audit| == |s.audit| + 1
            && (Told(t.audit, org, key).Some? ==> HasHours(t.organizations, org, key, Told(t.audit, org, key).value))
            && Telling(t.audit[|s.audit|], key) && BeforeAsTold(s.audit, t.audit[|s.audit|], key)
  {
    hide BeforeOf, ChangeOf, EntityOf, CurrentVersion, Told, WellShaped, LocationEntity, HoursEntity;
    SuccessAddsOneRow(s, ctx, r, now, writable);
    var t := Administer(s, ctx, r, now, writable).0;
    var row := t.audit[|s.audit|];
    assert t.audit == s.audit + [row];
    ToldNext(s.audit, row, org, key);
    RequestOnHours(s.organizations[ctx.organizationKey], r, now, key);
    LocationNamesDiffer(key, key);
    assert Told(s.audit, ctx.organizationKey, key).Some? ==>
             HasHours(s.organizations, ctx.organizationKey, key, Told(s.audit, ctx.organizationKey, key).value);
  }

  lemma StepOnHours(s: Console, step: Step)
    requires HoursAsTold(s)
    requires step.Bypass? ==> Elsewhere(Places, s.organizations, step.organizations)
    ensures HoursAsTold(Apply(s, step))
  {
    hide Telling, BeforeAsTold, Told, Administer, PlainKeys, HasHours;
    match step
    case Request(ctx, r, now, writable) =>
      SuccessAddsOneRow(s, ctx, r, now, writable);
      PlainKeysStay(s, ctx, r, now, writable);
      var (t, reply) := Administer(s, ctx, r, now, writable);
      if reply.Done? {
        forall org, key | ':' !in key && Told(t.audit, org, key).Some?
          ensures HasHours(t.organizations, org, key, Told(t.audit, org, key).value)
        {
          RowOnHours(s, ctx, r, now, writable, org, key);
        }
        forall i, key | 0 <= i < |t.audit| && ':' !in key
          ensures Telling(t.audit[i], key) && BeforeAsTold(t.audit[..i], t.audit[i], key)
        {
          assert t.audit[..|s.audit|] == s.audit;
          if i < |s.audit| {
            assert t.audit[..i] == s.audit[..i] && t.audit[i] == s.audit[i];
          } else {
            RowOnHours(s, ctx, r, now, writable, "", key);
          }
        }
      }
    case Bypass(organizations) =>
      forall org, key | ':' !in key && Told(s.audit, org, key).Some?
        ensures HasHours(organizations, org, key, Told(s.audit, org, key).value)
      {
        ElsewhereOnHours(s.organizations, organizations, org, key, Told(s.audit, org, key).value);
      }
  }

  lemma ElsewhereOnHours(was: map<string, Config>, now: map<string, Config>, org: string, key: string, hours: Hours)
    requires Elsewhere(Places, was, now) && HasHours(was, org, key, hours)
    ensures HasHours(now, org, key, hours)
  {
  }

  lemma NothingTold(organizations: map<string, Config>)
    requires PlainKeys(organizations)
    ensures HoursAsTold(Console(organizations, []))
  {
  }

  lemma {:induction false} HoursStayAsTold(s: Console, steps: seq<Step>)
    requires HoursAsTold(s) && Administered(Places, s, steps)
    ensures HoursAsTold(Run(s, steps))
    decreases |steps|
  {
    hide HoursAsTold, Apply, Elsewhere;
    if steps != [] {
      StepOnHours(s, steps[0]);
      HoursStayAsTold(Apply(s, steps[0]), steps[1..]);
    }
  }

  lemma {:induction false} ToldByTheLast(audit: seq<AuditRow>, org: string, key: string, k: nat, j: nat)
    requires k < j <= |audit| && Shown(audit[k], org, key).Some?
    requires forall i | k < i < j :: Shown(audit[i], org, key).None?
    ensures Told(audit[..j], org, key) == Shown(audit[k], org, key)
    decreases j
  {
    assert audit[..j][..j - 1] == audit[..j - 1];
    if k < j - 1 { ToldByTheLast(audit, org, key, k, j - 1); }
  }

  /** The last row between two that concerns an entity, if there is one. */
  ghost predicate LastBetween(audit: seq<AuditRow>, i: nat, k: nat, j: nat, org: string, entity: string)
    requires j <= |audit|
  {
    i < k < j && Concerns(audit[k], org, entity) && Silent(audit, k + 1, j, org, entity)
  }

  lemma {:induction false} LastOrSilent(audit: seq<AuditRow>, i: nat, j: nat, org: string, entity: string)
    requires i < j <= |audit|
    ensures Silent(audit, i + 1, j, org, entity) || exists k: nat :: LastBetween(audit, i, k, j, org, entity)
    decreases j
  {
    if i + 1 < j {
      var m: nat := j - 1;
      LastOrSilent(audit, i, m, org, entity);
      if Concerns(audit[m], org, entity) {
        assert LastBetween(audit, i, m, j, org, entity);
      } else if k: nat :| LastBetween(audit, i, k, m, org, entity) {
        assert LastBetween(audit, i, k, j, org, entity);
      }
    }
  }

  /**
   * The audit rows alone say when a location's history chains: over every run, two consecutive rows of a location do if
   * and only if the last row between them that audits its hours, if there is one, leaves the hours the earlier shows.
   */
  lemma LocationHistoryChainsExactlyWhenHoursReturn(organizations: map<string, Config>, steps: seq<Step>, key: string,
                                                    i: nat, j: nat)
    requires PlainKeys(organizations) && Administered(Places, Console(organizations, []), steps) && ':' !in key
    requires var audit := Run(Console(organizations, []), steps).audit;
             Consecutive(audit, i, j) && audit[i].entity == LocationEntity(key)
    ensures var audit := Run(Console(organizations, []), steps).audit;
            && audit[i].after.OfLocation?
            && (audit[j].before == Some(audit[i].after)
                <==> forall k: nat | LastBetween(audit, i, k, j, audit[i].organizationKey, HoursEntity(key)) ::
                       audit[k].after == OfHours(audit[i].after.location.officeHours))
  {
    hide Run, Administered, LocationEntity, HoursEntity, Told, Holds;
    LocationHistoryChainsExactlyWhenHoursAgree(organizations, steps, key, i, j);
    NothingTold(organizations);
    HoursStayAsTold(Console(organizations, []), steps);
    var audit := Run(Console(organizations, []), steps).audit;
    var org := audit[i].organizationKey;
    LocationNamesDiffer(key, key);
    assert Telling(audit[i], key) && Telling(audit[j], key) && BeforeAsTold(audit[..j], audit[j], key);
    LastOrSilent(audit, i, j, org, HoursEntity(key));
    if k: nat :| LastBetween(audit, i, k, j, org, HoursEntity(key)) {
      assert Telling(audit[k], key);
      ToldByTheLast(audit, org, key, k, j);
      forall m: nat | LastBetween(audit, i, m, j, org, HoursEntity(key)) ensures m == k {
        assert Concerns(audit[m], org, HoursEntity(key)) && Concerns(audit[k], org, HoursEntity(key));
      }
    } else {
      ToldByTheLast(audit, org, key, i, j);
    }
  }

  // ── The service ────────────────────────────────────────────────────────────

  function WithGroup(s: Console, org: string, key: string, g: Group): Console
    requires org in s.organizations
  {
    var c := s.organizations[org];
    s.(organizations := s.organizations[org := c.(groups := c.groups[key := g])])
  }

  function WithLocation(s: Console, org: string, key: string, l: Location): Console
    requires org in s.organizations
  {
    var c := s.organizations[org];
    s.(organizations := s.organizations[org := c.(locations := c.locations[key := l])])
  }

  lemma GroupRewritten(s: Console, org: string, key: string, g: Group, h: Group)
    requires org in s.organizations
    ensures WithGroup(WithGroup(s, org, key, g), org, key, h) == WithGroup(s, org, key, h)
  {
    var c := s.organizations[org];
    assert c.groups[key := g][key := h] == c.groups[key := h];
    Overwritten(s.organizations, org, c.(groups := c.groups[key := g]), c.(groups := c.groups[key := h]));
  }

  lemma LocationRewritten(s: Console, org: string, key: string, l: Location, m: Location)
    requires org in s.organizations
    ensures WithLocation(WithLocation(s, org, key, l), org, key, m) == WithLocation(s, org, key, m)
  {
    var c := s.organizations[org];
    assert c.locations[key := l][key := m] == c.locations[key := m];
    Overwritten(s.organizations, org, c.(locations := c.locations[key := l]), c.(locations := c.locations[key := m]));
  }

  lemma Overwritten(organizations: map<string, Config>, org: string, a: Config, b: Config)
    ensures organizations[org := a][org := b] == organizations[org := b]
  {
  }

  predicate HasGroup(s: Console, org: string, key: string) {
    org in s.organizations && key in s.organizations[org].groups
  }

  predicate HasLocation(s: Console, org: string, key: string) {
    org in s.organizations && key in s.organizations[org].locations
  }

  lemma {:induction false} VersionIsGreatest(audit: seq<AuditRow>, org: string, entity: string)
    ensures forall i | 0 <= i < |audit| && Concerns(audit[i], org, entity) ::
              audit[i].version <= CurrentVersion(audit, org, entity)
  {
    if audit != [] {
      var n := |audit| - 1;
      VersionIsGreatest(audit[..n], org, entity);
      forall i | 0 <= i < n ensures audit[..n][i] == audit[i] {}
    }
  }

  /** What the audit table's unique key asks of a new row. */
  predicate VersionIsFree(audit: seq<AuditRow>, row: AuditRow) {
    forall i | 0 <= i < |audit| ::
      !(Concerns(audit[i], row.organizationKey, row.entity) && audit[i].version == row.version)
  }

  lemma NextVersionIsFree(audit: seq<AuditRow>, row: AuditRow)
    requires row.version == CurrentVersion(audit, row.organizationKey, row.entity) + 1
    ensures VersionIsFree(audit, row)
  {
    VersionIsGreatest(audit, row.organizationKey, row.entity);
  }

  lemma {:induction false} HoursTableStops(hours: seq<Hour>, i: nat)
    requires i <= |hours| && HoursTable(hours[..i]).None?
    ensures HoursTable(hours).None?
    decreases |hours|
  {
    if i == |hours| {
      assert hours[..i] == hours;
    } else {
      assert hours[..|hours| - 1][..i] == hours[..i];
      HoursTableStops(hours[..|hours| - 1], i);
    }
  }

  datatype Outcome = Returned(result: Snapshot) | Raised(error: Error)

  class AdministrationService {
    const connection: Connection<Console>

    constructor (organizations: map<string, Config>)
      ensures fresh(connection) && connection.Valid() && connection.transactionDepth == 0
      ensures connection.db == Console(organizations, [])
    {
      connection := new Connection(Console(organizations, []));
    }

    method ReadVersion(organizationKey: string, entity: string) returns (version: nat)
      ensures version == CurrentVersion(connection.db.audit, organizationKey, entity)
    {
      var audit := connection.db.audit;
      version := 0;
      var i := 0;
      while i < |audit|
        invariant 0 <= i <= |audit|
        invariant version == CurrentVersion(audit[..i], organizationKey, entity)
      {
        assert audit[..i + 1][..i] == audit[..i];
        if Concerns(audit[i], organizationKey, entity) && audit[i].version > version { version := audit[i].version; }
        i := i + 1;
      }
      assert audit[..|audit|] == audit;
    }

    /** DELETE the members, then INSERT them one by one. A repeated provider stops it with the earlier ones written. */
    method ReplaceForGroup(org: string, key: string, providers: seq<string>) returns (ok: bool)
      requires HasGroup(connection.db, org, key)
      modifies connection`db
      ensures ok <==> Distinct(providers)
      ensures var g := old(connection.db).organizations[org].groups[key];
              if ok then connection.db == WithGroup(old(connection.db), org, key, g.(providers := providers))
              else exists i | 0 <= i < |providers| :: providers[i] in providers[..i]
                     && connection.db == WithGroup(old(connection.db), org, key, g.(providers := providers[..i]))
    {
      ghost var was := connection.db;
      ghost var g := was.organizations[org].groups[key];
      var members: seq<string> := [];
      WriteMembers(org, key, members);
      var i := 0;
      while i < |providers|
        invariant 0 <= i <= |providers| && members == providers[..i] && Distinct(members)
        invariant connection.db == WithGroup(was, org, key, g.(providers := members))
      {
        if providers[i] in members {
          assert !Distinct(providers) by {
            var j :| 0 <= j < i && providers[..i][j] == providers[i];
            assert providers[j] == providers[i];
          }
          return false;
        }
        GroupRewritten(was, org, key, g.(providers := members), g.(providers := members + [providers[i]]));
        members := members + [providers[i]];
        WriteMembers(org, key, members);
        i := i + 1;
      }
      assert providers[..|providers|] == providers;
      ok := true;
    }

    /** One statement on the members table. */
    method WriteMembers(org: string, key: string, members: seq<string>)
      requires HasGroup(connection.db, org, key)
      modifies connection`db
      ensures connection.db
              == WithGroup(old(connection.db), org, key,
                           old(connection.db).organizations[org].groups[key].(providers := members))
    {
      connection.db :=
        WithGroup(connection.db, org, key, connection.db.organizations[org].groups[key].(providers := members));
    }

    /** DELETE the hours, then INSERT them one by one; a repeated day and opening time stops it half way. */
    method ReplaceForLocation(org: string, key: string, hours: seq<Hour>) returns (ok: bool)
      requires HasLocation(connection.db, org, key)
      modifies connection`db
      ensures ok <==> HoursTable(hours).Some?
      ensures var l := old(connection.db).organizations[org].locations[key];
              if ok then connection.db
                 == WithLocation(old(connection.db), org, key, l.(officeHours := HoursTable(hours).value))
              else exists i | 0 <= i < |hours| :: HoursTable(hours[..i]).Some? && HoursTable(hours[..i + 1]).None?
                     && connection.db
                        == WithLocation(old(connection.db), org, key, l.(officeHours := HoursTable(hours[..i]).value))
    {
      ghost var was := connection.db;
      ghost var l := was.organizations[org].locations[key];
      var table: Hours := map[];
      WriteHours(org, key, table);
      var i := 0;
      while i < |hours|
        invariant 0 <= i <= |hours| && HoursTable(hours[..i]) == Some(table)
        invariant connection.db == WithLocation(was, org, key, l.(officeHours := table))
      {
        assert hours[..i + 1][..i] == hours[..i];
        if (hours[i].dayOfWeek, hours[i].opens) in table {
          HoursTableStops(hours, i + 1);
          return false;
        }
        ghost var longer := table[(hours[i].dayOfWeek, hours[i].opens) := hours[i].closes];
        LocationRewritten(was, org, key, l.(officeHours := table), l.(officeHours := longer));
        table := table[(hours[i].dayOfWeek, hours[i].opens) := hours[i].closes];
        WriteHours(org, key, table);
        i := i + 1;
      }
      assert hours[..|hours|] == hours;
      ok := true;
    }

    /** One statement on the hours table. */
    method WriteHours(org: string, key: string, table: Hours)
      requires HasLocation(connection.db, org, key)
      modifies connection`db
      ensures connection.db == WithLocation(old(connection.db), org, key,
                                            old(connection.db).organizations[org].locations[key].(officeHours := table))
    {
      connection.db :=
        WithLocation(connection.db, org, key, connection.db.organizations[org].locations[key].(officeHours := table));
    }

    /** The store's own nested transaction around a replacement of members. */
    method SetProviders(org: string, key: string, attorneys: seq<string>, now: int) returns (outcome: Outcome)
      requires connection.Valid() && HasGroup(connection.db, org, key)
      modifies connection
      ensures Framed(old(connection.transactionDepth), old(connection.begun), old(connection.savepoints))
      ensures Comes(old(connection.db), org, Reorder(key, attorneys), now, outcome)
    {
      ghost var savepoints := connection.savepoints;
      connection.Enter();
      if !AllKnown(attorneys, connection.db.organizations[org].providers) {
        connection.Leave(true);
        assert connection.savepoints == savepoints;
        return Raised(Unknown("provider"));
      }
      var ok := ReplaceForGroup(org, key, attorneys);
      connection.Leave(!ok);
      assert connection.savepoints == savepoints;
      outcome := if ok then Returned(OfGroup(connection.db.organizations[org].groups[key]))
        else Raised(UniqueViolation);
    }

    method SetOfficeHours(org: string, key: string, hours: seq<Hour>, now: int) returns (outcome: Outcome)
      requires connection.Valid() && HasLocation(connection.db, org, key)
      modifies connection
      ensures Framed(old(connection.transactionDepth), old(connection.begun), old(connection.savepoints))
      ensures Comes(old(connection.db), org, SetHours(key, Some(hours)), now, outcome)
    {
      ghost var savepoints := connection.savepoints;
      connection.Enter();
      var ok := ReplaceForLocation(org, key, hours);
      connection.Leave(!ok);
      assert connection.savepoints == savepoints;
      outcome := if ok then Returned(OfHours(connection.db.organizations[org].locations[key].officeHours))
        else Raised(UniqueViolation);
    }

    /** The group's row first, then its members: an unknown or repeated provider takes the row back too. */
    method CreateRoutingGroup(org: string, x: NewGroup, now: int) returns (outcome: Outcome)
      requires connection.Valid() && org in connection.db.organizations
      modifies connection
      ensures Framed(old(connection.transactionDepth), old(connection.begun), old(connection.savepoints))
      ensures Comes(old(connection.db), org, CreateGroup(Some(x)), now, outcome)
    {
      var c := connection.db.organizations[org];
      if x.serviceArea !in c.serviceAreas { return Raised(Unknown("service_area")); }
      ghost var savepoints := connection.savepoints;
      connection.Enter();
      if x.key in c.groups {
        connection.Leave(true);
        assert connection.savepoints == savepoints;
        return Raised(Duplicate);
      }
      ghost var was := connection.db;
      var g := Group(x.name, x.serviceArea, x.active, [], now);
      connection.db := WithGroup(connection.db, org, x.key, g);
      GroupRewritten(was, org, x.key, g, g.(providers := x.members));
      if !AllKnown(x.members, c.providers) {
        connection.Leave(true);
        assert connection.savepoints == savepoints;
        return Raised(Unknown("provider"));
      }
      var ok := ReplaceForGroup(org, x.key, x.members);
      connection.Leave(!ok);
      assert connection.savepoints == savepoints;
      outcome := if ok then Returned(OfGroup(connection.db.organizations[org].groups[x.key])) else Raised(Duplicate);
    }

    /** The transactions around a call are as they were. */
    ghost predicate Framed(depth: nat, begun: Option<Console>, savepoints: seq<Savepoint<Console>>)
      reads connection
    {
      && connection.Valid() && connection.transactionDepth == depth
      && connection.begun == begun && connection.savepoints == savepoints
    }

    /** The change happened as specified; what a change that threw has left is not said. */
    ghost predicate Comes(was: Console, org: string, r: Request, now: int, outcome: Outcome)
      requires org in was.organizations
      reads connection
    {
      match ChangeOf(was.organizations[org], r, now)
      case Threw(error) => outcome == Raised(error)
      case Changed(config, result) =>
        outcome == Returned(result) && connection.db == was.(organizations := was.organizations[org := config])
    }

    /** The change function of the request's area, against the tables. */
    method Perform(org: string, r: Request, now: int) returns (outcome: Outcome)
      requires connection.Valid() && org in connection.db.organizations
      modifies connection
      ensures Framed(old(connection.transactionDepth), old(connection.begun), old(connection.savepoints))
      ensures Comes(old(connection.db), org, r, now, outcome)
    {
      hide AllKnown, HoursTable, Nested;
      var c := connection.db.organizations[org];
      match r
      case SetDomain(namespace, key, normalized) =>
        if normalized.None? { return Raised(Invalid); }
        var d := c.(settings := c.settings[(namespace, key) := normalized.value]);
        connection.db := connection.db.(organizations := connection.db.organizations[org := d]);
        outcome := Returned(Document(normalized.value));
      case CreateGroup(given) =>
        if given.None? { return Raised(Invalid); }
        outcome := CreateRoutingGroup(org, given.value, now);
      case UpdateGroup(key, patch) =>
        if key !in c.groups { return Raised(Unknown("routing_group")); }
        if patch.None? || !NamesAField(r) { return Raised(Invalid); }
        if patch.value.serviceArea.Some? && patch.value.serviceArea.value !in c.serviceAreas {
          return Raised(Unknown("service_area"));
        }
        var g := c.groups[key];
        if patch.value.name.Some? { g := g.(name := patch.value.name.value); }
        if patch.value.serviceArea.Some? { g := g.(serviceArea := patch.value.serviceArea.value); }
        if patch.value.active.Given? { g := g.(active := patch.value.active.value); }
        connection.db := WithGroup(connection.db, org, key, g.(updatedAt := now));
        outcome := Returned(OfGroup(g.(updatedAt := now)));
      case Reorder(key, attorneys) =>
        if key !in c.groups { return Raised(Unknown("routing_group")); }
        outcome := SetProviders(org, key, attorneys, now);
      case UpdateLocation(key, fields) =>
        if key !in c.locations { return Raised(Unknown("location")); }
        if fields.None? || !NamesAField(r) { return Raised(Invalid); }
        var l := c.locations[key];
        if fields.value.name.Some? { l := l.(name := fields.value.name.value); }
        if fields.value.active.Given? { l := l.(active := fields.value.active.value); }
        connection.db := WithLocation(connection.db, org, key, l.(updatedAt := now));
        outcome := Returned(OfLocation(l.(updatedAt := now)));
      case SetHours(key, hours) =>
        if key !in c.locations { return Raised(Unknown("location")); }
        if hours.None? { return Raised(Invalid); }
        outcome := SetOfficeHours(org, key, hours.value, now);
    }

    /** The audit table refuses a version it has, and any row when it cannot be written. */
    method InsertAudit(row: AuditRow, writable: bool) returns (ok: bool)
      modifies connection`db
      ensures ok <==> writable && VersionIsFree(old(connection.db).audit, row)
      ensures connection.db
                == if ok then old(connection.db).(audit := old(connection.db).audit + [row]) else old(connection.db)
    {
      var audit := connection.db.audit;
      var i := 0;
      while i < |audit|
        invariant 0 <= i <= |audit|
        invariant VersionIsFree(audit[..i], row)
      {
        if Concerns(audit[i], row.organizationKey, row.entity) && audit[i].version == row.version { return false; }
        i := i + 1;
      }
      ok := writable;
      if ok { connection.db := connection.db.(audit := audit + [row]); }
    }

    /** Version check, change and audit row, one after the other. What a failure has written by then is not said. */
    method Attempt(ctx: Context, r: Request, before: Option<Snapshot>, now: int, writable: bool)
      returns (performed: Outcome, version: nat)
      requires connection.Valid()
      modifies connection
      ensures Framed(old(connection.transactionDepth), old(connection.begun), old(connection.savepoints))
      ensures var (t, reply) := Transacted(old(connection.db), ctx, r, before, now, writable);
              match performed
              case Raised(error) => reply == Failed(error)
              case Returned(result) => connection.db == t && reply == Done(result, version + 1)
    {
      hide CurrentVersion, ChangeOf, EntityOf, ActionOf, Nested, VersionIsFree;
      version := ReadVersion(ctx.organizationKey, EntityOf(r));
      if ctx.expectedVersion.Some? && ctx.expectedVersion.value != version { return Raised(Conflict), version; }
      if ctx.organizationKey !in connection.db.organizations { return Raised(Unknown("organization")), version; }
      ghost var audit := connection.db.audit;
      performed := Perform(ctx.organizationKey, r, now);
      if performed.Returned? {
        var row := AuditRow(ctx.organizationKey, EntityOf(r), ActionOf(r), ctx.actor, version + 1, before,
                            performed.result, now);
        NextVersionIsFree(audit, row);
        var ok := InsertAudit(row, writable);
        if !ok { performed := Raised(AuditFailed); }
      }
    }

    /** Whatever fails, the transaction takes back what came before. */
    method Transact(ctx: Context, r: Request, before: Option<Snapshot>, now: int, writable: bool) returns (reply: Reply)
      requires connection.Valid()
      modifies connection
      ensures Framed(old(connection.transactionDepth), old(connection.begun), old(connection.savepoints))
      ensures (connection.db, reply) == Transacted(old(connection.db), ctx, r, before, now, writable)
      ensures reply.Failed? ==> connection.db == old(connection.db)
    {
      hide ChangeOf, CurrentVersion, EntityOf, Nested;
      ghost var savepoints := connection.savepoints;
      connection.Enter();
      var performed, version := Attempt(ctx, r, before, now, writable);
      connection.Leave(performed.Raised?);
      assert connection.savepoints == savepoints;
      reply := if performed.Returned? then Done(performed.result, version + 1) else Failed(performed.error);
    }

    method ApplyRequest(ctx: Context, r: Request, now: int, writable: bool) returns (reply: Reply)
      requires connection.Valid()
      modifies connection
      ensures Framed(old(connection.transactionDepth), old(connection.begun), old(connection.savepoints))
      ensures (connection.db, reply) == Administer(old(connection.db), ctx, r, now, writable)
      ensures reply.Failed? ==> connection.db == old(connection.db)
    {
      hide Transacted, BeforeOf;
      var org := ctx.organizationKey;
      if !WellShaped(r) || (r.SetDomain? && r.normalized.None?) { return Failed(Invalid); }
      if org !in connection.db.organizations && !r.SetDomain? && !r.CreateGroup? {
        return Failed(Unknown("organization"));
      }
      var before := if r.SetDomain? then Some(NoDocument) else None;
      if org in connection.db.organizations {
        var (read, missing) := BeforeOf(connection.db.organizations[org], r);
        if missing.Some? { return Failed(missing.value); }
        before := read;
      }
      reply := Transact(ctx, r, before, now, writable);
    }
  }
}
