/**
 * What an administered request does, request by request: exactly when it is granted, what it then changes and records,
 * and which fault an error names.
 */
module AdministrationLaws {
  import opened Options
  import opened Sequences
  import ConfigValidation
  import opened Administration

  ghost predicate Unrepeated(keys: seq<string>) {
    forall i, j | 0 <= i < j < |keys| :: keys[i] != keys[j]
  }

  ghost predicate HoursRepeat(hours: seq<Hour>) {
    exists i, j :: 0 <= i < j < |hours| && hours[i].dayOfWeek == hours[j].dayOfWeek && hours[i].opens == hours[j].opens
  }

  /** What a request needs of the organization's configuration and of its own payload. */
  ghost predicate Grantable(c: Config, r: Request) {
    match r
    case SetDomain(_, _, normalized) => normalized.Some?
    case CreateGroup(given) =>
      && given.Some? && given.value.serviceArea in c.serviceAreas && given.value.key !in c.groups
      && (forall i | 0 <= i < |given.value.members| :: given.value.members[i] in c.providers)
      && Unrepeated(given.value.members)
    case UpdateGroup(key, patch) =>
      && key in c.groups && patch.Some?
      && (patch.value.name.Some? || patch.value.serviceArea.Some? || patch.value.active != Omitted)
      && (patch.value.serviceArea.Some? ==> patch.value.serviceArea.value in c.serviceAreas)
    case Reorder(key, attorneys) =>
      && key in c.groups && |attorneys| >= 1
      && (forall i | 0 <= i < |attorneys| ::
            attorneys[i] in c.providers && ConfigValidation.Trim(attorneys[i]) != "")
      && Unrepeated(attorneys)
    case UpdateLocation(key, fields) =>
      key in c.locations && fields.Some? && (fields.value.name.Some? || fields.value.active != Omitted)
    case SetHours(key, hours) => key in c.locations && hours.Some? && !HoursRepeat(hours.value)
  }

  /** A location's hours are exactly these. */
  ghost predicate HoursAre(h: Hours, hours: seq<Hour>) {
    && (forall i | 0 <= i < |hours| :: (hours[i].dayOfWeek, hours[i].opens) in h
                                       && h[(hours[i].dayOfWeek, hours[i].opens)] == hours[i].closes)
    && (forall k | k in h :: exists i :: 0 <= i < |hours| && (hours[i].dayOfWeek, hours[i].opens) == k)
  }

  ghost predicate Flagged(active: bool, was: bool, given: Field<bool>) {
    active == if given.Given? then given.value else was
  }

  /** The configuration a granted request leaves: what it names, and nothing else. */
  ghost predicate Effected(c: Config, d: Config, r: Request, now: int)
    requires Grantable(c, r)
  {
    match r
    case SetDomain(namespace, key, normalized) =>
      d == c.(settings := c.settings[(namespace, key) := normalized.value])
    case CreateGroup(given) =>
      var x := given.value;
      d == c.(groups := c.groups[x.key := Group(x.name, x.serviceArea, x.active, x.members, now)])
    case UpdateGroup(key, patch) =>
      && key in d.groups && d == c.(groups := c.groups[key := d.groups[key]])
      && var was, g := c.groups[key], d.groups[key];
         && g.name == (if patch.value.name.Some? then patch.value.name.value else was.name)
         && g.serviceArea == (if patch.value.serviceArea.Some? then patch.value.serviceArea.value else was.serviceArea)
         && Flagged(g.active, was.active, patch.value.active) && g.providers == was.providers && g.updatedAt == now
    case Reorder(key, attorneys) => d == c.(groups := c.groups[key := c.groups[key].(providers := attorneys)])
    case UpdateLocation(key, fields) =>
      && key in d.locations && d == c.(locations := c.locations[key := d.locations[key]])
      && var was, l := c.locations[key], d.locations[key];
         && l.name == (if fields.value.name.Some? then fields.value.name.value else was.name)
         && Flagged(l.active, was.active, fields.value.active) && l.officeHours == was.officeHours
         && l.updatedAt == now
    case SetHours(key, hours) =>
      && key in d.locations
      && d == c.(locations := c.locations[key := c.locations[key].(officeHours := d.locations[key].officeHours)])
      && HoursAre(d.locations[key].officeHours, hours.value)
  }

  /** The entity a request is audited under, and the action. */
  ghost predicate AuditedAs(row: AuditRow, r: Request) {
    match r
    case SetDomain(namespace, key, _) => row.entity == "setting:" + namespace + "/" + key && row.action == "update"
    case CreateGroup(_) => row.entity == "routing-groups" && row.action == "create"
    case UpdateGroup(key, _) => row.entity == "routing-group:" + key && row.action == "update"
    case Reorder(key, _) => row.entity == "routing-group:" + key && row.action == "reorder"
    case UpdateLocation(key, _) => row.entity == "location:" + key && row.action == "update"
    case SetHours(key, _) => row.entity == "location:" + key + ":hours" && row.action == "update"
  }

  lemma {:induction false} HoursTableExactly(hours: seq<Hour>)
    ensures var h := HoursTable(hours); (h.Some? <==> !HoursRepeat(hours)) && (h.Some? ==> HoursAre(h.value, hours))
  {
    if hours != [] {
      var n := |hours| - 1;
      HoursTableExactly(hours[..n]);
      forall i | 0 <= i < n ensures hours[..n][i] == hours[i] {}
      if HoursRepeat(hours) && !HoursRepeat(hours[..n]) {
        var i, j :|
          0 <= i < j < |hours| && hours[i].dayOfWeek == hours[j].dayOfWeek && hours[i].opens == hours[j].opens;
        assert j == n && hours[..n][i] == hours[i];
      }
    }
  }

  lemma ChangeLaw(c: Config, r: Request, now: int)
    requires WellShaped(r)
    ensures ChangeOf(c, r, now).Changed? <==> Grantable(c, r)
    ensures ChangeOf(c, r, now).Changed? ==> Effected(c, ChangeOf(c, r, now).config, r, now)
  {
    hide HoursTable, ConfigValidation.Trim;
    match r
    case SetHours(key, hours) => if hours.Some? { HoursTableExactly(hours.value); }
    case Reorder(key, attorneys) =>
      forall i | 0 <= i < |attorneys| ensures ConfigValidation.Trim(attorneys[i]) != "" {
        assert attorneys[i] in attorneys;
      }
    case _ =>
  }

  /**
   * A request is granted exactly when its organization is there, its version is current, the audit row can be written
   * and the request itself can be met; it then has exactly its effect and one audit row, and otherwise none at all.
   */
  lemma RequestIsGrantedExactlyWhen(s: Console, ctx: Context, r: Request, now: int, writable: bool)
    requires Numbered(s.audit)
    ensures var (t, reply) := Administer(s, ctx, r, now, writable); var org := ctx.organizationKey;
            var version := CountRows(s.audit, org, EntityOf(r));
            && (reply.Done? <==>
                  && org in s.organizations && (ctx.expectedVersion.None? || ctx.expectedVersion.value == version)
                  && writable && Grantable(s.organizations[org], r))
            && (reply.Failed? ==> t == s)
            && (reply.Done? ==>
                  && org in t.organizations && t.organizations == s.organizations[org := t.organizations[org]]
                  && Effected(s.organizations[org], t.organizations[org], r, now)
                  && |t.audit| == |s.audit| + 1 && t.audit[..|s.audit|] == s.audit
                  && var row := t.audit[|s.audit|];
                     && AuditedAs(row, r) && row.organizationKey == org && row.actor == ctx.actor && row.at == now
                     && row.version == version + 1 == reply.version && row.after == reply.result)
  {
    hide ChangeOf, Grantable, Effected, Numbered, CurrentVersion, CountRows, ConfigValidation.Trim;
    VersionIsCount(s.audit, ctx.organizationKey, EntityOf(r));
    if WellShaped(r) {
      if ctx.organizationKey in s.organizations {
        ChangeLaw(s.organizations[ctx.organizationKey], r, now);
        MissingIsRefused(s.organizations[ctx.organizationKey], r);
      }
    } else if ctx.organizationKey in s.organizations {
      IllShapedIsRefused(s.organizations[ctx.organizationKey], r);
    }
  }

  lemma MissingIsRefused(c: Config, r: Request)
    ensures BeforeOf(c, r).1.Some? ==> !Grantable(c, r)
    ensures r.SetDomain? && r.normalized.None? ==> !Grantable(c, r)
  {
  }

  lemma IllShapedIsRefused(c: Config, r: Request)
    requires !WellShaped(r)
    ensures !Grantable(c, r)
  {
    hide ConfigValidation.Trim;
    if r.attorneys != [] {
      var a :| a in r.attorneys && ConfigValidation.Trim(a) == "";
      var i :| 0 <= i < |r.attorneys| && r.attorneys[i] == a;
    }
  }

  /** What an error means for the configuration it was met in. */
  ghost predicate IsTheFault(error: Error, c: Config, r: Request) {
    match error
    case Invalid =>
      (match r
       case SetDomain(_, _, normalized) => normalized.None?
       case CreateGroup(given) => given.None?
       case UpdateGroup(_, patch) =>
         patch.None?
         || (patch.value.name.None? && patch.value.serviceArea.None? && patch.value.active == Omitted)
       case Reorder(_, attorneys) =>
         attorneys == [] || exists i :: 0 <= i < |attorneys| && ConfigValidation.Trim(attorneys[i]) == ""
       case UpdateLocation(_, fields) =>
         fields.None? || (fields.value.name.None? && fields.value.active == Omitted)
       case SetHours(_, hours) => hours.None?)
    case Unknown(kind) =>
      || (kind == "routing_group" && (r.UpdateGroup? || r.Reorder?) && r.groupKey !in c.groups)
      || (kind == "location" && (r.UpdateLocation? || r.SetHours?) && r.locationKey !in c.locations)
      || (kind == "service_area"
          && match r
             case CreateGroup(given) => given.Some? && given.value.serviceArea !in c.serviceAreas
             case UpdateGroup(_, patch) =>
               patch.Some? && patch.value.serviceArea.Some? && patch.value.serviceArea.value !in c.serviceAreas
             case _ => false)
      || (kind == "provider"
          && match r
             case CreateGroup(given) => given.Some? && exists a | a in given.value.members :: a !in c.providers
             case Reorder(_, attorneys) => exists a | a in attorneys :: a !in c.providers
             case _ => false)
    case Duplicate =>
      r.CreateGroup? && r.given.Some? && (r.given.value.key in c.groups || !Unrepeated(r.given.value.members))
    case UniqueViolation =>
      || (r.Reorder? && !Unrepeated(r.attorneys))
      || (r.SetHours? && r.hours.Some? && HoursRepeat(r.hours.value))
    case _ => false
  }

  lemma ThrownIsTheFault(c: Config, r: Request, now: int)
    ensures ChangeOf(c, r, now).Threw? ==> IsTheFault(ChangeOf(c, r, now).error, c, r)
    ensures BeforeOf(c, r).1.Some? ==> IsTheFault(BeforeOf(c, r).1.value, c, r)
  {
    hide HoursTable, ConfigValidation.Trim;
    if r.SetHours? && r.hours.Some? { HoursTableExactly(r.hours.value); }
  }

  lemma IllShapedIsInvalid(c: Config, r: Request)
    requires !WellShaped(r) || (r.SetDomain? && r.normalized.None?)
    ensures IsTheFault(Invalid, c, r)
  {
    hide ConfigValidation.Trim;
    if r.Reorder? && r.attorneys != [] {
      var a :| a in r.attorneys && ConfigValidation.Trim(a) == "";
      var i :| 0 <= i < |r.attorneys| && r.attorneys[i] == a;
    }
  }

  /**
   * An error names a fault that is there: another version, no such organization, an audit table that takes no row, or a
   * fault of the request against the organization's configuration.
   */
  lemma ErrorsNameTheirFault(s: Console, ctx: Context, r: Request, now: int, writable: bool)
    requires Numbered(s.audit) && Administer(s, ctx, r, now, writable).1.Failed?
    ensures var error := Administer(s, ctx, r, now, writable).1.error; var org := ctx.organizationKey;
            match error
            case Conflict =>
              ctx.expectedVersion.Some? && ctx.expectedVersion.value != CountRows(s.audit, org, EntityOf(r))
            case AuditFailed => !writable && org in s.organizations && Grantable(s.organizations[org], r)
            case _ =>
              || (error == Unknown("organization") && org !in s.organizations)
              || (org in s.organizations && IsTheFault(error, s.organizations[org], r))
              || (org !in s.organizations && error == Invalid
                  && forall c :: IsTheFault(error, c, r))
  {
    hide ChangeOf, BeforeOf, Grantable, Numbered, CurrentVersion, CountRows, EntityOf, WellShaped, IsTheFault;
    VersionIsCount(s.audit, ctx.organizationKey, EntityOf(r));
    if !WellShaped(r) || (r.SetDomain? && r.normalized.None?) {
      forall c ensures IsTheFault(Invalid, c, r) { IllShapedIsInvalid(c, r); }
    } else if ctx.organizationKey in s.organizations {
      var c := s.organizations[ctx.organizationKey];
      ThrownIsTheFault(c, r, now);
      ThrownKinds(c, r, now);
      ChangeLaw(c, r, now);
    }
  }

  lemma ThrownKinds(c: Config, r: Request, now: int)
    ensures ChangeOf(c, r, now).Threw? ==>
              !ChangeOf(c, r, now).error.Conflict? && !ChangeOf(c, r, now).error.AuditFailed?
    ensures BeforeOf(c, r).1.Some? ==> !BeforeOf(c, r).1.value.Conflict? && !BeforeOf(c, r).1.value.AuditFailed?
  {
    hide HoursTable;
  }

  /** The histories looked at are those of every request but creations, which share one entity. */
  lemma EveryUpdateIsChained(r: Request)
    ensures Chainable(Documents, EntityOf(r)) <==> r.SetDomain? || r.UpdateGroup? || r.Reorder?
    ensures Chainable(Places, EntityOf(r)) <==> r.UpdateLocation? || r.SetHours?
  {
    EntityLetters(r);
  }

  /** A run is its steps, one after the other: a request does what administering does, a bypass replaces the rest. */
  lemma {:induction false} RunsAreStepByStep(s: Console, steps: seq<Step>, step: Step)
    ensures Run(s, []) == s
    ensures var t := Run(s, steps);
            Run(s, steps + [step])
            == match step
               case Request(ctx, r, now, writable) => Administer(t, ctx, r, now, writable).0
               case Bypass(organizations) => Console(organizations, t.audit)
    decreases |steps|
  {
    hide Administer;
    if steps == [] {
      assert [] + [step] == [step] && [step][1..] == [];
    } else {
      assert (steps + [step])[1..] == steps[1..] + [step];
      RunsAreStepByStep(Apply(s, steps[0]), steps[1..], step);
    }
  }
}
