/**
 * What the validators accept, what they keep of it, and which fields a refusal names, for every JSON value.
 */
module ValidationLaws {
  import opened Options
  import opened ConfigValidation

  // ── Strings ────────────────────────────────────────────────────────────────

  /** White space is what ECMAScript calls so: its white space characters and its line ends. */
  lemma SpacesAreEcmaScripts(c: char)
    ensures Space(c) <==>
              var n := c as int;
              || 9 <= n <= 13 || n == 32 || n == 160 || n == 0x1680 || 0x2000 <= n <= 0x200A || n == 0x2028
              || n == 0x2029 || n == 0x202F || n == 0x205F || n == 0x3000 || n == 0xFEFF
    ensures AsciiLower(c) as int == if 65 <= c as int <= 90 then c as int + 32 else c as int
  {
  }

  /** Trimming cuts white space off both ends and nothing else. */
  lemma {:induction false} TrimCutsSpaceOnly(s: string) returns (i: nat, j: nat)
    ensures i <= j <= |s| && Trim(s) == s[i..j]
    ensures forall k | 0 <= k < |s| && !(i <= k < j) :: Space(s[k])
    decreases |s|
  {
    hide Space, Trimmed;
    if s == "" {
      i, j := 0, 0;
    } else if Space(s[0]) {
      i, j := TrimCutsSpaceOnly(s[1..]);
      forall k | 0 <= k < |s| && !(i + 1 <= k < j + 1) ensures Space(s[k]) {
        assert k > 0 ==> s[k] == s[1..][k - 1];
      }
      assert s[1..][i..j] == s[i + 1..j + 1];
      i, j := i + 1, j + 1;
    } else if Space(s[|s| - 1]) {
      i, j := TrimCutsSpaceOnly(s[..|s| - 1]);
      forall k | 0 <= k < |s| && !(i <= k < j) ensures Space(s[k]) {
        assert k < |s| - 1 ==> s[k] == s[..|s| - 1][k];
      }
      assert s[..|s| - 1][i..j] == s[i..j];
    } else {
      i, j := 0, |s|;
    }
  }

  function Digit(c: char): int {
    c as int - '0' as int
  }

  /** Minutes since midnight. */
  function Minutes(s: string): int
    requires TimeShaped(s)
  {
    600 * Digit(s[0]) + 60 * Digit(s[1]) + 10 * Digit(s[3]) + Digit(s[4])
  }

  ghost predicate ClockText(s: string, hour: int, minute: int) {
    && |s| == 5 && s[2] == ':'
    && Digit(s[0]) == hour / 10 && Digit(s[1]) == hour % 10 && Digit(s[3]) == minute / 10 && Digit(s[4]) == minute % 10
  }

  /** The accepted times are exactly the 24-hour clock's, two digits each. */
  lemma TimesAreTheClock(s: string)
    ensures TimeShaped(s) <==> exists hour, minute :: 0 <= hour < 24 && 0 <= minute < 60 && ClockText(s, hour, minute)
    ensures TimeShaped(s) ==> 0 <= Minutes(s) < 1440
  {
    if TimeShaped(s) {
      var hour, minute := 10 * Digit(s[0]) + Digit(s[1]), 10 * Digit(s[3]) + Digit(s[4]);
      assert ClockText(s, hour, minute);
    }
  }

  /** Comparing the texts compares the times of day. */
  lemma TextOrderIsClockOrder(a: string, b: string)
    requires TimeShaped(a) && TimeShaped(b)
    ensures Before(a, b) <==> Minutes(a) < Minutes(b)
  {
    BeforeAt(a, b, 0);
    BeforeAt(a, b, 1);
    BeforeAt(a, b, 2);
    BeforeAt(a, b, 3);
    BeforeAt(a, b, 4);
  }

  lemma BeforeAt(a: string, b: string, k: nat)
    requires |a| == |b| && k < |a|
    ensures Before(a[k..], b[k..]) <==> a[k] < b[k] || (a[k] == b[k] && k + 1 < |a| && Before(a[k + 1..], b[k + 1..]))
    ensures k == 0 ==> a[k..] == a && b[k..] == b
  {
    assert a[k..][1..] == a[k + 1..] && b[k..][1..] == b[k + 1..];
  }

  lemma FirstDiffers(a: string, b: string)
    requires a != "" && b != "" && a[0] != b[0]
    ensures (exists n :: 0 <= n <= |a| && n < |b| && a[..n] == b[..n] && (n == |a| || a[n] < b[n])) <==> a[0] < b[0]
  {
    forall n: nat | 0 < n <= |a| && n < |b| ensures a[..n] != b[..n] {
      assert a[..n][0] == a[0] && b[..n][0] == b[0];
    }
    assert a[..0] == b[..0];
  }

  /** String order is lexicographic. */
  lemma {:induction false} OrderIsLexicographic(a: string, b: string)
    ensures Before(a, b) <==>
              exists n :: 0 <= n <= |a| && n < |b| && a[..n] == b[..n] && (n == |a| || a[n] < b[n])
  {
    if a == "" || b == "" {
      if b != "" { assert a[..0] == b[..0]; }
    } else {
      var a1, b1 := a[1..], b[1..];
      if a[0] == b[0] {
        OrderIsLexicographic(a1, b1);
        if n :| 0 <= n <= |a1| && n < |b1| && a1[..n] == b1[..n] && (n == |a1| || a1[n] < b1[n]) {
          assert a[..n + 1] == [a[0]] + a1[..n] && b[..n + 1] == [b[0]] + b1[..n];
        }
        if n :| 0 <= n <= |a| && n < |b| && a[..n] == b[..n] && (n == |a| || a[n] < b[n]) {
          assert n > 0 && a1[..n - 1] == a[..n][1..] && b1[..n - 1] == b[..n][1..];
        }
      } else {
        FirstDiffers(a, b);
      }
    }
  }

  ghost predicate NoSpace(s: string) {
    forall c | c in s :: !Space(c)
  }

  /** Something, an at sign, and a domain with a dot inside; no white space, and no other at sign after it. */
  ghost predicate Split(s: string, local: string, host: string, top: string) {
    && s == local + "@" + (host + "." + top) && local != "" && host != "" && top != ""
    && NoSpace(s) && '@' !in host && '@' !in top
  }

  lemma SplitAddress(s: string)
    requires EmailShaped(s)
    ensures exists local, host, top :: Split(s, local, host, top)
  {
    hide Space;
    var at := LastIndexOf(s, '@');
    var domain := s[at + 1..];
    var i :| 1 <= i < |domain| - 1 && domain[i] == '.';
    var host, top := domain[..i], domain[i + 1..];
    assert domain == host + "." + top;
    forall c | c in host || c in top ensures c in domain {}
    assert Split(s, s[..at], host, top);
  }

  lemma JoinAddress(s: string, local: string, host: string, top: string)
    requires Split(s, local, host, top)
    ensures EmailShaped(s)
  {
    hide Space, LastIndexOf;
    var domain := host + "." + top;
    JoinedAt(local, domain);
    assert domain[|host|] == '.';
    forall c | c in domain ensures c in s && c != '@' {}
  }

  /** The accepted addresses are exactly those that split so, and only the domain is lower-cased. */
  lemma AddressesAreSplit(s: string)
    ensures EmailShaped(s) <==> exists local, host, top :: Split(s, local, host, top)
    ensures forall local, host, top | Split(s, local, host, top) ::
              EmailShaped(s) && LowerDomain(s) == local + "@" + Lower(host + "." + top)
  {
    hide EmailShaped, Split;
    if EmailShaped(s) { SplitAddress(s); }
    forall local, host, top | Split(s, local, host, top)
      ensures EmailShaped(s) && LowerDomain(s) == local + "@" + Lower(host + "." + top)
    {
      JoinAddress(s, local, host, top);
      SplitLowers(s, local, host, top);
    }
  }

  lemma SplitLowers(s: string, local: string, host: string, top: string)
    requires EmailShaped(s) && Split(s, local, host, top)
    ensures LowerDomain(s) == local + "@" + Lower(host + "." + top)
  {
    hide Space, LastIndexOf, EmailShaped, NoSpace, Lower;
    JoinedAt(local, host + "." + top);
  }

  // ── Fields ─────────────────────────────────────────────────────────────────

  ghost predicate Given(o: map<Prop, Json>, p: Prop) {
    p in o && o[p] != Json.Null
  }

  /** A string of at most `max` characters between its spaces; blank or absent only where not required. */
  ghost predicate TextOk(o: map<Prop, Json>, p: Prop, required: bool, max: int) {
    if !Given(o, p) then !required
    else o[p].Str? && |Trim(o[p].chars)| <= max && (required ==> |Trim(o[p].chars)| > 0)
  }

  /** Kebab case: lower-case letters, digits and inner hyphens. */
  ghost predicate Kebab(s: string) {
    && 1 <= |s| <= 128 && s[0] != '-' && s[|s| - 1] != '-'
    && forall i | 0 <= i < |s| :: 'a' <= s[i] <= 'z' || '0' <= s[i] <= '9' || s[i] == '-'
  }

  ghost predicate KeyOk(o: map<Prop, Json>, p: Prop) {
    Given(o, p) && o[p].Str? && Kebab(Trim(o[p].chars))
  }

  ghost predicate BoolOk(o: map<Prop, Json>, p: Prop) {
    Given(o, p) ==> o[p].Bool?
  }

  ghost predicate IntOk(o: map<Prop, Json>, p: Prop, max: int) {
    Given(o, p) ==> o[p].Int? && 0 <= o[p].number <= max
  }

  ghost predicate EmailOk(o: map<Prop, Json>, p: Prop) {
    Given(o, p) ==>
      && o[p].Str?
      && (Trim(o[p].chars) == "" || (|Trim(o[p].chars)| <= 254 && EmailShaped(Trim(o[p].chars))))
  }

  ghost predicate TimeOk(o: map<Prop, Json>, p: Prop) {
    Given(o, p) && o[p].Str? && TimeShaped(Trim(o[p].chars))
  }

  /** What an accepted text field holds: the trimmed text, or nothing where it was absent or blank. */
  ghost predicate Holds(kept: Option<string>, o: map<Prop, Json>, p: Prop) {
    if Given(o, p) && o[p].Str? && Trim(o[p].chars) != "" then kept == Some(Trim(o[p].chars)) else kept == None
  }

  lemma TextLaw(o: map<Prop, Json>, p: Prop, required: bool, max: nat)
    ensures var f := TextField(Read(o, p), required, max);
            && (f.Bad? <==> !TextOk(o, p, required, max)) && (!f.Bad? ==> Holds(Optional(f), o, p))
            && (required && !f.Bad? ==> f.Good?)
  {
  }

  lemma KeyLaw(o: map<Prop, Json>, p: Prop)
    ensures var f := KeyField(Read(o, p));
            (f.Bad? <==> !KeyOk(o, p)) && (f.Bad? || (f.Good? && Holds(Some(f.value), o, p)))
  {
    hide Trim;
    if Given(o, p) && o[p].Str? { KebabLaw(Trim(o[p].chars)); }
  }

  lemma KebabLaw(s: string)
    ensures Kebab(s) <==> KeyShaped(s) && |s| <= 128
  {
    if KeyShaped(s) {
      forall i | 0 <= i < |s| ensures LowerOrDigit(s[i]) || s[i] == '-' { assert s[i] in s; }
    }
  }

  lemma TimeLaw(o: map<Prop, Json>, p: Prop)
    ensures var f := TimeField(Read(o, p));
            (f.Bad? <==> !TimeOk(o, p)) && (f.Bad? || (f.Good? && Holds(Some(f.value), o, p)))
  {
    hide Trim;
  }

  lemma EmailLaw(o: map<Prop, Json>, p: Prop)
    ensures var f := EmailField(Read(o, p));
            && (f.Bad? <==> !EmailOk(o, p))
            && (!f.Bad? ==>
                  if Holds(None, o, p) then f == Absent
                  else EmailShaped(Trim(o[p].chars)) && f == Good(LowerDomain(Trim(o[p].chars))))
  {
    hide Trim, EmailShaped, LowerDomain;
  }

  lemma TextRule(o: map<Prop, Json>, p: Prop, required: bool, max: nat)
    ensures TextField(Read(o, p), required, max).Bad? <==> !TextOk(o, p, required, max)
  {
    hide Trim;
  }

  lemma KeyRule(o: map<Prop, Json>, p: Prop)
    ensures KeyField(Read(o, p)).Bad? <==> !KeyOk(o, p)
  {
    KeyLaw(o, p);
  }

  lemma EmailRule(o: map<Prop, Json>, p: Prop)
    ensures EmailField(Read(o, p)).Bad? <==> !EmailOk(o, p)
  {
    EmailLaw(o, p);
  }

  lemma BoolRule(o: map<Prop, Json>, p: Prop)
    ensures BoolField(Read(o, p)).Bad? <==> !BoolOk(o, p)
  {
  }

  lemma {:induction false} ProblemsAreTheFlagged(flags: seq<(Prop, bool)>)
    ensures forall p :: p in Problems(flags) <==> (p, true) in flags
    ensures Problems(flags) == [] <==> forall i | 0 <= i < |flags| :: !flags[i].1
  {
    if flags != [] {
      ProblemsAreTheFlagged(flags[1..]);
      assert flags == [flags[0]] + flags[1..];
      if flags[0].1 { assert flags[0] == (flags[0].0, true); }
    }
  }

  /** A check refuses exactly if one of the rules is broken, and names the fields whose rule is. */
  ghost predicate Follows<T(!new)>(r: Checked<T>, broken: seq<(Prop, bool)>) {
    && (r.Valid? <==> forall i | 0 <= i < |broken| :: !broken[i].1)
    && (r.Invalid? ==> forall p :: p in r.problems <==> (p, true) in broken)
  }

  lemma FollowsFlags<T(!new)>(r: Checked<T>, broken: seq<(Prop, bool)>)
    requires r.Valid? <==> forall i | 0 <= i < |broken| :: !broken[i].1
    requires r.Invalid? ==> r.problems == Problems(broken)
    ensures Follows(r, broken)
  {
    ProblemsAreTheFlagged(broken);
  }

  // ── Entities ───────────────────────────────────────────────────────────────

  ghost predicate ActiveAsGiven(active: bool, o: map<Prop, Json>) {
    active == if Given(o, Active) && o[Active].Bool? then o[Active].flag else true
  }

  ghost function OrganizationRules(o: map<Prop, Json>): seq<(Prop, bool)> {
    [(Key, !KeyOk(o, Key)), (Name, !TextOk(o, Name, true, 200)), (DisplayName, !TextOk(o, DisplayName, false, 200)),
     (Timezone, !TextOk(o, Timezone, false, 64)), (Active, !BoolOk(o, Active))]
  }

  lemma OrganizationIsAcceptedExactlyWhen(o: map<Prop, Json>)
    ensures Follows(NormalizeOrganization(Obj(o)), OrganizationRules(o))
  {
    hide TextField, KeyField, EmailField, BoolField, Read, Trim, KeyOk, TextOk, EmailOk, BoolOk, Optional, Default,
         Problems, Follows, NormalizeKeys, ProviderKey;
    KeyRule(o, Key);
    BoolRule(o, Active);
    TextRule(o, Name, true, 200);
    TextRule(o, DisplayName, false, 200);
    TextRule(o, Timezone, false, 64);
    var broken := OrganizationRules(o);
    assert broken[0].1 || broken[1].1 || broken[2].1 || broken[3].1 || broken[4].1
      <==> NormalizeOrganization(Obj(o)).Invalid?;
    FollowsFlags(NormalizeOrganization(Obj(o)), broken);
  }

  /** An accepted organization is kept as given; its time zone is UTC and it is active unless it says otherwise. */
  lemma OrganizationIsKept(o: map<Prop, Json>)
    requires NormalizeOrganization(Obj(o)).Valid?
    ensures var item := NormalizeOrganization(Obj(o)).item;
            && Holds(Some(item.key), o, Key) && Holds(Some(item.cols.name), o, Name)
            && Holds(item.cols.displayName, o, DisplayName)
            && (if Holds(None, o, Timezone) then item.cols.timezone == "UTC"
                else Holds(Some(item.cols.timezone), o, Timezone))
            && ActiveAsGiven(item.cols.active, o)
  {
    hide TextField, KeyField, Trim, KeyOk, TextOk, Problems;
    KeyLaw(o, Key);
    TextLaw(o, Name, true, 200);
    TextLaw(o, DisplayName, false, 200);
    TextLaw(o, Timezone, false, 64);
  }

  ghost function LocationRules(o: map<Prop, Json>): seq<(Prop, bool)> {
    [(Key, !KeyOk(o, Key)), (Name, !TextOk(o, Name, true, 200)), (AddressLine1, !TextOk(o, AddressLine1, false, 200)),
     (AddressLine2, !TextOk(o, AddressLine2, false, 200)), (City, !TextOk(o, City, false, 100)),
     (Region, !TextOk(o, Region, false, 100)), (PostalCode, !TextOk(o, PostalCode, false, 20)),
     (Phone, !TextOk(o, Phone, false, 40)), (Active, !BoolOk(o, Active))]
  }

  /** Its own fields are checked first; then its office hours, if it has the field at all, null included. */
  lemma LocationIsAcceptedExactlyWhen(o: map<Prop, Json>)
    ensures var r := NormalizeLocation(Obj(o)); var broken := LocationRules(o);
            if (exists i :: 0 <= i < |broken| && broken[i].1) || OfficeHours !in o then Follows(r, broken)
            else if !o[OfficeHours].Arr? then r == Invalid([OfficeHours])
            else var hours := NormalizeHours(o[OfficeHours].items);
              if hours.Invalid? then r == Invalid(hours.problems)
              else r.Valid? && r.item.officeHours == Some(hours.item)
  {
    hide TextField, KeyField, EmailField, BoolField, Read, Trim, KeyOk, TextOk, EmailOk, BoolOk, Optional, Default,
         Problems, Follows, NormalizeHours;
    KeyRule(o, Key);
    BoolRule(o, Active);
    TextRule(o, Name, true, 200);
    TextRule(o, AddressLine1, false, 200);
    TextRule(o, AddressLine2, false, 200);
    TextRule(o, City, false, 100);
    TextRule(o, Region, false, 100);
    TextRule(o, PostalCode, false, 20);
    TextRule(o, Phone, false, 40);
    var r, broken := NormalizeLocation(Obj(o)), LocationRules(o);
    var any := broken[0].1 || broken[1].1 || broken[2].1 || broken[3].1 || broken[4].1 || broken[5].1 || broken[6].1
               || broken[7].1 || broken[8].1;
    if any || OfficeHours !in o { FollowsFlags(r, broken); }
  }

  lemma LocationIsKept(o: map<Prop, Json>)
    requires NormalizeLocation(Obj(o)).Valid?
    ensures var item := NormalizeLocation(Obj(o)).item;
            && Holds(Some(item.key), o, Key) && Holds(Some(item.cols.name), o, Name)
            && Holds(item.cols.addressLine1, o, AddressLine1) && Holds(item.cols.addressLine2, o, AddressLine2)
            && Holds(item.cols.city, o, City) && Holds(item.cols.region, o, Region)
            && Holds(item.cols.postalCode, o, PostalCode) && Holds(item.cols.phone, o, Phone)
            && ActiveAsGiven(item.cols.active, o) && (item.officeHours.Some? <==> OfficeHours in o)
  {
    hide TextField, KeyField, Trim, KeyOk, TextOk, Holds, Problems, NormalizeHours;
    KeyLaw(o, Key);
    TextLaw(o, Name, true, 200);
    TextLaw(o, AddressLine1, false, 200);
    TextLaw(o, AddressLine2, false, 200);
    TextLaw(o, City, false, 100);
    TextLaw(o, Region, false, 100);
    TextLaw(o, PostalCode, false, 20);
    TextLaw(o, Phone, false, 40);
  }

  ghost function HourRules(o: map<Prop, Json>): seq<(Prop, bool)> {
    [(DayOfWeek, !Given(o, DayOfWeek) || !IntOk(o, DayOfWeek, 6)), (Opens, !TimeOk(o, Opens)),
     (Closes, !TimeOk(o, Closes)
              || (TimeOk(o, Opens) && Minutes(Trim(o[Closes].chars)) <= Minutes(Trim(o[Opens].chars))))]
  }

  /** An office hour has a weekday and two times of day, and closes after it opens. */
  lemma HourIsAcceptedExactlyWhen(o: map<Prop, Json>)
    ensures var r := NormalizeHour(Obj(o));
            && Follows(r, HourRules(o))
            && (r.Valid? ==> Int(r.item.dayOfWeek) == o[DayOfWeek] && r.item.opens == Trim(o[Opens].chars)
                             && r.item.closes == Trim(o[Closes].chars))
  {
    hide TimeField, Trim, TimeShaped, Before, Problems, Follows, Minutes;
    TimeLaw(o, Opens);
    TimeLaw(o, Closes);
    if TimeOk(o, Opens) && TimeOk(o, Closes) { TextOrderIsClockOrder(Trim(o[Opens].chars), Trim(o[Closes].chars)); }
    var broken := HourRules(o);
    assert broken[0].1 || broken[1].1 || broken[2].1 <==> NormalizeHour(Obj(o)).Invalid?;
    FollowsFlags(NormalizeHour(Obj(o)), broken);
  }

  /** A list of hours is accepted exactly if each is, kept in order, and refused for all their flaws together. */
  lemma {:induction false} HoursAreAcceptedExactlyWhen(entries: seq<Json>)
    ensures var r := NormalizeHours(entries);
            && (r.Valid? <==> forall i | 0 <= i < |entries| :: NormalizeHour(entries[i]).Valid?)
            && (r.Valid? ==> |r.item| == |entries|
                             && forall i | 0 <= i < |entries| :: NormalizeHour(entries[i]) == Valid(r.item[i]))
            && (r.Invalid? ==> forall p :: p in r.problems <==>
                  exists i :: 0 <= i < |entries| && NormalizeHour(entries[i]).Invalid?
                    && p in NormalizeHour(entries[i]).problems)
  {
    hide NormalizeHour;
    if entries != [] {
      HoursAreAcceptedExactlyWhen(entries[1..]);
      forall i | 0 < i < |entries| ensures entries[1..][i - 1] == entries[i] {}
    }
  }

  ghost function ProviderRules(o: map<Prop, Json>): seq<(Prop, bool)> {
    [(Key, !KeyOk(o, Key)), (Name, !TextOk(o, Name, true, 200)), (DisplayName, !TextOk(o, DisplayName, false, 200)),
     (Email, !EmailOk(o, Email)), (Phone, !TextOk(o, Phone, false, 40)), (Active, !BoolOk(o, Active))]
  }

  lemma ProviderIsAcceptedExactlyWhen(o: map<Prop, Json>)
    ensures Follows(NormalizeProvider(Obj(o)), ProviderRules(o))
  {
    hide TextField, KeyField, EmailField, BoolField, Read, Trim, KeyOk, TextOk, EmailOk, BoolOk, Optional, Default,
         Problems, Follows, NormalizeHours;
    KeyRule(o, Key);
    BoolRule(o, Active);
    TextRule(o, Name, true, 200);
    TextRule(o, DisplayName, false, 200);
    EmailRule(o, Email);
    TextRule(o, Phone, false, 40);
    var broken := ProviderRules(o);
    assert broken[0].1 || broken[1].1 || broken[2].1 || broken[3].1 || broken[4].1 || broken[5].1
      <==> NormalizeProvider(Obj(o)).Invalid?;
    FollowsFlags(NormalizeProvider(Obj(o)), broken);
  }

  /** Of an e-mail address only the domain is changed, to lower case. */
  lemma ProviderIsKept(o: map<Prop, Json>)
    requires NormalizeProvider(Obj(o)).Valid?
    ensures var item := NormalizeProvider(Obj(o)).item;
            && Holds(Some(item.key), o, Key) && Holds(Some(item.cols.name), o, Name)
            && Holds(item.cols.displayName, o, DisplayName) && Holds(item.cols.phone, o, Phone)
            && (if Holds(None, o, Email) then item.cols.email == None
                else EmailShaped(Trim(o[Email].chars))
                     && item.cols.email == Some(LowerDomain(Trim(o[Email].chars))))
            && ActiveAsGiven(item.cols.active, o)
  {
    hide TextField, KeyField, EmailField, Trim, KeyOk, TextOk, Problems, EmailShaped, LowerDomain;
    KeyLaw(o, Key);
    TextLaw(o, Name, true, 200);
    TextLaw(o, DisplayName, false, 200);
    EmailLaw(o, Email);
    TextLaw(o, Phone, false, 40);
  }

  ghost function CatalogItemRules(o: map<Prop, Json>): seq<(Prop, bool)> {
    [(Key, !KeyOk(o, Key)), (Name, !TextOk(o, Name, true, 200)), (DisplayOrder, !IntOk(o, DisplayOrder, 100_000)),
     (Active, !BoolOk(o, Active))]
  }

  lemma CatalogItemIsAcceptedExactlyWhen(o: map<Prop, Json>)
    ensures var r := NormalizeCatalogItem(Obj(o));
            && Follows(r, CatalogItemRules(o))
            && (r.Valid? ==>
                  && Holds(Some(r.item.key), o, Key) && Holds(Some(r.item.cols.name), o, Name)
                  && r.item.cols.displayOrder == (if Given(o, DisplayOrder) then o[DisplayOrder].number else 0)
                  && ActiveAsGiven(r.item.cols.active, o))
  {
    hide TextField, KeyField, Trim, KeyOk, TextOk, Problems, Follows;
    KeyLaw(o, Key);
    TextLaw(o, Name, true, 200);
    var broken := CatalogItemRules(o);
    assert broken[0].1 || broken[1].1 || broken[2].1 || broken[3].1 <==> NormalizeCatalogItem(Obj(o)).Invalid?;
    FollowsFlags(NormalizeCatalogItem(Obj(o)), broken);
  }

  ghost predicate ProviderKey(entry: Json) {
    entry.Str? && Kebab(Trim(entry.chars))
  }

  lemma {:induction false} KeysLaw(entries: seq<Json>)
    ensures var f := NormalizeKeys(entries);
            && !f.Absent? && (f.Good? <==> forall i | 0 <= i < |entries| :: ProviderKey(entries[i]))
            && (f.Good? ==> |f.value| == |entries|
                            && forall i | 0 <= i < |entries| :: f.value[i] == Trim(entries[i].chars))
  {
    hide KeyField, Trim, Kebab;
    if entries != [] {
      KeysLaw(entries[1..]);
      forall i | 0 < i < |entries| ensures entries[1..][i - 1] == entries[i] {}
      var o := map[Key := entries[0]];
      KeyLaw(o, Key);
      assert Read(o, Key) == if entries[0].Null? then None else Some(entries[0]);
    }
  }

  ghost function GroupRules(o: map<Prop, Json>): seq<(Prop, bool)> {
    [(Key, !KeyOk(o, Key)), (Name, !TextOk(o, Name, true, 200)), (ServiceArea, !KeyOk(o, ServiceArea)),
     (Active, !BoolOk(o, Active)),
     (Providers, Providers in o
                 && !(o[Providers].Arr?
                      && forall i | 0 <= i < |o[Providers].items| :: ProviderKey(o[Providers].items[i])))]
  }

  ghost predicate KeysKept(kept: Option<seq<string>>, o: map<Prop, Json>) {
    if Providers !in o then kept == None
    else
      && kept.Some? && o[Providers].Arr? && |kept.value| == |o[Providers].items|
      && forall i | 0 <= i < |kept.value| ::
           o[Providers].items[i].Str? && kept.value[i] == Trim(o[Providers].items[i].chars)
  }

  lemma KeysRule(entries: seq<Json>)
    ensures !NormalizeKeys(entries).Absent?
    ensures NormalizeKeys(entries).Bad? <==> !forall i | 0 <= i < |entries| :: ProviderKey(entries[i])
  {
    KeysLaw(entries);
  }

  lemma GroupIsAcceptedExactlyWhen(o: map<Prop, Json>)
    ensures Follows(NormalizeRoutingGroup(Obj(o)), GroupRules(o))
  {
    hide TextField, KeyField, EmailField, BoolField, Read, Trim, KeyOk, TextOk, EmailOk, BoolOk, Optional, Default,
         Problems, Follows, NormalizeKeys, ProviderKey;
    KeyRule(o, Key);
    BoolRule(o, Active);
    TextRule(o, Name, true, 200);
    KeyRule(o, ServiceArea);
    if Providers in o && o[Providers].Arr? { KeysRule(o[Providers].items); }
    var broken := GroupRules(o);
    assert broken[0].1 || broken[1].1 || broken[2].1 || broken[3].1 || broken[4].1
      <==> NormalizeRoutingGroup(Obj(o)).Invalid?;
    FollowsFlags(NormalizeRoutingGroup(Obj(o)), broken);
  }

  /** A routing group's providers, if it lists any, are kept in order. */
  lemma GroupIsKept(o: map<Prop, Json>)
    requires NormalizeRoutingGroup(Obj(o)).Valid?
    ensures var item := NormalizeRoutingGroup(Obj(o)).item;
            && Holds(Some(item.key), o, Key) && Holds(Some(item.name), o, Name)
            && Holds(Some(item.serviceArea), o, ServiceArea) && ActiveAsGiven(item.active, o)
            && KeysKept(item.providers, o)
  {
    hide TextField, KeyField, Trim, KeyOk, TextOk, Holds, Problems, NormalizeKeys, Kebab;
    KeyLaw(o, Key);
    TextLaw(o, Name, true, 200);
    KeyLaw(o, ServiceArea);
    if Providers in o && o[Providers].Arr? { KeysLaw(o[Providers].items); }
  }

  ghost function SettingRules(o: map<Prop, Json>): seq<(Prop, bool)> {
    [(Namespace, !KeyOk(o, Namespace) || |Trim(o[Namespace].chars)| > 64), (Key, !KeyOk(o, Key)),
     (Value, Value !in o || SERIALIZED_LENGTH(o[Value]) > 16_384)]
  }

  /** A setting keeps its value whole. */
  lemma SettingIsAcceptedExactlyWhen(o: map<Prop, Json>)
    ensures var r := NormalizeSetting(Obj(o));
            && Follows(r, SettingRules(o))
            && (r.Valid? ==> Holds(Some(r.item.namespace), o, Namespace) && Holds(Some(r.item.key), o, Key)
                             && r.item.value == o[Value])
  {
    hide KeyField, Trim, Kebab, Problems, Follows;
    KeyLaw(o, Namespace);
    KeyLaw(o, Key);
    var broken := SettingRules(o);
    assert broken[0].1 || broken[1].1 || broken[2].1 <==> NormalizeSetting(Obj(o)).Invalid?;
    FollowsFlags(NormalizeSetting(Obj(o)), broken);
  }

  /** Nothing but an object is any of them. */
  lemma OnlyObjectsAreAccepted(body: Json)
    requires !body.Obj?
    ensures NormalizeOrganization(body) == Invalid([Body]) && NormalizeLocation(body) == Invalid([Body])
    ensures NormalizeHour(body) == Invalid([Body]) && NormalizeProvider(body) == Invalid([Body])
    ensures NormalizeCatalogItem(body) == Invalid([Body]) && NormalizeRoutingGroup(body) == Invalid([Body])
    ensures NormalizeSetting(body) == Invalid([Settings])
  {
  }
}
