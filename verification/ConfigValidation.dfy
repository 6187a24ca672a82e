/**
 * The validators an import runs every entity through, over JSON objects, and the objects an export writes.
 *
 * A validator's output is a fixed point: rendered as an export renders it and validated again, it comes back the same,
 * unless lower-casing has made an e-mail address longer than addresses may be.
 * The property names the store knows are an enumeration; any other name is `Custom` and is ignored.
 */
module ConfigValidation {
  import opened Options

  datatype Prop =
    | Key | Name | DisplayName | Timezone | Active | AddressLine1 | AddressLine2 | City | Region | PostalCode | Phone
    | Email
    | OfficeHours | DayOfWeek | Opens | Closes | DisplayOrder | ServiceArea | Providers | Namespace | Value
    | Organization | Locations | ServiceAreas | ConsultationTypes | RoutingGroups | Settings | Body
    | Custom(name: string)

  datatype Json =
    | Null
    | Bool(flag: bool)
    | Int(number: int)
    | Fraction(text: string) // a number that is not an integer
    | Str(chars: string)
    | Arr(items: seq<Json>)
    | Obj(fields: map<Prop, Json>)

  const KEY_LIMIT := 128
  const NAME_LIMIT := 200
  const TIMEZONE_LIMIT := 64
  const ADDRESS_LIMIT := 200
  const CITY_LIMIT := 100
  const POSTAL_CODE_LIMIT := 20
  const PHONE_LIMIT := 40
  const EMAIL_LIMIT := 254
  const NAMESPACE_LIMIT := 64
  const TIME_LIMIT := 5
  const DISPLAY_ORDER_LIMIT := 100_000
  const SETTING_LIMIT := 16_384

  /** A validated field: omitted, a problem, or a value. */
  datatype Field<T> = Absent | Bad | Good(value: T)

  datatype Checked<T> = Valid(item: T) | Invalid(problems: seq<Prop>)

  function Problems(flags: seq<(Prop, bool)>): seq<Prop> {
    if flags == [] then [] else (if flags[0].1 then [flags[0].0] else []) + Problems(flags[1..])
  }

  /** Absent and null mean the same. */
  function Read(o: map<Prop, Json>, p: Prop): Option<Json> {
    if p in o && !o[p].Null? then Some(o[p]) else None
  }

  function Optional<T>(f: Field<T>): Option<T> {
    if f.Good? then Some(f.value) else None
  }

  function Default<T>(f: Field<T>, default: T): T {
    if f.Good? then f.value else default
  }

  // ── Strings ────────────────────────────────────────────────────────────────

  predicate Space(c: char) {
    c in " \t\n\r\U{000B}\U{000C}\U{00A0}\U{1680}\U{2028}\U{2029}\U{202F}\U{205F}\U{3000}\U{FEFF}"
    || '\U{2000}' <= c <= '\U{200A}'
  }

  predicate Trimmed(s: string) {
    s != "" ==> !Space(s[0]) && !Space(s[|s| - 1])
  }

  function Trim(s: string): (t: string)
    ensures Trimmed(t)
    ensures Trimmed(s) ==> t == s
  {
    if s == "" then s
    else if Space(s[0]) then Trim(s[1..])
    else if Space(s[|s| - 1]) then Trim(s[..|s| - 1])
    else s
  }

  predicate LowerOrDigit(c: char) {
    'a' <= c <= 'z' || '0' <= c <= '9'
  }

  predicate KeyShaped(s: string) {
    && s != "" && LowerOrDigit(s[0]) && LowerOrDigit(s[|s| - 1])
    && forall c | c in s :: LowerOrDigit(c) || c == '-'
  }

  predicate TimeShaped(s: string) {
    && |s| == 5 && s[2] == ':'
    && (('0' <= s[0] <= '1' && '0' <= s[1] <= '9') || (s[0] == '2' && '0' <= s[1] <= '3'))
    && '0' <= s[3] <= '5' && '0' <= s[4] <= '9'
  }

  /** String order, as JavaScript and SQLite's binary collation compare. */
  predicate Before(a: string, b: string) {
    b != "" && (a == "" || a[0] < b[0] || (a[0] == b[0] && Before(a[1..], b[1..])))
  }

  /**
   * What lower-casing does to a character. A character may become several, as U+0130 does; what it becomes is
   * lower-cased already, and spaces, '@' and '.' come from themselves only.
   */
  ghost predicate Lowers(f: char -> string) {
    && (forall c :: f(c) != "")
    && (forall c, d | d in f(c) :: f(d) == [d])
    && (forall c, d | d in f(c) && (Space(d) || d == '@') :: c == d)
    && (forall c | c < '\U{0080}' :: f(c) == [AsciiLower(c)])
    && f('\U{0130}') == "i\U{0307}"
  }

  function AsciiLower(c: char): char {
    if 'A' <= c <= 'Z' then c - 'A' + 'a' else c
  }

  /** The least such mapping. */
  function LeastLower(c: char): string {
    if c == '\U{0130}' then "i\U{0307}" else [AsciiLower(c)]
  }

  type Lowering = f: char -> string | Lowers(f) witness LeastLower

  /** The mapping of the Unicode version at hand: any of them. */
  const LOWERING: Lowering

  function Lower(s: string): (t: string)
    ensures |t| >= |s|
  {
    if s == "" then ""
    else
      assert LOWERING(s[0]) != "";
      LOWERING(s[0]) + Lower(s[1..])
  }

  function LastIndexOf(s: string, c: char): (i: int)
    ensures -1 <= i < |s|
    ensures i >= 0 ==> s[i] == c
    ensures forall j | i < j < |s| :: s[j] != c
  {
    if s == "" then -1
    else if s[|s| - 1] == c then |s| - 1
    else LastIndexOf(s[..|s| - 1], c)
  }

  predicate DomainShaped(s: string) {
    (forall c | c in s :: !Space(c) && c != '@') && exists i :: 1 <= i < |s| - 1 && s[i] == '.'
  }

  predicate EmailShaped(s: string) {
    var at := LastIndexOf(s, '@');
    at >= 1 && DomainShaped(s[at + 1..]) && forall c | c in s :: !Space(c)
  }

  function LowerDomain(s: string): string
    requires EmailShaped(s)
  {
    var at := LastIndexOf(s, '@');
    s[..at] + "@" + Lower(s[at + 1..])
  }

  // ── Fields ─────────────────────────────────────────────────────────────────

  function TextField(value: Option<Json>, required: bool, max: nat): Field<string> {
    if value.None? then (if required then Bad else Absent)
    else if !value.value.Str? then Bad
    else
      var trimmed := Trim(value.value.chars);
      if trimmed == "" then (if required then Bad else Absent)
      else if |trimmed| > max then Bad
      else Good(trimmed)
  }

  function KeyField(value: Option<Json>): Field<string> {
    var f := TextField(value, true, KEY_LIMIT);
    if f.Good? && !KeyShaped(f.value) then Bad else f
  }

  function BoolField(value: Option<Json>): Field<bool> {
    if value.None? then Absent else if value.value.Bool? then Good(value.value.flag) else Bad
  }

  function IntField(value: Option<Json>, min: int, max: int): Field<int> {
    if value.None? then Absent
    else if value.value.Int? && min <= value.value.number <= max then Good(value.value.number)
    else Bad
  }

  function EmailField(value: Option<Json>): Field<string> {
    var f := TextField(value, false, EMAIL_LIMIT);
    if !f.Good? then f else if EmailShaped(f.value) then Good(LowerDomain(f.value)) else Bad
  }

  function TimeField(value: Option<Json>): Field<string> {
    var f := TextField(value, true, TIME_LIMIT);
    if f.Good? && !TimeShaped(f.value) then Bad else f
  }

  predicate CleanText(s: string, max: nat) {
    s != "" && Trimmed(s) && |s| <= max
  }

  predicate CleanOption(s: Option<string>, max: nat) {
    s.Some? ==> CleanText(s.value, max)
  }

  predicate CleanKey(s: string) {
    CleanText(s, KEY_LIMIT) && KeyShaped(s)
  }

  /** An address as validation leaves it. */
  predicate CleanEmail(s: Option<string>) {
    s.Some? ==> s.value != "" && Trimmed(s.value) && EmailShaped(s.value) && LowerDomain(s.value) == s.value
  }

  /** Short enough to be accepted again. */
  predicate EmailFits(s: Option<string>) {
    s.Some? ==> |s.value| <= EMAIL_LIMIT
  }

  lemma {:induction false} LowerInTwo(a: string, b: string)
    ensures Lower(a + b) == Lower(a) + Lower(b)
  {
    if a == "" {
      assert a + b == b;
    } else {
      assert (a + b)[1..] == a[1..] + b;
      LowerInTwo(a[1..], b);
    }
  }

  /** Each character comes from one of the original. */
  lemma {:induction false} LowerComesFrom(s: string)
    ensures forall d | d in Lower(s) :: exists c :: c in s && d in LOWERING(c)
  {
    hide Lowers;
    if s != "" {
      LowerComesFrom(s[1..]);
      forall d | d in Lower(s) ensures exists c :: c in s && d in LOWERING(c) {
        if d in LOWERING(s[0]) {
          assert s[0] in s;
        } else {
          assert d in Lower(s[1..]);
          var c :| c in s[1..] && d in LOWERING(c);
          assert c in s;
        }
      }
    }
  }

  lemma {:induction false} LowerFixes(t: string)
    requires forall d | d in t :: LOWERING(d) == [d]
    ensures Lower(t) == t
  {
    hide Lowers;
    if t != "" {
      assert t[0] in t;
      LowerFixes(t[1..]);
      assert t == [t[0]] + t[1..];
    }
  }

  lemma LowerIsFixed(s: string)
    ensures Lower(Lower(s)) == Lower(s)
  {
    LowerComesFrom(s);
    forall d | d in Lower(s) ensures LOWERING(d) == [d] {
      var c :| c in s && d in LOWERING(c);
    }
    LowerFixes(Lower(s));
  }

  lemma LowerKeepsDot()
    ensures Lower(".") == "."
  {
    assert LOWERING('.') == ".";
    assert Lower("") == "";
  }

  lemma LowerKeepsShape(s: string)
    requires DomainShaped(s)
    ensures DomainShaped(Lower(s)) && Lower(Lower(s)) == Lower(s)
  {
    hide Space, Lower;
    LowerIsFixed(s);
    LowerComesFrom(s);
    var t := Lower(s);
    forall d | d in t ensures !Space(d) && d != '@' {
      var c :| c in s && d in LOWERING(c);
    }
    var i :| 1 <= i < |s| - 1 && s[i] == '.';
    var a, b := s[..i], s[i + 1..];
    LowerInTwo(a + ".", b);
    LowerInTwo(a, ".");
    LowerKeepsDot();
    assert s == a + "." + b;
    assert t == Lower(a) + "." + Lower(b);
    assert t[|Lower(a)|] == '.';
  }

  lemma JoinedAt(local: string, domain: string)
    requires forall c | c in domain :: c != '@'
    ensures var t := local + "@" + domain;
            LastIndexOf(t, '@') == |local| && t[|local| + 1..] == domain && t[..|local|] == local
  {
    hide LastIndexOf;
    var t := local + "@" + domain;
    assert t[|local|] == '@';
    forall j | |local| < j < |t| ensures t[j] != '@' {
      assert t[j] == domain[j - |local| - 1];
      assert domain[j - |local| - 1] in domain;
    }
  }

  lemma JoinedChars(local: string, domain: string)
    requires forall c | c in local + domain :: !Space(c)
    ensures forall c | c in local + "@" + domain :: !Space(c)
  {
    hide Space;
    NoSpaceAt('@');
    var t := local + "@" + domain;
    forall c | c in t ensures !Space(c) {
      var i :| 0 <= i < |t| && t[i] == c;
      assert i < |local| ==> c == (local + domain)[i];
      assert i > |local| ==> c == (local + domain)[i - 1];
    }
  }

  /** Lower-casing the domain leaves an address whose domain is lower-cased already. */
  lemma LowerDomainIsFixed(s: string)
    requires EmailShaped(s)
    ensures var t := LowerDomain(s);
            EmailShaped(t) && LowerDomain(t) == t && (forall c | c in t :: !Space(c)) && t != ""
  {
    hide Space, Lower, DomainShaped, LastIndexOf;
    var at := LastIndexOf(s, '@');
    var local, lowered := s[..at], Lower(s[at + 1..]);
    LowerKeepsShape(s[at + 1..]);
    DomainChars(lowered);
    JoinedAt(local, lowered);
    forall c | c in local + lowered ensures !Space(c) {
      assert c in local || c in lowered;
    }
    JoinedChars(local, lowered);
  }

  lemma NoSpaceAt(c: char)
    requires c == '@'
    ensures !Space(c)
  {
  }

  lemma DomainChars(s: string)
    requires DomainShaped(s)
    ensures forall c | c in s :: !Space(c) && c != '@'
  {
  }

  // ── Each field survives ────────────────────────────────────────────────────

  lemma TextIsClean(value: Option<Json>, required: bool, max: nat)
    ensures var f := TextField(value, required, max); (f.Good? ==> CleanText(f.value, max)) && (required ==> !f.Absent?)
  {
    hide Space, Trimmed;
  }

  lemma TextRoundTrip(s: string, required: bool, max: nat)
    requires CleanText(s, max)
    ensures TextField(Some(Str(s)), required, max) == Good(s)
  {
    hide Space, Trimmed;
  }

  lemma OptionRoundTrip(s: Option<string>, max: nat)
    requires CleanOption(s, max)
    ensures var f := TextField(Text(s), false, max); !f.Bad? && Optional(f) == s
  {
    hide TextField, CleanText;
    if s.Some? { TextRoundTrip(s.value, false, max); } else { AbsentText(max); }
  }

  lemma AbsentText(max: nat)
    ensures TextField(None, false, max).Absent?
  {
  }

  lemma KeyIsClean(value: Option<Json>)
    ensures !KeyField(value).Absent? && (KeyField(value).Good? ==> CleanKey(KeyField(value).value))
  {
    hide TextField, CleanText, KeyShaped;
    TextIsClean(value, true, KEY_LIMIT);
  }

  lemma KeyRoundTrip(s: string)
    requires CleanKey(s)
    ensures KeyField(Some(Str(s))) == Good(s)
  {
    hide TextField, CleanText, KeyShaped;
    TextRoundTrip(s, true, KEY_LIMIT);
  }

  lemma TimeIsClean(value: Option<Json>)
    ensures !TimeField(value).Absent? && (TimeField(value).Good? ==> TimeShaped(TimeField(value).value))
  {
    hide TextField, CleanText, TimeShaped;
    TextIsClean(value, true, TIME_LIMIT);
  }

  lemma TimeRoundTrip(s: string)
    requires TimeShaped(s)
    ensures TimeField(Some(Str(s))) == Good(s)
  {
    hide TextField, Before;
    assert CleanText(s, TIME_LIMIT);
    TextRoundTrip(s, true, TIME_LIMIT);
  }

  /** A validated address is one the validator would leave alone, were it not for its length. */
  lemma EmailIsClean(value: Option<Json>)
    ensures CleanEmail(Optional(EmailField(value)))
  {
    hide TextField, EmailShaped, LowerDomain, Space;
    TextIsClean(value, false, EMAIL_LIMIT);
    var f := TextField(value, false, EMAIL_LIMIT);
    if f.Good? && EmailShaped(f.value) {
      LowerDomainIsFixed(f.value);
      var t := LowerDomain(f.value);
      assert t[0] in t && t[|t| - 1] in t;
    }
  }

  lemma EmailRoundTrip(s: Option<string>)
    requires CleanEmail(s)
    ensures var f := EmailField(Text(s)); (f.Bad? <==> !EmailFits(s)) && (EmailFits(s) ==> Optional(f) == s)
  {
    hide EmailShaped, LowerDomain, Space, Trimmed;
  }

  function Repeated(c: char, n: nat): string {
    if n == 0 then "" else [c] + Repeated(c, n - 1)
  }

  lemma {:induction false} RepeatedLowers(n: nat)
    ensures |Repeated('\U{0130}', n)| == n && |Lower(Repeated('\U{0130}', n))| == 2 * n
    ensures forall c | c in Repeated('\U{0130}', n) :: c == '\U{0130}'
  {
    if n > 0 {
      RepeatedLowers(n - 1);
      assert LOWERING('\U{0130}') == "i\U{0307}";
      assert Repeated('\U{0130}', n)[1..] == Repeated('\U{0130}', n - 1);
    }
  }

  /** An accepted address of 204 characters. */
  function LongAddress(): string {
    "a@" + Repeated('\U{0130}', 200) + ".x"
  }

  lemma LongAddressIsAccepted()
    ensures EmailShaped(LongAddress()) && |LongAddress()| == 204 && |LowerDomain(LongAddress())| == 404
    ensures Trimmed(LongAddress())
  {
    hide Repeated, Lower, LastIndexOf, Lowers;
    RepeatedLowers(200);
    var middle := Repeated('\U{0130}', 200);
    var domain := middle + ".x";
    forall c | c in domain ensures !Space(c) && c != '@' {
      assert c in middle || c in ".x";
    }
    assert domain[200] == '.';
    JoinedAt("a", domain);
    assert LongAddress() == "a" + "@" + domain;
    forall c | c in LongAddress() ensures !Space(c) {
      assert c == 'a' || c == '@' || c in domain;
    }
    LowerInTwo(middle, ".x");
    DotX();
  }

  lemma DotX()
    ensures |Lower(".x")| == 2
  {
    assert LOWERING('.') == "." && LOWERING('x') == "x";
    assert ".x"[1..] == "x" && "x"[1..] == "";
    assert Lower("x") == "x";
  }

  /** The input: it is accepted and stored with 404 characters, which the same validator refuses. */
  lemma LengthenedEmailIsRefused()
    ensures var f := EmailField(Some(Str(LongAddress())));
            f.Good? && |f.value| == 404 && CleanEmail(Some(f.value)) && EmailField(Some(Str(f.value))).Bad?
  {
    hide EmailShaped, LowerDomain, LongAddress, Space, Trimmed;
    LongAddressIsAccepted();
    var given := Some(Str(LongAddress()));
    assert TextField(given, false, EMAIL_LIMIT) == Good(LongAddress());
    EmailIsClean(given);
    EmailRoundTrip(Some(EmailField(given).value));
  }

  // ── Entities ───────────────────────────────────────────────────────────────

  datatype OrganizationItem = OrganizationItem(key: string, cols: OrganizationCols)
  datatype OrganizationCols = OrganizationCols(name: string, displayName: Option<string>, timezone: string,
                                               active: bool)

  datatype Hour = Hour(dayOfWeek: int, opens: string, closes: string)

  datatype LocationItem = LocationItem(key: string, cols: LocationCols, officeHours: Option<seq<Hour>>)
  datatype LocationCols = LocationCols(name: string, addressLine1: Option<string>, addressLine2: Option<string>,
                                       city: Option<string>,
                                       region: Option<string>, postalCode: Option<string>, phone: Option<string>,
                                       active: bool)

  datatype ProviderItem = ProviderItem(key: string, cols: ProviderCols)
  datatype ProviderCols = ProviderCols(name: string, displayName: Option<string>, email: Option<string>,
                                       phone: Option<string>, active: bool)

  datatype CatalogItem = CatalogItem(key: string, cols: CatalogCols)
  datatype CatalogCols = CatalogCols(name: string, displayOrder: int, active: bool)

  datatype GroupItem = GroupItem(key: string, name: string, serviceArea: string, active: bool,
                                 providers: Option<seq<string>>)

  datatype SettingItem = SettingItem(namespace: string, key: string, value: Json)

  function NormalizeOrganization(body: Json): Checked<OrganizationItem> {
    if !body.Obj? then Invalid([Body])
    else
      var o := body.fields;
      var key, name := KeyField(Read(o, Key)), TextField(Read(o, Name), true, NAME_LIMIT);
      var displayName := TextField(Read(o, DisplayName), false, NAME_LIMIT);
      var timezone := TextField(Read(o, Timezone), false, TIMEZONE_LIMIT);
      var active := BoolField(Read(o, Active));
      if key.Bad? || name.Bad? || displayName.Bad? || timezone.Bad? || active.Bad? then
        Invalid(Problems([(Key, key.Bad?), (Name, name.Bad?), (DisplayName, displayName.Bad?),
                          (Timezone, timezone.Bad?), (Active, active.Bad?)]))
      else
        Valid(OrganizationItem(key.value,
                OrganizationCols(name.value, Optional(displayName), Default(timezone, "UTC"), Default(active, true))))
  }

  function NormalizeHour(entry: Json): Checked<Hour> {
    if !entry.Obj? then Invalid([Body])
    else
      var o := entry.fields;
      var day := IntField(Read(o, DayOfWeek), 0, 6);
      var opens, closes := TimeField(Read(o, Opens)), TimeField(Read(o, Closes));
      var misordered := opens.Good? && closes.Good? && !Before(opens.value, closes.value);
      if !day.Good? || opens.Bad? || closes.Bad? || misordered then
        Invalid(Problems([(DayOfWeek, !day.Good?), (Opens, opens.Bad?), (Closes, closes.Bad? || misordered)]))
      else Valid(Hour(day.value, opens.value, closes.value))
  }

  function NormalizeHours(entries: seq<Json>): Checked<seq<Hour>> {
    if entries == [] then Valid([])
    else
      var first, rest := NormalizeHour(entries[0]), NormalizeHours(entries[1..]);
      if first.Invalid? then Invalid(first.problems + if rest.Invalid? then rest.problems else [])
      else if rest.Invalid? then rest
      else Valid([first.item] + rest.item)
  }

  function NormalizeLocation(body: Json): Checked<LocationItem> {
    if !body.Obj? then Invalid([Body])
    else
      var o := body.fields;
      var key, name := KeyField(Read(o, Key)), TextField(Read(o, Name), true, NAME_LIMIT);
      var line1 := TextField(Read(o, AddressLine1), false, ADDRESS_LIMIT);
      var line2 := TextField(Read(o, AddressLine2), false, ADDRESS_LIMIT);
      var city := TextField(Read(o, City), false, CITY_LIMIT);
      var region := TextField(Read(o, Region), false, CITY_LIMIT);
      var postalCode := TextField(Read(o, PostalCode), false, POSTAL_CODE_LIMIT);
      var phone := TextField(Read(o, Phone), false, PHONE_LIMIT);
      var active := BoolField(Read(o, Active));
      if key.Bad? || name.Bad? || line1.Bad? || line2.Bad? || city.Bad? || region.Bad? || postalCode.Bad? || phone.Bad?
         || active.Bad? then
        Invalid(Problems([(Key, key.Bad?), (Name, name.Bad?), (AddressLine1, line1.Bad?), (AddressLine2, line2.Bad?),
                          (City, city.Bad?), (Region, region.Bad?), (PostalCode, postalCode.Bad?), (Phone, phone.Bad?),
                          (Active, active.Bad?)]))
      else
        var cols := LocationCols(name.value, Optional(line1), Optional(line2), Optional(city), Optional(region),
                                 Optional(postalCode), Optional(phone), Default(active, true));
        if OfficeHours !in o then Valid(LocationItem(key.value, cols, None))
        else if !o[OfficeHours].Arr? then Invalid([OfficeHours])
        else
          var hours := NormalizeHours(o[OfficeHours].items);
          if hours.Invalid? then Invalid(hours.problems) else Valid(LocationItem(key.value, cols, Some(hours.item)))
  }

  function NormalizeProvider(body: Json): Checked<ProviderItem> {
    if !body.Obj? then Invalid([Body])
    else
      var o := body.fields;
      var key, name := KeyField(Read(o, Key)), TextField(Read(o, Name), true, NAME_LIMIT);
      var displayName := TextField(Read(o, DisplayName), false, NAME_LIMIT);
      var email := EmailField(Read(o, Email));
      var phone := TextField(Read(o, Phone), false, PHONE_LIMIT);
      var active := BoolField(Read(o, Active));
      if key.Bad? || name.Bad? || displayName.Bad? || email.Bad? || phone.Bad? || active.Bad? then
        Invalid(Problems([(Key, key.Bad?), (Name, name.Bad?), (DisplayName, displayName.Bad?), (Email, email.Bad?),
                          (Phone, phone.Bad?), (Active, active.Bad?)]))
      else
        Valid(ProviderItem(key.value,
                           ProviderCols(name.value, Optional(displayName), Optional(email), Optional(phone),
                                        Default(active, true))))
  }

  function NormalizeCatalogItem(body: Json): Checked<CatalogItem> {
    if !body.Obj? then Invalid([Body])
    else
      var o := body.fields;
      var key, name := KeyField(Read(o, Key)), TextField(Read(o, Name), true, NAME_LIMIT);
      var order := IntField(Read(o, DisplayOrder), 0, DISPLAY_ORDER_LIMIT);
      var active := BoolField(Read(o, Active));
      if key.Bad? || name.Bad? || order.Bad? || active.Bad? then
        Invalid(Problems([(Key, key.Bad?), (Name, name.Bad?), (DisplayOrder, order.Bad?), (Active, active.Bad?)]))
      else Valid(CatalogItem(key.value, CatalogCols(name.value, Default(order, 0), Default(active, true))))
  }

  function NormalizeKeys(entries: seq<Json>): Field<seq<string>> {
    if entries == [] then Good([])
    else
      var first := KeyField(if entries[0].Null? then None else Some(entries[0]));
      var rest := NormalizeKeys(entries[1..]);
      if first.Good? && rest.Good? then Good([first.value] + rest.value) else Bad
  }

  function NormalizeRoutingGroup(body: Json): Checked<GroupItem> {
    if !body.Obj? then Invalid([Body])
    else
      var o := body.fields;
      var key, name := KeyField(Read(o, Key)), TextField(Read(o, Name), true, NAME_LIMIT);
      var area := KeyField(Read(o, ServiceArea));
      var active := BoolField(Read(o, Active));
      var providers :=
        if Providers !in o then Absent else if o[Providers].Arr? then NormalizeKeys(o[Providers].items) else Bad;
      if key.Bad? || name.Bad? || area.Bad? || active.Bad? || providers.Bad? then
        Invalid(Problems([(Key, key.Bad?), (Name, name.Bad?), (ServiceArea, area.Bad?), (Active, active.Bad?),
                          (Providers, providers.Bad?)]))
      else Valid(GroupItem(key.value, name.value, area.value, Default(active, true), Optional(providers)))
  }

  /** A setting's value is kept whole; the limit on its serialized length is not modelled. */
  /** How long a value is as JSON text, whatever the serializer. */
  const SERIALIZED_LENGTH: Json -> nat

  function NormalizeSetting(entry: Json): Checked<SettingItem> {
    if !entry.Obj? then Invalid([Settings])
    else
      var o := entry.fields;
      var namespace, key := KeyField(Read(o, Namespace)), KeyField(Read(o, Key));
      var tooLong := namespace.Good? && |namespace.value| > NAMESPACE_LIMIT;
      var unfit := Value !in o || SERIALIZED_LENGTH(o[Value]) > SETTING_LIMIT;
      if namespace.Bad? || key.Bad? || tooLong || unfit then
        Invalid(Problems([(Namespace, namespace.Bad? || tooLong), (Key, key.Bad?), (Value, unfit)]))
      else Valid(SettingItem(namespace.value, key.value, o[Value]))
  }

  // ── What is stored is clean ────────────────────────────────────────────────

  predicate CleanOrganization(x: OrganizationItem) {
    CleanKey(x.key) && CleanText(x.cols.name, NAME_LIMIT) && CleanOption(x.cols.displayName, NAME_LIMIT)
    && CleanText(x.cols.timezone, TIMEZONE_LIMIT)
  }

  predicate CleanHour(h: Hour) {
    0 <= h.dayOfWeek <= 6 && TimeShaped(h.opens) && TimeShaped(h.closes) && Before(h.opens, h.closes)
  }

  predicate CleanLocationCols(c: LocationCols) {
    && CleanText(c.name, NAME_LIMIT) && CleanOption(c.addressLine1, ADDRESS_LIMIT)
    && CleanOption(c.addressLine2, ADDRESS_LIMIT)
    && CleanOption(c.city, CITY_LIMIT) && CleanOption(c.region, CITY_LIMIT)
    && CleanOption(c.postalCode, POSTAL_CODE_LIMIT)
    && CleanOption(c.phone, PHONE_LIMIT)
  }

  predicate CleanLocation(x: LocationItem) {
    CleanKey(x.key) && CleanLocationCols(x.cols)
    && (x.officeHours.Some? ==> forall h | h in x.officeHours.value :: CleanHour(h))
  }

  predicate CleanProvider(x: ProviderItem) {
    && CleanKey(x.key) && CleanText(x.cols.name, NAME_LIMIT) && CleanOption(x.cols.displayName, NAME_LIMIT)
    && CleanEmail(x.cols.email) && CleanOption(x.cols.phone, PHONE_LIMIT)
  }

  predicate CleanCatalogItem(x: CatalogItem) {
    CleanKey(x.key) && CleanText(x.cols.name, NAME_LIMIT) && 0 <= x.cols.displayOrder <= DISPLAY_ORDER_LIMIT
  }

  predicate CleanGroup(x: GroupItem) {
    && CleanKey(x.key) && CleanText(x.name, NAME_LIMIT) && CleanKey(x.serviceArea)
    && (x.providers.Some? ==> forall k | k in x.providers.value :: CleanKey(k))
  }

  predicate CleanSetting(x: SettingItem) {
    && CleanKey(x.namespace) && CleanKey(x.key) && |x.namespace| <= NAMESPACE_LIMIT
    && SERIALIZED_LENGTH(x.value) <= SETTING_LIMIT
  }

  lemma OrganizationIsClean(body: Json)
    requires NormalizeOrganization(body).Valid?
    ensures CleanOrganization(NormalizeOrganization(body).item)
  {
    hide TextField, KeyField, TimeField, EmailField, CleanText, CleanKey, CleanEmail, KeyShaped, TimeShaped, Before,
         Problems;
    var o := body.fields;
    KeyIsClean(Read(o, Key));
    TextIsClean(Read(o, Name), true, NAME_LIMIT);
    TextIsClean(Read(o, DisplayName), false, NAME_LIMIT);
    TextIsClean(Read(o, Timezone), false, TIMEZONE_LIMIT);
    UtcIsClean();
  }

  lemma UtcIsClean()
    ensures CleanText("UTC", TIMEZONE_LIMIT)
  {
  }

  lemma {:induction false} HoursAreClean(entries: seq<Json>)
    requires NormalizeHours(entries).Valid?
    ensures forall h | h in NormalizeHours(entries).item :: CleanHour(h)
  {
    hide TextField, KeyField, TimeField, EmailField, CleanText, CleanKey, CleanEmail, KeyShaped, TimeShaped, Before,
         Problems;
    if entries != [] {
      TimeIsClean(Read(entries[0].fields, Opens));
      TimeIsClean(Read(entries[0].fields, Closes));
      HoursAreClean(entries[1..]);
    }
  }

  lemma LocationIsClean(body: Json)
    requires NormalizeLocation(body).Valid?
    ensures CleanLocation(NormalizeLocation(body).item)
  {
    hide TextField, KeyField, TimeField, EmailField, CleanText, CleanKey, CleanEmail, KeyShaped, TimeShaped, Before,
         Problems, NormalizeHours;
    var o := body.fields;
    KeyIsClean(Read(o, Key));
    TextIsClean(Read(o, Name), true, NAME_LIMIT);
    TextIsClean(Read(o, AddressLine1), false, ADDRESS_LIMIT);
    TextIsClean(Read(o, AddressLine2), false, ADDRESS_LIMIT);
    TextIsClean(Read(o, City), false, CITY_LIMIT);
    TextIsClean(Read(o, Region), false, CITY_LIMIT);
    TextIsClean(Read(o, PostalCode), false, POSTAL_CODE_LIMIT);
    TextIsClean(Read(o, Phone), false, PHONE_LIMIT);
    if OfficeHours in o { HoursAreClean(o[OfficeHours].items); }
  }

  lemma ProviderIsClean(body: Json)
    requires NormalizeProvider(body).Valid?
    ensures CleanProvider(NormalizeProvider(body).item)
  {
    hide TextField, KeyField, TimeField, EmailField, CleanText, CleanKey, CleanEmail, KeyShaped, TimeShaped, Before,
         Problems;
    var o := body.fields;
    KeyIsClean(Read(o, Key));
    TextIsClean(Read(o, Name), true, NAME_LIMIT);
    TextIsClean(Read(o, DisplayName), false, NAME_LIMIT);
    EmailIsClean(Read(o, Email));
    TextIsClean(Read(o, Phone), false, PHONE_LIMIT);
  }

  lemma CatalogItemIsClean(body: Json)
    requires NormalizeCatalogItem(body).Valid?
    ensures CleanCatalogItem(NormalizeCatalogItem(body).item)
  {
    hide TextField, KeyField, TimeField, EmailField, CleanText, CleanKey, CleanEmail, KeyShaped, TimeShaped, Before,
         Problems;
    KeyIsClean(Read(body.fields, Key));
    TextIsClean(Read(body.fields, Name), true, NAME_LIMIT);
  }

  lemma {:induction false} KeysAreClean(entries: seq<Json>)
    requires NormalizeKeys(entries).Good?
    ensures forall k | k in NormalizeKeys(entries).value :: CleanKey(k)
  {
    hide TextField, KeyField, TimeField, EmailField, CleanText, CleanKey, CleanEmail, KeyShaped, TimeShaped, Before,
         Problems;
    if entries != [] {
      KeyIsClean(if entries[0].Null? then None else Some(entries[0]));
      KeysAreClean(entries[1..]);
    }
  }

  lemma GroupIsClean(body: Json)
    requires NormalizeRoutingGroup(body).Valid?
    ensures CleanGroup(NormalizeRoutingGroup(body).item)
  {
    hide TextField, KeyField, TimeField, EmailField, CleanText, CleanKey, CleanEmail, KeyShaped, TimeShaped, Before,
         Problems, NormalizeKeys;
    KeyIsClean(Read(body.fields, Key));
    TextIsClean(Read(body.fields, Name), true, NAME_LIMIT);
    KeyIsClean(Read(body.fields, ServiceArea));
    if Providers in body.fields && body.fields[Providers].Arr? && NormalizeKeys(body.fields[Providers].items).Good? {
      KeysAreClean(body.fields[Providers].items);
    }
  }

  lemma SettingIsClean(body: Json)
    requires NormalizeSetting(body).Valid?
    ensures CleanSetting(NormalizeSetting(body).item)
  {
    hide TextField, KeyField, TimeField, EmailField, CleanText, CleanKey, CleanEmail, KeyShaped, TimeShaped, Before,
         Problems;
    KeyIsClean(Read(body.fields, Namespace));
    KeyIsClean(Read(body.fields, Key));
  }

  // ── Rendering, as an export does ───────────────────────────────────────────

  function Text(s: Option<string>): Option<Json> {
    if s.Some? then Some(Str(s.value)) else None
  }

  function OrganizationField(x: OrganizationItem, p: Prop): Option<Json> {
    match p
    case Key => Some(Str(x.key))
    case Name => Some(Str(x.cols.name))
    case DisplayName => Text(x.cols.displayName)
    case Timezone => Some(Str(x.cols.timezone))
    case Active => Some(Bool(x.cols.active))
    case _ => None
  }

  /** Without the properties that have no value. */
  function RenderOrganization(x: OrganizationItem): Json {
    Obj(map p | p in {Key, Name, DisplayName, Timezone, Active} && OrganizationField(x, p).Some? ::
          OrganizationField(x, p).value)
  }

  lemma OrganizationReads(x: OrganizationItem, p: Prop)
    requires p in {Key, Name, DisplayName, Timezone, Active}
    ensures Read(RenderOrganization(x).fields, p) == OrganizationField(x, p)
    ensures p in RenderOrganization(x).fields <==> OrganizationField(x, p).Some?
  {
  }

  function HourField(h: Hour, p: Prop): Option<Json> {
    match p
    case DayOfWeek => Some(Int(h.dayOfWeek))
    case Opens => Some(Str(h.opens))
    case Closes => Some(Str(h.closes))
    case _ => None
  }

  /** Without the properties that have no value. */
  function RenderHour(h: Hour): Json {
    Obj(map p | p in {DayOfWeek, Opens, Closes} && HourField(h, p).Some? :: HourField(h, p).value)
  }

  lemma HourReads(h: Hour, p: Prop)
    requires p in {DayOfWeek, Opens, Closes}
    ensures Read(RenderHour(h).fields, p) == HourField(h, p)
    ensures p in RenderHour(h).fields <==> HourField(h, p).Some?
  {
  }

  function RenderHours(hours: seq<Hour>): seq<Json> {
    seq(|hours|, i requires 0 <= i < |hours| => RenderHour(hours[i]))
  }

  function LocationField(x: LocationItem, p: Prop): Option<Json> {
    match p
    case Key => Some(Str(x.key))
    case Name => Some(Str(x.cols.name))
    case AddressLine1 => Text(x.cols.addressLine1)
    case AddressLine2 => Text(x.cols.addressLine2)
    case City => Text(x.cols.city)
    case Region => Text(x.cols.region)
    case PostalCode => Text(x.cols.postalCode)
    case Phone => Text(x.cols.phone)
    case Active => Some(Bool(x.cols.active))
    case OfficeHours => if x.officeHours.Some? then Some(Arr(RenderHours(x.officeHours.value))) else None
    case _ => None
  }

  /** Without the properties that have no value. */
  function RenderLocation(x: LocationItem): Json {
    Obj(map p | p in {Key, Name, AddressLine1, AddressLine2, City, Region, PostalCode, Phone, Active, OfficeHours}
        && LocationField(x, p).Some? :: LocationField(x, p).value)
  }

  lemma LocationReads(x: LocationItem, p: Prop)
    requires p in {Key, Name, AddressLine1, AddressLine2, City, Region, PostalCode, Phone, Active, OfficeHours}
    ensures Read(RenderLocation(x).fields, p) == LocationField(x, p)
    ensures p in RenderLocation(x).fields <==> LocationField(x, p).Some?
  {
  }

  function ProviderField(x: ProviderItem, p: Prop): Option<Json> {
    match p
    case Key => Some(Str(x.key))
    case Name => Some(Str(x.cols.name))
    case DisplayName => Text(x.cols.displayName)
    case Email => Text(x.cols.email)
    case Phone => Text(x.cols.phone)
    case Active => Some(Bool(x.cols.active))
    case _ => None
  }

  /** Without the properties that have no value. */
  function RenderProvider(x: ProviderItem): Json {
    Obj(map p | p in {Key, Name, DisplayName, Email, Phone, Active} && ProviderField(x, p).Some? ::
          ProviderField(x, p).value)
  }

  lemma ProviderReads(x: ProviderItem, p: Prop)
    requires p in {Key, Name, DisplayName, Email, Phone, Active}
    ensures Read(RenderProvider(x).fields, p) == ProviderField(x, p)
    ensures p in RenderProvider(x).fields <==> ProviderField(x, p).Some?
  {
  }

  function CatalogItemField(x: CatalogItem, p: Prop): Option<Json> {
    match p
    case Key => Some(Str(x.key))
    case Name => Some(Str(x.cols.name))
    case DisplayOrder => Some(Int(x.cols.displayOrder))
    case Active => Some(Bool(x.cols.active))
    case _ => None
  }

  /** Without the properties that have no value. */
  function RenderCatalogItem(x: CatalogItem): Json {
    Obj(map p | p in {Key, Name, DisplayOrder, Active} && CatalogItemField(x, p).Some? :: CatalogItemField(x, p).value)
  }

  lemma CatalogItemReads(x: CatalogItem, p: Prop)
    requires p in {Key, Name, DisplayOrder, Active}
    ensures Read(RenderCatalogItem(x).fields, p) == CatalogItemField(x, p)
    ensures p in RenderCatalogItem(x).fields <==> CatalogItemField(x, p).Some?
  {
  }

  function RenderKeys(keys: seq<string>): seq<Json> {
    seq(|keys|, i requires 0 <= i < |keys| => Str(keys[i]))
  }

  function GroupField(x: GroupItem, p: Prop): Option<Json> {
    match p
    case Key => Some(Str(x.key))
    case Name => Some(Str(x.name))
    case ServiceArea => Some(Str(x.serviceArea))
    case Active => Some(Bool(x.active))
    case Providers => if x.providers.Some? then Some(Arr(RenderKeys(x.providers.value))) else None
    case _ => None
  }

  /** Without the properties that have no value. */
  function RenderGroup(x: GroupItem): Json {
    Obj(map p | p in {Key, Name, ServiceArea, Active, Providers} && GroupField(x, p).Some? :: GroupField(x, p).value)
  }

  lemma GroupReads(x: GroupItem, p: Prop)
    requires p in {Key, Name, ServiceArea, Active, Providers}
    ensures Read(RenderGroup(x).fields, p) == GroupField(x, p)
    ensures p in RenderGroup(x).fields <==> GroupField(x, p).Some?
  {
  }

  function RenderSetting(x: SettingItem): Json {
    Obj(map[Namespace := Str(x.namespace), Key := Str(x.key), Value := x.value])
  }

  // ── Round trips: what is clean survives being exported and imported ────────

  lemma OrganizationRenders(x: OrganizationItem)
    ensures RenderOrganization(x).Obj?
  {
  }

  lemma OrganizationRoundTrip(x: OrganizationItem)
    requires CleanOrganization(x)
    ensures NormalizeOrganization(RenderOrganization(x)) == Valid(x)
  {
    hide TextField, KeyField, TimeField, EmailField, CleanText, CleanKey, CleanEmail, KeyShaped, TimeShaped, Before,
         Problems, Read, RenderOrganization;
    OrganizationReads(x, Key);
    OrganizationReads(x, Name);
    OrganizationReads(x, DisplayName);
    OrganizationReads(x, Timezone);
    OrganizationReads(x, Active);
    KeyRoundTrip(x.key);
    TextRoundTrip(x.cols.name, true, NAME_LIMIT);
    OptionRoundTrip(x.cols.displayName, NAME_LIMIT);
    TextRoundTrip(x.cols.timezone, false, TIMEZONE_LIMIT);
    OrganizationRenders(x);
  }

  lemma HourRenders(h: Hour)
    ensures RenderHour(h).Obj?
  {
  }

  lemma HourRoundTrip(h: Hour)
    requires CleanHour(h)
    ensures NormalizeHour(RenderHour(h)) == Valid(h)
  {
    hide TextField, KeyField, TimeField, EmailField, CleanText, CleanKey, CleanEmail, KeyShaped, TimeShaped, Before,
         Problems, Read, RenderHour;
    HourReads(h, DayOfWeek);
    HourReads(h, Opens);
    HourReads(h, Closes);
    TimeRoundTrip(h.opens);
    TimeRoundTrip(h.closes);
    HourRenders(h);
  }

  lemma {:induction false} HoursRoundTrip(hours: seq<Hour>)
    requires forall h | h in hours :: CleanHour(h)
    ensures NormalizeHours(RenderHours(hours)) == Valid(hours)
  {
    hide NormalizeHour, RenderHour, CleanHour;
    if hours != [] {
      HourRoundTrip(hours[0]);
      HoursRoundTrip(hours[1..]);
      assert RenderHours(hours)[1..] == RenderHours(hours[1..]);
      assert hours == [hours[0]] + hours[1..];
    }
  }

  lemma LocationRenders(x: LocationItem)
    ensures RenderLocation(x).Obj? && (x.officeHours.Some? ==> OfficeHours in RenderLocation(x).fields)
            && (x.officeHours.Some? ==> RenderLocation(x).fields[OfficeHours] == Arr(RenderHours(x.officeHours.value)))
  {
    hide RenderHours;
  }

  lemma LocationRoundTrip(x: LocationItem)
    requires CleanLocation(x)
    ensures NormalizeLocation(RenderLocation(x)) == Valid(x)
  {
    hide TextField, KeyField, TimeField, EmailField, CleanText, CleanKey, CleanEmail, KeyShaped, TimeShaped, Before,
         Problems, Read, RenderLocation, NormalizeHours, RenderHours;
    LocationReads(x, Key);
    LocationReads(x, Name);
    LocationReads(x, AddressLine1);
    LocationReads(x, AddressLine2);
    LocationReads(x, City);
    LocationReads(x, Region);
    LocationReads(x, PostalCode);
    LocationReads(x, Phone);
    LocationReads(x, Active);
    LocationReads(x, OfficeHours);
    KeyRoundTrip(x.key);
    TextRoundTrip(x.cols.name, true, NAME_LIMIT);
    OptionRoundTrip(x.cols.addressLine1, ADDRESS_LIMIT);
    OptionRoundTrip(x.cols.addressLine2, ADDRESS_LIMIT);
    OptionRoundTrip(x.cols.city, CITY_LIMIT);
    OptionRoundTrip(x.cols.region, CITY_LIMIT);
    OptionRoundTrip(x.cols.postalCode, POSTAL_CODE_LIMIT);
    OptionRoundTrip(x.cols.phone, PHONE_LIMIT);
    LocationRenders(x);
    if x.officeHours.Some? { HoursRoundTrip(x.officeHours.value); }
  }

  lemma ProviderRenders(x: ProviderItem)
    ensures RenderProvider(x).Obj?
  {
  }

  lemma OnlyEmail(flags: seq<(Prop, bool)>)
    requires flags
               == [(Key, false), (Name, false), (DisplayName, false), (Email, true), (Phone, false), (Active, false)]
    ensures Problems(flags) == [Email]
  {
    assert flags[1..][1..][1..] == [(Email, true), (Phone, false), (Active, false)];
    assert Problems([(Phone, false), (Active, false)]) == [] by {
      assert [(Phone, false), (Active, false)][1..] == [(Active, false)] && [(Active, false)][1..] == [];
    }
    assert flags[1..][1..][1..][1..] == [(Phone, false), (Active, false)];
    assert Problems(flags[1..][1..][1..]) == [Email];
    assert Problems(flags[1..][1..]) == [Email];
    assert Problems(flags[1..]) == [Email];
  }

  lemma ProviderRoundTrip(x: ProviderItem)
    requires CleanProvider(x)
    ensures NormalizeProvider(RenderProvider(x)) == if EmailFits(x.cols.email) then Valid(x) else Invalid([Email])
  {
    hide TextField, KeyField, TimeField, EmailField, CleanText, CleanKey, CleanEmail, KeyShaped, TimeShaped, Before,
         Problems, Read, RenderProvider;
    ProviderReads(x, Key);
    ProviderReads(x, Name);
    ProviderReads(x, DisplayName);
    ProviderReads(x, Email);
    ProviderReads(x, Phone);
    ProviderReads(x, Active);
    KeyRoundTrip(x.key);
    TextRoundTrip(x.cols.name, true, NAME_LIMIT);
    OptionRoundTrip(x.cols.displayName, NAME_LIMIT);
    EmailRoundTrip(x.cols.email);
    OptionRoundTrip(x.cols.phone, PHONE_LIMIT);
    ProviderRenders(x);
    OnlyEmail([(Key, false), (Name, false), (DisplayName, false), (Email, true), (Phone, false), (Active, false)]);
  }

  /** A provider given with the long address is accepted with the longer one. */
  lemma LongProviderIsAccepted(x: ProviderItem)
    requires CleanProvider(x.(cols := x.cols.(email := None))) && x.cols.email == Some(LongAddress())
    ensures var f := EmailField(Some(Str(LongAddress())));
            && f.Good? && !EmailFits(Some(f.value))
            && NormalizeProvider(RenderProvider(x)) == Valid(x.(cols := x.cols.(email := Some(f.value))))
  {
    hide TextField, KeyField, TimeField, EmailField, CleanText, CleanKey, CleanEmail, KeyShaped, TimeShaped, Before,
         Problems, Read, RenderProvider, LongAddress;
    ProviderReads(x, Key);
    ProviderReads(x, Name);
    ProviderReads(x, DisplayName);
    ProviderReads(x, Email);
    ProviderReads(x, Phone);
    ProviderReads(x, Active);
    KeyRoundTrip(x.key);
    TextRoundTrip(x.cols.name, true, NAME_LIMIT);
    OptionRoundTrip(x.cols.displayName, NAME_LIMIT);
    OptionRoundTrip(x.cols.phone, PHONE_LIMIT);
    LengthenedEmailIsRefused();
    ProviderRenders(x);
  }

  lemma CatalogItemRenders(x: CatalogItem)
    ensures RenderCatalogItem(x).Obj?
  {
  }

  lemma CatalogItemRoundTrip(x: CatalogItem)
    requires CleanCatalogItem(x)
    ensures NormalizeCatalogItem(RenderCatalogItem(x)) == Valid(x)
  {
    hide TextField, KeyField, TimeField, EmailField, CleanText, CleanKey, CleanEmail, KeyShaped, TimeShaped, Before,
         Problems, Read, RenderCatalogItem;
    CatalogItemReads(x, Key);
    CatalogItemReads(x, Name);
    CatalogItemReads(x, DisplayOrder);
    CatalogItemReads(x, Active);
    KeyRoundTrip(x.key);
    TextRoundTrip(x.cols.name, true, NAME_LIMIT);
    CatalogItemRenders(x);
  }

  lemma {:induction false} KeysRoundTrip(keys: seq<string>)
    requires forall k | k in keys :: CleanKey(k)
    ensures NormalizeKeys(RenderKeys(keys)) == Good(keys)
  {
    hide KeyField, CleanKey;
    if keys != [] {
      KeyRoundTrip(keys[0]);
      KeysRoundTrip(keys[1..]);
      assert RenderKeys(keys)[1..] == RenderKeys(keys[1..]);
      assert keys == [keys[0]] + keys[1..];
    }
  }

  lemma GroupRenders(x: GroupItem)
    ensures RenderGroup(x).Obj? && (x.providers.Some? ==> Providers in RenderGroup(x).fields)
            && (x.providers.Some? ==> RenderGroup(x).fields[Providers] == Arr(RenderKeys(x.providers.value)))
  {
    hide RenderKeys;
  }

  lemma GroupRoundTrip(x: GroupItem)
    requires CleanGroup(x)
    ensures NormalizeRoutingGroup(RenderGroup(x)) == Valid(x)
  {
    hide TextField, KeyField, TimeField, EmailField, CleanText, CleanKey, CleanEmail, KeyShaped, TimeShaped, Before,
         Problems, Read, RenderGroup, NormalizeKeys, RenderKeys;
    GroupReads(x, Key);
    GroupReads(x, Name);
    GroupReads(x, ServiceArea);
    GroupReads(x, Active);
    GroupReads(x, Providers);
    KeyRoundTrip(x.key);
    TextRoundTrip(x.name, true, NAME_LIMIT);
    KeyRoundTrip(x.serviceArea);
    GroupRenders(x);
    if x.providers.Some? { KeysRoundTrip(x.providers.value); }
  }

  lemma SettingRoundTrip(x: SettingItem)
    requires CleanSetting(x)
    ensures NormalizeSetting(RenderSetting(x)) == Valid(x)
  {
    hide TextField, KeyField, TimeField, EmailField, CleanText, CleanKey, CleanEmail, KeyShaped, TimeShaped, Before,
         Problems;
    KeyRoundTrip(x.namespace);
    KeyRoundTrip(x.key);
  }

  /**
   * Every validator's output is a fixed point of rendering and validating again; a provider's if and only if its
   * lower-cased address is still short enough.
   */
  lemma ValidatorsAreFixedPoints(body: Json)
    ensures var v := NormalizeOrganization(body); v.Valid? ==> NormalizeOrganization(RenderOrganization(v.item)) == v
    ensures var v := NormalizeLocation(body); v.Valid? ==> NormalizeLocation(RenderLocation(v.item)) == v
    ensures var v := NormalizeProvider(body);
            v.Valid? ==> (NormalizeProvider(RenderProvider(v.item)) == v <==> EmailFits(v.item.cols.email))
    ensures var v := NormalizeCatalogItem(body); v.Valid? ==> NormalizeCatalogItem(RenderCatalogItem(v.item)) == v
    ensures var v := NormalizeRoutingGroup(body); v.Valid? ==> NormalizeRoutingGroup(RenderGroup(v.item)) == v
    ensures var v := NormalizeSetting(body); v.Valid? ==> NormalizeSetting(RenderSetting(v.item)) == v
  {
    hide RenderOrganization, RenderLocation, RenderProvider, RenderCatalogItem, RenderGroup, RenderSetting,
         NormalizeOrganization, NormalizeLocation, NormalizeProvider, NormalizeCatalogItem, NormalizeRoutingGroup,
         NormalizeSetting;
    if NormalizeOrganization(body).Valid? {
      OrganizationIsClean(body);
      OrganizationRoundTrip(NormalizeOrganization(body).item);
    }
    if NormalizeLocation(body).Valid? {
      LocationIsClean(body);
      LocationRoundTrip(NormalizeLocation(body).item);
    }
    if NormalizeProvider(body).Valid? {
      ProviderIsClean(body);
      ProviderRoundTrip(NormalizeProvider(body).item);
    }
    if NormalizeCatalogItem(body).Valid? {
      CatalogItemIsClean(body);
      CatalogItemRoundTrip(NormalizeCatalogItem(body).item);
    }
    if NormalizeRoutingGroup(body).Valid? {
      GroupIsClean(body);
      GroupRoundTrip(NormalizeRoutingGroup(body).item);
    }
    if NormalizeSetting(body).Valid? {
      SettingIsClean(body);
      SettingRoundTrip(NormalizeSetting(body).item);
    }
  }
}
