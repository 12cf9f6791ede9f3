/** The barbershop details form (src/components/barbershops/BarbershopForm.tsx):
    the schema's field rules, the values the form starts from, the payload it
    submits, and where it navigates after a successful save. */
module BarbershopForm {
  import opened Types
  import Barbershops

  /** What the form holds, after the schema has parsed it. */
  datatype FormValues = FormValues(
    name: string,
    address: Field<string>,
    phone: Field<string>,
    logoUrl: Field<string>,
    openingTime: Field<string>,
    closingTime: Field<string>,
    appointmentDurationMinutes: Field<real>)

  predicate IsDigit(c: char) {
    '0' <= c <= '9'
  }

  /** The time pattern `^([01]\d|2[0-3]):([0-5]\d)$`, character by character. */
  predicate IsTime(s: string) {
    && |s| == 5
    && (((s[0] == '0' || s[0] == '1') && IsDigit(s[1])) || (s[0] == '2' && '0' <= s[1] <= '3'))
    && s[2] == ':'
    && '0' <= s[3] <= '5' && IsDigit(s[4])
  }

  function DigitChar(n: nat): (c: char)
    requires n < 10
    ensures IsDigit(c)
  {
    ('0' as int + n) as char
  }

  function DigitValue(c: char): (n: nat)
    requires IsDigit(c)
    ensures n < 10 && DigitChar(n) == c
  {
    c as int - '0' as int
  }

  /** A time of day `h:m` written as two zero-padded two-digit numbers, `HH:MM`. */
  function ClockReading(h: nat, m: nat): (s: string)
    requires h < 100 && m < 100
    ensures |s| == 5 && s[2] == ':'
  {
    [DigitChar(h / 10), DigitChar(h % 10), ':', DigitChar(m / 10), DigitChar(m % 10)]
  }

  /** A zero-padded reading of a real time of day matches the pattern. */
  lemma ClockReadingIsTime(h: nat, m: nat)
    requires h < 24 && m < 60
    ensures IsTime(ClockReading(h, m))
  {
  }

  /** The pattern accepts exactly the zero-padded readings of the times of day 00:00 to 23:59. */
  lemma TimeIsClockReading(s: string)
    ensures IsTime(s) <==> exists h: nat, m: nat :: h < 24 && m < 60 && s == ClockReading(h, m)
  {
    if IsTime(s) {
      var hi, lo := DigitValue(s[0]), DigitValue(s[1]);
      var mhi, mlo := DigitValue(s[3]), DigitValue(s[4]);
      var h, m := hi * 10 + lo, mhi * 10 + mlo;
      assert h / 10 == hi && h % 10 == lo;
      assert m / 10 == mhi && m % 10 == mlo;
      assert s == ClockReading(h, m);
    }
    if exists h: nat, m: nat :: h < 24 && m < 60 && s == ClockReading(h, m) {
      var h: nat, m: nat :| h < 24 && m < 60 && s == ClockReading(h, m);
      ClockReadingIsTime(h, m);
    }
  }

  /** `name: z.string().min(2)`. */
  predicate NameValid(name: string) {
    |name| >= 2
  }

  /** `z.string().regex(time).optional().or(z.literal('')).nullable()`. */
  predicate TimeFieldValid(f: Field<string>) {
    match f
    case Val(s) => s == "" || IsTime(s)
    case _ => true
  }

  /** `z.number().int().positive().optional().nullable()`. */
  predicate DurationValid(f: Field<real>) {
    match f
    case Val(x) => x.Floor as real == x && x > 0.0
    case _ => true
  }

  /** `n` whole minutes as a JavaScript number. */
  function Minutes(n: nat): real {
    n as real
  }

  /** A present duration passes exactly when it is a whole number of minutes, at least one. */
  lemma DurationValidIsPositiveWhole(x: real)
    ensures DurationValid(Val(x)) <==> exists n: nat :: n >= 1 && x == Minutes(n)
  {
    if DurationValid(Val(x)) {
      var n: nat := x.Floor;
      assert n >= 1 && x == Minutes(n);
    }
  }

  /** The schema as a whole; the logo URL check is not part of this model. */
  predicate FormValid(v: FormValues) {
    && NameValid(v.name)
    && TimeFieldValid(v.openingTime)
    && TimeFieldValid(v.closingTime)
    && DurationValid(v.appointmentDurationMinutes)
  }

  const DefaultOpening := "09:00"
  const DefaultClosing := "20:00"
  const DefaultDuration := 30.0

  /** Both default hours are well-formed times. */
  lemma DefaultHoursAreTimes()
    ensures IsTime(DefaultOpening) && IsTime(DefaultClosing)
    ensures DefaultOpening == ClockReading(9, 0) && DefaultClosing == ClockReading(20, 0)
  {
  }

  /** `stored || fallback` on an optional string. */
  function OrElse(stored: Field<string>, fallback: string): (r: Field<string>)
    ensures r.Val?
    ensures Truthy(stored) ==> r == stored
    ensures !Truthy(stored) ==> r == Val(fallback)
  {
    if Truthy(stored) then stored else Val(fallback)
  }

  /** `d === null ? undefined : d || 30`. */
  function InitialDuration(stored: Field<real>): (r: Field<real>)
    ensures r.Absent? <==> stored.Null?
    ensures !r.Absent? ==> r.Val? && r.value != 0.0
    ensures stored.Val? && stored.value != 0.0 ==> r == stored
    ensures stored.Absent? || stored == Val(0.0) ==> r == Val(DefaultDuration)
  {
    match stored
    case Null => Absent
    case Absent => Val(DefaultDuration)
    case Val(x) => if x != 0.0 then stored else Val(DefaultDuration)
  }

  /** `defaultValues`: the stored record's values, with the fixed defaults for what is empty. */
  function InitialValues(initial: Option<Barbershop>): (v: FormValues)
    ensures initial.None? ==>
      v == FormValues("", Val(""), Val(""), Val(""), Val(DefaultOpening), Val(DefaultClosing), Val(DefaultDuration))
    ensures initial.Some? ==> v.name == initial.value.name
    ensures initial.Some? ==>
      && v.address == OrElse(initial.value.address, "")
      && v.phone == OrElse(initial.value.phone, "")
      && v.logoUrl == OrElse(initial.value.logoUrl, "")
      && v.openingTime == OrElse(initial.value.openingTime, DefaultOpening)
      && v.closingTime == OrElse(initial.value.closingTime, DefaultClosing)
      && v.appointmentDurationMinutes == InitialDuration(initial.value.appointmentDurationMinutes)
    ensures Truthy(v.openingTime) && Truthy(v.closingTime)
    ensures initial.Some? && TimeFieldValid(initial.value.openingTime) ==> TimeFieldValid(v.openingTime)
    ensures initial.Some? && TimeFieldValid(initial.value.closingTime) ==> TimeFieldValid(v.closingTime)
    ensures DurationValid(v.appointmentDurationMinutes) <==>
      initial.None? || DurationValid(initial.value.appointmentDurationMinutes) || initial.value.appointmentDurationMinutes == Val(0.0)
  {
    match initial
    case None =>
      FormValues("", Val(""), Val(""), Val(""), Val(DefaultOpening), Val(DefaultClosing), Val(DefaultDuration))
    case Some(b) =>
      FormValues(b.name, OrElse(b.address, ""), OrElse(b.phone, ""), OrElse(b.logoUrl, ""),
                 OrElse(b.openingTime, DefaultOpening), OrElse(b.closingTime, DefaultClosing),
                 InitialDuration(b.appointmentDurationMinutes))
  }

  /** `value || null`: an empty or missing optional string is sent as null. */
  function NullIfEmpty(f: Field<string>): (r: Field<string>)
    ensures r.Null? || Truthy(r)
    ensures Truthy(f) ==> r == f
    ensures !Truthy(f) ==> r.Null?
  {
    if Truthy(f) then f else Null
  }

  /** `processedValues`: the payload the form hands to the create or update action. */
  function Submitted(v: FormValues): (p: BarbershopPatch)
    ensures p.userId.None? && p.theme.Absent? && p.name == Some(v.name)
    ensures p.address == NullIfEmpty(v.address) && p.phone == NullIfEmpty(v.phone)
    ensures p.logoUrl == NullIfEmpty(v.logoUrl)
    ensures p.openingTime == NullIfEmpty(v.openingTime) && p.closingTime == NullIfEmpty(v.closingTime)
    ensures !p.appointmentDurationMinutes.Absent?
    ensures v.appointmentDurationMinutes.Absent? ==> p.appointmentDurationMinutes.Null?
    ensures !v.appointmentDurationMinutes.Absent? ==> p.appointmentDurationMinutes == v.appointmentDurationMinutes
  {
    BarbershopPatch(
      None, Some(v.name),
      NullIfEmpty(v.logoUrl), NullIfEmpty(v.address), NullIfEmpty(v.phone),
      NullIfEmpty(v.openingTime), NullIfEmpty(v.closingTime),
      if v.appointmentDurationMinutes.Absent? then Null else v.appointmentDurationMinutes,
      Absent)
  }

  /** A payload from a valid form always passes the create action's name check;
      the action alone would also take a one-character name the form refuses. */
  lemma FormStricterThanAction(v: FormValues)
    ensures FormValid(v) ==> Barbershops.NameGiven(Submitted(v))
    ensures Barbershops.NameGiven(Submitted(v.(name := "A"))) && !FormValid(v.(name := "A"))
  {
  }

  /** A stored record with every optional text column filled in and a non-zero duration
      comes back unchanged when its edit form is saved untouched. */
  lemma UntouchedEditKeepsRecord(b: Barbershop)
    requires Truthy(b.address) && Truthy(b.phone) && Truthy(b.logoUrl)
    requires Truthy(b.openingTime) && Truthy(b.closingTime)
    requires b.appointmentDurationMinutes.Val? && b.appointmentDurationMinutes.value != 0.0
    ensures Barbershops.ApplyPatch(b, Submitted(InitialValues(Some(b)))) == b
  {
  }

  /** Saving an untouched edit form of a record with no opening time stores the default one. */
  lemma UntouchedEditFillsOpeningTime(b: Barbershop)
    requires !Truthy(b.openingTime)
    ensures Barbershops.ApplyPatch(b, Submitted(InitialValues(Some(b)))).openingTime == Val(DefaultOpening)
  {
  }

  /** `if (result.error)`: an action's error counts only when it is a non-empty message. */
  predicate SaveFailed(error: Option<string>) {
    error.Some? && error.value != ""
  }

  /** The router calls after a save as written: on success the form pushes `//barbershops`. */
  function AfterSaveAsWritten(error: Option<string>): (nav: seq<Navigation>)
    ensures SaveFailed(error) ==> nav == []
    ensures !SaveFailed(error) ==> nav == [Push("//barbershops"), Refresh]
  {
    if SaveFailed(error) then [] else [Push("//barbershops"), Refresh]
  }

  /** A URL reference that starts with two slashes names a host, not a path
      (a network-path reference, section 4.2 of RFC 3986). */
  predicate IsNetworkPath(url: string) {
    |url| >= 2 && url[0] == '/' && url[1] == '/'
  }

  /** A reference that is a path on the current host. */
  predicate IsAbsolutePath(url: string) {
    |url| >= 1 && url[0] == '/' && !IsNetworkPath(url)
  }

  /** As written, a successful save leaves the application for a host named `barbershops`. */
  lemma AfterSaveLeavesTheApp()
    ensures var nav := AfterSaveAsWritten(None);
      |nav| == 2 && nav[0].Push? && IsNetworkPath(nav[0].url) && !IsAbsolutePath(nav[0].url)
  {
  }

  /** The router calls after a save, going to the barbershop list as every other
      part of the application does. */
  function AfterSave(error: Option<string>): (nav: seq<Navigation>)
    ensures SaveFailed(error) ==> nav == []
    ensures !SaveFailed(error) ==> |nav| == 2 && nav[0] == Push(BarbershopsRoute) && nav[1] == Refresh
    ensures forall i :: 0 <= i < |nav| ==> nav[i].Push? ==> IsAbsolutePath(nav[i].url)
  {
    if SaveFailed(error) then [] else [Push(BarbershopsRoute), Refresh]
  }
}
