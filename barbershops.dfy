/** The ownership-scoped server actions over the `barbershops` table
    (src/actions/barbershops.ts). The hosted table is a map from id to row,
    with fresh ids and a creation clock; every action resolves the caller,
    validates, builds the row to write, filters by id and owner, and reports
    `{ error, data }`. A failure of the store is an input of each action. */
module Barbershops {
  import opened Types

  const DefaultTheme := Theme(Val("#0A84FF"), Val("#6CB2FF"), Val("#FF9500"), Val(""))

  const NotAuthenticated := "User not authenticated"
  const NameRequired := "Barbershop name is required"
  /** What the store answers when `.single()` finds no row. */
  const NoRowsError := "JSON object requested, multiple (or no) rows returned"

  /** `{ error, data }` as the mutating actions return it. */
  datatype ActionResult<T> = ActionResult(error: Option<string>, data: Option<T>)

  function Failed<T>(message: string): ActionResult<T> {
    ActionResult(Some(message), None)
  }

  /** `{ ...base, ...over }` for one key: a key present on the right wins, even when it is null. */
  function SpreadKey<T>(base: Field<T>, over: Field<T>): Field<T> {
    if over.Absent? then base else over
  }

  /** `{ ...base, ...supplied }` on themes; spreading null or undefined adds no key. */
  function MergeTheme(base: Theme, supplied: Field<Theme>): (t: Theme)
    ensures !supplied.Val? ==> t == base
    ensures supplied.Val? && HasAllKeys(supplied.value) ==> t == supplied.value
    ensures HasAllKeys(base) ==> HasAllKeys(t)
    ensures supplied.Val? && !supplied.value.primaryColor.Absent? ==> t.primaryColor == supplied.value.primaryColor
    ensures supplied.Val? && supplied.value.primaryColor.Absent? ==> t.primaryColor == base.primaryColor
    ensures supplied.Val? && !supplied.value.secondaryColor.Absent? ==> t.secondaryColor == supplied.value.secondaryColor
    ensures supplied.Val? && supplied.value.secondaryColor.Absent? ==> t.secondaryColor == base.secondaryColor
    ensures supplied.Val? && !supplied.value.accentColor.Absent? ==> t.accentColor == supplied.value.accentColor
    ensures supplied.Val? && supplied.value.accentColor.Absent? ==> t.accentColor == base.accentColor
    ensures supplied.Val? && !supplied.value.logoMobileUrl.Absent? ==> t.logoMobileUrl == supplied.value.logoMobileUrl
    ensures supplied.Val? && supplied.value.logoMobileUrl.Absent? ==> t.logoMobileUrl == base.logoMobileUrl
  {
    match supplied
    case Val(s) =>
      Theme(SpreadKey(base.primaryColor, s.primaryColor),
            SpreadKey(base.secondaryColor, s.secondaryColor),
            SpreadKey(base.accentColor, s.accentColor),
            SpreadKey(base.logoMobileUrl, s.logoMobileUrl))
    case _ => base
  }

  /** A column left out of an insert is taken to default to NULL; the table's schema is not part of this model. */
  function Stored<T>(f: Field<T>): Field<T> {
    if f.Absent? then Null else f
  }

  /** The insert's `!formData.name` guard: the name is present and non-empty. */
  predicate NameGiven(p: BarbershopPatch) {
    p.name.Some? && p.name.value != ""
  }

  /** The row `createBarbershop` inserts: the payload, the caller as owner, the theme merged over the default. */
  function NewRow(p: BarbershopPatch, owner: UserId, id: Id, now: nat): (b: Barbershop)
    requires NameGiven(p)
    ensures b.id == id && b.userId == owner && b.createdAt == now && b.updatedAt == now
    ensures b.name == p.name.value && b.name != ""
    ensures b.theme.Val? && HasAllKeys(b.theme.value)
    ensures b.theme == Val(MergeTheme(DefaultTheme, p.theme))
    ensures !p.theme.Val? ==> b.theme == Val(DefaultTheme)
    ensures b.address == Stored(p.address) && b.phone == Stored(p.phone) && b.logoUrl == Stored(p.logoUrl)
    ensures b.openingTime == Stored(p.openingTime) && b.closingTime == Stored(p.closingTime)
    ensures b.appointmentDurationMinutes == Stored(p.appointmentDurationMinutes)
  {
    Barbershop(id, owner, p.name.value, Stored(p.logoUrl), Stored(p.address), Stored(p.phone),
               Stored(p.openingTime), Stored(p.closingTime), Stored(p.appointmentDurationMinutes),
               Val(MergeTheme(DefaultTheme, p.theme)), now, now)
  }

  /** `.update(formData)`: every supplied column is written as given, the theme as one whole
      value and `user_id` included; columns not supplied keep their value. */
  function ApplyPatch(b: Barbershop, p: BarbershopPatch): (r: Barbershop)
    ensures r.id == b.id && r.createdAt == b.createdAt && r.updatedAt == b.updatedAt
    ensures p.userId.None? ==> r.userId == b.userId
    ensures p.userId.Some? ==> r.userId == p.userId.value
    ensures p.name.None? ==> r.name == b.name
    ensures p.name.Some? ==> r.name == p.name.value
    ensures p.logoUrl.Absent? ==> r.logoUrl == b.logoUrl
    ensures !p.logoUrl.Absent? ==> r.logoUrl == p.logoUrl
    ensures p.address.Absent? ==> r.address == b.address
    ensures !p.address.Absent? ==> r.address == p.address
    ensures p.phone.Absent? ==> r.phone == b.phone
    ensures !p.phone.Absent? ==> r.phone == p.phone
    ensures p.openingTime.Absent? ==> r.openingTime == b.openingTime
    ensures !p.openingTime.Absent? ==> r.openingTime == p.openingTime
    ensures p.closingTime.Absent? ==> r.closingTime == b.closingTime
    ensures !p.closingTime.Absent? ==> r.closingTime == p.closingTime
    ensures p.appointmentDurationMinutes.Absent? ==> r.appointmentDurationMinutes == b.appointmentDurationMinutes
    ensures !p.appointmentDurationMinutes.Absent? ==> r.appointmentDurationMinutes == p.appointmentDurationMinutes
    ensures p.theme.Absent? ==> r.theme == b.theme
    ensures !p.theme.Absent? ==> r.theme == p.theme
    ensures p == EmptyPatch ==> r == b
  {
    Barbershop(
      b.id,
      if p.userId.Some? then p.userId.value else b.userId,
      if p.name.Some? then p.name.value else b.name,
      SpreadKey(b.logoUrl, p.logoUrl),
      SpreadKey(b.address, p.address),
      SpreadKey(b.phone, p.phone),
      SpreadKey(b.openingTime, p.openingTime),
      SpreadKey(b.closingTime, p.closingTime),
      SpreadKey(b.appointmentDurationMinutes, p.appointmentDurationMinutes),
      SpreadKey(b.theme, p.theme),
      b.createdAt,
      b.updatedAt)
  }

  /** Merging the same theme twice adds nothing: the supplied keys already won. */
  lemma MergeThemeIdempotent(base: Theme, supplied: Field<Theme>)
    ensures MergeTheme(MergeTheme(base, supplied), supplied) == MergeTheme(base, supplied)
  {
  }

  /** Writing the same payload twice is writing it once. */
  lemma ApplyPatchIdempotent(b: Barbershop, p: BarbershopPatch)
    ensures ApplyPatch(ApplyPatch(b, p), p) == ApplyPatch(b, p)
  {
  }

  /** The caller's owner id stamps the new row whatever `user_id` the payload carries. */
  lemma CreateIgnoresSuppliedOwner(p: BarbershopPatch, other: Option<UserId>, owner: UserId, id: Id, now: nat)
    requires NameGiven(p)
    ensures NewRow(p.(userId := other), owner, id, now) == NewRow(p, owner, id, now)
  {
  }

  /** A theme payload naming only the primary colour is merged key by key at creation:
      the other three keys keep the default palette. */
  lemma PartialThemeCreateKeepsDefaults(p: BarbershopPatch, owner: UserId, id: Id, now: nat)
    requires NameGiven(p) && p.theme == Val(Theme(Val("#111111"), Absent, Absent, Absent))
    ensures NewRow(p, owner, id, now).theme == Val(Theme(Val("#111111"), Val("#6CB2FF"), Val("#FF9500"), Val("")))
  {
  }

  /** An update does not keep the owner: a `user_id` in the payload is written like any column. */
  lemma UpdateWritesSuppliedOwner(b: Barbershop, p: BarbershopPatch)
    requires p.userId.Some?
    ensures ApplyPatch(b, p).userId == p.userId.value
  {
  }

  /** A theme payload naming only the primary colour replaces the stored theme as a whole:
      the other keys are dropped, not kept. */
  lemma PartialThemeUpdateReplacesWhole(b: Barbershop)
    requires b.theme == Val(DefaultTheme)
    ensures var r := ApplyPatch(b, EmptyPatch.(theme := Val(Theme(Val("#111111"), Absent, Absent, Absent))));
      r.theme.Val? && r.theme.value.primaryColor == Val("#111111") &&
      r.theme.value.secondaryColor.Absent? && r.theme.value.accentColor.Absent?
  {
  }

  /** `{ ...data, theme: data.theme || DEFAULT_THEME }`. */
  function WithDefaultTheme(b: Barbershop): (r: Barbershop)
    ensures r.theme.Val?
    ensures b.theme.Val? ==> r == b
    ensures !b.theme.Val? ==> r.theme == Val(DefaultTheme)
    ensures r.(theme := b.theme) == b
  {
    if b.theme.Val? then b else b.(theme := Val(DefaultTheme))
  }

  /** `select("id, name, address, phone, created_at")`. */
  function Project(b: Barbershop): BarbershopRow {
    BarbershopRow(b.id, b.name, b.address, b.phone, b.createdAt)
  }

  /** Each row is stored under its own id. */
  ghost predicate KeyedById(rows: map<Id, Barbershop>) {
    forall k :: k in rows ==> rows[k].id == k
  }

  /** Rows with a larger id were created later: ids and timestamps come from one insert at a time. */
  ghost predicate CreationOrdered(rows: map<Id, Barbershop>) {
    forall a, b :: a in rows && b in rows && a < b ==> rows[a].createdAt < rows[b].createdAt
  }

  /** The owner's rows among the ids below `n`, projected, newest id first. */
  function Listing(rows: map<Id, Barbershop>, owner: UserId, n: nat): (r: seq<BarbershopRow>)
    requires KeyedById(rows)
    ensures |r| <= n
    ensures forall i :: 0 <= i < |r| ==>
      r[i].id < n && r[i].id in rows && rows[r[i].id].userId == owner && r[i] == Project(rows[r[i].id])
    ensures forall i, j :: 0 <= i < j < |r| ==> r[i].id > r[j].id
  {
    if n == 0 then []
    else
      var rest := Listing(rows, owner, n - 1);
      if n - 1 in rows && rows[n - 1].userId == owner then [Project(rows[n - 1])] + rest else rest
  }

  /** Every row the owner has below `n` is listed. */
  lemma {:induction false} ListingComplete(rows: map<Id, Barbershop>, owner: UserId, n: nat, k: Id)
    requires KeyedById(rows)
    requires k < n && k in rows && rows[k].userId == owner
    ensures Project(rows[k]) in Listing(rows, owner, n)
  {
    if k < n - 1 {
      ListingComplete(rows, owner, n - 1, k);
    }
  }

  /** The listing is ordered by `created_at`, newest first. */
  lemma ListingNewestFirst(rows: map<Id, Barbershop>, owner: UserId, n: nat)
    requires KeyedById(rows) && CreationOrdered(rows)
    ensures var r := Listing(rows, owner, n);
      forall i, j :: 0 <= i < j < |r| ==> r[i].createdAt > r[j].createdAt
  {
    var r := Listing(rows, owner, n);
    forall i, j | 0 <= i < j < |r|
      ensures r[i].createdAt > r[j].createdAt
    {
      assert rows[r[j].id].createdAt < rows[r[i].id].createdAt;
    }
  }

  /** The backend table the actions query. */
  class BarbershopTable {
    var rows: map<Id, Barbershop>
    /** The next fresh id the store hands out. */
    var nextId: nat
    /** The store's clock, stamped as `created_at` on insert. */
    var clock: nat

    ghost predicate Valid()
      reads this
    {
      && KeyedById(rows)
      && (forall k :: k in rows ==> k < nextId && rows[k].createdAt < clock)
      && CreationOrdered(rows)
    }

    constructor ()
      ensures Valid() && rows == map[] && nextId == 0 && clock == 0
    {
      rows, nextId, clock := map[], 0, 0;
    }

    /** `getBarbershops`: the caller's rows, newest first; empty when nobody is
        signed in and when the store fails. */
    method GetBarbershops(caller: Option<UserId>, storeFails: bool) returns (r: seq<BarbershopRow>)
      requires Valid()
      ensures caller.None? || storeFails ==> r == []
      ensures caller.Some? && !storeFails ==>
        && (forall x :: x in r ==> x.id in rows && rows[x.id].userId == caller.value && x == Project(rows[x.id]))
        && (forall k :: k in rows && rows[k].userId == caller.value ==> Project(rows[k]) in r)
        && (forall i, j :: 0 <= i < j < |r| ==> r[i].createdAt > r[j].createdAt)
    {
      if caller.None? || storeFails {
        return [];
      }
      r := Listing(rows, caller.value, nextId);
      forall k | k in rows && rows[k].userId == caller.value
        ensures Project(rows[k]) in r
      {
        ListingComplete(rows, caller.value, nextId, k);
      }
      ListingNewestFirst(rows, caller.value, nextId);
    }

    /** `getBarbershopById`: the row with that id if the caller owns it, its theme
        defaulted; a row owned by someone else reads exactly like a missing one. */
    method GetBarbershopById(caller: Option<UserId>, id: Id, storeFails: bool) returns (r: Option<Barbershop>)
      ensures caller.None? || storeFails ==> r == None
      ensures caller.Some? && !storeFails ==>
        (r.Some? <==> id in rows && rows[id].userId == caller.value)
      ensures r.Some? ==> id in rows && r.value == WithDefaultTheme(rows[id]) && r.value.theme.Val?
    {
      if caller.None? || storeFails {
        return None;
      }
      if id in rows && rows[id].userId == caller.value {
        r := Some(WithDefaultTheme(rows[id]));
      } else {
        r := None;
      }
    }

    /** `createBarbershop`. */
    method CreateBarbershop(caller: Option<UserId>, formData: BarbershopPatch, storeError: Option<string>)
      returns (r: ActionResult<Barbershop>)
      requires Valid()
      modifies this
      ensures Valid()
      ensures caller.None? ==> r == Failed(NotAuthenticated) && unchanged(this)
      ensures caller.Some? && !NameGiven(formData) ==> r == Failed(NameRequired) && unchanged(this)
      ensures caller.Some? && NameGiven(formData) && storeError.Some? ==>
        r == Failed(storeError.value) && unchanged(this)
      ensures caller.Some? && NameGiven(formData) && storeError.None? ==>
        var row := NewRow(formData, caller.value, old(nextId), old(clock));
        && old(nextId) !in old(rows)
        && rows == old(rows)[old(nextId) := row]
        && r == ActionResult(None, Some(row))
        && nextId == old(nextId) + 1 && clock == old(clock) + 1
    {
      if caller.None? {
        return Failed(NotAuthenticated);
      }
      if !NameGiven(formData) {
        return Failed(NameRequired);
      }
      if storeError.Some? {
        return Failed(storeError.value);
      }
      var row := NewRow(formData, caller.value, nextId, clock);
      rows := rows[nextId := row];
      nextId, clock := nextId + 1, clock + 1;
      r := ActionResult(None, Some(row));
    }

    /** `updateBarbershop`: writes the payload as given into the one row with that id
        owned by the caller; with no such row the store reports that no row came back. */
    method UpdateBarbershop(caller: Option<UserId>, id: Id, formData: BarbershopPatch, storeError: Option<string>)
      returns (r: ActionResult<Barbershop>)
      requires Valid()
      modifies this
      ensures Valid()
      ensures caller.None? ==> r == Failed(NotAuthenticated) && unchanged(this)
      ensures caller.Some? && storeError.Some? ==> r == Failed(storeError.value) && unchanged(this)
      ensures caller.Some? && storeError.None? && !(id in old(rows) && old(rows)[id].userId == caller.value) ==>
        r == Failed(NoRowsError) && unchanged(this)
      ensures caller.Some? && storeError.None? && id in old(rows) && old(rows)[id].userId == caller.value ==>
        var row := ApplyPatch(old(rows)[id], formData);
        && rows == old(rows)[id := row]
        && r == ActionResult(None, Some(row))
        && nextId == old(nextId) && clock == old(clock)
    {
      if caller.None? {
        return Failed(NotAuthenticated);
      }
      if storeError.Some? {
        return Failed(storeError.value);
      }
      if !(id in rows && rows[id].userId == caller.value) {
        return Failed(NoRowsError);
      }
      var row := ApplyPatch(rows[id], formData);
      rows := rows[id := row];
      r := ActionResult(None, Some(row));
    }

    /** `deleteBarbershop`: removes the row with that id if the caller owns it;
        a missing or foreign id is a success that changes nothing. */
    method DeleteBarbershop(caller: Option<UserId>, id: Id, storeError: Option<string>)
      returns (error: Option<string>)
      requires Valid()
      modifies this
      ensures Valid()
      ensures caller.None? ==> error == Some(NotAuthenticated) && unchanged(this)
      ensures caller.Some? && storeError.Some? ==> error == storeError && unchanged(this)
      ensures caller.Some? && storeError.None? ==>
        && error == None
        && rows == (if id in old(rows) && old(rows)[id].userId == caller.value
                    then old(rows) - {id} else old(rows))
        && nextId == old(nextId) && clock == old(clock)
    {
      if caller.None? {
        return Some(NotAuthenticated);
      }
      if storeError.Some? {
        return storeError;
      }
      if id in rows && rows[id].userId == caller.value {
        rows := rows - {id};
      }
      error := None;
    }
  }
}
