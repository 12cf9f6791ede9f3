/** Record shapes shared by the barbershop actions, the forms and the auth layer
    (src/lib/types.ts), and the few values every layer refers to. */
module Types {

  datatype Option<+T> = None | Some(value: T)

  /** One property of a JSON object declared `k?: T | null`: the key is missing,
      holds `null`, or holds a value. A key present with the value `undefined` is
      not represented. */
  datatype Field<+T> = Absent | Null | Val(value: T)

  /** JavaScript truthiness of an optional string: a present, non-empty string. */
  predicate Truthy(f: Field<string>) {
    f.Val? && f.value != ""
  }

  /** Record ids are opaque to the application; the store hands out fresh ones. */
  type Id = nat

  type UserId = string

  /** `BarbershopTheme`: every key optional and nullable. */
  datatype Theme = Theme(
    primaryColor: Field<string>,
    secondaryColor: Field<string>,
    accentColor: Field<string>,
    logoMobileUrl: Field<string>)

  /** A theme all four of whose keys are present, as `{ ...DEFAULT_THEME, ... }` builds. */
  predicate HasAllKeys(t: Theme) {
    !t.primaryColor.Absent? && !t.secondaryColor.Absent? &&
    !t.accentColor.Absent? && !t.logoMobileUrl.Absent?
  }

  /** `Barbershop`: one row of the `barbershops` table. Timestamps are ticks of the store's clock. */
  datatype Barbershop = Barbershop(
    id: Id,
    userId: UserId,
    name: string,
    logoUrl: Field<string>,
    address: Field<string>,
    phone: Field<string>,
    openingTime: Field<string>,
    closingTime: Field<string>,
    appointmentDurationMinutes: Field<real>,
    theme: Field<Theme>,
    createdAt: nat,
    updatedAt: nat)

  /** `BarbershopRow`: the columns the list page selects. */
  datatype BarbershopRow = BarbershopRow(
    id: Id,
    name: string,
    address: Field<string>,
    phone: Field<string>,
    createdAt: nat)

  /** The payload of a create or an update: the writable columns, each possibly left out.
      `userId` is not declared by the create payload's type, but nothing stops it at run time. */
  datatype BarbershopPatch = BarbershopPatch(
    userId: Option<UserId>,
    name: Option<string>,
    logoUrl: Field<string>,
    address: Field<string>,
    phone: Field<string>,
    openingTime: Field<string>,
    closingTime: Field<string>,
    appointmentDurationMinutes: Field<real>,
    theme: Field<Theme>)

  /** The patch that supplies no column at all. */
  const EmptyPatch := BarbershopPatch(None, None, Absent, Absent, Absent, Absent, Absent, Absent, Absent)

  /** The signed-in principal as the auth backend reports it. */
  datatype User = User(id: UserId, email: Option<string>, fullName: Field<string>)

  /** A client-side router call, recorded in order. */
  datatype Navigation = Push(url: string) | Replace(url: string) | Refresh

  const LoginRoute := "/login"
  const BarbershopsRoute := "/app/barbershops"
}
