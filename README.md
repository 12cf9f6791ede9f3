# Barbershop admin dashboard — verified model of its core

The dashboard lets a signed-in administrator list, create, edit and delete the
barbershops they own, and change each barbershop's mobile colour theme. This
project models the parts of it whose behaviour can be stated exactly, and proves
properties of them:

- **The ownership-scoped server actions** (`Barbershops`). `BarbershopTable` is a
  class that holds the hosted `barbershops` table as a map from id to row, with a
  counter for fresh ids and a clock for `created_at`. Its methods are the five
  actions: list, read one, create, update and delete. Each first checks for a
  signed-in caller. Each touches only rows whose `user_id` is the caller. Each
  reports `{ error, data }`. Pure functions state the row that create inserts
  (the theme merged key by key over the default palette, with the caller stamped
  as owner) and the row that update writes (the payload written as given).
- **The barbershop form** (`BarbershopForm`). It covers:
  - the schema's rules: name length, the `HH:MM` pattern, and a positive whole
    duration;
  - the values the form starts from;
  - the payload it submits, where empty text becomes `null`;
  - the router calls after a save.
- **The theme editor** (`ThemeEditorForm`). It covers:
  - the `#RGB`/`#RRGGBB` colour pattern;
  - the default palette;
  - the key-by-key fallback when the form opens;
  - the update it sends.
- **The client session holder** (`AuthContext`). `AuthProvider` is a class with
  the three state cells `user`, `loading` and `error`, and a log of router calls.
  Its methods are the four points where those cells change: the session probe,
  an auth-change notification, and the completions of `signIn` and `signOut`.
- **The account menu** (`UserNav`): avatar initials, display name, and which of
  its three renderings is shown.
- **The landing page** (`RootPage`): the redirect it chooses from `(user, loading)`.

Shared record shapes are in `Types`. `Field<T>` (`Absent | Null | Val`)
represents a property declared `k?: T | null`. With it, the model can tell apart
a key that is left out, a key set to `null` and the empty string. Object spread,
`||` and zod's `.optional().or(z.literal('')).nullable()` each treat those
three cases differently.

Three behaviours of the code are easy to misread; the model keeps them as written:

- **`updateBarbershop` replaces the theme and can change the owner.** The comment
  at `src/actions/barbershops.ts:106-109` considers merging a partial theme but
  settles on treating a supplied theme as the complete new one. The code passes
  the payload to `.update()` unchanged (`src/actions/barbershops.ts:113`). So a
  partial theme replaces the stored one whole, and a `user_id` in the payload is
  written. See `Barbershops.UpdateWritesSuppliedOwner` and
  `Barbershops.PartialThemeUpdateReplacesWhole`. Create, by contrast, merges key
  by key (`Barbershops.PartialThemeCreateKeepsDefaults`).
- **The missing-client guards are dead code.** `createSupabaseBrowserClient`
  throws when its configuration is missing and otherwise returns a client
  (`src/lib/supabase/client.ts:8-14`). So `supabase` (`src/contexts/AuthContext.tsx:23`)
  is never falsy, and a missing configuration makes the provider's first render
  throw. The `!supabase` guards (`src/contexts/AuthContext.tsx:30,56,69`) are
  therefore never taken. `AuthProvider.hasClient == false` models only what those
  guards would do: the effect returns at once, and `signIn`/`signOut` return an
  error without touching state.
- **A failed sign-in keeps the user.** `signIn` only sets `error` and `loading`;
  the user changes only through the auth notifications.

## Model

| member | source | states |
|---|---|---|
| `Barbershops.MergeTheme` | src/actions/barbershops.ts:79 | Key by key: each key present in the supplied theme (even as null) overrides that key only, and each key it leaves out keeps the base value. Without a supplied theme object the result is the base palette. A complete base stays complete. |
| `Barbershops.MergeThemeIdempotent` | src/actions/barbershops.ts:79 | Merging the same supplied theme a second time changes nothing. |
| `Barbershops.NewRow` | src/actions/barbershops.ts:76-80 | The inserted row has the fresh id, the caller as owner, and the creation time as both timestamps. Its name is the non-empty name given. Its theme is the supplied theme merged key by key over the default palette: present, with all four keys, and exactly the default when none is supplied. Every optional column left out of the payload is stored as NULL, the assumed column default. |
| `Barbershops.PartialThemeCreateKeepsDefaults` | src/actions/barbershops.ts:79 | A create payload naming only the primary colour stores that colour with the other three default keys. |
| `Barbershops.CreateIgnoresSuppliedOwner` | src/actions/barbershops.ts:76-80 | Whatever `user_id` the payload carries, the inserted row is the same, owned by the caller. |
| `Barbershops.ApplyPatch` | src/actions/barbershops.ts:111-117 | Column by column: every column the payload supplies (owner, name, logo, address, phone, both hours, duration, theme; null included) takes the supplied value, and every column it leaves out keeps its stored value. The theme is replaced whole. Id and timestamps are kept. The empty payload changes nothing. |
| `Barbershops.ApplyPatchIdempotent` | src/actions/barbershops.ts:113 | Writing the same payload twice gives the same row as writing it once. |
| `Barbershops.UpdateWritesSuppliedOwner` | src/actions/barbershops.ts:106-113 | A `user_id` in an update payload becomes the row's owner: update does not protect ownership. |
| `Barbershops.PartialThemeUpdateReplacesWhole` | src/actions/barbershops.ts:106-109 | A theme payload naming only the primary colour drops the other stored theme keys instead of merging with them. |
| `Barbershops.NameGiven` | src/actions/barbershops.ts:72 | The create action's guard: a name is present and non-empty. |
| `Barbershops.Project` | src/actions/barbershops.ts:27 | The listed columns: id, name, address, phone and created_at of a row. |
| `Barbershops.WithDefaultTheme` | src/actions/barbershops.ts:60 | The returned record always has a theme. It is the default palette when the stored theme is null or absent. Every other field, and a present theme, is returned unchanged. |
| `Barbershops.Listing` | src/actions/barbershops.ts:25-29 | Every listed entry is the id/name/address/phone/created_at projection of a row owned by the given user. Ids are strictly descending. |
| `Barbershops.ListingComplete` | src/actions/barbershops.ts:28 | Every row the user owns appears in the listing. |
| `Barbershops.ListingNewestFirst` | src/actions/barbershops.ts:29 | In a table where later ids were created later, the listing is strictly ordered by `created_at`, newest first. |
| `Barbershops.BarbershopTable.GetBarbershops` | src/actions/barbershops.ts:16-36 | The result is empty when nobody is signed in or the store fails. Otherwise it contains exactly the projections of the caller's rows, newest first. |
| `Barbershops.BarbershopTable.GetBarbershopById` | src/actions/barbershops.ts:39-61 | The result is null when nobody is signed in or the store fails. Otherwise a record is returned iff a row with that id is owned by the caller, so a foreign row looks like a missing one. The record returned is that row with its theme defaulted. |
| `Barbershops.BarbershopTable.CreateBarbershop` | src/actions/barbershops.ts:64-95 | With no caller it fails with "User not authenticated"; with an empty or missing name, "Barbershop name is required"; on a store failure, with the store's message. On every error path the table is unchanged. Otherwise exactly one row is added under a fresh id, built by `NewRow`, and returned. The table invariant holds throughout. |
| `Barbershops.BarbershopTable.UpdateBarbershop` | src/actions/barbershops.ts:98-127 | An unauthenticated caller, a store failure, or no row with that id owned by the caller each gives an error and null data, and nothing changes. Otherwise only that row changes, to `ApplyPatch` of it, and it is returned. |
| `Barbershops.BarbershopTable.DeleteBarbershop` | src/actions/barbershops.ts:131-152 | Fails when nobody is signed in and changes nothing on a store failure. Otherwise it returns no error and removes exactly the caller's row with that id, if there is one. A missing or foreign id is a successful no-op. |
| `BarbershopForm.IsTime` | src/components/barbershops/BarbershopForm.tsx:30-31 | The time pattern character by character: hours `0`/`1` and a digit or `2` and `0`-`3`, a colon, then minutes `0`-`5` and a digit, five characters in all. |
| `BarbershopForm.NameValid` | src/components/barbershops/BarbershopForm.tsx:26 | At least two characters. |
| `BarbershopForm.TimeFieldValid` | src/components/barbershops/BarbershopForm.tsx:30-31 | A time field passes when absent, null, empty, or matching the pattern. |
| `BarbershopForm.DurationValid` | src/components/barbershops/BarbershopForm.tsx:32 | A duration passes when absent, null, or a positive whole number. |
| `BarbershopForm.FormValid` | src/components/barbershops/BarbershopForm.tsx:25-33 | The schema as a whole, without the URL check. |
| `BarbershopForm.ClockReadingIsTime` | src/components/barbershops/BarbershopForm.tsx:30-31 | Every zero-padded time of day from 00:00 to 23:59 matches the time pattern. |
| `BarbershopForm.TimeIsClockReading` | src/components/barbershops/BarbershopForm.tsx:30-31 | The time pattern accepts exactly the zero-padded `HH:MM` readings with hours 0-23 and minutes 0-59. |
| `BarbershopForm.DurationValidIsPositiveWhole` | src/components/barbershops/BarbershopForm.tsx:32 | A present duration passes exactly when it is a whole number of minutes, at least one. |
| `BarbershopForm.DefaultHoursAreTimes` | src/components/barbershops/BarbershopForm.tsx:53-54 | The default opening and closing hours are the readings of 9:00 and 20:00 and match the time pattern. |
| `BarbershopForm.OrElse` | src/components/barbershops/BarbershopForm.tsx:49-54 | A non-empty stored text is kept; an empty, null or absent one becomes the fallback. |
| `BarbershopForm.InitialDuration` | src/components/barbershops/BarbershopForm.tsx:55 | A stored null becomes undefined. A stored zero or missing duration becomes 30. Any other value is kept. |
| `BarbershopForm.InitialValues` | src/components/barbershops/BarbershopForm.tsx:48-56 | With no record the defaults are empty texts, 09:00, 20:00 and 30. With a record its name is kept; address, phone and logo fall back to empty text, the hours to 09:00 and 20:00, each only when the stored value is empty, null or absent; the duration is `InitialDuration` of the stored one. Valid stored hours stay valid. The starting duration passes the schema exactly when the stored one did or was zero. |
| `BarbershopForm.NullIfEmpty` | src/components/barbershops/BarbershopForm.tsx:66-70 | A non-empty text is sent as is; an empty, null or missing one is sent as null. |
| `BarbershopForm.Submitted` | src/components/barbershops/BarbershopForm.tsx:64-72 | The payload carries the name unchanged, each optional text column through `NullIfEmpty`, an undefined duration as null and any other duration as given. It carries no owner and no theme. |
| `BarbershopForm.FormStricterThanAction` | src/components/barbershops/BarbershopForm.tsx:26 | A payload from a valid form always passes the create action's name check. A one-character name passes the action but not the form. |
| `BarbershopForm.UntouchedEditKeepsRecord` | src/components/barbershops/BarbershopForm.tsx:48-72 | Saving an untouched edit form of a fully filled record with a non-zero duration writes the record back unchanged. |
| `BarbershopForm.UntouchedEditFillsOpeningTime` | src/components/barbershops/BarbershopForm.tsx:53 | Saving an untouched edit form of a record with no opening time stores 09:00. |
| `BarbershopForm.SaveFailed` | src/components/barbershops/BarbershopForm.tsx:80 | `if (result.error)`: a save failed only when its error is a non-empty message. |
| `BarbershopForm.AfterSaveAsWritten` | src/components/barbershops/BarbershopForm.tsx:86-93 | A save whose error is a non-empty message navigates nowhere. Any other result, an empty message included, pushes `//barbershops` and then refreshes. |
| `BarbershopForm.AfterSaveLeavesTheApp` | src/components/barbershops/BarbershopForm.tsx:91 | The URL pushed after a successful save is a network-path reference, not a path in the application. |
| `BarbershopForm.AfterSave` | src/components/barbershops/BarbershopForm.tsx:86-93 | Corrected: a successful save pushes `/app/barbershops` and refreshes, and every pushed URL is a path on the current host. |
| `ThemeEditorForm.MatchesHexColor` | src/components/barbershops/ThemeEditorForm.tsx:24 | `#` followed by one or two groups of three hex digits, matched against the whole text. |
| `ThemeEditorForm.ColorFieldValid` | src/components/barbershops/ThemeEditorForm.tsx:27-29 | A colour field passes when absent, null, empty, or a matching colour. |
| `ThemeEditorForm.ThemeFormValid` | src/components/barbershops/ThemeEditorForm.tsx:26-31 | All three colour fields pass; the logo URL check is not modelled. |
| `ThemeEditorForm.HexGroupsClosedForm` | src/components/barbershops/ThemeEditorForm.tsx:24 | Between `lo` and `hi` groups of three hex digits match exactly the all-hex texts whose length is a multiple of three in that range. |
| `ThemeEditorForm.HexColorShape` | src/components/barbershops/ThemeEditorForm.tsx:24 | A colour matches iff it is `#` followed by exactly three or exactly six hex digits, in either case. |
| `ThemeEditorForm.FourOrFiveDigitsRefused` | src/components/barbershops/ThemeEditorForm.tsx:24 | `#` followed by four or five characters never matches. |
| `ThemeEditorForm.DefaultThemeValuesMatchActions` | src/components/barbershops/ThemeEditorForm.tsx:40-45 | The editor's default palette equals the one the create action stores. |
| `ThemeEditorForm.DefaultColorsValid` | src/components/barbershops/ThemeEditorForm.tsx:41-43 | Every default colour passes the colour rule. |
| `ThemeEditorForm.InitialThemeValues` | src/components/barbershops/ThemeEditorForm.tsx:54-59 | With no stored theme the values are the defaults. With one, each key independently keeps a non-empty stored value and otherwise takes that key's default. The result has all four keys, each colour non-empty. |
| `ThemeEditorForm.InitialThemeValuesKeepValidity` | src/components/barbershops/ThemeEditorForm.tsx:54-59 | A stored theme that passes the colour rule yields starting values that pass it too. |
| `ThemeEditorForm.InitialThemeValuesIdempotent` | src/components/barbershops/ThemeEditorForm.tsx:54-58 | Applying the fallback to its own result changes nothing. |
| `ThemeEditorForm.ThemeSubmitted` | src/components/barbershops/ThemeEditorForm.tsx:65 | The editor sends an update whose only column is the theme, the four submitted keys. |
| `ThemeEditorForm.ThemeSaveReplacesOnlyTheme` | src/components/barbershops/ThemeEditorForm.tsx:65 | Saving the editor changes the stored record's theme to the submitted values and nothing else. |
| `UserNav.LocalPart` | src/components/layout/UserNav.tsx:25 | The local part is a prefix of the address without `@`, followed by `@` when shorter than the address. |
| `UserNav.LocalPartOfAddress` | src/components/layout/UserNav.tsx:25 | The local part of `pre@domain` is `pre` when `pre` has no `@`. |
| `UserNav.SplitPieces` | src/components/layout/UserNav.tsx:25 | Splitting always gives at least one piece. |
| `UserNav.SplitPiecesSingle` | src/components/layout/UserNav.tsx:25-26 | There is exactly one piece iff the text has no separator, and then that piece is the whole text. |
| `UserNav.SplitPiecesFirst` | src/components/layout/UserNav.tsx:25 | The first piece is the text up to the first separator. |
| `UserNav.SplitPiecesLast` | src/components/layout/UserNav.tsx:25 | The last piece is the text after the last separator. |
| `UserNav.SplitAfterLeadingSeparator` | src/components/layout/UserNav.tsx:25 | A separator followed by a separator-free word splits into an empty piece and the word. |
| `UserNav.SplitAroundLastSeparator` | src/components/layout/UserNav.tsx:25-26 | With the last separator at `k - 1` there are several pieces and the last is the text from `k`. The first piece starts with the text's first character unless that is a separator. |
| `UserNav.Upper` | src/components/layout/UserNav.tsx:27 | Upper-casing keeps the length, maps each character and leaves no lowercase letter. |
| `UserNav.FirstTwo` | src/components/layout/UserNav.tsx:29 | The result is the prefix of length two, or the whole text when shorter. |
| `UserNav.InitialsAsWritten` | src/components/layout/UserNav.tsx:23-30 | `getInitials` as written, with JavaScript's `undefined` and NaN: "AD" for a missing or empty address, and whenever it does not throw, a result with no lowercase letter. |
| `UserNav.LeadingSeparatorSpellsUndefined` | src/components/layout/UserNav.tsx:25-27 | As written, a local part made of a separator and a name gives the ten characters `UNDEFINED` plus a letter. |
| `UserNav.LoneSeparatorThrows` | src/components/layout/UserNav.tsx:25-27 | As written, a local part that is a single separator makes `toUpperCase` throw. |
| `UserNav.Initials` | src/components/layout/UserNav.tsx:23-30 | Corrected initials: "AD" for a missing or empty address, and otherwise one or two characters with no lowercase letter. When there are several pieces and the first or last is empty, the first two characters of the address, upper-cased. |
| `UserNav.InitialsOfUnseparatedName` | src/components/layout/UserNav.tsx:29 | A local part without separators, as in `john@x.com`, gives the address's first two characters upper-cased ("JO"), both as written and corrected. |
| `UserNav.LeadingSeparatorFallsBack` | src/components/layout/UserNav.tsx:25-29 | Where the code as written spells "UNDEFINED", the corrected initials are the separator and the name's first letter upper-cased, the address's first two characters. |
| `UserNav.InitialsAgreeWithCode` | src/components/layout/UserNav.tsx:23-30 | When the address has a single piece, or its first and last pieces are both non-empty, the code as written gives the corrected result. |
| `UserNav.InitialsOfSeparatedName` | src/components/layout/UserNav.tsx:25-27 | For a local part with a separator before position `k`, none after it and none in front, the initials are the upper-cased first character of the address and the character at `k`. |
| `UserNav.DisplayName` | src/components/layout/UserNav.tsx:58 | The full name if it is non-empty. Otherwise the non-empty local part of the email. Otherwise "Admin". Never empty. |
| `UserNav.Render` | src/components/layout/UserNav.tsx:37-43 | A skeleton iff loading. Nothing iff settled with no user. The menu for the user iff settled with one. |
| `RootPage.Redirect` | src/app/page.tsx:13-21 | No redirect iff loading. `/app/barbershops` iff settled with a user. `/login` iff settled without one. |
| `RootPage.RedirectDependsOnPresence` | src/app/page.tsx:13-21 | The decision depends only on whether a user is present, not on which user it is. |
| `AuthContext.UserOf` | src/contexts/AuthContext.tsx:34 | The session's user, or none exactly when there is no session. |
| `AuthContext.AuthProvider.constructor` | src/contexts/AuthContext.tsx:23-26 | The provider starts with no user, loading, no error and no navigation. |
| `AuthContext.AuthProvider.SessionProbed` | src/contexts/AuthContext.tsx:32-37 | The probe sets the user to the session's user and ends loading. Error and navigation are unchanged. The landing page then redirects by whether a session exists. |
| `AuthContext.AuthProvider.AuthStateChanged` | src/contexts/AuthContext.tsx:39-48 | Every notification, whatever its kind, sets the user from the session and ends loading. Only SIGNED_OUT navigates, and it pushes `/login`. |
| `AuthContext.AuthProvider.SignIn` | src/contexts/AuthContext.tsx:55-66 | On the (dead) missing-client guard it returns the "Supabase client not initialized" error, status 500, and changes nothing. Otherwise error becomes the backend's answer and loading ends, with the user untouched. It pushes `/app/barbershops` and refreshes iff there was no error. |
| `AuthContext.AuthProvider.SignOut` | src/contexts/AuthContext.tsx:68-76 | On the (dead) missing-client guard it returns the same error and changes nothing. Otherwise it records the backend's error and ends loading, leaving user and navigation alone. |

## Left out

- Every call to the hosted backend is abstracted: `getUser`, the query builder, `getSession`, `onAuthStateChange`, `signInWithPassword` and `signOut`. The caller, the session, the auth event and each store error are parameters of the operation that receives them.
- `src/lib/supabase/server.ts` and `src/lib/supabase/client.ts` are not part of this model (environment lookup, cookies, client construction). The `!supabase` guards, dead with this factory, are the `hasClient` constant.
- `src/actions/auth.ts` is not part of this model; it only passes through to the backend and redirects.
- Row-level security, transport failures, and id and timestamp generation are abstracted. Ids are natural numbers from a counter. Timestamps are ticks of a clock that advances on each insert. A store failure is a parameter and leaves the table unchanged.
- `Barbershops.BarbershopTable.UpdateBarbershop` does not model `updated_at`. The code never writes it, and a database trigger, if any, is not part of this model. Update payloads carry no `id` or `created_at`, because the form never sends them.
- `Barbershops.BarbershopTable.GetBarbershops` promises the ordering only through the table invariant that later ids have later `created_at`. The model has no clock ties.
- `revalidatePath`, `toast`, `console.error` and `router.refresh` side effects are left out. Router calls appear only as entries in a navigation log.
- The zod `.url()` checks on `logo_url` and `logo_mobile_url`, and the `z.coerce.number()` coercion of the duration, are library behaviour. Durations are modelled as real numbers that are already parsed.
- `AuthContext.AuthProvider.SignIn` and `AuthContext.AuthProvider.SignOut` treat each completion as one atomic step. Overlapping calls and the intermediate render with `loading` true are not modelled.
- `Barbershops.MergeTheme`: a theme key present with the value `undefined` is not represented. In the source it survives the spread and is dropped when the insert is serialised, so the stored theme lacks that key; the model keeps the default there.
- `Barbershops.NewRow`: optional columns left out of the insert are taken to default to NULL; the table's schema is not part of this model.
- `UserNav.Upper` upper-cases ASCII letters only; Unicode case mapping is not modelled.
- `BarbershopForm.NameValid` counts Unicode scalar values, while zod's `.min(2)` counts UTF-16 code units: a name made of one character outside the Basic Multilingual Plane, such as one emoji, passes the source's schema but not the model's.
- `UserNav.FirstTwo` takes two Unicode scalar values, while `substring(0, 2)` takes two UTF-16 code units, which can be half of one such character.
- `UserNav.FirstChar` takes the first Unicode scalar value, while `p[0]` takes the first UTF-16 code unit.
- `useAuth`'s error outside a provider, the JSX markup, the sidebar, the header, the layout, the data-table columns and locale date formatting are presentation only.
- The `Service` and `Professional` types in `src/lib/types.ts` are declared but unused by this core.

## Findings

| source | as written | input that shows it | evidently intended | confidence | as-written member | corrected member |
|---|---|---|---|---|---|---|
| src/components/layout/UserNav.tsx:25-27 | A local part that starts with a separator has an empty first piece. `parts[0][0]` is then `undefined`, and `undefined + "a"` is the text "undefineda". A lone separator makes `undefined + undefined`, which is NaN, and `toUpperCase` on it throws. | `_ann@x.io` gives "UNDEFINEDA"; `-@x.io` throws | Two initials taken from non-empty pieces, falling back to the first two characters of the address | not executed | `UserNav.LeadingSeparatorSpellsUndefined` | `UserNav.Initials` |
| src/components/barbershops/BarbershopForm.tsx:91 | After a successful save the form pushes `//barbershops`. By section 4.2 of RFC 3986 that is a network-path reference to a host named `barbershops`. | any successful create or update | Push `/app/barbershops`, as sign-in, the landing page and the sidebar do. The list page sits in a route group, whose name adds no URL segment, so `/barbershops` is also a possible target; the corrected member's same-host property holds for either | not executed | `BarbershopForm.AfterSaveLeavesTheApp` | `BarbershopForm.AfterSave` |
