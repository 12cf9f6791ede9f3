/** The mobile theme editor (src/components/barbershops/ThemeEditorForm.tsx):
    the hex colour rule, the palette the form falls back to, and the update it sends. */
module ThemeEditorForm {
  import opened Types
  import Barbershops

  predicate IsHexDigit(c: char) {
    '0' <= c <= '9' || 'a' <= c <= 'f' || 'A' <= c <= 'F'
  }

  predicate AllHex(t: string) {
    forall i :: 0 <= i < |t| ==> IsHexDigit(t[i])
  }

  /** `([0-9A-Fa-f]{3}){lo,hi}` matched against the whole of `t`, one group of three at a time. */
  predicate HexGroups(t: string, lo: nat, hi: nat)
    decreases |t|
  {
    if t == [] then lo == 0
    else
      && hi > 0 && |t| >= 3
      && IsHexDigit(t[0]) && IsHexDigit(t[1]) && IsHexDigit(t[2])
      && HexGroups(t[3..], if lo > 0 then lo - 1 else 0, hi - 1)
  }

  /** `hexColorRegex`, `^#([0-9A-Fa-f]{3}){1,2}$`. */
  predicate MatchesHexColor(s: string) {
    |s| >= 1 && s[0] == '#' && HexGroups(s[1..], 1, 2)
  }

  /** Between `lo` and `hi` groups of three hex digits: a run of hex digits whose length is such a multiple of three. */
  lemma {:induction false} HexGroupsClosedForm(t: string, lo: nat, hi: nat)
    ensures HexGroups(t, lo, hi) <==> |t| % 3 == 0 && 3 * lo <= |t| <= 3 * hi && AllHex(t)
    decreases |t|
  {
    if t != [] && |t| >= 3 && hi > 0 {
      HexGroupsClosedForm(t[3..], if lo > 0 then lo - 1 else 0, hi - 1);
      assert AllHex(t) <==> IsHexDigit(t[0]) && IsHexDigit(t[1]) && IsHexDigit(t[2]) && AllHex(t[3..]) by {
        if IsHexDigit(t[0]) && IsHexDigit(t[1]) && IsHexDigit(t[2]) && AllHex(t[3..]) {
          forall i | 3 <= i < |t| ensures IsHexDigit(t[i]) {
            assert t[i] == t[3..][i - 3];
          }
        }
      }
    }
  }

  /** A colour is `#` followed by exactly three or exactly six hex digits, in either case. */
  lemma HexColorShape(s: string)
    ensures MatchesHexColor(s) <==>
      (|s| == 4 || |s| == 7) && s[0] == '#' && forall i :: 1 <= i < |s| ==> IsHexDigit(s[i])
  {
    if |s| >= 1 {
      HexGroupsClosedForm(s[1..], 1, 2);
      if AllHex(s[1..]) {
        forall i | 1 <= i < |s| ensures IsHexDigit(s[i]) {
          assert s[i] == s[1..][i - 1];
        }
      }
    }
  }

  /** Four or five digits are refused, whatever they are. */
  lemma FourOrFiveDigitsRefused(s: string)
    requires |s| == 5 || |s| == 6
    ensures !MatchesHexColor(s)
  {
    HexColorShape(s);
  }

  /** A colour field: the pattern, or empty, null or left out. */
  predicate ColorFieldValid(f: Field<string>) {
    match f
    case Val(s) => s == "" || MatchesHexColor(s)
    case _ => true
  }

  /** `themeFormSchema`; the URL check on the logo is not part of this model. */
  predicate ThemeFormValid(t: Theme) {
    ColorFieldValid(t.primaryColor) && ColorFieldValid(t.secondaryColor) && ColorFieldValid(t.accentColor)
  }

  const DefaultThemeValues := Theme(Val("#0A84FF"), Val("#6CB2FF"), Val("#FF9500"), Val(""))

  /** The editor's palette is the one the create action stores. */
  lemma DefaultThemeValuesMatchActions()
    ensures DefaultThemeValues == Barbershops.DefaultTheme
  {
  }

  /** Every default colour passes the colour rule. */
  lemma DefaultColorsValid()
    ensures ThemeFormValid(DefaultThemeValues)
  {
    HexColorShape("#0A84FF");
    HexColorShape("#6CB2FF");
    HexColorShape("#FF9500");
  }

  /** `stored || fallback` on one theme key. */
  function KeyOrDefault(stored: Field<string>, fallback: Field<string>): Field<string> {
    if Truthy(stored) then stored else fallback
  }

  /** `defaultValues`: the stored theme key by key, each empty key replaced by its default. */
  function InitialThemeValues(initial: Field<Theme>): (v: Theme)
    ensures !initial.Val? ==> v == DefaultThemeValues
    ensures HasAllKeys(v) && v.logoMobileUrl.Val?
    ensures Truthy(v.primaryColor) && Truthy(v.secondaryColor) && Truthy(v.accentColor)
    ensures initial.Val? && Truthy(initial.value.primaryColor) ==> v.primaryColor == initial.value.primaryColor
    ensures initial.Val? && !Truthy(initial.value.primaryColor) ==> v.primaryColor == DefaultThemeValues.primaryColor
    ensures initial.Val? && Truthy(initial.value.secondaryColor) ==> v.secondaryColor == initial.value.secondaryColor
    ensures initial.Val? && !Truthy(initial.value.secondaryColor) ==> v.secondaryColor == DefaultThemeValues.secondaryColor
    ensures initial.Val? && Truthy(initial.value.accentColor) ==> v.accentColor == initial.value.accentColor
    ensures initial.Val? && !Truthy(initial.value.accentColor) ==> v.accentColor == DefaultThemeValues.accentColor
    ensures initial.Val? && Truthy(initial.value.logoMobileUrl) ==> v.logoMobileUrl == initial.value.logoMobileUrl
    ensures initial.Val? && !Truthy(initial.value.logoMobileUrl) ==> v.logoMobileUrl == Val("")
  {
    match initial
    case Val(t) =>
      Theme(KeyOrDefault(t.primaryColor, DefaultThemeValues.primaryColor),
            KeyOrDefault(t.secondaryColor, DefaultThemeValues.secondaryColor),
            KeyOrDefault(t.accentColor, DefaultThemeValues.accentColor),
            KeyOrDefault(t.logoMobileUrl, DefaultThemeValues.logoMobileUrl))
    case _ => DefaultThemeValues
  }

  /** A stored theme that passes the colour rule gives form values that pass it too. */
  lemma InitialThemeValuesKeepValidity(initial: Field<Theme>)
    requires initial.Val? ==> ThemeFormValid(initial.value)
    ensures ThemeFormValid(InitialThemeValues(initial))
  {
    DefaultColorsValid();
  }

  /** Filling in the defaults twice changes nothing more. */
  lemma InitialThemeValuesIdempotent(initial: Field<Theme>)
    ensures InitialThemeValues(Val(InitialThemeValues(initial))) == InitialThemeValues(initial)
  {
  }

  /** `updateBarbershop(id, { theme: values })`. */
  function ThemeSubmitted(values: Theme): (p: BarbershopPatch)
    ensures p.theme == Val(values) && p.userId.None? && p.name.None?
  {
    EmptyPatch.(theme := Val(values))
  }

  /** Saving the editor replaces the stored theme with the four submitted keys and touches nothing else. */
  lemma ThemeSaveReplacesOnlyTheme(b: Barbershop, values: Theme)
    ensures Barbershops.ApplyPatch(b, ThemeSubmitted(values)) == b.(theme := Val(values))
  {
  }
}
