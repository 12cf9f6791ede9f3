/** The account menu in the header (src/components/layout/UserNav.tsx):
    avatar initials, the display name, and which of its three renderings shows. */
module UserNav {
  import opened Types

  /** `email.split('@')[0]`: the text before the first `@`, or all of it. */
  function LocalPart(email: string): (r: string)
    ensures r <= email && '@' !in r
    ensures |r| < |email| ==> email[|r|] == '@'
  {
    if email == [] || email[0] == '@' then [] else [email[0]] + LocalPart(email[1..])
  }

  predicate IsSeparator(c: char) {
    c == '.' || c == '_' || c == '-'
  }

  predicate NoSeparator(s: string) {
    forall i :: 0 <= i < |s| ==> !IsSeparator(s[i])
  }

  /** `s.split(/[._-]/)`: the pieces between separators, empty pieces included. */
  function SplitPieces(s: string): (parts: seq<string>)
    ensures |parts| >= 1
  {
    if s == [] then [""]
    else
      var rest := SplitPieces(s[1..]);
      if IsSeparator(s[0]) then [""] + rest
      else [[s[0]] + rest[0]] + rest[1..]
  }

  /** Splitting gives more than one piece exactly when there is a separator, and a
      text without one comes back whole. */
  lemma {:induction false} SplitPiecesSingle(s: string)
    ensures |SplitPieces(s)| == 1 <==> NoSeparator(s)
    ensures |SplitPieces(s)| == 1 ==> SplitPieces(s)[0] == s
  {
    if s != [] {
      SplitPiecesSingle(s[1..]);
      assert forall i :: 1 <= i < |s| ==> s[i] == s[1..][i - 1];
    }
  }

  /** The first piece is the text up to the first separator. */
  lemma {:induction false} SplitPiecesFirst(s: string)
    ensures var first := SplitPieces(s)[0];
      first <= s && NoSeparator(first) && (|first| < |s| ==> IsSeparator(s[|first|]))
  {
    if s != [] {
      SplitPiecesFirst(s[1..]);
    }
  }

  /** The text after the last separator: a separator-free suffix, preceded by a separator
      unless it is the whole text. */
  predicate IsLastPiece(s: string, last: string) {
    |last| <= |s| && s[|s| - |last|..] == last && NoSeparator(last) &&
    (|last| < |s| ==> IsSeparator(s[|s| - |last| - 1]))
  }

  /** A last piece of the tail that is shorter than the tail is also the last piece of the text. */
  lemma LastPieceOfTail(s: string, last: string)
    requires s != [] && IsLastPiece(s[1..], last) && |last| < |s| - 1
    ensures IsLastPiece(s, last)
  {
    assert s[1..][|s| - 1 - |last|..] == s[|s| - |last|..];
    assert s[1..][|s| - 1 - |last| - 1] == s[|s| - |last| - 1];
  }

  /** The last piece is the text after the last separator. */
  lemma {:induction false} SplitPiecesLast(s: string)
    ensures var parts := SplitPieces(s); IsLastPiece(s, parts[|parts| - 1])
  {
    if s == [] {
      assert SplitPieces(s) == [""];
    } else {
      SplitPiecesLast(s[1..]);
      if IsSeparator(s[0]) {
        LastPieceAfterSeparator(s);
      } else {
        LastPieceAfterCharacter(s);
      }
    }
  }

  /** The step of `SplitPiecesLast` for a text that starts with a separator. */
  lemma LastPieceAfterSeparator(s: string)
    requires s != [] && IsSeparator(s[0])
    requires var rest := SplitPieces(s[1..]); IsLastPiece(s[1..], rest[|rest| - 1])
    ensures var parts := SplitPieces(s); IsLastPiece(s, parts[|parts| - 1])
  {
    var rest := SplitPieces(s[1..]);
    assert SplitPieces(s)[|SplitPieces(s)| - 1] == rest[|rest| - 1];
    LastPieceAfterHead(s, rest[|rest| - 1]);
  }

  /** The step of `SplitPiecesLast` for a text that starts with any other character. */
  lemma LastPieceAfterCharacter(s: string)
    requires s != [] && !IsSeparator(s[0])
    requires var rest := SplitPieces(s[1..]); IsLastPiece(s[1..], rest[|rest| - 1])
    ensures var parts := SplitPieces(s); IsLastPiece(s, parts[|parts| - 1])
  {
    var rest := SplitPieces(s[1..]);
    var restLast := rest[|rest| - 1];
    SplitPiecesSingle(s[1..]);
    if |rest| == 1 {
      assert [s[0]] + s[1..] == s;
      assert SplitPieces(s) == [s];
      WholeIsLastPiece(s);
    } else {
      assert SplitPieces(s)[|SplitPieces(s)| - 1] == restLast;
      assert !NoSeparator(s[1..]);
      assert restLast != s[1..];
      LastPieceOfTail(s, restLast);
    }
  }

  /** A text with no separator is its own last piece. */
  lemma WholeIsLastPiece(s: string)
    requires s != [] && !IsSeparator(s[0]) && NoSeparator(s[1..])
    ensures IsLastPiece(s, s)
  {
    forall i | 1 <= i < |s| ensures !IsSeparator(s[i]) {
      assert s[i] == s[1..][i - 1];
    }
    assert s[|s| - |s|..] == s;
  }

  /** After a leading separator, the tail's last piece is the text's last piece. */
  lemma LastPieceAfterHead(s: string, last: string)
    requires s != [] && IsSeparator(s[0]) && IsLastPiece(s[1..], last)
    ensures IsLastPiece(s, last)
  {
    if |last| < |s| - 1 {
      LastPieceOfTail(s, last);
    } else {
      assert s[|s| - |last|..] == s[1..];
    }
  }

  /** `toUpperCase` on one character; only ASCII letters are in this model. */
  function UpperChar(c: char): char {
    if 'a' <= c <= 'z' then (c as int - 32) as char else c
  }

  predicate NoLowercase(s: string) {
    forall i :: 0 <= i < |s| ==> !('a' <= s[i] <= 'z')
  }

  /** `s.toUpperCase()`. */
  function Upper(s: string): (r: string)
    ensures |r| == |s| && NoLowercase(r)
    ensures forall i :: 0 <= i < |s| ==> r[i] == UpperChar(s[i])
  {
    seq(|s|, i requires 0 <= i < |s| => UpperChar(s[i]))
  }

  /** `s.substring(0, 2)`. */
  function FirstTwo(s: string): (r: string)
    ensures r <= s && |r| == if |s| < 2 then |s| else 2
  {
    if |s| < 2 then s else s[..2]
  }

  /** The three JavaScript values `getInitials` can produce along the way. */
  datatype JsValue = JsString(s: string) | JsUndefined | JsNaN

  /** `p[0]`: the first character, or `undefined` for the empty string. */
  function FirstChar(p: string): JsValue {
    if p == "" then JsUndefined else JsString([p[0]])
  }

  /** The `+` operator on those values: `undefined` next to a string reads as the word
      "undefined"; two `undefined`s make the number NaN. */
  function Plus(a: JsValue, b: JsValue): JsValue {
    match (a, b)
    case (JsString(x), JsString(y)) => JsString(x + y)
    case (JsString(x), JsUndefined) => JsString(x + "undefined")
    case (JsUndefined, JsString(y)) => JsString("undefined" + y)
    case (JsString(x), JsNaN) => JsString(x + "NaN")
    case (JsNaN, JsString(y)) => JsString("NaN" + y)
    case _ => JsNaN
  }

  /** `v.toUpperCase()`: None when `v` is not a string, where JavaScript throws a TypeError. */
  function ToUpperCase(v: JsValue): Option<string> {
    if v.JsString? then Some(Upper(v.s)) else None
  }

  const DefaultInitials := "AD"

  /** `getInitials` as written. None is a thrown TypeError. */
  function InitialsAsWritten(email: Option<string>): (r: Option<string>)
    ensures email.None? || email == Some("") ==> r == Some(DefaultInitials)
    ensures r.Some? ==> NoLowercase(r.value)
  {
    if email.None? || email.value == "" then Some(DefaultInitials)
    else
      var parts := SplitPieces(LocalPart(email.value));
      if |parts| > 1 then ToUpperCase(Plus(FirstChar(parts[0]), FirstChar(parts[|parts| - 1])))
      else Some(Upper(FirstTwo(email.value)))
  }

  /** The local part of `pre@domain` is `pre` when `pre` has no `@`. */
  lemma {:induction false} LocalPartOfAddress(pre: string, domain: string)
    requires '@' !in pre
    ensures LocalPart(pre + "@" + domain) == pre
  {
    if pre != [] {
      assert (pre + "@" + domain)[1..] == pre[1..] + "@" + domain;
      LocalPartOfAddress(pre[1..], domain);
    }
  }

  /** A separator followed by a separator-free word splits into an empty piece and the word. */
  lemma SplitAfterLeadingSeparator(c: char, w: string)
    requires IsSeparator(c) && NoSeparator(w)
    ensures SplitPieces([c] + w) == ["", w]
  {
    assert ([c] + w)[1..] == w;
    SplitPiecesSingle(w);
  }

  /** A local part that starts with a separator, as in `_ann@x.io`, gives the ten
      characters "UNDEFINED" plus a letter instead of two initials. */
  lemma LeadingSeparatorSpellsUndefined(c: char, name: string, domain: string)
    requires IsSeparator(c) && name != [] && NoSeparator(name) && '@' !in name
    ensures InitialsAsWritten(Some([c] + name + "@" + domain)) == Some(Upper("undefined" + [name[0]]))
    ensures |Upper("undefined" + [name[0]])| == 10
  {
    assert [c] + name + "@" + domain == ([c] + name) + "@" + domain;
    LocalPartOfAddress([c] + name, domain);
    SplitAfterLeadingSeparator(c, name);
  }

  /** A local part that is a lone separator, as in `-@x.io`, makes `undefined + undefined`,
      a number, and `toUpperCase` throws. */
  lemma LoneSeparatorThrows(c: char, domain: string)
    requires IsSeparator(c)
    ensures InitialsAsWritten(Some([c] + "@" + domain)) == None
  {
    LocalPartOfAddress([c], domain);
    SplitAfterLeadingSeparator(c, "");
    assert [c] + "" == [c];
  }

  /** `getInitials` as evidently meant: initials from the first and last pieces when
      both have a character, else the first two characters of the address. */
  function Initials(email: Option<string>): (r: string)
    ensures 1 <= |r| <= 2 && NoLowercase(r)
    ensures email.None? || email == Some("") ==> r == DefaultInitials
    ensures email.Some? && email.value != "" ==>
      var parts := SplitPieces(LocalPart(email.value));
      |parts| > 1 && (parts[0] == "" || parts[|parts| - 1] == "") ==> r == Upper(FirstTwo(email.value))
  {
    if email.None? || email.value == "" then DefaultInitials
    else
      var parts := SplitPieces(LocalPart(email.value));
      if |parts| > 1 && parts[0] != "" && parts[|parts| - 1] != "" then
        Upper([parts[0][0], parts[|parts| - 1][0]])
      else Upper(FirstTwo(email.value))
  }

  /** An address whose local part has no separator, such as `john@x.com`, gets its first two
      characters upper-cased ("JO"), both as written and corrected. */
  lemma InitialsOfUnseparatedName(email: string)
    requires email != "" && NoSeparator(LocalPart(email))
    ensures InitialsAsWritten(Some(email)) == Some(Upper(FirstTwo(email)))
    ensures Initials(Some(email)) == Upper(FirstTwo(email))
  {
    SplitPiecesSingle(LocalPart(email));
  }

  /** On the inputs that make the code as written spell "UNDEFINED", the corrected version
      falls back to the first two characters of the address: the separator and the name's first letter. */
  lemma LeadingSeparatorFallsBack(c: char, name: string, domain: string)
    requires IsSeparator(c) && name != [] && NoSeparator(name) && '@' !in name
    ensures Initials(Some([c] + name + "@" + domain)) == [c, UpperChar(name[0])]
  {
    var email := [c] + name + "@" + domain;
    assert email == ([c] + name) + "@" + domain;
    LocalPartOfAddress([c] + name, domain);
    SplitAfterLeadingSeparator(c, name);
    assert FirstTwo(email) == [c, name[0]];
  }

  /** Wherever the code as written gives a well-formed answer, the corrected version gives the same. */
  lemma InitialsAgreeWithCode(email: Option<string>)
    requires email.Some? && email.value != "" ==>
      var parts := SplitPieces(LocalPart(email.value));
      |parts| == 1 || (parts[0] != "" && parts[|parts| - 1] != "")
    ensures InitialsAsWritten(email) == Some(Initials(email))
  {
    if email.Some? && email.value != "" {
      var parts := SplitPieces(LocalPart(email.value));
      if |parts| > 1 {
        assert [parts[0][0]] + [parts[|parts| - 1][0]] == [parts[0][0], parts[|parts| - 1][0]];
      }
    }
  }

  /** When the last separator of `s` is at `k - 1`, there are several pieces, the last is
      `s[k..]`, and the first is not empty unless `s` starts with a separator. */
  lemma SplitAroundLastSeparator(s: string, k: nat)
    requires 0 < k <= |s| && IsSeparator(s[k - 1]) && NoSeparator(s[k..])
    ensures var parts := SplitPieces(s);
      |parts| > 1 && parts[|parts| - 1] == s[k..] &&
      (!IsSeparator(s[0]) ==> parts[0] != "" && parts[0][0] == s[0])
  {
    SplitPiecesSingle(s);
    SplitPiecesFirst(s);
    SplitPiecesLast(s);
  }

  /** With `k` just past the last separator of the local part, and no separator in
      front: the first character of the address and the character at `k`, upper-cased. */
  lemma InitialsOfSeparatedName(email: string, k: nat)
    requires var local := LocalPart(email);
      0 < k < |local| && IsSeparator(local[k - 1]) && NoSeparator(local[k..]) && !IsSeparator(local[0])
    ensures Initials(Some(email)) == [UpperChar(email[0]), UpperChar(LocalPart(email)[k])]
  {
    var local := LocalPart(email);
    SplitAroundLastSeparator(local, k);
    assert local[0] == email[0];
  }

  /** `full_name || email.split('@')[0] || "Admin"`. */
  function DisplayName(user: User): (r: string)
    ensures r != ""
    ensures Truthy(user.fullName) ==> r == user.fullName.value
    ensures !Truthy(user.fullName) && user.email.Some? && LocalPart(user.email.value) != "" ==>
      r == LocalPart(user.email.value) && r <= user.email.value && '@' !in r
    ensures !Truthy(user.fullName) && (user.email.None? || LocalPart(user.email.value) == "") ==> r == "Admin"
  {
    if Truthy(user.fullName) then user.fullName.value
    else if user.email.Some? && LocalPart(user.email.value) != "" then LocalPart(user.email.value)
    else "Admin"
  }

  /** What the component renders. */
  datatype View = Skeleton | Nothing | Menu(user: User)

  function Render(loading: bool, user: Option<User>): (v: View)
    ensures v.Skeleton? <==> loading
    ensures v.Nothing? <==> !loading && user.None?
    ensures v.Menu? <==> !loading && user.Some?
    ensures v.Menu? ==> v.user == user.value
  {
    if loading then Skeleton
    else if user.None? then Nothing
    else Menu(user.value)
  }
}
