/** The Navbar's avatar initials and display name for the signed-in user. */
module Navbar {
  import opened Wrappers
  import opened JsText

  /** The signed-in user as the client holds it; a field the server did not
      send is `None`. */
  datatype AuthUser = AuthUser(name: Option<string>, fullName: Option<string>, email: Option<string>, role: string)

  /** What the profile button shows. */
  datatype View = View(initials: string, displayName: string, email: Option<string>, badge: Option<string>)

  predicate Truthy(s: Option<string>) {
    s.Some? && s.value != ""
  }

  function Take(s: string, n: nat): (r: string)
    ensures |r| == if |s| < n then |s| else n
    ensures r == s[..|r|]
  {
    if |s| < n then s else s[..n]
  }

  /** `getInitials(name)`: with a name, the first character of each
      space-separated piece, upper-cased, at most two of them; without one,
      the upper-cased first character of the e-mail, or "U". */
  function GetInitials(name: Option<string>, email: Option<string>): (r: string)
    ensures |r| <= 2
    ensures !Truthy(name) && Truthy(email) ==> r == [UpperChar(email.value[0])]
    ensures !Truthy(name) && !Truthy(email) ==> r == "U"
    ensures Truthy(name) ==> forall k :: 0 <= k < |r| ==> r[k] != ' '
  {
    if !Truthy(name) then
      if Truthy(email) then Upper([email.value[0]]) else "U"
    else
      HeadsOfSplitIsWordStarts(name.value);
      Take(Upper(Heads(SplitOnSpace(name.value))), 2)
  }

  /** The initials are the first two word starts of the name, in order and
      upper-cased: empty pieces between repeated spaces add nothing. */
  lemma {:induction false} InitialsAreWordStarts(name: string, email: Option<string>)
    requires name != ""
    ensures GetInitials(Some(name), email) == Upper(Take(WordStarts(name, true), 2))
  {
    HeadsOfSplitIsWordStarts(name);
  }

  /** A name of spaces only is truthy, so the e-mail fallback is not taken
      and the avatar is empty. */
  lemma {:induction false} BlankNameHasNoInitials(n: nat, email: Option<string>)
    requires n > 0
    ensures GetInitials(Some(seq(n, _ => ' ')), email) == ""
  {
    var s := seq(n, _ => ' ');
    InitialsAreWordStarts(s, email);
    NoWordStartsInSpaces(s, true);
  }

  lemma {:induction false} NoWordStartsInSpaces(s: string, afterSpace: bool)
    requires forall k :: 0 <= k < |s| ==> s[k] == ' '
    ensures WordStarts(s, afterSpace) == ""
  {
    if s != [] {
      NoWordStartsInSpaces(s[1..], true);
    }
  }

  /** Where a space-free word starts a piece it adds its first character,
      and nothing else. */
  lemma {:induction false} WordStartsOfWord(w: string, afterSpace: bool)
    requires SpaceFree(w)
    ensures WordStarts(w, afterSpace) == if afterSpace && w != [] then [w[0]] else ""
  {
    if w != [] {
      WordStartsOfWord(w[1..], false);
    }
  }

  /** Whether the character after `s` starts a piece: `s` ends in a space,
      or `s` is empty and the character before it did. */
  predicate EndsAfterSpace(s: string, afterSpace: bool) {
    if s == [] then afterSpace else s[|s| - 1] == ' '
  }

  lemma {:induction false} EndsAfterSpaceTail(s: string, afterSpace: bool)
    requires s != []
    ensures EndsAfterSpace(s[1..], s[0] == ' ') == EndsAfterSpace(s, afterSpace)
  {
    if |s| > 1 {
      assert s[1..][|s| - 2] == s[|s| - 1];
    }
  }

  /** The word starts of a concatenation: the second part continues after
      the last character of the first. */
  lemma {:induction false} WordStartsAppend(s: string, t: string, afterSpace: bool)
    ensures WordStarts(s + t, afterSpace)
      == WordStarts(s, afterSpace) + WordStarts(t, EndsAfterSpace(s, afterSpace))
  {
    if s == [] {
      assert s + t == t;
    } else {
      assert (s + t)[0] == s[0] && (s + t)[1..] == s[1..] + t;
      WordStartsAppend(s[1..], t, s[0] == ' ');
      EndsAfterSpaceTail(s, afterSpace);
    }
  }

  predicate SpaceFree(w: string) {
    forall k :: 0 <= k < |w| ==> w[k] != ' '
  }

  /** Two words give their two initials, a doubled space between them adds
      nothing, and a third word is cut off. */
  lemma {:induction false} InitialsOfThreeWords(a: string, b: string, c: string, email: Option<string>)
    requires a != [] && b != [] && c != []
    requires SpaceFree(a) && SpaceFree(b) && SpaceFree(c)
    ensures GetInitials(Some(a + "  " + b + " " + c), email) == [UpperChar(a[0]), UpperChar(b[0])]
  {
    var w := [a[0], b[0], c[0]];
    WordStartsOfThree(a, b, c);
    InitialsAreWordStarts(a + "  " + b + " " + c, email);
    assert Take(w, 2) == [a[0], b[0]];
  }

  lemma {:induction false} WordStartsOfThree(a: string, b: string, c: string)
    requires a != [] && b != [] && c != []
    requires SpaceFree(a) && SpaceFree(b) && SpaceFree(c)
    ensures WordStarts(a + "  " + b + " " + c, true) == [a[0], b[0], c[0]]
  {
    WordStartsOfTwo(a, b);
    var s := a + "  " + b + " ";
    assert s[|s| - 1] == ' ';
    WordStartsOfWord(c, true);
    WordStartsAppend(s, c, true);
  }

  lemma {:induction false} WordStartsOfTwo(a: string, b: string)
    requires a != [] && b != [] && SpaceFree(a) && SpaceFree(b)
    ensures WordStarts(a + "  " + b + " ", true) == [a[0], b[0]]
  {
    WordStartsOfOne(a);
    var s := a + "  ";
    assert s[|s| - 1] == ' ';
    WordStartsOfWord(b, true);
    WordStartsAppend(s, b, true);
    var s2 := s + b;
    assert s2[|s2| - 1] == b[|b| - 1];
    NoWordStartsInSpaces(" ", false);
    WordStartsAppend(s2, " ", true);
  }

  lemma {:induction false} WordStartsOfOne(a: string)
    requires a != [] && SpaceFree(a)
    ensures WordStarts(a + "  ", true) == [a[0]]
  {
    WordStartsOfWord(a, true);
    NoWordStartsInSpaces("  ", false);
    WordStartsAppend(a, "  ", true);
  }

  /** The argument the avatar passes: `name`, falling back to `fullName`. */
  function InitialsName(u: AuthUser): (r: Option<string>)
    ensures Truthy(u.name) ==> r == u.name
    ensures !Truthy(u.name) ==> r == u.fullName
  {
    if Truthy(u.name) then u.name else u.fullName
  }

  /** The display name: `name`, then `fullName`, then "User". */
  function DisplayName(u: AuthUser): (r: string)
    ensures r != ""
    ensures Truthy(u.name) ==> r == u.name.value
    ensures !Truthy(u.name) && Truthy(u.fullName) ==> r == u.fullName.value
    ensures !Truthy(u.name) && !Truthy(u.fullName) ==> r == "User"
  {
    if Truthy(u.name) then u.name.value
    else if Truthy(u.fullName) then u.fullName.value
    else "User"
  }

  /** The component: nothing without a signed-in user. The role badge
      appears for an admin only. */
  function Render(authUser: Option<AuthUser>): (r: Option<View>)
    ensures r.Some? <==> authUser.Some?
    ensures r.Some? ==> r.value.initials == GetInitials(InitialsName(authUser.value), authUser.value.email)
    ensures r.Some? ==> r.value.displayName == DisplayName(authUser.value)
    ensures r.Some? ==> (r.value.badge.Some? <==> authUser.value.role == "admin")
  {
    match authUser
    case None => None
    case Some(u) =>
      Some(View(GetInitials(InitialsName(u), u.email), DisplayName(u), u.email,
                if u.role == "admin" then Some(u.role) else None))
  }

  /** The avatar and the display name fall back together: a user with
      neither name shows the e-mail initial (or "U") next to "User". */
  lemma {:induction false} NamelessFallback(u: AuthUser)
    requires !Truthy(u.name) && !Truthy(u.fullName)
    ensures Render(Some(u)).value.displayName == "User"
    ensures Render(Some(u)).value.initials == if Truthy(u.email) then [UpperChar(u.email.value[0])] else "U"
  {
  }
}
