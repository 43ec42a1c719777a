/** The string operations of JavaScript the model needs: `trim`, ASCII
    `toLowerCase`/`toUpperCase`, `includes` and `split(' ')`. */
module JsText {

  /** The characters `String.prototype.trim` removes: the ECMAScript
      WhiteSpace and LineTerminator code points of the basic plane. */
  predicate IsWhitespace(c: char) {
    || c == ' ' || c == '\t' || c == '\n' || c == '\r'
    || c == '\U{B}' || c == '\U{C}' || c == '\U{A0}' || c == '\U{1680}'
    || ('\U{2000}' <= c <= '\U{200A}')
    || c == '\U{2028}' || c == '\U{2029}' || c == '\U{202F}' || c == '\U{205F}'
    || c == '\U{3000}' || c == '\U{FEFF}'
  }

  predicate IsPrefix(p: string, s: string) {
    |p| <= |s| && s[..|p|] == p
  }

  /** `s` with its leading whitespace removed. */
  function TrimStart(s: string): (r: string)
    ensures |r| <= |s| && r == s[|s| - |r|..]
    ensures r == [] || !IsWhitespace(r[0])
    ensures forall i :: 0 <= i < |s| - |r| ==> IsWhitespace(s[i])
  {
    if |s| > 0 && IsWhitespace(s[0]) then
      var r := TrimStart(s[1..]);
      assert s[1..][|s| - 1 - |r|..] == s[|s| - |r|..];
      assert forall i :: 1 <= i < |s| - |r| ==> s[i] == s[1..][i - 1];
      r
    else s
  }

  /** `s` with its trailing whitespace removed. */
  function TrimEnd(s: string): (r: string)
    ensures |r| <= |s| && r == s[..|r|]
    ensures r == [] || !IsWhitespace(r[|r| - 1])
    ensures forall i :: |r| <= i < |s| ==> IsWhitespace(s[i])
  {
    if |s| > 0 && IsWhitespace(s[|s| - 1]) then
      var r := TrimEnd(s[..|s| - 1]);
      assert s[..|s| - 1][..|r|] == s[..|r|];
      assert forall i :: |r| <= i < |s| - 1 ==> s[i] == s[..|s| - 1][i];
      r
    else s
  }

  /** A string that neither starts nor ends with whitespace. */
  predicate Trimmed(s: string) {
    s == [] || (!IsWhitespace(s[0]) && !IsWhitespace(s[|s| - 1]))
  }

  /** `r` is `s` with some whitespace dropped from its front and its back. */
  ghost predicate WhitespaceFramed(r: string, s: string) {
    exists i :: 0 <= i <= |s| && IsPrefix(r, s[i..])
      && (forall k :: 0 <= k < i ==> IsWhitespace(s[k]))
      && (forall k :: i + |r| <= k < |s| ==> IsWhitespace(s[k]))
  }

  /** `s.trim()`: drops leading and trailing whitespace. */
  function Trim(s: string): (r: string)
    ensures Trimmed(r) && |r| <= |s|
  {
    TrimEnd(TrimStart(s))
  }

  /** What `Trim` drops is whitespace and nothing else. */
  lemma {:induction false} TrimIsFramed(s: string)
    ensures WhitespaceFramed(Trim(s), s)
  {
    var t := TrimStart(s);
    var r := TrimEnd(t);
    var i := |s| - |t|;
    assert s[i..] == t;
    assert IsPrefix(r, s[i..]);
    forall k | i + |r| <= k < |s|
      ensures IsWhitespace(s[k])
    {
      assert s[k] == t[k - i];
    }
  }

  lemma {:induction false} TrimStartKeeps(s: string)
    requires s == [] || !IsWhitespace(s[0])
    ensures TrimStart(s) == s
  {
  }

  lemma {:induction false} TrimEndKeeps(s: string)
    requires s == [] || !IsWhitespace(s[|s| - 1])
    ensures TrimEnd(s) == s
  {
  }

  /** Trimming a trimmed string changes nothing. */
  lemma {:induction false} TrimOfTrimmed(s: string)
    requires Trimmed(s)
    ensures Trim(s) == s
  {
    TrimStartKeeps(s);
    TrimEndKeeps(s);
  }

  /** Trimming is idempotent, so normalising twice changes nothing. */
  lemma {:induction false} TrimIdempotent(s: string)
    ensures Trim(Trim(s)) == Trim(s)
  {
    TrimOfTrimmed(Trim(s));
  }

  /** Whitespace-only strings, and only they, trim to the empty string
      (which then fails a `required` validator). */
  lemma {:induction false} TrimEmptyIff(s: string)
    ensures Trim(s) == [] <==> forall i :: 0 <= i < |s| ==> IsWhitespace(s[i])
  {
    if Trim(s) == [] {
      TrimEmptyIsBlank(s);
    } else {
      TrimKeepsFirstNonBlank(s);
    }
  }

  lemma {:induction false} TrimEmptyIsBlank(s: string)
    requires Trim(s) == []
    ensures forall i :: 0 <= i < |s| ==> IsWhitespace(s[i])
  {
    var t := TrimStart(s);
    var i := |s| - |t|;
    assert s[i..] == t;
    forall k | i <= k < |s|
      ensures IsWhitespace(s[k])
    {
      assert s[k] == t[k - i];
    }
  }

  lemma {:induction false} TrimKeepsFirstNonBlank(s: string)
    requires Trim(s) != []
    ensures exists i :: 0 <= i < |s| && !IsWhitespace(s[i])
  {
    var t := TrimStart(s);
    var i := |s| - |t|;
    assert s[i..] == t;
    assert t != [];
    assert s[i] == t[0];
  }

  /** ASCII case mapping (non-ASCII letters are left as they are). */
  function LowerChar(c: char): char {
    if 'A' <= c <= 'Z' then (c as int + 32) as char else c
  }

  function UpperChar(c: char): char {
    if 'a' <= c <= 'z' then (c as int - 32) as char else c
  }

  function Lower(s: string): (r: string)
    ensures |r| == |s|
    ensures forall i :: 0 <= i < |s| ==> r[i] == LowerChar(s[i])
  {
    seq(|s|, i requires 0 <= i < |s| => LowerChar(s[i]))
  }

  function Upper(s: string): (r: string)
    ensures |r| == |s|
    ensures forall i :: 0 <= i < |s| ==> r[i] == UpperChar(s[i])
  {
    seq(|s|, i requires 0 <= i < |s| => UpperChar(s[i]))
  }

  lemma {:induction false} LowerIdempotent(s: string)
    ensures Lower(Lower(s)) == Lower(s)
  {
  }

  /** Lower-casing keeps whitespace where it is, so lower-casing a trimmed
      string keeps it trimmed and the e-mail normalisation is idempotent. */
  lemma {:induction false} LowerTrimIdempotent(s: string)
    ensures Lower(Trim(Lower(Trim(s)))) == Lower(Trim(s))
  {
    var l := Lower(Trim(s));
    LowerKeepsTrimmed(Trim(s));
    TrimOfTrimmed(l);
    LowerIdempotent(Trim(s));
  }

  lemma {:induction false} LowerCharBlank(c: char)
    ensures IsWhitespace(LowerChar(c)) == IsWhitespace(c)
  {
    if 'A' <= c <= 'Z' {
      assert 'a' <= LowerChar(c) <= 'z';
    }
  }

  /** Lower-casing both sides keeps the whitespace frame: it maps blanks to
      blanks and acts on each character alone. */
  lemma {:induction false} LowerFramed(r: string, s: string)
    requires WhitespaceFramed(r, s)
    ensures WhitespaceFramed(Lower(r), Lower(s))
  {
    var i :| 0 <= i <= |s| && IsPrefix(r, s[i..])
      && (forall k :: 0 <= k < i ==> IsWhitespace(s[k]))
      && (forall k :: i + |r| <= k < |s| ==> IsWhitespace(s[k]));
    LowerFramedAt(r, s, i);
  }

  lemma {:induction false} LowerFramedAt(r: string, s: string, i: nat)
    requires i <= |s| && IsPrefix(r, s[i..])
    requires forall k :: 0 <= k < i ==> IsWhitespace(s[k])
    requires forall k :: i + |r| <= k < |s| ==> IsWhitespace(s[k])
    ensures IsPrefix(Lower(r), Lower(s)[i..])
    ensures forall k :: 0 <= k < i ==> IsWhitespace(Lower(s)[k])
    ensures forall k :: i + |Lower(r)| <= k < |Lower(s)| ==> IsWhitespace(Lower(s)[k])
  {
    var ls := Lower(s);
    forall k | 0 <= k < |r| ensures ls[i..][k] == Lower(r)[k] {
      assert s[i..][k] == r[k];
    }
    forall k | 0 <= k < i ensures IsWhitespace(ls[k]) {
      LowerCharBlank(s[k]);
    }
    forall k | i + |r| <= k < |ls| ensures IsWhitespace(ls[k]) {
      LowerCharBlank(s[k]);
    }
  }

  lemma {:induction false} LowerKeepsTrimmed(s: string)
    requires Trimmed(s)
    ensures Trimmed(Lower(s))
  {
    if s != [] {
      LowerCharBlank(s[0]);
      LowerCharBlank(s[|s| - 1]);
    }
  }

  /** `s.includes(q)`: `q` occurs in `s` at some offset. */
  function Includes(s: string, q: string): (r: bool)
    ensures r <==> exists i :: 0 <= i <= |s| && IsPrefix(q, s[i..])
  {
    if IsPrefix(q, s) then
      assert IsPrefix(q, s[0..]);
      true
    else if s == [] then
      false
    else
      var r := Includes(s[1..], q);
      if r then
        var i :| 0 <= i <= |s[1..]| && IsPrefix(q, s[1..][i..]);
        assert s[1..][i..] == s[i + 1..];
        true
      else
        assert forall i :: 1 <= i <= |s| ==> s[i..] == s[1..][i - 1..];
        false
  }

  /** The empty search string occurs everywhere. */
  lemma {:induction false} IncludesEmpty(s: string)
    ensures Includes(s, "")
  {
    assert IsPrefix("", s[0..]);
  }

  /** `s.split(' ')`, continuing a piece `cur` that has been read so far:
      every space ends a piece, so repeated spaces give empty pieces. */
  function SplitFrom(s: string, cur: string): (r: seq<string>)
    ensures |r| >= 1
    decreases |s|
  {
    if s == [] then [cur]
    else if s[0] == ' ' then [cur] + SplitFrom(s[1..], "")
    else SplitFrom(s[1..], cur + [s[0]])
  }

  function SplitOnSpace(s: string): seq<string> {
    SplitFrom(s, "")
  }

  /** `pieces.map(n => n.charAt(0)).join('')`: first character of every piece,
      nothing for an empty piece. */
  function Heads(pieces: seq<string>): (r: string)
    ensures |r| <= |pieces|
  {
    if pieces == [] then ""
    else (if pieces[0] == "" then "" else [pieces[0][0]]) + Heads(pieces[1..])
  }

  lemma {:induction false} HeadsAppend(a: seq<string>, b: seq<string>)
    ensures Heads(a + b) == Heads(a) + Heads(b)
  {
    if a == [] {
      assert a + b == b;
    } else {
      var h := if a[0] == "" then "" else [a[0][0]];
      assert (a + b)[0] == a[0] && (a + b)[1..] == a[1..] + b;
      assert Heads(a + b) == h + Heads(a[1..] + b);
      assert Heads(a) == h + Heads(a[1..]);
      HeadsAppend(a[1..], b);
    }
  }

  /** Independent reading of the initials: the non-space characters that
      start `s` or follow a space, in order (`afterSpace` says whether the
      character before `s` was a space or the start of the text). */
  function WordStarts(s: string, afterSpace: bool): (r: string)
    ensures forall k :: 0 <= k < |r| ==> r[k] != ' '
    ensures |r| <= |s|
  {
    if s == [] then ""
    else (if s[0] != ' ' && afterSpace then [s[0]] else "") + WordStarts(s[1..], s[0] == ' ')
  }

  lemma {:induction false} HeadsOfSplitFrom(s: string, cur: string)
    requires forall k :: 0 <= k < |cur| ==> cur[k] != ' '
    ensures Heads(SplitFrom(s, cur)) == (if cur == "" then WordStarts(s, true) else [cur[0]] + WordStarts(s, false))
    decreases |s|
  {
    if s == [] {
    } else if s[0] == ' ' {
      assert SplitFrom(s, cur) == [cur] + SplitFrom(s[1..], "");
      HeadsAppend([cur], SplitFrom(s[1..], ""));
      assert Heads([cur]) == if cur == "" then "" else [cur[0]];
      HeadsOfSplitFrom(s[1..], "");
      assert WordStarts(s, true) == WordStarts(s[1..], true);
      assert WordStarts(s, false) == WordStarts(s[1..], true);
    } else {
      var next := cur + [s[0]];
      assert forall k :: 0 <= k < |next| ==> next[k] != ' ';
      assert SplitFrom(s, cur) == SplitFrom(s[1..], next);
      HeadsOfSplitFrom(s[1..], next);
      assert next[0] == if cur == "" then s[0] else cur[0];
      assert WordStarts(s, true) == [s[0]] + WordStarts(s[1..], false);
      assert WordStarts(s, false) == WordStarts(s[1..], false);
    }
  }

  /** Splitting on single spaces and keeping the first character of each
      piece yields exactly the word starts: empty pieces contribute nothing. */
  lemma {:induction false} HeadsOfSplitIsWordStarts(s: string)
    ensures Heads(SplitOnSpace(s)) == WordStarts(s, true)
  {
    HeadsOfSplitFrom(s, "");
  }
}
