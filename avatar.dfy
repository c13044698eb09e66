/** The view-locals middleware: what every rendered page learns about the
    session, including the avatar, the upper-cased initials of the username. */
module Avatar {
  import opened Wrappers
  import opened Auth

  /** `s.split(sep)`: the pieces between occurrences of `sep`, empty pieces
      included; the empty string splits into one empty piece. */
  function Split(s: string, sep: char): (pieces: seq<string>)
    ensures |pieces| >= 1
    ensures forall p :: p in pieces ==> sep !in p
    ensures Join(pieces, sep) == s
    decreases |s|
  {
    if s == [] then [[]]
    else if s[0] == sep then [[]] + Split(s[1..], sep)
    else
      var rest := Split(s[1..], sep);
      [[s[0]] + rest[0]] + rest[1..]
  }

  /** `pieces.join(sep)`. */
  function Join(pieces: seq<string>, sep: char): string
  {
    if pieces == [] then []
    else if |pieces| == 1 then pieces[0]
    else pieces[0] + [sep] + Join(pieces[1..], sep)
  }

  /** `pieces.map(n => n[0]).join("")`: the first character of each piece;
      an empty piece yields `undefined`, which `join` renders as nothing. */
  function Initials(pieces: seq<string>): string
  {
    if pieces == [] then []
    else (if pieces[0] == [] then [] else [pieces[0][0]]) + Initials(pieces[1..])
  }

  /** `toUpperCase` on the ASCII letters; every other character is kept. */
  function ToUpper(c: char): char {
    if 'a' <= c <= 'z' then (c as int - 'a' as int + 'A' as int) as char else c
  }

  function Upper(s: string): (u: string)
    ensures |u| == |s|
    ensures forall i :: 0 <= i < |s| ==> u[i] == ToUpper(s[i])
  {
    if s == [] then [] else [ToUpper(s[0])] + Upper(s[1..])
  }

  /** Reference definition of the initials, by one left-to-right scan: a
      character is kept when it is not a space and starts the string or
      follows a space. `atStart` says whether the previous character was a
      space (or there was none). */
  function WordStarts(s: string, atStart: bool): string
  {
    if s == [] then []
    else (if atStart && s[0] != ' ' then [s[0]] else []) + WordStarts(s[1..], s[0] == ' ')
  }

  /** The avatar computed at src/index.js:87-95: absent unless the session
      holds a non-empty username. */
  function AvatarOf(username: Option<string>): Option<string>
  {
    if username.Some? && username.value != [] then
      Some(Upper(Initials(Split(username.value, ' '))))
    else None
  }

  lemma {:induction false} InitialsAppend(a: seq<string>, b: seq<string>)
    ensures Initials(a + b) == Initials(a) + Initials(b)
    decreases |a|
  {
    if a != [] {
      assert (a + b)[0] == a[0] && (a + b)[1..] == a[1..] + b;
      InitialsAppend(a[1..], b);
    } else {
      assert a + b == b;
    }
  }

  /** Splitting on spaces and keeping the first character of every piece
      is the same as keeping each character that starts a word; the
      initials of all pieces but the first are the word starts after a
      non-space. */
  lemma {:induction false} InitialsAreWordStarts(s: string)
    ensures Initials(Split(s, ' ')) == WordStarts(s, true)
    ensures Initials(Split(s, ' ')[1..]) == WordStarts(s, false)
    decreases |s|
  {
    if s != [] {
      var rest := Split(s[1..], ' ');
      InitialsAreWordStarts(s[1..]);
      if s[0] == ' ' {
        assert Split(s, ' ') == [[]] + rest;
        InitialsAppend([[]], rest);
        assert Split(s, ' ')[1..] == rest;
      } else {
        assert Split(s, ' ') == [[s[0]] + rest[0]] + rest[1..];
        InitialsAppend([[s[0]] + rest[0]], rest[1..]);
        assert Split(s, ' ')[1..] == rest[1..];
      }
    }
  }

  lemma {:induction false} WordStartsBounds(s: string, atStart: bool)
    ensures |WordStarts(s, atStart)| <= |s|
    ensures ' ' !in WordStarts(s, atStart)
    decreases |s|
  {
    if s != [] {
      WordStartsBounds(s[1..], s[0] == ' ');
    }
  }

  /** The avatar is the upper-cased word initials of a non-empty username:
      one character per space-separated word, never a space (upper-casing
      a non-space gives a non-space), and never longer than the username. */
  lemma AvatarIsUpperWordInitials(username: string)
    requires username != []
    ensures AvatarOf(Some(username)) == Some(Upper(WordStarts(username, true)))
    ensures |AvatarOf(Some(username)).value| <= |username|
    ensures ' ' !in AvatarOf(Some(username)).value
  {
    InitialsAreWordStarts(username);
    WordStartsBounds(username, true);
  }

  /** `res.locals` as set by the middleware at src/index.js:83-97. */
  datatype Locals = Locals(userId: Option<UserId>, userRole: string, username: Option<string>, avatar: Option<string>)

  /** `x || fallback` on a string: the empty string is falsy. */
  function OrElse(x: Option<string>, fallback: Option<string>): Option<string>
  {
    if x.Some? && x.value != [] then x else fallback
  }

  /** The locals every page sees. A user id is shown exactly when
      `requireAuth` would let the request through, and it is the session's
      own. The role is the session's non-empty role, or "user" by default,
      so it is "admin" exactly when `isAdmin` would proceed. A username is
      shown exactly when the session holds a non-empty one, and an avatar
      exactly when a username is. */
  function ViewLocals(s: Session): (l: Locals)
    ensures l.userId.Some? <==> RequireAuth(s) == Proceed
    ensures SignedIn(s) ==> l.userId == s.userId
    ensures s.userRole.Some? && s.userRole.value != [] ==> l.userRole == s.userRole.value
    ensures s.userRole.None? || s.userRole.value == [] ==> l.userRole == "user"
    ensures l.userRole == "admin" <==> IsAdmin(s) == Proceed
    ensures l.username.Some? <==> s.username.Some? && s.username.value != []
    ensures l.username.Some? ==> l.username == s.username
    ensures l.avatar.Some? <==> l.username.Some?
    ensures l.avatar == AvatarOf(s.username)
  {
    Locals(
      if SignedIn(s) then s.userId else None,
      OrElse(s.userRole, Some("user")).value,
      OrElse(s.username, None),
      AvatarOf(s.username))
  }

  /** The avatar a page shows is the upper-cased first letter of every word
      of the shown username. */
  lemma ShownAvatarIsWordInitials(s: Session)
    requires ViewLocals(s).username.Some?
    ensures ViewLocals(s).avatar == Some(Upper(WordStarts(ViewLocals(s).username.value, true)))
  {
    AvatarIsUpperWordInitials(s.username.value);
  }

  /** The scan's state after reading `s`: whether the next character
      would start a word. */
  function AfterScan(s: string, atStart: bool): bool
    decreases |s|
  {
    if s == [] then atStart else AfterScan(s[1..], s[0] == ' ')
  }

  /** The scan of a concatenation is the scan of the first part followed
      by the scan of the second from the state the first one left. */
  lemma {:induction false} WordStartsAppend(a: string, b: string, atStart: bool)
    ensures WordStarts(a + b, atStart) == WordStarts(a, atStart) + WordStarts(b, AfterScan(a, atStart))
    decreases |a|
  {
    if a == [] {
      assert a + b == b;
    } else {
      assert (a + b)[0] == a[0] && (a + b)[1..] == a[1..] + b;
      WordStartsAppend(a[1..], b, a[0] == ' ');
    }
  }

  /** Inside a word, after its first character, nothing is kept. */
  lemma {:induction false} WordStartsInsideWord(x: string)
    requires ' ' !in x
    ensures WordStarts(x, false) == []
    decreases |x|
  {
    if x != [] {
      assert x[0] in x;
      WordStartsInsideWord(x[1..]);
    }
  }

  /** A word keeps only its first character. */
  lemma WordStartsOfWord(c: char, x: string)
    requires c != ' ' && ' ' !in x
    ensures WordStarts([c] + x, true) == [c]
  {
    assert ([c] + x)[1..] == x;
    WordStartsInsideWord(x);
  }

  /** Two words separated by one space give the two upper-cased first
      letters ("jo doe" gives "JD"). */
  lemma TwoWordAvatar(a: char, x: string, b: char, y: string)
    requires a != ' ' && b != ' ' && ' ' !in x && ' ' !in y
    ensures AvatarOf(Some([a] + x + " " + [b] + y)) == Some([ToUpper(a), ToUpper(b)])
  {
    var w1, w2 := [a] + x, [b] + y;
    assert [a] + x + " " + [b] + y == w1 + (" " + w2);
    AvatarIsUpperWordInitials(w1 + (" " + w2));
    WordStartsOfWord(a, x);
    WordStartsOfWord(b, y);
    WordStartsAppend(w1, " " + w2, true);
    WordStartsAppend(" ", w2, AfterScan(w1, true));
    assert Upper([a, b]) == [ToUpper(a), ToUpper(b)];
  }

  /** A run of two spaces gives no more initials than one space: the empty
      piece between them contributes nothing. */
  lemma DoubleSpaceAddsNothing(u: string, v: string)
    ensures AvatarOf(Some(u + "  " + v)) == AvatarOf(Some(u + " " + v))
  {
    assert u + "  " + v == u + ("  " + v) && u + " " + v == u + (" " + v);
    AvatarIsUpperWordInitials(u + ("  " + v));
    AvatarIsUpperWordInitials(u + (" " + v));
    var after := AfterScan(u, true);
    WordStartsAppend(u, "  " + v, true);
    WordStartsAppend(u, " " + v, true);
    WordStartsAppend("  ", v, after);
    WordStartsAppend(" ", v, after);
  }
}
