/**
 * The two middlewares that stand in front of every protected route:
 * `auth`, which takes the token from the Authorization header, verifies it
 * and attaches the user, and `role`, which lets the request through only when
 * that user's role is in the route's allow-list.
 */
module Guards {
  import opened Wrappers
  import opened Records

  /** What a guard does with a request: pass it on with what it learned, or answer it. */
  datatype Outcome<+T> = Proceed(value: T) | Reject(status: int, error: string)

  // ---------------------------------------------------------------------
  // String splitting, as JavaScript's `s.split(sep)` with a one-character separator
  // ---------------------------------------------------------------------

  /** The pieces of `s` between occurrences of `sep`; always at least one piece. */
  function Split(s: string, sep: char): (parts: seq<string>)
    ensures |parts| >= 1
    ensures |parts| >= 2 <==> sep in s
    ensures forall i :: 0 <= i < |parts| ==> sep !in parts[i]
    decreases |s|
  {
    if s == [] then [""]
    else
      var rest := Split(s[1..], sep);
      if s[0] == sep then [""] + rest
      else [[s[0]] + rest[0]] + rest[1..]
  }

  /** The inverse of Split: the pieces glued back together with `sep`. */
  function Join(parts: seq<string>, sep: char): string
    requires |parts| >= 1
  {
    if |parts| == 1 then parts[0] else parts[0] + [sep] + Join(parts[1..], sep)
  }

  lemma {:induction false} JoinConsChar(c: char, parts: seq<string>, sep: char)
    requires |parts| >= 1
    ensures Join([[c] + parts[0]] + parts[1..], sep) == [c] + Join(parts, sep)
  {
    var glued := [[c] + parts[0]] + parts[1..];
    assert glued[0] == [c] + parts[0];
    if |parts| > 1 {
      assert glued[1..] == parts[1..];
    }
  }

  /** Splitting loses nothing: joining the pieces gives the string back. */
  lemma {:induction false} JoinSplit(s: string, sep: char)
    ensures Join(Split(s, sep), sep) == s
    decreases |s|
  {
    if s != [] {
      var rest := Split(s[1..], sep);
      JoinSplit(s[1..], sep);
      if s[0] == sep {
        var parts := [""] + rest;
        assert parts[1..] == rest;
        assert Join(parts, sep) == [sep] + Join(rest, sep);
      } else {
        JoinConsChar(s[0], rest, sep);
      }
      assert s == [s[0]] + s[1..];
    }
  }

  lemma {:induction false} SplitWord(w: string, sep: char)
    requires sep !in w
    ensures Split(w, sep) == [w]
    decreases |w|
  {
    if w != [] {
      SplitWord(w[1..], sep);
      assert [w[0]] + w[1..] == w;
    }
  }

  lemma {:induction false} SplitAfterWord(w: string, sep: char, tail: string)
    requires sep !in w
    ensures Split(w + [sep] + tail, sep) == [w] + Split(tail, sep)
    decreases |w|
  {
    var s := w + [sep] + tail;
    if w == [] {
      assert s[1..] == tail;
    } else {
      assert s[1..] == w[1..] + [sep] + tail;
      SplitAfterWord(w[1..], sep, tail);
      assert [w[0]] + w[1..] == w;
    }
  }

  /** Split is the only way to cut a string into separator-free pieces: it undoes Join. */
  lemma {:induction false} SplitJoin(parts: seq<string>, sep: char)
    requires |parts| >= 1
    requires forall i :: 0 <= i < |parts| ==> sep !in parts[i]
    ensures Split(Join(parts, sep), sep) == parts
  {
    if |parts| == 1 {
      SplitWord(parts[0], sep);
    } else {
      SplitJoin(parts[1..], sep);
      SplitAfterWord(parts[0], sep, Join(parts[1..], sep));
      assert [parts[0]] + parts[1..] == parts;
    }
  }

  // ---------------------------------------------------------------------
  // The auth middleware
  // ---------------------------------------------------------------------

  /**
   * `req.headers.authorization?.split(" ")[1]`: the second space-separated
   * segment of the header, whatever the first one says.
   */
  function HeaderToken(authorization: Option<string>): (token: Option<string>)
    ensures token.Some? <==> authorization.Some? && ' ' in authorization.value
    ensures token.Some? ==> ' ' !in token.value
  {
    match authorization
    case None => None
    case Some(h) =>
      var parts := Split(h, ' ');
      if |parts| >= 2 then Some(parts[1]) else None
  }

  /** The header carries no usable token: `!token` holds for `undefined` and for the empty string. */
  predicate NoToken(authorization: Option<string>): (r: bool)
    ensures authorization.None? || ' ' !in authorization.value ==> r
  {
    var token := HeaderToken(authorization);
    token.None? || token.value == ""
  }

  /**
   * After the first space, the token is empty exactly when the header ends
   * there or another space follows at once: "Bearer " and "Bearer  xyz" carry
   * no token.
   */
  lemma {:induction false} EmptySecondSegment(scheme: string, rest: string)
    requires ' ' !in scheme
    ensures NoToken(Some(scheme + " " + rest)) <==> rest == "" || rest[0] == ' '
  {
    SplitAfterWord(scheme, ' ', rest);
    assert scheme + " " + rest == scheme + [' '] + rest;
  }

  /** Any scheme word is accepted: "Basic xyz" yields "xyz" just as "Bearer xyz" does. */
  lemma {:induction false} TokenIgnoresScheme(scheme: string, token: string, more: string)
    requires ' ' !in scheme && ' ' !in token
    ensures HeaderToken(Some(scheme + " " + token)) == Some(token)
    ensures HeaderToken(Some(scheme + " " + token + " " + more)) == Some(token)
  {
    var h1 := scheme + " " + token;
    assert h1 == scheme + [' '] + token;
    SplitAfterWord(scheme, ' ', token);
    SplitWord(token, ' ');
    assert Split(h1, ' ') == [scheme, token];
    var h2 := scheme + " " + token + " " + more;
    assert h2 == scheme + [' '] + (token + [' '] + more);
    SplitAfterWord(scheme, ' ', token + [' '] + more);
    SplitAfterWord(token, ' ', more);
    assert Split(h2, ' ') == [scheme] + ([token] + Split(more, ' '));
  }

  /**
   * Conversely, a header yields token `t` only when it is a space-free word,
   * one space, `t` (itself space-free), and then nothing or a space and more.
   */
  lemma {:induction false} TokenShape(h: string, t: string) returns (scheme: string, rest: string)
    requires HeaderToken(Some(h)) == Some(t)
    ensures h == scheme + " " + t + rest
    ensures ' ' !in scheme && ' ' !in t
    ensures rest == "" || rest[0] == ' '
  {
    var parts := Split(h, ' ');
    JoinSplit(h, ' ');
    scheme := parts[0];
    assert parts[1..][0] == t;
    if |parts| == 2 {
      rest := "";
      assert Join(parts[1..], ' ') == t;
    } else {
      rest := " " + Join(parts[2..], ' ');
      assert parts[1..][1..] == parts[2..];
      assert Join(parts[1..], ' ') == t + [' '] + Join(parts[2..], ' ');
    }
  }

  /**
   * The `auth` middleware. 401 "Unauthorized" without a token, 401 "Invalid
   * token" when verification fails; otherwise the request goes on with the
   * user found under the token's id, which may be missing (`null`).
   */
  function Auth(authorization: Option<string>, verify: string -> Option<Id>, users: map<Id, User>): (r: Outcome<Option<User>>)
    ensures r == Reject(401, "Unauthorized") <==> NoToken(authorization)
    ensures r == Reject(401, "Invalid token") <==>
      !NoToken(authorization) && verify(HeaderToken(authorization).value).None?
    ensures r.Proceed? <==> !NoToken(authorization) && verify(HeaderToken(authorization).value).Some?
    ensures r.Proceed? ==>
      var id := verify(HeaderToken(authorization).value).value;
      r.value == (if id in users then Some(users[id]) else None)
  {
    var token := HeaderToken(authorization);
    if token.None? || token.value == "" then Reject(401, "Unauthorized")
    else
      match verify(token.value)
      case None => Reject(401, "Invalid token")
      case Some(id) => Proceed(if id in users then Some(users[id]) else None)
  }

  // ---------------------------------------------------------------------
  // The role gate and the composed chain
  // ---------------------------------------------------------------------

  /** The allow-lists the routes register. */
  const AdminOnly: seq<Role> := [Admin]
  const StudentOnly: seq<Role> := [Student]
  const WorkerOnly: seq<Role> := [Worker]

  /** `role(roles)`: 403 "Forbidden" unless the attached user's role is allowed. */
  function RoleGate(allowed: seq<Role>, user: User): (r: Outcome<User>)
    ensures r.Proceed? <==> user.role in allowed
    ensures r.Proceed? ==> r.value == user
    ensures r.Reject? ==> r.status == 403 && r.error == "Forbidden"
  {
    if user.role in allowed then Proceed(user) else Reject(403, "Forbidden")
  }

  /**
   * The user a valid token names still exists. The role gate reads
   * `req.user.role` and would fail on a `null` user, so the chain needs this.
   */
  predicate TokenUserExists(authorization: Option<string>, verify: string -> Option<Id>, users: map<Id, User>)
  {
    !NoToken(authorization) && verify(HeaderToken(authorization).value).Some? ==>
      verify(HeaderToken(authorization).value).value in users
  }

  /**
   * `auth` followed by `role(allowed)`: the guard chain of a protected route.
   * It answers in exactly one of four ways: 401 "Unauthorized" when there is
   * no token, 401 "Invalid token" when it does not verify, 403 "Forbidden"
   * when the token's user has a role outside the allow-list, and otherwise it
   * proceeds with that user.
   */
  function Authorize(authorization: Option<string>, verify: string -> Option<Id>, users: map<Id, User>, allowed: seq<Role>): (r: Outcome<User>)
    requires TokenUserExists(authorization, verify, users)
    ensures r == Reject(401, "Unauthorized") <==> NoToken(authorization)
    ensures r == Reject(401, "Invalid token") <==>
      !NoToken(authorization) && verify(HeaderToken(authorization).value).None?
    ensures r == Reject(403, "Forbidden") <==>
      !NoToken(authorization) && verify(HeaderToken(authorization).value).Some? &&
      users[verify(HeaderToken(authorization).value).value].role !in allowed
    ensures r.Proceed? <==>
      !NoToken(authorization) && verify(HeaderToken(authorization).value).Some? &&
      users[verify(HeaderToken(authorization).value).value].role in allowed
    ensures r.Proceed? ==> r.value == users[verify(HeaderToken(authorization).value).value]
  {
    match Auth(authorization, verify, users)
    case Reject(status, error) => Reject(status, error)
    case Proceed(user) => RoleGate(allowed, user.value)
  }

  /** A request with no Authorization header at all never reaches the role gate or the handler. */
  lemma {:induction false} MissingHeaderIsUnauthorized(verify: string -> Option<Id>, users: map<Id, User>, allowed: seq<Role>)
    ensures Authorize(None, verify, users, allowed) == Reject(401, "Unauthorized")
  {
  }
}
