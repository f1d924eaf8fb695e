/**
 * The HTTP authorisation layer of the backend: `AuthMiddleware` reads the
 * `Authorization` header, insists on the form `Bearer <token>`, validates the
 * token and stores the user ID and role in the request context; `RequireRole`
 * lets a request through only when the context role equals the required one.
 *
 * Token validation is a foreign call, so it is a parameter: a function from the
 * token text to the claims it carries, or `None` when the token is invalid.
 */
module Middleware {
  import opened Common

  /** The claims a valid token carries. */
  datatype Claims = Claims(userId: string, role: string)

  /** The two values the middleware may put into a request context. */
  datatype Context = Context(user: Option<string>, role: Option<string>)

  /** A handler either passes the request on, with its context, or answers with an error. */
  datatype Outcome = Next(ctx: Context) | Reject(status: int, message: string)

  const Unauthorized := 401
  const Forbidden := 403

  /** The number of occurrences of `c` in `s`. */
  function Occurrences(s: string, c: char): nat
  {
    if s == [] then 0 else (if s[0] == c then 1 else 0) + Occurrences(s[1..], c)
  }

  /**
   * Go's `strings.Split(s, sep)` for a one-character separator: the pieces
   * between consecutive separators, including empty ones at either end.
   */
  function Split(s: string, c: char): (parts: seq<string>)
    ensures |parts| >= 1
  {
    if s == [] then [""]
    else
      var rest := Split(s[1..], c);
      if s[0] == c then [""] + rest else [[s[0]] + rest[0]] + rest[1..]
  }

  /** There is one piece more than there are separators, and no piece holds a separator. */
  lemma {:induction false} SplitSpec(s: string, c: char)
    ensures |Split(s, c)| == Occurrences(s, c) + 1
    ensures forall i :: 0 <= i < |Split(s, c)| ==> c !in Split(s, c)[i]
  {
    if s != [] {
      SplitSpec(s[1..], c);
      var rest := Split(s[1..], c);
      if s[0] != c {
        forall i | 0 <= i < |Split(s, c)| ensures c !in Split(s, c)[i] {
          if i == 0 {
            assert c !in rest[0];
          } else {
            assert Split(s, c)[i] == rest[i];
          }
        }
      }
    }
  }

  /** `strings.Join(parts, sep)`: the inverse of `Split`. */
  function Join(parts: seq<string>, c: char): string
    requires |parts| >= 1
  {
    if |parts| == 1 then parts[0] else parts[0] + [c] + Join(parts[1..], c)
  }

  /** Splitting and joining again gives back the header unchanged. */
  lemma {:induction false} SplitJoin(s: string, c: char)
    ensures Join(Split(s, c), c) == s
  {
    if s != [] {
      SplitJoin(s[1..], c);
      var rest := Split(s[1..], c);
      if s[0] != c {
        if |rest| == 1 {
          assert s == [s[0]] + s[1..];
        } else {
          assert Join(rest, c) == rest[0] + [c] + Join(rest[1..], c);
          assert s == [s[0]] + s[1..];
        }
      }
    }
  }

  /** A text without the separator is one piece. */
  lemma {:induction false} SplitNoSeparator(s: string, c: char)
    requires c !in s
    ensures Split(s, c) == [s]
  {
    if s != [] {
      SplitNoSeparator(s[1..], c);
      assert s == [s[0]] + s[1..];
    }
  }

  /** How `Split` treats a first character. */
  lemma SplitCons(x: char, s: string, c: char)
    ensures Split([x] + s, c) ==
      if x == c then [""] + Split(s, c) else [[x] + Split(s, c)[0]] + Split(s, c)[1..]
  {
    assert ([x] + s)[1..] == s;
  }

  /** Splitting at a separator between `a` and `b` splits `a` and `b` apart. */
  lemma {:induction false} SplitAround(a: string, b: string, c: char)
    ensures Split(a + [c] + b, c) == Split(a, c) + Split(b, c)
  {
    if a == [] {
      assert a + [c] + b == [c] + b;
      SplitCons(c, b, c);
    } else {
      SplitAround(a[1..], b, c);
      SplitAroundCons(a[0], a[1..], b, c);
      assert a == [a[0]] + a[1..];
    }
  }

  /** The inductive step of `SplitAround`: a first character of `a` joins its first piece or is a separator. */
  lemma SplitAroundCons(x: char, t: string, b: string, c: char)
    requires Split(t + [c] + b, c) == Split(t, c) + Split(b, c)
    ensures Split([x] + t + [c] + b, c) == Split([x] + t, c) + Split(b, c)
  {
    var u, v := [x] + t + [c] + b, [x] + t;
    assert u != [] && u[0] == x && u[1..] == t + [c] + b;
    assert v != [] && v[0] == x && v[1..] == t;
    var p, q := Split(t, c), Split(b, c);
    if x == c {
      assert [""] + (p + q) == ([""] + p) + q;
    } else {
      ConsFirstPiece(x, p, q);
    }
  }

  /** Gluing a character onto the first piece commutes with appending further pieces. */
  lemma ConsFirstPiece(x: char, p: seq<string>, q: seq<string>)
    requires |p| >= 1
    ensures [[x] + (p + q)[0]] + (p + q)[1..] == ([[x] + p[0]] + p[1..]) + q
  {
    assert (p + q)[0] == p[0];
    assert (p + q)[1..] == p[1..] + q;
  }

  /**
   * `AuthMiddleware`: an empty header, a header that is not exactly two
   * space-separated parts starting with "Bearer", and a token that fails
   * validation are each answered with 401; otherwise the request goes on with
   * the token's user ID and role in its context.
   */
  function Authenticate(header: string, validate: string -> Option<Claims>): Outcome
  {
    if header == "" then Reject(Unauthorized, "Unauthorized")
    else
      var parts := Split(header, ' ');
      if |parts| != 2 || parts[0] != "Bearer" then Reject(Unauthorized, "Invalid authorization header")
      else match validate(parts[1])
        case None => Reject(Unauthorized, "Invalid token")
        case Some(claims) => Next(Context(Some(claims.userId), Some(claims.role)))
  }

  /** Every rejection by `AuthMiddleware` is a 401. */
  lemma AuthenticateRejectsWith401(header: string, validate: string -> Option<Claims>)
    ensures Authenticate(header, validate).Reject? ==> Authenticate(header, validate).status == Unauthorized
    ensures header == "" ==> Authenticate(header, validate) == Reject(Unauthorized, "Unauthorized")
  {
  }

  /** "Bearer ", one space, then a token without spaces: the token is what gets validated. */
  lemma WellFormedHeader(token: string, validate: string -> Option<Claims>)
    requires ' ' !in token
    ensures Authenticate("Bearer " + token, validate) ==
      match validate(token)
      case None => Reject(Unauthorized, "Invalid token")
      case Some(claims) => Next(Context(Some(claims.userId), Some(claims.role)))
  {
    assert "Bearer " + token == "Bearer" + [' '] + token;
    SplitAround("Bearer", token, ' ');
    SplitNoSeparator("Bearer", ' ');
    SplitNoSeparator(token, ' ');
  }

  /**
   * Conversely, an accepted header is "Bearer ", one space and a token without
   * spaces that validates to the claims now in the context.
   */
  lemma AcceptedHeader(header: string, validate: string -> Option<Claims>) returns (token: string)
    requires Authenticate(header, validate).Next?
    ensures header == "Bearer " + token && ' ' !in token
    ensures validate(token).Some?
    ensures Authenticate(header, validate).ctx ==
      Context(Some(validate(token).value.userId), Some(validate(token).value.role))
  {
    var parts := Split(header, ' ');
    token := parts[1];
    SplitSpec(header, ' ');
    SplitJoin(header, ' ');
    assert Join(parts, ' ') == parts[0] + [' '] + Join(parts[1..], ' ');
    assert parts[1..] == [token];
  }

  /** A header with a second space between "Bearer" and the token has three parts and is refused. */
  lemma ExtraSpaceRejected(token: string, validate: string -> Option<Claims>)
    requires ' ' !in token
    ensures Authenticate("Bearer  " + token, validate) == Reject(Unauthorized, "Invalid authorization header")
  {
    assert "Bearer  " + token == "Bearer" + [' '] + (" " + token);
    SplitAround("Bearer", " " + token, ' ');
    assert " " + token == "" + [' '] + token;
    SplitAround("", token, ' ');
    SplitNoSeparator("Bearer", ' ');
    SplitNoSeparator(token, ' ');
    assert |Split("Bearer  " + token, ' ')| == 3;
  }

  /** `RequireRole`: the request goes on only when the context holds the required role; otherwise 403. */
  function RequireRole(role: string, ctx: Context): (o: Outcome)
    ensures o.Next? <==> ctx.role == Some(role)
    ensures o.Next? ==> o.ctx == ctx
    ensures o.Reject? ==> o == Reject(Forbidden, "Forbidden")
  {
    if ctx.role.Some? && ctx.role.value == role then Next(ctx) else Reject(Forbidden, "Forbidden")
  }

  /** Both checks in sequence, as a role-protected route applies them. */
  function Protect(role: string, header: string, validate: string -> Option<Claims>): Outcome
  {
    match Authenticate(header, validate)
    case Reject(status, message) => Reject(status, message)
    case Next(ctx) => RequireRole(role, ctx)
  }

  /**
   * A well-formed header reaches a role-protected handler iff its token is
   * valid and carries exactly the required role; an invalid token is a 401,
   * a valid token with another role a 403.
   */
  lemma ProtectedRouteAccess(role: string, token: string, validate: string -> Option<Claims>)
    requires ' ' !in token
    ensures Protect(role, "Bearer " + token, validate).Next? <==>
      validate(token).Some? && validate(token).value.role == role
    ensures validate(token).None? ==> Protect(role, "Bearer " + token, validate).status == Unauthorized
    ensures validate(token).Some? && validate(token).value.role != role ==>
      Protect(role, "Bearer " + token, validate) == Reject(Forbidden, "Forbidden")
  {
    WellFormedHeader(token, validate);
  }
}
