/**
 * The client-side route guard: before rendering a protected page it looks at
 * the stored token, decodes it, and either renders the page or redirects,
 * clearing stale credentials from browser storage on the way.
 *
 * Decoding the token is a foreign call, so it is a parameter: a function from
 * the token text to its decoded claims, or `None` when decoding throws. The
 * current time (`Date.now() / 1000`) is a parameter too.
 */
module ProtectedRoute {
  import opened Common

  /** The claims the guard reads; either may be missing from a decoded token. */
  datatype Decoded = Decoded(exp: Option<real>, role: Option<string>)

  /** Where the guard sends the user. */
  datatype Target = ToLogin | ToAdmin | RenderChildren

  /** The guard's decision: where to go and which storage keys to remove. */
  datatype Verdict = Verdict(target: Target, cleared: set<string>)

  const TokenKey := "token"
  const UserKey := "user"

  /** JavaScript truthiness of an optional string: present and non-empty. */
  predicate Truthy(s: Option<string>)
  {
    s.Some? && s.value != ""
  }

  /** `decoded.exp < currentTime`; a missing `exp` compares false. */
  predicate Expired(d: Decoded, now: real)
  {
    d.exp.Some? && d.exp.value < now
  }

  /** `requiredRole && decoded.role !== requiredRole`. */
  predicate RoleMismatch(d: Decoded, requiredRole: Option<string>)
  {
    Truthy(requiredRole) && d.role != requiredRole
  }

  /** The stored value for `key`, as `localStorage.getItem` returns it. */
  function Lookup(items: map<string, string>, key: string): Option<string>
  {
    if key in items then Some(items[key]) else None
  }

  /** The guard's decision table. */
  function Decide(items: map<string, string>, requiredRole: Option<string>, now: real,
                  decode: string -> Option<Decoded>): (v: Verdict)
    ensures v.cleared <= {TokenKey, UserKey}
    ensures v.target != ToLogin ==> v.cleared == {}
  {
    var token := Lookup(items, TokenKey);
    if !Truthy(token) then Verdict(ToLogin, {})
    else match decode(token.value)
      case None => Verdict(ToLogin, {TokenKey})
      case Some(d) =>
        if Expired(d, now) then Verdict(ToLogin, {TokenKey, UserKey})
        else if RoleMismatch(d, requiredRole) then Verdict(ToAdmin, {})
        else Verdict(RenderChildren, {})
  }

  /** No stored token: go to the login page and clear nothing. */
  lemma NoTokenGoesToLogin(items: map<string, string>, requiredRole: Option<string>, now: real,
                           decode: string -> Option<Decoded>)
    requires TokenKey !in items || items[TokenKey] == ""
    ensures Decide(items, requiredRole, now, decode) == Verdict(ToLogin, {})
  {
  }

  /** An expired token removes both the token and the user, then goes to the login page. */
  lemma ExpiredClearsBoth(items: map<string, string>, requiredRole: Option<string>, now: real,
                          decode: string -> Option<Decoded>)
    requires TokenKey in items && items[TokenKey] != ""
    requires decode(items[TokenKey]).Some? && Expired(decode(items[TokenKey]).value, now)
    ensures Decide(items, requiredRole, now, decode) == Verdict(ToLogin, {TokenKey, UserKey})
  {
  }

  /** A token that cannot be decoded removes only the token. */
  lemma UndecodableClearsToken(items: map<string, string>, requiredRole: Option<string>, now: real,
                               decode: string -> Option<Decoded>)
    requires TokenKey in items && items[TokenKey] != ""
    requires decode(items[TokenKey]).None?
    ensures Decide(items, requiredRole, now, decode) == Verdict(ToLogin, {TokenKey})
  {
  }

  /** A live token with the wrong role goes to the admin page, keeping storage. */
  lemma WrongRoleGoesToAdmin(items: map<string, string>, requiredRole: Option<string>, now: real,
                             decode: string -> Option<Decoded>)
    requires TokenKey in items && items[TokenKey] != ""
    requires decode(items[TokenKey]).Some?
    requires !Expired(decode(items[TokenKey]).value, now)
    requires RoleMismatch(decode(items[TokenKey]).value, requiredRole)
    ensures Decide(items, requiredRole, now, decode) == Verdict(ToAdmin, {})
  {
  }

  /**
   * The page renders exactly when a non-empty token is stored, decodes, has not
   * expired and, if a role is required, carries that role.
   */
  lemma RendersIff(items: map<string, string>, requiredRole: Option<string>, now: real,
                   decode: string -> Option<Decoded>)
    ensures Decide(items, requiredRole, now, decode).target == RenderChildren <==>
      TokenKey in items && items[TokenKey] != "" && decode(items[TokenKey]).Some?
      && !Expired(decode(items[TokenKey]).value, now)
      && (!Truthy(requiredRole) || decode(items[TokenKey]).value.role == requiredRole)
  {
  }

  /** The browser's `localStorage`: a map from keys to stored strings. */
  class LocalStorage {
    var items: map<string, string>

    constructor(initial: map<string, string>)
      ensures items == initial
    {
      items := initial;
    }

    /** `localStorage.removeItem(key)`. */
    method RemoveItem(key: string)
      modifies this
      ensures items == old(items) - {key}
    {
      items := items - {key};
    }
  }

  /**
   * The guard run against live storage: it removes exactly the keys the
   * decision table names and returns its target.
   */
  method Guard(storage: LocalStorage, requiredRole: Option<string>, now: real,
               decode: string -> Option<Decoded>) returns (target: Target)
    modifies storage
    ensures target == Decide(old(storage.items), requiredRole, now, decode).target
    ensures storage.items == old(storage.items) - Decide(old(storage.items), requiredRole, now, decode).cleared
  {
    var token := Lookup(storage.items, TokenKey);
    if !Truthy(token) {
      return ToLogin;
    }
    var decoded := decode(token.value);
    if decoded.None? {
      storage.RemoveItem(TokenKey);
      return ToLogin;
    }
    if Expired(decoded.value, now) {
      storage.RemoveItem(TokenKey);
      storage.RemoveItem(UserKey);
      assert storage.items == old(storage.items) - {TokenKey, UserKey};
      return ToLogin;
    }
    if RoleMismatch(decoded.value, requiredRole) {
      return ToAdmin;
    }
    return RenderChildren;
  }
}
