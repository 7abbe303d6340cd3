/**
 * Accounts and authorization (src/auth.rs). An account is either a row of
 * `users` (an administrator or an ordinary user) or a row of `mailboxes`
 * (a mailbox account, which logs in with its address). The session's
 * current user is a parameter of every gate: it is whatever the session
 * layer loaded with `User::get`, or None for an anonymous request.
 */
module Auth {
  import opened Wrappers
  import opened Text
  import opened Store

  /** `auth::User`: the account a session is logged in as. */
  datatype User = User(username: string, passwordHash: string, mailboxOwner: Option<string>, admin: bool, active: bool)

  /** The `ServerFnError`s of the modelled server functions. */
  datatype ServerError =
    | Denied(message: string)   // `ServerFnError::new(message)`
    | KeyConflict(key: string)  // the store refusing a second row with an existing primary key

  const Unauthorized: ServerError := Denied("Unauthorized")
  const WrongCredentials: ServerError := Denied("Wrong password or invalid user.")

  /** A `users` row as `User::get` shapes it: no mailbox owner, its own admin flag. */
  function UserAccount(name: string, row: Row<UserFields>): User {
    User(name, row.fields.passwordHash, None, row.fields.admin, row.fields.active)
  }

  /** A `mailboxes` row as `User::get` shapes it: the mailbox owner is the row's owner, never admin. */
  function MailboxAccount(address: string, row: Row<MailboxFields>): User {
    User(address, row.fields.passwordHash, Some(row.fields.owner), false, row.fields.active)
  }

  /** The rows the `UNION` query of `User::get` yields for `name`: at most one per table. */
  function Accounts(s: Snapshot, name: string): (found: set<User>)
    ensures found == {} <==> name !in s.users && name !in s.mailboxes
    ensures forall u :: u in found ==> u.username == name
  {
    (if name in s.users then {UserAccount(name, s.users[name])} else {})
    + (if name in s.mailboxes then {MailboxAccount(name, s.mailboxes[name])} else {})
  }

  /** Only a `users` row can carry the admin flag, and such a row is never a mailbox account. */
  lemma AccountShape(s: Snapshot, name: string, u: User)
    requires u in Accounts(s, name)
    ensures u.mailboxOwner.None? <==> name in s.users && u == UserAccount(name, s.users[name])
    ensures u.mailboxOwner.Some? ==> name in s.mailboxes && u.mailboxOwner.value == s.mailboxes[name].fields.owner
    ensures u.admin ==> u.mailboxOwner.None? && s.users[name].fields.admin
  {
  }

  /**
   * `User::get`: `fetch_one` on the `UNION`, whose row order the store
   * does not specify; when both tables have the name, either row may come
   * first.
   */
  method Get(db: Database, name: string) returns (u: Option<User>)
    ensures u.None? <==> name !in db.users.rows && name !in db.mailboxes.rows
    ensures u.Some? ==> u.value in Accounts(db.Snap(), name)
  {
    var found := Accounts(db.Snap(), name);
    if found == {} {
      return None;
    }
    var account :| account in found;
    return Some(account);
  }

  /** The mailboxes whose `api_token` equals `token`. */
  function TokenHolders(s: Snapshot, token: string): (holders: set<string>)
    ensures holders <= s.mailboxes.Keys
    ensures forall a :: a in holders <==> a in s.mailboxes && s.mailboxes[a].fields.apiToken == Some(token)
  {
    set a | a in s.mailboxes && s.mailboxes[a].fields.apiToken == Some(token)
  }

  /**
   * `User::get_by_api_token`: a token shorter than 16 bytes is refused
   * before any lookup; a token held by an inactive mailbox is refused.
   * When several mailboxes hold the token, the store returns one of them.
   */
  method GetByApiToken(db: Database, token: string) returns (u: Option<User>)
    ensures Utf8Len(token) < 16 ==> u.None?
    ensures u.Some? ==> u.value.active
    ensures u.Some? ==> exists a :: a in TokenHolders(db.Snap(), token) && u.value == MailboxAccount(a, db.mailboxes.rows[a])
    ensures (forall a :: a in TokenHolders(db.Snap(), token) ==> !db.mailboxes.rows[a].fields.active) ==> u.None?
    ensures Utf8Len(token) >= 16 && TokenHolders(db.Snap(), token) != {}
            && (forall a :: a in TokenHolders(db.Snap(), token) ==> db.mailboxes.rows[a].fields.active)
            ==> u.Some?
  {
    if Utf8Len(token) < 16 {
      return None;
    }
    var holders := TokenHolders(db.Snap(), token);
    if holders == {} {
      return None;
    }
    var address :| address in holders;
    var user := MailboxAccount(address, db.mailboxes.rows[address]);
    if !user.active {
      return None;
    }
    return Some(user);
  }

  /** `auth_any`: any logged-in account. */
  function AuthAny(current: Option<User>): (r: Result<User, ServerError>)
    ensures r.Success? <==> current.Some?
    ensures r.Success? ==> r.value == current.value
    ensures r.Failure? ==> r.error == Unauthorized
  {
    match current
    case None => Failure(Unauthorized)
    case Some(user) => Success(user)
  }

  /** `auth_user`: a logged-in account that is not a mailbox account. */
  function AuthUser(current: Option<User>): (r: Result<User, ServerError>)
    ensures r.Success? <==> current.Some? && current.value.mailboxOwner.None?
    ensures r.Success? ==> r.value == current.value
    ensures r.Failure? ==> r.error == Unauthorized
  {
    match AuthAny(current)
    case Failure(e) => Failure(e)
    case Success(user) => if user.mailboxOwner.Some? then Failure(Unauthorized) else Success(user)
  }

  /** `auth_admin`: a logged-in administrator. */
  function AuthAdmin(current: Option<User>): (r: Result<User, ServerError>)
    ensures r.Success? <==> current.Some? && current.value.admin
    ensures r.Success? ==> r.value == current.value
    ensures r.Failure? ==> r.error == Unauthorized
  {
    match AuthAny(current)
    case Failure(e) => Failure(e)
    case Success(user) => if !user.admin then Failure(Unauthorized) else Success(user)
  }

  /**
   * The gates are nested for every account `User::get` can load: an
   * administrator passes `auth_user`, and whoever passes `auth_user`
   * passes `auth_any`. A mailbox account passes only `auth_any`.
   */
  lemma GatesNested(s: Snapshot, name: string, u: User)
    requires u in Accounts(s, name)
    ensures AuthAdmin(Some(u)).Success? ==> AuthUser(Some(u)).Success?
    ensures AuthUser(Some(u)).Success? ==> AuthAny(Some(u)).Success?
    ensures name !in s.users ==> AuthUser(Some(u)).Failure? && AuthAdmin(Some(u)).Failure?
  {
    AccountShape(s, name, u);
  }

  /**
   * `authenticate_user`: `verify(hash, password)` stands for parsing the
   * stored PHC string and checking the password against it with Argon2.
   * Every refusal carries the same message.
   */
  method AuthenticateUser(db: Database, username: string, password: string, verify: (string, string) -> bool)
    returns (r: Result<User, ServerError>)
    ensures r.Failure? ==> r.error == WrongCredentials
    ensures r.Success? ==> r.value in Accounts(db.Snap(), username)
                           && verify(r.value.passwordHash, password) && r.value.active
    ensures Accounts(db.Snap(), username) == {} ==> r.Failure?
    ensures (forall u :: u in Accounts(db.Snap(), username) ==> !verify(u.passwordHash, password) || !u.active)
            ==> r.Failure?
    ensures Accounts(db.Snap(), username) != {}
            && (forall u :: u in Accounts(db.Snap(), username) ==> verify(u.passwordHash, password) && u.active)
            ==> r.Success?
  {
    var found := Get(db, username);
    if found.None? {
      return Failure(WrongCredentials);
    }
    var user := found.value;
    if verify(user.passwordHash, password) {
      if !user.active {
        return Failure(WrongCredentials);
      }
      return Success(user);
    } else {
      return Failure(WrongCredentials);
    }
  }

  /** `Authentication::is_authenticated`. */
  predicate IsAuthenticated(u: User) {
    true
  }

  /** `Authentication::is_active`. */
  predicate IsActive(u: User) {
    u.active
  }

  /** `Authentication::is_anonymous`. */
  predicate IsAnonymous(u: User) {
    false
  }

  /**
   * A loaded account is always authenticated and never anonymous; the
   * session layer's activity check is the account's `active` flag, so an
   * account that `authenticate_user` admits is active for the session too.
   */
  lemma SessionFlags(db: Snapshot, name: string, u: User)
    requires u in Accounts(db, name)
    ensures IsAuthenticated(u) && !IsAnonymous(u)
    ensures IsActive(u) <==> (if u.mailboxOwner.None? then db.users[name].fields.active
                                                      else db.mailboxes[name].fields.active)
  {
    AccountShape(db, name, u);
  }
}
