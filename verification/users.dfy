/**
 * The server functions of src/users.rs that change accounts: the password
 * rule, hashing, creating and editing users, toggling their flags, the
 * API-token regeneration of mailbox accounts and the password change.
 *
 * Argon2 is a parameter: `hasher(password)` is the PHC string that hashing
 * `password` with this call's random salt produces. The 24 random bytes of
 * `getrandom` are a parameter as well.
 */
module Users {
  import opened Wrappers
  import opened Text
  import opened Store
  import opened Auth

  const InvalidPassword: ServerError := Denied("Password is invalid.")
  const NotAMailbox: ServerError := Denied("Must be a mailbox user.")

  /** `is_valid_pw`: between 12 and 1024 bytes of UTF-8. */
  predicate IsValidPw(password: string)
    ensures IsValidPw(password) ==> 3 <= |password| <= 1024
  {
    12 <= Utf8Len(password) <= 1024
  }

  /** For ASCII passwords the byte bounds are bounds on the number of characters. */
  lemma AsciiPasswordBounds(password: string)
    requires IsAscii(password)
    ensures IsValidPw(password) <==> 12 <= |password| <= 1024
  {
    AsciiLen(password);
  }

  /** `mk_password_hash`: an invalid password is refused, a valid one hashed. */
  function MkPasswordHash(password: string, hasher: string -> string): (r: Result<string, ServerError>)
    ensures r.Failure? <==> !IsValidPw(password)
    ensures r.Failure? ==> r.error == InvalidPassword
    ensures r.Success? ==> r.value == hasher(password)
  {
    if !IsValidPw(password) then Failure(InvalidPassword) else Success(hasher(password))
  }

  /**
   * The `has_invalid_password` memo of the user and mailbox dialogs.
   * `modal` is the dialog's state: None when closed, Some(None) when
   * creating, Some(Some(row)) when editing `row`. An empty password is
   * accepted only when editing.
   */
  predicate HasInvalidPassword<T>(modal: Option<Option<T>>, password: string)
    ensures IsValidPw(password) ==> !HasInvalidPassword(modal, password)
    ensures password == [] ==> (HasInvalidPassword(modal, password) <==> modal == Some(None))
  {
    var isNew := modal.Some? && modal.value.None?;
    !(IsValidPw(password) || (!isNew && password == []))
  }

  /**
   * The dialog flags a password exactly when the server would refuse it:
   * creating hashes, and so validates, every password; editing hashes only
   * a non-empty one.
   */
  lemma FormMatchesServer<T>(modal: Option<Option<T>>, password: string, hasher: string -> string)
    requires modal.Some?
    ensures modal.value.None? ==> (HasInvalidPassword(modal, password) <==> MkPasswordHash(password, hasher).Failure?)
    ensures modal.value.Some? ==>
              (HasInvalidPassword(modal, password) <==> password != [] && MkPasswordHash(password, hasher).Failure?)
  {
  }

  /** One `SET column = value` clause of an `UPDATE users` statement. */
  datatype UserSet = SetAdmin(admin: bool) | SetPasswordHash(hash: string) | SetActive(active: bool)

  /** The columns after the clauses `sets`, applied left to right. */
  function ApplyUserSets(f: UserFields, sets: seq<UserSet>): UserFields
    decreases |sets|
  {
    if sets == [] then f
    else
      var g := match sets[0]
        case SetAdmin(a) => f.(admin := a)
        case SetPasswordHash(h) => f.(passwordHash := h)
        case SetActive(a) => f.(active := a);
      ApplyUserSets(g, sets[1..])
  }

  /** The columns an edit of the user dialog leaves: the hash is replaced only when `newHash` is given. */
  function UserEdited(f: UserFields, newHash: Option<string>, admin: bool, active: bool): (g: UserFields)
    ensures g.admin == admin && g.active == active
    ensures newHash.None? ==> g.passwordHash == f.passwordHash
    ensures newHash.Some? ==> g.passwordHash == newHash.value
  {
    UserFields(newHash.GetOr(f.passwordHash), admin, active)
  }

  /** The clauses the edit builds, admin, then the hash if any, then active, leave the columns `UserEdited` describes. */
  lemma EditSets(f: UserFields, newHash: Option<string>, admin: bool, active: bool, sets: seq<UserSet>)
    requires sets == [SetAdmin(admin)] + (if newHash.Some? then [SetPasswordHash(newHash.value)] else [])
                     + [SetActive(active)]
    ensures ApplyUserSets(f, sets) == UserEdited(f, newHash, admin, active)
  {
    var g := f.(admin := admin);
    assert ApplyUserSets(f, sets) == ApplyUserSets(g, sets[1..]);
    if newHash.Some? {
      var h := g.(passwordHash := newHash.value);
      assert ApplyUserSets(g, sets[1..]) == ApplyUserSets(h, sets[2..]);
      assert sets[2..] == [SetActive(active)];
      assert ApplyUserSets(h, sets[2..]) == ApplyUserSets(h.(active := active), []);
    } else {
      assert sets[1..] == [SetActive(active)];
      assert ApplyUserSets(g, sets[1..]) == ApplyUserSets(g.(active := active), []);
    }
  }

  /** The `users` table after an `UPDATE ... WHERE username = key` that sets admin, maybe the hash, and active. */
  function EditedUsers(t: Rows<UserFields>, key: string, newHash: Option<string>, admin: bool, active: bool)
    : (u: Rows<UserFields>)
    ensures u.Keys == t.Keys
    ensures forall j :: j in t && j != key ==> u[j] == t[j]
    ensures key in t ==> u[key] == Row(UserEdited(t[key].fields, newHash, admin, active), t[key].provisioned)
  {
    if key in t then Replaced(t, key, UserEdited(t[key].fields, newHash, admin, active)) else t
  }

  /**
   * `create_or_update_user`, for administrators only. Editing
   * (`oldUsername` given) updates the row named `oldUsername` and ignores
   * `username`; an empty password keeps the stored hash. Creating inserts
   * a row that is not flagged provisioned.
   */
  method CreateOrUpdateUser(db: Database, current: Option<User>, oldUsername: Option<string>, username: string,
                            password: string, admin: bool, active: bool, hasher: string -> string)
    returns (r: Outcome<ServerError>)
    modifies db.users
    ensures AuthAdmin(current).Failure? ==> r == Fail(Unauthorized) && db.users.rows == old(db.users.rows)
    ensures AuthAdmin(current).Success? && oldUsername.Some? ==>
              if password != [] && !IsValidPw(password) then
                r == Fail(InvalidPassword) && db.users.rows == old(db.users.rows)
              else
                r == Pass && db.users.rows == EditedUsers(old(db.users.rows), oldUsername.value,
                                                          if password == [] then None else Some(hasher(password)),
                                                          admin, active)
    ensures AuthAdmin(current).Success? && oldUsername.None? ==>
              if !IsValidPw(password) then
                r == Fail(InvalidPassword) && db.users.rows == old(db.users.rows)
              else if username in old(db.users.rows) then
                r == Fail(KeyConflict(username)) && db.users.rows == old(db.users.rows)
              else
                r == Pass && db.users.rows == old(db.users.rows)[username := Row(UserFields(hasher(password), admin, active), false)]
  {
    var caller := AuthAdmin(current);
    if caller.Failure? {
      return Fail(caller.error);
    }
    if oldUsername.Some? {
      var key := oldUsername.value;
      var sets := [SetAdmin(admin)];
      var newHash: Option<string> := None;
      if password != [] {
        var hashed := MkPasswordHash(password, hasher);
        if hashed.Failure? {
          return Fail(hashed.error);
        }
        sets := sets + [SetPasswordHash(hashed.value)];
        newHash := Some(hashed.value);
      }
      sets := sets + [SetActive(active)];
      if key in db.users.rows {
        var f := db.users.rows[key].fields;
        EditSets(f, newHash, admin, active, sets);
        db.users.rows := Replaced(db.users.rows, key, ApplyUserSets(f, sets));
      }
      return Pass;
    }
    var hashed := MkPasswordHash(password, hasher);
    if hashed.Failure? {
      return Fail(hashed.error);
    }
    if username in db.users.rows {
      return Fail(KeyConflict(username));
    }
    db.users.rows := db.users.rows[username := Row(UserFields(hashed.value, admin, active), false)];
    return Pass;
  }

  /** `update_user_admin_or_active`, for administrators only: sets the two flags of the named user. */
  method UpdateUserAdminOrActive(db: Database, current: Option<User>, username: string, admin: bool, active: bool)
    returns (r: Outcome<ServerError>)
    modifies db.users
    ensures AuthAdmin(current).Failure? ==> r == Fail(Unauthorized) && db.users.rows == old(db.users.rows)
    ensures AuthAdmin(current).Success? ==>
              r == Pass && db.users.rows == EditedUsers(old(db.users.rows), username, None, admin, active)
  {
    var caller := AuthAdmin(current);
    if caller.Failure? {
      return Fail(caller.error);
    }
    if username in db.users.rows {
      var f := db.users.rows[username].fields;
      EditSets(f, None, admin, active, [SetAdmin(admin), SetActive(active)]);
      db.users.rows := Replaced(db.users.rows, username, ApplyUserSets(f, [SetAdmin(admin), SetActive(active)]));
    }
    return Pass;
  }

  /** `delete_user`, for administrators only. */
  method DeleteUser(db: Database, current: Option<User>, username: string) returns (r: Outcome<ServerError>)
    modifies db.users
    ensures AuthAdmin(current).Failure? ==> r == Fail(Unauthorized) && db.users.rows == old(db.users.rows)
    ensures AuthAdmin(current).Success? ==> r == Pass && db.users.rows == old(db.users.rows) - {username}
  {
    var caller := AuthAdmin(current);
    if caller.Failure? {
      return Fail(caller.error);
    }
    db.users.rows := db.users.rows - {username};
    return Pass;
  }

  /** The `mailboxes` table after `UPDATE mailboxes SET api_token = token WHERE address = address`. */
  function WithToken(t: Rows<MailboxFields>, address: string, token: string): (u: Rows<MailboxFields>)
    ensures u.Keys == t.Keys
    ensures forall j :: j in t && j != address ==> u[j] == t[j]
    ensures address in t ==> u[address] == Row(t[address].fields.(apiToken := Some(token)), t[address].provisioned)
  {
    if address in t then Replaced(t, address, t[address].fields.(apiToken := Some(token))) else t
  }

  /**
   * `regenerate_api_key`: only a mailbox account may regenerate its token,
   * which is the lower-case hexadecimal encoding of 24 random bytes.
   */
  method RegenerateApiKey(db: Database, current: Option<User>, random: seq<Byte>) returns (r: Result<string, ServerError>)
    requires |random| == 24
    modifies db.mailboxes
    ensures current.None? ==> r == Failure(Unauthorized) && db.mailboxes.rows == old(db.mailboxes.rows)
    ensures current.Some? && current.value.mailboxOwner.None? ==>
              r == Failure(NotAMailbox) && db.mailboxes.rows == old(db.mailboxes.rows)
    ensures current.Some? && current.value.mailboxOwner.Some? ==>
              && r == Success(HexEncode(random))
              && db.mailboxes.rows == WithToken(old(db.mailboxes.rows), current.value.username, r.value)
  {
    var caller := AuthAny(current);
    if caller.Failure? {
      return Failure(caller.error);
    }
    var user := caller.value;
    if user.mailboxOwner.None? {
      return Failure(NotAMailbox);
    }
    var token := HexEncode(random);
    db.mailboxes.rows := WithToken(db.mailboxes.rows, user.username, token);
    return Success(token);
  }

  /**
   * A regenerated token is 48 characters (48 bytes) of hexadecimal text,
   * so `get_by_api_token` never refuses it for its length; it encodes the
   * random bytes without loss; and the mailbox now holds it.
   */
  lemma RegeneratedTokenAccepted(s: Snapshot, address: string, random: seq<Byte>)
    requires |random| == 24 && address in s.mailboxes
    ensures |HexEncode(random)| == 48 && Utf8Len(HexEncode(random)) == 48
    ensures HexDecode(HexEncode(random)) == Some(random)
    ensures address in TokenHolders(s.(mailboxes := WithToken(s.mailboxes, address, HexEncode(random))), HexEncode(random))
  {
    HexEncodeLen(random);
    HexRoundTrip(random);
  }

  /* ---------- Changing one's own password ---------- */

  /**
   * What `change_password` writes as the source has it: the hash of the
   * `users` row named like the session's account, whatever kind of account
   * that is.
   */
  function PasswordChangedAsWritten(s: Snapshot, account: User, hash: string): (after: Snapshot)
    ensures after.domains == s.domains && after.mailboxes == s.mailboxes && after.aliases == s.aliases
    ensures after.users.Keys == s.users.Keys
  {
    var name := account.username;
    if name in s.users then s.(users := Replaced(s.users, name, s.users[name].fields.(passwordHash := hash)))
    else s
  }

  /**
   * A mailbox account that changes its password: the statement targets
   * `users`, which has no row for the mailbox, so the store, and the hash
   * that a later login checks, stay as they were, although the call reports
   * success.
   */
  lemma MailboxPasswordChangeLost()
    ensures var row := Row(MailboxFields("example.com", "old-hash", None, true, "alice"), false);
            var s := Snapshot(map[], map[], map["bob@example.com" := row], map[]);
            var bob := MailboxAccount("bob@example.com", row);
            && bob in Accounts(s, "bob@example.com")
            && PasswordChangedAsWritten(s, bob, "new-hash") == s
            && Accounts(PasswordChangedAsWritten(s, bob, "new-hash"), "bob@example.com") == {bob}
  {
    var row := Row(MailboxFields("example.com", "old-hash", None, true, "alice"), false);
    var s := Snapshot(map[], map[], map["bob@example.com" := row], map[]);
    var bob := MailboxAccount("bob@example.com", row);
    assert Accounts(s, "bob@example.com") == {bob};
  }

  /** The password change as intended: the hash of the row the account was loaded from. */
  function PasswordChanged(s: Snapshot, account: User, hash: string): (after: Snapshot)
    ensures after.domains == s.domains && after.aliases == s.aliases
    ensures account.mailboxOwner.None? ==> after.mailboxes == s.mailboxes && after.users.Keys == s.users.Keys
    ensures account.mailboxOwner.Some? ==> after.users == s.users && after.mailboxes.Keys == s.mailboxes.Keys
  {
    var name := account.username;
    if account.mailboxOwner.None? then
      if name in s.users then s.(users := Replaced(s.users, name, s.users[name].fields.(passwordHash := hash))) else s
    else
      if name in s.mailboxes then s.(mailboxes := Replaced(s.mailboxes, name, s.mailboxes[name].fields.(passwordHash := hash)))
      else s
  }

  /** After the intended change, loading the account yields it with the new hash, for both kinds of account. */
  lemma PasswordChangeTakesEffect(s: Snapshot, name: string, account: User, hash: string)
    requires account in Accounts(s, name)
    ensures account.(passwordHash := hash) in Accounts(PasswordChanged(s, account, hash), name)
    ensures PasswordChanged(s, account, hash).domains == s.domains && PasswordChanged(s, account, hash).aliases == s.aliases
  {
    AccountShape(s, name, account);
    var t := PasswordChanged(s, account, hash);
    if account.mailboxOwner.None? {
      assert account.(passwordHash := hash) == UserAccount(name, t.users[name]);
    } else {
      assert account.(passwordHash := hash) == MailboxAccount(name, t.mailboxes[name]);
    }
  }

  /**
   * `change_password`: re-authenticate the session's account with the
   * current password, hash the new one, and store it, in the table the
   * account was loaded from (see `PasswordChanged`).
   */
  method ChangePassword(db: Database, current: Option<User>, currentPassword: string, newPassword: string,
                        verify: (string, string) -> bool, hasher: string -> string)
    returns (r: Outcome<ServerError>)
    modifies db.users, db.mailboxes
    ensures current.None? ==> r == Fail(Unauthorized)
    ensures r.Fail? ==> db.Snap() == old(db.Snap())
    ensures r.Pass? ==> && current.Some? && IsValidPw(newPassword)
                        && (exists u :: u in Accounts(old(db.Snap()), current.value.username)
                                        && verify(u.passwordHash, currentPassword) && u.active)
                        && db.Snap() == PasswordChanged(old(db.Snap()), current.value, hasher(newPassword))
    ensures current.Some? && !IsValidPw(newPassword) ==> r.Fail?
  {
    var caller := AuthAny(current);
    if caller.Failure? {
      return Fail(caller.error);
    }
    var user := caller.value;
    var reauthenticated := AuthenticateUser(db, user.username, currentPassword, verify);
    if reauthenticated.Failure? {
      return Fail(reauthenticated.error);
    }
    var hashed := MkPasswordHash(newPassword, hasher);
    if hashed.Failure? {
      return Fail(hashed.error);
    }
    var name := user.username;
    if user.mailboxOwner.None? {
      if name in db.users.rows {
        db.users.rows := Replaced(db.users.rows, name, db.users.rows[name].fields.(passwordHash := hashed.value));
      }
    } else if name in db.mailboxes.rows {
      db.mailboxes.rows := Replaced(db.mailboxes.rows, name, db.mailboxes.rows[name].fields.(passwordHash := hashed.value));
    }
    return Pass;
  }
}
