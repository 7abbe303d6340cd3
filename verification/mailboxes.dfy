/**
 * The server functions of src/mailboxes.rs: the addresses an account may
 * forward to, listing and counting mailboxes, and creating, editing,
 * toggling and deleting them. As for domains, only an administrator may
 * hand a mailbox to someone else, and everyone else only ever touches the
 * mailboxes they own. A mailbox can only be placed on a domain the caller
 * may use.
 *
 * `validate(localpart, domain, allowReserved)` stands for
 * `aliases::validate_address`, which is not part of this model: it yields
 * the full address or a message.
 */
module Mailboxes {
  import opened Wrappers
  import opened Text
  import opened Store
  import opened Auth
  import Users
  import Domains

  type Validator = (string, string, bool) -> Result<string, string>

  const InvalidDomain: ServerError := Denied("domain must be set to a valid domain")

  /* ---------- Reading ---------- */

  /**
   * `allowed_targets`: a mailbox account may only target itself; anyone
   * else, administrators included, the mailboxes they own.
   */
  function AllowedTargets(current: Option<User>, t: Rows<MailboxFields>): (r: Result<set<string>, ServerError>)
    ensures r.Failure? <==> current.None?
    ensures r.Failure? ==> r.error == Unauthorized
    ensures r.Success? && current.value.mailboxOwner.Some? ==> r.value == {current.value.username}
    ensures r.Success? && current.value.mailboxOwner.None? ==>
              forall a :: a in r.value <==> a in t && t[a].fields.owner == current.value.username
  {
    match AuthAny(current)
    case Failure(e) => Failure(e)
    case Success(user) =>
      if user.mailboxOwner.Some? then Success({user.username})
      else Success(set a | a in t && t[a].fields.owner == user.username)
  }

  /** The rows `list_mailboxes` and `mailbox_count` see: all of them for an administrator, else the caller's own. */
  function OwnMailboxes(t: Rows<MailboxFields>, caller: User): (own: Rows<MailboxFields>)
    ensures own.Keys <= t.Keys
    ensures forall a :: a in own ==> own[a] == t[a]
    ensures forall a :: a in t ==> (a in own <==> caller.admin || t[a].fields.owner == caller.username)
  {
    map a | a in t && (caller.admin || t[a].fields.owner == caller.username) :: t[a]
  }

  /** `list_mailboxes`, without search, sorting and paging. */
  function ListMailboxes(current: Option<User>, t: Rows<MailboxFields>): (r: Result<Rows<MailboxFields>, ServerError>)
    ensures r.Failure? <==> AuthUser(current).Failure?
    ensures r.Success? ==> r.value == OwnMailboxes(t, current.value)
  {
    match AuthUser(current)
    case Failure(e) => Failure(e)
    case Success(user) => Success(OwnMailboxes(t, user))
  }

  /** `mailbox_count`: the number of mailboxes `list_mailboxes` can show. */
  function MailboxCount(current: Option<User>, t: Rows<MailboxFields>): (r: Result<nat, ServerError>)
    ensures r.Failure? <==> AuthUser(current).Failure?
    ensures r.Success? ==> r.value == |ListMailboxes(current, t).value.Keys|
    ensures r.Success? && current.value.admin ==> r.value == |t.Keys|
  {
    match AuthUser(current)
    case Failure(e) => Failure(e)
    case Success(user) =>
      assert user.admin ==> OwnMailboxes(t, user).Keys == t.Keys;
      Success(|OwnMailboxes(t, user).Keys|)
  }

  /* ---------- Changing ---------- */

  /** The rows `WHERE address = key`, and `AND owner = caller` for a non-administrator, matches. */
  predicate Matches(t: Rows<MailboxFields>, caller: User, key: string) {
    key in t && (caller.admin || t[key].fields.owner == caller.username)
  }

  /** The table `delete_mailbox` leaves. */
  function MailboxDelete(t: Rows<MailboxFields>, caller: User, address: string): (u: Rows<MailboxFields>)
    ensures Matches(t, caller, address) ==> u == t - {address}
    ensures !Matches(t, caller, address) ==> u == t
  {
    if Matches(t, caller, address) then t - {address} else t
  }

  /** `delete_mailbox`, for any account that is not a mailbox. */
  method DeleteMailbox(db: Database, current: Option<User>, address: string) returns (r: Outcome<ServerError>)
    modifies db.mailboxes
    ensures AuthUser(current).Failure? ==> r == Fail(Unauthorized) && db.mailboxes.rows == old(db.mailboxes.rows)
    ensures AuthUser(current).Success? ==>
              r == Pass && db.mailboxes.rows == MailboxDelete(old(db.mailboxes.rows), current.value, address)
  {
    var caller := AuthUser(current);
    if caller.Failure? {
      return Fail(caller.error);
    }
    if Matches(db.mailboxes.rows, caller.value, address) {
      db.mailboxes.rows := db.mailboxes.rows - {address};
    }
    return Pass;
  }

  /** The table `update_mailbox_active` leaves. */
  function MailboxToggle(t: Rows<MailboxFields>, caller: User, address: string, active: bool): (u: Rows<MailboxFields>)
    ensures u.Keys == t.Keys
    ensures forall a :: a in t && a != address ==> u[a] == t[a]
    ensures forall a :: a in t ==> u[a].provisioned == t[a].provisioned && u[a].fields == t[a].fields.(active := u[a].fields.active)
    ensures Matches(t, caller, address) ==> u[address].fields.active == active
    ensures !Matches(t, caller, address) ==> u == t
  {
    if Matches(t, caller, address) then Replaced(t, address, t[address].fields.(active := active)) else t
  }

  /** `update_mailbox_active`, for any account that is not a mailbox. */
  method UpdateMailboxActive(db: Database, current: Option<User>, address: string, active: bool)
    returns (r: Outcome<ServerError>)
    modifies db.mailboxes
    ensures AuthUser(current).Failure? ==> r == Fail(Unauthorized) && db.mailboxes.rows == old(db.mailboxes.rows)
    ensures AuthUser(current).Success? ==>
              r == Pass && db.mailboxes.rows == MailboxToggle(old(db.mailboxes.rows), current.value, address, active)
  {
    var caller := AuthUser(current);
    if caller.Failure? {
      return Fail(caller.error);
    }
    if Matches(db.mailboxes.rows, caller.value, address) {
      var f := db.mailboxes.rows[address].fields;
      db.mailboxes.rows := Replaced(db.mailboxes.rows, address, f.(active := active));
    }
    return Pass;
  }

  /**
   * A delete or a toggle by a non-administrator leaves every mailbox they
   * do not own as it was; a toggle changes nothing but the `active` flag.
   */
  lemma DeleteAndToggleScoped(t: Rows<MailboxFields>, caller: User, address: string, active: bool)
    ensures forall a :: a in t && (a != address || (!caller.admin && t[a].fields.owner != caller.username))
                        ==> a in MailboxDelete(t, caller, address) && MailboxDelete(t, caller, address)[a] == t[a]
    ensures var u := MailboxToggle(t, caller, address, active);
            && u.Keys == t.Keys
            && (forall a :: a in t && (a != address || (!caller.admin && t[a].fields.owner != caller.username))
                            ==> u[a] == t[a])
            && (forall a :: a in t ==> u[a].fields == t[a].fields.(active := u[a].fields.active)
                                       && u[a].provisioned == t[a].provisioned)
  {
  }

  /** One `SET column = value` clause of an `UPDATE mailboxes` statement. */
  datatype MailboxSet =
    | SetAddress(address: string)
    | SetDomain(domain: string)
    | SetPasswordHash(hash: string)
    | SetActive(active: bool)
    | SetOwner(owner: string)

  /** The key and columns after one clause. */
  function Step(key: string, f: MailboxFields, s: MailboxSet): (string, MailboxFields) {
    match s
    case SetAddress(a) => (a, f)
    case SetDomain(d) => (key, f.(domain := d))
    case SetPasswordHash(h) => (key, f.(passwordHash := h))
    case SetActive(a) => (key, f.(active := a))
    case SetOwner(o) => (key, f.(owner := o))
  }

  /** The key and columns after the clauses `sets`, applied left to right. */
  function ApplyMailboxSets(key: string, f: MailboxFields, sets: seq<MailboxSet>): (string, MailboxFields)
    decreases |sets|
  {
    if sets == [] then (key, f)
    else
      var next := Step(key, f, sets[0]);
      ApplyMailboxSets(next.0, next.1, sets[1..])
  }

  lemma ApplyCons(key: string, f: MailboxFields, s: MailboxSet, rest: seq<MailboxSet>)
    ensures ApplyMailboxSets(key, f, [s] + rest) == ApplyMailboxSets(Step(key, f, s).0, Step(key, f, s).1, rest)
  {
    assert ([s] + rest)[1..] == rest;
  }

  /** The columns an edit leaves: the API token stays, the hash is replaced only when `newHash` is given. */
  function MailboxEdited(f: MailboxFields, domain: string, newHash: Option<string>, active: bool, owner: string)
    : (g: MailboxFields)
    ensures g.apiToken == f.apiToken && g.domain == domain && g.active == active && g.owner == owner
    ensures newHash.None? ==> g.passwordHash == f.passwordHash
    ensures newHash.Some? ==> g.passwordHash == newHash.value
  {
    MailboxFields(domain, newHash.GetOr(f.passwordHash), f.apiToken, active, owner)
  }

  /** The clauses the edit builds, address and domain, the hash if any, active and owner, set what `MailboxEdited` says. */
  lemma ApplyEditSets(key: string, f: MailboxFields, address: string, domain: string, newHash: Option<string>,
                      active: bool, owner: string, sets: seq<MailboxSet>)
    requires sets == [SetAddress(address), SetDomain(domain)]
                     + (if newHash.Some? then [SetPasswordHash(newHash.value)] else [])
                     + [SetActive(active), SetOwner(owner)]
    ensures ApplyMailboxSets(key, f, sets) == (address, MailboxEdited(f, domain, newHash, active, owner))
  {
    var tail := [SetActive(active), SetOwner(owner)];
    var g := f.(domain := domain);
    var middle := if newHash.Some? then [SetPasswordHash(newHash.value)] else [];
    assert sets == [SetAddress(address)] + ([SetDomain(domain)] + (middle + tail));
    ApplyCons(key, f, SetAddress(address), [SetDomain(domain)] + (middle + tail));
    ApplyCons(address, f, SetDomain(domain), middle + tail);
    var h := g.(passwordHash := newHash.GetOr(f.passwordHash));
    if newHash.Some? {
      assert middle + tail == [SetPasswordHash(newHash.value)] + tail;
      ApplyCons(address, g, SetPasswordHash(newHash.value), tail);
    } else {
      assert middle + tail == tail;
      assert g == h;
    }
    ApplyCons(address, h, SetActive(active), [SetOwner(owner)]);
    ApplyCons(address, h.(active := active), SetOwner(owner), []);
  }

  /** The table an edit of the mailbox `oldAddress` leaves, or the error it fails with. */
  function MailboxEdit(t: Rows<MailboxFields>, caller: User, oldAddress: string, address: string, domain: string,
                       newHash: Option<string>, active: bool, owner: string)
    : (r: Result<Rows<MailboxFields>, ServerError>)
    ensures r.Success? ==> forall a :: a in t && a != oldAddress ==> a in r.value && r.value[a] == t[a]
    ensures r.Success? ==> |r.value| == |t|
    ensures r.Success? && Matches(t, caller, oldAddress) ==>
              address in r.value && r.value[address].fields.apiToken == t[oldAddress].fields.apiToken
    ensures r.Failure? ==> address != oldAddress && address in t && r.error == KeyConflict(address)
  {
    if !Matches(t, caller, oldAddress) then Success(t)
    else if address != oldAddress && address in t then Failure(KeyConflict(address))
    else Success(Rekeyed(t, oldAddress, address, MailboxEdited(t[oldAddress].fields, domain, newHash, active, owner)))
  }

  /** The domains `allowed_domains` returns for a logged-in caller, with their owners. */
  function UsableDomains(domains: Rows<DomainFields>, caller: User): (allowed: map<string, string>)
    ensures forall d :: d in allowed <==> d in domains && Domains.Usable(domains[d].fields, caller)
    ensures forall d :: d in allowed ==> allowed[d] == domains[d].fields.owner
  {
    Domains.AllowedDomains(Some(caller), domains).value
  }

  /**
   * What `create_or_update_mailbox` does for a caller who passed
   * `auth_user`, check by check in the source's order: the domain must be
   * one the caller may use; the address must validate, with reserved
   * local parts allowed to administrators and the domain's owner; an
   * edit hashes a non-empty password and updates the matched row, a create
   * hashes the password and inserts a row without API token that is not
   * flagged provisioned.
   */
  /**
   * `validate_address` as the create or edit calls it: reserved local parts
   * are allowed to administrators and to the owner of the domain.
   */
  function CheckAddress(domains: Rows<DomainFields>, caller: User, localpart: string, domain: string,
                        validate: Validator): Result<string, string>
    requires domain in UsableDomains(domains, caller)
  {
    validate(localpart, domain, caller.admin || UsableDomains(domains, caller)[domain] == caller.username)
  }

  function MailboxWrite(domains: Rows<DomainFields>, t: Rows<MailboxFields>, caller: User, oldAddress: Option<string>,
                        localpart: string, domain: string, password: string, active: bool, owner: string,
                        validate: Validator, hasher: string -> string)
    : (r: Result<Rows<MailboxFields>, ServerError>)
    ensures r.Success? ==>
              forall a :: a in t && (oldAddress.None? || a != oldAddress.value) ==> a in r.value && r.value[a] == t[a]
    ensures r.Success? && oldAddress.None? ==> |r.value| == |t| + 1
    ensures domain !in UsableDomains(domains, caller) ==> r == Failure(InvalidDomain)
    ensures domain in UsableDomains(domains, caller) ==>
              var v := CheckAddress(domains, caller, localpart, domain, validate);
              && (v.Failure? ==> r == Failure(Denied(v.error)))
              && (v.Success? && oldAddress.None? ==>
                    && (!Users.IsValidPw(password) ==> r == Failure(Users.InvalidPassword))
                    && (Users.IsValidPw(password) && v.value in t ==> r == Failure(KeyConflict(v.value)))
                    && (Users.IsValidPw(password) && v.value !in t ==>
                          r.Success? && v.value in r.value
                          && r.value[v.value] == Row(MailboxFields(domain, hasher(password), None, active,
                                                                   Domains.EffectiveOwner(caller, owner)), false)))
              && (v.Success? && oldAddress.Some? ==>
                    && (password != [] && !Users.IsValidPw(password) ==> r == Failure(Users.InvalidPassword))
                    && (password == [] || Users.IsValidPw(password) ==>
                          r == MailboxEdit(t, caller, oldAddress.value, v.value, domain,
                                           if password == [] then None else Some(hasher(password)), active,
                                           Domains.EffectiveOwner(caller, owner))))
  {
    var allowed := UsableDomains(domains, caller);
    if domain !in allowed then Failure(InvalidDomain)
    else
      match CheckAddress(domains, caller, localpart, domain, validate)
      case Failure(message) => Failure(Denied(message))
      case Success(address) =>
        var effectiveOwner := Domains.EffectiveOwner(caller, owner);
        match oldAddress
        case Some(key) =>
          if password != [] && !Users.IsValidPw(password) then Failure(Users.InvalidPassword)
          else MailboxEdit(t, caller, key, address, domain, if password == [] then None else Some(hasher(password)),
                           active, effectiveOwner)
        case None =>
          if !Users.IsValidPw(password) then Failure(Users.InvalidPassword)
          else if address in t then Failure(KeyConflict(address))
          else Success(t[address := Row(MailboxFields(domain, hasher(password), None, active, effectiveOwner), false)])
  }

  /**
   * A create or edit that goes through placed its mailbox on a domain the
   * caller may use, a create validated its password, and an edit with an
   * empty password kept the stored hash.
   */
  lemma MailboxWriteRules(domains: Rows<DomainFields>, t: Rows<MailboxFields>, caller: User, oldAddress: Option<string>,
                          localpart: string, domain: string, password: string, active: bool, owner: string,
                          validate: Validator, hasher: string -> string)
    ensures var r := MailboxWrite(domains, t, caller, oldAddress, localpart, domain, password, active, owner, validate, hasher);
            && (domain !in domains || !Domains.Usable(domains[domain].fields, caller) ==> r == Failure(InvalidDomain))
            && (r.Success? && r.value != t ==> domain in domains && Domains.Usable(domains[domain].fields, caller))
            && (r.Success? && oldAddress.None? ==> Users.IsValidPw(password))
            && (r.Success? ==> forall a :: a in r.value && (a !in t || r.value[a] != t[a]) ==> r.value[a].fields.domain == domain)
            && (r.Success? && oldAddress.Some? && password == [] ==>
                  forall a :: a in r.value && (a !in t || r.value[a] != t[a]) ==>
                    r.value[a].fields.passwordHash == t[oldAddress.value].fields.passwordHash)
  {
    var allowed := UsableDomains(domains, caller);
    if domain in allowed && oldAddress.Some? {
      var v := CheckAddress(domains, caller, localpart, domain, validate);
      if v.Success? {
        MailboxEditChanges(t, caller, oldAddress.value, v.value, domain,
                           if password == [] then None else Some(hasher(password)), active,
                           Domains.EffectiveOwner(caller, owner));
      }
    }
  }

  /** The only row an edit adds or changes is the edited mailbox, under its new address. */
  lemma MailboxEditChanges(t: Rows<MailboxFields>, caller: User, oldAddress: string, address: string, domain: string,
                           newHash: Option<string>, active: bool, owner: string)
    ensures var r := MailboxEdit(t, caller, oldAddress, address, domain, newHash, active, owner);
            r.Success? ==>
              forall a :: a in r.value && (a !in t || r.value[a] != t[a]) ==>
                oldAddress in t && a == address
                && r.value[a].fields == MailboxEdited(t[oldAddress].fields, domain, newHash, active, owner)
  {
  }

  /** A non-administrator's edit touches only a mailbox they own, and leaves it theirs. */
  lemma MailboxEditScoped(t: Rows<MailboxFields>, caller: User, key: string, address: string, domain: string,
                          newHash: Option<string>, active: bool)
    requires !caller.admin
    ensures var r := MailboxEdit(t, caller, key, address, domain, newHash, active, caller.username);
            r.Success? ==>
              && (forall a :: a in t && t[a].fields.owner != caller.username ==> a in r.value && r.value[a] == t[a])
              && (forall a :: a in r.value && (a !in t || r.value[a] != t[a]) ==> r.value[a].fields.owner == caller.username)
  {
  }

  /**
   * A non-administrator's create or edit leaves everyone else's mailboxes
   * as they were, and every mailbox it adds or changes ends up theirs.
   */
  lemma MailboxWriteScoped(domains: Rows<DomainFields>, t: Rows<MailboxFields>, caller: User, oldAddress: Option<string>,
                           localpart: string, domain: string, password: string, active: bool, owner: string,
                           validate: Validator, hasher: string -> string)
    requires !caller.admin
    ensures var r := MailboxWrite(domains, t, caller, oldAddress, localpart, domain, password, active, owner, validate, hasher);
            r.Success? ==>
              && (forall a :: a in t && t[a].fields.owner != caller.username ==> a in r.value && r.value[a] == t[a])
              && (forall a :: a in r.value && (a !in t || r.value[a] != t[a]) ==> r.value[a].fields.owner == caller.username)
  {
    var allowed := UsableDomains(domains, caller);
    if domain in allowed && oldAddress.Some? {
      var v := CheckAddress(domains, caller, localpart, domain, validate);
      if v.Success? {
        MailboxEditScoped(t, caller, oldAddress.value, v.value, domain,
                          if password == [] then None else Some(hasher(password)), active);
      }
    }
  }

  /**
   * The edit branch of `create_or_update_mailbox`, once the address is
   * validated: hash a non-empty password, build the `SET` clauses one by
   * one, and run them on the row the (owner-scoped) `WHERE` matches.
   */
  method EditMailbox(db: Database, user: User, key: string, address: string, domain: string, password: string,
                     active: bool, owner: string, hasher: string -> string)
    returns (r: Outcome<ServerError>)
    modifies db.mailboxes
    ensures Applied(r, old(db.mailboxes.rows), db.mailboxes.rows,
                    if password != [] && !Users.IsValidPw(password) then Failure(Users.InvalidPassword)
                    else MailboxEdit(old(db.mailboxes.rows), user, key, address, domain,
                                     if password == [] then None else Some(hasher(password)), active, owner))
  {
    var sets := [SetAddress(address), SetDomain(domain)];
    var newHash: Option<string> := None;
    if password != [] {
      var hashed := Users.MkPasswordHash(password, hasher);
      if hashed.Failure? {
        return Fail(hashed.error);
      }
      sets := sets + [SetPasswordHash(hashed.value)];
      newHash := Some(hashed.value);
    }
    sets := sets + [SetActive(active), SetOwner(owner)];
    if Matches(db.mailboxes.rows, user, key) {
      var f := db.mailboxes.rows[key].fields;
      ApplyEditSets(key, f, address, domain, newHash, active, owner, sets);
      var (newKey, g) := ApplyMailboxSets(key, f, sets);
      if newKey != key && newKey in db.mailboxes.rows {
        return Fail(KeyConflict(newKey));
      }
      db.mailboxes.rows := Rekeyed(db.mailboxes.rows, key, newKey, g);
    }
    return Pass;
  }

  /**
   * `create_or_update_mailbox`, for any account that is not a mailbox. The
   * edit builds its `SET` clauses one by one and scopes a
   * non-administrator's `WHERE` to their own rows.
   */
  method CreateOrUpdateMailbox(db: Database, current: Option<User>, oldAddress: Option<string>, localpart: string,
                               domain: string, password: string, active: bool, owner: string,
                               validate: Validator, hasher: string -> string)
    returns (r: Outcome<ServerError>)
    modifies db.mailboxes
    ensures AuthUser(current).Failure? ==> r == Fail(Unauthorized) && db.mailboxes.rows == old(db.mailboxes.rows)
    ensures AuthUser(current).Success? ==>
              Applied(r, old(db.mailboxes.rows), db.mailboxes.rows,
                      MailboxWrite(db.domains.rows, old(db.mailboxes.rows), current.value, oldAddress, localpart, domain,
                                   password, active, owner, validate, hasher))
  {
    var caller := AuthUser(current);
    if caller.Failure? {
      return Fail(caller.error);
    }
    var user := caller.value;
    var effectiveOwner := Domains.EffectiveOwner(user, owner);
    var allowed := UsableDomains(db.domains.rows, user);
    if domain !in allowed {
      return Fail(InvalidDomain);
    }
    var validated := CheckAddress(db.domains.rows, user, localpart, domain, validate);
    if validated.Failure? {
      return Fail(Denied(validated.error));
    }
    var address := validated.value;
    if oldAddress.Some? {
      r := EditMailbox(db, user, oldAddress.value, address, domain, password, active, effectiveOwner, hasher);
      return;
    }
    var hashed := Users.MkPasswordHash(password, hasher);
    if hashed.Failure? {
      return Fail(hashed.error);
    }
    if address in db.mailboxes.rows {
      return Fail(KeyConflict(address));
    }
    db.mailboxes.rows := db.mailboxes.rows[address := Row(MailboxFields(domain, hashed.value, None, active, effectiveOwner), false)];
    return Pass;
  }

  /* ---------- The edit dialog ---------- */

  /** The address split `edit_modal_open_with` makes: at the first '@', or the whole address and no domain. */
  function SplitAddress(address: string): (parts: (string, string))
    ensures '@' in address ==> address == parts.0 + "@" + parts.1 && '@' !in parts.0
    ensures '@' !in address ==> parts == (address, "")
  {
    match SplitOnce(address, '@')
    case Some(p) => p
    case None => (address, "")
  }

  /** Splitting a joined address gives back its parts when the local part has no '@'. */
  lemma SplitAddressJoin(localpart: string, domain: string)
    requires '@' !in localpart
    ensures SplitAddress(localpart + "@" + domain) == (localpart, domain)
  {
    SplitOnceJoin(localpart, '@', domain);
  }

  /**
   * The local part and domain the dialog opens with: the address's own
   * domain when the caller may still use it, else the first usable one,
   * else none.
   */
  function ModalFields(address: string, allowed: seq<string>): (fields: (string, string))
    ensures fields.0 == SplitAddress(address).0
    ensures SplitAddress(address).1 in allowed ==> fields.1 == SplitAddress(address).1
    ensures SplitAddress(address).1 !in allowed ==> fields.1 == (if allowed == [] then "" else allowed[0])
  {
    var (localpart, domain) := SplitAddress(address);
    (localpart, if domain in allowed then domain else if allowed == [] then "" else allowed[0])
  }

  /** Opening the dialog on a mailbox whose domain is still usable prefills parts that join back to its address. */
  lemma ModalRoundTrip(address: string, allowed: seq<string>)
    requires '@' in address && SplitAddress(address).1 in allowed
    ensures ModalFields(address, allowed).0 + "@" + ModalFields(address, allowed).1 == address
  {
  }
}
