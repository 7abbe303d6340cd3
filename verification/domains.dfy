/**
 * The server functions of src/domains.rs: which domains an account may
 * use, list and count, and how domains are created, edited, toggled and
 * deleted. Owners and the public flag are normalized by who is asking: only
 * an administrator may hand a domain to someone else or make it public,
 * and everyone else only ever touches the domains they own.
 */
module Domains {
  import opened Wrappers
  import opened Text
  import opened Store
  import opened Auth

  /**
   * The owner a create or edit stores: an administrator's requested owner
   * with white space trimmed, anyone else's own name; an empty result
   * falls back to the caller. Mailboxes use the same rule.
   */
  function EffectiveOwner(caller: User, requested: string): (owner: string)
    ensures !caller.admin ==> owner == caller.username
    ensures caller.admin && Trim(requested) != [] ==> owner == Trim(requested)
    ensures caller.admin && Trim(requested) == [] ==> owner == caller.username
  {
    var owner := if caller.admin then Trim(requested) else caller.username;
    if owner == [] then caller.username else owner
  }

  /** An owner that is not white space at either end is stored as given by an administrator. */
  lemma AdminOwnerKept(caller: User, requested: string)
    requires caller.admin && requested != []
    requires !IsWhitespace(requested[0]) && !IsWhitespace(requested[|requested| - 1])
    ensures EffectiveOwner(caller, requested) == requested
  {
    TrimFrames(requested);
    assert Trim(requested) == requested;
  }

  /** Only an administrator's request can make a domain public. */
  function EffectivePublic(caller: User, requested: bool): (public: bool)
    ensures public <==> requested && caller.admin
  {
    requested && caller.admin
  }

  /* ---------- Reading ---------- */

  /** The domains an account may create addresses in: active, and public or owned by it or by its owner. */
  predicate Usable(d: DomainFields, user: User) {
    d.active && (d.public || d.owner == user.username || (user.mailboxOwner.Some? && d.owner == user.mailboxOwner.value))
  }

  /** `allowed_domains`: each usable domain with its owner. */
  function AllowedDomains(current: Option<User>, t: Rows<DomainFields>): (r: Result<map<string, string>, ServerError>)
    ensures r.Failure? <==> current.None?
    ensures r.Failure? ==> r.error == Unauthorized
    ensures r.Success? ==> forall d :: d in r.value <==> d in t && Usable(t[d].fields, current.value)
    ensures r.Success? ==> forall d :: d in r.value ==> r.value[d] == t[d].fields.owner
  {
    match AuthAny(current)
    case Failure(e) => Failure(e)
    case Success(user) => Success(map d | d in t && Usable(t[d].fields, user) :: t[d].fields.owner)
  }

  /** The rows `list_domains` and `domain_count` see: all of them for an administrator, else the caller's own. */
  function OwnDomains(t: Rows<DomainFields>, caller: User): (own: Rows<DomainFields>)
    ensures own.Keys <= t.Keys
    ensures forall d :: d in own ==> own[d] == t[d]
    ensures forall d :: d in t ==> (d in own <==> caller.admin || t[d].fields.owner == caller.username)
  {
    map d | d in t && (caller.admin || t[d].fields.owner == caller.username) :: t[d]
  }

  /** `list_domains`, without search, sorting and paging. */
  function ListDomains(current: Option<User>, t: Rows<DomainFields>): (r: Result<Rows<DomainFields>, ServerError>)
    ensures r.Failure? <==> AuthUser(current).Failure?
    ensures r.Success? ==> r.value == OwnDomains(t, current.value)
  {
    match AuthUser(current)
    case Failure(e) => Failure(e)
    case Success(user) => Success(OwnDomains(t, user))
  }

  /** `domain_count`: the number of domains `list_domains` can show. */
  function DomainCount(current: Option<User>, t: Rows<DomainFields>): (r: Result<nat, ServerError>)
    ensures r.Failure? <==> AuthUser(current).Failure?
    ensures r.Success? ==> r.value == |ListDomains(current, t).value.Keys|
    ensures r.Success? && current.value.admin ==> r.value == |t.Keys|
  {
    match AuthUser(current)
    case Failure(e) => Failure(e)
    case Success(user) =>
      assert user.admin ==> OwnDomains(t, user).Keys == t.Keys;
      Success(|OwnDomains(t, user).Keys|)
  }

  /* ---------- Changing ---------- */

  /** One `SET column = value` clause of an `UPDATE domains` statement. */
  datatype DomainSet =
    | SetCatchAll(catchAll: string)
    | SetDomain(domain: string)
    | SetPublic(public: bool)
    | SetActive(active: bool)
    | SetOwner(owner: string)

  /** The key and columns after one clause. */
  function Step(key: string, f: DomainFields, s: DomainSet): (string, DomainFields) {
    match s
    case SetCatchAll(c) => (key, f.(catchAll := c))
    case SetDomain(d) => (d, f)
    case SetPublic(p) => (key, f.(public := p))
    case SetActive(a) => (key, f.(active := a))
    case SetOwner(o) => (key, f.(owner := o))
  }

  /** The key and columns after the clauses `sets`, applied left to right. */
  function ApplyDomainSets(key: string, f: DomainFields, sets: seq<DomainSet>): (string, DomainFields)
    decreases |sets|
  {
    if sets == [] then (key, f)
    else
      var next := Step(key, f, sets[0]);
      ApplyDomainSets(next.0, next.1, sets[1..])
  }

  lemma ApplyCons(key: string, f: DomainFields, s: DomainSet, rest: seq<DomainSet>)
    ensures ApplyDomainSets(key, f, [s] + rest) == ApplyDomainSets(Step(key, f, s).0, Step(key, f, s).1, rest)
  {
    assert ([s] + rest)[1..] == rest;
  }

  /** The clauses the edit builds, in the order the edit builds them. */
  function EditSets(caller: User, domain: string, catchAll: string, public: bool, active: bool, owner: string)
    : seq<DomainSet>
  {
    [SetCatchAll(catchAll)] + (if caller.admin then [SetDomain(domain)] else [])
    + [SetPublic(EffectivePublic(caller, public)), SetActive(active), SetOwner(EffectiveOwner(caller, owner))]
  }

  /** An edit's clauses set every column, and the key only for an administrator. */
  lemma ApplyEditSets(key: string, f: DomainFields, caller: User, domain: string, catchAll: string, public: bool,
                      active: bool, owner: string)
    ensures ApplyDomainSets(key, f, EditSets(caller, domain, catchAll, public, active, owner))
            == (if caller.admin then domain else key,
                DomainFields(catchAll, EffectivePublic(caller, public), active, EffectiveOwner(caller, owner)))
  {
    var o := EffectiveOwner(caller, owner);
    var p := EffectivePublic(caller, public);
    var k := if caller.admin then domain else key;
    var g := f.(catchAll := catchAll);
    var tail := [SetPublic(p), SetActive(active), SetOwner(o)];
    if caller.admin {
      assert EditSets(caller, domain, catchAll, public, active, owner) == [SetCatchAll(catchAll)] + ([SetDomain(domain)] + tail);
      ApplyCons(key, f, SetCatchAll(catchAll), [SetDomain(domain)] + tail);
      ApplyCons(key, g, SetDomain(domain), tail);
    } else {
      assert EditSets(caller, domain, catchAll, public, active, owner) == [SetCatchAll(catchAll)] + tail;
      ApplyCons(key, f, SetCatchAll(catchAll), tail);
    }
    ApplyCons(k, g, SetPublic(p), [SetActive(active), SetOwner(o)]);
    ApplyCons(k, g.(public := p), SetActive(active), [SetOwner(o)]);
    ApplyCons(k, g.(public := p, active := active), SetOwner(o), []);
  }

  /** The rows `WHERE domain = key`, and `AND owner = caller` for a non-administrator, matches. */
  predicate Matches(t: Rows<DomainFields>, caller: User, key: string) {
    key in t && (caller.admin || t[key].fields.owner == caller.username)
  }

  /** The table an edit of the domain `oldDomain` leaves, or the error it fails with. */
  function DomainEdit(t: Rows<DomainFields>, caller: User, oldDomain: string, domain: string, catchAll: string,
                      public: bool, active: bool, owner: string)
    : (r: Result<Rows<DomainFields>, ServerError>)
    ensures r.Success? ==> forall d :: d in t && d != oldDomain ==> d in r.value && r.value[d] == t[d]
    ensures r.Failure? ==> caller.admin && domain != oldDomain && domain in t && r.error == KeyConflict(domain)
  {
    if !Matches(t, caller, oldDomain) then Success(t)
    else
      var newKey := if caller.admin then domain else oldDomain;
      if newKey != oldDomain && newKey in t then Failure(KeyConflict(newKey))
      else Success(Rekeyed(t, oldDomain, newKey,
                           DomainFields(catchAll, EffectivePublic(caller, public), active, EffectiveOwner(caller, owner))))
  }

  /**
   * A non-administrator's edit always goes through, keeps every key, leaves
   * every row it does not own as it was, keeps the edited row theirs and
   * makes it private.
   */
  lemma NonAdminDomainEdit(t: Rows<DomainFields>, caller: User, oldDomain: string, domain: string, catchAll: string,
                           public: bool, active: bool, owner: string)
    requires !caller.admin
    ensures var r := DomainEdit(t, caller, oldDomain, domain, catchAll, public, active, owner);
            && r.Success? && r.value.Keys == t.Keys
            && (forall d :: d in t && t[d].fields.owner != caller.username ==> r.value[d] == t[d])
            && (forall d :: d in t && d != oldDomain ==> r.value[d] == t[d])
            && (forall d :: d in t && r.value[d] != t[d] ==> !r.value[d].fields.public && r.value[d].fields.owner == caller.username)
            && (Matches(t, caller, oldDomain) ==> r.value[oldDomain] == Row(DomainFields(catchAll, false, active, caller.username), t[oldDomain].provisioned))
            && (!Matches(t, caller, oldDomain) ==> r.value == t)
  {
  }

  /**
   * An administrator's edit of an existing domain moves it to the new key
   * unless another domain has that key, and stores the columns as given,
   * with the owner normalized.
   */
  lemma AdminDomainEdit(t: Rows<DomainFields>, caller: User, oldDomain: string, domain: string, catchAll: string,
                        public: bool, active: bool, owner: string)
    requires caller.admin && oldDomain in t
    ensures var r := DomainEdit(t, caller, oldDomain, domain, catchAll, public, active, owner);
            && (r.Failure? <==> domain != oldDomain && domain in t)
            && (r.Success? ==> r.value.Keys == t.Keys - {oldDomain} + {domain}
                               && r.value[domain].fields == DomainFields(catchAll, public, active, EffectiveOwner(caller, owner)))
  {
  }

  /** The table creating the domain `domain` leaves: a new row, not flagged provisioned. */
  function DomainCreate(t: Rows<DomainFields>, caller: User, domain: string, catchAll: string, public: bool,
                        active: bool, owner: string)
    : (r: Result<Rows<DomainFields>, ServerError>)
    ensures r.Failure? <==> domain in t
    ensures r.Success? ==> r.value == t[domain := Row(DomainFields(catchAll, EffectivePublic(caller, public), active,
                                                                   EffectiveOwner(caller, owner)), false)]
  {
    if domain in t then Failure(KeyConflict(domain))
    else Success(t[domain := Row(DomainFields(catchAll, EffectivePublic(caller, public), active,
                                              EffectiveOwner(caller, owner)), false)])
  }

  /**
   * The edit branch of `create_or_update_domain`: build the `SET` clauses
   * one by one, the key only for an administrator, and run them on the
   * row the (owner-scoped) `WHERE` matches.
   */
  method EditDomain(db: Database, user: User, key: string, domain: string, catchAll: string, public: bool,
                    active: bool, owner: string)
    returns (r: Outcome<ServerError>)
    modifies db.domains
    ensures Applied(r, old(db.domains.rows), db.domains.rows,
                    DomainEdit(old(db.domains.rows), user, key, domain, catchAll, public, active, owner))
  {
    var sets := [SetCatchAll(catchAll)];
    if user.admin {
      sets := sets + [SetDomain(domain)];
    }
    sets := sets + [SetPublic(EffectivePublic(user, public)), SetActive(active), SetOwner(EffectiveOwner(user, owner))];
    assert sets == EditSets(user, domain, catchAll, public, active, owner);
    if Matches(db.domains.rows, user, key) {
      ApplyEditSets(key, db.domains.rows[key].fields, user, domain, catchAll, public, active, owner);
      var (newKey, f) := ApplyDomainSets(key, db.domains.rows[key].fields, sets);
      if newKey != key && newKey in db.domains.rows {
        return Fail(KeyConflict(newKey));
      }
      db.domains.rows := Rekeyed(db.domains.rows, key, newKey, f);
    }
    return Pass;
  }

  /**
   * `create_or_update_domain`: creating needs an administrator, editing any
   * account that is not a mailbox, whose `WHERE` is scoped to their own rows.
   */
  method CreateOrUpdateDomain(db: Database, current: Option<User>, oldDomain: Option<string>, domain: string,
                              catchAll: string, public: bool, active: bool, owner: string)
    returns (r: Outcome<ServerError>)
    modifies db.domains
    ensures oldDomain.Some? && AuthUser(current).Failure? ==>
              r == Fail(Unauthorized) && db.domains.rows == old(db.domains.rows)
    ensures oldDomain.Some? && AuthUser(current).Success? ==>
              Applied(r, old(db.domains.rows), db.domains.rows,
                      DomainEdit(old(db.domains.rows), current.value, oldDomain.value, domain, catchAll, public, active, owner))
    ensures oldDomain.None? && AuthAdmin(current).Failure? ==>
              r == Fail(Unauthorized) && db.domains.rows == old(db.domains.rows)
    ensures oldDomain.None? && AuthAdmin(current).Success? ==>
              Applied(r, old(db.domains.rows), db.domains.rows,
                      DomainCreate(old(db.domains.rows), current.value, domain, catchAll, public, active, owner))
  {
    var caller := if oldDomain.Some? then AuthUser(current) else AuthAdmin(current);
    if caller.Failure? {
      return Fail(caller.error);
    }
    var user := caller.value;
    if oldDomain.Some? {
      r := EditDomain(db, user, oldDomain.value, domain, catchAll, public, active, owner);
      return;
    }
    if domain in db.domains.rows {
      return Fail(KeyConflict(domain));
    }
    db.domains.rows := db.domains.rows[domain := Row(DomainFields(catchAll, EffectivePublic(user, public), active,
                                                                  EffectiveOwner(user, owner)), false)];
    return Pass;
  }

  /** The table `update_domain_public_and_active` leaves. */
  function DomainToggle(t: Rows<DomainFields>, caller: User, domain: string, public: bool, active: bool)
    : (u: Rows<DomainFields>)
    ensures u.Keys == t.Keys
    ensures forall d :: d in t && d != domain ==> u[d] == t[d]
    ensures forall d :: d in t ==>
              u[d].provisioned == t[d].provisioned
              && u[d].fields.catchAll == t[d].fields.catchAll && u[d].fields.owner == t[d].fields.owner
    ensures Matches(t, caller, domain) ==>
              u[domain].fields.public == EffectivePublic(caller, public) && u[domain].fields.active == active
    ensures !Matches(t, caller, domain) ==> u == t
  {
    if Matches(t, caller, domain)
    then Replaced(t, domain, t[domain].fields.(public := EffectivePublic(caller, public), active := active))
    else t
  }

  /**
   * A toggle changes at most the two flags of the named domain; a
   * non-administrator's toggle touches only a domain they own and never
   * leaves it public.
   */
  lemma DomainToggleScoped(t: Rows<DomainFields>, caller: User, domain: string, public: bool, active: bool)
    ensures var u := DomainToggle(t, caller, domain, public, active);
            && u.Keys == t.Keys
            && (forall d :: d in t && d != domain ==> u[d] == t[d])
            && (domain in t ==> u[domain].fields.catchAll == t[domain].fields.catchAll
                                && u[domain].fields.owner == t[domain].fields.owner)
            && (!caller.admin ==> forall d :: d in t && u[d] != t[d] ==> (t[d].fields.owner == caller.username
                                                                          && !u[d].fields.public))
  {
  }

  /** `update_domain_public_and_active`, for any account that is not a mailbox. */
  method UpdateDomainPublicAndActive(db: Database, current: Option<User>, domain: string, public: bool, active: bool)
    returns (r: Outcome<ServerError>)
    modifies db.domains
    ensures AuthUser(current).Failure? ==> r == Fail(Unauthorized) && db.domains.rows == old(db.domains.rows)
    ensures AuthUser(current).Success? ==>
              r == Pass && db.domains.rows == DomainToggle(old(db.domains.rows), current.value, domain, public, active)
  {
    var caller := AuthUser(current);
    if caller.Failure? {
      return Fail(caller.error);
    }
    var user := caller.value;
    var effectivePublic := EffectivePublic(user, public);
    if Matches(db.domains.rows, user, domain) {
      var f := db.domains.rows[domain].fields;
      db.domains.rows := Replaced(db.domains.rows, domain, f.(public := effectivePublic, active := active));
    }
    return Pass;
  }

  /**
   * `delete_domain`, for administrators only; its clause restricting a
   * non-administrator to their own domains can never apply.
   */
  method DeleteDomain(db: Database, current: Option<User>, domain: string) returns (r: Outcome<ServerError>)
    modifies db.domains
    ensures AuthAdmin(current).Failure? ==> r == Fail(Unauthorized) && db.domains.rows == old(db.domains.rows)
    ensures AuthAdmin(current).Success? ==> r == Pass && db.domains.rows == old(db.domains.rows) - {domain}
  {
    var caller := AuthAdmin(current);
    if caller.Failure? {
      return Fail(caller.error);
    }
    db.domains.rows := db.domains.rows - {domain};
    return Pass;
  }

  /* ---------- The text of the edit statement ---------- */

  /** A value bound to a placeholder of a statement. */
  datatype SqlValue = TextValue(text: string) | BoolValue(flag: bool)

  /** A piece of a statement built with a query builder: literal SQL, or a bound value. */
  datatype Piece = Sql(text: string) | Bind(value: SqlValue)

  /** The text a piece adds to the statement: its SQL, or SQLite's `?` placeholder for a bound value. */
  function PieceText(p: Piece): string {
    match p
    case Sql(text) => text
    case Bind(_) => "?"
  }

  /** The statement's SQL text, as the query builder accumulates every push into one string. */
  function Render(q: seq<Piece>): string
    decreases |q|
  {
    if q == [] then "" else PieceText(q[0]) + Render(q[1..])
  }

  /** Every `= ` in the SQL text is immediately followed by a placeholder. */
  predicate AssignmentsBound(s: string) {
    forall i :: 0 <= i && i + 1 < |s| && s[i] == '=' && s[i + 1] == ' ' ==> i + 2 < |s| && s[i + 2] == '?'
  }

  /** Literal SQL that ends with `= ` and has no other `=`: one assignment awaiting its value. */
  predicate Assignment(text: string) {
    && |text| >= 2 && text[|text| - 2] == '=' && text[|text| - 1] == ' '
    && forall i :: 0 <= i < |text| - 2 ==> text[i] != '='
  }

  /** Every piece of literal SQL is one assignment, followed by its bound value. */
  predicate Assigning(q: seq<Piece>) {
    forall i :: 0 <= i < |q| && q[i].Sql? ==> Assignment(q[i].text) && i + 1 < |q| && q[i + 1].Bind?
  }

  lemma AssignmentOf(column: string)
    requires '=' !in column
    ensures Assignment(column + " = ")
  {
    var text := column + " = ";
    forall i | 0 <= i < |text| - 2
      ensures text[i] != '='
    {
      if i < |column| {
        assert text[i] == column[i];
      }
    }
  }

  lemma AssigningJoin(a: seq<Piece>, b: seq<Piece>)
    requires Assigning(a) && Assigning(b)
    ensures Assigning(a + b)
  {
    forall i | 0 <= i < |a + b| && (a + b)[i].Sql?
      ensures Assignment((a + b)[i].text) && i + 1 < |a + b| && (a + b)[i + 1].Bind?
    {
      if i < |a| {
        assert a[i].Sql?;
      } else {
        assert b[i - |a|].Sql?;
      }
    }
  }

  lemma AssigningSuffix(q: seq<Piece>, k: nat)
    requires Assigning(q) && k <= |q|
    ensures Assigning(q[k..])
  {
    forall i | 0 <= i < |q[k..]| && q[k..][i].Sql?
      ensures Assignment(q[k..][i].text) && i + 1 < |q[k..]| && q[k..][i + 1].Bind?
    {
      assert q[k + i].Sql?;
    }
  }

  /** An assignment followed by its placeholder binds it. */
  lemma AssignmentPlaceholder(text: string)
    requires Assignment(text)
    ensures AssignmentsBound(text + "?")
  {
    var s := text + "?";
    forall i | 0 <= i && i + 1 < |s| && s[i] == '=' && s[i + 1] == ' '
      ensures i + 2 < |s| && s[i + 2] == '?'
    {
      assert s[|text|] == '?';
      assert i < |text| && s[i] == text[i];
    }
  }

  /** Text ending in a placeholder can be followed by any text whose assignments are bound. */
  lemma BoundJoin(a: string, b: string)
    requires AssignmentsBound(a) && AssignmentsBound(b)
    requires |a| > 0 && a[|a| - 1] == '?'
    ensures AssignmentsBound(a + b)
  {
    var s := a + b;
    forall i | 0 <= i && i + 1 < |s| && s[i] == '=' && s[i + 1] == ' '
      ensures i + 2 < |s| && s[i + 2] == '?'
    {
      if i + 1 < |a| {
        assert a[i] == '=' && a[i + 1] == ' ';
      } else {
        assert i >= |a|;
        assert b[i - |a|] == '=' && b[i - |a| + 1] == ' ';
      }
    }
  }

  /** A statement made of assignments each followed by its value renders with every assignment bound. */
  lemma {:induction false} RenderBound(q: seq<Piece>)
    requires Assigning(q)
    ensures AssignmentsBound(Render(q))
    decreases |q|
  {
    if q != [] {
      AssigningSuffix(q, 1);
      if q[0].Bind? {
        RenderBound(q[1..]);
        BoundJoin("?", Render(q[1..]));
      } else {
        var text := q[0].text;
        assert q[1].Bind?;
        AssigningSuffix(q, 2);
        RenderBound(q[2..]);
        assert q[1..][1..] == q[2..];
        var rest := Render(q[2..]);
        assert Render(q) == text + ("?" + rest);
        assert text + ("?" + rest) == (text + "?") + rest;
        AssignmentPlaceholder(text);
        BoundJoin(text + "?", rest);
      }
    }
  }

  function ColumnName(s: DomainSet): (name: string)
    ensures '=' !in name
  {
    match s
    case SetCatchAll(_) => "catch_all"
    case SetDomain(_) => "domain"
    case SetPublic(_) => "public"
    case SetActive(_) => "active"
    case SetOwner(_) => "owner"
  }

  function ColumnValue(s: DomainSet): SqlValue {
    match s
    case SetCatchAll(c) => TextValue(c)
    case SetDomain(d) => TextValue(d)
    case SetPublic(p) => BoolValue(p)
    case SetActive(a) => BoolValue(a)
    case SetOwner(o) => TextValue(o)
  }

  /** The SQL text that opens the clause setting the column of `s`: the statement's start for the first clause. */
  function ClauseText(s: DomainSet, first: bool): string {
    (if first then "UPDATE domains SET " else ", ") + ColumnName(s) + " = "
  }

  lemma ClauseAssigns(s: DomainSet, first: bool)
    ensures Assignment(ClauseText(s, first))
  {
    var opening: string := if first then "UPDATE domains SET " else ", ";
    assert '=' !in opening;
    AssignmentOf(opening + ColumnName(s));
  }

  /** The `SET` clauses, each as SQL text naming the column and the value bound after it. */
  function SetClauses(sets: seq<DomainSet>, first: bool): seq<Piece>
    decreases |sets|
  {
    if sets == [] then []
    else [Sql(ClauseText(sets[0], first)), Bind(ColumnValue(sets[0]))] + SetClauses(sets[1..], false)
  }

  /** Every `SET` clause is one assignment of its column, followed by the value bound to it. */
  lemma {:induction false} SetClausesAssign(sets: seq<DomainSet>, first: bool)
    ensures Assigning(SetClauses(sets, first))
  {
    if sets != [] {
      SetClausesAssign(sets[1..], false);
      ClauseAssigns(sets[0], first);
      var head := [Sql(ClauseText(sets[0], first)), Bind(ColumnValue(sets[0]))];
      AssigningJoin(head, SetClauses(sets[1..], false));
    }
  }

  /** The `WHERE` clause of the edit: the old key, and the owner for a non-administrator. */
  function EditFilter(caller: User, oldDomain: string): seq<Piece> {
    [Sql(" WHERE domain = "), Bind(TextValue(oldDomain))]
    + (if caller.admin then [] else [Sql(" AND owner = "), Bind(TextValue(caller.username))])
  }

  lemma EditFilterAssigns(caller: User, oldDomain: string)
    ensures Assigning(EditFilter(caller, oldDomain))
  {
    AssignmentOf(" WHERE domain");
    AssignmentOf(" AND owner");
  }

  /** The edit statement as the source builds it: an opening `SET catch_all = ` with no value, then every clause. */
  function EditStatementAsWritten(caller: User, oldDomain: string, sets: seq<DomainSet>): seq<Piece> {
    [Sql("UPDATE domains SET catch_all = ")] + SetClauses(sets, false) + EditFilter(caller, oldDomain)
  }

  /**
   * Whatever the clauses, the text of the statement as written has a `= `
   * followed by literal SQL instead of a placeholder: `catch_all` is assigned
   * no value and the statement cannot be executed.
   */
  lemma EditStatementAsWrittenUnbound(caller: User, oldDomain: string, sets: seq<DomainSet>)
    ensures var s := Render(EditStatementAsWritten(caller, oldDomain, sets));
            |s| > 31 && s[29] == '=' && s[30] == ' ' && s[31] != '?'
    ensures !AssignmentsBound(Render(EditStatementAsWritten(caller, oldDomain, sets)))
  {
    var opening := "UPDATE domains SET catch_all = ";
    var rest := SetClauses(sets, false) + EditFilter(caller, oldDomain);
    var q := EditStatementAsWritten(caller, oldDomain, sets);
    assert q == [Sql(opening)] + rest;
    assert q[1..] == rest;
    assert Render(rest) == PieceText(rest[0]) + Render(rest[1..]);
    if sets == [] {
      assert rest[0] == Sql(" WHERE domain = ");
    } else {
      assert rest[0] == Sql(ClauseText(sets[0], false));
    }
    var s := Render(q);
    assert s == opening + Render(rest);
    assert s[29] == '=' && s[30] == ' ' && s[31] == PieceText(rest[0])[0];
  }

  /** The edit statement as intended: the clauses the edit applies, then the filter. */
  function EditStatement(caller: User, oldDomain: string, sets: seq<DomainSet>): seq<Piece> {
    SetClauses(sets, true) + EditFilter(caller, oldDomain)
  }

  /** The text of the intended statement binds a value after every assignment, for every edit. */
  lemma EditStatementBound(caller: User, oldDomain: string, sets: seq<DomainSet>)
    ensures AssignmentsBound(Render(EditStatement(caller, oldDomain, sets)))
    ensures |sets| > 0 ==> EditStatement(caller, oldDomain, sets)[1] == Bind(ColumnValue(sets[0]))
  {
    SetClausesAssign(sets, true);
    EditFilterAssigns(caller, oldDomain);
    AssigningJoin(SetClauses(sets, true), EditFilter(caller, oldDomain));
    RenderBound(EditStatement(caller, oldDomain, sets));
  }
}
