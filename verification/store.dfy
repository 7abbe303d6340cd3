/**
 * The relational store shared by the provisioning engine and the
 * interactive server functions: four tables keyed by their primary key.
 * Every row carries the `provisioned` flag that tells rows managed by the
 * provisioning engine from rows created through the web interface.
 * Timestamps such as `created_at` are maintained by the store and are
 * not part of the model.
 */
module Store {
  import opened Wrappers

  datatype Row<F> = Row(fields: F, provisioned: bool)

  /** A table: primary key to row. */
  type Rows<F> = map<string, Row<F>>

  /**
   * An `UPDATE` that matched the row with key `k`: its columns become `f`;
   * the `provisioned` flag, which no server function sets, is kept.
   */
  function Replaced<F>(t: Rows<F>, k: string, f: F): (u: Rows<F>)
    requires k in t
    ensures u.Keys == t.Keys
    ensures u[k].fields == f && u[k].provisioned == t[k].provisioned
    ensures forall j :: j in t && j != k ==> u[j] == t[j]
  {
    t[k := Row(f, t[k].provisioned)]
  }

  /**
   * An `UPDATE` that matched the row with key `k` and may also set the
   * primary key: the row moves to `newKey` with columns `f` and keeps its
   * `provisioned` flag.
   */
  function Rekeyed<F>(t: Rows<F>, k: string, newKey: string, f: F): (u: Rows<F>)
    requires k in t
    ensures u.Keys == t.Keys - {k} + {newKey}
    ensures u[newKey] == Row(f, t[k].provisioned)
    ensures forall j :: j in t && j != k && j != newKey ==> u[j] == t[j]
  {
    (t - {k})[newKey := Row(f, t[k].provisioned)]
  }

  /**
   * A statement ran as `result` says: on success the table is the new one
   * and the call returns Ok; on failure the call returns the error and the
   * table is as it was.
   */
  predicate Applied<F(==), E(==)>(r: Outcome<E>, before: Rows<F>, after: Rows<F>, result: Result<Rows<F>, E>) {
    match result
    case Success(t) => r == Pass && after == t
    case Failure(e) => r == Fail(e) && after == before
  }

  /** One table of the store; SQL statements become updates of `rows`. */
  class Table<F> {
    var rows: Rows<F>

    constructor (initial: Rows<F>)
      ensures rows == initial
    {
      rows := initial;
    }
  }

  /** Columns of `users` besides the key `username`. */
  datatype UserFields = UserFields(passwordHash: string, admin: bool, active: bool)

  /** Columns of `domains` besides the key `domain`. */
  datatype DomainFields = DomainFields(catchAll: string, public: bool, active: bool, owner: string)

  /** Columns of `mailboxes` besides the key `address`; a NULL `api_token` is None. */
  datatype MailboxFields =
    MailboxFields(domain: string, passwordHash: string, apiToken: Option<string>, active: bool, owner: string)

  /** Columns of `aliases` besides the key `address`. */
  datatype AliasFields = AliasFields(domain: string, target: string, comment: string, active: bool, owner: string)

  /** The contents of the four tables at one moment. */
  datatype Snapshot = Snapshot(
    users: Rows<UserFields>,
    domains: Rows<DomainFields>,
    mailboxes: Rows<MailboxFields>,
    aliases: Rows<AliasFields>)

  /** The database behind the connection pool. */
  class Database {
    const users: Table<UserFields>
    const domains: Table<DomainFields>
    const mailboxes: Table<MailboxFields>
    const aliases: Table<AliasFields>

    constructor (initial: Snapshot)
      ensures Snap() == initial
      ensures fresh(users) && fresh(domains) && fresh(mailboxes) && fresh(aliases)
    {
      users := new Table(initial.users);
      domains := new Table(initial.domains);
      mailboxes := new Table(initial.mailboxes);
      aliases := new Table(initial.aliases);
    }

    function Snap(): Snapshot
      reads users, domains, mailboxes, aliases
    {
      Snapshot(users.rows, domains.rows, mailboxes.rows, aliases.rows)
    }
  }
}
