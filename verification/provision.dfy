/**
 * The declarative provisioning engine of src/provision.rs. A desired-state
 * document declares users, domains, mailboxes and aliases; one run
 * reconciles the four tables with it, in the order users, domains,
 * mailboxes, aliases, and stops at the first error, leaving what earlier
 * steps already wrote in place.
 *
 * The environment is a parameter: `provisionFile` is the value of
 * `IDMAIL_PROVISION` (None when unset), `files` maps every readable path to
 * its contents (a path outside it cannot be read), and `parse` stands for
 * the TOML deserializer, which yields the document as written, with
 * optional fields still absent.
 */
module Provision {
  import opened Wrappers
  import opened Text
  import opened Store
  import opened Reconcile

  type Files = map<string, string>

  /* ---------- The desired-state document ---------- */

  datatype UserDecl = UserDecl(passwordHash: string, admin: bool, active: bool)
  datatype DomainDecl = DomainDecl(catchAll: Option<string>, public: bool, active: bool, owner: string)
  datatype MailboxDecl = MailboxDecl(passwordHash: string, apiToken: Option<string>, active: bool, owner: string)
  datatype AliasDecl = AliasDecl(target: string, comment: Option<string>, active: bool, owner: string)

  datatype Document = Document(
    users: map<string, UserDecl>,
    domains: map<string, DomainDecl>,
    mailboxes: map<string, MailboxDecl>,
    aliases: map<string, AliasDecl>)

  /** The document as the file spells it: a field or section that is left out is None. */
  datatype RawUser = RawUser(passwordHash: string, admin: Option<bool>, active: Option<bool>)
  datatype RawDomain = RawDomain(catchAll: Option<string>, public: Option<bool>, active: Option<bool>, owner: string)
  datatype RawMailbox = RawMailbox(passwordHash: string, apiToken: Option<string>, active: Option<bool>, owner: string)
  datatype RawAlias = RawAlias(target: string, comment: Option<string>, active: Option<bool>, owner: string)

  datatype RawDocument = RawDocument(
    users: Option<map<string, RawUser>>,
    domains: Option<map<string, RawDomain>>,
    mailboxes: Option<map<string, RawMailbox>>,
    aliases: Option<map<string, RawAlias>>)

  /** `admin` defaults to false and `active` to true. */
  function UserDefaults(raw: RawUser): (u: UserDecl)
    ensures u.passwordHash == raw.passwordHash
    ensures u.admin <==> raw.admin == Some(true)
    ensures u.active <==> raw.active != Some(false)
  {
    UserDecl(raw.passwordHash, raw.admin.GetOr(false), raw.active.GetOr(true))
  }

  /** `public` defaults to false, `active` to true, `catch_all` to None. */
  function DomainDefaults(raw: RawDomain): (d: DomainDecl)
    ensures d.catchAll == raw.catchAll && d.owner == raw.owner
    ensures d.public <==> raw.public == Some(true)
    ensures d.active <==> raw.active != Some(false)
  {
    DomainDecl(raw.catchAll, raw.public.GetOr(false), raw.active.GetOr(true), raw.owner)
  }

  /** `active` defaults to true, `api_token` to None. */
  function MailboxDefaults(raw: RawMailbox): (m: MailboxDecl)
    ensures m.passwordHash == raw.passwordHash && m.apiToken == raw.apiToken && m.owner == raw.owner
    ensures m.active <==> raw.active != Some(false)
  {
    MailboxDecl(raw.passwordHash, raw.apiToken, raw.active.GetOr(true), raw.owner)
  }

  /** `active` defaults to true, `comment` to None. */
  function AliasDefaults(raw: RawAlias): (a: AliasDecl)
    ensures a.target == raw.target && a.comment == raw.comment && a.owner == raw.owner
    ensures a.active <==> raw.active != Some(false)
  {
    AliasDecl(raw.target, raw.comment, raw.active.GetOr(true), raw.owner)
  }

  /** A section that is left out is an empty map; every entry of a present one takes its defaults. */
  function Section<R, D>(raw: Option<map<string, R>>, defaults: R -> D): (m: map<string, D>)
    ensures raw.None? ==> m == map[]
    ensures raw.Some? ==> m.Keys == raw.value.Keys
    ensures raw.Some? ==> forall k :: k in m ==> m[k] == defaults(raw.value[k])
  {
    match raw
    case None => map[]
    case Some(entries) => map k | k in entries :: defaults(entries[k])
  }

  /** The document with every serde default filled in: it declares exactly the entries the file names. */
  function WithDefaults(raw: RawDocument): (doc: Document)
    ensures forall name :: name in doc.users <==> raw.users.Some? && name in raw.users.value
    ensures forall name :: name in doc.domains <==> raw.domains.Some? && name in raw.domains.value
    ensures forall name :: name in doc.mailboxes <==> raw.mailboxes.Some? && name in raw.mailboxes.value
    ensures forall name :: name in doc.aliases <==> raw.aliases.Some? && name in raw.aliases.value
  {
    Document(
      Section(raw.users, UserDefaults),
      Section(raw.domains, DomainDefaults),
      Section(raw.mailboxes, MailboxDefaults),
      Section(raw.aliases, AliasDefaults))
  }

  /* ---------- Errors ---------- */

  datatype Kind = DomainEntity | MailboxEntity | AliasEntity

  datatype ProvisionError =
    | ProvisionFileUnreadable(path: string)       // "Failed to read provision file: ..."
    | ProvisionFileMalformed(reason: string)      // "Failed to parse provision state"
    | SecretFileUnreadable(path: string)          // the I/O error of reading a `%{file:...}%` secret
    | InvalidAddress(kind: Kind, name: string)    // "... Invalid address"
    | UndeclaredDomain(kind: Kind, name: string, domain: string)
    | UndeclaredOwner(kind: Kind, name: string, owner: string)
    | ApiTokenTooShort(name: string)              // "API tokens must be at least 16 characters long"

  /* ---------- Secrets given literally or as `%{file:PATH}%` ---------- */

  const FilePrefix: string := "%{file:"
  const FileSuffix: string := "}%"

  /** The path a value refers to, when the value has the form `%{file:PATH}%`. */
  function FileRef(value: string): Option<string> {
    match StripPrefix(value, FilePrefix)
    case None => None
    case Some(rest) => StripSuffix(rest, FileSuffix)
  }

  lemma FileRefIff(value: string, path: string)
    ensures FileRef(value) == Some(path) <==> value == FilePrefix + path + FileSuffix
  {
    if value == FilePrefix + path + FileSuffix {
      assert value[..|FilePrefix|] == FilePrefix;
      assert value[|FilePrefix|..] == path + FileSuffix;
      assert StripPrefix(value, FilePrefix) == Some(path + FileSuffix);
      var rest := path + FileSuffix;
      assert rest[|rest| - |FileSuffix|..] == FileSuffix;
      assert rest[..|rest| - |FileSuffix|] == path;
      assert StripSuffix(rest, FileSuffix) == Some(path);
    }
  }

  /** `value_or_file`. */
  function ValueOrFile(value: string, files: Files): (r: Result<string, ProvisionError>)
    ensures r.Failure? <==> FileRef(value).Some? && FileRef(value).value !in files
    ensures FileRef(value).None? ==> r == Success(value)
    ensures FileRef(value).Some? && r.Success? && r.value != [] ==>
              !IsWhitespace(r.value[0]) && !IsWhitespace(r.value[|r.value| - 1])
  {
    match FileRef(value)
    case None => Success(value)
    case Some(path) =>
      if path in files then Success(Trim(files[path])) else Failure(SecretFileUnreadable(path))
  }

  /** A value `%{file:P}%` resolves to the trimmed contents of P, and fails when P cannot be read. */
  lemma ValueOrFileReads(path: string, files: Files)
    ensures ValueOrFile(FilePrefix + path + FileSuffix, files)
            == if path in files then Success(Trim(files[path])) else Failure(SecretFileUnreadable(path))
  {
    FileRefIff(FilePrefix + path + FileSuffix, path);
  }

  /** Any value not of the form `%{file:P}%` is used as it is. */
  lemma ValueOrFileLiteral(value: string, files: Files)
    requires forall path :: FileRef(value) != Some(path)
    ensures ValueOrFile(value, files) == Success(value)
  {
  }

  /* ---------- Validating one declared entry ---------- */

  /** The part of an address after its first '@'. */
  function DomainPart(address: string): string
    requires '@' in address
  {
    SplitOnce(address, '@').value.1
  }

  function UserEntry(u: UserDecl, files: Files): (r: Result<UserFields, ProvisionError>)
    ensures r.Success? <==> ValueOrFile(u.passwordHash, files).Success?
    ensures r.Success? ==> r.value == UserFields(ValueOrFile(u.passwordHash, files).value, u.admin, u.active)
  {
    match ValueOrFile(u.passwordHash, files)
    case Failure(e) => Failure(e)
    case Success(hash) => Success(UserFields(hash, u.admin, u.active))
  }

  /** The owner must be a user declared in the same document. */
  function DomainEntry(name: string, d: DomainDecl, doc: Document): (r: Result<DomainFields, ProvisionError>)
    ensures r.Failure? <==> d.owner !in doc.users
    ensures r.Failure? ==> r.error == UndeclaredOwner(DomainEntity, name, d.owner)
    ensures r.Success? ==> r.value.owner == d.owner && r.value.public == d.public && r.value.active == d.active
    ensures r.Success? ==> r.value.catchAll == if d.catchAll.Some? then d.catchAll.value else ""
  {
    if d.owner !in doc.users then Failure(UndeclaredOwner(DomainEntity, name, d.owner))
    else Success(DomainFields(d.catchAll.GetOr(""), d.public, d.active, d.owner))
  }

  /** A present API token must be at least 16 bytes long. */
  predicate TokenTooShort(token: Option<string>) {
    token.Some? && Utf8Len(token.value) < 16
  }

  /** The resolved API token: None stays None (stored as NULL), Some goes through `value_or_file`. */
  function ResolveToken(token: Option<string>, files: Files): Result<Option<string>, ProvisionError> {
    match token
    case None => Success(None)
    case Some(t) =>
      match ValueOrFile(t, files)
      case Failure(e) => Failure(e)
      case Success(v) => Success(Some(v))
  }

  /**
   * The checks of a declared mailbox, in the order the source makes them:
   * an '@' in the key, a declared domain after the first '@', a declared
   * owner, readable secrets, and a long enough API token.
   */
  function MailboxEntry(name: string, m: MailboxDecl, doc: Document, files: Files)
    : (r: Result<MailboxFields, ProvisionError>)
    ensures '@' !in name ==> r == Failure(InvalidAddress(MailboxEntity, name))
    ensures '@' in name && DomainPart(name) !in doc.domains
            ==> r == Failure(UndeclaredDomain(MailboxEntity, name, DomainPart(name)))
    ensures '@' in name && DomainPart(name) in doc.domains && m.owner !in doc.users
            ==> r == Failure(UndeclaredOwner(MailboxEntity, name, m.owner))
    ensures r.Success? <==>
              && '@' in name && DomainPart(name) in doc.domains && m.owner in doc.users
              && ValueOrFile(m.passwordHash, files).Success?
              && ResolveToken(m.apiToken, files).Success?
              && !TokenTooShort(ResolveToken(m.apiToken, files).value)
    ensures r.Success? ==> r.value.domain == DomainPart(name) && r.value.owner == m.owner
                           && r.value.active == m.active
                           && r.value.passwordHash == ValueOrFile(m.passwordHash, files).value
                           && r.value.apiToken == ResolveToken(m.apiToken, files).value
  {
    match SplitOnce(name, '@')
    case None => Failure(InvalidAddress(MailboxEntity, name))
    case Some((_, domain)) =>
      if domain !in doc.domains then Failure(UndeclaredDomain(MailboxEntity, name, domain))
      else if m.owner !in doc.users then Failure(UndeclaredOwner(MailboxEntity, name, m.owner))
      else
        match ValueOrFile(m.passwordHash, files)
        case Failure(e) => Failure(e)
        case Success(hash) =>
          match ResolveToken(m.apiToken, files)
          case Failure(e) => Failure(e)
          case Success(token) =>
            if TokenTooShort(token) then Failure(ApiTokenTooShort(name))
            else Success(MailboxFields(domain, hash, token, m.active, m.owner))
  }

  /**
   * The checks of a declared alias: an '@' in the key, a declared domain
   * after the first '@', and an owner that is a declared user or a declared
   * mailbox. An absent comment is stored as the empty string.
   */
  function AliasEntry(name: string, a: AliasDecl, doc: Document): (r: Result<AliasFields, ProvisionError>)
    ensures '@' !in name ==> r == Failure(InvalidAddress(AliasEntity, name))
    ensures '@' in name && DomainPart(name) !in doc.domains
            ==> r == Failure(UndeclaredDomain(AliasEntity, name, DomainPart(name)))
    ensures r.Success? <==>
              '@' in name && DomainPart(name) in doc.domains && (a.owner in doc.users || a.owner in doc.mailboxes)
    ensures r.Success? ==> r.value.domain == DomainPart(name) && r.value.target == a.target
                           && r.value.comment == (if a.comment.Some? then a.comment.value else "")
                           && r.value.active == a.active && r.value.owner == a.owner
  {
    match SplitOnce(name, '@')
    case None => Failure(InvalidAddress(AliasEntity, name))
    case Some((_, domain)) =>
      if domain !in doc.domains then Failure(UndeclaredDomain(AliasEntity, name, domain))
      else if a.owner !in doc.users && a.owner !in doc.mailboxes then
        Failure(UndeclaredOwner(AliasEntity, name, a.owner))
      else Success(AliasFields(domain, a.target, a.comment.GetOr(""), a.active, a.owner))
  }

  function UserEntries(doc: Document, files: Files): map<string, Result<UserFields, ProvisionError>> {
    map name | name in doc.users :: UserEntry(doc.users[name], files)
  }

  function DomainEntries(doc: Document): map<string, Result<DomainFields, ProvisionError>> {
    map name | name in doc.domains :: DomainEntry(name, doc.domains[name], doc)
  }

  function MailboxEntries(doc: Document, files: Files): map<string, Result<MailboxFields, ProvisionError>> {
    map name | name in doc.mailboxes :: MailboxEntry(name, doc.mailboxes[name], doc, files)
  }

  function AliasEntries(doc: Document): map<string, Result<AliasFields, ProvisionError>> {
    map name | name in doc.aliases :: AliasEntry(name, doc.aliases[name], doc)
  }

  /* ---------- What an upsert writes over an existing row ---------- */

  /** users and domains: `ON CONFLICT` rewrites every column. */
  function TakeDeclared<F>(existing: F, declared: F): F {
    declared
  }

  /** mailboxes: `ON CONFLICT` rewrites every column except `domain`. */
  function KeepMailboxDomain(existing: MailboxFields, declared: MailboxFields): MailboxFields {
    declared.(domain := existing.domain)
  }

  /** aliases: `ON CONFLICT` rewrites every column except `domain`. */
  function KeepAliasDomain(existing: AliasFields, declared: AliasFields): AliasFields {
    declared.(domain := existing.domain)
  }

  /* ---------- The passes ---------- */

  predicate UsersOk(doc: Document, files: Files) { AllOk(UserEntries(doc, files)) }
  predicate DomainsOk(doc: Document) { AllOk(DomainEntries(doc)) }
  predicate MailboxesOk(doc: Document, files: Files) { AllOk(MailboxEntries(doc, files)) }
  predicate AliasesOk(doc: Document) { AllOk(AliasEntries(doc)) }

  predicate DocumentOk(doc: Document, files: Files) {
    UsersOk(doc, files) && DomainsOk(doc) && MailboxesOk(doc, files) && AliasesOk(doc)
  }

  function UsersAfter(t: Rows<UserFields>, doc: Document, files: Files): (after: Rows<UserFields>)
    ensures UsersOk(doc, files) ==> ProvisionedKeys(after) == doc.users.Keys
  {
    ReconciledConverges(t, OkValues(UserEntries(doc, files)), TakeDeclared);
    Reconciled(t, OkValues(UserEntries(doc, files)), TakeDeclared)
  }

  function DomainsAfter(t: Rows<DomainFields>, doc: Document): (after: Rows<DomainFields>)
    ensures DomainsOk(doc) ==> ProvisionedKeys(after) == doc.domains.Keys
  {
    ReconciledConverges(t, OkValues(DomainEntries(doc)), TakeDeclared);
    Reconciled(t, OkValues(DomainEntries(doc)), TakeDeclared)
  }

  function MailboxesAfter(t: Rows<MailboxFields>, doc: Document, files: Files): (after: Rows<MailboxFields>)
    ensures MailboxesOk(doc, files) ==> ProvisionedKeys(after) == doc.mailboxes.Keys
  {
    ReconciledConverges(t, OkValues(MailboxEntries(doc, files)), KeepMailboxDomain);
    Reconciled(t, OkValues(MailboxEntries(doc, files)), KeepMailboxDomain)
  }

  function AliasesAfter(t: Rows<AliasFields>, doc: Document): (after: Rows<AliasFields>)
    ensures AliasesOk(doc) ==> ProvisionedKeys(after) == doc.aliases.Keys
  {
    ReconciledConverges(t, OkValues(AliasEntries(doc)), KeepAliasDomain);
    Reconciled(t, OkValues(AliasEntries(doc)), KeepAliasDomain)
  }

  /** The store after a complete, successful run. */
  function Run(s: Snapshot, doc: Document, files: Files): (after: Snapshot)
    ensures DocumentOk(doc, files) ==>
              && ProvisionedKeys(after.users) == doc.users.Keys
              && ProvisionedKeys(after.domains) == doc.domains.Keys
              && ProvisionedKeys(after.mailboxes) == doc.mailboxes.Keys
              && ProvisionedKeys(after.aliases) == doc.aliases.Keys
  {
    Snapshot(
      UsersAfter(s.users, doc, files),
      DomainsAfter(s.domains, doc),
      MailboxesAfter(s.mailboxes, doc, files),
      AliasesAfter(s.aliases, doc))
  }

  /** `provision_users`. */
  method ProvisionUsers(db: Database, doc: Document, files: Files) returns (r: Outcome<ProvisionError>)
    modifies db.users
    ensures r.Pass? <==> UsersOk(doc, files)
    ensures r.Pass? ==> db.users.rows == UsersAfter(old(db.users.rows), doc, files)
    ensures r.Fail? ==> PartlyReconciled(old(db.users.rows), db.users.rows, UserEntries(doc, files), TakeDeclared)
    ensures r.Fail? ==> exists k :: k in doc.users && UserEntries(doc, files)[k] == Failure(r.error)
  {
    r := ReconcileTable(db.users, UserEntries(doc, files), TakeDeclared);
  }

  /** `provision_domains`. */
  method ProvisionDomains(db: Database, doc: Document) returns (r: Outcome<ProvisionError>)
    modifies db.domains
    ensures r.Pass? <==> DomainsOk(doc)
    ensures r.Pass? ==> db.domains.rows == DomainsAfter(old(db.domains.rows), doc)
    ensures r.Fail? ==> PartlyReconciled(old(db.domains.rows), db.domains.rows, DomainEntries(doc), TakeDeclared)
    ensures r.Fail? ==> exists k :: k in doc.domains && DomainEntries(doc)[k] == Failure(r.error)
                                    && (k in db.domains.rows <==> k in Pruned(old(db.domains.rows), doc.domains.Keys))
  {
    r := ReconcileTable(db.domains, DomainEntries(doc), TakeDeclared);
  }

  /** `provision_mailboxes`. */
  method ProvisionMailboxes(db: Database, doc: Document, files: Files) returns (r: Outcome<ProvisionError>)
    modifies db.mailboxes
    ensures r.Pass? <==> MailboxesOk(doc, files)
    ensures r.Pass? ==> db.mailboxes.rows == MailboxesAfter(old(db.mailboxes.rows), doc, files)
    ensures r.Fail? ==> PartlyReconciled(old(db.mailboxes.rows), db.mailboxes.rows, MailboxEntries(doc, files),
                                         KeepMailboxDomain)
    ensures r.Fail? ==> exists k :: k in doc.mailboxes && MailboxEntries(doc, files)[k] == Failure(r.error)
  {
    r := ReconcileTable(db.mailboxes, MailboxEntries(doc, files), KeepMailboxDomain);
  }

  /** `provision_aliases`. */
  method ProvisionAliases(db: Database, doc: Document) returns (r: Outcome<ProvisionError>)
    modifies db.aliases
    ensures r.Pass? <==> AliasesOk(doc)
    ensures r.Pass? ==> db.aliases.rows == AliasesAfter(old(db.aliases.rows), doc)
    ensures r.Fail? ==> PartlyReconciled(old(db.aliases.rows), db.aliases.rows, AliasEntries(doc), KeepAliasDomain)
    ensures r.Fail? ==> exists k :: k in doc.aliases && AliasEntries(doc)[k] == Failure(r.error)
  {
    r := ReconcileTable(db.aliases, AliasEntries(doc), KeepAliasDomain);
  }

  /* ---------- The run ---------- */

  /** Read the provision file and deserialize it, filling in the defaults. */
  function LoadDocument(path: string, files: Files, parse: string -> Result<RawDocument, string>)
    : (r: Result<Document, ProvisionError>)
    ensures path !in files ==> r == Failure(ProvisionFileUnreadable(path))
    ensures path in files && parse(files[path]).Failure?
            ==> r == Failure(ProvisionFileMalformed(parse(files[path]).error))
    ensures path in files && parse(files[path]).Success? ==> r == Success(WithDefaults(parse(files[path]).value))
  {
    if path !in files then Failure(ProvisionFileUnreadable(path))
    else
      match parse(files[path])
      case Failure(reason) => Failure(ProvisionFileMalformed(reason))
      case Success(raw) => Success(WithDefaults(raw))
  }

  /**
   * What a run that stopped with error `e` leaves: every kind before the
   * failing one is reconciled, the failing kind is partly reconciled, and
   * every later kind is untouched.
   */
  ghost predicate StoppedAt(before: Snapshot, after: Snapshot, doc: Document, files: Files) {
    if !UsersOk(doc, files) then
      && PartlyReconciled(before.users, after.users, UserEntries(doc, files), TakeDeclared)
      && after.domains == before.domains && after.mailboxes == before.mailboxes && after.aliases == before.aliases
    else if !DomainsOk(doc) then
      && after.users == UsersAfter(before.users, doc, files)
      && PartlyReconciled(before.domains, after.domains, DomainEntries(doc), TakeDeclared)
      && after.mailboxes == before.mailboxes && after.aliases == before.aliases
    else if !MailboxesOk(doc, files) then
      && after.users == UsersAfter(before.users, doc, files)
      && after.domains == DomainsAfter(before.domains, doc)
      && PartlyReconciled(before.mailboxes, after.mailboxes, MailboxEntries(doc, files), KeepMailboxDomain)
      && after.aliases == before.aliases
    else
      && after.users == UsersAfter(before.users, doc, files)
      && after.domains == DomainsAfter(before.domains, doc)
      && after.mailboxes == MailboxesAfter(before.mailboxes, doc, files)
      && PartlyReconciled(before.aliases, after.aliases, AliasEntries(doc), KeepAliasDomain)
  }

  /** `provision`. */
  method Provision(db: Database, provisionFile: Option<string>, files: Files,
                   parse: string -> Result<RawDocument, string>)
    returns (r: Outcome<ProvisionError>)
    modifies db.users, db.domains, db.mailboxes, db.aliases
    ensures provisionFile.None? ==> r == Pass && db.Snap() == old(db.Snap())
    ensures provisionFile.Some? && LoadDocument(provisionFile.value, files, parse).Failure?
            ==> r == Fail(LoadDocument(provisionFile.value, files, parse).error) && db.Snap() == old(db.Snap())
    ensures provisionFile.Some? && LoadDocument(provisionFile.value, files, parse).Success?
            ==> var doc := LoadDocument(provisionFile.value, files, parse).value;
                && (r.Pass? <==> DocumentOk(doc, files))
                && (r.Pass? ==> db.Snap() == Run(old(db.Snap()), doc, files))
                && (r.Fail? ==> StoppedAt(old(db.Snap()), db.Snap(), doc, files))
                && (r.Fail? && !UsersOk(doc, files) ==>
                      exists k :: k in doc.users && UserEntries(doc, files)[k] == Failure(r.error))
                && (r.Fail? && UsersOk(doc, files) && !DomainsOk(doc) ==>
                      exists k :: k in doc.domains && DomainEntries(doc)[k] == Failure(r.error))
                && (r.Fail? && UsersOk(doc, files) && DomainsOk(doc) && !MailboxesOk(doc, files) ==>
                      exists k :: k in doc.mailboxes && MailboxEntries(doc, files)[k] == Failure(r.error))
                && (r.Fail? && UsersOk(doc, files) && DomainsOk(doc) && MailboxesOk(doc, files) ==>
                      exists k :: k in doc.aliases && AliasEntries(doc)[k] == Failure(r.error))
  {
    if provisionFile.None? {
      return Pass;
    }
    var loaded := LoadDocument(provisionFile.value, files, parse);
    if loaded.Failure? {
      return Fail(loaded.error);
    }
    var doc := loaded.value;
    r := ProvisionUsers(db, doc, files);
    if r.Fail? {
      return;
    }
    r := ProvisionDomains(db, doc);
    if r.Fail? {
      return;
    }
    r := ProvisionMailboxes(db, doc, files);
    if r.Fail? {
      return;
    }
    r := ProvisionAliases(db, doc);
  }

  /* ---------- Properties of a run ---------- */

  lemma KeepersSettle()
    ensures Settles(TakeDeclared<UserFields>)
    ensures Settles(TakeDeclared<DomainFields>)
    ensures Settles(KeepMailboxDomain)
    ensures Settles(KeepAliasDomain)
  {
  }

  /** Running the engine twice with the same document and files gives the store the first run gave. */
  lemma RunIdempotent(s: Snapshot, doc: Document, files: Files)
    ensures Run(Run(s, doc, files), doc, files) == Run(s, doc, files)
  {
    KeepersSettle();
    ReconciledIdempotent(s.users, OkValues(UserEntries(doc, files)), TakeDeclared);
    ReconciledIdempotent(s.domains, OkValues(DomainEntries(doc)), TakeDeclared);
    ReconciledIdempotent(s.mailboxes, OkValues(MailboxEntries(doc, files)), KeepMailboxDomain);
    ReconciledIdempotent(s.aliases, OkValues(AliasEntries(doc)), KeepAliasDomain);
  }
}
