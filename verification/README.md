# idmail: provisioning engine and account server functions

idmail is an administration tool for a mail server. Administrators, users
and mailbox accounts manage four tables in one relational store:

- `users`
- `domains`
- `mailboxes`
- `aliases`

Every row carries a `provisioned` flag. It separates rows managed by the
declarative provisioning engine from rows created through the web interface.

The model covers two parts of the program.

- **The provisioning engine** (`src/provision.rs`). It reads a desired-state
  document and reconciles the four tables with it, in the order users,
  domains, mailboxes, aliases.
  - Provisioned rows that are no longer declared are deleted.
  - Every declared entry is validated, resolving `%{file:PATH}%` secrets,
    and then upserted with `provisioned = TRUE`.
  - A run stops at the first invalid entry.
- **The account server functions** (`src/auth.rs`, `src/users.rs`,
  `src/domains.rs`, `src/mailboxes.rs`):
  - the gates `auth_any`, `auth_user` and `auth_admin`;
  - the password rule and hashing;
  - API-token login;
  - creating, editing, toggling, deleting, listing and counting users,
    domains and mailboxes;
  - the normalization of owners and of the `public` flag, depending on who
    is asking.

The store is `Store.Database`: four `Store.Table` objects whose `rows` map
holds the rows by primary key. Every SQL statement becomes an update of
`rows` inside a method with a `modifies` clause. Each method is proved
against a specification function, and that function's properties are
proved as lemmas:

- `Reconcile.Reconciled` for a provisioning pass;
- `Provision.Run` for a complete run;
- `Domains.DomainEdit`, `Mailboxes.MailboxWrite`, `Users.EditedUsers` and
  others for the server functions.

Some things the program gets from outside become parameters:

- **The environment and file system.** `IDMAIL_PROVISION` is an
  `Option<string>`. The readable files are a map from path to contents.
- **The TOML deserializer** is a function from text to a document, or an
  error.
- **Argon2 hashing** is a function from a password to a PHC string.
  Verification is a function of a hash and a password.
- **`getrandom`** is the 24 random bytes themselves.
- **`aliases::validate_address`** is a function of the local part, the
  domain and the reserved-names flag. `src/aliases.rs` is not part of this
  model.
- **The session's current user** is an `Option<Auth.User>`, passed to
  every gate.

Lengths are byte lengths of UTF-8, as Rust's `str::len` counts them
(`Text.Utf8Len`). `str::trim` removes Unicode `White_Space` characters
(`Text.Trim`).

## Model

| member | source | states |
|---|---|---|
| Text.Trim | src/provision.rs:74 | the trimmed text neither starts nor ends with white space |
| Text.LeadingCount | src/provision.rs:74 | the count of leading characters `str::trim_start` cuts: all of them white space, and the next character, if any, is not |
| Text.TrailingCount | src/provision.rs:74 | the count of trailing characters `str::trim_end` cuts: all of them white space, and the character before them, if any, is not |
| Text.TrimFrames | src/domains.rs:148 | trimming removes only white space: the text is the leading white space, then the trimmed text, then the trailing white space |
| Text.Utf8Len | src/users.rs:32-34 | the byte length lies between the character count and four times it, and is 0 exactly for the empty text |
| Text.AsciiLen | src/users.rs:32-34 | for ASCII text, the byte length equals the character count |
| Text.SplitOnce | src/provision.rs:215-217 | None exactly when the separator is absent; otherwise the text is left + separator + right, and the left part has no separator (the split is at the first one) |
| Text.SplitOnceJoin | src/mailboxes.rs:296-300 | splitting a joined text gives the parts back when the left part has no separator |
| Text.StripPrefix | src/provision.rs:72-78 | Some exactly when the text starts with the prefix, and then the text is prefix + rest |
| Text.StripSuffix | src/provision.rs:72-78 | Some exactly when the text ends with the suffix, and then the text is rest + suffix |
| Text.HexEncode | src/users.rs:79 | two lower-case hexadecimal digits per byte |
| Text.HexRoundTrip | src/users.rs:77-79 | decoding the hexadecimal encoding gives back the bytes |
| Text.HexEncodeLen | src/users.rs:77-79 | the encoding of n bytes is 2n bytes of UTF-8 |
| Store.Replaced | src/domains.rs:198-215 | an UPDATE that matched one row changes only its columns; it keeps every key and the `provisioned` flag |
| Store.Rekeyed | src/mailboxes.rs:156-177 | an UPDATE that also sets the primary key moves the row to the new key; the flag is kept and other rows are unchanged |
| Reconcile.ProvisionedKeys | src/provision.rs:80-85 | the keys of rows flagged provisioned, a subset of the table's keys |
| Reconcile.Reconciled | src/provision.rs:101-139 | the table after a successful pass holds the declared rows and the rows not flagged provisioned, and a row is flagged exactly when it is declared |
| Reconcile.DeleteOrphans | src/provision.rs:87-99 | deleting the orphans one by one leaves the table minus exactly those keys |
| Reconcile.UpsertDeclared | src/provision.rs:113-136 | in any visiting order: Ok exactly when every entry is valid, and then every declared entry has been upserted; on an error the failing entry's row is untouched and some valid entries have been upserted |
| Reconcile.ReconcileTable | src/provision.rs:101-139 | one pass: Ok exactly when every entry is valid, and then the table equals `Reconciled`; on an error the orphans are gone and the pass is partly done |
| Reconcile.ReconciledKeys | src/provision.rs:101-111 | a pass deletes exactly the orphans (provisioned and undeclared) and adds only declared keys |
| Reconcile.ManualRowsKept | src/provision.rs:80-99 | a row not flagged provisioned is never deleted; if it is undeclared, it is left as it was |
| Reconcile.DeclaredRowsUpserted | src/provision.rs:114-134 | every declared key ends up present and flagged provisioned; an existing row, manual or not, is overwritten as the `ON CONFLICT` clause says |
| Reconcile.ReconciledConverges | src/provision.rs:101-139 | after a pass, the provisioned keys are exactly the declared keys |
| Reconcile.ReconciledIdempotent | src/provision.rs:101-139 | a second pass with the same entries changes nothing, when the conflict rule settles |
| Reconcile.OkValues | src/provision.rs:113-114 | the validated entries are a subset of the declared ones, and all of them when every entry is valid |
| Reconcile.AddedFigureAsWritten | src/provision.rs:104-109 | the logged `+N` figure as computed in `usize`; None (an overflow) exactly when fewer entries are declared than are provisioned |
| Reconcile.AddedFigureUnderflows | src/provision.rs:109 | dropping two of three provisioned users from the document makes the figure underflow, although the pass is ordinary |
| Reconcile.AddedFigure | src/provision.rs:109 | the intended figure equals declared − known + orphaned, computed without underflow |
| Reconcile.AddedFigureCounts | src/provision.rs:109 | the intended figure counts the rows a complete pass newly flags provisioned |
| Provision.UserDefaults | src/provision.rs:12-19 | an omitted `admin` is false and an omitted `active` is true |
| Provision.DomainDefaults | src/provision.rs:21-30 | an omitted `public` is false, an omitted `active` is true, and `catch_all` stays optional |
| Provision.MailboxDefaults | src/provision.rs:32-40 | an omitted `active` is true, and `api_token` stays optional |
| Provision.AliasDefaults | src/provision.rs:42-50 | an omitted `active` is true, and `comment` stays optional |
| Provision.Section | src/provision.rs:52-62 | an omitted section is empty; every entry of a present one takes its defaults under the same key |
| Provision.WithDefaults | src/provision.rs:52-62 | the document declares, in each of the four sections, exactly the entries the file names; an omitted section declares none |
| Provision.FileRefIff | src/provision.rs:72-73 | a value names a file exactly when it is `%{file:` + path + `}%` |
| Provision.ValueOrFile | src/provision.rs:72-78 | fails exactly when the value names a file that cannot be read; any other value is used as it is; a secret read from a file neither starts nor ends with white space |
| Provision.ValueOrFileReads | src/provision.rs:72-78 | a file reference resolves to the trimmed contents of the file, and fails when the file cannot be read |
| Provision.ValueOrFileLiteral | src/provision.rs:72-78 | any other value is used as it is |
| Provision.UserEntry | src/provision.rs:113-114 | a declared user is valid exactly when its password hash resolves; it is stored with the resolved hash and its flags |
| Provision.DomainEntry | src/provision.rs:157-164 | a declared domain fails exactly when its owner is not a declared user; a missing catch-all is stored as the empty text |
| Provision.MailboxEntry | src/provision.rs:215-233 | the checks in the source's order: an '@' in the address, a declared domain, a declared owner, readable secrets, and an API token of at least 16 bytes; a valid entry is stored on the domain after the first '@' |
| Provision.AliasEntry | src/provision.rs:285-299 | an '@' in the address, a declared domain, and an owner that is a declared user or a declared mailbox; an absent comment is stored as the empty text |
| Provision.ProvisionUsers | src/provision.rs:101-139 | Ok exactly when every declared user is valid, and then the table is reconciled; otherwise it is partly reconciled and the error is some entry's |
| Provision.ProvisionDomains | src/provision.rs:141-196 | as for users, for domains |
| Provision.ProvisionMailboxes | src/provision.rs:198-266 | as for users, with the conflict rule that keeps an existing row's `domain` |
| Provision.ProvisionAliases | src/provision.rs:268-332 | as for users, with the conflict rule that keeps an existing row's `domain` |
| Provision.UsersAfter | src/provision.rs:101-139 | after a successful user pass, the provisioned users are exactly the declared ones |
| Provision.DomainsAfter | src/provision.rs:141-196 | after a successful domain pass, the provisioned domains are exactly the declared ones |
| Provision.MailboxesAfter | src/provision.rs:198-266 | after a successful mailbox pass, the provisioned mailboxes are exactly the declared ones |
| Provision.AliasesAfter | src/provision.rs:268-332 | after a successful alias pass, the provisioned aliases are exactly the declared ones |
| Provision.Run | src/provision.rs:344-347 | after a run over a valid document, each table's provisioned rows are exactly the document's entries of that kind |
| Provision.LoadDocument | src/provision.rs:340-342 | an unreadable file and a malformed document are distinct errors; otherwise the document takes its defaults |
| Provision.Provision | src/provision.rs:334-350 | without `IDMAIL_PROVISION`, nothing changes; a load error changes nothing; otherwise Ok exactly when the whole document is valid, and then the store equals `Run`; a failed run leaves earlier kinds reconciled, the failing kind partly reconciled and later kinds untouched, and returns the error of an invalid entry of the first kind that is not all valid |
| Provision.KeepersSettle | src/provision.rs:125-132 | each table's conflict rule settles: upserting the same entry twice is the same as once |
| Provision.RunIdempotent | src/provision.rs:334-350 | running the engine twice with the same document and files leaves the store as one run does |
| Auth.Accounts | src/auth.rs:36-49 | the `UNION` yields nothing exactly when neither table has the name, and only rows with that name |
| Auth.AccountShape | src/auth.rs:36-49 | a `users` row has no mailbox owner and keeps its admin flag; a mailbox row carries its owner and is never admin |
| Auth.Get | src/auth.rs:36-49 | None exactly when neither table has the name; otherwise one of the `UNION`'s rows |
| Auth.TokenHolders | src/auth.rs:57-60 | exactly the mailboxes whose `api_token` equals the token |
| Auth.GetByApiToken | src/auth.rs:51-75 | a token shorter than 16 bytes is refused; a result is an active holder of the token; when all holders are active and one exists, it succeeds; when none is active, it fails |
| Auth.AuthAny | src/auth.rs:139-141 | succeeds exactly for a logged-in session, with its user; otherwise "Unauthorized" |
| Auth.AuthUser | src/auth.rs:128-135 | succeeds exactly for a logged-in account that is not a mailbox |
| Auth.AuthAdmin | src/auth.rs:117-124 | succeeds exactly for a logged-in administrator |
| Auth.GatesNested | src/auth.rs:117-141 | for every loadable account: admin implies user implies any; a mailbox account passes only `auth_any` |
| Auth.AuthenticateUser | src/auth.rs:144-173 | every refusal carries the same message; success returns a loaded account whose hash verifies the password and which is active; an unknown name, or no matching active account, fails |
| Auth.SessionFlags | src/auth.rs:88-98 | a loaded account is authenticated and never anonymous; it is active exactly when its row is |
| Users.AsciiPasswordBounds | src/users.rs:32-34 | for ASCII passwords, valid means 12 to 1024 characters |
| Users.IsValidPw | src/users.rs:32-34 | a valid password has 12 to 1024 bytes, and so between 3 and 1024 characters |
| Users.MkPasswordHash | src/users.rs:131-151 | fails with "Password is invalid." exactly when the password breaks the rule; otherwise the hash of the password |
| Users.FormMatchesServer | src/users.rs:377-383 | the dialog flags a password exactly when the server would refuse it: always checked on create, and only when non-empty on edit |
| Users.HasInvalidPassword | src/users.rs:377-383 | a valid password is never flagged; an empty password is flagged exactly when the dialog creates a new account |
| Users.UserEdited | src/users.rs:193-204 | an edit sets both flags, and replaces the hash only when a new one is given |
| Users.EditSets | src/users.rs:193-204 | the `SET` clauses, in the order they are built, leave the columns `UserEdited` describes |
| Users.EditedUsers | src/users.rs:193-207 | the UPDATE changes at most the named row; keys, the flag and other rows are unchanged |
| Users.CreateOrUpdateUser | src/users.rs:177-218 | administrators only; an edit updates the row named by the old username, ignoring the new username, and an empty password keeps the hash; a create validates the password, refuses an existing name and inserts a manual row |
| Users.UpdateUserAdminOrActive | src/users.rs:221-233 | administrators only; sets both flags of the named user and nothing else |
| Users.DeleteUser | src/users.rs:115-128 | administrators only; removes exactly the named user |
| Users.WithToken | src/users.rs:81-87 | only the named mailbox's `api_token` changes |
| Users.RegenerateApiKey | src/users.rs:71-90 | only a mailbox account may regenerate; the token is the hexadecimal encoding of the random bytes and is stored on that mailbox |
| Users.RegeneratedTokenAccepted | src/users.rs:77-79 | a regenerated token is 48 bytes, so never too short for `get_by_api_token`; it decodes back to the bytes, and the mailbox holds it |
| Users.MailboxPasswordChangeLost | src/users.rs:154-174 | as written: a mailbox account's password change reports Ok and leaves the store, and so the hash checked at login, unchanged |
| Users.PasswordChangedAsWritten | src/users.rs:164-167 | as written: only the `users` table can change, and it keeps its keys; mailboxes, domains and aliases are untouched |
| Users.PasswordChangeTakesEffect | src/users.rs:154-174 | as intended: after the change, loading the account yields it with the new hash, for both kinds of account; domains and aliases are untouched |
| Users.PasswordChanged | src/users.rs:154-174 | as intended: the write goes to the account's own table and keeps its keys; the other account table, domains and aliases are untouched |
| Users.ChangePassword | src/users.rs:154-174 | requires a logged-in session that re-authenticates with the current password and a valid new password; on success the account's own row gets the new hash, and on failure nothing changes |
| Domains.EffectiveOwner | src/domains.rs:147-150 | a non-administrator always owns what they write; an administrator's trimmed owner is used, and an empty one falls back to the caller |
| Domains.AdminOwnerKept | src/domains.rs:147-150 | an administrator's owner without surrounding white space is stored as given |
| Domains.EffectivePublic | src/domains.rs:152 | public exactly when requested by an administrator |
| Domains.AllowedDomains | src/domains.rs:43-57 | any logged-in account; exactly the active domains that are public or owned by the caller or by the caller's owner, each with its owner |
| Domains.OwnDomains | src/domains.rs:66-69 | every row for an administrator, else exactly the caller's own |
| Domains.ListDomains | src/domains.rs:60-92 | only accounts that are not mailboxes; the rows `OwnDomains` gives |
| Domains.DomainCount | src/domains.rs:95-108 | the number of rows `list_domains` can show; all of them for an administrator |
| Domains.ApplyEditSets | src/domains.rs:155-170 | the edit's clauses set every column, and the key only for an administrator |
| Domains.NonAdminDomainEdit | src/domains.rs:154-177 | a non-administrator's edit always succeeds and keeps every key; on a domain they own it sets the requested catch-all and `active`, keeps it theirs and private and keeps its provisioned flag; on any other domain it changes nothing |
| Domains.AdminDomainEdit | src/domains.rs:154-177 | an administrator's edit moves the domain to the new key unless that key is taken, and stores the columns as given with the owner normalized |
| Domains.DomainEdit | src/domains.rs:154-177 | an edit changes no domain but the edited one, and fails only when an administrator moves it onto another existing domain |
| Domains.EditDomain | src/domains.rs:154-177 | the edit branch: the clauses built one by one, run on the matched row, leave the table `DomainEdit` describes; a failure changes nothing |
| Domains.DomainCreate | src/domains.rs:178-188 | refuses an existing domain; otherwise inserts a manual row with normalized owner and `public` |
| Domains.CreateOrUpdateDomain | src/domains.rs:130-191 | editing needs `auth_user` and does what `DomainEdit` says; creating needs `auth_admin` and does what `DomainCreate` says; a failure changes nothing |
| Domains.DomainToggleScoped | src/domains.rs:194-216 | a toggle changes at most the two flags of the named domain; a non-administrator only touches their own domain and never makes it public |
| Domains.DomainToggle | src/domains.rs:194-216 | when the caller may touch the named domain, its `public` becomes the requested value if the caller is an administrator (false otherwise) and its `active` the requested value; otherwise nothing changes; every key, every other domain, the catch-all, the owner and the provisioned flag are kept |
| Domains.UpdateDomainPublicAndActive | src/domains.rs:194-216 | only accounts that are not mailboxes; the table becomes `DomainToggle` |
| Domains.DeleteDomain | src/domains.rs:111-127 | administrators only; removes exactly the named domain |
| Domains.EditStatementAsWrittenUnbound | src/domains.rs:156-157 | for every edit, the SQL text the builder accumulates as written has `catch_all = ` followed by literal text (`,` or ` WHERE`) instead of a placeholder |
| Domains.SetClausesAssign | src/domains.rs:155-170 | every piece of SQL text in the `SET` clauses is one assignment, with no other `=`, and is followed by a bound value |
| Domains.RenderBound | src/domains.rs:155-176 | a statement whose SQL pieces are single assignments, each followed by a bound value, renders to text where every `= ` is followed by a placeholder |
| Domains.EditStatementBound | src/domains.rs:155-176 | in the SQL text of the intended statement every `= ` is followed by a placeholder, and its first value is the first clause's |
| Mailboxes.AllowedTargets | src/mailboxes.rs:44-58 | any logged-in account; a mailbox account only itself, anyone else exactly the mailboxes they own |
| Mailboxes.OwnMailboxes | src/mailboxes.rs:67-70 | every row for an administrator, else exactly the caller's own |
| Mailboxes.ListMailboxes | src/mailboxes.rs:61-91 | only accounts that are not mailboxes; the rows `OwnMailboxes` gives |
| Mailboxes.MailboxCount | src/mailboxes.rs:94-107 | the number of rows `list_mailboxes` can show; all of them for an administrator |
| Mailboxes.MailboxDelete | src/mailboxes.rs:110-125 | removes the named mailbox exactly when the caller may touch it |
| Mailboxes.DeleteMailbox | src/mailboxes.rs:110-125 | only accounts that are not mailboxes; the table becomes `MailboxDelete` |
| Mailboxes.UpdateMailboxActive | src/mailboxes.rs:195-211 | only accounts that are not mailboxes; sets the flag of the named mailbox if the caller may touch it |
| Mailboxes.DeleteAndToggleScoped | src/mailboxes.rs:110-125 | a delete or toggle leaves every other mailbox, and for a non-administrator everyone else's, as it was; a toggle changes nothing but `active` |
| Mailboxes.MailboxToggle | src/mailboxes.rs:195-211 | when the caller may touch the named mailbox, its `active` becomes the requested value; otherwise nothing changes; every key, every other mailbox and every other column are kept |
| Mailboxes.MailboxEdited | src/mailboxes.rs:157-171 | an edit sets the domain, flag and owner; it keeps the API token, and keeps the hash unless a new one is given |
| Mailboxes.ApplyEditSets | src/mailboxes.rs:157-171 | the edit's clauses, in the order they are built, move the row to the validated address with the columns `MailboxEdited` describes |
| Mailboxes.MailboxEdit | src/mailboxes.rs:156-177 | an edit changes no mailbox but the edited one and keeps its API token; it fails only when the new address belongs to another mailbox |
| Mailboxes.MailboxEditChanges | src/mailboxes.rs:156-177 | the only row an edit adds or changes is the edited mailbox under its new address, with the columns `MailboxEdited` gives |
| Mailboxes.UsableDomains | src/mailboxes.rs:147-151 | exactly the domains `allowed_domains` returns for the caller, with their owners |
| Mailboxes.MailboxWrite | src/mailboxes.rs:128-192 | an unusable domain is refused; a refused address fails with the validator's message; a create refuses an invalid password and an existing address, and otherwise adds exactly one row: at the validated address, on the requested domain, with the password's hash, no API token, the requested flag, the normalized owner, not provisioned; an edit refuses an invalid non-empty password and otherwise is `MailboxEdit` at the validated address with the normalized owner; no other existing mailbox changes |
| Mailboxes.MailboxWriteRules | src/mailboxes.rs:128-192 | a domain the caller may not use is refused; a write that changes something uses a domain the caller may use; a create validated its password; every row added or changed, including an edit that keeps its address, is on the requested domain; an edit with an empty password keeps the stored hash on the row it writes |
| Mailboxes.MailboxEditScoped | src/mailboxes.rs:156-177 | a non-administrator's edit leaves everyone else's mailboxes as they were, and the row it changes stays theirs |
| Mailboxes.MailboxWriteScoped | src/mailboxes.rs:128-192 | a non-administrator's create or edit leaves everyone else's mailboxes as they were, and everything it adds or changes is theirs |
| Mailboxes.EditMailbox | src/mailboxes.rs:156-177 | the edit branch: an invalid non-empty password is refused; otherwise the clauses built one by one, run on the matched row, leave the table `MailboxEdit` describes; a failure changes nothing |
| Mailboxes.CreateOrUpdateMailbox | src/mailboxes.rs:128-192 | only accounts that are not mailboxes; the table becomes what `MailboxWrite` says, and a failure changes nothing |
| Mailboxes.SplitAddress | src/mailboxes.rs:296-300 | the split is at the first '@', and without '@' the whole address with no domain |
| Mailboxes.SplitAddressJoin | src/mailboxes.rs:296-300 | splitting a joined address gives back its parts |
| Mailboxes.ModalFields | src/mailboxes.rs:296-306 | the dialog keeps the address's own domain when it is usable; otherwise the first usable domain, or none |
| Mailboxes.ModalRoundTrip | src/mailboxes.rs:296-306 | when the domain is still usable, the prefilled parts join back to the address |

## Left out

- The web interface (tables, dialogs, routing), `src/main.rs`, `src/api.rs`, `src/database.rs`, `src/lib.rs`, and the alias server functions of `src/aliases.rs`. Of the dialogs, only the password memo and the mailbox address split are modelled.
- `aliases::validate_address` is a parameter: its rules for local parts and reserved names are not modelled.
- Argon2 hashing and verification, `getrandom`, the TOML deserializer, environment variables and file reads are parameters. Their own failures are not modelled: a hashing error, a `getrandom` error, and a file read error other than the file being absent.
- Log output is not modelled. The `+N` figure, whose overflow is listed under Findings, is the one exception.
- The `async` runtime and concurrency are not modelled. Every statement is atomic, and nothing else writes to the store between them. The source uses no transactions, which the partial-progress clauses of the provisioning passes reflect.
- SQL text is not modelled. Statements are updates of the `rows` maps. The only exception is the domain edit statement behind the finding below, whose text is rendered with SQLite's `?` placeholders.
- Store failures other than a primary-key conflict are not modelled: connection errors, foreign-key rules, cascades and schema defaults. A server function's INSERT stores `provisioned` as false.
- The session cache (`cache_clear_user`) and the session library are not modelled. Its "Missing sql pool" error is among them.
- `list_users`, `admin_count` and `user_count` are not modelled. Nor are the search, sorting and paging of `list_domains` and `list_mailboxes`: the lists are maps and the counts are sizes.
- Mailboxes.AllowedTargets: returns a set, not the ordered vector the store returns.
- Auth.Get: when both tables have the name, either row may come back. The `UNION` row order is not modelled.
- Auth.GetByApiToken: when several mailboxes hold the same token, any one of them may come back.
- The API's stripping of a `Bearer ` prefix before the token lookup is not modelled.
- Reconcile.UpsertDeclared: the hash-map visiting order is any order.
- Users.IsValidPw: the source's user dialog speaks of "between 12 and 512 characters". `is_valid_pw`, and this model, allow up to 1024 bytes.
- Domains.CreateOrUpdateDomain: models the intended edit, not the malformed statement the source builds (see Findings).
- Domains.EditDomain: models the intended edit, not the malformed statement the source builds (see Findings).
- Domains.DomainEdit: models the intended edit, not the malformed statement the source builds (see Findings).
- Domains.AdminDomainEdit: models the intended edit, not the malformed statement the source builds (see Findings).
- Domains.NonAdminDomainEdit: models the intended edit, not the malformed statement the source builds (see Findings).
- Users.ChangePassword: models the intended write to the account's own table, not the `users`-only statement the source builds (see Findings).

## Findings

| source | as written | input that shows it | evidently intended | confidence | as-written member | corrected member |
|---|---|---|---|---|---|---|
| src/domains.rs:156-157 | the query builder starts with `UPDATE domains SET catch_all = ` and then pushes `, catch_all = `, so the text sent is `UPDATE domains SET catch_all = , catch_all = ?, ...`: the first assignment has no value and the statement is malformed | any edit of an existing domain, by any caller | `UPDATE domains SET catch_all = ?, ...`: one assignment per column, each followed by its value | high, not executed | Domains.EditStatementAsWrittenUnbound | Domains.EditStatementBound |
| src/users.rs:154-174 | `change_password` updates `users` only. It is guarded by `auth_any`, so a logged-in mailbox session can call it as a server function under `/api/` (src/main.rs:91), and the account settings offer mailbox sessions a mailbox-only button (src/users.rs:644-647) | mailbox `bob@example.com`, owned by `alice`, changes its password: the call reports Ok and the stored hash stays the old one | write the new hash to the row the account was loaded from, `users` or `mailboxes` | medium, not executed | Users.MailboxPasswordChangeLost | Users.PasswordChangeTakesEffect |
| src/provision.rs:109 | the logged figure `declared - known + orphaned` subtracts in `usize` before adding | three provisioned users, and a document that declares only one of them: `1 - 3` | the number of declared entries not yet provisioned, with no underflow | high for debug builds (which panic), not executed | Reconcile.AddedFigureUnderflows | Reconcile.AddedFigureCounts |
