/**
 * The reconciliation step the provisioning engine applies to each of its
 * four tables (src/provision.rs): read the keys of the rows flagged
 * provisioned, delete the orphans (provisioned but no longer declared),
 * then upsert every declared entry with `provisioned = TRUE`.
 *
 * It is generic in the row's columns `F`, in the error `E` that an entry's
 * validation can produce, and in `keep`, which says what an upsert writes
 * over an existing row: `keep(existing, declared)` is the row's new
 * columns after `ON CONFLICT ... DO UPDATE SET`.
 */
module Reconcile {
  import opened Wrappers
  import opened Store

  /** `select_provisioned`: the keys of the rows with `provisioned = TRUE`. */
  function ProvisionedKeys<F>(t: Rows<F>): (keys: set<string>)
    ensures keys <= t.Keys
  {
    set k | k in t && t[k].provisioned
  }

  /** The rows a pass deletes: flagged provisioned, and no longer declared. */
  function Orphans<F>(t: Rows<F>, declared: set<string>): set<string>
  {
    ProvisionedKeys(t) - declared
  }

  /** The table once the orphans are gone. */
  function Pruned<F>(t: Rows<F>, declared: set<string>): Rows<F>
  {
    t - Orphans(t, declared)
  }

  /** The row that upserting `f` under `k` leaves: inserted as is, or merged by `keep`. */
  function Merged<F>(t: Rows<F>, k: string, f: F, keep: (F, F) -> F): Row<F>
  {
    Row(if k in t then keep(t[k].fields, f) else f, true)
  }

  /** The table `base` after the declared entries with keys in `done` have been upserted. */
  function Upserted<F>(base: Rows<F>, declared: map<string, F>, done: set<string>, keep: (F, F) -> F): Rows<F>
    requires done <= declared.Keys
  {
    map k | k in base.Keys + done :: if k in done then Merged(base, k, declared[k], keep) else base[k]
  }

  /** The table after a complete, successful pass with the declared entries `declared`. */
  function Reconciled<F>(t: Rows<F>, declared: map<string, F>, keep: (F, F) -> F): (r: Rows<F>)
    ensures forall k :: k in r <==> k in declared || (k in t && !t[k].provisioned)
    ensures forall k :: k in r ==> (r[k].provisioned <==> k in declared)
  {
    Upserted(Pruned(t, declared.Keys), declared, declared.Keys, keep)
  }

  /** Exactly the orphans are deleted, and nothing but declared keys is added. */
  lemma ReconciledKeys<F>(t: Rows<F>, declared: map<string, F>, keep: (F, F) -> F)
    ensures t.Keys - Reconciled(t, declared, keep).Keys == Orphans(t, declared.Keys)
    ensures Reconciled(t, declared, keep).Keys == (t.Keys - Orphans(t, declared.Keys)) + declared.Keys
  {
  }

  /** A row that is not flagged provisioned is never deleted; if it is not declared, it is left as it was. */
  lemma ManualRowsKept<F>(t: Rows<F>, declared: map<string, F>, keep: (F, F) -> F, k: string)
    requires k in t && !t[k].provisioned
    ensures k in Reconciled(t, declared, keep)
    ensures k !in declared ==> Reconciled(t, declared, keep)[k] == t[k]
  {
  }

  /**
   * Every declared key is present and flagged provisioned; an existing row
   * with that key, manual or not, is overwritten as `keep` says.
   */
  lemma DeclaredRowsUpserted<F>(t: Rows<F>, declared: map<string, F>, keep: (F, F) -> F, k: string)
    requires k in declared
    ensures k in Reconciled(t, declared, keep)
    ensures Reconciled(t, declared, keep)[k].provisioned
    ensures Reconciled(t, declared, keep)[k].fields
            == if k in t then keep(t[k].fields, declared[k]) else declared[k]
  {
  }

  /** After a pass, the provisioned rows are exactly the declared ones. */
  lemma ReconciledConverges<F>(t: Rows<F>, declared: map<string, F>, keep: (F, F) -> F)
    ensures ProvisionedKeys(Reconciled(t, declared, keep)) == declared.Keys
  {
  }

  /**
   * Upserting the same entry again changes nothing more: neither over a row
   * it merged into, nor over the row it inserted.
   */
  ghost predicate Settles<F(!new)>(keep: (F, F) -> F) {
    && (forall e, d :: keep(keep(e, d), d) == keep(e, d))
    && (forall d :: keep(d, d) == d)
  }

  /** A second pass with the same declared entries leaves the table as the first one left it. */
  lemma ReconciledIdempotent<F(!new)>(t: Rows<F>, declared: map<string, F>, keep: (F, F) -> F)
    requires Settles(keep)
    ensures Reconciled(Reconciled(t, declared, keep), declared, keep) == Reconciled(t, declared, keep)
  {
    var once := Reconciled(t, declared, keep);
    ReconciledConverges(t, declared, keep);
    assert Orphans(once, declared.Keys) == {};
    assert Pruned(once, declared.Keys) == once;
    var twice := Reconciled(once, declared, keep);
    forall k | k in twice
      ensures k in once && twice[k] == once[k]
    {
      if k in declared {
        assert twice[k] == Merged(once, k, declared[k], keep);
      }
    }
    assert twice.Keys == once.Keys;
  }

  predicate AllOk<F, E>(entries: map<string, Result<F, E>>) {
    forall k :: k in entries ==> entries[k].Success?
  }

  /** The validated columns of the entries that passed validation. */
  function OkValues<F, E>(entries: map<string, Result<F, E>>): (declared: map<string, F>)
    ensures declared.Keys <= entries.Keys
    ensures AllOk(entries) ==> declared.Keys == entries.Keys
  {
    map k | k in entries && entries[k].Success? :: entries[k].value
  }

  /**
   * What a pass that stopped at an invalid entry leaves behind: the orphans
   * are gone, some valid entries (`done`) were already upserted, and the
   * rest of the table is as the orphan deletion left it.
   */
  ghost predicate PartlyReconciled<F, E>(before: Rows<F>, after: Rows<F>, entries: map<string, Result<F, E>>,
                                         keep: (F, F) -> F)
  {
    exists done | done <= OkValues(entries).Keys ::
      after == Upserted(Pruned(before, entries.Keys), OkValues(entries), done, keep)
  }

  /** Upserting one more declared entry, `k`, over a partly upserted table. */
  lemma UpsertedStep<F>(base: Rows<F>, declared: map<string, F>, done: set<string>, k: string, keep: (F, F) -> F)
    requires done <= declared.Keys && k in declared && k !in done
    ensures var t := Upserted(base, declared, done, keep);
            t[k := Merged(t, k, declared[k], keep)] == Upserted(base, declared, done + {k}, keep)
  {
  }

  /** `delete_orphans`: delete each orphan by key, one statement at a time. */
  method DeleteOrphans<F>(t: Table<F>, orphans: set<string>)
    modifies t
    ensures t.rows == old(t.rows) - orphans
  {
    var todo := orphans;
    while todo != {}
      invariant todo <= orphans
      invariant t.rows == old(t.rows) - (orphans - todo)
      decreases todo
    {
      var o :| o in todo;
      t.rows := t.rows - {o};
      todo := todo - {o};
    }
  }

  /**
   * The upsert loop of a `provision_*` pass: visit the declared entries in
   * an unspecified order (that of a hash map); stop at the first one whose
   * validation failed, otherwise insert it, or update the existing row,
   * and flag it provisioned.
   */
  method UpsertDeclared<F, E>(t: Table<F>, entries: map<string, Result<F, E>>, keep: (F, F) -> F)
    returns (r: Outcome<E>)
    modifies t
    ensures r.Pass? <==> AllOk(entries)
    ensures r.Pass? ==> t.rows == Upserted(old(t.rows), OkValues(entries), entries.Keys, keep)
    ensures r.Fail? ==> exists k :: k in entries && entries[k] == Failure(r.error)
                                    && (k in t.rows <==> k in old(t.rows))
                                    && (k in t.rows ==> t.rows[k] == old(t.rows)[k])
    ensures r.Fail? ==> exists done | done <= OkValues(entries).Keys ::
                          t.rows == Upserted(old(t.rows), OkValues(entries), done, keep)
  {
    ghost var base := t.rows;
    ghost var declared := OkValues(entries);
    var todo := entries.Keys;
    while todo != {}
      invariant todo <= entries.Keys
      invariant entries.Keys - todo <= declared.Keys
      invariant t.rows == Upserted(base, declared, entries.Keys - todo, keep)
      decreases todo
    {
      var k :| k in todo;
      match entries[k] {
        case Failure(e) =>
          assert entries.Keys - todo <= declared.Keys;
          assert k in t.rows <==> k in base;
          return Fail(e);
        case Success(f) =>
          UpsertedStep(base, declared, entries.Keys - todo, k, keep);
          t.rows := t.rows[k := Merged(t.rows, k, f, keep)];
      }
      todo := todo - {k};
    }
    assert entries.Keys - todo == entries.Keys;
    return Pass;
  }

  /**
   * One `provision_*` pass on one table: read the provisioned keys, delete
   * the orphans, then upsert the declared entries.
   */
  method ReconcileTable<F, E>(t: Table<F>, entries: map<string, Result<F, E>>, keep: (F, F) -> F)
    returns (r: Outcome<E>)
    modifies t
    ensures r.Pass? <==> AllOk(entries)
    ensures r.Pass? ==> t.rows == Reconciled(old(t.rows), OkValues(entries), keep)
    ensures r.Fail? ==> exists k :: k in entries && entries[k] == Failure(r.error)
                                    && (k in t.rows <==> k in Pruned(old(t.rows), entries.Keys))
    ensures r.Fail? ==> PartlyReconciled(old(t.rows), t.rows, entries, keep)
  {
    var known := ProvisionedKeys(t.rows);
    var orphaned := known - entries.Keys;
    DeleteOrphans(t, orphaned);
    assert t.rows == Pruned(old(t.rows), entries.Keys);
    r := UpsertDeclared(t, entries, keep);
  }

  /* ---------- The `+N` figure of a pass's log line ---------- */

  /**
   * The number of declared entries a pass logs as added, as the source
   * computes it in `usize`, left to right: `declared - known + orphaned`.
   * None is the subtraction going below zero, which panics in a debug build.
   */
  function AddedFigureAsWritten(declared: set<string>, known: set<string>): (r: Option<nat>)
    ensures r.None? <==> |declared| < |known|
    ensures r.Some? ==> r.value == |declared| - |known| + |known - declared|
  {
    if |declared| < |known| then None else Some(|declared| - |known| + |known - declared|)
  }

  /**
   * A document that drops two of three provisioned users: an ordinary
   * pass, which deletes two orphans, yet the figure underflows.
   */
  lemma AddedFigureUnderflows()
    ensures var known := {"alice", "bob", "carol"};
            && Orphans(map["alice" := Row(1, true), "bob" := Row(2, true), "carol" := Row(3, true)], {"alice"})
               == {"bob", "carol"}
            && AddedFigureAsWritten({"alice"}, known) == None
  {
    var known := {"alice", "bob", "carol"};
    assert |known| == 3;
  }

  /** The figure as intended: the declared entries not yet provisioned. */
  function AddedFigure(declared: set<string>, known: set<string>): (n: nat)
    ensures n == |declared| + |known - declared| - |known|
  {
    |declared - known|
  }

  /** The intended figure counts the rows a complete pass newly flags provisioned. */
  lemma AddedFigureCounts<F>(t: Rows<F>, declared: map<string, F>, keep: (F, F) -> F)
    ensures AddedFigure(declared.Keys, ProvisionedKeys(t))
            == |ProvisionedKeys(Reconciled(t, declared, keep)) - ProvisionedKeys(t)|
  {
    ReconciledConverges(t, declared, keep);
  }
}
