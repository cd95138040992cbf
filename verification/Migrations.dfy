/**
  The migration runner (src/lib/migrations.ts). Each migration runs with the insertion of its id
  in one transaction; a crash or a throwing migration cuts a run short between transactions.
 */
module Migrations {

  /** A migration; what it does to the schema is left open. */
  datatype Migration<!S> = Migration(id: string, up: S -> S)

  datatype Db<S> = Db(schema: S, recorded: set<string>)

  predicate DistinctIds<S>(ms: seq<Migration<S>>) {
    forall i, j | 0 <= i < j < |ms| :: ms[i].id != ms[j].id
  }

  function Ids<S>(ms: seq<Migration<S>>): set<string> {
    set i | 0 <= i < |ms| :: ms[i].id
  }

  /** All the given migrations applied to a schema, once each, in order. */
  function Apply<S>(ms: seq<Migration<S>>, schema: S): S {
    if ms == [] then schema else ms[|ms| - 1].up(Apply(ms[..|ms| - 1], schema))
  }

  function Commit<S>(db: Db<S>, m: Migration<S>): Db<S> {
    Db(m.up(db.schema), db.recorded + {m.id})
  }

  /** One run over `ms` that gets to commit at most `budget` transactions; `applied` is read once. */
  function RunCut<S>(ms: seq<Migration<S>>, applied: set<string>, db: Db<S>, budget: nat): Db<S>
    decreases |ms|
  {
    if ms == [] || budget == 0 then db
    else if ms[0].id in applied then RunCut(ms[1..], applied, db, budget)
    else RunCut(ms[1..], applied, Commit(db, ms[0]), budget - 1)
  }

  /** A run by a release that ships the first `known` migrations, cut after `budget` commits. */
  datatype Call = Call(known: nat, budget: nat)

  function Calls<S>(all: seq<Migration<S>>, db: Db<S>, cs: seq<Call>): Db<S>
    requires forall c | c in cs :: c.known <= |all|
    decreases |cs|
  {
    if cs == [] then db
    else Calls(all, RunCut(all[..cs[0].known], db.recorded, db, cs[0].budget), cs[1..])
  }

  /** The database is exactly the first k migrations applied to the initial schema. */
  predicate AtPrefix<S(==)>(all: seq<Migration<S>>, init: S, db: Db<S>, k: nat) {
    k <= |all| && db.recorded == Ids(all[..k]) && db.schema == Apply(all[..k], init)
  }

  /** How far a call gets from k. */
  function Reached(k: nat, c: Call): nat {
    if c.known <= k then k else if k + c.budget <= c.known then k + c.budget else c.known
  }

  lemma CommitExtends<S>(all: seq<Migration<S>>, init: S, db: Db<S>, k: nat)
    requires AtPrefix(all, init, db, k) && k < |all|
    ensures AtPrefix(all, init, Commit(db, all[k]), k + 1)
  {
    assert all[..k + 1][..k] == all[..k];
    var more := all[..k + 1];
    forall id | id in Ids(all[..k]) + {all[k].id} ensures id in Ids(more) {
      if id in Ids(all[..k]) {
        var i :| 0 <= i < k && all[..k][i].id == id;
        assert more[i].id == id;
      } else {
        assert more[k].id == id;
      }
    }
  }

  lemma RecordedOnes<S>(all: seq<Migration<S>>, k0: nat, i: nat)
    requires DistinctIds(all) && k0 <= |all| && i < |all|
    ensures all[i].id in Ids(all[..k0]) <==> i < k0
  {
    if i < k0 {
      assert all[..k0][i].id == all[i].id;
    }
  }

  /** From position i of the list, with the first k0 recorded when the run began and k by now. */
  lemma {:induction false} RunCutFrom<S>(all: seq<Migration<S>>, init: S, db: Db<S>, k0: nat, k: nat, i: nat, c: Call)
    requires DistinctIds(all) && c.known <= |all| && i <= c.known
    requires AtPrefix(all, init, db, k) && k0 <= k <= |all|
    requires k == if i <= k0 then k0 else i
    ensures AtPrefix(all, init, RunCut(all[..c.known][i..], Ids(all[..k0]), db, c.budget), Reached(k, c))
    decreases c.known - i
  {
    hide AtPrefix, Apply, Ids, Commit, DistinctIds;
    var ms := all[..c.known][i..];
    if ms != [] && c.budget > 0 {
      assert ms[0] == all[i] && ms[1..] == all[..c.known][i + 1..];
      RecordedOnes(all, k0, i);
      if i < k0 {
        RunCutFrom(all, init, db, k0, k, i + 1, c);
      } else {
        CommitExtends(all, init, db, k);
        RunCutFrom(all, init, Commit(db, all[i]), k0, k + 1, i + 1, c.(budget := c.budget - 1));
      }
    }
  }

  function ReachedAll(k: nat, cs: seq<Call>): nat
    decreases |cs|
  {
    if cs == [] then k else ReachedAll(Reached(k, cs[0]), cs[1..])
  }

  /**
    After any sequence of runs, each cut short anywhere and by any release (older ones know fewer
    migrations), the database is a prefix of the migrations applied once each in order.
   */
  lemma {:induction false} AlwaysAPrefix<S>(all: seq<Migration<S>>, init: S, db: Db<S>, k: nat, cs: seq<Call>)
    requires DistinctIds(all) && AtPrefix(all, init, db, k)
    requires forall c | c in cs :: c.known <= |all|
    ensures AtPrefix(all, init, Calls(all, db, cs), ReachedAll(k, cs))
    ensures k <= ReachedAll(k, cs) <= |all|
    decreases |cs|
  {
    if cs != [] {
      var c := cs[0];
      RunCutFrom(all, init, db, k, k, 0, c);
      assert all[..c.known][0..] == all[..c.known];
      AlwaysAPrefix(all, init, RunCut(all[..c.known], db.recorded, db, c.budget), Reached(k, c), cs[1..]);
    }
  }

  /** An uncut run of all migrations completes, and any later run changes nothing. */
  lemma CompleteThenNoOp<S>(all: seq<Migration<S>>, init: S, db: Db<S>, k: nat, later: Call)
    requires DistinctIds(all) && AtPrefix(all, init, db, k) && later.known <= |all|
    ensures var done := Calls(all, db, [Call(|all|, |all|)]);
            && AtPrefix(all, init, done, |all|)
            && Calls(all, done, [later]) == done
  {
    var cs := [Call(|all|, |all|)];
    AlwaysAPrefix(all, init, db, k, cs);
    assert cs[1..] == [] && ReachedAll(k, cs) == |all|;
    var done := Calls(all, db, cs);
    AlwaysAPrefix(all, init, done, |all|, [later]);
    assert [later][1..] == [] && ReachedAll(|all|, [later]) == |all|;
  }

  /** The database, migrated in place. */
  class Database<S> {
    var schema: S
    var recorded: set<string>

    ghost function Snapshot(): Db<S>
      reads this
    {
      Db(schema, recorded)
    }

    constructor (schema: S)
      ensures Snapshot() == Db(schema, {})
    {
      this.schema, recorded := schema, {};
    }

    /** runMigrations, dying after `budget` commits. */
    method RunMigrations(ms: seq<Migration<S>>, budget: nat)
      modifies this
      ensures Snapshot() == RunCut(ms, old(recorded), old(Snapshot()), budget)
    {
      var applied := recorded;
      var left, i := budget, 0;
      assert ms[0..] == ms;
      while i < |ms| && left > 0
        invariant 0 <= i <= |ms| && applied == old(recorded)
        invariant RunCut(ms[i..], applied, Snapshot(), left) == RunCut(ms, applied, old(Snapshot()), budget)
      {
        assert ms[i..][0] == ms[i] && ms[i..][1..] == ms[i + 1..];
        if ms[i].id !in applied {
          schema := ms[i].up(schema);
          recorded := recorded + {ms[i].id};
          left := left - 1;
        }
        i := i + 1;
      }
    }
  }
}
