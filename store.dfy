/**
  The triplestore the REPL drives, seen only at its interface: every call
  the REPL makes is appended to a log, and what the store answers is left
  opaque. The store's own behaviour (storage, indexes, query execution,
  errors) is not part of this model.
*/
module Store {
  import opened Grammar

  /** One interaction with the store, with the arguments the REPL passes. */
  datatype Call =
    | Transact
    | TxSet(fact: Fact)
    | TxRemove(fact: Fact)
    | Commit
    | EnsureIndex(name: string, sort: seq<string>, filter: Filter)
    | QuerySort(filter: Filter, sort: seq<string>)
    | Query(filter: Filter)
    | ScanIndex(args: ScanArgs)

  /** The store's answer to a call, whatever it holds. */
  datatype Answer = AnswerTo(call: Call)

  class Triplestore {
    /** Every call made on this store and its transactions, oldest first. */
    var log: seq<Call>

    constructor ()
      ensures log == []
    {
      log := [];
    }

    /** `db.transact()` */
    method Transact() returns (tx: Transaction)
      modifies this
      ensures log == old(log) + [Call.Transact]
      ensures fresh(tx) && tx.db == this
    {
      tx := new Transaction(this);
      log := log + [Call.Transact];
    }

    /** `db.ensureIndex({name, sort, filter})` */
    method EnsureIndex(name: string, sort: seq<string>, filter: Filter)
      modifies this
      ensures log == old(log) + [Call.EnsureIndex(name, sort, filter)]
    {
      log := log + [Call.EnsureIndex(name, sort, filter)];
    }

    /** `db.querySort({filter, sort})` */
    method QuerySort(filter: Filter, sort: seq<string>) returns (a: Answer)
      modifies this
      ensures log == old(log) + [Call.QuerySort(filter, sort)]
      ensures a == AnswerTo(Call.QuerySort(filter, sort))
    {
      log := log + [Call.QuerySort(filter, sort)];
      a := AnswerTo(Call.QuerySort(filter, sort));
    }

    /** `db.query({filter})` */
    method Query(filter: Filter) returns (a: Answer)
      modifies this
      ensures log == old(log) + [Call.Query(filter)]
      ensures a == AnswerTo(Call.Query(filter))
    {
      log := log + [Call.Query(filter)];
      a := AnswerTo(Call.Query(filter));
    }

    /** `db.scanIndex(args)` */
    method ScanIndex(args: ScanArgs) returns (a: Answer)
      modifies this
      ensures log == old(log) + [Call.ScanIndex(args)]
      ensures a == AnswerTo(Call.ScanIndex(args))
    {
      log := log + [Call.ScanIndex(args)];
      a := AnswerTo(Call.ScanIndex(args));
    }
  }

  /** A transaction opened on a store; its operations are recorded in the
      store's log. */
  class Transaction {
    const db: Triplestore

    constructor (db: Triplestore)
      ensures this.db == db
    {
      this.db := db;
    }

    /** `tx.set(fact)` */
    method Set(fact: Fact)
      modifies db
      ensures db.log == old(db.log) + [TxSet(fact)]
    {
      db.log := db.log + [TxSet(fact)];
    }

    /** `tx.remove(fact)` */
    method Remove(fact: Fact)
      modifies db
      ensures db.log == old(db.log) + [TxRemove(fact)]
    {
      db.log := db.log + [TxRemove(fact)];
    }

    /** `tx.commit()` */
    method Commit()
      modifies db
      ensures db.log == old(db.log) + [Call.Commit]
    {
      db.log := db.log + [Call.Commit];
    }
  }
}
