/** Migration of the legacy databases (`Migration0_2_0To1_0_0`): transactions and
    proofs are copied in batches of fifty, each batch in one atomic commit, and a
    version marker closes the work. */
module Migration {
  import opened Machine
  import opened Transactions

  const BATCH_SIZE: nat := 50
  const FULL_NODE_TOPIC: string := "SuperGNUSNode.TestNet.FullNode.963"
  const TO_VERSION: string := "1.0.0"

  type Proof = seq<int>

  /** Keys of the new database: a transaction and its proof lie under one path. */
  datatype Key = TxKey(path: Path) | ProofKey(path: Path)

  datatype Blob = TxBlob(tx: Tx) | ProofBlob(proof: Proof)

  type Store = map<Key, Blob>

  /** A key of a legacy database and what the step finds for it: the key may not
      convert, the transaction may not be readable, its signature may be wrong,
      its proof may be missing. */
  datatype Entry = Entry(convertible: bool, fetched: Option<Tx>, signed: bool, proof: Option<Proof>)

  /** An entry that passes all four tests. */
  datatype Item = Item(tx: Tx, proof: Proof)

  predicate IsUsable(e: Entry) { e.convertible && e.fetched.Some? && e.signed && e.proof.Some? }

  function Usable(entries: seq<Entry>): seq<Item> {
    if entries == [] then []
    else
      var n := |entries| - 1;
      Usable(entries[..n]) +
      if IsUsable(entries[n]) then [Item(entries[n].fetched.value, entries[n].proof.value)] else []
  }

  // ------------------------------------------------ one atomic transaction

  datatype Op = PutOp(key: Key, value: Blob) | RemoveOp(key: Key)

  /** What a commit does to the store: the operations in order. */
  function Flush(store: Store, ops: seq<Op>): Store {
    if ops == [] then store
    else
      var n := |ops| - 1;
      var before := Flush(store, ops[..n]);
      match ops[n]
      case PutOp(k, v) => before[k := v]
      case RemoveOp(k) => before - {k}
  }

  function WithoutKey(ops: seq<Op>, key: Key): seq<Op> {
    if ops == [] then []
    else
      var n := |ops| - 1;
      WithoutKey(ops[..n], key) + if ops[n].key == key then [] else [ops[n]]
  }

  /** The most recent operation on a key. */
  function Latest(ops: seq<Op>, key: Key): Option<Op> {
    if ops == [] then None
    else
      var n := |ops| - 1;
      if ops[n].key == key then Some(ops[n]) else Latest(ops[..n], key)
  }

  /** `AtomicTransaction` over the store it commits to. */
  class AtomicTransaction {
    var ops: seq<Op>
    var modified: set<Key>
    var committed: bool

    constructor ()
      ensures ops == [] && modified == {} && !committed
    {
      ops, modified, committed := [], {}, false;
    }

    method Put(key: Key, value: Blob) returns (ok: bool)
      modifies this
      ensures ok == !old(committed) && committed == old(committed)
      ensures ops == if ok then old(ops) + [PutOp(key, value)] else old(ops)
      ensures modified == if ok then old(modified) + {key} else old(modified)
    {
      ok := !committed;
      if ok {
        ops, modified := ops + [PutOp(key, value)], modified + {key};
      }
    }

    method Remove(key: Key) returns (ok: bool)
      modifies this
      ensures ok == !old(committed) && committed == old(committed) && modified == old(modified)
      ensures ops == if ok then old(ops) + [RemoveOp(key)] else old(ops)
    {
      ok := !committed;
      if ok {
        ops := ops + [RemoveOp(key)];
      }
    }

    /** Only pending operations are looked at, not the store. */
    method Get(key: Key) returns (r: Option<Blob>)
      ensures r == Found(ops, key)
    {
      var i := |ops|;
      assert ops[..i] == ops;
      while i > 0 && ops[i - 1].key != key
        invariant 0 <= i <= |ops| && Latest(ops, key) == Latest(ops[..i], key)
      {
        i := i - 1;
        assert ops[..i + 1][..i] == ops[..i];
      }
      r := if i > 0 && ops[i - 1].PutOp? then Some(ops[i - 1].value) else None;
    }

    /** Cancels every pending operation on the key; the key counts as modified no more. */
    method Erase(key: Key) returns (ok: bool)
      modifies this
      ensures ok == !old(committed) && committed == old(committed)
      ensures ops == if ok then WithoutKey(old(ops), key) else old(ops)
      ensures modified == if ok && ops != old(ops) then old(modified) - {key} else old(modified)
    {
      ok := !committed;
      if ok {
        var kept: seq<Op> := [];
        for i := 0 to |ops|
          invariant ops == old(ops) && modified == old(modified) && committed == old(committed)
          invariant kept == WithoutKey(ops[..i], key) && |kept| <= i
          invariant |kept| == i ==> kept == ops[..i]
        {
          assert ops[..i + 1][..i] == ops[..i];
          if ops[i].key != key {
            kept := kept + [ops[i]];
          }
        }
        assert ops[..|ops|] == ops;
        if |kept| != |ops| {
          ops, modified := kept, modified - {key};
        }
      }
    }

    method HasKey(key: Key) returns (r: bool)
      ensures r <==> key in modified
    {
      r := key in modified;
    }
  }

  // ------------------------------------------------ the migration as steps

  /** The addresses a migrated transaction is announced to. */
  function Addresses(tx: Tx): set<string> {
    {tx.dag.source} + if tx.Transfer? then (set o | o in tx.outputs :: o.dest) else {}
  }

  /** The committed store, the batch under way, its topics and its entry count. */
  datatype Progress = Progress(store: Store, batch: Store, topics: set<string>, count: nat)

  function Fresh(store: Store): Progress { Progress(store, map[], {FULL_NODE_TOPIC}, 0) }

  /** A transaction and its proof join the batch unless the path is taken. The
      comparison of timestamps meant to decide between two candidates compares the
      new transaction with itself, so the one already in the batch stays. */
  function Joined(batch: Store, item: Item): Store {
    var p := PathOf(item.tx);
    if TxKey(p) in batch then batch
    else batch[TxKey(p) := TxBlob(item.tx)][ProofKey(p) := ProofBlob(item.proof)]
  }

  function StepItem(p: Progress, item: Item): Progress {
    var batch := Joined(p.batch, item);
    var topics := if TxKey(PathOf(item.tx)) in p.batch then p.topics else p.topics + Addresses(item.tx);
    if p.count + 1 >= BATCH_SIZE then Fresh(p.store + batch)
    else Progress(p.store, batch, topics, p.count + 1)
  }

  function RunItems(p: Progress, items: seq<Item>): Progress {
    if items == [] then p
    else
      var n := |items| - 1;
      StepItem(RunItems(p, items[..n]), items[n])
  }

  /** The remainder of a database is committed before the next one starts. */
  function Close(p: Progress): Progress {
    if p.count > 0 then Fresh(p.store + p.batch) else p
  }

  function ApplyAll(store: Store, outs: seq<Item>, ins: seq<Item>): Store {
    Close(RunItems(Close(RunItems(Fresh(store), outs)), ins)).store
  }

  // ------------------------------------------------ the migration object

  /** The new database: the replicated store and, beside it, the version marker. */
  class Database {
    var store: Store
    var version: Option<string>

    constructor (store: Store, version: Option<string>)
      ensures this.store == store && this.version == version
    {
      this.store, this.version := store, version;
    }

    /** `AtomicTransaction::Commit`: all pending operations at once. */
    method Commit(tx: AtomicTransaction) returns (ok: bool)
      modifies this, tx
      ensures ok == !old(tx.committed) && tx.committed && version == old(version)
      ensures tx.ops == old(tx.ops)
      ensures store == if ok then Flush(old(store), tx.ops) else old(store)
    {
      ok := !tx.committed;
      if ok {
        store := Flush(store, tx.ops);
        tx.committed := true;
      }
    }
  }

  /** The pending operations spell exactly the batch: one put per key. */
  ghost predicate Spells(ops: seq<Op>, batch: Store) {
    forall base: Store :: Flush(base, ops) == base + batch
  }

  lemma SpellsPut(ops: seq<Op>, batch: Store, k: Key, v: Blob)
    requires Spells(ops, batch)
    ensures Spells(ops + [PutOp(k, v)], batch[k := v])
  {
    var more := ops + [PutOp(k, v)];
    assert more[..|more| - 1] == ops;
    forall base: Store
      ensures Flush(base, more) == base + batch[k := v]
    {
      assert Flush(base, ops) == base + batch;
    }
  }

  /** The latest pending operation on a key decides what a commit leaves there. */
  lemma {:induction false} LatestDecides(base: Store, ops: seq<Op>, key: Key)
    ensures match Latest(ops, key)
            case Some(PutOp(_, v)) => key in Flush(base, ops) && Flush(base, ops)[key] == v
            case Some(RemoveOp(_)) => key !in Flush(base, ops)
            case None => if key in base then key in Flush(base, ops) && Flush(base, ops)[key] == base[key]
                         else key !in Flush(base, ops)
  {
    if ops != [] {
      LatestDecides(base, ops[..|ops| - 1], key);
    }
  }

  /** So a key of the batch is pending with the batch's value. */
  lemma BatchIsPending(ops: seq<Op>, batch: Store, key: Key)
    requires Spells(ops, batch) && key in batch
    ensures var latest := Latest(ops, key);
            latest.Some? && latest.value.PutOp? && latest.value.value == batch[key]
  {
    hide Flush, Latest;
    assert Flush(map[], ops) == map[] + batch;
    LatestDecides(map[], ops, key);
  }

  /** `DeSerializeTransaction` of a pending value. */
  function Deserialized(b: Blob): Option<Tx> {
    if b.TxBlob? then Some(b.tx) else None
  }

  /** What the choice between two candidates for a path comes to: whether the new
      one replaces the pending one, when `compared` stands for the pending one. */
  predicate Replaces(found: Option<Blob>, compared: Tx, tx: Tx) {
    found.Some? && (Deserialized(found.value).None? || compared.dag.timestamp > tx.dag.timestamp)
  }

  function Found(ops: seq<Op>, key: Key): Option<Blob> {
    var latest := Latest(ops, key);
    if latest.Some? && latest.value.PutOp? then Some(latest.value.value) else None
  }

  class Migrator {
    const db: Database
    var pending: AtomicTransaction
    var topics: set<string>
    ghost var batch: Store

    ghost predicate Valid()
      reads this, pending
    {
      && !pending.committed && pending.modified == batch.Keys && Spells(pending.ops, batch)
      && (forall p: Path :: TxKey(p) in batch ==> batch[TxKey(p)].TxBlob?)
    }

    constructor (db: Database)
      ensures this.db == db && fresh(pending) && Valid() && batch == map[] && topics == {FULL_NODE_TOPIC}
    {
      this.db := db;
      pending := new AtomicTransaction();
      topics := {FULL_NODE_TOPIC};
      batch := map[];
    }

    /** The commit of a batch and the start of the next one. */
    method CommitBatch()
      requires Valid()
      modifies this, pending, db
      ensures Valid() && fresh(pending) && batch == map[] && topics == {FULL_NODE_TOPIC}
      ensures db.store == old(db.store) + old(batch) && db.version == old(db.version)
    {
      assert Flush(db.store, pending.ops) == db.store + batch;
      var _ := db.Commit(pending);
      pending := new AtomicTransaction();
      topics := {FULL_NODE_TOPIC};
      batch := map[];
    }

    /** The choice between a new candidate and the pending one for its path, with
        `compared` as the transaction whose timestamp stands for the pending one. */
    method Choose(item: Item, compared: Tx) returns (migrate: bool)
      requires !pending.committed
      modifies pending
      ensures var p := PathOf(item.tx);
              migrate == Replaces(Found(old(pending.ops), TxKey(p)), compared, item.tx)
      ensures pending.ops == if migrate
                             then WithoutKey(WithoutKey(old(pending.ops), TxKey(PathOf(item.tx))), ProofKey(PathOf(item.tx)))
                             else old(pending.ops)
      ensures !migrate ==> pending.modified == old(pending.modified)
      ensures !pending.committed
    {
      hide Latest, WithoutKey;
      var key := TxKey(PathOf(item.tx));
      migrate := false;
      var found := pending.Get(key);
      if found.Some? {
        var previous := Deserialized(found.value);
        if previous.None? || compared.dag.timestamp > item.tx.dag.timestamp {
          migrate := true;
          var _ := pending.Erase(key);
          var _ := pending.Erase(ProofKey(key.path));
        }
      }
    }

    /** One usable entry. The source takes the new transaction itself for the
        pending one, so the comparison never calls for a replacement. */
    method MigrateItem(item: Item)
      requires Valid()
      modifies this, pending
      ensures Valid() && pending == old(pending)
      ensures batch == Joined(old(batch), item)
      ensures topics == if TxKey(PathOf(item.tx)) in old(batch) then old(topics) else old(topics) + Addresses(item.tx)
    {
      var key := TxKey(PathOf(item.tx));
      var migrate := true;
      var taken := pending.HasKey(key);
      if taken {
        BatchIsPending(pending.ops, batch, key);
        migrate := Choose(item, item.tx);
      }
      if migrate {
        topics := topics + Addresses(item.tx);
        SpellsPut(pending.ops, batch, key, TxBlob(item.tx));
        var _ := pending.Put(key, TxBlob(item.tx));
        batch := batch[key := TxBlob(item.tx)];
        SpellsPut(pending.ops, batch, ProofKey(key.path), ProofBlob(item.proof));
        var _ := pending.Put(ProofKey(key.path), ProofBlob(item.proof));
        batch := batch[ProofKey(key.path) := ProofBlob(item.proof)];
      }
    }

    /** `MigrateDb`: the loop over a legacy database. */
    method MigrateDb(entries: seq<Entry>) returns (count: nat)
      requires Valid()
      modifies this, pending, db
      ensures Valid() && (pending == old(pending) || fresh(pending)) && db.version == old(db.version)
      ensures Progress(db.store, batch, topics, count) ==
              RunItems(old(Progress(db.store, batch, topics, 0)), Usable(entries))
    {
      count := 0;
      ghost var start := Progress(db.store, batch, topics, 0);
      for i := 0 to |entries|
        invariant Valid() && (pending == old(pending) || fresh(pending)) && db.version == old(db.version)
        invariant Progress(db.store, batch, topics, count) == RunItems(start, Usable(entries[..i]))
      {
        ghost var done := Usable(entries[..i]);
        assert entries[..i + 1][..i] == entries[..i];
        if IsUsable(entries[i]) {
          var item := Item(entries[i].fetched.value, entries[i].proof.value);
          assert Usable(entries[..i + 1]) == done + [item];
          assert (done + [item])[..|done|] == done;
          MigrateItem(item);
          count := count + 1;
          if count >= BATCH_SIZE {
            CommitBatch();
            count := 0;
          }
        } else {
          assert Usable(entries[..i + 1]) == done;
        }
      }
      assert entries[..|entries|] == entries;
    }

    /** `Apply`: a fresh transaction, the outgoing database, then the incoming one,
        then the marker. */
    method Apply(outs: seq<Entry>, ins: seq<Entry>)
      modifies this, pending, db
      ensures Valid() && batch == map[]
      ensures db.store == ApplyAll(old(db.store), Usable(outs), Usable(ins))
      ensures db.version == Some(TO_VERSION)
    {
      pending := new AtomicTransaction();
      topics, batch := {FULL_NODE_TOPIC}, map[];
      assert Valid();
      hide RunItems, Usable, Spells;
      ghost var store := db.store;
      var remainder := MigrateDb(outs);
      NothingPendingAtZero(store, Usable(outs));
      if remainder > 0 {
        CommitBatch();
      }
      ghost var second := db.store;
      remainder := MigrateDb(ins);
      NothingPendingAtZero(second, Usable(ins));
      if remainder > 0 {
        CommitBatch();
      }
      db.version := Some(TO_VERSION);
    }

    /** `IsRequired` and `Apply`, as the manager runs the step. */
    method Migrate(outs: seq<Entry>, ins: seq<Entry>)
      modifies this, pending, db
      ensures db.version == Some(TO_VERSION)
      ensures db.store == if old(db.version) == Some(TO_VERSION) then old(db.store)
                          else ApplyAll(old(db.store), Usable(outs), Usable(ins))
    {
      if db.version != Some(TO_VERSION) {
        Apply(outs, ins);
      }
    }
  }

  /** When a database leaves no remainder, nothing is pending: the closing marker
      is never written over an uncommitted operation. */
  lemma {:induction false} NothingPendingAtZero(store: Store, items: seq<Item>)
    ensures var p := RunItems(Fresh(store), items);
            p.count < BATCH_SIZE && (p.count == 0 ==> p == Fresh(p.store))
  {
    if items != [] {
      NothingPendingAtZero(store, items[..|items| - 1]);
    }
  }
}
