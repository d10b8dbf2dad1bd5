/** The migration over the entries of the legacy databases: which of them are
    copied, and that the others change nothing. */
module MigrationEntries {
  import opened Machine
  import opened Transactions
  import opened Migration
  import opened MigrationSafety

  /** The entry brings a transaction and its proof: its key converts, the
      transaction was read, the signature is right and the proof was found. */
  predicate Brings(e: Entry, tx: Tx, proof: Proof) {
    e.convertible && e.fetched == Some(tx) && e.signed && e.proof == Some(proof)
  }

  predicate Fails(e: Entry) { !e.convertible || e.fetched.None? || !e.signed || e.proof.None? }

  /** One entry: skipped if it fails any of the four tests, an item otherwise. */
  lemma OneEntry(e: Entry)
    ensures Fails(e) ==> Usable([e]) == []
    ensures !Fails(e) ==> exists tx, proof :: Brings(e, tx, proof) && Usable([e]) == [Item(tx, proof)]
  {
    assert [e][..0] == [];
    if !Fails(e) {
      assert Brings(e, e.fetched.value, e.proof.value);
      assert Usable([e]) == [Item(e.fetched.value, e.proof.value)];
    }
  }

  /** Entries are taken in order. */
  lemma {:induction false} EntriesInOrder(a: seq<Entry>, b: seq<Entry>)
    ensures Usable(a + b) == Usable(a) + Usable(b)
  {
    if b == [] {
      assert a + b == a;
    } else {
      var n := |b| - 1;
      EntriesInOrder(a, b[..n]);
      assert (a + b)[..|a| + n] == a + b[..n];
    }
  }

  lemma {:induction false} ItemFromEntry(entries: seq<Entry>, item: Item)
    ensures item in Usable(entries) <==> exists e :: e in entries && Brings(e, item.tx, item.proof)
  {
    if entries != [] {
      var n := |entries| - 1;
      ItemFromEntry(entries[..n], item);
      var last := entries[n];
      assert entries == entries[..n] + [last];
      EntriesInOrder(entries[..n], [last]);
      OneEntry(last);
      if Brings(last, item.tx, item.proof) {
        assert !Fails(last);
      }
    }
  }

  /** An entry that fails any of the four tests changes nothing, in either database. */
  lemma FailedEntryIsNothing(store: Store, a: seq<Entry>, e: Entry, b: seq<Entry>, other: seq<Entry>)
    requires Fails(e)
    ensures ApplyAll(store, Usable(a + [e] + b), Usable(other)) == ApplyAll(store, Usable(a + b), Usable(other))
    ensures ApplyAll(store, Usable(other), Usable(a + [e] + b)) == ApplyAll(store, Usable(other), Usable(a + b))
  {
    hide ApplyAll, Usable;
    EntriesInOrder(a + [e], b);
    EntriesInOrder(a, [e]);
    EntriesInOrder(a, b);
    OneEntry(e);
    assert Usable(a) + [] + Usable(b) == Usable(a) + Usable(b);
  }

  /** Some entry of a database brings a transaction for the path. */
  ghost predicate Mentions(entries: seq<Entry>, p: Path) {
    exists e, tx, proof :: e in entries && Brings(e, tx, proof) && PathOf(tx) == p
  }

  lemma MentionsIffOccurs(entries: seq<Entry>, p: Path)
    ensures Mentions(entries, p) <==> Occurs(Usable(entries), p)
  {
    hide Usable, PathOf;
    var items := Usable(entries);
    if Mentions(entries, p) {
      var e, tx, proof :| e in entries && Brings(e, tx, proof) && PathOf(tx) == p;
      ItemFromEntry(entries, Item(tx, proof));
      var j :| 0 <= j < |items| && items[j] == Item(tx, proof);
      assert PathOf(items[j].tx) == p;
    }
    if Occurs(items, p) {
      var j :| 0 <= j < |items| && PathOf(items[j].tx) == p;
      ItemFromEntry(entries, items[j]);
    }
  }

  /** What the new database holds for a path after a migration: if some entry of the
      incoming database brings a transaction for it, one such transaction with the
      proof of the same entry; otherwise the same from the outgoing database;
      otherwise what was there before. */
  lemma MigratedFromEntry(store: Store, outs: seq<Entry>, ins: seq<Entry>, p: Path)
    ensures var s := ApplyAll(store, Usable(outs), Usable(ins));
            if Mentions(ins, p) || Mentions(outs, p) then
              exists e, tx, proof ::
                && e in (if Mentions(ins, p) then ins else outs) && Brings(e, tx, proof) && PathOf(tx) == p
                && TxKey(p) in s && s[TxKey(p)] == TxBlob(tx) && ProofKey(p) in s && s[ProofKey(p)] == ProofBlob(proof)
            else
              && (TxKey(p) in s <==> TxKey(p) in store) && (TxKey(p) in store ==> s[TxKey(p)] == store[TxKey(p)])
  {
    hide ApplyAll, Usable, PathOf, Occurs;
    var a, b := Usable(outs), Usable(ins);
    MentionsIffOccurs(outs, p);
    MentionsIffOccurs(ins, p);
    if Mentions(ins, p) || Mentions(outs, p) {
      var item := DeciderExists(a, b, p);
      MigratedEntry(store, a, b, p, item);
      DeciderFrom(a, b, p, item);
      ItemFromEntry(if Mentions(ins, p) then ins else outs, item);
    } else {
      UnmentionedStays(store, a, b, p);
    }
  }

  lemma DeciderFrom(outs: seq<Item>, ins: seq<Item>, p: Path, item: Item)
    requires Decides(outs, ins, p, item)
    ensures item in (if Occurs(ins, p) then ins else outs) && PathOf(item.tx) == p
  {
  }

  /** The same for `Apply`, read off the new database: a transaction that was not
      there before comes, with its proof, from an entry that passes all four tests. */
  lemma NewComesFromEntry(store: Store, outs: seq<Entry>, ins: seq<Entry>, p: Path)
    requires TxKey(p) in ApplyAll(store, Usable(outs), Usable(ins))
    requires TxKey(p) in store ==> ApplyAll(store, Usable(outs), Usable(ins))[TxKey(p)] != store[TxKey(p)]
    ensures var s := ApplyAll(store, Usable(outs), Usable(ins));
            exists e, tx, proof ::
              && e in outs + ins && Brings(e, tx, proof) && PathOf(tx) == p
              && s[TxKey(p)] == TxBlob(tx) && ProofKey(p) in s && s[ProofKey(p)] == ProofBlob(proof)
  {
    hide ApplyAll, Usable, PathOf;
    MigratedFromEntry(store, outs, ins, p);
    assert forall e :: e in outs || e in ins ==> e in outs + ins;
  }

  // ------------------------------------------------ whom a batch is announced to

  /** A batch is announced to the full nodes, and to exactly the sources and transfer
      destinations of the transactions in it. */
  ghost predicate Announced(p: Progress) {
    forall a :: a in p.topics <==> a == FULL_NODE_TOPIC || Concerned(p.batch, a)
  }

  ghost predicate Concerned(batch: Store, a: string) {
    exists path: Path :: Concerns(batch, path, a)
  }

  predicate Concerns(batch: Store, path: Path, a: string) {
    TxKey(path) in batch && batch[TxKey(path)].TxBlob? &&
    var tx := batch[TxKey(path)].tx;
    tx.dag.source == a || (tx.Transfer? && exists o :: o in tx.outputs && o.dest == a)
  }

  lemma JoinConcerns(batch: Store, item: Item, path: Path, a: string)
    requires TxKey(PathOf(item.tx)) !in batch
    ensures Concerns(Joined(batch, item), path, a) <==>
            if path == PathOf(item.tx) then a in Addresses(item.tx) else Concerns(batch, path, a)
    ensures !Concerns(batch, PathOf(item.tx), a)
  {
  }

  lemma ItemAnnounced(p: Progress, item: Item)
    requires Announced(p)
    ensures Announced(StepItem(p, item))
  {
    hide PathOf, Addresses, Concerns;
    var key, joined := PathOf(item.tx), Joined(p.batch, item);
    if p.count + 1 >= BATCH_SIZE {
      FreshAnnounced(p.store + joined);
    } else if TxKey(key) !in p.batch {
      var p' := StepItem(p, item);
      assert p'.batch == joined && p'.topics == p.topics + Addresses(item.tx);
      forall a: string
        ensures Concerned(joined, a) <==> a in Addresses(item.tx) || Concerned(p.batch, a)
      {
        JoinConcerns(p.batch, item, key, a);
        if path: Path :| Concerns(joined, path, a) {
          JoinConcerns(p.batch, item, path, a);
        }
        if path: Path :| Concerns(p.batch, path, a) {
          JoinConcerns(p.batch, item, path, a);
          assert Concerns(joined, path, a);
        }
        if a in Addresses(item.tx) {
          assert Concerns(joined, key, a);
        }
      }
      assert forall a: string :: a in p'.topics <==> a in p.topics || a in Addresses(item.tx);
    }
  }

  lemma {:induction false} BatchAnnounced(store: Store, items: seq<Item>)
    ensures Announced(RunItems(Fresh(store), items))
  {
    hide Announced, StepItem;
    if items == [] {
      FreshAnnounced(store);
    } else {
      BatchAnnounced(store, items[..|items| - 1]);
      ItemAnnounced(RunItems(Fresh(store), items[..|items| - 1]), items[|items| - 1]);
    }
  }

  lemma FreshAnnounced(store: Store)
    ensures Announced(Fresh(store))
  {
  }

  // ------------------------------------------------ every good entry is stored

  /** Every entry that passes the tests has its path stored. */
  lemma EntryIsStored(store: Store, outs: seq<Entry>, ins: seq<Entry>, e: Entry, tx: Tx, proof: Proof)
    requires e in outs + ins && Brings(e, tx, proof)
    ensures TxKey(PathOf(tx)) in ApplyAll(store, Usable(outs), Usable(ins))
    ensures ProofKey(PathOf(tx)) in ApplyAll(store, Usable(outs), Usable(ins))
  {
    hide ApplyAll, Usable, PathOf;
    assert Mentions(ins, PathOf(tx)) || Mentions(outs, PathOf(tx));
    MigratedFromEntry(store, outs, ins, PathOf(tx));
  }
}
