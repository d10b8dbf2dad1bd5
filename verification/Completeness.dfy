/** What checks and sends leave behind: everything a query returns is parsed, and
    everything a send commits is stored. */
module Completeness {
  import opened Machine
  import opened Tokens
  import opened Transactions
  import opened CoinSelection
  import opened Replay
  import opened Node
  import opened NodeSafety
  import opened NodeRuns

  // ------------------------------------------------ checks

  /** The transaction of some key of a list that is fetchable and not marked. */
  ghost predicate Due(db: Database, marked: map<Path, Tx>, keys: seq<Path>, t: Tx) {
    exists p :: p in keys && p !in marked && Fetchable(db, p) && db[p].tx == t
  }

  lemma DueStep(db: Database, marked: map<Path, Tx>, marked': map<Path, Tx>, keys: seq<Path>, t: Tx)
    requires keys != []
    requires marked' == if keys[0] in marked || !Fetchable(db, keys[0]) then marked else marked[keys[0] := db[keys[0]].tx]
    ensures Due(db, marked, keys, t) <==>
            (keys[0] !in marked && Fetchable(db, keys[0]) && db[keys[0]].tx == t) || Due(db, marked', keys[1..], t)
  {
    var k, rest := keys[0], keys[1..];
    assert k in keys && forall p :: p in keys <==> p == k || p in rest;
    if Due(db, marked, keys, t) {
      var p :| p in keys && p !in marked && Fetchable(db, p) && db[p].tx == t;
      assert p != k ==> p in rest && p !in marked';
    }
    if Due(db, marked', rest, t) {
      var p :| p in rest && p !in marked' && Fetchable(db, p) && db[p].tx == t;
      assert p in keys && p !in marked;
    }
  }

  /** Checking incoming keys marks every key that can be parsed and parses exactly
      the transactions of those that were not marked. */
  lemma {:induction false} CheckIncomingParses(s: State, keys: seq<Path>)
    ensures var s' := CheckIncoming(s, keys);
            && (forall p :: p in s'.incoming <==> p in s.incoming || (p in keys && Fetchable(s.db, p)))
            && (forall p :: p in s'.incoming ==> s'.incoming[p] == if p in s.incoming then s.incoming[p] else s.db[p].tx)
            && (forall t :: t in s'.log <==> t in s.log || Due(s.db, s.incoming, keys, t))
    decreases |keys|
  {
    hide Apply;
    if keys != [] {
      var next, rest := CheckInOne(s, keys[0]), keys[1..];
      CheckIncomingParses(next, rest);
      assert forall p :: p in keys <==> p == keys[0] || p in rest;
      forall t
        ensures t in CheckIncoming(s, keys).log <==> t in s.log || Due(s.db, s.incoming, keys, t)
      {
        DueStep(s.db, s.incoming, next.incoming, keys, t);
      }
    }
  }

  /** The same for outgoing keys; the nonce becomes the highest one seen. */
  lemma {:induction false} CheckOutgoingParses(s: State, keys: seq<Path>)
    ensures var s' := CheckOutgoing(s, keys);
            && (forall p :: p in s'.outgoing <==> p in s.outgoing || (p in keys && Fetchable(s.db, p)))
            && (forall p :: p in s'.outgoing ==> s'.outgoing[p] == if p in s.outgoing then s.outgoing[p] else s.db[p].tx)
            && (forall t :: t in s'.log <==> t in s.log || Due(s.db, s.outgoing, keys, t))
            && (forall t :: Due(s.db, s.outgoing, keys, t) ==> t.dag.nonce <= s'.nonce)
            && (s'.nonce == s.nonce || exists t :: Due(s.db, s.outgoing, keys, t) && t.dag.nonce == s'.nonce)
    decreases |keys|
  {
    hide Apply;
    if keys != [] {
      var next, rest := CheckOutOne(s, keys[0]), keys[1..];
      CheckOutgoingParses(next, rest);
      CheckOutgoingFrame(next, rest);
      assert forall p :: p in keys <==> p == keys[0] || p in rest;
      forall t
        ensures Due(s.db, s.outgoing, keys, t) <==>
                (keys[0] !in s.outgoing && Fetchable(s.db, keys[0]) && s.db[keys[0]].tx == t) ||
                Due(s.db, next.outgoing, rest, t)
      {
        DueStep(s.db, s.outgoing, next.outgoing, keys, t);
      }
    }
  }

  ghost predicate Among(db: Database, keys: seq<Path>, t: Tx) {
    exists p :: p in keys && Fetchable(db, p) && db[p].tx == t
  }

  lemma AmongMore(db: Database, keys: seq<Path>, t: Tx)
    requires keys != [] && Among(db, keys[1..], t)
    ensures Among(db, keys, t)
  {
    var p :| p in keys[1..] && Fetchable(db, p) && db[p].tx == t;
    assert p in keys;
  }

  lemma {:induction false} OutgoingAppends(s: State, keys: seq<Path>)
    ensures var s' := CheckOutgoing(s, keys);
            s.log <= s'.log && forall i :: |s.log| <= i < |s'.log| ==> Among(s.db, keys, s'.log[i])
    decreases |keys|
  {
    hide Apply;
    if keys != [] {
      var next, rest, s' := CheckOutOne(s, keys[0]), keys[1..], CheckOutgoing(s, keys);
      OutgoingAppends(next, rest);
      forall i | |s.log| <= i < |s'.log|
        ensures Among(s.db, keys, s'.log[i])
      {
        if i < |next.log| {
          assert s'.log[i] == next.log[i] && keys[0] in keys;
        } else {
          assert Among(next.db, rest, s'.log[i]);
          AmongMore(s.db, keys, s'.log[i]);
        }
      }
    }
  }

  /** Found under a key of our own, or of somebody else. */
  ghost predicate FoundUnder(db: Database, me: Address, mine: bool, t: Tx) {
    exists p: Path :: ((p.address == me) <==> mine) && Fetchable(db, p) && db[p].tx == t
  }

  /** The start parses what it finds under other addresses before what it finds under
      its own. */
  lemma StartOrder(me: Address, db: Database, inKeys: seq<Path>, outKeys: seq<Path>) returns (k: nat)
    requires Started(me, db, inKeys, outKeys)
    ensures var log := Start(me, db, inKeys, outKeys).log;
            && k <= |log|
            && (forall i :: 0 <= i < k ==> FoundUnder(db, me, false, log[i]))
            && (forall i :: k <= i < |log| ==> FoundUnder(db, me, true, log[i]))
            && (forall t :: FoundUnder(db, me, false, t) ==> t in log[..k])
  {
    hide CheckIncoming, CheckOutgoing;
    var s := Init(me, db);
    var s1 := CheckIncoming(s, inKeys);
    CheckIncomingParses(s, inKeys);
    CheckIncomingFrame(s, inKeys);
    OutgoingAppends(s1, outKeys);
    k := |s1.log|;
    var log := CheckOutgoing(s1, outKeys).log;
    assert log[..k] == s1.log;
    forall i | 0 <= i < k
      ensures FoundUnder(db, me, false, log[i])
    {
      assert log[i] == s1.log[i] && s1.log[i] in s1.log;
      assert Due(db, s.incoming, inKeys, log[i]);
    }
    forall i | k <= i < |log|
      ensures FoundUnder(db, me, true, log[i])
    {
      assert Among(db, outKeys, log[i]);
    }
    forall t | FoundUnder(db, me, false, t)
      ensures t in s1.log
    {
      var p: Path :| p.address != me && Fetchable(db, p) && db[p].tx == t;
      assert p in inKeys;
      assert Due(db, s.incoming, inKeys, t);
    }
  }

  /** The start parses every transaction of the database that can be parsed, and
      nothing else, whatever the keys they are stored under. */
  lemma StartParsesAll(me: Address, db: Database, inKeys: seq<Path>, outKeys: seq<Path>, t: Tx)
    requires Started(me, db, inKeys, outKeys)
    ensures t in Start(me, db, inKeys, outKeys).log <==> Stores(db, t) && Parsable(t)
  {
    hide CheckIncoming, CheckOutgoing;
    var s := Init(me, db);
    var s1 := CheckIncoming(s, inKeys);
    CheckIncomingParses(s, inKeys);
    CheckIncomingFrame(s, inKeys);
    CheckOutgoingParses(s1, outKeys);
    if Stores(db, t) && Parsable(t) {
      var p :| p in db && db[p] == Readable(t);
      assert Fetchable(db, p);
      if p.address == me {
        assert p in outKeys && Due(db, s1.outgoing, outKeys, t);
      } else {
        assert p in inKeys && Due(db, s.incoming, inKeys, t);
      }
    }
  }

  /** The nonce after the start is the highest of the transactions found under own
      keys, or zero when there is none. */
  lemma StartNonce(me: Address, db: Database, inKeys: seq<Path>, outKeys: seq<Path>)
    requires Started(me, db, inKeys, outKeys)
    ensures var nonce := Start(me, db, inKeys, outKeys).nonce;
            && (forall p: Path :: p.address == me && Fetchable(db, p) ==> db[p].tx.dag.nonce <= nonce)
            && (nonce == 0 || exists p: Path :: p.address == me && Fetchable(db, p) && db[p].tx.dag.nonce == nonce)
  {
    hide CheckIncoming, CheckOutgoing;
    var s := Init(me, db);
    var s1 := CheckIncoming(s, inKeys);
    CheckIncomingFrame(s, inKeys);
    CheckOutgoingParses(s1, outKeys);
    forall p: Path | p.address == me && Fetchable(db, p)
      ensures db[p].tx.dag.nonce <= CheckOutgoing(s1, outKeys).nonce
    {
      assert p in outKeys;
      assert Due(db, s1.outgoing, outKeys, db[p].tx);
    }
  }

  // ------------------------------------------------ sends

  ghost predicate OtherPaths(batch: seq<Tx>, i: nat, p: Path) {
    forall j :: i <= j < |batch| ==> PathOf(batch[j]) != p
  }

  lemma OtherPathsTail(batch: seq<Tx>, i: nat, p: Path)
    requires batch != []
    ensures OtherPaths(batch, i + 1, p) <==> OtherPaths(batch[1..], i, p)
    ensures OtherPaths(batch, 0, p) <==> PathOf(batch[0]) != p && OtherPaths(batch[1..], 0, p)
  {
    hide PathOf;
    var rest := batch[1..];
    assert forall j :: 0 <= j < |rest| ==> rest[j] == batch[j + 1];
    assert forall j :: 1 <= j < |batch| ==> batch[j] == rest[j - 1];
  }

  /** Writing a batch stores under each of its paths the last transaction with that
      path, and leaves every other key alone. */
  lemma {:induction false} WrittenAt(db: Database, batch: seq<Tx>, p: Path)
    ensures var after := Written(db, batch);
            && (OtherPaths(batch, 0, p) ==> (p in after <==> p in db) && (p in db ==> after[p] == db[p]))
            && (forall i :: 0 <= i < |batch| && PathOf(batch[i]) == p && OtherPaths(batch, i + 1, p) ==>
                  p in after && after[p] == Readable(batch[i]))
    decreases |batch|
  {
    hide PathOf, OtherPaths;
    if batch != [] {
      var next, rest := db[PathOf(batch[0]) := Readable(batch[0])], batch[1..];
      WrittenAt(next, rest, p);
      OtherPathsTail(batch, 0, p);
      forall i | 0 <= i < |batch| && PathOf(batch[i]) == p && OtherPaths(batch, i + 1, p)
        ensures p in Written(db, batch) && Written(db, batch)[p] == Readable(batch[i])
      {
        OtherPathsTail(batch, i, p);
        assert i > 0 ==> rest[i - 1] == batch[i];
      }
    }
  }

  /** Parsing a batch that can be parsed appends it to the log and marks its paths. */
  lemma {:induction false} BatchParses(s: State, batch: seq<Tx>)
    requires forall t :: t in batch ==> Parsable(t)
    ensures var s' := ParseBatch(s, batch);
            && s'.log == s.log + batch
            && (forall p :: p in s'.outgoing <==> p in s.outgoing || !OtherPaths(batch, 0, p))
    decreases |batch|
  {
    hide Apply, PathOf;
    if batch != [] {
      var next, rest := ParseOutgoing(s, batch[0]), batch[1..];
      assert batch[0] in batch && forall t :: t in rest ==> t in batch;
      BatchParses(next, rest);
      assert s.log + [batch[0]] + rest == s.log + batch;
      forall p
        ensures OtherPaths(batch, 0, p) <==> PathOf(batch[0]) != p && OtherPaths(rest, 0, p)
      {
        OtherPathsTail(batch, 0, p);
      }
    }
  }

  /** The first transaction of a batch that has no parser stops the send: what comes
      before it is parsed, nothing is committed. */
  lemma {:induction false} BatchStops(s: State, batch: seq<Tx>, k: nat)
    requires k < |batch| && !Parsable(batch[k]) && forall i :: 0 <= i < k ==> Parsable(batch[i])
    ensures ParseBatch(s, batch).log == s.log + batch[..k]
    decreases k
  {
    hide Apply;
    if k > 0 {
      BatchStops(ParseOutgoing(s, batch[0]), batch[1..], k - 1);
      assert batch[..k] == [batch[0]] + batch[1..][..k - 1];
    } else {
      assert batch[..0] == [];
    }
  }

  /** What a send does in a run: the head of the queue is gone; unless the put is
      refused its whole batch is parsed and marked; if the commit succeeds every
      transaction of the batch is stored under its own path and every other key
      keeps its value; nothing else changes. */
  lemma SendEffect(s: State, fate: Fate)
    requires Inv(s) && s.queue != []
    ensures var s', batch := Send(s, fate), s.queue[0];
            && s'.queue == s.queue[1..] && s'.me == s.me && s'.nonce == s.nonce && s'.incoming == s.incoming
            && s'.spends == s.spends && s'.issued == s.issued
            && s'.log == (if fate == PutRefused then s.log else s.log + batch)
            && (fate == PutRefused ==> s'.utxos == s.utxos && s'.outgoing == s.outgoing)
            && (fate != PutRefused ==> forall t :: t in batch ==> PathOf(t) in s'.outgoing)
            && (fate != Committed ==> s'.db == s.db)
            && (fate == Committed ==> forall t :: t in batch ==> PathOf(t) in s'.db && s'.db[PathOf(t)] == Readable(t))
            && (forall p :: OtherPaths(batch, 0, p) ==>
                  (p in s'.db <==> p in s.db) && (p in s.db ==> s'.db[p] == s.db[p]))
  {
    hide Apply, ParseBatch, Written;
    var batch, rest := s.queue[0], Flat(s.queue[1..]);
    assert Flat(s.queue) == batch + rest;
    forall t | t in batch
      ensures Parsable(t)
    {
      assert t in batch + rest;
      assert Waiting(s.me, s.nonce, s.log, t);
    }
    var popped := s.(queue := s.queue[1..]);
    var written := popped.(db := Written(s.db, batch));
    ParseBatchFrame(popped, batch);
    ParseBatchFrame(written, batch);
    BatchParses(popped, batch);
    BatchParses(written, batch);
    forall i | 0 <= i < |batch|
      ensures var p := PathOf(batch[i]);
              !OtherPaths(batch, 0, p) && p in written.db && written.db[p] == Readable(batch[i])
    {
      PathsApart(batch, rest, i);
      WrittenAt(s.db, batch, PathOf(batch[i]));
    }
    forall p
      ensures OtherPaths(batch, 0, p) ==> (p in written.db <==> p in s.db) && (p in s.db ==> written.db[p] == s.db[p])
    {
      WrittenAt(s.db, batch, p);
    }
  }

  /** Own transactions with increasing nonces have different paths. */
  lemma PathsApart(batch: seq<Tx>, rest: seq<Tx>, i: nat)
    requires Increasing(batch + rest) && i < |batch|
    ensures OtherPaths(batch, i + 1, PathOf(batch[i])) && !OtherPaths(batch, 0, PathOf(batch[i]))
  {
    forall j | i < j < |batch|
      ensures PathOf(batch[j]) != PathOf(batch[i])
    {
      assert (batch + rest)[i] == batch[i] && (batch + rest)[j] == batch[j];
    }
    assert PathOf(batch[i]) == PathOf(batch[i]);
  }
}
