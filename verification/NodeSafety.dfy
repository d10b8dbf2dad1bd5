/** What every step of a node keeps. */
module NodeSafety {
  import opened Machine
  import opened Tokens
  import opened Transactions
  import opened CoinSelection
  import opened Replay
  import opened Node

  // ------------------------------------------------ the invariant

  /** The coins are the replay of the log, up to locks. */
  ghost predicate CoinsFollowLog(me: Address, utxos: seq<Utxo>, log: seq<Tx>) {
    Sound(me, utxos) && Strip(utxos) == After(me, log)
  }

  /** A parsed transaction is marked in the map of its direction. */
  predicate Marked(me: Address, outgoing: map<Path, Tx>, incoming: map<Path, Tx>, t: Tx) {
    if t.dag.source == me then PathOf(t) in outgoing else PathOf(t) in incoming
  }

  ghost predicate NoneTwice(log: seq<Tx>) {
    forall i, j :: 0 <= i < j < |log| ==> log[i] != log[j]
  }

  /** Every parsed transaction is marked, and none was parsed twice. */
  ghost predicate LogOk(me: Address, log: seq<Tx>, outgoing: map<Path, Tx>, incoming: map<Path, Tx>) {
    (forall t :: t in log ==> Marked(me, outgoing, incoming, t)) && NoneTwice(log)
  }

  ghost predicate MapsOk(me: Address, nonce: nat, outgoing: map<Path, Tx>, incoming: map<Path, Tx>) {
    && (forall p :: p in outgoing ==> p.address == me && p.nonce <= nonce)
    && (forall p :: p in incoming ==> p.address != me)
  }

  /** A queued transaction: ours, parsable, not parsed yet. */
  predicate Waiting(me: Address, nonce: nat, log: seq<Tx>, t: Tx) {
    Parsable(t) && t.dag.source == me && t.dag.nonce <= nonce && t !in log
  }

  ghost predicate Increasing(txs: seq<Tx>) {
    forall i, j :: 0 <= i < j < |txs| ==> txs[i].dag.nonce < txs[j].dag.nonce
  }

  ghost predicate QueueOk(me: Address, nonce: nat, log: seq<Tx>, queued: seq<Tx>) {
    Increasing(queued) && forall t :: t in queued ==> Waiting(me, nonce, log, t)
  }

  /** Nothing of a list is in the database. */
  ghost predicate Unstored(db: Database, queued: seq<Tx>) {
    forall t :: t in queued ==> !Stores(db, t)
  }

  /** An input of one of our spends is locked as long as we hold it, and its
      creator has been parsed, so it will not be added again. */
  ghost predicate Reserved(log: seq<Tx>, utxos: seq<Utxo>, o: OutPoint) {
    o.txid.of in log && forall u :: u in utxos && u.at == o ==> u.locked
  }

  ghost predicate NoRepeats(points: seq<OutPoint>) {
    forall i, j :: 0 <= i < j < |points| ==> points[i] != points[j]
  }

  function Inputs(t: Tx): seq<OutPoint> {
    if t.Transfer? || t.EscrowHold? then t.inputs else []
  }

  ghost predicate Disjoint(a: Tx, b: Tx) {
    forall o :: o in Inputs(a) ==> o !in Inputs(b)
  }

  ghost predicate SpendsOk(spends: seq<Tx>, log: seq<Tx>, utxos: seq<Utxo>) {
    && (forall t :: t in spends ==> NoRepeats(Inputs(t)))
    && (forall t, o :: t in spends && o in Inputs(t) ==> Reserved(log, utxos, o))
    && (forall i, j :: 0 <= i < j < |spends| ==> Disjoint(spends[i], spends[j]))
  }

  ghost predicate IssuedOk(me: Address, nonce: nat, issued: seq<Tx>) {
    Increasing(issued) && forall t :: t in issued ==> t.dag.source == me && t.dag.nonce <= nonce
  }

  ghost predicate Inv(s: State) {
    && CoinsFollowLog(s.me, s.utxos, s.log)
    && LogOk(s.me, s.log, s.outgoing, s.incoming)
    && MapsOk(s.me, s.nonce, s.outgoing, s.incoming)
    && Filed(s.db)
    && QueueOk(s.me, s.nonce, s.log, Flat(s.queue))
    && Unstored(s.db, Flat(s.queue))
    && SpendsOk(s.spends, s.log, s.utxos)
    && IssuedOk(s.me, s.nonce, s.issued)
  }

  // ------------------------------------------------ parsing one transaction

  /** Parsing keeps the coins a replay of the log. */
  lemma ParseFollowsLog(me: Address, utxos: seq<Utxo>, log: seq<Tx>, tx: Tx)
    requires CoinsFollowLog(me, utxos, log)
    ensures CoinsFollowLog(me, Apply(me, utxos, tx), log + [tx])
  {
    assert (log + [tx])[..|log + [tx]| - 1] == log;
    ApplyFacts(me, utxos, tx);
    StripApply(me, utxos, tx);
  }

  /** Parsing a transaction for the first time cannot bring back a coin that one
      of our spends used. */
  lemma ParseKeepsSpends(me: Address, spends: seq<Tx>, log: seq<Tx>, utxos: seq<Utxo>, tx: Tx)
    requires SpendsOk(spends, log, utxos) && tx !in log
    ensures SpendsOk(spends, log + [tx], Apply(me, utxos, tx))
  {
    forall t, o | t in spends && o in Inputs(t)
      ensures Reserved(log + [tx], Apply(me, utxos, tx), o)
    {
      assert Reserved(log, utxos, o);
      forall u | u in Apply(me, utxos, tx) && u.at == o
        ensures u.locked
      {
        ApplyMembers(me, utxos, tx, u);
      }
    }
  }

  lemma ParseKeepsLog(me: Address, log: seq<Tx>, tx: Tx, outgoing: map<Path, Tx>, incoming: map<Path, Tx>,
                      outgoing': map<Path, Tx>, incoming': map<Path, Tx>)
    requires LogOk(me, log, outgoing, incoming) && tx !in log
    requires outgoing.Keys <= outgoing'.Keys && incoming.Keys <= incoming'.Keys
    requires Marked(me, outgoing', incoming', tx)
    ensures LogOk(me, log + [tx], outgoing', incoming')
  {
    forall t | t in log
      ensures t != tx && Marked(me, outgoing', incoming', t)
    {
      assert Marked(me, outgoing, incoming, t);
    }
  }

  // ------------------------------------------------ building

  lemma {:induction false} FlatAppend(queue: seq<seq<Tx>>, batch: seq<Tx>)
    ensures Flat(queue + [batch]) == Flat(queue) + batch
  {
    if queue == [] {
      assert queue + [batch] == [batch] && [batch][1..] == [];
      assert Flat([batch]) == batch + Flat([]);
    } else {
      assert (queue + [batch])[1..] == queue[1..] + [batch];
      FlatAppend(queue[1..], batch);
    }
  }

  lemma AppendIncreasing(a: seq<Tx>, b: seq<Tx>, nonce: nat)
    requires Increasing(a) && Increasing(b)
    requires forall t :: t in a ==> t.dag.nonce <= nonce
    requires forall t :: t in b ==> t.dag.nonce > nonce
    ensures Increasing(a + b)
  {
    forall i, j | 0 <= i < j < |a + b|
      ensures (a + b)[i].dag.nonce < (a + b)[j].dag.nonce
    {
      if i < |a| <= j {
        assert a[i] in a && b[j - |a|] in b;
      }
    }
  }

  /** A fresh batch: ours, parsable, numbered from the next nonce on. */
  ghost predicate Fresh(s: State, batch: seq<Tx>) {
    forall i :: 0 <= i < |batch| ==>
      && Parsable(batch[i]) && batch[i].dag.source == s.me && batch[i].dag.nonce == s.nonce + i + 1
  }

  /** A fresh transaction is numbered above everything of ours that was parsed. */
  lemma FreshNotLogged(s: State, batch: seq<Tx>, t: Tx)
    requires LogOk(s.me, s.log, s.outgoing, s.incoming) && MapsOk(s.me, s.nonce, s.outgoing, s.incoming)
    requires Fresh(s, batch) && t in batch
    ensures t !in s.log
  {
    assert !Marked(s.me, s.outgoing, s.incoming, t);
  }

  /** Issuing keeps the queue waiting and all nonces increasing. */
  lemma IssueKeeps(s: State, batch: seq<Tx>)
    requires Inv(s) && Fresh(s, batch) && Unstored(s.db, batch)
    ensures Inv(Issue(s, batch))
  {
    var s' := Issue(s, batch);
    FlatAppend(s.queue, batch);
    assert Increasing(batch);
    assert forall t :: t in Flat(s.queue) ==> Waiting(s.me, s.nonce, s.log, t);
    AppendIncreasing(Flat(s.queue), batch, s.nonce);
    AppendIncreasing(s.issued, batch, s.nonce);
    forall t | t in Flat(s'.queue)
      ensures Waiting(s'.me, s'.nonce, s'.log, t) && !Stores(s.db, t)
    {
      if t in batch {
        FreshNotLogged(s, batch, t);
      }
    }
  }

  /** Newly issued transactions are new. */
  lemma FreshUnstored(s: State, batch: seq<Tx>)
    requires IssuedOk(s.me, s.nonce, s.issued) && Fresh(s, batch)
    requires forall t :: t in s.issued + batch && t !in s.issued ==> !Stores(s.db, t)
    ensures Unstored(s.db, batch)
  {
    forall t | t in batch
      ensures !Stores(s.db, t)
    {
      assert t in s.issued + batch;
    }
  }

  lemma LockFacts(me: Address, utxos: seq<Utxo>, log: seq<Tx>, inputs: seq<OutPoint>)
    requires CoinsFollowLog(me, utxos, log)
    ensures CoinsFollowLog(me, Lock(utxos, inputs), log)
  {
    var locked := Lock(utxos, inputs);
    assert Strip(locked) == Strip(utxos);
    forall u | u in locked
      ensures Genuine(me, u)
    {
      var i :| 0 <= i < |locked| && locked[i] == u;
      assert utxos[i] in utxos && Genuine(me, utxos[i]);
    }
  }

  /** Every coin we hold was created by a parsed transaction. */
  lemma HeldIsLogged(me: Address, utxos: seq<Utxo>, log: seq<Tx>, u: Utxo)
    requires CoinsFollowLog(me, utxos, log) && u in utxos
    ensures u.at.txid.of in log
  {
    assert u.at in Keys(utxos);
    StripKeys(utxos);
    ReplayHoldsSurvivors(me, log, u.at);
    var j :| 0 <= j < |log| && u.at in Created(me, log[j]);
    assert u.at.txid.of == log[j];
  }

  /** A new spend takes unlocked coins, so it shares no input with an earlier one. */
  lemma SpendIsNew(s: State, chosen: seq<Utxo>, tx: Tx, o: OutPoint)
    requires Inv(s) && Inputs(tx) == Points(chosen) && o in Inputs(tx)
    requires forall u :: u in chosen ==> u in s.utxos && !u.locked
    ensures o.txid.of in s.log
    ensures forall t :: t in s.spends ==> o !in Inputs(t)
  {
    var k :| 0 <= k < |chosen| && chosen[k].at == o;
    assert chosen[k] in chosen;
    HeldIsLogged(s.me, s.utxos, s.log, chosen[k]);
    assert !Reserved(s.log, s.utxos, o);
  }

  /** Locking reserves the inputs of the new spend and keeps earlier reservations. */
  lemma LockReserves(log: seq<Tx>, utxos: seq<Utxo>, inputs: seq<OutPoint>, o: OutPoint)
    requires Reserved(log, utxos, o) || (o in inputs && o.txid.of in log)
    ensures Reserved(log, Lock(utxos, inputs), o)
  {
    var locked := Lock(utxos, inputs);
    forall u | u in locked && u.at == o
      ensures u.locked
    {
      var i :| 0 <= i < |locked| && locked[i] == u;
      assert utxos[i] in utxos;
      if o in inputs {
        var k :| 0 <= k < |inputs| && inputs[k] == o;
        assert SharesHash(utxos[i], inputs);
      }
    }
  }

  lemma SpendKeeps(s: State, chosen: seq<Utxo>, tx: Tx)
    requires Inv(s) && Fresh(s, [tx]) && Unstored(s.db, [tx])
    requires Inputs(tx) == Points(chosen) && Distinct(chosen)
    requires forall u :: u in chosen ==> u in s.utxos && !u.locked
    ensures Inv(Issue(s.(utxos := Lock(s.utxos, Inputs(tx)), spends := s.spends + [tx]), [tx]))
  {
    var inputs := Inputs(tx);
    var s' := s.(utxos := Lock(s.utxos, inputs), spends := s.spends + [tx]);
    LockFacts(s.me, s.utxos, s.log, inputs);
    forall o | o in inputs
      ensures o.txid.of in s.log && forall t :: t in s.spends ==> o !in Inputs(t)
    {
      SpendIsNew(s, chosen, tx, o);
    }
    forall t, o | t in s'.spends && o in Inputs(t)
      ensures Reserved(s.log, s'.utxos, o)
    {
      LockReserves(s.log, s.utxos, inputs, o);
    }
    assert NoRepeats(inputs);
    forall i, j | 0 <= i < j < |s'.spends|
      ensures Disjoint(s'.spends[i], s'.spends[j])
    {
      assert s'.spends[i] in s.spends;
    }
    IssueKeeps(s', [tx]);
  }

  lemma TransferKeeps(s: State, amount: u64, dest: Address, token: TokenId, time: int)
    requires Inv(s) && Unseen(s, TransferFunds(s, amount, dest, token, time))
    ensures Inv(TransferFunds(s, amount, dest, token, time))
  {
    var chosen := SelectedInputs(s.utxos, s.me, amount, dest, token);
    var params := SelectOne(s.utxos, s.me, amount, dest, token);
    if params.Some? {
      var tx := Transfer(NextDag(s, 1, time, ""), params.value.inputs, params.value.outputs);
      FreshUnstored(s, [tx]);
      SpendKeeps(s, chosen, tx);
    }
  }

  lemma HoldKeeps(s: State, amount: u64, escrow: Address, dev: Address, cut: u64, time: int)
    requires Inv(s) && Unseen(s, HoldEscrow(s, amount, escrow, dev, cut, time))
    ensures Inv(HoldEscrow(s, amount, escrow, dev, cut, time))
  {
    var chosen := SelectedInputs(s.utxos, s.me, amount, escrow, FromBytes([0]));
    var params := SelectOne(s.utxos, s.me, amount, escrow, FromBytes([0]));
    if params.Some? {
      var tx := EscrowHold(NextDag(s, 1, time, ""), params.value.inputs, params.value.outputs, amount, dev, cut);
      FreshUnstored(s, [tx]);
      SpendKeeps(s, chosen, tx);
    }
  }

  lemma MintKeeps(s: State, amount: u64, previous: string, chain: string, token: TokenId, time: int)
    requires Inv(s) && Unseen(s, MintFunds(s, amount, previous, chain, token, time))
    ensures Inv(MintFunds(s, amount, previous, chain, token, time))
  {
    var tx := Mint(NextDag(s, 1, time, previous), chain, amount, token);
    FreshUnstored(s, [tx]);
    IssueKeeps(s, [tx]);
  }

  lemma PayKeeps(s: State, fetched: Option<Tx>, results: seq<TaskResult>, time: int)
    requires fetched.Some? ==> fetched.value.EscrowHold? && fetched.value.outputs != []
    requires Inv(s) && Unseen(s, PayEscrow(s, fetched, results, time))
    ensures Inv(PayEscrow(s, fetched, results, time))
  {
    var s' := PayEscrow(s, fetched, results, time);
    if s' != s {
      var batch := s'.issued[|s.issued|..];
      assert s' == Issue(s, batch);
      FreshUnstored(s, batch);
      IssueKeeps(s, batch);
    }
  }

  // ------------------------------------------------ sending

  /** The invariant without the part about the queue's place in the database. */
  ghost predicate Core(s: State) {
    && CoinsFollowLog(s.me, s.utxos, s.log)
    && LogOk(s.me, s.log, s.outgoing, s.incoming)
    && MapsOk(s.me, s.nonce, s.outgoing, s.incoming)
    && SpendsOk(s.spends, s.log, s.utxos)
    && IssuedOk(s.me, s.nonce, s.issued)
  }

  /** Parsing the first of a waiting list leaves the rest waiting. */
  lemma QueueRest(me: Address, nonce: nat, log: seq<Tx>, tx: Tx, rest: seq<Tx>)
    requires QueueOk(me, nonce, log, [tx] + rest)
    ensures QueueOk(me, nonce, log + [tx], rest)
  {
    var all := [tx] + rest;
    forall i | 0 <= i < |rest|
      ensures Waiting(me, nonce, log + [tx], rest[i])
    {
      assert all[i + 1] == rest[i] && all[i + 1] in all && all[0].dag.nonce < all[i + 1].dag.nonce;
    }
    forall i, j | 0 <= i < j < |rest|
      ensures rest[i].dag.nonce < rest[j].dag.nonce
    {
      assert all[i + 1] == rest[i] && all[j + 1] == rest[j];
    }
  }

  lemma ParseOutgoingKeeps(s: State, tx: Tx)
    requires Core(s) && Waiting(s.me, s.nonce, s.log, tx)
    ensures Core(ParseOutgoing(s, tx))
  {
    ParseFollowsLog(s.me, s.utxos, s.log, tx);
    ParseKeepsLog(s.me, s.log, tx, s.outgoing, s.incoming, s.outgoing[PathOf(tx) := tx], s.incoming);
    ParseKeepsSpends(s.me, s.spends, s.log, s.utxos, tx);
  }

  lemma {:induction false} ParseBatchKeeps(s: State, batch: seq<Tx>)
    requires Core(s) && QueueOk(s.me, s.nonce, s.log, batch + Flat(s.queue))
    ensures var s' := ParseBatch(s, batch);
            && Core(s') && QueueOk(s'.me, s'.nonce, s'.log, Flat(s'.queue))
            && s.outgoing.Keys <= s'.outgoing.Keys
            && (forall t :: t in batch ==> PathOf(t) in s'.outgoing)
    decreases |batch|
  {
    if batch == [] {
      assert batch + Flat(s.queue) == Flat(s.queue);
    } else {
      var rest := batch[1..] + Flat(s.queue);
      assert batch + Flat(s.queue) == [batch[0]] + rest;
      assert batch[0] in [batch[0]] + rest;
      ParseOutgoingKeeps(s, batch[0]);
      QueueRest(s.me, s.nonce, s.log, batch[0], rest);
      ParseBatchKeeps(ParseOutgoing(s, batch[0]), batch[1..]);
    }
  }

  /** What parsing a batch does not touch. */
  lemma {:induction false} ParseBatchFrame(s: State, batch: seq<Tx>)
    ensures var s' := ParseBatch(s, batch);
            && s'.me == s.me && s'.db == s.db && s'.queue == s.queue && s'.nonce == s.nonce
            && s'.incoming == s.incoming && s'.spends == s.spends && s'.issued == s.issued
            && s.log <= s'.log
    decreases |batch|
  {
    if batch != [] {
      ParseBatchFrame(ParseOutgoing(s, batch[0]), batch[1..]);
    }
  }

  /** A batch is filed, and nothing but the batch is added. */
  lemma {:induction false} WrittenFacts(db: Database, batch: seq<Tx>)
    ensures Filed(db) ==> Filed(Written(db, batch))
    ensures forall t :: Stores(Written(db, batch), t) ==> Stores(db, t) || t in batch
    decreases |batch|
  {
    if batch != [] {
      var next := db[PathOf(batch[0]) := Readable(batch[0])];
      WrittenFacts(next, batch[1..]);
      forall t | Stores(Written(db, batch), t)
        ensures Stores(db, t) || t in batch
      {
        if t !in batch[1..] {
          var p :| p in next && next[p] == Readable(t);
          assert p != PathOf(batch[0]) ==> p in db && db[p] == Readable(t);
        }
      }
    }
  }

  /** What is behind a batch in the queue is not in the batch. */
  lemma RestUnstored(db: Database, batch: seq<Tx>, rest: seq<Tx>)
    requires Increasing(batch + rest) && Unstored(db, batch + rest)
    ensures Unstored(db, rest) && Unstored(Written(db, batch), rest)
  {
    WrittenFacts(db, batch);
    forall t | t in rest
      ensures t in batch + rest && t !in batch
    {
      var i :| 0 <= i < |rest| && rest[i] == t;
      assert (batch + rest)[|batch| + i] == t;
      forall j | 0 <= j < |batch|
        ensures batch[j] != t
      {
        assert (batch + rest)[j] == batch[j];
      }
    }
  }

  lemma SendKeeps(s: State, fate: Fate)
    requires Inv(s)
    ensures Inv(Send(s, fate))
  {
    if s.queue != [] {
      var batch := s.queue[0];
      var popped := s.(queue := s.queue[1..]);
      var rest := Flat(popped.queue);
      assert Flat(s.queue) == batch + rest;
      RestUnstored(s.db, batch, rest);
      if fate.PutRefused? {
        assert forall i :: 0 <= i < |rest| ==> rest[i] == Flat(s.queue)[|batch| + i];
        assert forall t :: t in rest ==> t in Flat(s.queue);
      } else {
        var start := if fate.Committed? then popped.(db := Written(s.db, batch)) else popped;
        forall t | t in batch
          ensures t in Flat(s.queue) && Parsable(t)
        {
          assert t in batch + rest;
          assert Waiting(s.me, s.nonce, s.log, t);
        }
        ParseBatchKeeps(start, batch);
        ParseBatchFrame(start, batch);
        WrittenFacts(s.db, batch);
      }
    }
  }

  // ------------------------------------------------ checking the database

  /** Under the guard, a key that is not marked holds a transaction not parsed yet. */
  lemma UnmarkedIsNew(s: State, p: Path)
    requires Inv(s) && Fetchable(s.db, p)
    requires if p.address == s.me then p !in s.outgoing else p !in s.incoming
    ensures s.db[p].tx !in s.log && s.db[p].tx !in Flat(s.queue)
  {
    var tx := s.db[p].tx;
    assert PathOf(tx) == p && Stores(s.db, tx);
    assert !Marked(s.me, s.outgoing, s.incoming, tx);
  }

  lemma QueueKeeps(me: Address, nonce: nat, nonce': nat, log: seq<Tx>, queued: seq<Tx>, tx: Tx)
    requires QueueOk(me, nonce, log, queued) && tx !in queued && nonce <= nonce'
    ensures QueueOk(me, nonce', log + [tx], queued)
  {
    forall t | t in queued
      ensures Waiting(me, nonce', log + [tx], t)
    {
      assert Waiting(me, nonce, log, t);
    }
  }

  lemma CheckInOneKeeps(s: State, p: Path)
    requires Inv(s) && p.address != s.me
    ensures Inv(CheckInOne(s, p))
  {
    hide CoinsFollowLog, Apply, SpendsOk;
    if p !in s.incoming && Fetchable(s.db, p) {
      var tx := s.db[p].tx;
      UnmarkedIsNew(s, p);
      ParseFollowsLog(s.me, s.utxos, s.log, tx);
      ParseKeepsLog(s.me, s.log, tx, s.outgoing, s.incoming, s.outgoing, s.incoming[p := tx]);
      ParseKeepsSpends(s.me, s.spends, s.log, s.utxos, tx);
      QueueKeeps(s.me, s.nonce, s.nonce, s.log, Flat(s.queue), tx);
    }
  }

  lemma {:induction false} CheckIncomingKeeps(s: State, keys: seq<Path>)
    requires Inv(s) && forall p :: p in keys ==> p.address != s.me
    ensures Inv(CheckIncoming(s, keys)) && CheckIncoming(s, keys).me == s.me
    decreases |keys|
  {
    if keys != [] {
      CheckInOneKeeps(s, keys[0]);
      CheckIncomingKeeps(CheckInOne(s, keys[0]), keys[1..]);
    }
  }

  lemma CheckOutOneKeeps(s: State, p: Path)
    requires Inv(s) && p.address == s.me
    ensures Inv(CheckOutOne(s, p))
  {
    hide CoinsFollowLog, Apply, SpendsOk;
    if p !in s.outgoing && Fetchable(s.db, p) {
      var tx, s' := s.db[p].tx, CheckOutOne(s, p);
      UnmarkedIsNew(s, p);
      ParseFollowsLog(s.me, s.utxos, s.log, tx);
      ParseKeepsLog(s.me, s.log, tx, s.outgoing, s.incoming, s.outgoing[p := tx], s.incoming);
      ParseKeepsSpends(s.me, s.spends, s.log, s.utxos, tx);
      QueueKeeps(s.me, s.nonce, s'.nonce, s.log, Flat(s.queue), tx);
    }
  }

  lemma {:induction false} CheckOutgoingKeeps(s: State, keys: seq<Path>)
    requires Inv(s) && forall p :: p in keys ==> p.address == s.me
    ensures Inv(CheckOutgoing(s, keys)) && CheckOutgoing(s, keys).me == s.me
    decreases |keys|
  {
    if keys != [] {
      CheckOutOneKeeps(s, keys[0]);
      CheckOutgoingKeeps(CheckOutOne(s, keys[0]), keys[1..]);
    }
  }

  /** What checking incoming transactions does not touch. */
  lemma {:induction false} CheckIncomingFrame(s: State, keys: seq<Path>)
    ensures var s' := CheckIncoming(s, keys);
            && s'.me == s.me && s'.db == s.db && s.log <= s'.log && s'.nonce == s.nonce && s'.queue == s.queue
            && s'.outgoing == s.outgoing && s'.spends == s.spends && s'.issued == s.issued
    decreases |keys|
  {
    if keys != [] {
      CheckIncomingFrame(CheckInOne(s, keys[0]), keys[1..]);
    }
  }

  /** What checking outgoing transactions does not touch, and that it marks every
      key it can parse. */
  lemma {:induction false} CheckOutgoingFrame(s: State, keys: seq<Path>)
    ensures var s' := CheckOutgoing(s, keys);
            && s'.me == s.me && s'.db == s.db && s.log <= s'.log && s.nonce <= s'.nonce && s'.queue == s.queue
            && s'.incoming == s.incoming && s'.spends == s.spends && s'.issued == s.issued
            && s.outgoing.Keys <= s'.outgoing.Keys
            && (forall p :: p in keys && Fetchable(s.db, p) ==> p in s'.outgoing)
    decreases |keys|
  {
    hide Apply, Fetchable;
    if keys != [] {
      CheckOutgoingFrame(CheckOutOne(s, keys[0]), keys[1..]);
    }
  }

  /** Checking outgoing transactions changes nothing if and only if every key is
      marked or cannot be parsed. */
  lemma {:induction false} CheckOutgoingIdleIff(s: State, keys: seq<Path>)
    ensures CheckOutgoing(s, keys) == s <==> forall p :: p in keys ==> p in s.outgoing || !Fetchable(s.db, p)
    decreases |keys|
  {
    hide Apply, Fetchable;
    if keys != [] {
      var next := CheckOutOne(s, keys[0]);
      CheckOutgoingFrame(next, keys[1..]);
      CheckOutgoingIdleIff(s, keys[1..]);
      assert keys[0] in keys && forall p :: p in keys ==> p == keys[0] || p in keys[1..];
      if keys[0] !in s.outgoing && Fetchable(s.db, keys[0]) {
        assert |next.log| > |s.log|;
      }
    }
  }

  // ------------------------------------------------ every step, every run

  /** Starting on any database that obeys the guard. */
  lemma StartEstablishes(me: Address, db: Database, inKeys: seq<Path>, outKeys: seq<Path>)
    requires Started(me, db, inKeys, outKeys) && Filed(db)
    ensures Inv(Start(me, db, inKeys, outKeys)) && Start(me, db, inKeys, outKeys).me == me
  {
    var s := Init(me, db);
    assert Inv(s);
    CheckIncomingKeeps(s, inKeys);
    CheckOutgoingKeeps(CheckIncoming(s, inKeys), outKeys);
  }

  lemma ReplicateKeeps(s: State, path: Path, value: Stored)
    requires Inv(s) && (value.Readable? ==> PathOf(value.tx) == path && value.tx !in Flat(s.queue))
    ensures Inv(s.(db := s.db[path := value]))
  {
    var db := s.db[path := value];
    forall t | t in Flat(s.queue)
      ensures !Stores(db, t)
    {
      assert !Stores(s.db, t);
      assert forall p :: p in db && db[p] == Readable(t) ==> p in s.db && s.db[p] == Readable(t);
    }
  }

  lemma StepKeeps(s: State, a: Action)
    requires Inv(s) && Enabled(s, a) && Guarded([a])
    ensures Inv(Step(s, a))
  {
    hide Inv;
    assert a in [a];
    match a
    case DoTransfer(amount, dest, token, time) => TransferKeeps(s, amount, dest, token, time);
    case DoMint(amount, previous, chain, token, time) => MintKeeps(s, amount, previous, chain, token, time);
    case DoHold(amount, escrow, dev, cut, time) => HoldKeeps(s, amount, escrow, dev, cut, time);
    case DoPay(fetched, results, time) => PayKeeps(s, fetched, results, time);
    case DoSend(fate) => SendKeeps(s, fate);
    case DoCheckIncoming(keys) => CheckIncomingKeeps(s, keys);
    case DoCheckOutgoing(keys) => CheckOutgoingKeeps(s, keys);
    case Replicate(path, value) => ReplicateKeeps(s, path, value);
  }

  lemma {:induction false} RunKeeps(s: State, actions: seq<Action>)
    requires Inv(s) && Runs(s, actions) && Guarded(actions)
    ensures Inv(Run(s, actions))
    decreases |actions|
  {
    if actions != [] {
      assert actions[0] in actions && Guarded(actions[1..]);
      StepKeeps(s, actions[0]);
      RunKeeps(Step(s, actions[0]), actions[1..]);
    }
  }

  // ------------------------------------------------ what holds without the guard

  /** Coins are the replay of what was parsed, nonces increase, no spend uses an
      output twice and what is queued can be parsed, whatever the database holds
      under whatever key. */
  ghost predicate Base(s: State) {
    && CoinsFollowLog(s.me, s.utxos, s.log)
    && IssuedOk(s.me, s.nonce, s.issued)
    && (forall t :: t in s.spends ==> NoRepeats(Inputs(t)))
    && (forall t :: t in Flat(s.queue) ==> Parsable(t))
  }

  lemma IssueBase(s: State, batch: seq<Tx>)
    requires Base(s) && Fresh(s, batch)
    ensures Base(Issue(s, batch))
  {
    hide CoinsFollowLog;
    assert Increasing(batch);
    AppendIncreasing(s.issued, batch, s.nonce);
    FlatAppend(s.queue, batch);
  }

  lemma SpendBase(s: State, chosen: seq<Utxo>, tx: Tx)
    requires Base(s) && Fresh(s, [tx]) && Inputs(tx) == Points(chosen) && Distinct(chosen)
    ensures Base(Issue(s.(utxos := Lock(s.utxos, Inputs(tx)), spends := s.spends + [tx]), [tx]))
  {
    hide CoinsFollowLog;
    LockFacts(s.me, s.utxos, s.log, Inputs(tx));
    assert NoRepeats(Inputs(tx));
    IssueBase(s.(utxos := Lock(s.utxos, Inputs(tx)), spends := s.spends + [tx]), [tx]);
  }

  lemma BuildBase(s: State, a: Action)
    requires Base(s) && Shaped(a) && (a.DoTransfer? || a.DoMint? || a.DoHold? || a.DoPay?)
    ensures Base(Step(s, a))
  {
    var s' := Step(s, a);
    if s' == s {
    } else if a.DoTransfer? {
      var chosen := SelectedInputs(s.utxos, s.me, a.amount, a.dest, a.token);
      SpendBase(s, chosen, s'.spends[|s.spends|]);
    } else if a.DoHold? {
      var chosen := SelectedInputs(s.utxos, s.me, a.amount, a.escrow, FromBytes([0]));
      SpendBase(s, chosen, s'.spends[|s.spends|]);
    } else {
      var batch := s'.issued[|s.issued|..];
      assert s' == Issue(s, batch);
      IssueBase(s, batch);
    }
  }

  lemma {:induction false} BatchBase(s: State, batch: seq<Tx>)
    requires Base(s)
    ensures Base(ParseBatch(s, batch))
    decreases |batch|
  {
    hide CoinsFollowLog, Apply, IssuedOk, NoRepeats;
    if batch != [] && Parsable(batch[0]) {
      ParseFollowsLog(s.me, s.utxos, s.log, batch[0]);
      BatchBase(ParseOutgoing(s, batch[0]), batch[1..]);
    }
  }

  lemma {:induction false} CheckIncomingBase(s: State, keys: seq<Path>)
    requires Base(s)
    ensures Base(CheckIncoming(s, keys))
    decreases |keys|
  {
    hide CoinsFollowLog, Apply, IssuedOk, NoRepeats;
    if keys != [] {
      if keys[0] !in s.incoming && Fetchable(s.db, keys[0]) {
        ParseFollowsLog(s.me, s.utxos, s.log, s.db[keys[0]].tx);
      }
      CheckIncomingBase(CheckInOne(s, keys[0]), keys[1..]);
    }
  }

  lemma {:induction false} CheckOutgoingBase(s: State, keys: seq<Path>)
    requires Base(s)
    ensures Base(CheckOutgoing(s, keys))
    decreases |keys|
  {
    hide CoinsFollowLog, Apply, NoRepeats;
    if keys != [] {
      if keys[0] !in s.outgoing && Fetchable(s.db, keys[0]) {
        ParseFollowsLog(s.me, s.utxos, s.log, s.db[keys[0]].tx);
      }
      CheckOutgoingBase(CheckOutOne(s, keys[0]), keys[1..]);
    }
  }

  lemma StepBase(s: State, a: Action)
    requires Base(s) && Shaped(a)
    ensures Base(Step(s, a))
  {
    hide CoinsFollowLog;
    match a
    case DoSend(fate) =>
      if s.queue != [] {
        var popped := s.(queue := s.queue[1..]);
        assert forall t :: t in Flat(popped.queue) ==> t in Flat(s.queue);
        BatchBase(popped, s.queue[0]);
        BatchBase(popped.(db := Written(s.db, s.queue[0])), s.queue[0]);
      }
    case DoCheckIncoming(keys) => CheckIncomingBase(s, keys);
    case DoCheckOutgoing(keys) => CheckOutgoingBase(s, keys);
    case Replicate(_, _) =>
    case _ => BuildBase(s, a);
  }

  lemma {:induction false} RunBase(s: State, actions: seq<Action>)
    requires Base(s) && Runs(s, actions)
    ensures Base(Run(s, actions))
    decreases |actions|
  {
    if actions != [] {
      StepBase(s, actions[0]);
      RunBase(Step(s, actions[0]), actions[1..]);
    }
  }

  lemma StartBase(me: Address, db: Database, inKeys: seq<Path>, outKeys: seq<Path>)
    ensures Base(Start(me, db, inKeys, outKeys))
  {
    var s := Init(me, db);
    assert Base(s);
    CheckIncomingBase(s, inKeys);
    CheckOutgoingBase(CheckIncoming(s, inKeys), outKeys);
  }
}
