/** Safety over whole runs of a node: no local double spend, each transaction
    parsed once, fresh nonces, no resurrection of spent coins. */
module NodeRuns {
  import opened Machine
  import opened Tokens
  import opened Transactions
  import opened CoinSelection
  import opened Replay
  import opened Node
  import opened NodeSafety

  // ------------------------------------------------ what only grows

  /** Histories and marks only grow, and what is newly issued is numbered above `nonce`. */
  ghost predicate Extends(s: State, s': State) {
    && s'.me == s.me && s.nonce <= s'.nonce && s.outgoing.Keys <= s'.outgoing.Keys
    && s.log <= s'.log && s.spends <= s'.spends && s.issued <= s'.issued
    && (forall t :: t in s'.issued[|s.issued|..] ==> t.dag.nonce > s.nonce && t.dag.source == s.me)
  }

  lemma IssueExtends(s: State, batch: seq<Tx>)
    requires Fresh(s, batch)
    ensures Extends(s, Issue(s, batch))
  {
    assert (s.issued + batch)[|s.issued|..] == batch;
  }

  lemma ExtendsTransitive(a: State, b: State, c: State)
    requires Extends(a, b) && Extends(b, c)
    ensures Extends(a, c)
  {
    forall t | t in c.issued[|a.issued|..]
      ensures t.dag.nonce > a.nonce && t.dag.source == a.me
    {
      var k :| |a.issued| <= k < |c.issued| && c.issued[k] == t;
      if k < |b.issued| {
        assert b.issued[k] == t && t in b.issued[|a.issued|..];
      } else {
        assert t in c.issued[|b.issued|..];
      }
    }
  }

  lemma SpendExtends(s: State, utxos: seq<Utxo>, tx: Tx)
    requires Fresh(s, [tx])
    ensures Extends(s, Issue(s.(utxos := utxos, spends := s.spends + [tx]), [tx]))
  {
    assert (s.issued + [tx])[|s.issued|..] == [tx];
  }

  lemma TransferExtends(s: State, amount: u64, dest: Address, token: TokenId, time: int)
    ensures Extends(s, TransferFunds(s, amount, dest, token, time))
  {
    var params := SelectOne(s.utxos, s.me, amount, dest, token);
    if params.Some? {
      SpendExtends(s, Lock(s.utxos, params.value.inputs),
                   Transfer(NextDag(s, 1, time, ""), params.value.inputs, params.value.outputs));
    }
  }

  lemma HoldExtends(s: State, amount: u64, escrow: Address, dev: Address, cut: u64, time: int)
    ensures Extends(s, HoldEscrow(s, amount, escrow, dev, cut, time))
  {
    var params := SelectOne(s.utxos, s.me, amount, escrow, FromBytes([0]));
    if params.Some? {
      SpendExtends(s, Lock(s.utxos, params.value.inputs),
                   EscrowHold(NextDag(s, 1, time, ""), params.value.inputs, params.value.outputs, amount, dev, cut));
    }
  }

  lemma PayExtends(s: State, fetched: Option<Tx>, results: seq<TaskResult>, time: int)
    requires fetched.Some? ==> fetched.value.EscrowHold? && fetched.value.outputs != []
    ensures Extends(s, PayEscrow(s, fetched, results, time))
  {
    var s' := PayEscrow(s, fetched, results, time);
    if s' != s {
      IssueExtends(s, s'.issued[|s.issued|..]);
    }
  }

  /** Parsing a batch marks its paths, as far as it gets. */
  lemma {:induction false} BatchMarks(s: State, batch: seq<Tx>)
    ensures s.outgoing.Keys <= ParseBatch(s, batch).outgoing.Keys
    ensures (forall t :: t in batch ==> Parsable(t)) ==>
            forall t :: t in batch ==> PathOf(t) in ParseBatch(s, batch).outgoing
    decreases |batch|
  {
    hide Apply, PathOf;
    if batch != [] && Parsable(batch[0]) {
      BatchMarks(ParseOutgoing(s, batch[0]), batch[1..]);
    }
  }

  lemma SendExtends(s: State, fate: Fate)
    ensures Extends(s, Send(s, fate))
  {
    hide Apply;
    if s.queue != [] {
      var popped := s.(queue := s.queue[1..]);
      var written := popped.(db := Written(s.db, s.queue[0]));
      ParseBatchFrame(popped, s.queue[0]);
      ParseBatchFrame(written, s.queue[0]);
      BatchMarks(popped, s.queue[0]);
      BatchMarks(written, s.queue[0]);
    }
  }

  lemma StepExtends(s: State, a: Action)
    requires Shaped(a)
    ensures Extends(s, Step(s, a))
  {
    match a
    case DoTransfer(amount, dest, token, time) => TransferExtends(s, amount, dest, token, time);
    case DoMint(amount, previous, chain, token, time) =>
      IssueExtends(s, [Mint(NextDag(s, 1, time, previous), chain, amount, token)]);
    case DoHold(amount, escrow, dev, cut, time) => HoldExtends(s, amount, escrow, dev, cut, time);
    case DoPay(fetched, results, time) => PayExtends(s, fetched, results, time);
    case DoSend(fate) => SendExtends(s, fate);
    case DoCheckIncoming(keys) => CheckIncomingFrame(s, keys);
    case DoCheckOutgoing(keys) => CheckOutgoingFrame(s, keys);
    case Replicate(_, _) =>
  }

  lemma {:induction false} RunExtends(s: State, actions: seq<Action>)
    requires Runs(s, actions)
    ensures Extends(s, Run(s, actions))
    decreases |actions|
  {
    if actions != [] {
      var next := Step(s, actions[0]);
      StepExtends(s, actions[0]);
      RunExtends(next, actions[1..]);
      ExtendsTransitive(s, next, Run(next, actions[1..]));
    }
  }

  // ------------------------------------------------ theorems over all runs

  /** In every run, whatever the database holds under whatever key: the coins are
      the replay of what was parsed, nonces strictly increase, and no transfer or
      hold uses an output twice. */
  lemma ReplayInEveryRun(me: Address, db: Database, inKeys: seq<Path>, outKeys: seq<Path>, actions: seq<Action>)
    requires Started(me, db, inKeys, outKeys)
    requires Runs(Start(me, db, inKeys, outKeys), actions)
    ensures var s := Run(Start(me, db, inKeys, outKeys), actions);
            && s.me == me && Strip(s.utxos) == After(me, s.log) && Increasing(s.issued)
            && (forall t :: t in s.spends ==> NoRepeats(Inputs(t)))
  {
    var s := Start(me, db, inKeys, outKeys);
    StartBase(me, db, inKeys, outKeys);
    StartFrame(me, db, inKeys, outKeys);
    RunBase(s, actions);
    RunExtends(s, actions);
  }

  lemma StartFrame(me: Address, db: Database, inKeys: seq<Path>, outKeys: seq<Path>)
    ensures var s := Start(me, db, inKeys, outKeys);
            && s.me == me && s.db == db && s.issued == []
            && (forall p :: p in outKeys && Fetchable(db, p) ==> p in s.outgoing)
  {
    CheckIncomingFrame(Init(me, db), inKeys);
    CheckOutgoingFrame(CheckIncoming(Init(me, db), inKeys), outKeys);
  }

  /** The keys of a batch, once sent, are never parsed by `CheckOutgoing`: it leaves
      the state unchanged on them after any run, committed or not. */
  lemma SentKeysIdle(me: Address, db: Database, inKeys: seq<Path>, outKeys: seq<Path>,
                     before: seq<Action>, fate: Fate, after: seq<Action>, keys: seq<Path>)
    requires Started(me, db, inKeys, outKeys) && Runs(Start(me, db, inKeys, outKeys), before)
    requires var s := Run(Start(me, db, inKeys, outKeys), before);
             && s.queue != [] && fate != PutRefused && Runs(Send(s, fate), after)
             && forall p :: p in keys ==> exists t :: t in s.queue[0] && PathOf(t) == p
    ensures var s' := Run(Send(Run(Start(me, db, inKeys, outKeys), before), fate), after);
            CheckOutgoing(s', keys) == s'
  {
    hide CheckOutgoing, Fetchable, Apply;
    var s := Run(Start(me, db, inKeys, outKeys), before);
    StartBase(me, db, inKeys, outKeys);
    RunBase(Start(me, db, inKeys, outKeys), before);
    SendMarks(s, fate);
    RunExtends(Send(s, fate), after);
    CheckOutgoingIdleIff(Run(Send(s, fate), after), keys);
  }

  lemma SendMarks(s: State, fate: Fate)
    requires Base(s) && s.queue != [] && fate != PutRefused
    ensures forall t :: t in s.queue[0] ==> PathOf(t) in Send(s, fate).outgoing
  {
    hide Apply, PathOf;
    var popped := s.(queue := s.queue[1..]);
    assert forall t :: t in s.queue[0] ==> t in Flat(s.queue);
    BatchMarks(popped, s.queue[0]);
    BatchMarks(popped.(db := Written(s.db, s.queue[0])), s.queue[0]);
  }

  // ------------------------------------------------ theorems under the guard

  /** No local double spend: in every run of a node whose database stores
      transactions under their own paths, any two distinct transfers or escrow
      holds it built have disjoint inputs. */
  lemma NoDoubleSpend(me: Address, db: Database, inKeys: seq<Path>, outKeys: seq<Path>, actions: seq<Action>)
    requires Started(me, db, inKeys, outKeys) && Runs(Start(me, db, inKeys, outKeys), actions)
    requires Filed(db) && Guarded(actions)
    ensures var built := Run(Start(me, db, inKeys, outKeys), actions).spends;
            forall i, j :: 0 <= i < j < |built| ==> Disjoint(built[i], built[j])
  {
    StartEstablishes(me, db, inKeys, outKeys);
    RunKeeps(Start(me, db, inKeys, outKeys), actions);
  }

  /** Exactly once: under the guard no transaction is parsed twice in any run. */
  lemma ParsedOnce(me: Address, db: Database, inKeys: seq<Path>, outKeys: seq<Path>, actions: seq<Action>)
    requires Started(me, db, inKeys, outKeys) && Runs(Start(me, db, inKeys, outKeys), actions)
    requires Filed(db) && Guarded(actions)
    ensures NoneTwice(Run(Start(me, db, inKeys, outKeys), actions).log)
  {
    StartEstablishes(me, db, inKeys, outKeys);
    RunKeeps(Start(me, db, inKeys, outKeys), actions);
  }

  /** Fresh names: under the guard, what a run builds from any point on has paths
      that differ from each other, from every own key marked by then, and from
      every readable own key found at the start. */
  lemma NoncesFresh(me: Address, db: Database, inKeys: seq<Path>, outKeys: seq<Path>,
                    before: seq<Action>, after: seq<Action>)
    requires Started(me, db, inKeys, outKeys) && Runs(Start(me, db, inKeys, outKeys), before)
    requires Runs(Run(Start(me, db, inKeys, outKeys), before), after)
    requires Filed(db) && Guarded(before)
    ensures var s := Run(Start(me, db, inKeys, outKeys), before);
            var s' := Run(s, after);
            && s.issued <= s'.issued
            && (forall i, j :: 0 <= i < j < |s'.issued| ==> PathOf(s'.issued[i]) != PathOf(s'.issued[j]))
            && (forall t :: t in s'.issued[|s.issued|..] ==> PathOf(t) !in s.outgoing)
            && (forall t, p: Path :: t in s'.issued[|s.issued|..] && p.address == me && Fetchable(db, p) ==> PathOf(t) != p)
  {
    var start := Start(me, db, inKeys, outKeys);
    StartEstablishes(me, db, inKeys, outKeys);
    StartFrame(me, db, inKeys, outKeys);
    StartBase(me, db, inKeys, outKeys);
    RunKeeps(start, before);
    RunExtends(start, before);
    var s := Run(start, before);
    RunBase(start, before);
    RunBase(s, after);
    RunExtends(s, after);
    forall p: Path | p.address == me && Fetchable(db, p)
      ensures p in s.outgoing
    {
      assert p in outKeys;
    }
  }

  /** No resurrection: under the guard, an output whose creator was parsed and
      which was spent no earlier is gone and stays gone in every continuation. */
  lemma NoResurrection(s: State, actions: seq<Action>, o: OutPoint, j: nat, k: nat)
    requires Inv(s) && Runs(s, actions) && Guarded(actions)
    requires j <= k < |s.log| && s.log[j] == o.txid.of && o in Spends(s.me, s.log[k])
    ensures o !in Keys(Run(s, actions).utxos)
  {
    var s' := Run(s, actions);
    RunKeeps(s, actions);
    RunExtends(s, actions);
    StripKeys(s'.utxos);
    ReplayHoldsSurvivors(s'.me, s'.log, o);
    assert s'.log[j] == s.log[j] && s'.log[k] == s.log[k];
    forall i | 0 <= i < |s'.log| && o in Created(s'.me, s'.log[i])
      ensures SpentFrom(s'.me, s'.log, o, i)
    {
      assert s'.log[i] == s'.log[j];
      assert i == j;
    }
  }

  /** The coins of a running node are exactly the ledger's unspent outputs if and
      only if what it parsed spends outputs no earlier than it creates them. */
  lemma HoldingsAreLedgerIff(s: State)
    requires Base(s)
    ensures (forall o :: o in Keys(s.utxos) <==> Unspent(s.me, SetOf(s.log), o)) <==> SpentAfterCreated(s.me, s.log)
  {
    StripKeys(s.utxos);
    ReplayIsLedgerIff(s.me, s.log);
  }

  /** When that is so, a new transfer does not touch an output that any parsed
      transaction spent, including those of earlier sessions. */
  lemma TransferUsesUnspent(s: State, amount: u64, dest: Address, token: TokenId, t: Tx, o: OutPoint)
    requires Base(s) && SpentAfterCreated(s.me, s.log)
    requires SelectOne(s.utxos, s.me, amount, dest, token).Some?
    requires o in SelectOne(s.utxos, s.me, amount, dest, token).value.inputs
    requires t in s.log
    ensures o !in Spends(s.me, t)
  {
    var chosen := SelectedInputs(s.utxos, s.me, amount, dest, token);
    var k :| 0 <= k < |chosen| && chosen[k].at == o;
    assert chosen[k] in chosen;
    HoldingsAreLedgerIff(s);
    assert o in Keys(s.utxos);
  }

  // ------------------------------------------------ stepping through a run

  lemma RunCons(s: State, a: Action, rest: seq<Action>)
    requires Enabled(s, a) && Runs(Step(s, a), rest)
    ensures Runs(s, [a] + rest) && Run(s, [a] + rest) == Run(Step(s, a), rest)
  {
    hide Enabled, Step;
    assert ([a] + rest)[1..] == rest;
  }

  lemma SendsFirst(s: State, tx: Tx)
    requires s.queue == [[tx]] && Parsable(tx)
    ensures Send(s, Committed) ==
            s.(queue := [], db := s.db[PathOf(tx) := Readable(tx)], utxos := Apply(s.me, s.utxos, tx),
               log := s.log + [tx], outgoing := s.outgoing[PathOf(tx) := tx])
  {
    hide Apply, PathOf;
    var start := s.(queue := [], db := s.db[PathOf(tx) := Readable(tx)]);
    assert [[tx]][1..] == [] && [tx][1..] == [];
    assert Written(s.db, [tx]) == Written(start.db, []);
    assert ParseBatch(start, [tx]) == ParseBatch(ParseOutgoing(start, tx), []);
  }

  lemma SendEnabled(s: State)
    ensures Enabled(s, DoSend(Committed))
  {
  }

  // ------------------------------------------------ a restart that resurrects a coin

  /** A session that minted and then held an escrow of that mint. A query returns
      its keys in text order, and "escrow-hold" sorts before "mint". */
  ghost predicate OldSession(me: Address, mint: Tx, hold: Tx) {
    && mint.Mint? && mint.dag.source == me
    && hold.EscrowHold? && hold.dag.source == me
    && hold.inputs == [OutPoint(Digest(mint), 0)]
    && (exists escrow: Output :: hold.outputs == [escrow] && escrow.dest != me)
  }

  function OldDatabase(mint: Tx, hold: Tx): Database {
    map[PathOf(mint) := Readable(mint), PathOf(hold) := Readable(hold)]
  }

  lemma OldSessionStarts(me: Address, mint: Tx, hold: Tx)
    requires OldSession(me, mint, hold)
    ensures PathOf(mint) != PathOf(hold)
    ensures Started(me, OldDatabase(mint, hold), [], [PathOf(hold), PathOf(mint)]) && Filed(OldDatabase(mint, hold))
  {
    assert Kind(mint)[0] != Kind(hold)[0];
  }

  /** Restarting on such a database brings the spent mint back as an unlocked
      coin: the hold is parsed first and finds nothing to remove. The lock of the
      first session is lost too, so the coin can be selected again. */
  lemma RestartResurrects(me: Address, mint: Tx, hold: Tx)
    requires OldSession(me, mint, hold)
    ensures var db := OldDatabase(mint, hold);
            && Started(me, db, [], [PathOf(hold), PathOf(mint)]) && Filed(db)
            && Start(me, db, [], [PathOf(hold), PathOf(mint)]).utxos == [Minted(mint, 0)]
            && Start(me, db, [], [PathOf(mint), PathOf(hold)]).utxos == []
  {
    hide Apply, Minted, PathOf, Started, CheckOutgoing, Filed;
    OldSessionStarts(me, mint, hold);
    HoldAlone(me, mint, hold);
    var p, q := PathOf(mint), PathOf(hold);
    var s := Init(me, OldDatabase(mint, hold));
    assert CheckIncoming(s, []) == s;
    CheckTwo(s, q, p);
    CheckTwo(s, p, q);
  }

  lemma CheckTwo(s: State, p: Path, q: Path)
    ensures CheckOutgoing(s, [p, q]) == CheckOutOne(CheckOutOne(s, p), q)
  {
    var one := CheckOutOne(s, p);
    assert [p, q][1..] == [q] && [q][1..] == [];
    assert CheckOutgoing(one, [q]) == CheckOutgoing(CheckOutOne(one, q), []);
  }

  lemma HoldAlone(me: Address, mint: Tx, hold: Tx)
    requires OldSession(me, mint, hold)
    ensures Apply(me, [], hold) == [] && Apply(me, [], mint) == [Minted(mint, 0)]
    ensures Apply(me, [Minted(mint, 0)], hold) == []
  {
    var coin := Minted(mint, 0);
    assert OutputCount(hold) == 1 && !Credits(me, hold, 0);
    assert Credit(me, [], hold, 1) == Credit(me, [], hold, 0) == [];
    assert Credit(me, [coin], hold, 1) == Credit(me, [coin], hold, 0) == [coin];
    assert coin.at in Spends(me, hold);
    assert [coin][1..] == [];
    assert Credit(me, [], mint, 1) == Put([], coin) == [coin];
    assert Refresh([coin], []) == [coin] + Refresh([], []);
  }
}
