/** A node inside the network: its run and the network's history advance together.
    Whatever the node builds along any such run is a possible deed, so the supply
    theorem applies to the states its own steps lead to. */
module Network {
  import opened Machine
  import opened Tokens
  import opened Transactions
  import opened CoinSelection
  import opened Replay
  import opened TokenAmount
  import opened Node
  import opened NodeSafety
  import opened NodeRuns
  import opened Supply

  datatype World = World(history: seq<Tx>, node: State)

  /** A step of the node, or a deed of somebody else. */
  datatype Move = Own(action: Action) | Other(deed: Deed)

  /** The transactions a step builds. */
  ghost function NewOnes(s: State, a: Action): seq<Tx>
    requires Shaped(a)
  {
    var issued := Step(s, a).issued;
    if s.issued <= issued then issued[|s.issued|..] else []
  }

  /** The deed behind a step of the node. */
  ghost function DeedOf(s: State, a: Action): Option<Deed>
    requires Shaped(a)
  {
    match a
    case DoTransfer(amount, dest, token, time) =>
      Some(TransferDeed(NextDag(s, 1, time, ""), s.utxos, amount, dest, token))
    case DoMint(amount, previous, chain, token, time) =>
      Some(MintDeed(NextDag(s, 1, time, previous), chain, amount, token))
    case DoHold(amount, escrow, dev, cut, time) =>
      Some(HoldDeed(NextDag(s, 1, time, ""), s.utxos, amount, escrow, dev, cut))
    case DoPay(fetched, results, time) =>
      if results == [] || fetched.None? then None
      else Some(PayDeed(NextDag(s, 1, time, ""), fetched.value, results))
    case _ => None
  }

  /** What can happen: the node's own step is enabled and guarded, what is stored
      comes from the history, what it builds is new, and it pays open escrows;
      others do possible deeds of their own. */
  ghost predicate Allowed(w: World, m: Move) {
    match m
    case Own(a) =>
      && Enabled(w.node, a) && Guarded([a])
      && (a.Replicate? && a.value.Readable? ==> a.value.tx in w.history)
      && (forall t :: t in NewOnes(w.node, a) ==> t !in w.history)
      && (a.DoPay? && a.fetched.Some? ==> OutPoint(Digest(a.fetched.value), 0) in Pool(w.history))
    case Other(d) => d.dag.source != w.node.me && Possible(w.history, d)
  }

  ghost function Advance(w: World, m: Move): World
    requires Allowed(w, m)
  {
    match m
    case Own(a) => World(w.history + NewOnes(w.node, a), Step(w.node, a))
    case Other(d) => World(Append(w.history, d), w.node)
  }

  /** The numbers of a move fit in 64 bits. */
  ghost predicate Fits(w: World, m: Move)
    requires Allowed(w, m)
  {
    match m
    case Own(a) => DeedOf(w.node, a).Some? ==> Exact(DeedOf(w.node, a).value)
    case Other(d) => Exact(d)
  }

  // ------------------------------------------------ the coupling

  /** An output paid to us by a transaction we have not parsed is still unspent. */
  ghost predicate Untouched(history: seq<Tx>, me: Address, log: seq<Tx>) {
    forall t, o :: t in history && t !in log && o in Created(me, t) ==> o in Pool(history)
  }

  ghost predicate Coins(history: seq<Tx>, s: State) {
    OwnsUnlocked(history, s.me, s.utxos) && Untouched(history, s.me, s.log)
  }

  ghost predicate Coupled(w: World) {
    && Inv(w.node) && LegitHistory(w.history) && Coins(w.history, w.node)
    && (forall t :: t in Flat(w.node.queue) ==> t in w.history)
    && (forall t :: Stores(w.node.db, t) ==> t in w.history)
  }

  // ------------------------------------------------ parsing

  lemma ParseCoins(history: seq<Tx>, s: State, tx: Tx, s': State)
    requires Coins(history, s) && tx in history && tx !in s.log
    requires s'.me == s.me && s'.utxos == Apply(s.me, s.utxos, tx) && s'.log == s.log + [tx]
    ensures Coins(history, s')
  {
    hide Apply, OwnsUnlocked;
    ParseQualifies(history, s.me, s.utxos, tx);
  }

  lemma {:induction false} BatchCoins(history: seq<Tx>, s: State, batch: seq<Tx>)
    requires Coins(history, s) && Increasing(batch)
    requires forall t :: t in batch ==> t in history && t !in s.log
    ensures Coins(history, ParseBatch(s, batch))
    decreases |batch|
  {
    hide Coins, Apply;
    if batch != [] && Parsable(batch[0]) {
      var next, rest := ParseOutgoing(s, batch[0]), batch[1..];
      ParseCoins(history, s, batch[0], next);
      forall i | 0 <= i < |rest|
        ensures rest[i] in history && rest[i] !in next.log
      {
        assert rest[i] == batch[i + 1] && batch[0].dag.nonce < batch[i + 1].dag.nonce;
      }
      forall i, j | 0 <= i < j < |rest|
        ensures rest[i].dag.nonce < rest[j].dag.nonce
      {
        assert rest[i] == batch[i + 1] && rest[j] == batch[j + 1];
      }
      BatchCoins(history, next, rest);
    }
  }

  lemma {:induction false} CheckIncomingCoins(history: seq<Tx>, s: State, keys: seq<Path>)
    requires Inv(s) && Coins(history, s) && (forall t :: Stores(s.db, t) ==> t in history)
    requires forall p :: p in keys ==> p.address != s.me
    ensures Coins(history, CheckIncoming(s, keys))
    decreases |keys|
  {
    hide Inv, Coins, Apply;
    if keys != [] {
      var p := keys[0];
      var next := CheckInOne(s, p);
      CheckInOneKeeps(s, p);
      if p !in s.incoming && Fetchable(s.db, p) {
        UnmarkedIsNew(s, p);
        assert Stores(s.db, s.db[p].tx);
        ParseCoins(history, s, s.db[p].tx, next);
      }
      CheckIncomingCoins(history, next, keys[1..]);
    }
  }

  lemma {:induction false} CheckOutgoingCoins(history: seq<Tx>, s: State, keys: seq<Path>)
    requires Inv(s) && Coins(history, s) && (forall t :: Stores(s.db, t) ==> t in history)
    requires forall p :: p in keys ==> p.address == s.me
    ensures Coins(history, CheckOutgoing(s, keys))
    decreases |keys|
  {
    hide Inv, Coins, Apply;
    if keys != [] {
      var p := keys[0];
      var next := CheckOutOne(s, p);
      CheckOutOneKeeps(s, p);
      if p !in s.outgoing && Fetchable(s.db, p) {
        UnmarkedIsNew(s, p);
        assert Stores(s.db, s.db[p].tx);
        ParseCoins(history, s, s.db[p].tx, next);
      }
      CheckOutgoingCoins(history, next, keys[1..]);
    }
  }

  // ------------------------------------------------ the history grows

  /** A new transaction leaves unparsed payments alone when each input is not ours
      or comes from a transaction we parsed. */
  lemma UntouchedGrows(history: seq<Tx>, me: Address, log: seq<Tx>, tx: Tx)
    requires Untouched(history, me, log)
    requires forall o :: o in Inputs(tx) ==> !Credits(me, o.txid.of, o.index) || o.txid.of in log
    ensures Untouched(history + [tx], me, log)
  {
    var after := history + [tx];
    assert after[..|after| - 1] == history;
    forall t, o | t in after && t !in log && o in Created(me, t)
      ensures o in Pool(after)
    {
      if t == tx {
        assert o in Outs(tx, OutputCount(tx));
      } else {
        assert o !in Inputs(tx);
      }
    }
  }

  lemma OwnsGrows(history: seq<Tx>, me: Address, pool: seq<Utxo>, tx: Tx)
    requires OwnsUnlocked(history, me, pool)
    requires forall o :: o in Inputs(tx) ==> !Credits(me, o.txid.of, o.index)
    ensures OwnsUnlocked(history + [tx], me, pool)
  {
    hide Genuine;
    var after := history + [tx];
    assert after[..|after| - 1] == history;
    forall u | u in pool && !u.locked
      ensures u.at in OwnedBy(me, Pool(after))
    {
    }
  }

  /** Somebody else's transaction. */
  lemma OtherCoins(history: seq<Tx>, s: State, tx: Tx)
    requires Coins(history, s)
    requires forall o :: o in Inputs(tx) ==> !Credits(s.me, o.txid.of, o.index)
    ensures Coins(history + [tx], s)
  {
    UntouchedGrows(history, s.me, s.log, tx);
    OwnsGrows(history, s.me, s.utxos, tx);
  }

  /** A transaction of our own, made of coins we hold. */
  lemma OwnCoins(history: seq<Tx>, s: State, tx: Tx, s': State)
    requires Coins(history, s) && CoinsFollowLog(s.me, s.utxos, s.log)
    requires forall o :: o in Inputs(tx) ==> o in Keys(s.utxos)
    requires s'.me == s.me && s'.log == s.log && s'.utxos == Lock(s.utxos, Inputs(tx))
    ensures Coins(history + [tx], s')
  {
    hide OwnsUnlocked, Untouched, CoinsFollowLog;
    forall o | o in Inputs(tx)
      ensures o.txid.of in s.log
    {
      KeyHolder(s.utxos, o);
      var u :| u in s.utxos && u.at == o;
      HeldIsLogged(s.me, s.utxos, s.log, u);
    }
    UntouchedGrows(history, s.me, s.log, tx);
    QueueQualifies(history, s.me, s.utxos, tx);
  }

  /** The inputs of a deed belong to its doer, or are an open escrow. */
  lemma DeedInputs(history: seq<Tx>, d: Deed, me: Address)
    requires LegitHistory(history) && Possible(history, d) && Done(d).Some? && d.dag.source != me
    ensures forall o :: o in Inputs(Done(d).value) ==> !Credits(me, o.txid.of, o.index)
  {
    var tx := Done(d).value;
    match d
    case MintDeed(_, _, _, _) =>
    case TransferDeed(dag, pool, amount, dest, token) =>
      BuiltInputs(history, tx, dag.source, pool, amount, dest, token, me);
    case HoldDeed(dag, pool, amount, escrow, _, _) =>
      BuiltInputs(history, tx, dag.source, pool, amount, escrow, FromBytes([0]), me);
    case PayDeed(_, _, _) =>
  }

  lemma BuiltInputs(history: seq<Tx>, tx: Tx, a: Address, pool: seq<Utxo>, amount: u64, dest: Address, token: TokenId,
                    me: Address)
    requires OwnsUnlocked(history, a, pool) && BuiltFrom(tx, a, pool, amount, dest, token) && a != me
    ensures forall o :: o in Inputs(tx) ==> !Credits(me, o.txid.of, o.index)
  {
    hide SelectOne, Class, EligibleCoins, Cover;
    var chosen := BuiltParts(tx, a, pool, amount, dest, token);
    forall o | o in Inputs(tx)
      ensures !Credits(me, o.txid.of, o.index)
    {
      var k :| 0 <= k < |chosen| && Points(chosen)[k] == o;
      assert chosen[k] in chosen && Credits(a, o.txid.of, o.index);
    }
  }

  // ------------------------------------------------ building

  /** A transfer or hold: the node's list makes the deed possible, and the deed's
      transaction is the one the node builds. */
  lemma SpendMove(history: seq<Tx>, s: State, a: Action)
    requires Inv(s) && LegitHistory(history) && Coins(history, s) && (a.DoTransfer? || a.DoHold?)
    requires forall t :: t in NewOnes(s, a) ==> t !in history
    ensures var d := DeedOf(s, a).value;
            && Possible(history, d)
            && NewOnes(s, a) == (if Done(d).None? then [] else [Done(d).value])
            && Coins(history + NewOnes(s, a), Step(s, a))
  {
    var d, s' := DeedOf(s, a).value, Step(s, a);
    if Done(d).None? {
      assert s' == s && NewOnes(s, a) == [];
      assert history + [] == history;
    } else {
      var tx := Done(d).value;
      assert s'.issued == s.issued + [tx];
      assert NewOnes(s, a) == [tx];
      SelectedHeld(s, a, tx);
      OwnCoins(history, s, tx, s');
    }
  }

  lemma SelectedHeld(s: State, a: Action, tx: Tx)
    requires Inv(s) && (a.DoTransfer? || a.DoHold?) && Done(DeedOf(s, a).value) == Some(tx)
    ensures forall o :: o in Inputs(tx) ==> o in Keys(s.utxos)
  {
    var dest, token := if a.DoTransfer? then a.dest else a.escrow, if a.DoTransfer? then a.token else FromBytes([0]);
    var chosen := SelectedInputs(s.utxos, s.me, a.amount, dest, token);
    forall o | o in Inputs(tx)
      ensures o in Keys(s.utxos)
    {
      var k :| 0 <= k < |chosen| && Points(chosen)[k] == o;
      assert chosen[k] in chosen;
    }
  }

  lemma MintMove(history: seq<Tx>, s: State, a: Action)
    requires Inv(s) && LegitHistory(history) && Coins(history, s) && a.DoMint?
    requires forall t :: t in NewOnes(s, a) ==> t !in history
    ensures var d := DeedOf(s, a).value;
            && Possible(history, d) && Done(d).Some? && NewOnes(s, a) == [Done(d).value]
            && Coins(history + NewOnes(s, a), Step(s, a))
  {
    var tx, s' := Done(DeedOf(s, a).value).value, Step(s, a);
    assert s'.issued == s.issued + [tx];
    assert NewOnes(s, a) == [tx] && tx in NewOnes(s, a);
    OtherCoins(history, s, tx);
  }

  /** A payout is followed by its release, which takes and makes nothing. */
  lemma PayMove(history: seq<Tx>, s: State, a: Action)
    requires LegitHistory(history) && Coins(history, s) && a.DoPay? && Shaped(a) && DeedOf(s, a).Some?
    requires forall t :: t in NewOnes(s, a) ==> t !in history
    requires OutPoint(Digest(a.fetched.value), 0) in Pool(history)
    ensures var d := DeedOf(s, a).value;
            && Possible(history, d)
            && (if Done(d).None? then NewOnes(s, a) == [] && Step(s, a) == s
                else |NewOnes(s, a)| == 2 && NewOnes(s, a)[0] == Done(d).value &&
                     NewOnes(s, a)[1].EscrowRelease? && NewOnes(s, a)[1] != Done(d).value)
            && Coins(history + NewOnes(s, a), Step(s, a))
  {
    hide PeerShare, Payouts;
    var d, s' := DeedOf(s, a).value, Step(s, a);
    if Done(d).None? {
      assert s' == s && NewOnes(s, a) == [] && history + [] == history;
    } else {
      var pay := Done(d).value;
      var release := EscrowRelease(NextDag(s, 2, a.time, ""), d.hold.amount, d.hold.dev, d.hold.dag.source, Digest(d.hold));
      assert s'.issued == s.issued + [pay, release];
      assert NewOnes(s, a) == [pay, release] && pay in NewOnes(s, a);
      OtherCoins(history, s, pay);
      OtherCoins(history + [pay], s, release);
      assert history + [pay] + [release] == history + [pay, release];
    }
  }

  lemma ReleaseBalanced(tx: Tx, f: OutPoint -> nat)
    requires tx.EscrowRelease?
    ensures Balanced(tx, f)
  {
    assert SetOf(Inputs(tx)) == {};
  }

  lemma ReleaseConserves(history: seq<Tx>, tx: Tx)
    requires LegitHistory(history) && tx.EscrowRelease? && tx !in history
    ensures LegitHistory(history + [tx])
    ensures Conserved(history) ==> Conserved(history + [tx])
  {
    AppendLegit(history, tx);
    ReleaseBalanced(tx, Face());
    if Conserved(history) {
      StepConservesIff(history, tx, Face());
    }
  }

  // ------------------------------------------------ moves and runs

  lemma DeedHistory(history: seq<Tx>, d: Deed)
    requires LegitHistory(history) && Possible(history, d)
    ensures LegitHistory(Append(history, d))
    ensures Conserved(history) && Exact(d) ==> Conserved(Append(history, d))
  {
    hide Exact, Done, Legit;
    if Done(d).Some? {
      DeedLegit(history, d);
      AppendLegit(history, Done(d).value);
    }
    if Conserved(history) {
      DeedConservesIff(history, d, 0);
    }
  }

  /** What a step of the node does to coins and history. */
  lemma OwnMove(w: World, a: Action)
    requires Coupled(w) && Allowed(w, Own(a))
    ensures Coins(w.history + NewOnes(w.node, a), Step(w.node, a))
    ensures LegitHistory(w.history + NewOnes(w.node, a))
    ensures Conserved(w.history) && Fits(w, Own(a)) ==> Conserved(w.history + NewOnes(w.node, a))
    ensures DeedOf(w.node, a).Some? ==> Possible(w.history, DeedOf(w.node, a).value)
  {
    hide Inv, Coins, Conserved, LegitHistory, Possible, Exact, Done, Enabled;
    var s, h := w.node, w.history;
    assert h + [] == h;
    if a.DoTransfer? || a.DoHold? {
      SpendMove(h, s, a);
      DeedHistory(h, DeedOf(s, a).value);
    } else if a.DoMint? {
      MintMove(h, s, a);
      DeedHistory(h, DeedOf(s, a).value);
    } else if a.DoPay? {
      PayHistory(w, a);
    } else {
      QuietMove(w, a);
    }
  }

  lemma PayHistory(w: World, a: Action)
    requires Coupled(w) && Allowed(w, Own(a)) && a.DoPay?
    ensures Coins(w.history + NewOnes(w.node, a), Step(w.node, a))
    ensures LegitHistory(w.history + NewOnes(w.node, a))
    ensures Conserved(w.history) && Fits(w, Own(a)) ==> Conserved(w.history + NewOnes(w.node, a))
    ensures DeedOf(w.node, a).Some? ==> Possible(w.history, DeedOf(w.node, a).value)
  {
    hide Inv, Coins, Conserved, LegitHistory, Exact, PeerShare, Payouts;
    var s, h := w.node, w.history;
    assert h + [] == h;
    if DeedOf(s, a).None? {
      assert NewOnes(s, a) == [];
    } else {
      var d := DeedOf(s, a).value;
      PayMove(h, s, a);
      DeedHistory(h, d);
      if Done(d).Some? {
        var two := NewOnes(s, a);
        assert two[1] in two;
        ReleaseConserves(h + [two[0]], two[1]);
        assert h + [two[0]] + [two[1]] == h + two;
      }
    }
  }

  /** Sending and checking build nothing. */
  lemma QuietMove(w: World, a: Action)
    requires Coupled(w) && Allowed(w, Own(a)) && (a.DoSend? || a.DoCheckIncoming? || a.DoCheckOutgoing? || a.Replicate?)
    ensures NewOnes(w.node, a) == [] && DeedOf(w.node, a).None?
    ensures Coins(w.history, Step(w.node, a))
  {
    hide Coins;
    var s, h := w.node, w.history;
    match a
    case DoSend(fate) =>
      SendExtends(s, fate);
      if s.queue != [] {
        var batch := s.queue[0];
        var popped := s.(queue := s.queue[1..]);
        var written := popped.(db := Written(s.db, batch));
        SendCoins(h, s, batch, popped);
        SendCoins(h, s, batch, written);
        ParseBatchFrame(popped, batch);
        ParseBatchFrame(written, batch);
        SameCoins(h, s, popped);
      }
    case DoCheckIncoming(keys) =>
      CheckIncomingFrame(s, keys);
      CheckIncomingCoins(h, s, keys);
    case DoCheckOutgoing(keys) =>
      CheckOutgoingFrame(s, keys);
      CheckOutgoingCoins(h, s, keys);
    case Replicate(_, _) =>
      SameCoins(h, s, Step(s, a));
  }

  lemma SameCoins(history: seq<Tx>, s: State, s': State)
    requires Coins(history, s) && s'.me == s.me && s'.utxos == s.utxos && s'.log == s.log
    ensures Coins(history, s')
  {
  }

  lemma SendCoins(history: seq<Tx>, s: State, batch: seq<Tx>, start: State)
    requires Inv(s) && Coins(history, s) && (forall t :: t in Flat(s.queue) ==> t in history)
    requires s.queue != [] && batch == s.queue[0] && start.me == s.me && start.utxos == s.utxos && start.log == s.log
    ensures Coins(history, ParseBatch(start, batch))
  {
    hide Coins;
    var rest := Flat(s.queue[1..]);
    assert Flat(s.queue) == batch + rest;
    forall t | t in batch
      ensures t in history && t !in s.log
    {
      assert t in batch + rest;
      assert Waiting(s.me, s.nonce, s.log, t);
    }
    forall i, j | 0 <= i < j < |batch|
      ensures batch[i].dag.nonce < batch[j].dag.nonce
    {
      assert (batch + rest)[i] == batch[i] && (batch + rest)[j] == batch[j];
    }
    SameCoins(history, s, start);
    BatchCoins(history, start, batch);
  }

  /** What a step queues and stores is in the history. */
  lemma OwnStored(w: World, a: Action)
    requires Coupled(w) && Allowed(w, Own(a))
    ensures var w' := Advance(w, Own(a));
            && (forall t :: t in Flat(w'.node.queue) ==> t in w'.history)
            && (forall t :: Stores(w'.node.db, t) ==> t in w'.history)
  {
    hide Inv, Coins, LegitHistory;
    var s := w.node;
    match a
    case DoSend(fate) => SendStored(w, fate);
    case DoCheckIncoming(keys) => CheckIncomingFrame(s, keys);
    case DoCheckOutgoing(keys) => CheckOutgoingFrame(s, keys);
    case Replicate(path, value) =>
      forall t | Stores(Step(s, a).db, t)
        ensures t in w.history
      {
        var p :| p in Step(s, a).db && Step(s, a).db[p] == Readable(t);
        assert p != path ==> Stores(s.db, t);
      }
    case DoTransfer(_, _, _, _) => BuildStored(w, a);
    case DoMint(_, _, _, _, _) => BuildStored(w, a);
    case DoHold(_, _, _, _, _) => BuildStored(w, a);
    case DoPay(_, _, _) => BuildStored(w, a);
  }

  lemma BuildStored(w: World, a: Action)
    requires Coupled(w) && Allowed(w, Own(a)) && (a.DoTransfer? || a.DoMint? || a.DoHold? || a.DoPay?)
    ensures var w' := Advance(w, Own(a));
            && (forall t :: t in Flat(w'.node.queue) ==> t in w'.history) && w'.node.db == w.node.db
  {
    hide Inv, Coins, LegitHistory, SelectOne, Lock;
    var s, s' := w.node, Step(w.node, a);
    if s' != s {
      assert s'.queue == s.queue + [NewOnes(s, a)];
      FlatAppend(s.queue, NewOnes(s, a));
    }
  }

  lemma SendStored(w: World, fate: Fate)
    requires Coupled(w)
    ensures var s' := Send(w.node, fate);
            && (forall t :: t in Flat(s'.queue) ==> t in w.history)
            && (forall t :: Stores(s'.db, t) ==> t in w.history)
  {
    hide Inv, Coins, LegitHistory;
    var s := w.node;
    if s.queue != [] {
      var batch := s.queue[0];
      assert Flat(s.queue) == batch + Flat(s.queue[1..]);
      ParseBatchFrame(s.(queue := s.queue[1..]), batch);
      ParseBatchFrame(s.(queue := s.queue[1..], db := Written(s.db, batch)), batch);
      WrittenFacts(s.db, batch);
      assert forall t :: t in batch ==> t in Flat(s.queue);
    }
  }

  /** Every move keeps node and history coupled; if its numbers fit, it also keeps
      the supply equal to what was minted. */
  lemma MoveKeeps(w: World, m: Move)
    requires Coupled(w) && Allowed(w, m)
    ensures Coupled(Advance(w, m))
    ensures Conserved(w.history) && Fits(w, m) ==> Conserved(Advance(w, m).history)
  {
    match m
    case Own(a) =>
      OwnMove(w, a);
      OwnStored(w, a);
      StepKeeps(w.node, a);
    case Other(d) =>
      DeedHistory(w.history, d);
      OtherMove(w, d);
  }

  lemma OtherMove(w: World, d: Deed)
    requires Coupled(w) && Allowed(w, Other(d))
    ensures Coins(Append(w.history, d), w.node)
  {
    hide Coins, Inv, Done;
    if Done(d).Some? {
      DeedInputs(w.history, d, w.node.me);
      OtherCoins(w.history, w.node, Done(d).value);
    }
  }

  ghost predicate Plays(w: World, moves: seq<Move>)
    decreases |moves|
  {
    moves == [] || (Allowed(w, moves[0]) && Plays(Advance(w, moves[0]), moves[1..]))
  }

  ghost predicate AllFit(w: World, moves: seq<Move>)
    requires Plays(w, moves)
    decreases |moves|
  {
    moves == [] || (Fits(w, moves[0]) && AllFit(Advance(w, moves[0]), moves[1..]))
  }

  ghost function Play(w: World, moves: seq<Move>): World
    requires Plays(w, moves)
    decreases |moves|
  {
    if moves == [] then w else Play(Advance(w, moves[0]), moves[1..])
  }

  /** A node inside the network: along any interleaving of its own guarded steps and
      other accounts' deeds its unlocked coins are unspent outputs of its own, and
      if all numbers fit, what is unspent is worth what was minted. */
  lemma {:induction false} NetworkConserves(w: World, moves: seq<Move>)
    requires Coupled(w) && Plays(w, moves)
    ensures Coupled(Play(w, moves))
    ensures Conserved(w.history) && AllFit(w, moves) ==> Conserved(Play(w, moves).history)
    decreases |moves|
  {
    hide Coupled, Allowed, Conserved, Fits;
    if moves != [] {
      MoveKeeps(w, moves[0]);
      NetworkConserves(Advance(w, moves[0]), moves[1..]);
    }
  }

  lemma FreshWorld(me: Address)
    ensures Coupled(World([], Init(me, map[]))) && Conserved([])
  {
    EmptyConserved(0);
  }
}
