/** The transaction manager object. Each method is proved against its step of the
    state machine in `Node`; the safety of runs is proved there. */
module TransactionManager {
  import opened Machine
  import opened Tokens
  import opened Transactions
  import opened CoinSelection
  import opened Replay
  import opened TokenAmount
  import opened Account
  import Node

  /** What a successful `HoldEscrow` returns: the transaction and the escrow address. */
  datatype Held = Held(id: TxId, escrow: Address)

  class Manager {
    const account: GeniusAccount
    var queue: seq<seq<Tx>>
    var outgoing: map<Path, Tx>
    var incoming: map<Path, Tx>
    var db: Node.Database
    ghost var log: seq<Tx>
    ghost var spends: seq<Tx>
    ghost var issued: seq<Tx>

    ghost function S(): Node.State
      reads this, account
    {
      Node.State(account.address, account.utxos, account.nonce, queue, outgoing, incoming, db, log, spends, issued)
    }

    constructor (account: GeniusAccount, db: Node.Database)
      requires account.nonce == 0 && account.utxos == []
      ensures this.account == account && S() == Node.Init(account.address, db)
    {
      this.account := account;
      this.db := db;
      queue, outgoing, incoming, log, spends, issued := [], map[], map[], [], [], [];
    }

    /** `FillDAGStruct`: every call takes the next nonce. */
    method FillDag(time: int, previous: string) returns (dag: Dag)
      modifies account`nonce
      ensures account.nonce == old(account.nonce) + 1
      ensures dag == Dag(account.nonce, account.address, time, previous)
    {
      account.nonce := account.nonce + 1;
      dag := Dag(account.nonce, account.address, time, previous);
    }

    method TransferFunds(amount: u64, dest: Address, token: TokenId, time: int) returns (r: Option<TxId>)
      modifies this, account
      ensures S() == Node.TransferFunds(old(S()), amount, dest, token, time)
      ensures r.Some? <==> S() != old(S())
      ensures r.Some? ==> queue == old(queue) + [[r.value.of]]
    {
      var params := CreateOne(account.utxos, account.address, amount, dest, token);
      if params.None? {
        return None;
      }
      var dag := FillDag(time, "");
      var tx := Transfer(dag, params.value.inputs, params.value.outputs);
      account.utxos := UpdateUtxoList(account.utxos, params.value.inputs);
      queue := queue + [[tx]];
      spends, issued := spends + [tx], issued + [tx];
      r := Some(Digest(tx));
    }

    method MintFunds(amount: u64, previous: string, chain: string, token: TokenId, time: int) returns (r: TxId)
      modifies this, account
      ensures S() == Node.MintFunds(old(S()), amount, previous, chain, token, time)
      ensures queue == old(queue) + [[r.of]]
    {
      var dag := FillDag(time, previous);
      var tx := Mint(dag, chain, amount, token);
      queue, issued := queue + [[tx]], issued + [tx];
      r := Digest(tx);
    }

    method HoldEscrow(amount: u64, escrow: Address, dev: Address, cut: u64, time: int) returns (r: Option<Held>)
      modifies this, account
      ensures S() == Node.HoldEscrow(old(S()), amount, escrow, dev, cut, time)
      ensures r.Some? <==> S() != old(S())
      ensures r.Some? ==> queue == old(queue) + [[r.value.id.of]] && r.value.escrow == escrow
    {
      var params := CreateOne(account.utxos, account.address, amount, escrow, FromBytes([0]));
      if params.None? {
        return None;
      }
      account.utxos := UpdateUtxoList(account.utxos, params.value.inputs);
      var dag := FillDag(time, "");
      var tx := EscrowHold(dag, params.value.inputs, params.value.outputs, amount, dev, cut);
      queue := queue + [[tx]];
      spends, issued := spends + [tx], issued + [tx];
      r := Some(Held(Digest(tx), escrow));
    }

    method PayEscrow(fetched: Option<Tx>, results: seq<Node.TaskResult>, time: int) returns (r: Option<TxId>)
      requires fetched.Some? ==> fetched.value.EscrowHold? && fetched.value.outputs != []
      modifies this, account
      ensures S() == Node.PayEscrow(old(S()), fetched, results, time)
      ensures r.Some? <==> S() != old(S())
    {
      if results == [] || fetched.None? {
        return None;
      }
      var hold := fetched.value;
      var total := Times(hold.amount, hold.cut);
      if total.Err? {
        return None;
      }
      var share: u64 := Quotient(total.value, |results|);
      var remainder: u64 := hold.amount;
      var payouts: seq<Output> := [];
      for i := 0 to |results|
        invariant remainder == DevShare(hold.amount, share, i)
        invariant |payouts| == i
        invariant forall k :: 0 <= k < i ==>
          payouts[k] == Output(share, results[k].node, FromBytes(results[k].token))
      {
        payouts := payouts + [Output(share, results[i].node, FromBytes(results[i].token))];
        remainder := Wrap(remainder as int - share);
      }
      payouts := payouts + [Output(remainder, hold.dev, hold.outputs[0].token)];
      assert payouts == Node.Payouts(hold, results, share);
      var dag := FillDag(time, "");
      var pay := Transfer(dag, [OutPoint(Digest(hold), 0)], payouts);
      dag := FillDag(time, "");
      var release := EscrowRelease(dag, hold.amount, hold.dev, hold.dag.source, Digest(hold));
      queue, issued := queue + [[pay, release]], issued + [pay, release];
      r := Some(Digest(pay));
    }

    /** `ParseTransaction` and the four parsers it dispatches to. */
    method ParseTransaction(tx: Tx) returns (ok: bool)
      modifies account`utxos
      ensures ok <==> Parsable(tx)
      ensures account.utxos == if ok then Apply(account.address, old(account.utxos), tx) else old(account.utxos)
    {
      ok := true;
      match tx
      case Transfer(_, inputs, outputs) =>
        for i := 0 to |outputs|
          invariant account.utxos == Credit(account.address, old(account.utxos), tx, i)
        {
          if outputs[i].dest == account.address {
            var _ := account.PutUtxo(Minted(tx, i));
          }
        }
        account.RefreshUtxos(inputs);
      case Mint(dag, _, _, _) =>
        if dag.source == account.address {
          var _ := account.PutUtxo(Minted(tx, 0));
        }
        assert account.utxos == Credit(account.address, old(account.utxos), tx, 1);
        NothingSpent(account.utxos);
      case EscrowHold(dag, inputs, outputs, _, _, _) =>
        HoldCredits(account.address, account.utxos, tx, |outputs|);
        if dag.source == account.address && outputs != [] {
          if |outputs| > 1 && outputs[1].dest == account.address {
            var _ := account.PutUtxo(Minted(tx, 1));
          }
          account.RefreshUtxos(inputs);
        } else {
          NothingSpent(account.utxos);
        }
      case EscrowRelease(_, _, _, _, _) =>
        NothingSpent(account.utxos);
      case Processing(_, _) =>
        ok := false;
    }

    method CheckIncoming(keys: seq<Path>)
      modifies this, account
      ensures S() == Node.CheckIncoming(old(S()), keys)
    {
      var i := 0;
      assert keys[0..] == keys;
      while i < |keys|
        invariant 0 <= i <= |keys|
        invariant Node.CheckIncoming(old(S()), keys) == Node.CheckIncoming(S(), keys[i..])
      {
        var p := keys[i];
        assert keys[i..][1..] == keys[i + 1..];
        ghost var before := S();
        if p !in incoming && p in db && db[p].Readable? {
          var tx := db[p].tx;
          var ok := ParseTransaction(tx);
          if ok {
            incoming := incoming[p := tx];
            log := log + [tx];
          }
        }
        assert S() == Node.CheckInOne(before, p);
        i := i + 1;
      }
    }

    method CheckOutgoing(keys: seq<Path>)
      modifies this, account
      ensures S() == Node.CheckOutgoing(old(S()), keys)
    {
      var i := 0;
      assert keys[0..] == keys;
      while i < |keys|
        invariant 0 <= i <= |keys|
        invariant Node.CheckOutgoing(old(S()), keys) == Node.CheckOutgoing(S(), keys[i..])
      {
        var p := keys[i];
        assert keys[i..][1..] == keys[i + 1..];
        ghost var before := S();
        if p !in outgoing && p in db && db[p].Readable? {
          var tx := db[p].tx;
          var ok := ParseTransaction(tx);
          if ok {
            if account.nonce < tx.dag.nonce {
              account.nonce := tx.dag.nonce;
            }
            outgoing := outgoing[p := tx];
            log := log + [tx];
          }
        }
        assert S() == Node.CheckOutOne(before, p);
        i := i + 1;
      }
    }

    /** The first loop of `SendTransaction`: the batch in an atomic transaction. */
    method Record(batch: seq<Tx>) returns (pending: Node.Database)
      ensures pending == Node.Written(db, batch)
    {
      pending := db;
      var i := 0;
      assert batch[0..] == batch;
      while i < |batch|
        invariant 0 <= i <= |batch|
        invariant Node.Written(db, batch) == Node.Written(pending, batch[i..])
      {
        assert batch[i..][1..] == batch[i + 1..];
        pending := pending[PathOf(batch[i]) := Node.Readable(batch[i])];
        i := i + 1;
      }
    }

    /** `SendTransaction`: record the batch, parse it, then commit. */
    method SendTransaction(fate: Node.Fate) returns (ok: bool)
      modifies this, account
      ensures S() == Node.Send(old(S()), fate)
      ensures ok <==> old(queue) == [] || (fate == Node.Committed && forall t :: t in old(queue)[0] ==> Parsable(t))
    {
      hide Apply, Parsable, PathOf;
      if queue == [] {
        return true;
      }
      var batch := queue[0];
      queue := queue[1..];
      if fate == Node.PutRefused {
        return false;
      }
      var pending := Record(batch);
      ghost var start := S();
      var i := 0;
      assert batch[0..] == batch;
      while i < |batch|
        invariant 0 <= i <= |batch| && db == start.db
        invariant forall k :: 0 <= k < i ==> Parsable(batch[k])
        invariant Node.ParseBatch(start, batch) == Node.ParseBatch(S(), batch[i..])
      {
        assert batch[i..][1..] == batch[i + 1..];
        ok := ParseTransaction(batch[i]);
        if !ok {
          assert batch[i] in batch;
          return;
        }
        outgoing := outgoing[PathOf(batch[i]) := batch[i]];
        log := log + [batch[i]];
        i := i + 1;
      }
      ok := fate == Node.Committed;
      if ok {
        BatchIgnoresDatabase(start, batch, pending);
        db := pending;
      }
    }

    /** `Start`. */
    method Start(inKeys: seq<Path>, outKeys: seq<Path>)
      modifies this, account
      ensures S() == Node.CheckOutgoing(Node.CheckIncoming(old(S()), inKeys), outKeys)
    {
      CheckIncoming(inKeys);
      CheckOutgoing(outKeys);
    }
  }

  // ------------------------------------------------ supporting facts

  lemma {:induction false} NothingSpent(coins: seq<Utxo>)
    ensures Refresh(coins, []) == coins
  {
    if coins != [] {
      NothingSpent(coins[1..]);
    }
  }

  /** Only the second output of an escrow hold can be credited. */
  lemma {:induction false} HoldCredits(me: Address, coins: seq<Utxo>, tx: Tx, n: nat)
    requires tx.EscrowHold? && n <= |tx.outputs|
    ensures Credit(me, coins, tx, n) ==
            if n > 1 && Credits(me, tx, 1) then Put(coins, Minted(tx, 1)) else coins
  {
    if n > 0 {
      HoldCredits(me, coins, tx, n - 1);
    }
  }

  lemma {:induction false} BatchIgnoresDatabase(s: Node.State, batch: seq<Tx>, db: Node.Database)
    ensures Node.ParseBatch(s.(db := db), batch) == Node.ParseBatch(s, batch).(db := db)
    decreases |batch|
  {
    if batch != [] {
      BatchIgnoresDatabase(Node.ParseOutgoing(s, batch[0]), batch[1..], db);
    }
  }
}
