/** What building and sending a transfer does to the account's balances. */
module Accounting {
  import opened Machine
  import opened Tokens
  import opened Transactions
  import opened CoinSelection
  import opened Replay
  import opened Node
  import opened NodeSafety
  import opened NodeRuns

  // ------------------------------------------------ sums over coin lists

  function Weigh(coins: seq<Utxo>, f: Utxo -> nat): nat {
    if coins == [] then 0 else f(coins[0]) + Weigh(coins[1..], f)
  }

  /** A coin counts towards the holdings whether locked or not. */
  function Worth(u: Utxo): nat { u.amount }

  /** A coin counts towards the balance (`GetBalance`) only when unlocked. */
  function Spendable(u: Utxo): nat { if u.locked then 0 else u.amount }

  function Holding(coins: seq<Utxo>): nat { Weigh(coins, Worth) }

  function Balance(coins: seq<Utxo>): nat { Weigh(coins, Spendable) }

  lemma {:induction false} HoldingIsSum(coins: seq<Utxo>)
    ensures Holding(coins) == Sum(coins)
  {
    if coins != [] {
      HoldingIsSum(coins[1..]);
    }
  }

  lemma {:induction false} WeighAppend(coins: seq<Utxo>, u: Utxo, f: Utxo -> nat)
    ensures Weigh(coins + [u], f) == Weigh(coins, f) + f(u)
  {
    if coins == [] {
      assert coins + [u] == [u];
    } else {
      assert (coins + [u])[1..] == coins[1..] + [u];
      WeighAppend(coins[1..], u, f);
    }
  }

  lemma {:induction false} WeighZero(coins: seq<Utxo>, f: Utxo -> nat)
    requires forall u :: u in coins ==> f(u) == 0
    ensures Weigh(coins, f) == 0
  {
    if coins != [] {
      WeighZero(coins[1..], f);
    }
  }

  lemma {:induction false} RefreshNothing(coins: seq<Utxo>, spent: seq<OutPoint>)
    requires forall u :: u in coins ==> u.at !in spent
    ensures Refresh(coins, spent) == coins
  {
    if coins != [] {
      RefreshNothing(coins[1..], spent);
    }
  }

  /** Erasing one coin takes its weight away. */
  lemma {:induction false} EraseOne(coins: seq<Utxo>, u: Utxo, f: Utxo -> nat)
    requires Distinct(coins) && u in coins
    ensures Weigh(Refresh(coins, [u.at]), f) + f(u) == Weigh(coins, f)
  {
    var rest := coins[1..];
    if coins[0] == u {
      assert forall v :: v in rest ==> v.at != u.at;
      RefreshNothing(rest, [u.at]);
      assert Refresh(coins, [u.at]) == rest;
    } else {
      var k :| 0 <= k < |coins| && coins[k] == u;
      assert coins[0].at != coins[k].at && u in rest;
      EraseOne(rest, u, f);
      assert Refresh(coins, [u.at])[1..] == Refresh(rest, [u.at]);
    }
  }

  lemma {:induction false} RefreshTwice(coins: seq<Utxo>, a: seq<OutPoint>, b: seq<OutPoint>)
    ensures Refresh(coins, a + b) == Refresh(Refresh(coins, a), b)
  {
    if coins != [] {
      RefreshTwice(coins[1..], a, b);
      if coins[0].at in a {
        assert Refresh(coins, a) == Refresh(coins[1..], a);
      } else {
        assert ([coins[0]] + Refresh(coins[1..], a))[1..] == Refresh(coins[1..], a);
      }
    }
  }

  /** Erasing chosen coins takes their weight away. */
  lemma {:induction false} EraseChosen(coins: seq<Utxo>, chosen: seq<Utxo>, f: Utxo -> nat)
    requires Distinct(coins) && Distinct(chosen) && forall u :: u in chosen ==> u in coins
    ensures Weigh(Refresh(coins, Points(chosen)), f) + Weigh(chosen, f) == Weigh(coins, f)
    decreases |chosen|
  {
    if chosen == [] {
      RefreshNothing(coins, []);
    } else {
      var u := chosen[0];
      var left := Refresh(coins, [u.at]);
      assert Points(chosen) == [u.at] + Points(chosen[1..]);
      RefreshTwice(coins, [u.at], Points(chosen[1..]));
      EraseOne(coins, u, f);
      RefreshDistinct(coins, [u.at]);
      forall v | v in chosen[1..]
        ensures v in left
      {
        RefreshMembers(coins, [u.at], v);
      }
      EraseChosen(left, chosen[1..], f);
    }
  }

  // ------------------------------------------------ crediting

  /** The weight of the outputs `0..n` of `tx` that belong to `me`. */
  function Received(me: Address, tx: Tx, n: nat, f: Utxo -> nat): nat
    requires n <= OutputCount(tx)
  {
    if n == 0 then 0
    else Received(me, tx, n - 1, f) + if Credits(me, tx, n - 1) then f(Minted(tx, n - 1)) else 0
  }

  lemma {:induction false} CreditWeighs(me: Address, coins: seq<Utxo>, tx: Tx, n: nat, f: Utxo -> nat)
    requires n <= OutputCount(tx)
    requires forall u :: u in coins ==> u.at.txid.of != tx
    ensures Weigh(Credit(me, coins, tx, n), f) == Weigh(coins, f) + Received(me, tx, n, f)
  {
    if n > 0 {
      CreditWeighs(me, coins, tx, n - 1, f);
      CreditFacts(me, coins, tx, n - 1);
      var before := Credit(me, coins, tx, n - 1);
      if Credits(me, tx, n - 1) {
        assert Minted(tx, n - 1).at !in Keys(before);
        WeighAppend(before, Minted(tx, n - 1), f);
      }
    }
  }

  /** Parsing a transaction for the first time adds the outputs it pays to the
      account and takes away the coins it spends. */
  lemma ApplyWeighs(me: Address, coins: seq<Utxo>, tx: Tx, chosen: seq<Utxo>, f: Utxo -> nat)
    requires Distinct(coins) && forall u :: u in coins ==> u.at.txid.of != tx
    requires Distinct(chosen) && (forall u :: u in chosen ==> u in coins) && Spends(me, tx) == Points(chosen)
    ensures Weigh(Apply(me, coins, tx), f) + Weigh(chosen, f) ==
            Weigh(coins, f) + Received(me, tx, OutputCount(tx), f)
  {
    var n := OutputCount(tx);
    CreditWeighs(me, coins, tx, n, f);
    CreditFacts(me, coins, tx, n);
    EraseChosen(Credit(me, coins, tx, n), chosen, f);
  }

  // ------------------------------------------------ locking

  /** Coins a lock takes out of reach without spending them: unlocked coins that
      share a transaction hash with an input but are not inputs themselves. */
  function Siblings(coins: seq<Utxo>, inputs: seq<OutPoint>): nat {
    Weigh(coins, (u: Utxo) => if SharesHash(u, inputs) && u.at !in inputs then Spendable(u) else 0)
  }

  function ChosenPart(coins: seq<Utxo>, inputs: seq<OutPoint>): nat {
    Weigh(coins, (u: Utxo) => if u.at in inputs then Spendable(u) else 0)
  }

  lemma {:induction false} LockWeighs(coins: seq<Utxo>, inputs: seq<OutPoint>)
    ensures Balance(Lock(coins, inputs)) + Siblings(coins, inputs) + ChosenPart(coins, inputs) == Balance(coins)
  {
    if coins != [] {
      assert Lock(coins, inputs)[1..] == Lock(coins[1..], inputs);
      LockWeighs(coins[1..], inputs);
      if coins[0].at in inputs {
        var k :| 0 <= k < |inputs| && inputs[k] == coins[0].at;
        assert SharesHash(coins[0], inputs);
      }
    }
  }

  /** Chosen coins are unlocked, so exactly their value leaves the balance. */
  lemma ChosenWeighs(coins: seq<Utxo>, chosen: seq<Utxo>)
    requires Distinct(coins) && Distinct(chosen)
    requires forall u :: u in chosen ==> u in coins && !u.locked
    ensures ChosenPart(coins, Points(chosen)) == Sum(chosen)
  {
    var inputs := Points(chosen);
    var f := (u: Utxo) => if u.at in inputs then Spendable(u) else 0;
    EraseChosen(coins, chosen, f);
    forall u | u in Refresh(coins, inputs)
      ensures f(u) == 0
    {
      RefreshMembers(coins, inputs, u);
    }
    WeighZero(Refresh(coins, inputs), f);
    AllSpendable(chosen, f);
  }

  lemma {:induction false} AllSpendable(part: seq<Utxo>, f: Utxo -> nat)
    requires forall u :: u in part ==> f(u) == u.amount
    ensures Weigh(part, f) == Sum(part)
  {
    if part != [] {
      AllSpendable(part[1..], f);
    }
  }

  // ------------------------------------------------ build, lock, send

  /** A built transfer: its inputs name chosen coins worth its outputs, and it
      pays `amount` to another address and the rest back. */
  ghost predicate PaysOut(me: Address, tx: Tx, chosen: seq<Utxo>, amount: u64) {
    && tx.Transfer? && tx.inputs == Points(chosen) && Distinct(chosen)
    && 1 <= |tx.outputs| <= 2 && tx.outputs[0].amount == amount && tx.outputs[0].dest != me
    && (|tx.outputs| == 2 ==> tx.outputs[1].dest == me)
    && SumOutputs(tx.outputs) == Sum(chosen)
  }

  lemma ReceivedBack(me: Address, tx: Tx, chosen: seq<Utxo>, amount: u64, f: Utxo -> nat)
    requires PaysOut(me, tx, chosen, amount)
    requires forall i :: 0 <= i < |tx.outputs| ==> f(Minted(tx, i)) == tx.outputs[i].amount
    ensures Received(me, tx, OutputCount(tx), f) == Sum(chosen) - amount
  {
    assert !Credits(me, tx, 0);
    assert Received(me, tx, 1, f) == Received(me, tx, 0, f) == 0;
    if |tx.outputs| == 2 {
      assert tx.outputs == [tx.outputs[0], tx.outputs[1]];
      assert Received(me, tx, 2, f) == Received(me, tx, 1, f) + f(Minted(tx, 1));
      assert SumOutputs(tx.outputs[1..]) == tx.outputs[1].amount;
    } else {
      assert SumOutputs(tx.outputs[1..]) == 0;
    }
  }

  /** Sending a built transfer, whenever it reaches the head of the queue and as
      long as its inputs are still held, lowers the holdings by exactly the amount
      and gives the change back to the balance. */
  lemma SendAccounts(s: State, fate: Fate, tx: Tx, chosen: seq<Utxo>, amount: u64)
    requires Inv(s) && s.queue != [] && s.queue[0] == [tx] && fate != PutRefused
    requires PaysOut(s.me, tx, chosen, amount)
    requires forall u :: u in chosen ==> u in s.utxos && u.locked
    ensures var s' := Send(s, fate);
            && Holding(s'.utxos) + amount == Holding(s.utxos)
            && Balance(s'.utxos) + amount == Balance(s.utxos) + Sum(chosen)
  {
    SendsOne(s, fate, tx);
    forall u | u in s.utxos
      ensures u.at.txid.of != tx
    {
      HeldIsLogged(s.me, s.utxos, s.log, u);
      QueuedNotLogged(s, tx);
    }
    ApplyWeighs(s.me, s.utxos, tx, chosen, Worth);
    ApplyWeighs(s.me, s.utxos, tx, chosen, Spendable);
    ReceivedBack(s.me, tx, chosen, amount, Worth);
    ReceivedBack(s.me, tx, chosen, amount, Spendable);
    HoldingIsSum(chosen);
    WeighZero(chosen, Spendable);
  }

  lemma SendsOne(s: State, fate: Fate, tx: Tx)
    requires s.queue != [] && s.queue[0] == [tx] && fate != PutRefused && Parsable(tx)
    ensures Send(s, fate).utxos == Apply(s.me, s.utxos, tx)
  {
    var popped := s.(queue := s.queue[1..]);
    var start := if fate.Committed? then popped.(db := Written(s.db, [tx])) else popped;
    assert [tx][1..] == [];
    assert ParseBatch(start, [tx]) == ParseBatch(ParseOutgoing(start, tx), []);
  }

  lemma QueuedNotLogged(s: State, tx: Tx)
    requires Inv(s) && s.queue != [] && s.queue[0] == [tx]
    ensures tx !in s.log
  {
    assert tx in Flat(s.queue);
    assert Waiting(s.me, s.nonce, s.log, tx);
  }

  /** Building a transfer: the state it leaves, and that the transaction pays out. */
  lemma BuildPaysOut(s: State, amount: u64, dest: Address, token: TokenId, time: int)
    returns (tx: Tx, chosen: seq<Utxo>)
    requires Inv(s) && dest != s.me
    requires 0 < amount <= Sum(EligibleCoins(s.utxos, token))
    requires Sum(Cover(EligibleCoins(s.utxos, token), amount)) < U64
    ensures var s' := TransferFunds(s, amount, dest, token, time);
            && PaysOut(s.me, tx, chosen, amount)
            && s'.queue == s.queue + [[tx]] && s'.utxos == Lock(s.utxos, tx.inputs)
            && forall u :: u in chosen ==> u in s.utxos && !u.locked
  {
    chosen := SelectionExact(s.utxos, s.me, amount, dest, token);
    var params := SelectOne(s.utxos, s.me, amount, dest, token).value;
    tx := Transfer(NextDag(s, 1, time, ""), params.inputs, params.outputs);
    EligibleDistinct(s.utxos, token);
    forall u | u in chosen
      ensures u in s.utxos && !u.locked
    {
      assert u in EligibleCoins(s.utxos, token);
      EligibleFromPool(s.utxos, token, u);
    }
  }

  /** The locked forms of the chosen coins, as the list holds them after building. */
  function Locked(chosen: seq<Utxo>): (r: seq<Utxo>)
    ensures |r| == |chosen|
    ensures forall i :: 0 <= i < |chosen| ==> r[i] == chosen[i].(locked := true)
  {
    seq(|chosen|, i requires 0 <= i < |chosen| => chosen[i].(locked := true))
  }

  lemma LockedAreHeld(coins: seq<Utxo>, chosen: seq<Utxo>, u: Utxo)
    requires (forall v :: v in chosen ==> v in coins) && u in Locked(chosen)
    ensures u in Lock(coins, Points(chosen)) && u.locked
  {
    var i :| 0 <= i < |chosen| && Locked(chosen)[i] == u;
    assert chosen[i] in chosen;
    var k :| 0 <= k < |coins| && coins[k] == chosen[i];
    assert Points(chosen)[i].txid == coins[k].at.txid;
    assert SharesHash(coins[k], Points(chosen));
    assert Lock(coins, Points(chosen))[k] == u;
  }

  lemma {:induction false} LockedSum(chosen: seq<Utxo>)
    ensures Sum(Locked(chosen)) == Sum(chosen)
  {
    if chosen != [] {
      assert Locked(chosen)[1..] == Locked(chosen[1..]);
      LockedSum(chosen[1..]);
    }
  }

  /** Locking does not change what the account holds in total. */
  lemma {:induction false} LockKeepsHolding(coins: seq<Utxo>, inputs: seq<OutPoint>)
    ensures Holding(Lock(coins, inputs)) == Holding(coins)
  {
    if coins != [] {
      assert Lock(coins, inputs)[1..] == Lock(coins[1..], inputs);
      LockKeepsHolding(coins[1..], inputs);
    }
  }

  /** `TransferFunds` to another address followed by the send that dequeues it
      lowers the holdings by exactly the amount. The balance falls by the amount
      plus the value of the siblings of the inputs, which stay locked. */
  lemma TransferThenSend(s: State, amount: u64, dest: Address, token: TokenId, time: int, fate: Fate)
    requires Inv(s) && s.queue == [] && dest != s.me && fate != PutRefused
    requires Unseen(s, TransferFunds(s, amount, dest, token, time))
    requires 0 < amount <= Sum(EligibleCoins(s.utxos, token))
    requires Sum(Cover(EligibleCoins(s.utxos, token), amount)) < U64
    ensures SelectOne(s.utxos, s.me, amount, dest, token).Some?
    ensures var inputs := SelectOne(s.utxos, s.me, amount, dest, token).value.inputs;
            var s' := Send(TransferFunds(s, amount, dest, token, time), fate);
            && Holding(s'.utxos) + amount == Holding(s.utxos)
            && Balance(s'.utxos) + amount + Siblings(s.utxos, inputs) == Balance(s.utxos)
  {
    var tx, chosen := BuildPaysOut(s, amount, dest, token, time);
    var built := TransferFunds(s, amount, dest, token, time);
    var _ := SelectionExact(s.utxos, s.me, amount, dest, token);
    TransferKeeps(s, amount, dest, token, time);
    LockWeighs(s.utxos, tx.inputs);
    ChosenWeighs(s.utxos, chosen);
    LockKeepsHolding(s.utxos, tx.inputs);
    LockedSum(chosen);
    assert Points(Locked(chosen)) == Points(chosen);
    forall u | u in Locked(chosen)
      ensures u in built.utxos && u.locked
    {
      LockedAreHeld(s.utxos, chosen, u);
    }
    assert built.queue[0] == [tx];
    SendAccounts(built, fate, tx, Locked(chosen), amount);
  }

  /** The same holds however late the transfer is sent: after any run, the send
      that dequeues it lowers the holdings by exactly the amount, provided its
      inputs are still held then. */
  lemma TransferSentLater(s: State, amount: u64, dest: Address, token: TokenId, time: int,
                          actions: seq<Action>, fate: Fate)
    requires Inv(s) && dest != s.me && fate != PutRefused
    requires 0 < amount <= Sum(EligibleCoins(s.utxos, token))
    requires Sum(Cover(EligibleCoins(s.utxos, token), amount)) < U64
    requires Unseen(s, TransferFunds(s, amount, dest, token, time))
    requires Runs(TransferFunds(s, amount, dest, token, time), actions) && Guarded(actions)
    requires var built := TransferFunds(s, amount, dest, token, time);
             var s' := Run(built, actions);
             && s'.queue != [] && built.queue != [] && s'.queue[0] == built.queue[|built.queue| - 1]
             && forall t, o :: t in s'.queue[0] && o in Inputs(t) ==> o in Keys(s'.utxos)
    ensures var s' := Run(TransferFunds(s, amount, dest, token, time), actions);
            Holding(Send(s', fate).utxos) + amount == Holding(s'.utxos)
  {
    hide Inv, Runs, Run, TransferFunds, PaysOut, Holding, Send;
    var tx, chosen := BuildPaysOut(s, amount, dest, token, time);
    var built := TransferFunds(s, amount, dest, token, time);
    TransferRecorded(s, amount, dest, token, time, tx);
    TransferKeeps(s, amount, dest, token, time);
    RunKeeps(built, actions);
    RunExtends(built, actions);
    GenuineCoins(s, chosen);
    var s' := Run(built, actions);
    assert s'.spends[|built.spends| - 1] == tx;
    SendHeld(s', tx, chosen, amount, fate);
  }

  lemma TransferRecorded(s: State, amount: u64, dest: Address, token: TokenId, time: int, tx: Tx)
    requires TransferFunds(s, amount, dest, token, time).queue == s.queue + [[tx]]
    ensures var built := TransferFunds(s, amount, dest, token, time);
            built.me == s.me && built.spends == s.spends + [tx]
  {
    var built := TransferFunds(s, amount, dest, token, time);
    assert built.queue[|s.queue|] == [tx];
    assert built.queue != s.queue;
  }

  lemma GenuineCoins(s: State, chosen: seq<Utxo>)
    requires Inv(s) && forall u :: u in chosen ==> u in s.utxos
    ensures forall u :: u in chosen ==> Genuine(s.me, u)
  {
  }

  /** A transfer at the head of the queue whose inputs are all held: the send
      lowers the holdings by the amount. */
  lemma SendHeld(s: State, tx: Tx, chosen: seq<Utxo>, amount: u64, fate: Fate)
    requires Inv(s) && fate != PutRefused && s.queue != [] && s.queue[0] == [tx] && tx in s.spends
    requires PaysOut(s.me, tx, chosen, amount) && forall u :: u in chosen ==> Genuine(s.me, u)
    requires forall o :: o in Inputs(tx) ==> o in Keys(s.utxos)
    ensures Holding(Send(s, fate).utxos) + amount == Holding(s.utxos)
  {
    hide Inv, Send, Holding, Genuine;
    LockedSum(chosen);
    assert Points(Locked(chosen)) == Points(chosen);
    forall u | u in Locked(chosen)
      ensures u in s.utxos && u.locked
    {
      var i :| 0 <= i < |chosen| && Locked(chosen)[i] == u;
      assert chosen[i] in chosen && u.at == Points(chosen)[i];
      assert u.at in Inputs(tx);
      StillHeld(s, tx, chosen[i]);
    }
    SendAccounts(s, fate, tx, Locked(chosen), amount);
  }

  /** A coin used by one of our spends and still held is held locked, with the
      amount and token it had. */
  lemma StillHeld(s: State, tx: Tx, u: Utxo)
    requires Inv(s) && tx in s.spends && u.at in Inputs(tx) && u.at in Keys(s.utxos) && Genuine(s.me, u)
    ensures u.(locked := true) in s.utxos
  {
    assert Reserved(s.log, s.utxos, u.at);
    var v :| v in s.utxos && v.at == u.at;
    assert v.locked && Genuine(s.me, v);
    assert v == u.(locked := true);
  }

  /** When no two held coins share a hash there are no siblings, so the balance
      falls by exactly the amount. */
  lemma NoSiblings(coins: seq<Utxo>, inputs: seq<OutPoint>)
    requires forall u, v :: u in coins && v in coins && u.at.txid == v.at.txid ==> u.at == v.at
    requires forall o :: o in inputs ==> o in Keys(coins)
    ensures Siblings(coins, inputs) == 0
  {
    var f := (u: Utxo) => if SharesHash(u, inputs) && u.at !in inputs then Spendable(u) else 0;
    forall u | u in coins
      ensures f(u) == 0
    {
      if SharesHash(u, inputs) {
        var k :| 0 <= k < |inputs| && inputs[k].txid == u.at.txid;
        assert inputs[k] in inputs && inputs[k] in Keys(coins);
        var v :| v in coins && v.at == inputs[k];
      }
    }
    WeighZero(coins, f);
  }
}
