/** Who gets what: the amounts that parsing a built transaction credits to each
    account, for transfers, mints, escrow holds and escrow payouts. */
module Payments {
  import opened Machine
  import opened Tokens
  import opened Transactions
  import opened CoinSelection
  import opened Replay
  import opened TokenAmount
  import opened Node
  import opened Accounting

  /** What parsing `tx` credits to `a`. */
  function Gets(a: Address, tx: Tx): nat { Received(a, tx, OutputCount(tx), Worth) }

  /** An account that has nothing of `tx` yet and holds none of its inputs gains
      exactly that. */
  lemma RecipientGains(a: Address, coins: seq<Utxo>, tx: Tx)
    requires forall u :: u in coins ==> u.at.txid.of != tx && u.at !in Spends(a, tx)
    requires forall o :: o in Spends(a, tx) ==> o.txid.of != tx
    ensures Holding(Apply(a, coins, tx)) == Holding(coins) + Gets(a, tx)
  {
    var n := OutputCount(tx);
    CreditWeighs(a, coins, tx, n, Worth);
    CreditFacts(a, coins, tx, n);
    RefreshNothing(Credit(a, coins, tx, n), Spends(a, tx));
  }

  // ------------------------------------------------ transfers, mints, holds

  /** What a list of outputs pays to an address. */
  function PaidTo(a: Address, outputs: seq<Output>): nat {
    if outputs == [] then 0
    else PaidTo(a, outputs[..|outputs| - 1]) +
         if outputs[|outputs| - 1].dest == a then outputs[|outputs| - 1].amount else 0
  }

  lemma {:induction false} TransferGets(a: Address, tx: Tx, n: nat)
    requires tx.Transfer? && n <= |tx.outputs|
    ensures Received(a, tx, n, Worth) == PaidTo(a, tx.outputs[..n])
  {
    if n > 0 {
      TransferGets(a, tx, n - 1);
      assert tx.outputs[..n][..n - 1] == tx.outputs[..n - 1];
    }
  }

  lemma PaidToSnoc(a: Address, outputs: seq<Output>, o: Output)
    ensures PaidTo(a, outputs + [o]) == PaidTo(a, outputs) + if o.dest == a then o.amount else 0
  {
    assert (outputs + [o])[..|outputs|] == outputs;
  }

  /** A transfer that is built: one transaction, numbered next, that pays the amount
      to the destination and the change back to the sender, and nothing to anyone
      else. A transfer that cannot be built changes nothing. */
  lemma TransferPays(s: State, amount: u64, dest: Address, token: TokenId, time: int, a: Address)
    ensures var s' := TransferFunds(s, amount, dest, token, time);
            var chosen := Gather(s.utxos, token, amount, 0).0;
            if SelectOne(s.utxos, s.me, amount, dest, token).None? then s' == s
            else
              && |s'.queue| == |s.queue| + 1 && s'.queue[..|s.queue|] == s.queue && |s'.queue[|s.queue|]| == 1
              && var tx := s'.queue[|s.queue|][0];
                 && tx.Transfer? && tx.dag == Dag(s.nonce + 1, s.me, time, "") && s'.nonce == s.nonce + 1
                 && tx.inputs == Points(chosen) && amount <= Wrap(Sum(chosen))
                 && (forall o :: o in tx.outputs ==> o.token == token)
                 && Gets(a, tx) == (if a == dest then amount else 0) +
                                   (if a == s.me then Wrap(Sum(chosen)) - amount else 0)
  {
    hide SelectOne, Gather, Wrap, Gets, Lock;
    var r := SelectOne(s.utxos, s.me, amount, dest, token);
    var chosen := OutputsAreWrapped(s.utxos, s.me, amount, dest, token);
    if r.Some? {
      var s' := TransferFunds(s, amount, dest, token, time);
      var tx := Transfer(NextDag(s, 1, time, ""), r.value.inputs, r.value.outputs);
      assert s'.queue == s.queue + [[tx]];
      ChangeGets(a, tx, amount, dest, Wrap(Sum(chosen)) - amount, s.me, token);
    }
  }

  /** A payment and its change. */
  lemma ChangeGets(a: Address, tx: Tx, amount: u64, dest: Address, change: u64, back: Address, token: TokenId)
    requires tx.Transfer? && tx.outputs == [Output(amount, dest, token)] + Change(change, back, token)
    ensures Gets(a, tx) == (if a == dest then amount else 0) + (if a == back then change else 0)
  {
    var first := Output(amount, dest, token);
    TransferGets(a, tx, |tx.outputs|);
    assert tx.outputs[..|tx.outputs|] == tx.outputs;
    PaidToSnoc(a, [], first);
    assert [] + [first] == [first];
    if change > 0 {
      PaidToSnoc(a, [first], Output(change, back, token));
    } else {
      assert tx.outputs == [first];
    }
  }

  /** A mint that is built pays its amount, in its token, to the minter alone. */
  lemma MintPays(s: State, amount: u64, previous: string, chain: string, token: TokenId, time: int, a: Address)
    ensures var s' := MintFunds(s, amount, previous, chain, token, time);
            && |s'.queue| == |s.queue| + 1 && s'.queue[..|s.queue|] == s.queue && |s'.queue[|s.queue|]| == 1
            && var tx := s'.queue[|s.queue|][0];
               && tx.Mint? && tx.dag == Dag(s.nonce + 1, s.me, time, previous) && s'.nonce == s.nonce + 1
               && tx.chain == chain && tx.token == token
               && Gets(a, tx) == (if a == s.me then amount else 0)
  {
    var tx := Mint(NextDag(s, 1, time, previous), chain, amount, token);
    assert MintFunds(s, amount, previous, chain, token, time).queue == s.queue + [[tx]];
    assert Received(a, tx, 1, Worth) == Received(a, tx, 0, Worth) + if Credits(a, tx, 0) then amount else 0;
  }

  /** An escrow hold that is built sets the amount aside under the escrow address,
      where nobody is credited, returns the change to the holder, and records
      amount, developer and cut. */
  lemma HoldPays(s: State, amount: u64, escrow: Address, dev: Address, cut: u64, time: int, a: Address)
    ensures var s' := HoldEscrow(s, amount, escrow, dev, cut, time);
            var chosen := Gather(s.utxos, FromBytes([0]), amount, 0).0;
            if SelectOne(s.utxos, s.me, amount, escrow, FromBytes([0])).None? then s' == s
            else
              && |s'.queue| == |s.queue| + 1 && s'.queue[..|s.queue|] == s.queue && |s'.queue[|s.queue|]| == 1
              && var tx := s'.queue[|s.queue|][0];
                 && tx.EscrowHold? && tx.dag == Dag(s.nonce + 1, s.me, time, "") && s'.nonce == s.nonce + 1
                 && tx.inputs == Points(chosen) && tx.outputs != [] && amount <= Wrap(Sum(chosen))
                 && tx.outputs[0].amount == amount && tx.outputs[0].dest == escrow && IsGnus(tx.outputs[0].token)
                 && tx.amount == amount && tx.dev == dev && tx.cut == cut
                 && Gets(a, tx) == (if a == s.me then Wrap(Sum(chosen)) - amount else 0)
  {
    var gnus := FromBytes([0]);
    var r := SelectOne(s.utxos, s.me, amount, escrow, gnus);
    var chosen := OutputsAreWrapped(s.utxos, s.me, amount, escrow, gnus);
    EqualsIsSameClass(gnus, gnus);
    ParsedClass([0]);
    assert Number([0]) == 0;
    if r.Some? {
      var s' := HoldEscrow(s, amount, escrow, dev, cut, time);
      var tx := EscrowHold(NextDag(s, 1, time, ""), r.value.inputs, r.value.outputs, amount, dev, cut);
      assert s'.queue == s.queue + [[tx]];
      var change: u64 := Wrap(Sum(chosen)) - amount;
      assert Received(a, tx, 1, Worth) == Received(a, tx, 0, Worth) == 0;
      if change > 0 {
        assert tx.outputs[1] == Output(change, s.me, gnus) && |tx.outputs| == 2;
        assert Received(a, tx, 2, Worth) == Received(a, tx, 1, Worth) + if Credits(a, tx, 1) then change else 0;
      } else {
        assert |tx.outputs| == 1;
      }
    }
  }

  // ------------------------------------------------ payouts

  /** How many of the results were computed by `a`. */
  function ResultsOf(a: Address, results: seq<TaskResult>): nat {
    if results == [] then 0
    else ResultsOf(a, results[..|results| - 1]) + if results[|results| - 1].node == a then 1 else 0
  }

  lemma {:induction false} PeersPaid(a: Address, outputs: seq<Output>, results: seq<TaskResult>, share: u64)
    requires |outputs| == |results|
    requires forall i :: 0 <= i < |results| ==> outputs[i].dest == results[i].node && outputs[i].amount == share
    ensures PaidTo(a, outputs) == share * ResultsOf(a, results)
  {
    if results != [] {
      var n := |results| - 1;
      PeersPaid(a, outputs[..n], results[..n], share);
      assert outputs[n].dest == results[n].node;
      assert share * (ResultsOf(a, results[..n]) + 1) == share * ResultsOf(a, results[..n]) + share;
    }
  }

  /** `share` added up `n` times. */
  function Repeated(share: nat, n: nat): nat {
    if n == 0 then 0 else Repeated(share, n - 1) + share
  }

  lemma {:induction false} RepeatedIsTimes(share: nat, n: nat)
    ensures Repeated(share, n) == n * share
  {
    if n > 0 {
      RepeatedIsTimes(share, n - 1);
      assert n * share == (n - 1) * share + share;
    }
  }

  /** The remainder is what 64-bit subtraction leaves of the escrow. */
  lemma {:induction false} DevShareIsRemainder(amount: u64, share: u64, n: nat)
    ensures DevShare(amount, share, n) == Wrap(amount - Repeated(share, n))
  {
    if n > 0 {
      hide Wrap;
      DevShareIsRemainder(amount, share, n - 1);
      WrapSum(amount as int - Repeated(share, n - 1), 0 - share as int);
    }
  }

  /** An escrow payout: a transfer of the escrow that pays each account the share
      times the number of its results, in the token each result names, and the
      remainder to the developer; then a release that names the hold. Without
      results, without a hold, or when the shares do not fit, nothing changes. */
  lemma PayoutPays(s: State, fetched: Option<Tx>, results: seq<TaskResult>, time: int, a: Address)
    requires fetched.Some? ==> fetched.value.EscrowHold? && fetched.value.outputs != []
    ensures var s' := PayEscrow(s, fetched, results, time);
            if results == [] || fetched.None? || fetched.value.amount * fetched.value.cut >= MINIONS * U64 then s' == s
            else
              var hold, n := fetched.value, |results|;
              var share := Quotient(Quotient(hold.amount * hold.cut, MINIONS), n);
              && |s'.queue| == |s.queue| + 1 && s'.queue[..|s.queue|] == s.queue && |s'.queue[|s.queue|]| == 2
              && s'.nonce == s.nonce + 2 && s'.utxos == s.utxos && s'.spends == s.spends
              && var pay, release := s'.queue[|s.queue|][0], s'.queue[|s.queue|][1];
                 && pay.Transfer? && pay.dag == Dag(s.nonce + 1, s.me, time, "")
                 && pay.inputs == [OutPoint(Digest(hold), 0)] && |pay.outputs| == n + 1
                 && (forall i :: 0 <= i < n && |results[i].token| <= WIDTH ==>
                       Class(pay.outputs[i].token) == Number(results[i].token))
                 && pay.outputs[n].token == hold.outputs[0].token
                 && Gets(a, pay) == share * ResultsOf(a, results) +
                                    (if a == hold.dev then Wrap(hold.amount - n * share) else 0)
                 && release == EscrowRelease(Dag(s.nonce + 2, s.me, time, ""), hold.amount, hold.dev, hold.dag.source,
                                             Digest(hold))
  {
    hide Class, Number;
    if results != [] && fetched.Some? {
      var hold, n := fetched.value, |results|;
      ShareIs(hold.amount, hold.cut, n);
      var share := PeerShare(hold.amount, hold.cut, n);
      if share.Ok? {
        PayoutOutputs(s, hold, results, time, a, share.value);
      }
    }
  }

  lemma ShareIs(amount: u64, cut: u64, n: nat)
    requires n > 0
    ensures PeerShare(amount, cut, n).Err? <==> amount * cut >= MINIONS * U64
    ensures PeerShare(amount, cut, n).Ok? ==>
            PeerShare(amount, cut, n).value == Quotient(Quotient(amount * cut, MINIONS), n)
  {
    ScaleSix();
    QuotientLess(amount * cut, MINIONS, U64);
  }

  lemma PayoutOutputs(s: State, hold: Tx, results: seq<TaskResult>, time: int, a: Address, share: u64)
    requires hold.EscrowHold? && hold.outputs != [] && results != []
    requires PeerShare(hold.amount, hold.cut, |results|) == Ok(share)
    ensures var s', n := PayEscrow(s, Some(hold), results, time), |results|;
            && |s'.queue| == |s.queue| + 1 && s'.queue[..|s.queue|] == s.queue && |s'.queue[|s.queue|]| == 2
            && s'.nonce == s.nonce + 2 && s'.utxos == s.utxos && s'.spends == s.spends
            && var pay, release := s'.queue[|s.queue|][0], s'.queue[|s.queue|][1];
               && pay.Transfer? && pay.dag == Dag(s.nonce + 1, s.me, time, "")
               && pay.inputs == [OutPoint(Digest(hold), 0)] && |pay.outputs| == n + 1
               && (forall i :: 0 <= i < n && |results[i].token| <= WIDTH ==>
                     Class(pay.outputs[i].token) == Number(results[i].token))
               && pay.outputs[n].token == hold.outputs[0].token
               && Gets(a, pay) == share * ResultsOf(a, results) +
                                  (if a == hold.dev then Wrap(hold.amount - n * share) else 0)
               && release == EscrowRelease(Dag(s.nonce + 2, s.me, time, ""), hold.amount, hold.dev, hold.dag.source,
                                           Digest(hold))
  {
    hide Class, Number, DevShare, PeerShare, FromBytes;
    var n, paid := |results|, Payouts(hold, results, share);
    var pay := Transfer(NextDag(s, 1, time, ""), [OutPoint(Digest(hold), 0)], paid);
    var release := EscrowRelease(NextDag(s, 2, time, ""), hold.amount, hold.dev, hold.dag.source, Digest(hold));
    assert PayEscrow(s, Some(hold), results, time).queue == s.queue + [[pay, release]];
    forall i | 0 <= i < n
      ensures paid[i] == Output(share, results[i].node, FromBytes(results[i].token))
      ensures |results[i].token| <= WIDTH ==> Class(paid[i].token) == Number(results[i].token)
    {
      ParsedClass(results[i].token);
    }
    PeersPaid(a, paid[..n], results, share);
    assert paid == paid[..n] + [paid[n]];
    PaidToSnoc(a, paid[..n], paid[n]);
    DevShareIsRemainder(hold.amount, share, n);
    RepeatedIsTimes(share, n);
    TransferGets(a, pay, n + 1);
    assert paid[..n + 1] == paid;
  }
}
