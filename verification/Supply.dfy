/** Conservation of supply over all accounts and open escrows.

    The history is the list of transactions of the whole network. Every address
    replays it; a deed appends the transaction the code builds. */
module Supply {
  import opened Machine
  import opened Tokens
  import opened Transactions
  import opened CoinSelection
  import opened Replay
  import opened TokenAmount
  import opened Node
  import opened NodeSafety

  // ------------------------------------------------ sums over sets of outputs

  ghost function Weight(points: set<OutPoint>, f: OutPoint -> nat): nat {
    if points == {} then 0
    else
      var o :| o in points;
      f(o) + Weight(points - {o}, f)
  }

  lemma {:induction false} WeightTake(points: set<OutPoint>, o: OutPoint, f: OutPoint -> nat)
    requires o in points
    ensures Weight(points, f) == f(o) + Weight(points - {o}, f)
    decreases |points|
  {
    var p :| p in points && Weight(points, f) == f(p) + Weight(points - {p}, f);
    if p != o {
      WeightTake(points - {p}, o, f);
      WeightTake(points - {o}, p, f);
      assert points - {p} - {o} == points - {o} - {p};
    }
  }

  lemma {:induction false} WeightUnion(a: set<OutPoint>, b: set<OutPoint>, f: OutPoint -> nat)
    requires a !! b
    ensures Weight(a + b, f) == Weight(a, f) + Weight(b, f)
    decreases |a|
  {
    if a == {} {
      assert a + b == b;
    } else {
      var o :| o in a;
      WeightTake(a + b, o, f);
      WeightTake(a, o, f);
      assert a + b - {o} == (a - {o}) + b;
      WeightUnion(a - {o}, b, f);
    }
  }

  lemma WeightMinus(all: set<OutPoint>, part: set<OutPoint>, f: OutPoint -> nat)
    requires part <= all
    ensures Weight(all - part, f) + Weight(part, f) == Weight(all, f)
  {
    assert all == (all - part) + part;
    WeightUnion(all - part, part, f);
  }

  // ------------------------------------------------ outputs of the whole network

  /** All outputs of a transaction, whoever they are paid to. */
  function Outs(tx: Tx, n: nat): set<OutPoint> {
    set i: nat | i < n :: OutPoint(Digest(tx), i)
  }

  /** The unspent outputs of a history, escrows included. */
  function Pool(history: seq<Tx>): set<OutPoint> {
    if history == [] then {}
    else
      var tx := history[|history| - 1];
      (Pool(history[..|history| - 1]) - SetOf(Inputs(tx))) + Outs(tx, OutputCount(tx))
  }

  /** What an output is worth. */
  function Amount(o: OutPoint): nat {
    if o.index < OutputCount(o.txid.of) then CoinAt(o.txid.of, o.index).amount else 0
  }

  /** What an output is worth in one token class. */
  function AmountIn(c: nat, o: OutPoint): nat {
    if o.index < OutputCount(o.txid.of) && Class(CoinAt(o.txid.of, o.index).token) == c then Amount(o) else 0
  }

  /** The outputs of a pool that parsing credits to `a`. */
  ghost function OwnedBy(a: Address, pool: set<OutPoint>): set<OutPoint> {
    set o | o in pool && Credits(a, o.txid.of, o.index)
  }

  /** The first output of an escrow hold belongs to no account until it is paid. */
  predicate IsEscrow(o: OutPoint) { o.txid.of.EscrowHold? && o.index == 0 }

  function OutWeight(tx: Tx, n: nat, f: OutPoint -> nat): nat {
    if n == 0 then 0 else OutWeight(tx, n - 1, f) + f(OutPoint(Digest(tx), n - 1))
  }

  lemma {:induction false} OutsWeigh(tx: Tx, n: nat, f: OutPoint -> nat)
    ensures Weight(Outs(tx, n), f) == OutWeight(tx, n, f)
  {
    if n > 0 {
      var o := OutPoint(Digest(tx), n - 1);
      OutsWeigh(tx, n - 1, f);
      WeightTake(Outs(tx, n), o, f);
      assert Outs(tx, n) - {o} == Outs(tx, n - 1);
    }
  }

  /** What a mint adds. */
  function MintWeight(tx: Tx, f: OutPoint -> nat): nat {
    if tx.Mint? then f(OutPoint(Digest(tx), 0)) else 0
  }

  function MintedTotal(history: seq<Tx>, f: OutPoint -> nat): nat {
    if history == [] then 0
    else MintedTotal(history[..|history| - 1], f) + MintWeight(history[|history| - 1], f)
  }

  /** A transaction puts out what it takes in, apart from mints. */
  ghost predicate Balanced(tx: Tx, f: OutPoint -> nat) {
    Weight(SetOf(Inputs(tx)), f) + MintWeight(tx, f) == OutWeight(tx, OutputCount(tx), f)
  }

  // ------------------------------------------------ legitimate histories

  /** A new transaction that spends only what is there; an escrow hold spends its
      own source's coins and returns change to it. */
  ghost predicate Legit(history: seq<Tx>, tx: Tx) {
    && tx !in history
    && (forall o :: o in Inputs(tx) ==> o in Pool(history))
    && (tx.EscrowHold? ==>
          && 1 <= |tx.outputs| <= 2 && tx.outputs[0].amount == tx.amount
          && (|tx.outputs| == 2 ==> tx.outputs[1].dest == tx.dag.source)
          && forall o :: o in Inputs(tx) ==> Credits(tx.dag.source, o.txid.of, o.index))
  }

  ghost predicate LegitHistory(history: seq<Tx>) {
    history != [] ==>
      LegitHistory(history[..|history| - 1]) && Legit(history[..|history| - 1], history[|history| - 1])
  }

  lemma {:induction false} PoolFromHistory(history: seq<Tx>, o: OutPoint)
    requires o in Pool(history)
    ensures o.txid.of in history && o.index < OutputCount(o.txid.of)
  {
    var n := |history| - 1;
    if o !in Outs(history[n], OutputCount(history[n])) {
      PoolFromHistory(history[..n], o);
    }
  }

  lemma CreditsUnique(a: Address, b: Address, tx: Tx, i: nat)
    requires Credits(a, tx, i) && Credits(b, tx, i)
    ensures a == b
  {
  }

  /** What a transaction removes from an account is what it takes of the
      account's part of the pool. */
  lemma SpendsOwn(history: seq<Tx>, a: Address, tx: Tx)
    requires Legit(history, tx)
    ensures OwnedBy(a, Pool(history)) - SetOf(Spends(a, tx)) == OwnedBy(a, Pool(history) - SetOf(Inputs(tx)))
  {
    forall o | o in OwnedBy(a, Pool(history)) && o in Inputs(tx)
      ensures o in Spends(a, tx)
    {
      if tx.EscrowHold? {
        CreditsUnique(a, tx.dag.source, o.txid.of, o.index);
      }
    }
  }

  /** Each account holds exactly its part of the pool of unspent outputs. */
  lemma {:induction false} AccountsShareThePool(history: seq<Tx>, a: Address)
    requires LegitHistory(history)
    ensures Keys(After(a, history)) == OwnedBy(a, Pool(history))
  {
    if history != [] {
      var n := |history| - 1;
      var before, tx := history[..n], history[n];
      AccountsShareThePool(before, a);
      ApplyFacts(a, After(a, before), tx);
      SpendsOwn(before, a, tx);
      forall o | o in Created(a, tx)
        ensures o !in Inputs(tx)
      {
        if o in Inputs(tx) {
          PoolFromHistory(before, o);
          assert false;
        }
      }
      assert forall o :: o in Spends(a, tx) ==> o in Inputs(tx);
      assert OwnedBy(a, Outs(tx, OutputCount(tx))) == Created(a, tx);
    }
  }

  /** Nothing else is in the pool: an unspent output is an open escrow or belongs
      to some account. */
  lemma PoolIsOwned(history: seq<Tx>, o: OutPoint)
    requires LegitHistory(history) && o in Pool(history)
    ensures IsEscrow(o) || exists a :: o in Keys(After(a, history))
  {
    PoolFromHistory(history, o);
    var tx := o.txid.of;
    LegitMember(history, tx);
    var owner := if tx.Transfer? then tx.outputs[o.index].dest else tx.dag.source;
    if !IsEscrow(o) {
      assert Credits(owner, tx, o.index);
      AccountsShareThePool(history, owner);
      assert o in Keys(After(owner, history));
    }
  }

  lemma {:induction false} LegitMember(history: seq<Tx>, tx: Tx)
    requires LegitHistory(history) && tx in history
    ensures exists k :: 0 <= k < |history| && Legit(history[..k], tx)
  {
    var n := |history| - 1;
    if tx == history[n] {
      assert Legit(history[..n], tx);
    } else {
      LegitMember(history[..n], tx);
      var k :| 0 <= k < n && Legit(history[..n][..k], tx);
      assert history[..n][..k] == history[..k];
    }
  }

  /** What is unspent stays equal to what was minted exactly when a transaction is balanced. */
  lemma StepConservesIff(history: seq<Tx>, tx: Tx, f: OutPoint -> nat)
    requires Legit(history, tx)
    requires Weight(Pool(history), f) == MintedTotal(history, f)
    ensures Weight(Pool(history + [tx]), f) == MintedTotal(history + [tx], f) <==> Balanced(tx, f)
  {
    var after := history + [tx];
    assert after[..|after| - 1] == history;
    var spent, outs := SetOf(Inputs(tx)), Outs(tx, OutputCount(tx));
    WeightMinus(Pool(history), spent, f);
    forall o | o in Pool(history)
      ensures o !in outs
    {
      PoolFromHistory(history, o);
    }
    WeightUnion(Pool(history) - spent, outs, f);
    OutsWeigh(tx, OutputCount(tx), f);
  }

  // ------------------------------------------------ weights of what the code builds

  lemma {:induction false} WeightlessSet(points: set<OutPoint>, f: OutPoint -> nat)
    requires forall o :: o in points ==> f(o) == 0
    ensures Weight(points, f) == 0
    decreases |points|
  {
    if points != {} {
      var o :| o in points;
      WeightTake(points, o, f);
      WeightlessSet(points - {o}, f);
    }
  }

  lemma {:induction false} InputsWeigh(chosen: seq<Utxo>, f: OutPoint -> nat)
    requires Distinct(chosen) && forall u :: u in chosen ==> f(u.at) == u.amount
    ensures Weight(SetOf(Points(chosen)), f) == Sum(chosen)
  {
    if chosen == [] {
      assert SetOf(Points(chosen)) == {};
    } else {
      var o := chosen[0].at;
      var points := SetOf(Points(chosen));
      assert Points(chosen)[0] == o;
      WeightTake(points, o, f);
      assert Points(chosen)[1..] == Points(chosen[1..]);
      assert Points(chosen) == [o] + Points(chosen[1..]);
      assert points - {o} == SetOf(Points(chosen[1..]));
      InputsWeigh(chosen[1..], f);
    }
  }

  lemma {:induction false} OutputsWeigh(tx: Tx, n: nat, f: OutPoint -> nat)
    requires (tx.Transfer? || tx.EscrowHold?) && n <= |tx.outputs|
    requires forall i :: 0 <= i < n ==> f(OutPoint(Digest(tx), i)) == tx.outputs[i].amount
    ensures OutWeight(tx, n, f) == SumOutputs(tx.outputs[..n])
  {
    if n > 0 {
      OutputsWeigh(tx, n - 1, f);
      assert tx.outputs[..n] == tx.outputs[..n - 1] + [tx.outputs[n - 1]];
      SumOutputsConcat(tx.outputs[..n - 1], [tx.outputs[n - 1]]);
      assert SumOutputs([tx.outputs[n - 1]]) == tx.outputs[n - 1].amount;
    }
  }

  lemma {:induction false} OutputsWeightless(tx: Tx, n: nat, f: OutPoint -> nat)
    requires forall i: nat :: i < n ==> f(OutPoint(Digest(tx), i)) == 0
    ensures OutWeight(tx, n, f) == 0
  {
    if n > 0 {
      OutputsWeightless(tx, n - 1, f);
    }
  }

  /** A transaction weighed at face value is balanced exactly when its outputs are
      worth its inputs. */
  lemma FaceValueBalancedIff(tx: Tx, chosen: seq<Utxo>, f: OutPoint -> nat)
    requires (tx.Transfer? || tx.EscrowHold?) && tx.inputs == Points(chosen) && Distinct(chosen)
    requires forall u :: u in chosen ==> f(u.at) == u.amount
    requires forall i :: 0 <= i < |tx.outputs| ==> f(OutPoint(Digest(tx), i)) == tx.outputs[i].amount
    ensures Balanced(tx, f) <==> SumOutputs(tx.outputs) == Sum(chosen)
  {
    InputsWeigh(chosen, f);
    OutputsWeigh(tx, |tx.outputs|, f);
    assert tx.outputs[..|tx.outputs|] == tx.outputs;
  }

  lemma WeightlessBalanced(tx: Tx, f: OutPoint -> nat)
    requires !tx.Mint?
    requires forall o :: o in Inputs(tx) ==> f(o) == 0
    requires forall i: nat :: i < OutputCount(tx) ==> f(OutPoint(Digest(tx), i)) == 0
    ensures Balanced(tx, f)
  {
    WeightlessSet(SetOf(Inputs(tx)), f);
    OutputsWeightless(tx, OutputCount(tx), f);
  }

  /** The weights conservation is stated for: face value, or one token class. */
  ghost function Face(): OutPoint -> nat { o => Amount(o) }

  ghost function ClassFace(c: nat): OutPoint -> nat { o => AmountIn(c, o) }

  /** A coin list that can be selected from: no coin twice, and the unlocked ones
      genuine. Locked coins may be anything. */
  ghost predicate Selectable(a: Address, pool: seq<Utxo>) {
    Distinct(pool) && forall u :: u in pool && !u.locked ==> Genuine(a, u)
  }

  /** The transaction built from a selection. */
  ghost predicate BuiltFrom(tx: Tx, a: Address, pool: seq<Utxo>, amount: u64, dest: Address, token: TokenId) {
    var r := SelectOne(pool, a, amount, dest, token);
    (tx.Transfer? || tx.EscrowHold?) && r == Some(Params(tx.inputs, tx.outputs))
  }

  /** What is known of its inputs and outputs. */
  lemma BuiltParts(tx: Tx, a: Address, pool: seq<Utxo>, amount: u64, dest: Address, token: TokenId)
    returns (chosen: seq<Utxo>)
    requires Selectable(a, pool) && BuiltFrom(tx, a, pool, amount, dest, token)
    ensures tx.inputs == Points(chosen) && Distinct(chosen)
    ensures forall u :: u in chosen ==> u in pool && !u.locked && Genuine(a, u) && Class(u.token) == Class(token)
    ensures 1 <= |tx.outputs| <= 2 && tx.outputs[0].amount == amount
    ensures |tx.outputs| == 2 ==> tx.outputs[1].dest == a
    ensures forall i :: 0 <= i < |tx.outputs| ==> tx.outputs[i].token == token
    ensures SumOutputs(tx.outputs) == Sum(chosen) <==> Sum(Cover(EligibleCoins(pool, token), amount)) < U64
  {
    chosen := OutputsAreWrapped(pool, a, amount, dest, token);
    SelectionBalancesIff(pool, a, amount, dest, token);
    EligibleDistinct(pool, token);
    forall u | u in chosen
      ensures u in pool && !u.locked && Class(u.token) == Class(token)
    {
      assert u in EligibleCoins(pool, token);
      EligibleFromPool(pool, token, u);
      EqualsIsSameClass(token, u.token);
    }
  }

  /** A transfer or hold conserves the total if and only if the covering prefix of
      the eligible coins stays below 2^64, and then it conserves every token class. */
  lemma BuiltBalancedIff(tx: Tx, a: Address, pool: seq<Utxo>, amount: u64, dest: Address, token: TokenId, c: nat)
    requires Selectable(a, pool) && BuiltFrom(tx, a, pool, amount, dest, token)
    ensures Balanced(tx, Face()) <==> Sum(Cover(EligibleCoins(pool, token), amount)) < U64
    ensures Balanced(tx, Face()) ==> Balanced(tx, ClassFace(c))
  {
    var chosen := BuiltParts(tx, a, pool, amount, dest, token);
    hide SelectOne, Cover, EligibleCoins, Balanced, Class;
    FaceValueBalancedIff(tx, chosen, Face());
    if Class(token) == c {
      FaceValueBalancedIff(tx, chosen, ClassFace(c));
    } else {
      forall o | o in Inputs(tx)
        ensures ClassFace(c)(o) == 0
      {
        var k :| 0 <= k < |chosen| && Points(chosen)[k] == o;
        assert chosen[k] in chosen;
      }
      WeightlessBalanced(tx, ClassFace(c));
    }
  }

  // ------------------------------------------------ deeds

  /** What a node does to the history. A pool is the doer's coin list, with
      whatever locks it has. */
  datatype Deed =
    | MintDeed(dag: Dag, chain: string, amount: u64, token: TokenId)
    | TransferDeed(dag: Dag, pool: seq<Utxo>, amount: u64, dest: Address, token: TokenId)
    | HoldDeed(dag: Dag, pool: seq<Utxo>, amount: u64, escrow: Address, dev: Address, cut: u64)
    | PayDeed(dag: Dag, hold: Tx, results: seq<TaskResult>)

  /** The transaction a deed appends, if it succeeds. */
  function Done(d: Deed): Option<Tx>
    requires d.PayDeed? ==> d.hold.EscrowHold? && d.hold.outputs != [] && d.results != []
  {
    match d
    case MintDeed(dag, chain, amount, token) => Some(Mint(dag, chain, amount, token))
    case TransferDeed(dag, pool, amount, dest, token) =>
      var r := SelectOne(pool, dag.source, amount, dest, token);
      if r.None? then None else Some(Transfer(dag, r.value.inputs, r.value.outputs))
    case HoldDeed(dag, pool, amount, escrow, dev, cut) =>
      var r := SelectOne(pool, dag.source, amount, escrow, FromBytes([0]));
      if r.None? then None else Some(EscrowHold(dag, r.value.inputs, r.value.outputs, amount, dev, cut))
    case PayDeed(dag, hold, results) =>
      var share := PeerShare(hold.amount, hold.cut, |results|);
      if share.Err? then None
      else Some(Transfer(dag, [OutPoint(Digest(hold), 0)], Payouts(hold, results, share.value)))
  }

  /** When a deed can happen: the doer's unlocked coins are unspent outputs paid to
      them (the list may lag behind, hold locked coins of queued transactions and
      miss new ones), an escrow is paid while it is open, and the transaction is new. */
  ghost predicate Possible(history: seq<Tx>, d: Deed) {
    && (match d
        case MintDeed(_, _, _, _) => true
        case TransferDeed(dag, pool, _, _, _) => OwnsUnlocked(history, dag.source, pool)
        case HoldDeed(dag, pool, _, _, _, _) => OwnsUnlocked(history, dag.source, pool)
        case PayDeed(_, hold, results) =>
          hold.EscrowHold? && hold.outputs != [] && results != [] && OutPoint(Digest(hold), 0) in Pool(history))
    && (Done(d).Some? ==> Done(d).value !in history)
  }

  ghost predicate OwnsUnlocked(history: seq<Tx>, a: Address, pool: seq<Utxo>) {
    Selectable(a, pool) && forall u :: u in pool && !u.locked ==> u.at in OwnedBy(a, Pool(history))
  }

  /** The guard against 64-bit overflow, on the inputs of a deed: the covering
      prefix of the eligible coins, or the split of the escrow, fits. */
  ghost predicate Exact(d: Deed) {
    match d
    case MintDeed(_, _, _, _) => true
    case TransferDeed(_, pool, amount, _, token) => Sum(Cover(EligibleCoins(pool, token), amount)) < U64
    case HoldDeed(_, pool, amount, _, _, _) => Sum(Cover(EligibleCoins(pool, FromBytes([0])), amount)) < U64
    case PayDeed(_, hold, results) =>
      hold.EscrowHold? && results != [] ==> PayoutFits(hold.amount, hold.cut, |results|)
  }

  ghost function Append(history: seq<Tx>, d: Deed): seq<Tx>
    requires Possible(history, d)
  {
    if Done(d).None? then history else history + [Done(d).value]
  }

  ghost predicate AllPossible(history: seq<Tx>, deeds: seq<Deed>)
    decreases |deeds|
  {
    deeds == [] || (Possible(history, deeds[0]) && AllPossible(Append(history, deeds[0]), deeds[1..]))
  }

  ghost function History(history: seq<Tx>, deeds: seq<Deed>): seq<Tx>
    requires AllPossible(history, deeds)
    decreases |deeds|
  {
    if deeds == [] then history else History(Append(history, deeds[0]), deeds[1..])
  }

  lemma {:induction false} PeersSum(outputs: seq<Output>, share: u64)
    requires forall i :: 0 <= i < |outputs| ==> outputs[i].amount == share
    ensures SumOutputs(outputs) == |outputs| * share
  {
    if outputs != [] {
      PeersSum(outputs[1..], share);
      assert |outputs| * share == share + (|outputs| - 1) * share;
    }
  }

  /** What a payout takes in and puts out. */
  lemma PayoutSum(dag: Dag, hold: Tx, results: seq<TaskResult>, tx: Tx) returns (coin: Utxo)
    requires hold.EscrowHold? && hold.outputs != [] && hold.outputs[0].amount == hold.amount && results != []
    requires Done(PayDeed(dag, hold, results)) == Some(tx)
    ensures coin == Utxo(OutPoint(Digest(hold), 0), hold.amount, false, hold.outputs[0].token)
    ensures tx.Transfer? && tx.inputs == Points([coin]) && Sum([coin]) == hold.amount
    ensures SumOutputs(tx.outputs) == hold.amount <==> PayoutFits(hold.amount, hold.cut, |results|)
  {
    hide PayoutFits, DevShare;
    var n := |results|;
    PayoutConservesIff(hold.amount, hold.cut, n);
    var share := PeerShare(hold.amount, hold.cut, n).value;
    coin := Utxo(OutPoint(Digest(hold), 0), hold.amount, false, hold.outputs[0].token);
    var paid := Payouts(hold, results, share);
    assert tx.outputs == paid;
    assert paid[..n] + [paid[n]] == paid;
    PeersSum(paid[..n], share);
    SumOutputsConcat(paid[..n], [paid[n]]);
    assert SumOutputs([paid[n]]) == paid[n].amount;
    assert Points([coin]) == [coin.at];
  }

  /** An escrow payout puts out what the hold put in if and only if the split fits. */
  lemma PayBalancedIff(dag: Dag, hold: Tx, results: seq<TaskResult>, tx: Tx)
    requires hold.EscrowHold? && hold.outputs != [] && hold.outputs[0].amount == hold.amount && results != []
    requires Done(PayDeed(dag, hold, results)) == Some(tx)
    ensures Balanced(tx, Face()) <==> PayoutFits(hold.amount, hold.cut, |results|)
  {
    hide PayoutFits, Balanced, Done;
    var coin := PayoutSum(dag, hold, results, tx);
    FaceValueBalancedIff(tx, [coin], Face());
  }

  lemma {:induction false} OneOutputWeighs(tx: Tx, n: nat, f: OutPoint -> nat, i: nat)
    requires i < n
    ensures OutWeight(tx, n, f) >= f(OutPoint(Digest(tx), i))
  {
    if i < n - 1 {
      OneOutputWeighs(tx, n - 1, f, i);
    }
  }

  /** Every peer is paid in the escrow's own token class, or nothing. */
  predicate PaidInKind(hold: Tx, results: seq<TaskResult>, share: u64)
    requires hold.EscrowHold? && hold.outputs != []
  {
    share == 0 ||
    forall i :: 0 <= i < |results| ==> Class(FromBytes(results[i].token)) == Class(hold.outputs[0].token)
  }

  /** A payout conserves every token class if and only if the split fits and every
      peer is paid in kind; a peer that names another token is paid in it out of
      the same escrow. */
  lemma PayConservesClassesIff(dag: Dag, hold: Tx, results: seq<TaskResult>, tx: Tx)
    requires hold.EscrowHold? && hold.outputs != [] && hold.outputs[0].amount == hold.amount && results != []
    requires Done(PayDeed(dag, hold, results)) == Some(tx)
    ensures (forall c: nat :: Balanced(tx, ClassFace(c))) <==>
            PayoutFits(hold.amount, hold.cut, |results|) &&
            PaidInKind(hold, results, PeerShare(hold.amount, hold.cut, |results|).value)
  {
    hide PayoutFits, PeerShare;
    var share := PeerShare(hold.amount, hold.cut, |results|).value;
    if PaidInKind(hold, results, share) {
      forall c: nat
        ensures Balanced(tx, ClassFace(c)) <==>
                Class(hold.outputs[0].token) != c || PayoutFits(hold.amount, hold.cut, |results|)
      {
        PayInKindBalancedIff(dag, hold, results, tx, c);
      }
      var own := Class(hold.outputs[0].token);
      assert Balanced(tx, ClassFace(own)) <==> PayoutFits(hold.amount, hold.cut, |results|);
    } else {
      var i :| 0 <= i < |results| && Class(FromBytes(results[i].token)) != Class(hold.outputs[0].token);
      var c := Class(FromBytes(results[i].token));
      assert tx.outputs[i] == Output(share, results[i].node, FromBytes(results[i].token));
      WeightlessSet(SetOf(Inputs(tx)), ClassFace(c));
      OneOutputWeighs(tx, OutputCount(tx), ClassFace(c), i);
      assert !Balanced(tx, ClassFace(c));
    }
  }

  lemma PayInKindBalancedIff(dag: Dag, hold: Tx, results: seq<TaskResult>, tx: Tx, c: nat)
    requires hold.EscrowHold? && hold.outputs != [] && hold.outputs[0].amount == hold.amount && results != []
    requires Done(PayDeed(dag, hold, results)) == Some(tx)
    requires PaidInKind(hold, results, PeerShare(hold.amount, hold.cut, |results|).value)
    ensures Balanced(tx, ClassFace(c)) <==>
            Class(hold.outputs[0].token) != c || PayoutFits(hold.amount, hold.cut, |results|)
  {
    hide PayoutFits, PeerShare, Balanced;
    var share := PeerShare(hold.amount, hold.cut, |results|).value;
    forall i | 0 <= i < |tx.outputs|
      ensures tx.outputs[i].amount == 0 || Class(tx.outputs[i].token) == Class(hold.outputs[0].token)
    {
      if i < |results| {
        assert tx.outputs[i] == Output(share, results[i].node, FromBytes(results[i].token));
      }
    }
    if Class(hold.outputs[0].token) == c {
      var coin := PayoutSum(dag, hold, results, tx);
      FaceValueBalancedIff(tx, [coin], ClassFace(c));
    } else {
      WeightlessBalanced(tx, ClassFace(c));
    }
  }

  /** A peer that asks for another token is paid in it, so that class grows. */
  lemma PaidInAnotherToken(dag: Dag, hold: Tx, peer: TaskResult)
    requires hold.EscrowHold? && hold.outputs != [] && hold.outputs[0].amount == hold.amount > 0
    requires hold.cut == MINIONS && Class(FromBytes(peer.token)) != Class(hold.outputs[0].token)
    ensures Done(PayDeed(dag, hold, [peer])).Some?
    ensures exists c: nat :: !Balanced(Done(PayDeed(dag, hold, [peer])).value, ClassFace(c))
  {
    hide Balanced, Class, Quotient;
    PayoutSplit(hold.amount, hold.cut, 1);
    DivUnique(hold.amount * MINIONS, MINIONS, hold.amount);
    var share := PeerShare(hold.amount, hold.cut, 1).value;
    assert share == hold.amount;
    assert [peer][0] == peer && !PaidInKind(hold, [peer], share);
    PayConservesClassesIff(dag, hold, [peer], Done(PayDeed(dag, hold, [peer])).value);
  }

  /** A payout in kind; other deeds stay within one class anyway. */
  predicate InKind(d: Deed) {
    d.PayDeed? && d.hold.EscrowHold? && d.hold.outputs != [] && d.results != [] ==>
      var share := PeerShare(d.hold.amount, d.hold.cut, |d.results|);
      share.Ok? ==> PaidInKind(d.hold, d.results, share.value)
  }

  ghost predicate Conserved(history: seq<Tx>) {
    LegitHistory(history) && Weight(Pool(history), Face()) == MintedTotal(history, Face())
  }

  ghost predicate ClassConserved(history: seq<Tx>, c: nat) {
    Weight(Pool(history), ClassFace(c)) == MintedTotal(history, ClassFace(c))
  }

  lemma AppendLegit(history: seq<Tx>, tx: Tx)
    requires LegitHistory(history) && Legit(history, tx)
    ensures LegitHistory(history + [tx])
  {
    var after := history + [tx];
    assert after[..|after| - 1] == history;
  }

  lemma MintBalanced(tx: Tx, f: OutPoint -> nat)
    requires tx.Mint?
    ensures Balanced(tx, f)
  {
    assert SetOf(Inputs(tx)) == {};
    assert OutWeight(tx, 1, f) == OutWeight(tx, 0, f) + f(OutPoint(Digest(tx), 0));
  }

  lemma BuiltLegit(history: seq<Tx>, tx: Tx, pool: seq<Utxo>, amount: u64, dest: Address, token: TokenId)
    requires OwnsUnlocked(history, tx.dag.source, pool) && tx !in history
    requires BuiltFrom(tx, tx.dag.source, pool, amount, dest, token)
    requires tx.EscrowHold? ==> tx.amount == amount
    ensures Legit(history, tx)
  {
    hide SelectOne, Cover, EligibleCoins, Class;
    var chosen := BuiltParts(tx, tx.dag.source, pool, amount, dest, token);
    forall o | o in Inputs(tx)
      ensures o in Pool(history) && Credits(tx.dag.source, o.txid.of, o.index)
    {
      var k :| 0 <= k < |chosen| && Points(chosen)[k] == o;
      assert chosen[k] in chosen;
    }
  }

  lemma PayLegit(history: seq<Tx>, d: Deed)
    requires LegitHistory(history) && Possible(history, d) && d.PayDeed? && Done(d).Some?
    ensures Legit(history, Done(d).value) && d.hold.outputs[0].amount == d.hold.amount
  {
    PoolFromHistory(history, OutPoint(Digest(d.hold), 0));
    LegitMember(history, d.hold);
  }

  lemma DeedLegit(history: seq<Tx>, d: Deed)
    requires LegitHistory(history) && Possible(history, d) && Done(d).Some?
    ensures Legit(history, Done(d).value)
  {
    var tx := Done(d).value;
    match d
    case MintDeed(_, _, _, _) =>
    case TransferDeed(_, pool, amount, dest, token) => BuiltLegit(history, tx, pool, amount, dest, token);
    case HoldDeed(_, pool, amount, escrow, _, _) => BuiltLegit(history, tx, pool, amount, escrow, FromBytes([0]));
    case PayDeed(_, _, _) => PayLegit(history, d);
  }

  /** A deed's transaction is balanced if and only if its numbers fit, and in every
      class if it also pays in kind. */
  lemma DeedBalancedIff(history: seq<Tx>, d: Deed, c: nat)
    requires LegitHistory(history) && Possible(history, d) && Done(d).Some?
    ensures Balanced(Done(d).value, Face()) <==> Exact(d)
    ensures Exact(d) && InKind(d) ==> Balanced(Done(d).value, ClassFace(c))
  {
    hide Balanced, PayoutFits, PeerShare, SelectOne, Cover, EligibleCoins;
    var tx := Done(d).value;
    match d
    case MintDeed(_, _, _, _) =>
      MintBalanced(tx, Face());
      MintBalanced(tx, ClassFace(c));
    case TransferDeed(dag, pool, amount, dest, token) =>
      BuiltBalancedIff(tx, dag.source, pool, amount, dest, token, c);
    case HoldDeed(dag, pool, amount, escrow, _, _) =>
      BuiltBalancedIff(tx, dag.source, pool, amount, escrow, FromBytes([0]), c);
    case PayDeed(dag, hold, results) =>
      PayLegit(history, d);
      PayBalancedIff(dag, hold, results, tx);
      if InKind(d) {
        PayInKindBalancedIff(dag, hold, results, tx, c);
      }
  }

  /** One deed keeps the supply equal to what was minted if and only if its numbers
      fit in 64 bits; it keeps every token class if it also pays in kind. */
  lemma DeedConservesIff(history: seq<Tx>, d: Deed, c: nat)
    requires Conserved(history) && Possible(history, d)
    ensures Done(d).Some? ==> (Conserved(Append(history, d)) <==> Exact(d))
    ensures Exact(d) || Done(d).None? ==> Conserved(Append(history, d))
    ensures ClassConserved(history, c) && Exact(d) && InKind(d) ==> ClassConserved(Append(history, d), c)
  {
    hide Exact, InKind, Done, Balanced, Legit, OwnsUnlocked;
    if Done(d).Some? {
      var tx := Done(d).value;
      DeedLegit(history, d);
      DeedBalancedIff(history, d, c);
      AppendLegit(history, tx);
      StepConservesIff(history, tx, Face());
      if ClassConserved(history, c) {
        StepConservesIff(history, tx, ClassFace(c));
      }
    }
  }

  /** Supply conservation: after any sequence of mints, transfers, holds and
      payouts whose numbers fit in 64 bits, the unspent outputs of all accounts
      and open escrows are worth exactly what was minted; if every payout is in
      kind, so is every token class. */
  lemma {:induction false} SupplyConserved(history: seq<Tx>, deeds: seq<Deed>, c: nat)
    requires Conserved(history) && AllPossible(history, deeds) && forall d :: d in deeds ==> Exact(d)
    ensures Conserved(History(history, deeds))
    ensures ClassConserved(history, c) && (forall d :: d in deeds ==> InKind(d)) ==>
            ClassConserved(History(history, deeds), c)
    decreases |deeds|
  {
    hide Conserved, ClassConserved, Exact, InKind, Possible, Append;
    if deeds != [] {
      DeedConservesIff(history, deeds[0], c);
      SupplyConserved(Append(history, deeds[0]), deeds[1..], c);
    }
  }

  lemma EmptyConserved(c: nat)
    ensures Conserved([]) && ClassConserved([], c)
  {
  }

  /** After a transfer or hold was built, the doer's locked list still qualifies
      for the next deed, before the first one is sent or parsed. */
  lemma QueueQualifies(history: seq<Tx>, a: Address, pool: seq<Utxo>, tx: Tx)
    requires OwnsUnlocked(history, a, pool)
    ensures OwnsUnlocked(history + [tx], a, Lock(pool, Inputs(tx)))
  {
    hide Genuine, Credits;
    var after, locked := history + [tx], Lock(pool, Inputs(tx));
    assert after[..|after| - 1] == history;
    forall u | u in locked && !u.locked
      ensures Genuine(a, u) && u.at in OwnedBy(a, Pool(after))
    {
      var i :| 0 <= i < |locked| && locked[i] == u;
      assert pool[i] in pool && u == pool[i] && !SharesHash(u, Inputs(tx));
      assert u.at !in Inputs(tx);
    }
  }

  /** Parsing a transaction keeps the list qualified, when each output it credits is
      unspent or held already. */
  lemma ParseQualifies(history: seq<Tx>, a: Address, pool: seq<Utxo>, tx: Tx)
    requires OwnsUnlocked(history, a, pool)
    requires forall o :: o in Created(a, tx) ==> o in Pool(history) || o in Keys(pool)
    ensures OwnsUnlocked(history, a, Apply(a, pool, tx))
  {
    var n := OutputCount(tx);
    var credited := Credit(a, pool, tx, n);
    CreditFacts(a, pool, tx, n);
    RefreshDistinct(credited, Spends(a, tx));
    assert CreatedUpTo(a, tx, n) == Created(a, tx);
    forall u | u in Apply(a, pool, tx) && !u.locked
      ensures Genuine(a, u) && u.at in OwnedBy(a, Pool(history))
    {
      RefreshMembers(credited, Spends(a, tx), u);
      if u !in pool {
        NewCoinIsNew(a, pool, tx, n, u);
        assert u.at in Keys(credited);
      }
    }
  }

  /** A coin that parsing adds was not there under another lock. */
  lemma {:induction false} NewCoinIsNew(a: Address, pool: seq<Utxo>, tx: Tx, n: nat, u: Utxo)
    requires n <= OutputCount(tx) && u in Credit(a, pool, tx, n) && u !in pool
    ensures u.at !in Keys(pool) && u.at in Created(a, tx)
  {
    var before := Credit(a, pool, tx, n - 1);
    CreditFacts(a, pool, tx, n - 1);
    if u in before {
      NewCoinIsNew(a, pool, tx, n - 1, u);
    }
  }

  // ------------------------------------------------ account by account

  /** What some accounts hold together. */
  ghost function HoldingsOf(accounts: set<Address>, history: seq<Tx>): nat {
    if accounts == {} then 0
    else
      var a :| a in accounts;
      Sum(After(a, history)) + HoldingsOf(accounts - {a}, history)
  }

  ghost function OwnedByAny(accounts: set<Address>, pool: set<OutPoint>): set<OutPoint> {
    set o | o in pool && exists a :: a in accounts && Credits(a, o.txid.of, o.index)
  }

  function OpenEscrows(pool: set<OutPoint>): set<OutPoint> { set o | o in pool && IsEscrow(o) }

  /** Every output that is no open escrow is paid to one of the accounts. */
  ghost predicate Covers(accounts: set<Address>, pool: set<OutPoint>) {
    forall o :: o in pool && !IsEscrow(o) ==> exists a :: a in accounts && Credits(a, o.txid.of, o.index)
  }

  lemma AccountWeighs(history: seq<Tx>, a: Address)
    requires LegitHistory(history)
    ensures Sum(After(a, history)) == Weight(OwnedBy(a, Pool(history)), Face())
  {
    var coins := After(a, history);
    AfterSound(a, history);
    AccountsShareThePool(history, a);
    forall u | u in coins
      ensures Face()(u.at) == u.amount
    {
      assert Genuine(a, u);
    }
    assert SetOf(Points(coins)) == Keys(coins) by {
      assert forall i :: 0 <= i < |coins| ==> Points(coins)[i] == coins[i].at && coins[i] in coins;
    }
    InputsWeigh(coins, Face());
  }

  lemma {:induction false} HoldingsWeigh(accounts: set<Address>, history: seq<Tx>)
    requires LegitHistory(history)
    ensures HoldingsOf(accounts, history) == Weight(OwnedByAny(accounts, Pool(history)), Face())
    decreases |accounts|
  {
    hide Weight, After, Sum, Pool, LegitHistory, Credits;
    var pool := Pool(history);
    if accounts == {} {
      assert OwnedByAny(accounts, pool) == {};
      WeightlessSet({}, Face());
    } else {
      var a :| a in accounts && HoldingsOf(accounts, history) == Sum(After(a, history)) + HoldingsOf(accounts - {a}, history);
      AccountWeighs(history, a);
      HoldingsWeigh(accounts - {a}, history);
      OwnersDisjoint(accounts, a, pool);
      WeightUnion(OwnedBy(a, pool), OwnedByAny(accounts - {a}, pool), Face());
    }
  }

  lemma OwnersDisjoint(accounts: set<Address>, a: Address, pool: set<OutPoint>)
    requires a in accounts
    ensures OwnedBy(a, pool) !! OwnedByAny(accounts - {a}, pool)
    ensures OwnedByAny(accounts, pool) == OwnedBy(a, pool) + OwnedByAny(accounts - {a}, pool)
  {
    forall o, b | o in OwnedBy(a, pool) && Credits(b, o.txid.of, o.index)
      ensures b == a
    {
      CreditsUnique(a, b, o.txid.of, o.index);
    }
    hide Credits;
    forall o | o in OwnedByAny(accounts, pool)
      ensures o in OwnedBy(a, pool) || o in OwnedByAny(accounts - {a}, pool)
    {
      var b :| b in accounts && Credits(b, o.txid.of, o.index);
      assert b != a ==> b in accounts - {a};
    }
  }

  /** The accounts' holdings and the open escrows add up to what was minted. */
  lemma AccountsAddUp(history: seq<Tx>, accounts: set<Address>)
    requires Conserved(history) && Covers(accounts, Pool(history))
    ensures HoldingsOf(accounts, history) + Weight(OpenEscrows(Pool(history)), Face()) == MintedTotal(history, Face())
  {
    hide Weight, MintedTotal, HoldingsOf;
    var pool := Pool(history);
    HoldingsWeigh(accounts, history);
    assert pool == OwnedByAny(accounts, pool) + OpenEscrows(pool);
    WeightUnion(OwnedByAny(accounts, pool), OpenEscrows(pool), Face());
  }
}
