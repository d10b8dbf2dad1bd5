/** Transactions, the outputs they create and the coins an account holds.

    The data hash of a transaction (blake2b over its serialised content) is
    modelled as an injective constructor: `Digest(tx)` identifies `tx`. */
module Transactions {
  import opened Machine
  import opened Tokens

  type Address = string

  /** `SGTransaction::DAGStruct`, without hash and signature. */
  datatype Dag = Dag(nonce: nat, source: Address, timestamp: int, previous: string)

  /** `OutputDestInfo`. */
  datatype Output = Output(amount: u64, dest: Address, token: TokenId)

  datatype TxId = Digest(of: Tx)

  /** `InputUTXOInfo`: an output, named by the hash of its transaction and its index. */
  datatype OutPoint = OutPoint(txid: TxId, index: nat)

  datatype Tx =
    | Transfer(dag: Dag, inputs: seq<OutPoint>, outputs: seq<Output>)
    | Mint(dag: Dag, chain: string, amount: u64, token: TokenId)
    | EscrowHold(dag: Dag, inputs: seq<OutPoint>, outputs: seq<Output>,
                 amount: u64, dev: Address, cut: u64)
    | EscrowRelease(dag: Dag, amount: u64, dev: Address, escrowSource: Address, original: TxId)
    | Processing(dag: Dag, job: string)

  /** `GeniusUTXO`. */
  datatype Utxo = Utxo(at: OutPoint, amount: u64, locked: bool, token: TokenId)

  datatype Coin = Coin(amount: u64, token: TokenId)

  /** The database key of a transaction: `/bc-963/<address>/tx/<kind>/<nonce>`. */
  datatype Path = Path(address: Address, kind: string, nonce: nat)

  function Kind(tx: Tx): string {
    match tx
    case Transfer(_, _, _) => "transfer"
    case Mint(_, _, _, _) => "mint"
    case EscrowHold(_, _, _, _, _, _) => "escrow-hold"
    case EscrowRelease(_, _, _, _, _) => "escrow-release"
    case Processing(_, job) => "processing/" + job
  }

  function PathOf(tx: Tx): Path {
    Path(tx.dag.source, Kind(tx), tx.dag.nonce)
  }

  /** A parser is registered for every kind but the processing transaction. */
  predicate Parsable(tx: Tx) { !tx.Processing? }

  // ------------------------------------------------ outputs and what spends them

  function OutputCount(tx: Tx): nat {
    match tx
    case Transfer(_, _, outputs) => |outputs|
    case Mint(_, _, _, _) => 1
    case EscrowHold(_, _, outputs, _, _, _) => |outputs|
    case _ => 0
  }

  function CoinAt(tx: Tx, i: nat): Coin
    requires i < OutputCount(tx)
  {
    match tx
    case Transfer(_, _, outputs) => Coin(outputs[i].amount, outputs[i].token)
    case EscrowHold(_, _, outputs, _, _, _) => Coin(outputs[i].amount, outputs[i].token)
    case Mint(_, _, amount, token) => Coin(amount, token)
  }

  /** Whether parsing `tx` credits output `i` to the account `me`. */
  predicate Credits(me: Address, tx: Tx, i: nat) {
    i < OutputCount(tx) &&
    match tx
    case Transfer(_, _, outputs) => outputs[i].dest == me
    case Mint(dag, _, _, _) => dag.source == me
    case EscrowHold(dag, _, outputs, _, _, _) => i == 1 && dag.source == me && outputs[1].dest == me
    case _ => false
  }

  /** The outputs that parsing `tx` credits to `me`. */
  function Created(me: Address, tx: Tx): set<OutPoint> {
    set i: nat | i < OutputCount(tx) && Credits(me, tx, i) :: OutPoint(Digest(tx), i)
  }

  /** The outputs that parsing `tx` removes from the account `me`. */
  function Spends(me: Address, tx: Tx): seq<OutPoint> {
    match tx
    case Transfer(_, inputs, _) => inputs
    case EscrowHold(dag, inputs, outputs, _, _, _) =>
      if dag.source == me && outputs != [] then inputs else []
    case _ => []
  }

  /** The unlocked coin that output `i` of `tx` becomes. */
  function Minted(tx: Tx, i: nat): Utxo
    requires i < OutputCount(tx)
  {
    var coin := CoinAt(tx, i);
    Utxo(OutPoint(Digest(tx), i), coin.amount, false, coin.token)
  }

  // ------------------------------------------------ coin lists

  function Keys(coins: seq<Utxo>): set<OutPoint> {
    set u | u in coins :: u.at
  }

  predicate Distinct(coins: seq<Utxo>) {
    forall i, j :: 0 <= i < j < |coins| ==> coins[i].at != coins[j].at
  }

  function Points(coins: seq<Utxo>): (points: seq<OutPoint>)
    ensures |points| == |coins|
    ensures forall i :: 0 <= i < |coins| ==> points[i] == coins[i].at
  {
    seq(|coins|, i requires 0 <= i < |coins| => coins[i].at)
  }

  function Sum(coins: seq<Utxo>): nat {
    if coins == [] then 0 else coins[0].amount + Sum(coins[1..])
  }

  function SumOutputs(outputs: seq<Output>): nat {
    if outputs == [] then 0 else outputs[0].amount + SumOutputs(outputs[1..])
  }

  lemma {:induction false} SumConcat(a: seq<Utxo>, b: seq<Utxo>)
    ensures Sum(a + b) == Sum(a) + Sum(b)
  {
    if a == [] {
      assert a + b == b;
    } else {
      assert (a + b)[1..] == a[1..] + b;
      SumConcat(a[1..], b);
    }
  }

  lemma {:induction false} SumOutputsConcat(a: seq<Output>, b: seq<Output>)
    ensures SumOutputs(a + b) == SumOutputs(a) + SumOutputs(b)
  {
    if a == [] {
      assert a + b == b;
    } else {
      assert (a + b)[1..] == a[1..] + b;
      SumOutputsConcat(a[1..], b);
    }
  }
}
