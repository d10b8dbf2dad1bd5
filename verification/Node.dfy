/** A node's transaction manager as a state machine: building transfers, mints,
    escrow holds and payouts, sending them, and parsing what the database holds.
    Each method of the manager is one atomic step. */
module Node {
  import opened Machine
  import opened Tokens
  import opened Transactions
  import opened CoinSelection
  import opened Replay
  import opened TokenAmount

  /** A value in the database: readable ones deserialise to a transaction. */
  datatype Stored = Unreadable | Readable(tx: Tx)

  type Database = map<Path, Stored>

  /** The manager's fields, the account's coins and nonce, the database, and
      three histories: the transactions parsed so far (`log`), the transfers and
      escrow holds built from the account's coins (`spends`) and every
      transaction built (`issued`). */
  datatype State = State(
    me: Address,
    utxos: seq<Utxo>,
    nonce: nat,
    queue: seq<seq<Tx>>,
    outgoing: map<Path, Tx>,
    incoming: map<Path, Tx>,
    db: Database,
    log: seq<Tx>,
    spends: seq<Tx>,
    issued: seq<Tx>)

  function Init(me: Address, db: Database): State {
    State(me, [], 0, [], map[], map[], db, [], [], [])
  }

  // ------------------------------------------------ building transactions

  function Issue(s: State, batch: seq<Tx>): State {
    s.(nonce := s.nonce + |batch|, queue := s.queue + [batch], issued := s.issued + batch)
  }

  function NextDag(s: State, ahead: nat, time: int, previous: string): Dag {
    Dag(s.nonce + ahead, s.me, time, previous)
  }

  /** `TransferFunds`. */
  function TransferFunds(s: State, amount: u64, dest: Address, token: TokenId, time: int): State {
    var params := SelectOne(s.utxos, s.me, amount, dest, token);
    if params.None? then s
    else
      var tx := Transfer(NextDag(s, 1, time, ""), params.value.inputs, params.value.outputs);
      Issue(s.(utxos := Lock(s.utxos, params.value.inputs), spends := s.spends + [tx]), [tx])
  }

  /** `MintFunds`. */
  function MintFunds(s: State, amount: u64, previous: string, chain: string, token: TokenId, time: int): State {
    Issue(s, [Mint(NextDag(s, 1, time, previous), chain, amount, token)])
  }

  /** `HoldEscrow`; `escrow` is the address derived from the job identifier. */
  function HoldEscrow(s: State, amount: u64, escrow: Address, dev: Address, cut: u64, time: int): State {
    var params := SelectOne(s.utxos, s.me, amount, escrow, FromBytes([0]));
    if params.None? then s
    else
      var tx := EscrowHold(NextDag(s, 1, time, ""), params.value.inputs, params.value.outputs, amount, dev, cut);
      Issue(s.(utxos := Lock(s.utxos, params.value.inputs), spends := s.spends + [tx]), [tx])
  }

  /** A subtask result: who computed it and the bytes of the token it is paid in. */
  datatype TaskResult = TaskResult(node: Address, token: seq<Byte>)

  /** The outputs of an escrow payout: one per result, then the developer. */
  function Payouts(hold: Tx, results: seq<TaskResult>, share: u64): seq<Output>
    requires hold.EscrowHold? && hold.outputs != []
  {
    seq(|results|, i requires 0 <= i < |results| => Output(share, results[i].node, FromBytes(results[i].token)))
    + [Output(DevShare(hold.amount, share, |results|), hold.dev, hold.outputs[0].token)]
  }

  /** `PayEscrow`; `fetched` is the hold found under the escrow path, if any. */
  function PayEscrow(s: State, fetched: Option<Tx>, results: seq<TaskResult>, time: int): State
    requires fetched.Some? ==> fetched.value.EscrowHold? && fetched.value.outputs != []
  {
    if results == [] || fetched.None? then s
    else
      var hold := fetched.value;
      var share := PeerShare(hold.amount, hold.cut, |results|);
      if share.Err? then s
      else
        var pay := Transfer(NextDag(s, 1, time, ""), [OutPoint(Digest(hold), 0)],
                            Payouts(hold, results, share.value));
        var release := EscrowRelease(NextDag(s, 2, time, ""), hold.amount, hold.dev, hold.dag.source, Digest(hold));
        Issue(s, [pay, release])
  }

  // ------------------------------------------------ parsing and sending

  function Parse(s: State, tx: Tx): State {
    s.(utxos := Apply(s.me, s.utxos, tx), log := s.log + [tx])
  }

  function ParseOutgoing(s: State, tx: Tx): State {
    Parse(s, tx).(outgoing := s.outgoing[PathOf(tx) := tx])
  }

  /** The batch parsed up to the first transaction without a parser. */
  function ParseBatch(s: State, batch: seq<Tx>): State
    decreases |batch|
  {
    if batch == [] || !Parsable(batch[0]) then s else ParseBatch(ParseOutgoing(s, batch[0]), batch[1..])
  }

  function Written(db: Database, batch: seq<Tx>): Database
    decreases |batch|
  {
    if batch == [] then db else Written(db[PathOf(batch[0]) := Readable(batch[0])], batch[1..])
  }

  /** How the database answers a send: the transaction object may already be
      committed (nothing is recorded), or the final commit may fail after the
      account has been updated. */
  datatype Fate = Committed | PutRefused | CommitFailed

  /** `SendTransaction`; a parse error returns before the commit. */
  function Send(s: State, fate: Fate): State {
    if s.queue == [] then s
    else
      var batch := s.queue[0];
      var popped := s.(queue := s.queue[1..]);
      match fate
      case PutRefused => popped
      case CommitFailed => ParseBatch(popped, batch)
      case Committed =>
        if forall t :: t in batch ==> Parsable(t) then ParseBatch(popped.(db := Written(s.db, batch)), batch)
        else ParseBatch(popped, batch)
  }

  predicate Fetchable(db: Database, p: Path) {
    p in db && db[p].Readable? && Parsable(db[p].tx)
  }

  /** One key of `CheckIncoming`. */
  function CheckInOne(s: State, p: Path): State {
    if p in s.incoming || !Fetchable(s.db, p) then s
    else Parse(s, s.db[p].tx).(incoming := s.incoming[p := s.db[p].tx])
  }

  /** One key of `CheckOutgoing`. */
  function CheckOutOne(s: State, p: Path): State {
    if p in s.outgoing || !Fetchable(s.db, p) then s
    else
      var tx := s.db[p].tx;
      Parse(s, tx).(outgoing := s.outgoing[p := tx], nonce := if s.nonce < tx.dag.nonce then tx.dag.nonce else s.nonce)
  }

  function CheckIncoming(s: State, keys: seq<Path>): State
    decreases |keys|
  {
    if keys == [] then s else CheckIncoming(CheckInOne(s, keys[0]), keys[1..])
  }

  function CheckOutgoing(s: State, keys: seq<Path>): State
    decreases |keys|
  {
    if keys == [] then s else CheckOutgoing(CheckOutOne(s, keys[0]), keys[1..])
  }

  // ------------------------------------------------ runs

  datatype Action =
    | DoTransfer(amount: u64, dest: Address, token: TokenId, time: int)
    | DoMint(amount: u64, previous: string, chain: string, token: TokenId, time: int)
    | DoHold(amount: u64, escrow: Address, dev: Address, cut: u64, time: int)
    | DoPay(fetched: Option<Tx>, results: seq<TaskResult>, time: int)
    | DoSend(fate: Fate)
    | DoCheckIncoming(keys: seq<Path>)
    | DoCheckOutgoing(keys: seq<Path>)
    | Replicate(path: Path, value: Stored)

  /** A query returns exactly the keys of its address range, each once, in any order. */
  ghost predicate Enumerates(keys: seq<Path>, db: Database, me: Address, mine: bool) {
    && (forall p :: p in keys <==> p in db && ((p.address == me) <==> mine))
    && (forall i, j :: 0 <= i < j < |keys| ==> keys[i] != keys[j])
  }

  /** All transactions waiting to be sent. */
  function Flat(queue: seq<seq<Tx>>): seq<Tx> {
    if queue == [] then [] else queue[0] + Flat(queue[1..])
  }

  ghost predicate Stores(db: Database, t: Tx) {
    exists p :: p in db && db[p] == Readable(t)
  }

  /** What a payout asks of its escrow path. */
  predicate Shaped(a: Action) {
    a.DoPay? && a.fetched.Some? ==> a.fetched.value.EscrowHold? && a.fetched.value.outputs != []
  }

  ghost function Step(s: State, a: Action): State
    requires Shaped(a)
  {
    match a
    case DoTransfer(amount, dest, token, time) => TransferFunds(s, amount, dest, token, time)
    case DoMint(amount, previous, chain, token, time) => MintFunds(s, amount, previous, chain, token, time)
    case DoHold(amount, escrow, dev, cut, time) => HoldEscrow(s, amount, escrow, dev, cut, time)
    case DoPay(fetched, results, time) => PayEscrow(s, fetched, results, time)
    case DoSend(fate) => Send(s, fate)
    case DoCheckIncoming(keys) => CheckIncoming(s, keys)
    case DoCheckOutgoing(keys) => CheckOutgoing(s, keys)
    case Replicate(path, value) => s.(db := s.db[path := value])
  }

  /** What was built in a step is not in the database yet: only the holder of the
      key can have signed it. */
  ghost predicate Unseen(s: State, s': State) {
    forall t :: t in s'.issued && t !in s.issued ==> !Stores(s.db, t)
  }

  /** What the environment may do: queries answer truthfully, and any node may
      write any value under any key, own keys included, except a transaction that
      is still queued here and so has not left this node. */
  ghost predicate Enabled(s: State, a: Action) {
    Shaped(a) &&
    match a
    case DoSend(_) => true
    case DoCheckIncoming(keys) => Enumerates(keys, s.db, s.me, false)
    case DoCheckOutgoing(keys) => Enumerates(keys, s.db, s.me, true)
    case Replicate(_, value) => value.Readable? ==> value.tx !in Flat(s.queue)
    case _ => Unseen(s, Step(s, a))
  }

  /** The guard that the element filter does not have: a transaction is stored
      under its own path. */
  ghost predicate Filed(db: Database) {
    forall p :: p in db && db[p].Readable? ==> PathOf(db[p].tx) == p
  }

  ghost predicate Guarded(actions: seq<Action>) {
    forall a :: a in actions && a.Replicate? && a.value.Readable? ==> PathOf(a.value.tx) == a.path
  }

  ghost predicate Runs(s: State, actions: seq<Action>)
    decreases |actions|
  {
    actions == [] || (Enabled(s, actions[0]) && Runs(Step(s, actions[0]), actions[1..]))
  }

  ghost function Run(s: State, actions: seq<Action>): State
    requires Runs(s, actions)
    decreases |actions|
  {
    if actions == [] then s else Run(Step(s, actions[0]), actions[1..])
  }

  /** `Start`: check incoming, then outgoing, before anything else. */
  function Start(me: Address, db: Database, inKeys: seq<Path>, outKeys: seq<Path>): State {
    CheckOutgoing(CheckIncoming(Init(me, db), inKeys), outKeys)
  }

  /** The states a node can be in: started on any database, then any run. */
  ghost predicate Started(me: Address, db: Database, inKeys: seq<Path>, outKeys: seq<Path>) {
    Enumerates(inKeys, db, me, false) && Enumerates(outKeys, db, me, true)
  }
}
