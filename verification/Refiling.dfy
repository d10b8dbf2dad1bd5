/** Why the guard of `NodeRuns` is needed: what happens when a transaction that was
    already parsed is stored again under another key. The element filter checks a
    signature and never compares the key with the transaction. */
module Refiling {
  import opened Machine
  import opened Tokens
  import opened Transactions
  import opened CoinSelection
  import opened Replay
  import opened Node
  import opened NodeSafety
  import opened NodeRuns

  lemma AppendTwiceIff(log: seq<Tx>, tx: Tx)
    requires NoneTwice(log)
    ensures NoneTwice(log + [tx]) <==> tx !in log
  {
    if tx in log {
      var i :| 0 <= i < |log| && log[i] == tx;
      assert (log + [tx])[i] == (log + [tx])[|log|];
    }
  }

  /** Exactly when an arbitrary entry under an arbitrary key leads to a second parse:
      the key is not marked in the map of its direction, the kind has a parser, and
      the transaction was parsed before. */
  lemma ParsedTwiceIff(s: State, p: Path, tx: Tx)
    requires Inv(s)
    ensures var stored := s.(db := s.db[p := Readable(tx)]);
            && (NoneTwice(CheckInOne(stored, p).log) <==> p in s.incoming || !Parsable(tx) || tx !in s.log)
            && (NoneTwice(CheckOutOne(stored, p).log) <==> p in s.outgoing || !Parsable(tx) || tx !in s.log)
  {
    hide Apply, NoneTwice;
    AppendTwiceIff(s.log, tx);
  }

  /** Under the guard that never happens: an entry stored under its own path is
      marked once its transaction was parsed. */
  lemma GuardSuffices(s: State, p: Path, tx: Tx)
    requires Inv(s) && PathOf(tx) == p
    ensures if p.address == s.me then p in s.outgoing || tx !in s.log else p in s.incoming || tx !in s.log
  {
    assert tx in s.log ==> Marked(s.me, s.outgoing, s.incoming, tx);
  }

  /** Otherwise every output that the transaction credits to us, that it does not
      spend itself and that is no longer held, comes back unlocked. */
  lemma SecondParseReturns(s: State, p: Path, o: OutPoint)
    requires Base(s) && p !in s.incoming && Fetchable(s.db, p)
    requires var tx := s.db[p].tx;
             o in Created(s.me, tx) && o !in Spends(s.me, tx) && o !in Keys(s.utxos)
    ensures exists u :: u in CheckInOne(s, p).utxos && u.at == o && !u.locked
  {
    var tx, s' := s.db[p].tx, CheckInOne(s, p);
    ApplyFacts(s.me, s.utxos, tx);
    assert o in Keys(s'.utxos);
    KeyHolder(s'.utxos, o);
    var u :| u in s'.utxos && u.at == o;
    ApplyMembers(s.me, s.utxos, tx, u);
  }

  // ------------------------------------------------ a run that spends twice

  datatype Setting = Setting(me: Address, other: Address, amount: u64, token: TokenId)

  predicate Sensible(x: Setting) { x.me != x.other && x.amount > 0 }

  function TheMint(x: Setting): Tx { Mint(Dag(1, x.me, 0, ""), "", x.amount, x.token) }

  function TheCoin(x: Setting): Utxo { Minted(TheMint(x), 0) }

  function ThePay(x: Setting, nonce: nat): Tx {
    Transfer(Dag(nonce, x.me, 0, ""), [TheCoin(x).at], [Output(x.amount, x.other, x.token)])
  }

  function OtherKey(x: Setting): Path { Path(x.other, "mint", 1) }

  function Pay(x: Setting): Action { DoTransfer(x.amount, x.other, x.token, 0) }

  /** Mint, pay all of it away, see the mint again under another address, pay again. */
  function Story(x: Setting): seq<Action> {
    [DoMint(x.amount, "", "", x.token, 0), DoSend(Committed), Pay(x), DoSend(Committed),
     Replicate(OtherKey(x), Readable(TheMint(x))), DoCheckIncoming([OtherKey(x)]), Pay(x)]
  }

  /** A single coin paid away whole. */
  lemma SingleCoin(x: Setting)
    requires Sensible(x)
    ensures SelectOne([TheCoin(x)], x.me, x.amount, x.other, x.token) ==
            Some(Params([TheCoin(x).at], [Output(x.amount, x.other, x.token)]))
  {
    var coin := TheCoin(x);
    assert [coin][1..] == [];
    assert Eligible(coin, x.token) && Wrap(0 + coin.amount) == x.amount;
    var rest := Gather([coin][1..], x.token, x.amount, Wrap(0 + coin.amount));
    assert rest.0 == [] && rest.1 == x.amount;
    assert Gather([coin], x.token, x.amount, 0).0 == [coin] + rest.0 == [coin];
    assert Gather([coin], x.token, x.amount, 0).1 == x.amount;
    SentIsAmount([coin], x.amount, 0);
    assert Points([coin]) == [coin.at];
    assert [Output(x.amount, x.other, x.token)] + Change(0, x.me, x.token) == [Output(x.amount, x.other, x.token)];
  }

  function Locked(u: Utxo): Utxo { u.(locked := true) }

  lemma LockedCoin(x: Setting)
    ensures Lock([TheCoin(x)], [TheCoin(x).at]) == [Locked(TheCoin(x))]
  {
    assert SharesHash(TheCoin(x), [TheCoin(x).at]) by {
      assert [TheCoin(x).at][0].txid == TheCoin(x).at.txid;
    }
  }

  /** What parsing the two transactions does to the coins. */
  lemma Parses(x: Setting, nonce: nat)
    requires Sensible(x)
    ensures Apply(x.me, [], TheMint(x)) == [TheCoin(x)]
    ensures Apply(x.me, [Locked(TheCoin(x))], ThePay(x, nonce)) == []
  {
    var mint, pay, coin := TheMint(x), ThePay(x, nonce), TheCoin(x);
    assert Credit(x.me, [], mint, 1) == Put([], coin) == [coin];
    assert [coin][1..] == [] && [Locked(coin)][1..] == [];
    assert Refresh([coin], []) == [coin] + Refresh([], []);
    assert Credit(x.me, [Locked(coin)], pay, 1) == Credit(x.me, [Locked(coin)], pay, 0) == [Locked(coin)];
    assert coin.at in Spends(x.me, pay);
    assert Refresh([Locked(coin)], [coin.at]) == Refresh([], [coin.at]) == [];
  }

  /** The states of the story; the node starts on an empty database. */
  function Minting(x: Setting): State {
    State(x.me, [], 1, [[TheMint(x)]], map[], map[], map[], [], [], [TheMint(x)])
  }

  function Holding(x: Setting): State {
    var m := TheMint(x);
    State(x.me, [TheCoin(x)], 1, [], map[PathOf(m) := m], map[], map[PathOf(m) := Readable(m)], [m], [], [m])
  }

  function Paying(x: Setting): State {
    var m, pay := TheMint(x), ThePay(x, 2);
    State(x.me, [Locked(TheCoin(x))], 2, [[pay]], map[PathOf(m) := m], map[], map[PathOf(m) := Readable(m)],
          [m], [pay], [m, pay])
  }

  function Paid(x: Setting): State {
    var m, pay := TheMint(x), ThePay(x, 2);
    State(x.me, [], 2, [], map[PathOf(m) := m, PathOf(pay) := pay], map[],
          map[PathOf(m) := Readable(m), PathOf(pay) := Readable(pay)], [m, pay], [pay], [m, pay])
  }

  function Copied(x: Setting): State {
    var s := Paid(x);
    s.(db := s.db[OtherKey(x) := Readable(TheMint(x))])
  }

  function Returned(x: Setting): State {
    var s, m := Copied(x), TheMint(x);
    s.(utxos := [TheCoin(x)], log := s.log + [m], incoming := map[OtherKey(x) := m])
  }

  lemma PaySteps(x: Setting)
    requires Sensible(x)
    ensures Step(Init(x.me, map[]), DoMint(x.amount, "", "", x.token, 0)) == Minting(x)
    ensures Send(Minting(x), Committed) == Holding(x)
    ensures Step(Holding(x), Pay(x)) == Paying(x)
    ensures Send(Paying(x), Committed) == Paid(x)
  {
    hide Apply, SelectOne, Lock;
    Parses(x, 2);
    SingleCoin(x);
    LockedCoin(x);
    SendsFirst(Minting(x), TheMint(x));
    SendsFirst(Paying(x), ThePay(x, 2));
  }

  lemma ReturnSteps(x: Setting)
    requires Sensible(x)
    ensures Enumerates([OtherKey(x)], Copied(x).db, x.me, false)
    ensures CheckIncoming(Copied(x), [OtherKey(x)]) == Returned(x)
  {
    hide Apply;
    Parses(x, 2);
    var s, p := Copied(x), OtherKey(x);
    assert [p][1..] == [];
    assert CheckIncoming(s, [p]) == CheckIncoming(CheckInOne(s, p), []);
  }

  lemma PaysAgain(x: Setting)
    requires Sensible(x)
    ensures Unseen(Returned(x), Step(Returned(x), Pay(x)))
    ensures Step(Returned(x), Pay(x)).spends == [ThePay(x, 2), ThePay(x, 3)]
  {
    hide Lock;
    SingleCoin(x);
    var s' := Step(Returned(x), Pay(x));
    assert s'.issued == [TheMint(x), ThePay(x, 2), ThePay(x, 3)];
    assert s'.spends == [ThePay(x, 2)] + [ThePay(x, 3)];
  }

  lemma StoryEnabled(x: Setting)
    requires Sensible(x)
    ensures Enabled(Init(x.me, map[]), Story(x)[0]) && Enabled(Holding(x), Story(x)[2])
    ensures Enabled(Paid(x), Story(x)[4]) && Enabled(Copied(x), Story(x)[5]) && Enabled(Returned(x), Story(x)[6])
  {
    hide Apply, SelectOne, Step, CheckIncoming;
    PaySteps(x);
    ReturnSteps(x);
    PaysAgain(x);
  }

  /** Without the guard the run above happens, and the node builds two transfers
      with the same input. */
  lemma RefilingSpendsTwice(x: Setting)
    requires Sensible(x)
    ensures Started(x.me, map[], [], []) && Start(x.me, map[], [], []) == Init(x.me, map[])
    ensures Runs(Init(x.me, map[]), Story(x)) && !Guarded(Story(x))
    ensures var built := Run(Init(x.me, map[]), Story(x)).spends;
            |built| == 2 && !Disjoint(built[0], built[1])
  {
    hide Apply, SelectOne, Enabled, Send, TransferFunds, MintFunds, Runs, Run;
    PaySteps(x);
    ReturnSteps(x);
    PaysAgain(x);
    StoryEnabled(x);
    StoryRuns(x);
    assert Story(x)[4] in Story(x);
    assert TheCoin(x).at in Inputs(ThePay(x, 2)) && TheCoin(x).at in Inputs(ThePay(x, 3));
  }

  lemma StoryRuns(x: Setting)
    requires Sensible(x)
    ensures Runs(Init(x.me, map[]), Story(x)) && Run(Init(x.me, map[]), Story(x)) == Step(Returned(x), Pay(x))
  {
    hide Apply, SelectOne, Enabled, Send, CheckIncoming, TransferFunds, MintFunds;
    PaySteps(x);
    ReturnSteps(x);
    StoryEnabled(x);
    var a := Story(x);
    assert Enabled(Minting(x), a[1]) && Enabled(Paying(x), a[3]) by { SendEnabled(Minting(x)); SendEnabled(Paying(x)); }
    var last := Step(Returned(x), Pay(x));
    assert Runs(last, []) && Run(last, []) == last;
    hide Runs, Run;
    RunCons(Returned(x), a[6], []);
    RunCons(Copied(x), a[5], [a[6]] + []);
    RunCons(Paid(x), a[4], [a[5]] + ([a[6]] + []));
    RunCons(Paying(x), a[3], [a[4]] + ([a[5]] + ([a[6]] + [])));
    RunCons(Holding(x), a[2], [a[3]] + ([a[4]] + ([a[5]] + ([a[6]] + []))));
    RunCons(Minting(x), a[1], [a[2]] + ([a[3]] + ([a[4]] + ([a[5]] + ([a[6]] + [])))));
    RunCons(Init(x.me, map[]), a[0], [a[1]] + ([a[2]] + ([a[3]] + ([a[4]] + ([a[5]] + ([a[6]] + []))))));
    assert [a[0]] + ([a[1]] + ([a[2]] + ([a[3]] + ([a[4]] + ([a[5]] + ([a[6]] + [])))))) == a;
  }
}
