/** What parsing transactions does to an account's coins, and how replaying a
    list of transactions compares with the plain set of them. */
module Replay {
  import opened Machine
  import opened Tokens
  import opened Transactions

  // ------------------------------------------------ the source's operations

  /** `PutUTXO`: appended unless an entry with the same hash and index is there. */
  function Put(coins: seq<Utxo>, u: Utxo): seq<Utxo> {
    if u.at in Keys(coins) then coins else coins + [u]
  }

  /** `RefreshUTXOs`: every entry named by `spent` is erased. */
  function Refresh(coins: seq<Utxo>, spent: seq<OutPoint>): seq<Utxo> {
    if coins == [] then []
    else (if coins[0].at in spent then [] else [coins[0]]) + Refresh(coins[1..], spent)
  }

  /** Outputs `0..n` of `tx` that belong to `me`, put one after the other. */
  function Credit(me: Address, coins: seq<Utxo>, tx: Tx, n: nat): seq<Utxo>
    requires n <= OutputCount(tx)
  {
    if n == 0 then coins
    else
      var before := Credit(me, coins, tx, n - 1);
      if Credits(me, tx, n - 1) then Put(before, Minted(tx, n - 1)) else before
  }

  /** `ParseTransaction` on the account's coins. */
  function Apply(me: Address, coins: seq<Utxo>, tx: Tx): seq<Utxo> {
    Refresh(Credit(me, coins, tx, OutputCount(tx)), Spends(me, tx))
  }

  /** An empty account after parsing `txs` in order. */
  function After(me: Address, txs: seq<Tx>): seq<Utxo> {
    if txs == [] then []
    else Apply(me, After(me, txs[..|txs| - 1]), txs[|txs| - 1])
  }

  // ------------------------------------------------ what a list of transactions means

  /** Some transaction of the list credits `o` to `me` and none from there on spends it. */
  ghost predicate Survives(me: Address, txs: seq<Tx>, o: OutPoint) {
    exists j :: 0 <= j < |txs| && o in Created(me, txs[j]) && !SpentFrom(me, txs, o, j)
  }

  ghost predicate SpentFrom(me: Address, txs: seq<Tx>, o: OutPoint, j: nat) {
    exists k :: j <= k < |txs| && o in Spends(me, txs[k])
  }

  /** The ledger's own answer, independent of any order: created and never spent. */
  ghost predicate Unspent(me: Address, txs: set<Tx>, o: OutPoint) {
    && (exists t :: t in txs && o in Created(me, t))
    && (forall t :: t in txs ==> o !in Spends(me, t))
  }

  function SetOf<T>(s: seq<T>): set<T> { set x | x in s }

  /** Each output that is spent at all is spent at or after its creation. */
  ghost predicate SpentAfterCreated(me: Address, txs: seq<Tx>) {
    forall j, o :: 0 <= j < |txs| && o in Created(me, txs[j]) && SpentFrom(me, txs, o, 0) ==>
      SpentFrom(me, txs, o, j)
  }

  /** No transaction is parsed before (or as) the creator of one of its inputs. */
  ghost predicate CreatorsFirst(me: Address, txs: seq<Tx>) {
    forall j, k, o | 0 <= j < |txs| && 0 <= k < |txs| ::
      o in Created(me, txs[j]) && o in Spends(me, txs[k]) ==> j < k
  }

  /** Every entry is an output its transaction really pays to `me`. */
  predicate Genuine(me: Address, u: Utxo) {
    && u.at in Created(me, u.at.txid.of)
    && u.amount == CoinAt(u.at.txid.of, u.at.index).amount
    && u.token == CoinAt(u.at.txid.of, u.at.index).token
  }

  predicate Sound(me: Address, coins: seq<Utxo>) {
    Distinct(coins) && forall u :: u in coins ==> Genuine(me, u)
  }

  /** The coins with every lock cleared. */
  function Strip(coins: seq<Utxo>): (r: seq<Utxo>)
    ensures |r| == |coins|
    ensures forall i :: 0 <= i < |coins| ==> r[i] == coins[i].(locked := false)
  {
    seq(|coins|, i requires 0 <= i < |coins| => coins[i].(locked := false))
  }

  // ------------------------------------------------ single steps

  lemma {:induction false} RefreshMembers(coins: seq<Utxo>, spent: seq<OutPoint>, u: Utxo)
    ensures u in Refresh(coins, spent) <==> u in coins && u.at !in spent
  {
    if coins != [] {
      RefreshMembers(coins[1..], spent, u);
      assert coins == [coins[0]] + coins[1..];
    }
  }

  lemma {:induction false} RefreshDistinct(coins: seq<Utxo>, spent: seq<OutPoint>)
    requires Distinct(coins)
    ensures Distinct(Refresh(coins, spent))
  {
    if coins != [] {
      RefreshDistinct(coins[1..], spent);
      forall u | u in Refresh(coins[1..], spent)
        ensures u.at != coins[0].at
      {
        RefreshMembers(coins[1..], spent, u);
      }
    }
  }

  lemma KeyHolder(coins: seq<Utxo>, o: OutPoint)
    ensures o in Keys(coins) <==> exists i :: 0 <= i < |coins| && coins[i].at == o
  {
    if o in Keys(coins) {
      var u :| u in coins && u.at == o;
    }
  }

  lemma RefreshKeys(coins: seq<Utxo>, spent: seq<OutPoint>)
    ensures Keys(Refresh(coins, spent)) == Keys(coins) - SetOf(spent)
  {
    forall o: OutPoint
      ensures o in Keys(Refresh(coins, spent)) <==> o in Keys(coins) && o !in spent
    {
      if o in Keys(coins) && o !in spent {
        var u :| u in coins && u.at == o;
        RefreshMembers(coins, spent, u);
      }
      if o in Keys(Refresh(coins, spent)) {
        var u :| u in Refresh(coins, spent) && u.at == o;
        RefreshMembers(coins, spent, u);
      }
    }
  }

  lemma PutFacts(coins: seq<Utxo>, u: Utxo)
    ensures Keys(Put(coins, u)) == Keys(coins) + {u.at}
    ensures Distinct(coins) ==> Distinct(Put(coins, u))
  {
    assert forall v :: v in coins ==> v.at in Keys(coins);
    if u.at !in Keys(coins) {
      forall v | v in coins + [u]
        ensures v.at in Keys(coins) + {u.at}
      {
      }
      assert u in coins + [u];
      assert forall v :: v in coins ==> v in coins + [u];
    }
  }

  /** The outputs among `0..n` that parsing credits to `me`. */
  function CreatedUpTo(me: Address, tx: Tx, n: nat): set<OutPoint> {
    set i: nat | i < n && Credits(me, tx, i) :: OutPoint(Digest(tx), i)
  }

  lemma {:induction false} CreditFacts(me: Address, coins: seq<Utxo>, tx: Tx, n: nat)
    requires n <= OutputCount(tx)
    ensures Keys(Credit(me, coins, tx, n)) == Keys(coins) + CreatedUpTo(me, tx, n)
    ensures Distinct(coins) ==> Distinct(Credit(me, coins, tx, n))
    ensures coins <= Credit(me, coins, tx, n)
    ensures forall u :: u in Credit(me, coins, tx, n) ==> u in coins || (Genuine(me, u) && u.at.txid.of == tx && !u.locked)
  {
    if n > 0 {
      CreditFacts(me, coins, tx, n - 1);
      var before := Credit(me, coins, tx, n - 1);
      if Credits(me, tx, n - 1) {
        PutFacts(before, Minted(tx, n - 1));
        assert CreatedUpTo(me, tx, n) == CreatedUpTo(me, tx, n - 1) + {OutPoint(Digest(tx), n - 1)};
        assert Genuine(me, Minted(tx, n - 1));
      } else {
        assert CreatedUpTo(me, tx, n) == CreatedUpTo(me, tx, n - 1);
      }
    }
  }

  /** Parsing adds exactly the outputs paid to the account and removes exactly
      the spent ones; entries stay distinct and genuine. */
  lemma ApplyFacts(me: Address, coins: seq<Utxo>, tx: Tx)
    ensures Keys(Apply(me, coins, tx)) == (Keys(coins) + Created(me, tx)) - SetOf(Spends(me, tx))
    ensures Sound(me, coins) ==> Sound(me, Apply(me, coins, tx))
  {
    var n := OutputCount(tx);
    CreditFacts(me, coins, tx, n);
    assert CreatedUpTo(me, tx, n) == Created(me, tx);
    RefreshKeys(Credit(me, coins, tx, n), Spends(me, tx));
    if Sound(me, coins) {
      RefreshDistinct(Credit(me, coins, tx, n), Spends(me, tx));
      forall u | u in Apply(me, coins, tx)
        ensures Genuine(me, u)
      {
        RefreshMembers(Credit(me, coins, tx, n), Spends(me, tx), u);
      }
    }
  }

  /** An entry left by parsing was there before with the same lock, or is a new
      output of the parsed transaction; an entry there before is kept unless spent. */
  lemma ApplyMembers(me: Address, coins: seq<Utxo>, tx: Tx, u: Utxo)
    ensures u in Apply(me, coins, tx) ==> u in coins || (u.at.txid.of == tx && !u.locked)
    ensures u in coins && u.at !in Spends(me, tx) ==> u in Apply(me, coins, tx)
  {
    var credited := Credit(me, coins, tx, OutputCount(tx));
    CreditFacts(me, coins, tx, OutputCount(tx));
    RefreshMembers(credited, Spends(me, tx), u);
  }

  // ------------------------------------------------ locks do not matter to parsing

  lemma StripKeys(coins: seq<Utxo>)
    ensures Keys(Strip(coins)) == Keys(coins)
  {
    forall o: OutPoint
      ensures o in Keys(Strip(coins)) <==> o in Keys(coins)
    {
      KeyHolder(coins, o);
      KeyHolder(Strip(coins), o);
    }
  }

  lemma {:induction false} StripRefresh(coins: seq<Utxo>, spent: seq<OutPoint>)
    ensures Strip(Refresh(coins, spent)) == Refresh(Strip(coins), spent)
  {
    if coins != [] {
      StripRefresh(coins[1..], spent);
      assert Strip(coins)[1..] == Strip(coins[1..]);
    }
  }

  lemma {:induction false} StripCredit(me: Address, coins: seq<Utxo>, tx: Tx, n: nat)
    requires n <= OutputCount(tx)
    ensures Strip(Credit(me, coins, tx, n)) == Credit(me, Strip(coins), tx, n)
  {
    if n > 0 {
      StripCredit(me, coins, tx, n - 1);
      StripKeys(Credit(me, coins, tx, n - 1));
    }
  }

  lemma StripApply(me: Address, coins: seq<Utxo>, tx: Tx)
    ensures Strip(Apply(me, coins, tx)) == Apply(me, Strip(coins), tx)
  {
    StripCredit(me, coins, tx, OutputCount(tx));
    StripRefresh(Credit(me, coins, tx, OutputCount(tx)), Spends(me, tx));
  }

  // ------------------------------------------------ replay against the ledger

  lemma {:induction false} AfterSound(me: Address, txs: seq<Tx>)
    ensures Sound(me, After(me, txs))
    ensures Strip(After(me, txs)) == After(me, txs)
  {
    if txs != [] {
      var n := |txs| - 1;
      AfterSound(me, txs[..n]);
      ApplyFacts(me, After(me, txs[..n]), txs[n]);
      StripApply(me, After(me, txs[..n]), txs[n]);
    }
  }

  lemma SurvivesStep(me: Address, txs: seq<Tx>, o: OutPoint)
    requires txs != []
    ensures var n := |txs| - 1;
            Survives(me, txs, o) <==>
              (Survives(me, txs[..n], o) || o in Created(me, txs[n])) && o !in Spends(me, txs[n])
  {
    var n := |txs| - 1;
    forall j | 0 <= j <= n
      ensures SpentFrom(me, txs, o, j) <==> (j < n && SpentFrom(me, txs[..n], o, j)) || o in Spends(me, txs[n])
    {
      if SpentFrom(me, txs, o, j) && o !in Spends(me, txs[n]) {
        var k :| j <= k < |txs| && o in Spends(me, txs[k]);
        assert txs[..n][k] == txs[k];
      }
      if j < n && SpentFrom(me, txs[..n], o, j) {
        var k :| j <= k < n && o in Spends(me, txs[..n][k]);
        assert txs[k] == txs[..n][k];
      }
    }
    if Survives(me, txs[..n], o) && o !in Spends(me, txs[n]) {
      var j :| 0 <= j < n && o in Created(me, txs[..n][j]) && !SpentFrom(me, txs[..n], o, j);
      assert txs[j] == txs[..n][j];
      assert !SpentFrom(me, txs, o, j);
    }
    if o in Created(me, txs[n]) && o !in Spends(me, txs[n]) {
      assert !SpentFrom(me, txs, o, n);
    }
    if Survives(me, txs, o) {
      var j :| 0 <= j < |txs| && o in Created(me, txs[j]) && !SpentFrom(me, txs, o, j);
      if j < n {
        assert txs[..n][j] == txs[j];
      }
    }
  }

  /** After any list of transactions, in any order and with any repetitions,
      the account holds exactly the surviving outputs. */
  lemma {:induction false} ReplayHoldsSurvivors(me: Address, txs: seq<Tx>, o: OutPoint)
    ensures o in Keys(After(me, txs)) <==> Survives(me, txs, o)
  {
    if txs != [] {
      var n := |txs| - 1;
      ReplayHoldsSurvivors(me, txs[..n], o);
      ApplyFacts(me, After(me, txs[..n]), txs[n]);
      SurvivesStep(me, txs, o);
    }
  }

  lemma UnspentAsList(me: Address, txs: seq<Tx>, o: OutPoint)
    ensures Unspent(me, SetOf(txs), o) <==>
            (exists j :: 0 <= j < |txs| && o in Created(me, txs[j])) && !SpentFrom(me, txs, o, 0)
  {
    if Unspent(me, SetOf(txs), o) {
      var t :| t in SetOf(txs) && o in Created(me, t);
      var j :| 0 <= j < |txs| && txs[j] == t;
    }
    if !SpentFrom(me, txs, o, 0) {
      forall t | t in SetOf(txs)
        ensures o !in Spends(me, t)
      {
        var k :| 0 <= k < |txs| && txs[k] == t;
      }
    }
  }

  /** Replaying agrees with the ledger if and only if every output that is spent
      in the list is spent at or after its creation. Parsing never loses a coin
      (the right-to-left inclusion needs no condition); it can only keep a spent one. */
  lemma ReplayIsLedgerIff(me: Address, txs: seq<Tx>)
    ensures (forall o :: o in Keys(After(me, txs)) <==> Unspent(me, SetOf(txs), o)) <==> SpentAfterCreated(me, txs)
    ensures forall o :: Unspent(me, SetOf(txs), o) ==> o in Keys(After(me, txs))
  {
    forall o: OutPoint
      ensures Unspent(me, SetOf(txs), o) ==> o in Keys(After(me, txs))
      ensures o in Keys(After(me, txs)) ==> (Unspent(me, SetOf(txs), o) <==> !SpentFrom(me, txs, o, 0))
    {
      ReplayHoldsSurvivors(me, txs, o);
      UnspentAsList(me, txs, o);
    }
    if SpentAfterCreated(me, txs) {
      forall o | o in Keys(After(me, txs))
        ensures Unspent(me, SetOf(txs), o)
      {
        ReplayHoldsSurvivors(me, txs, o);
      }
    }
    if forall o :: o in Keys(After(me, txs)) <==> Unspent(me, SetOf(txs), o) {
      forall j, o | 0 <= j < |txs| && o in Created(me, txs[j]) && SpentFrom(me, txs, o, 0)
        ensures SpentFrom(me, txs, o, j)
      {
        ReplayHoldsSurvivors(me, txs, o);
        assert !Unspent(me, SetOf(txs), o) by { UnspentAsList(me, txs, o); }
      }
    }
  }

  lemma CreatorsFirstSuffices(me: Address, txs: seq<Tx>)
    requires CreatorsFirst(me, txs)
    ensures SpentAfterCreated(me, txs)
  {
    forall j, o | 0 <= j < |txs| && o in Created(me, txs[j]) && SpentFrom(me, txs, o, 0)
      ensures SpentFrom(me, txs, o, j)
    {
      var k :| 0 <= k < |txs| && o in Spends(me, txs[k]);
      assert j < k;
    }
  }

  /** What an account owns, without locks and list order. */
  ghost function Holdings(coins: seq<Utxo>): set<Utxo> { set u | u in Strip(coins) }

  /** All orders of the same transactions that put creators before spenders
      leave the same coins with the same amounts and tokens. */
  lemma OrdersAgree(me: Address, a: seq<Tx>, b: seq<Tx>)
    requires SetOf(a) == SetOf(b)
    requires CreatorsFirst(me, a) && CreatorsFirst(me, b)
    ensures Holdings(After(me, a)) == Holdings(After(me, b))
  {
    OrderIncluded(me, a, b);
    OrderIncluded(me, b, a);
  }

  lemma OrderIncluded(me: Address, a: seq<Tx>, b: seq<Tx>)
    requires SetOf(a) == SetOf(b)
    requires CreatorsFirst(me, a) && CreatorsFirst(me, b)
    ensures Holdings(After(me, a)) <= Holdings(After(me, b))
  {
    CreatorsFirstSuffices(me, a);
    CreatorsFirstSuffices(me, b);
    ReplayIsLedgerIff(me, a);
    ReplayIsLedgerIff(me, b);
    AfterSound(me, a);
    AfterSound(me, b);
    forall u | u in After(me, a)
      ensures u in After(me, b)
    {
      assert u.at in Keys(After(me, a));
      var v :| v in After(me, b) && v.at == u.at;
      var i :| 0 <= i < |After(me, b)| && After(me, b)[i] == v;
      var j :| 0 <= j < |After(me, a)| && After(me, a)[j] == u;
      assert Strip(After(me, b))[i] == v && Strip(After(me, a))[j] == u;
      assert Genuine(me, u) && Genuine(me, v);
    }
  }

  lemma AfterTwo(me: Address, a: Tx, b: Tx)
    ensures Keys(After(me, [a, b])) ==
            ((Created(me, a) - SetOf(Spends(me, a))) + Created(me, b)) - SetOf(Spends(me, b))
  {
    assert [a, b][..1] == [a] && [a][..0] == [];
    assert After(me, [a]) == Apply(me, [], a);
    assert After(me, [a, b]) == Apply(me, After(me, [a]), b);
    ApplyFacts(me, [], a);
    ApplyFacts(me, After(me, [a]), b);
  }

  /** The order matters: a spender parsed before its creator leaves the spent
      output in the account, the other order does not. */
  lemma OrderMatters(me: Address, mint: Tx, pay: Tx)
    requires mint.Mint? && mint.dag.source == me
    requires pay.Transfer? && pay.inputs == [OutPoint(Digest(mint), 0)]
    requires forall out :: out in pay.outputs ==> out.dest != me
    ensures Keys(After(me, [mint, pay])) == {}
    ensures Keys(After(me, [pay, mint])) == {OutPoint(Digest(mint), 0)}
  {
    var o := OutPoint(Digest(mint), 0);
    assert Credits(me, mint, 0);
    assert Created(me, mint) == {o};
    assert Created(me, pay) == {};
    assert SetOf([o]) == {o};
    AfterTwo(me, mint, pay);
    AfterTwo(me, pay, mint);
  }
}
