/** The account object (`GeniusAccount`): its coins and nonce, updated in place. */
module Account {
  import opened Machine
  import opened Tokens
  import opened Transactions
  import opened CoinSelection
  import opened Replay
  import opened Accounting

  class GeniusAccount {
    const address: Address
    var nonce: nat
    var utxos: seq<Utxo>

    constructor (address: Address)
      ensures this.address == address && nonce == 0 && utxos == []
    {
      this.address := address;
      nonce := 0;
      utxos := [];
    }

    method PutUtxo(coin: Utxo) returns (isNew: bool)
      modifies this`utxos
      ensures utxos == Put(old(utxos), coin)
      ensures isNew <==> coin.at !in Keys(old(utxos))
    {
      isNew := true;
      var i := 0;
      while i < |utxos| && isNew
        invariant 0 <= i <= |utxos| && utxos == old(utxos)
        invariant isNew ==> forall k :: 0 <= k < i ==> utxos[k].at != coin.at
        invariant !isNew ==> exists k :: 0 <= k < |utxos| && utxos[k].at == coin.at
      {
        if coin.at.txid == utxos[i].at.txid && coin.at.index == utxos[i].at.index {
          isNew := false;
        }
        i := i + 1;
      }
      KeyHolder(utxos, coin.at);
      if isNew {
        utxos := utxos + [coin];
      }
    }

    method RefreshUtxos(infos: seq<OutPoint>)
      modifies this`utxos
      ensures utxos == Refresh(old(utxos), infos)
    {
      var kept: seq<Utxo> := [];
      var i := 0;
      assert utxos[0..] == utxos;
      while i < |utxos|
        invariant 0 <= i <= |utxos| && utxos == old(utxos)
        invariant Refresh(utxos, infos) == kept + Refresh(utxos[i..], infos)
      {
        assert utxos[i..][1..] == utxos[i + 1..];
        if utxos[i].at !in infos {
          kept := kept + [utxos[i]];
        }
        i := i + 1;
      }
      assert kept + [] == kept;
      utxos := kept;
    }

    /** `GetBalance`: the unlocked coins, summed in 64 bits. */
    method GetBalance() returns (total: u64)
      ensures total == Wrap(Balance(utxos))
    {
      total := 0;
      for i := 0 to |utxos|
        invariant total == Wrap(Balance(utxos[..i]))
      {
        assert utxos[..i + 1] == utxos[..i] + [utxos[i]];
        WeighAppend(utxos[..i], utxos[i], Spendable);
        WrapSum(Balance(utxos[..i]), utxos[i].amount);
        if !utxos[i].locked {
          total := Wrap(total + utxos[i].amount);
        }
      }
      assert utxos[..|utxos|] == utxos;
    }

    /** `GetBalance(token_id)`: exactly what coin selection could use of a token,
        summed in 64 bits. */
    method GetTokenBalance(token: TokenId) returns (total: u64)
      ensures total == Wrap(Sum(EligibleCoins(utxos, token)))
    {
      total := 0;
      for i := 0 to |utxos|
        invariant total == Wrap(Sum(EligibleCoins(utxos[..i], token)))
      {
        EligibleAppend(utxos[..i], utxos[i], token);
        assert utxos[..i + 1] == utxos[..i] + [utxos[i]];
        WrapSum(Sum(EligibleCoins(utxos[..i], token)), utxos[i].amount);
        if !utxos[i].locked && Equals(token, utxos[i].token) {
          total := Wrap(total + utxos[i].amount);
        }
      }
      assert utxos[..|utxos|] == utxos;
    }
  }

  lemma {:induction false} EligibleAppend(coins: seq<Utxo>, u: Utxo, token: TokenId)
    ensures Sum(EligibleCoins(coins + [u], token)) ==
            Sum(EligibleCoins(coins, token)) + if Eligible(u, token) then u.amount else 0
  {
    if coins == [] {
      assert coins + [u] == [u] && [u][1..] == [];
      assert EligibleCoins([u], token) == (if Eligible(u, token) then [u] else []) + EligibleCoins([], token);
      assert Eligible(u, token) ==> EligibleCoins([u], token) == [u];
    } else {
      assert (coins + [u])[1..] == coins[1..] + [u];
      EligibleAppend(coins[1..], u, token);
      var head := if Eligible(coins[0], token) then [coins[0]] else [];
      SumConcat(head, EligibleCoins(coins[1..] + [u], token));
      SumConcat(head, EligibleCoins(coins[1..], token));
    }
  }
}
