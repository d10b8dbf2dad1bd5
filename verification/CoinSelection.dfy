/** Coin selection (`UTXOTxParameters`): choosing unlocked coins of one token
    class until they cover an amount, for one destination or for several. */
module CoinSelection {
  import opened Machine
  import opened Tokens
  import opened Transactions

  datatype Params = Params(inputs: seq<OutPoint>, outputs: seq<Output>)

  predicate Eligible(u: Utxo, token: TokenId) {
    !u.locked && Equals(token, u.token)
  }

  // ------------------------------------------------ the source's algorithms

  /** The selection loop: coins taken in pool order from a running total `acc`
      kept in 64 bits, until the total reaches `target`. */
  function Gather(pool: seq<Utxo>, token: TokenId, target: u64, acc: u64): (r: (seq<Utxo>, u64))
  {
    if pool == [] || acc >= target then ([], acc)
    else if Eligible(pool[0], token) then
      var (rest, total) := Gather(pool[1..], token, target, Wrap(acc + pool[0].amount));
      ([pool[0]] + rest, total)
    else Gather(pool[1..], token, target, acc)
  }

  /** The second pass of the single-destination form: how much of the chosen
      coins is sent on, given what was `used` so far. */
  function Sent(chosen: seq<Utxo>, amount: u64, used: u64): u64
    requires used <= amount
  {
    if chosen == [] then used
    else
      var next := Wrap(used + chosen[0].amount);
      if next <= amount then Sent(chosen[1..], amount, next) else amount
  }

  function Change(amount: u64, to: Address, token: TokenId): seq<Output> {
    if amount > 0 then [Output(amount, to, token)] else []
  }

  /** `create` for one destination. */
  function SelectOne(pool: seq<Utxo>, src: Address, amount: u64, dest: Address, token: TokenId): Option<Params> {
    var (chosen, total) := Gather(pool, token, amount, 0);
    if total < amount || chosen == [] then None
    else Some(Params(Points(chosen),
                     [Output(Sent(chosen, amount, 0), dest, token)] + Change(total - amount, src, token)))
  }

  /** The 64-bit total of the requested outputs. */
  function Requested(outputs: seq<Output>): u64 { Wrap(SumOutputs(outputs)) }

  /** `create` for a list of destinations. */
  function SelectMany(pool: seq<Utxo>, src: Address, dests: seq<Output>, token: TokenId): Option<Params> {
    var total := Requested(dests);
    var (chosen, used) := Gather(pool, token, total, 0);
    if used < total || chosen == [] then None
    else Some(Params(Points(chosen), dests + Change(used - total, src, token)))
  }

  /** The selection loop itself, shared by both constructors. */
  method Choose(pool: seq<Utxo>, token: TokenId, target: u64) returns (chosen: seq<Utxo>, total: u64)
    ensures chosen == Gather(pool, token, target, 0).0
    ensures total == Gather(pool, token, target, 0).1
  {
    chosen, total := [], 0;
    var i := 0;
    assert pool[0..] == pool;
    while i < |pool| && total < target
      invariant 0 <= i <= |pool|
      invariant Gather(pool, token, target, 0).0 == chosen + Gather(pool[i..], token, target, total).0
      invariant Gather(pool, token, target, 0).1 == Gather(pool[i..], token, target, total).1
    {
      assert pool[i..][1..] == pool[i + 1..];
      if Eligible(pool[i], token) {
        chosen, total := chosen + [pool[i]], Wrap(total + pool[i].amount);
      }
      i := i + 1;
    }
    assert chosen + [] == chosen;
  }

  /** The private constructor for one destination, then `create`. */
  method CreateOne(pool: seq<Utxo>, src: Address, amount: u64, dest: Address, token: TokenId)
    returns (r: Option<Params>)
    ensures r == SelectOne(pool, src, amount, dest, token)
  {
    var chosen, selected := Choose(pool, token, amount);
    if selected < amount || chosen == [] {
      return None;
    }
    var send: u64, used: u64, j := 0, 0, 0;
    assert chosen[0..] == chosen;
    while j < |chosen|
      invariant 0 <= j <= |chosen|
      invariant send == used <= amount
      invariant Sent(chosen, amount, 0) == Sent(chosen[j..], amount, used)
    {
      assert chosen[j..][1..] == chosen[j + 1..];
      var coin := chosen[j].amount;
      if Wrap(used + coin) <= amount {
        send, used := Wrap(send + coin), Wrap(used + coin);
      } else {
        var needed: u64 := amount - used;
        send, used := Wrap(send + needed), Wrap(used + needed);
        break;
      }
      j := j + 1;
    }
    var outputs := [Output(send, dest, token)];
    var change: u64 := selected - amount;
    if change > 0 {
      outputs := outputs + [Output(change, src, token)];
    }
    assert outputs == [Output(send, dest, token)] + Change(change, src, token);
    r := Some(Params(Points(chosen), outputs));
  }

  /** The private constructor for several destinations, then `create`. */
  method CreateMany(pool: seq<Utxo>, src: Address, dests: seq<Output>, token: TokenId)
    returns (r: Option<Params>)
    ensures r == SelectMany(pool, src, dests, token)
  {
    var total: u64, d := 0, 0;
    while d < |dests|
      invariant 0 <= d <= |dests|
      invariant total == Requested(dests[..d])
    {
      assert dests[..d + 1] == dests[..d] + [dests[d]];
      SumOutputsConcat(dests[..d], [dests[d]]);
      WrapSum(SumOutputs(dests[..d]), dests[d].amount);
      total := Wrap(total + dests[d].amount);
      d := d + 1;
    }
    assert dests[..d] == dests;
    var chosen, used := Choose(pool, token, total);
    var outputs: seq<Output> := [];
    if used < total {
      chosen := [];
    } else {
      outputs := dests;
    }
    if used > total {
      outputs := outputs + [Output(used - total, src, token)];
    }
    assert used >= total ==> outputs == dests + Change(used - total, src, token);
    r := if chosen != [] then Some(Params(Points(chosen), outputs)) else None;
  }

  /** `UpdateUTXOList`: locks by transaction hash, whatever the output index. */
  function Lock(pool: seq<Utxo>, inputs: seq<OutPoint>): (r: seq<Utxo>)
    ensures |r| == |pool|
    ensures forall i :: 0 <= i < |pool| ==>
      r[i] == pool[i].(locked := pool[i].locked || SharesHash(pool[i], inputs))
  {
    seq(|pool|, i requires 0 <= i < |pool| =>
      pool[i].(locked := pool[i].locked || SharesHash(pool[i], inputs)))
  }

  predicate SharesHash(u: Utxo, inputs: seq<OutPoint>) {
    exists k :: 0 <= k < |inputs| && inputs[k].txid == u.at.txid
  }

  method UpdateUtxoList(pool: seq<Utxo>, inputs: seq<OutPoint>) returns (r: seq<Utxo>)
    ensures r == Lock(pool, inputs)
  {
    r := pool;
    for k := 0 to |inputs|
      invariant r == Lock(pool, inputs[..k])
    {
      ghost var before := r;
      for i := 0 to |r|
        invariant |r| == |before|
        invariant forall m :: 0 <= m < |r| ==>
          r[m] == if m < i && inputs[k].txid == before[m].at.txid then before[m].(locked := true) else before[m]
      {
        if inputs[k].txid == r[i].at.txid {
          r := r[i := r[i].(locked := true)];
        }
      }
      forall m | 0 <= m < |pool|
        ensures SharesHash(pool[m], inputs[..k + 1]) <==>
                SharesHash(pool[m], inputs[..k]) || inputs[k].txid == pool[m].at.txid
      {
        assert inputs[..k + 1][k] == inputs[k];
        assert forall n :: 0 <= n < k ==> inputs[..k + 1][n] == inputs[..k][n];
      }
    }
    assert inputs[..|inputs|] == inputs;
  }

  // ------------------------------------------------ what selection means

  /** The coins selection may use, in pool order. */
  function EligibleCoins(pool: seq<Utxo>, token: TokenId): seq<Utxo> {
    if pool == [] then []
    else (if Eligible(pool[0], token) then [pool[0]] else []) + EligibleCoins(pool[1..], token)
  }

  /** The shortest prefix worth at least `amount`, over unbounded integers. */
  function Cover(coins: seq<Utxo>, amount: int): (r: seq<Utxo>)
    ensures r <= coins
    ensures 0 < amount <= Sum(coins) ==> amount <= Sum(r) < amount + U64
    ensures 0 < amount <= Sum(coins) ==> r != [] && Sum(r[..|r| - 1]) < amount
  {
    if coins == [] || amount <= 0 then []
    else
      var rest := Cover(coins[1..], amount - coins[0].amount);
      var r := [coins[0]] + rest;
      assert r[1..] == rest;
      assert rest != [] ==> r[..|r| - 1][1..] == rest[..|rest| - 1];
      r
  }

  /** Selection without machine arithmetic: the reference the code is measured by. */
  function Ideal(pool: seq<Utxo>, src: Address, amount: u64, dest: Address, token: TokenId): Option<Params> {
    var coins := EligibleCoins(pool, token);
    if amount == 0 || Sum(coins) < amount then None
    else
      var chosen := Cover(coins, amount);
      Some(Params(Points(chosen), [Output(amount, dest, token)] + Change(Sum(chosen) - amount, src, token)))
  }

  /** The running total is the 64-bit sum of what was chosen, and the loop left
      off either because the total reached the target or because nothing
      eligible was left. */
  lemma {:induction false} GatherTotal(pool: seq<Utxo>, token: TokenId, target: u64, acc: u64)
    ensures var (chosen, total) := Gather(pool, token, target, acc);
            && chosen <= EligibleCoins(pool, token)
            && total == Wrap(acc + Sum(chosen))
            && (total < target ==> chosen == EligibleCoins(pool, token))
  {
    hide Eligible;
    if pool != [] && acc < target {
      if Eligible(pool[0], token) {
        var next := Wrap(acc + pool[0].amount);
        GatherTotal(pool[1..], token, target, next);
        var rest := Gather(pool[1..], token, target, next).0;
        var chosen := Gather(pool, token, target, acc).0;
        assert chosen == [pool[0]] + rest && chosen[1..] == rest;
        WrapSum(acc + pool[0].amount, Sum(rest));
      } else {
        GatherTotal(pool[1..], token, target, acc);
        assert EligibleCoins(pool, token) == EligibleCoins(pool[1..], token);
      }
    }
  }

  /** As long as no 64-bit addition overflows, the loop takes the shortest
      covering prefix of the eligible coins. */
  lemma {:induction false} GatherIsCover(pool: seq<Utxo>, token: TokenId, target: u64, acc: u64)
    requires acc + Sum(Cover(EligibleCoins(pool, token), target - acc)) < U64
    ensures Gather(pool, token, target, acc).0 == Cover(EligibleCoins(pool, token), target - acc)
  {
    hide Eligible;
    var coins := EligibleCoins(pool, token);
    if pool != [] && acc < target {
      if Eligible(pool[0], token) {
        assert coins[1..] == EligibleCoins(pool[1..], token);
        var cover := Cover(coins, target - acc);
        assert cover[1..] == Cover(coins[1..], target - (acc + pool[0].amount));
        GatherIsCover(pool[1..], token, target, acc + pool[0].amount);
      } else {
        assert coins == EligibleCoins(pool[1..], token);
        GatherIsCover(pool[1..], token, target, acc);
      }
    }
  }

  /** A coin that wraps the total leaves it below the target, so the loop
      takes at least one more coin or gives up. */
  lemma GatherAfterWrap(pool: seq<Utxo>, token: TokenId, target: u64, acc: u64)
    requires pool != [] && Eligible(pool[0], token)
    requires acc < target && acc + pool[0].amount >= U64
    ensures var (chosen, total) := Gather(pool, token, target, acc);
            total < target || |chosen| > 1
  {
    var next := Wrap(acc + pool[0].amount);
    assert next == Wrap(acc + pool[0].amount - U64) < target;
    GatherTotal(pool[1..], token, target, next);
  }

  /** The covering prefix, one coin at a time. */
  lemma CoverStep(pool: seq<Utxo>, token: TokenId, amount: int)
    requires pool != [] && amount > 0
    ensures var coins := EligibleCoins(pool, token);
            var rest := EligibleCoins(pool[1..], token);
            if Eligible(pool[0], token) then
              && Cover(coins, amount) == [pool[0]] + Cover(rest, amount - pool[0].amount)
              && Sum(Cover(coins, amount)) == pool[0].amount + Sum(Cover(rest, amount - pool[0].amount))
              && Sum(coins) == pool[0].amount + Sum(rest)
            else coins == rest
  {
    var coins := EligibleCoins(pool, token);
    if Eligible(pool[0], token) {
      assert coins[1..] == EligibleCoins(pool[1..], token);
      var rest := Cover(coins[1..], amount - pool[0].amount);
      assert ([pool[0]] + rest)[1..] == rest;
    }
  }

  /** When the coin that reaches the target overflows the total, the loop does
      not stop there: it takes more coins than the covering prefix, or gives up. */
  lemma {:induction false} GatherOverrun(pool: seq<Utxo>, token: TokenId, target: u64, acc: u64)
    requires acc < target
    requires Sum(EligibleCoins(pool, token)) >= target - acc
    requires acc + Sum(Cover(EligibleCoins(pool, token), target - acc)) >= U64
    ensures Gather(pool, token, target, acc).1 < target ||
            |Gather(pool, token, target, acc).0| > |Cover(EligibleCoins(pool, token), target - acc)|
  {
    hide Eligible;
    if pool != [] {
      CoverStep(pool, token, target - acc);
      if !Eligible(pool[0], token) {
        GatherOverrun(pool[1..], token, target, acc);
      } else if acc + pool[0].amount >= U64 {
        GatherAfterWrap(pool, token, target, acc);
      } else {
        GatherOverrun(pool[1..], token, target, acc + pool[0].amount);
      }
    }
  }

  /** The second pass always sends exactly the requested amount, even where the
      64-bit totals overflow. */
  lemma {:induction false} SentIsAmount(chosen: seq<Utxo>, amount: u64, used: u64)
    requires used <= amount <= Wrap(used + Sum(chosen))
    ensures Sent(chosen, amount, used) == amount
  {
    if chosen != [] {
      var next := Wrap(used + chosen[0].amount);
      if next <= amount {
        WrapSum(used + chosen[0].amount, Sum(chosen[1..]));
        SentIsAmount(chosen[1..], amount, next);
      }
    }
  }

  /** Both constructors mean the same: for every pool, whatever overflows, the
      single-destination form and the list form on a one-element list agree in
      success, inputs and outputs. */
  lemma OneIsManyOfOne(pool: seq<Utxo>, src: Address, amount: u64, dest: Address, token: TokenId)
    ensures SelectOne(pool, src, amount, dest, token) ==
            SelectMany(pool, src, [Output(amount, dest, token)], token)
  {
    var dests := [Output(amount, dest, token)];
    assert SumOutputs(dests) == amount;
    var (chosen, total) := Gather(pool, token, amount, 0);
    GatherTotal(pool, token, amount, 0);
    if total >= amount {
      SentIsAmount(chosen, amount, 0);
    }
  }

  lemma IdealWhenItFits(pool: seq<Utxo>, src: Address, amount: u64, dest: Address, token: TokenId)
    requires 0 < amount <= Sum(EligibleCoins(pool, token))
    requires Sum(Cover(EligibleCoins(pool, token), amount)) < U64
    ensures SelectOne(pool, src, amount, dest, token) == Ideal(pool, src, amount, dest, token)
  {
    GatherTotal(pool, token, amount, 0);
    GatherIsCover(pool, token, amount, 0);
    SentIsAmount(Gather(pool, token, amount, 0).0, amount, 0);
  }

  lemma NotIdealOnOverflow(pool: seq<Utxo>, src: Address, amount: u64, dest: Address, token: TokenId)
    requires 0 < amount <= Sum(EligibleCoins(pool, token))
    requires Sum(Cover(EligibleCoins(pool, token), amount)) >= U64
    ensures SelectOne(pool, src, amount, dest, token) != Ideal(pool, src, amount, dest, token)
  {
    GatherOverrun(pool, token, amount, 0);
    var r := SelectOne(pool, src, amount, dest, token);
    assert r.Some? ==> |r.value.inputs| == |Gather(pool, token, amount, 0).0|;
    assert |Ideal(pool, src, amount, dest, token).value.inputs| == |Cover(EligibleCoins(pool, token), amount)|;
  }

  lemma NoneWithoutFunds(pool: seq<Utxo>, src: Address, amount: u64, dest: Address, token: TokenId)
    requires amount == 0 || Sum(EligibleCoins(pool, token)) < amount
    ensures SelectOne(pool, src, amount, dest, token) == None
  {
    GatherTotal(pool, token, amount, 0);
    PrefixSum(Gather(pool, token, amount, 0).0, EligibleCoins(pool, token));
  }

  /** The code computes the ideal selection if and only if the covering prefix
      does not overflow 64 bits (or there is nothing to cover). */
  lemma SelectionIdealIff(pool: seq<Utxo>, src: Address, amount: u64, dest: Address, token: TokenId)
    ensures SelectOne(pool, src, amount, dest, token) == Ideal(pool, src, amount, dest, token) <==>
            var coins := EligibleCoins(pool, token);
            amount == 0 || Sum(coins) < amount || Sum(Cover(coins, amount)) < U64
  {
    var coins := EligibleCoins(pool, token);
    if amount == 0 || Sum(coins) < amount {
      NoneWithoutFunds(pool, src, amount, dest, token);
    } else if Sum(Cover(coins, amount)) < U64 {
      IdealWhenItFits(pool, src, amount, dest, token);
    } else {
      NotIdealOnOverflow(pool, src, amount, dest, token);
    }
  }

  lemma PrefixSum(a: seq<Utxo>, b: seq<Utxo>)
    requires a <= b
    ensures Sum(a) <= Sum(b)
  {
    assert b == a + b[|a|..];
    SumConcat(a, b[|a|..]);
  }

  /** Selection is exact whenever the covering prefix fits in 64 bits: it succeeds
      exactly when the eligible coins cover a positive amount; the destination
      gets the amount, inputs and outputs balance, the inputs are a prefix of
      the eligible coins, and the last of them was needed. */
  lemma SelectionExact(pool: seq<Utxo>, src: Address, amount: u64, dest: Address, token: TokenId)
    returns (chosen: seq<Utxo>)
    requires Sum(Cover(EligibleCoins(pool, token), amount)) < U64
    ensures var r := SelectOne(pool, src, amount, dest, token);
            && (r.Some? <==> 0 < amount <= Sum(EligibleCoins(pool, token)))
            && (r.Some? ==>
              && chosen <= EligibleCoins(pool, token)
              && r.value.inputs == Points(chosen)
              && chosen != []
              && Sum(chosen[..|chosen| - 1]) < amount <= Sum(chosen) < U64
              && r.value.outputs == [Output(amount, dest, token)] + Change(Sum(chosen) - amount, src, token)
              && SumOutputs(r.value.outputs) == Sum(chosen))
  {
    var coins := EligibleCoins(pool, token);
    chosen := Cover(coins, amount);
    SelectionIdealIff(pool, src, amount, dest, token);
    if 0 < amount <= Sum(coins) {
      var change: u64 := Sum(chosen) - amount;
      SumOutputsConcat([Output(amount, dest, token)], Change(change, src, token));
      assert SumOutputs([Output(amount, dest, token)]) == amount;
      assert SumOutputs(Change(change, src, token)) == change;
    }
  }

  lemma WrapFixed(x: nat)
    ensures Wrap(x) == x <==> x < U64
  {
  }

  /** Whatever overflows, the outputs of a successful selection are worth the
      64-bit sum of its inputs. */
  lemma OutputsAreWrapped(pool: seq<Utxo>, src: Address, amount: u64, dest: Address, token: TokenId)
    returns (chosen: seq<Utxo>)
    ensures var r := SelectOne(pool, src, amount, dest, token);
            r.Some? ==>
              && chosen == Gather(pool, token, amount, 0).0 && chosen <= EligibleCoins(pool, token)
              && r.value.inputs == Points(chosen) && amount <= Wrap(Sum(chosen))
              && r.value.outputs == [Output(amount, dest, token)] + Change(Wrap(Sum(chosen)) - amount, src, token)
              && SumOutputs(r.value.outputs) == Wrap(Sum(chosen))
  {
    chosen := Gather(pool, token, amount, 0).0;
    GatherTotal(pool, token, amount, 0);
    var total := Gather(pool, token, amount, 0).1;
    if total >= amount {
      SentIsAmount(chosen, amount, 0);
      var change: u64 := total - amount;
      SumOutputsConcat([Output(amount, dest, token)], Change(change, src, token));
      assert SumOutputs([Output(amount, dest, token)]) == amount;
      assert SumOutputs(Change(change, src, token)) == change;
    }
  }

  /** When the covering prefix overflows, what was chosen overflows too. */
  lemma ChosenFitsIff(pool: seq<Utxo>, token: TokenId, amount: u64)
    requires Gather(pool, token, amount, 0).1 >= amount > 0
    ensures Sum(Gather(pool, token, amount, 0).0) < U64 <==> Sum(Cover(EligibleCoins(pool, token), amount)) < U64
  {
    hide Gather, EligibleCoins, Cover, Wrap;
    var coins, chosen := EligibleCoins(pool, token), Gather(pool, token, amount, 0).0;
    var cover := Cover(coins, amount);
    GatherTotal(pool, token, amount, 0);
    PrefixSum(chosen, coins);
    WrapAtMost(Sum(chosen));
    if Sum(cover) < U64 {
      GatherIsCover(pool, token, amount, 0);
    } else {
      GatherOverrun(pool, token, amount, 0);
      assert cover <= chosen;
      PrefixSum(cover, chosen);
    }
  }

  lemma {:induction false} WrapAtMost(x: nat)
    ensures Wrap(x) <= x
  {
    if x >= U64 {
      WrapAtMost(x - U64);
    }
  }

  /** A successful selection balances if and only if the covering prefix of the
      eligible coins stays below 2^64. */
  lemma SelectionBalancesIff(pool: seq<Utxo>, src: Address, amount: u64, dest: Address, token: TokenId)
    requires SelectOne(pool, src, amount, dest, token).Some?
    ensures SumOutputs(SelectOne(pool, src, amount, dest, token).value.outputs) ==
            Sum(Gather(pool, token, amount, 0).0) <==>
            Sum(Cover(EligibleCoins(pool, token), amount)) < U64
  {
    var chosen := OutputsAreWrapped(pool, src, amount, dest, token);
    assert amount > 0 by {
      assert amount == 0 ==> chosen == [];
    }
    ChosenFitsIff(pool, token, amount);
    WrapFixed(Sum(chosen));
  }

  /** Three coins worth 2^65 - 1 together pay 2^64 - 1 and nothing comes back. */
  lemma OverflowingPoolLoses(a: OutPoint, b: OutPoint, c: OutPoint, token: TokenId, src: Address, dest: Address)
    ensures var pool := [Utxo(a, U64 - 2, false, token), Utxo(b, 2, false, token), Utxo(c, U64 - 1, false, token)];
            SelectOne(pool, src, U64 - 1, dest, token) == Some(Params([a, b, c], [Output(U64 - 1, dest, token)])) &&
            Sum(pool) == 2 * U64 - 1
  {
    var x, y, z := Utxo(a, U64 - 2, false, token), Utxo(b, 2, false, token), Utxo(c, U64 - 1, false, token);
    var pool := [x, y, z];
    assert pool[1..] == [y, z] && [y, z][1..] == [z] && [z][1..] == [];
    assert Sum([z]) == U64 - 1;
    assert Sum([y, z]) == U64 + 1;
    var last := Gather([z], token, U64 - 1, 0);
    assert last.0 == [z] + Gather([], token, U64 - 1, U64 - 1).0 == [z] && last.1 == U64 - 1;
    var middle := Gather([y, z], token, U64 - 1, U64 - 2);
    assert Wrap(U64 - 2 + 2) == 0;
    assert middle.0 == [y] + last.0 && middle.1 == U64 - 1;
    var all := Gather(pool, token, U64 - 1, 0);
    assert all.0 == [x] + middle.0 == pool && all.1 == U64 - 1;
    assert Points(pool) == [a, b, c];
    var chosen := OutputsAreWrapped(pool, src, U64 - 1, dest, token);
    assert Wrap(2 * U64 - 1) == Wrap(U64 - 1) == U64 - 1;
    var sent := [Output(U64 - 1, dest, token)];
    assert sent + Change(0, src, token) == sent;
  }

  /** The list form: its outputs are the requested ones and the change over their
      64-bit total, so it balances if and only if request and inputs overflow
      equally often. */
  lemma ManyBalancesIff(pool: seq<Utxo>, src: Address, dests: seq<Output>, token: TokenId)
    requires SelectMany(pool, src, dests, token).Some?
    ensures var chosen := Gather(pool, token, Requested(dests), 0).0;
            var r := SelectMany(pool, src, dests, token).value;
            && r.inputs == Points(chosen)
            && SumOutputs(r.outputs) == SumOutputs(dests) + Wrap(Sum(chosen)) - Requested(dests)
            && (SumOutputs(r.outputs) == Sum(chosen) <==> SumOutputs(dests) / U64 == Sum(chosen) / U64)
  {
    var total := Requested(dests);
    var (chosen, used) := Gather(pool, token, total, 0);
    GatherTotal(pool, token, total, 0);
    var change: u64 := used - total;
    SumOutputsConcat(dests, Change(change, src, token));
    assert SumOutputs(Change(change, src, token)) == change;
    WrapIsMod(Sum(chosen));
    WrapIsMod(SumOutputs(dests));
  }

  /** The list form pays each request as it was made, address, amount and token, in
      order, and at most one more output: the change, back to the source. */
  lemma ManyPaysEach(pool: seq<Utxo>, src: Address, dests: seq<Output>, token: TokenId)
    requires SelectMany(pool, src, dests, token).Some?
    ensures var outputs := SelectMany(pool, src, dests, token).value.outputs;
            var change := Wrap(Sum(Gather(pool, token, Requested(dests), 0).0)) - Requested(dests);
            && change >= 0 && |outputs| == |dests| + (if change > 0 then 1 else 0) && outputs[..|dests|] == dests
            && (change > 0 ==> outputs[|dests|] == Output(change, src, token))
  {
    GatherTotal(pool, token, Requested(dests), 0);
  }

  /** When the eligible coins fit in 64 bits, the list form succeeds exactly when
      they cover the 64-bit total of the requests and that is positive. */
  lemma ManySucceedsIff(pool: seq<Utxo>, src: Address, dests: seq<Output>, token: TokenId)
    requires Sum(EligibleCoins(pool, token)) < U64
    ensures SelectMany(pool, src, dests, token).Some? <==>
            0 < Requested(dests) <= Sum(EligibleCoins(pool, token))
  {
    var total, coins := Requested(dests), EligibleCoins(pool, token);
    GatherTotal(pool, token, total, 0);
    var chosen := Gather(pool, token, total, 0).0;
    PrefixSum(chosen, coins);
    if 0 < total <= Sum(coins) {
      assert chosen != [] by {
        assert chosen == [] ==> Wrap(0 + Sum(chosen)) == 0;
      }
    }
  }

  /** Three requests worth 2^64 + 1 together are granted from one coin of 1. */
  lemma OverflowingRequestGains(a: OutPoint, token: TokenId, src: Address, dest: Address)
    ensures var half: u64 := U64 / 2;
            var dests := [Output(half, dest, token), Output(half, dest, token), Output(1, dest, token)];
            && SelectMany([Utxo(a, 1, false, token)], src, dests, token) == Some(Params([a], dests))
            && SumOutputs(dests) == U64 + 1
  {
    var half: u64 := U64 / 2;
    var x, y, coin := Output(half, dest, token), Output(1, dest, token), Utxo(a, 1, false, token);
    var dests := [x, x, y];
    assert dests[1..] == [x, y] && [x, y][1..] == [y] && [y][1..] == [];
    assert SumOutputs([y]) == 1;
    assert SumOutputs([x, y]) == half + 1;
    assert Wrap(U64 + 1) == Wrap(1) == 1;
    assert [coin][1..] == [];
    var rest := Gather([coin][1..], token, 1, Wrap(0 + 1));
    assert rest.0 == [] && rest.1 == 1;
    assert Gather([coin], token, 1, 0).0 == [coin] + rest.0 == [coin];
    assert Gather([coin], token, 1, 0).1 == 1;
    assert Points([coin]) == [a];
    assert dests + Change(0, src, token) == dests;
  }

  /** Beyond 64 bits exactness fails: two coins worth 2^64 together cannot pay
      2^64 - 1, because the running total wraps to zero. */
  lemma OverflowingPoolFails(a: OutPoint, b: OutPoint, token: TokenId, src: Address, dest: Address)
    ensures var pool := [Utxo(a, U64 - 2, false, token), Utxo(b, 2, false, token)];
            && Sum(EligibleCoins(pool, token)) == U64
            && SelectOne(pool, src, U64 - 1, dest, token) == None
  {
    var first, second := Utxo(a, U64 - 2, false, token), Utxo(b, 2, false, token);
    var pool := [first, second];
    assert pool[1..] == [second] && [second][1..] == [];
    assert EligibleCoins([second], token) == [second] + EligibleCoins([], token);
    assert EligibleCoins(pool, token) == [first] + EligibleCoins([second], token);
    assert EligibleCoins(pool, token) == pool;
    assert Sum([second]) == 2;
    assert Gather([second], token, U64 - 1, U64 - 2).1 == Gather([], token, U64 - 1, 0).1 == 0;
    assert Gather(pool, token, U64 - 1, 0).1 == Gather([second], token, U64 - 1, U64 - 2).1;
  }

  // ------------------------------------------------ facts the ledger uses

  /** Eligible coins are unlocked coins of the pool. */
  lemma {:induction false} EligibleFromPool(pool: seq<Utxo>, token: TokenId, u: Utxo)
    ensures u in EligibleCoins(pool, token) <==> u in pool && Eligible(u, token)
  {
    if pool != [] {
      EligibleFromPool(pool[1..], token, u);
      assert pool == [pool[0]] + pool[1..];
    }
  }

  lemma {:induction false} EligibleDistinct(pool: seq<Utxo>, token: TokenId)
    requires Distinct(pool)
    ensures Distinct(EligibleCoins(pool, token))
  {
    if pool != [] {
      EligibleDistinct(pool[1..], token);
      forall u | u in EligibleCoins(pool[1..], token)
        ensures u.at != pool[0].at
      {
        EligibleFromPool(pool[1..], token, u);
      }
    }
  }

  /** Selected inputs name distinct, unlocked coins of the pool. */
  lemma SelectedInputs(pool: seq<Utxo>, src: Address, amount: u64, dest: Address, token: TokenId)
    returns (chosen: seq<Utxo>)
    requires Distinct(pool)
    ensures var r := SelectOne(pool, src, amount, dest, token);
            r.Some? ==>
              && r.value.inputs == Points(chosen)
              && Distinct(chosen)
              && chosen <= EligibleCoins(pool, token)
              && forall u :: u in chosen ==> u in pool && Eligible(u, token)
  {
    chosen := Gather(pool, token, amount, 0).0;
    GatherTotal(pool, token, amount, 0);
    EligibleDistinct(pool, token);
    forall u | u in chosen
      ensures u in pool && Eligible(u, token)
    {
      assert u in EligibleCoins(pool, token);
      EligibleFromPool(pool, token, u);
    }
  }
}
