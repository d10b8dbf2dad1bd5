/** What the migration leaves behind, and that it can be restarted at any point. */
module MigrationSafety {
  import opened Machine
  import opened Transactions
  import opened Migration

  // ------------------------------------------------ batches

  /** The batch that a run of entries spells. */
  function FirstWins(items: seq<Item>): Store {
    if items == [] then map[]
    else Joined(FirstWins(items[..|items| - 1]), items[|items| - 1])
  }

  /** The first `k` commits of a database, one over the other. */
  function Commits(items: seq<Item>, k: nat): Store
    requires BATCH_SIZE * k <= |items|
  {
    if k == 0 then map[]
    else Commits(items, k - 1) + FirstWins(items[BATCH_SIZE * (k - 1)..BATCH_SIZE * k])
  }

  /** How many full batches `n` entries make. */
  function Full(n: nat): (k: nat)
    ensures BATCH_SIZE * k <= n < BATCH_SIZE * k + BATCH_SIZE
  {
    n / BATCH_SIZE
  }

  lemma FullUnique(n: nat, k: nat)
    requires BATCH_SIZE * k <= n < BATCH_SIZE * k + BATCH_SIZE
    ensures Full(n) == k
  {
  }

  /** The entries after the last full batch. */
  function Rest(items: seq<Item>): seq<Item> { items[BATCH_SIZE * Full(|items|)..] }

  /** All commits of a database, the remainder included. */
  function Total(items: seq<Item>): Store {
    Commits(items, Full(|items|)) + FirstWins(Rest(items))
  }

  lemma MapAssociative(a: Store, b: Store, c: Store)
    ensures a + b + c == a + (b + c)
  {
  }

  lemma {:induction false} CommitsPrefix(items: seq<Item>, j: nat, k: nat)
    requires BATCH_SIZE * k <= j <= |items|
    ensures Commits(items[..j], k) == Commits(items, k)
  {
    hide FirstWins;
    if k > 0 {
      CommitsPrefix(items, j, k - 1);
      assert items[..j][BATCH_SIZE * (k - 1)..BATCH_SIZE * k] == items[BATCH_SIZE * (k - 1)..BATCH_SIZE * k];
    }
  }

  /** Where the loop stands after some entries: all full batches are committed
      and the batch under way spells the entries since. */
  ghost predicate StandsAt(store: Store, items: seq<Item>, p: Progress) {
    && p.store == store + Commits(items, Full(|items|))
    && p.batch == FirstWins(Rest(items))
    && p.count == |Rest(items)|
  }

  /** One more entry inside a batch. */
  lemma StandsInside(store: Store, items: seq<Item>, n: nat, p: Progress)
    requires |items| == n + 1 && n + 1 < BATCH_SIZE * Full(n) + BATCH_SIZE
    requires StandsAt(store, items[..n], p)
    ensures StandsAt(store, items, StepItem(p, items[n]))
  {
    hide Full, Commits;
    var k := Full(n);
    FullUnique(n + 1, k);
    CommitsPrefix(items, n, k);
    assert Rest(items)[..|Rest(items)| - 1] == Rest(items[..n]);
  }

  lemma FirstWinsStep(items: seq<Item>)
    requires items != []
    ensures FirstWins(items) == Joined(FirstWins(items[..|items| - 1]), items[|items| - 1])
  {
  }

  /** The entry that fills batch `k`. */
  lemma BatchFilled(items: seq<Item>, n: nat, k: nat)
    requires |items| == n + 1 == BATCH_SIZE * k + BATCH_SIZE && Full(n) == k
    ensures Full(n + 1) == k + 1 && Rest(items) == []
    ensures Commits(items, k + 1) == Commits(items[..n], k) + Joined(FirstWins(Rest(items[..n])), items[n])
  {
    hide Joined, Full, FirstWins;
    FullUnique(n + 1, k + 1);
    CommitsPrefix(items, n, k);
    var batch := items[BATCH_SIZE * k..BATCH_SIZE * (k + 1)];
    assert batch[..|batch| - 1] == Rest(items[..n]) && batch[|batch| - 1] == items[n];
    FirstWinsStep(batch);
  }

  lemma StandsAtCommit(store: Store, items: seq<Item>, n: nat, p: Progress)
    requires |items| == n + 1 == BATCH_SIZE * Full(n) + BATCH_SIZE
    requires StandsAt(store, items[..n], p)
    ensures StandsAt(store, items, StepItem(p, items[n]))
  {
    var k := Full(n);
    BatchFilled(items, n, k);
    hide Full, Commits, Joined, Rest;
    MapAssociative(store, Commits(items[..n], k), Joined(p.batch, items[n]));
  }

  lemma {:induction false} LoopIsBatches(store: Store, items: seq<Item>)
    ensures StandsAt(store, items, RunItems(Fresh(store), items))
  {
    hide StepItem, Joined;
    if items == [] {
      FullUnique(0, 0);
    } else {
      var n := |items| - 1;
      LoopIsBatches(store, items[..n]);
      var p := RunItems(Fresh(store), items[..n]);
      if n + 1 < BATCH_SIZE * Full(n) + BATCH_SIZE {
        StandsInside(store, items, n, p);
      } else {
        StandsAtCommit(store, items, n, p);
      }
    }
  }

  lemma CloseIsTotal(store: Store, items: seq<Item>)
    ensures Close(RunItems(Fresh(store), items)) == Fresh(store + Total(items))
  {
    hide RunItems, Full, Commits;
    LoopIsBatches(store, items);
    NothingPendingAtZero(store, items);
    MapAssociative(store, Commits(items, Full(|items|)), FirstWins(Rest(items)));
    if Rest(items) == [] {
      assert Total(items) == Commits(items, Full(|items|));
    }
  }

  /** A clean migration lays both databases' commits over the store. */
  lemma ApplyIsTotal(store: Store, outs: seq<Item>, ins: seq<Item>)
    ensures ApplyAll(store, outs, ins) == store + (Total(outs) + Total(ins))
  {
    hide RunItems, Total, Close;
    CloseIsTotal(store, outs);
    CloseIsTotal(store + Total(outs), ins);
    MapAssociative(store, Total(outs), Total(ins));
  }

  // ------------------------------------------------ interruption and restart

  /** Where a migration can be cut short. */
  datatype Cut = InOuts(j: nat) | InIns(j: nat) | BeforeMarker

  predicate Within(c: Cut, outs: seq<Item>, ins: seq<Item>) {
    match c
    case InOuts(j) => j <= |outs|
    case InIns(j) => j <= |ins|
    case BeforeMarker => true
  }

  /** What is in the store after a cut: the batch under way is lost. */
  function Interrupted(store: Store, outs: seq<Item>, ins: seq<Item>, c: Cut): Store
    requires Within(c, outs, ins)
  {
    match c
    case InOuts(j) => RunItems(Fresh(store), outs[..j]).store
    case InIns(j) => RunItems(Close(RunItems(Fresh(store), outs)), ins[..j]).store
    case BeforeMarker => ApplyAll(store, outs, ins)
  }

  function InterruptedAll(store: Store, outs: seq<Item>, ins: seq<Item>, cuts: seq<Cut>): Store
    requires forall c :: c in cuts ==> Within(c, outs, ins)
  {
    if cuts == [] then store
    else Interrupted(InterruptedAll(store, outs, ins, cuts[..|cuts| - 1]), outs, ins, cuts[|cuts| - 1])
  }

  lemma {:induction false} CommitsKeys(items: seq<Item>, j: nat, k: nat)
    requires BATCH_SIZE * j <= BATCH_SIZE * k <= |items|
    ensures Commits(items, j).Keys <= Commits(items, k).Keys
    decreases k - j
  {
    hide FirstWins;
    if j < k {
      CommitsKeys(items, j, k - 1);
    }
  }

  /** The commits made within the first `j` entries. */
  function DoneBy(items: seq<Item>, j: nat): Store
    requires j <= |items|
  {
    Commits(items[..j], Full(j))
  }

  lemma FullMonotone(j: nat, n: nat)
    requires j <= n
    ensures Full(j) <= Full(n)
  {
  }

  lemma DoneByKeys(items: seq<Item>, j: nat)
    requires j <= |items|
    ensures DoneBy(items, j).Keys <= Total(items).Keys
  {
    hide Full, Commits, FirstWins;
    CommitsPrefix(items, j, Full(j));
    FullMonotone(j, |items|);
    CommitsKeys(items, Full(j), Full(|items|));
  }

  lemma CutInOuts(store: Store, items: seq<Item>, j: nat)
    requires j <= |items|
    ensures RunItems(Fresh(store), items[..j]).store == store + DoneBy(items, j)
  {
    hide RunItems, Full, Commits, FirstWins;
    LoopIsBatches(store, items[..j]);
  }

  /** An interrupted migration has written only keys that a complete one writes. */
  lemma InterruptedWrites(store: Store, outs: seq<Item>, ins: seq<Item>, c: Cut) returns (done: Store)
    requires Within(c, outs, ins)
    ensures Interrupted(store, outs, ins, c) == store + done
    ensures done.Keys <= (Total(outs) + Total(ins)).Keys
  {
    hide RunItems, Total, DoneBy, Close, ApplyAll;
    match c
    case InOuts(j) =>
      CutInOuts(store, outs, j);
      DoneByKeys(outs, j);
      done := DoneBy(outs, j);
    case InIns(j) =>
      CloseIsTotal(store, outs);
      CutInOuts(store + Total(outs), ins, j);
      DoneByKeys(ins, j);
      done := Total(outs) + DoneBy(ins, j);
      MapAssociative(store, Total(outs), DoneBy(ins, j));
    case BeforeMarker =>
      ApplyIsTotal(store, outs, ins);
      done := Total(outs) + Total(ins);
  }

  lemma Overwrites(store: Store, done: Store, total: Store)
    requires done.Keys <= total.Keys
    ensures store + done + total == store + total
  {
  }

  /** Restart safety: however often and wherever earlier attempts were cut short,
      a complete migration ends in the same store as one clean run. */
  lemma {:induction false} RestartSafe(store: Store, outs: seq<Item>, ins: seq<Item>, cuts: seq<Cut>)
    requires forall c :: c in cuts ==> Within(c, outs, ins)
    ensures ApplyAll(InterruptedAll(store, outs, ins, cuts), outs, ins) == ApplyAll(store, outs, ins)
  {
    hide ApplyAll, Interrupted, Total;
    if cuts != [] {
      var n := |cuts| - 1;
      RestartSafe(store, outs, ins, cuts[..n]);
      var before := InterruptedAll(store, outs, ins, cuts[..n]);
      var done := InterruptedWrites(before, outs, ins, cuts[n]);
      ApplyIsTotal(before, outs, ins);
      ApplyIsTotal(before + done, outs, ins);
      Overwrites(before, done, Total(outs) + Total(ins));
    }
  }

  // ------------------------------------------------ which entry is kept

  ghost predicate FirstFor(items: seq<Item>, p: Path, i: nat) {
    && i < |items| && PathOf(items[i].tx) == p
    && forall j :: 0 <= j < i ==> PathOf(items[j].tx) != p
  }

  /** A batch holds a transaction exactly for the paths of its entries, namely the
      first entry for the path, and with it the proof of that same entry. */
  lemma {:induction false} BatchKeepsFirst(items: seq<Item>, p: Path)
    ensures TxKey(p) in FirstWins(items) <==> exists i: nat :: FirstFor(items, p, i)
    ensures TxKey(p) in FirstWins(items) <==> ProofKey(p) in FirstWins(items)
    ensures forall i: nat :: FirstFor(items, p, i) ==>
              && TxKey(p) in FirstWins(items) && FirstWins(items)[TxKey(p)] == TxBlob(items[i].tx)
              && ProofKey(p) in FirstWins(items) && FirstWins(items)[ProofKey(p)] == ProofBlob(items[i].proof)
  {
    hide PathOf;
    if items != [] {
      var n := |items| - 1;
      var before := items[..n];
      BatchKeepsFirst(before, p);
      forall i: nat | FirstFor(before, p, i)
        ensures FirstFor(items, p, i)
      {
      }
      forall i: nat | FirstFor(items, p, i) && i < n
        ensures FirstFor(before, p, i)
      {
      }
      if PathOf(items[n].tx) == p && TxKey(p) !in FirstWins(before) {
        NoneBefore(before, p);
        assert FirstFor(items, p, n);
      }
    }
  }

  lemma {:induction false} FindFirst(items: seq<Item>, p: Path, j: nat) returns (i: nat)
    requires j < |items| && PathOf(items[j].tx) == p
    ensures FirstFor(items, p, i)
    decreases j
  {
    hide PathOf;
    if k: nat :| k < j && PathOf(items[k].tx) == p {
      i := FindFirst(items, p, k);
    } else {
      i := j;
    }
  }

  lemma NoneBefore(items: seq<Item>, p: Path)
    ensures (exists i: nat :: FirstFor(items, p, i)) || forall j :: 0 <= j < |items| ==> PathOf(items[j].tx) != p
  {
    if j: nat :| j < |items| && PathOf(items[j].tx) == p {
      var i := FindFirst(items, p, j);
    }
  }

  /** Entry `i` is the first of its batch for the path, and no later batch holds
      the path. */
  ghost predicate Winner(items: seq<Item>, p: Path, i: nat) {
    && i < |items| && PathOf(items[i].tx) == p
    && (forall j :: 0 <= j < i && j / BATCH_SIZE == i / BATCH_SIZE ==> PathOf(items[j].tx) != p)
    && (forall j :: 0 <= j < |items| && j / BATCH_SIZE > i / BATCH_SIZE ==> PathOf(items[j].tx) != p)
  }

  /** The entries of batch `k`. */
  function Chunk(items: seq<Item>, k: nat): seq<Item>
    requires BATCH_SIZE * k <= |items|
  {
    if |items| <= BATCH_SIZE * (k + 1) then items[BATCH_SIZE * k..]
    else items[BATCH_SIZE * k..BATCH_SIZE * (k + 1)]
  }

  lemma WinnerInChunk(items: seq<Item>, p: Path, i: nat, k: nat)
    requires Winner(items, p, i) && BATCH_SIZE * k <= |items| && k >= i / BATCH_SIZE
    ensures k == i / BATCH_SIZE ==> FirstFor(Chunk(items, k), p, i - BATCH_SIZE * k)
    ensures k > i / BATCH_SIZE ==> forall j: nat :: !FirstFor(Chunk(items, k), p, j)
  {
    var c := Chunk(items, k);
    forall j | 0 <= j < |c|
      ensures c[j] == items[BATCH_SIZE * k + j] && (BATCH_SIZE * k + j) / BATCH_SIZE == k
    {
    }
  }

  /** The commits from batch `i / 50` on leave the winner in place. */
  lemma {:induction false} WinnerSurvives(items: seq<Item>, p: Path, i: nat, k: nat)
    requires Winner(items, p, i) && BATCH_SIZE * k <= |items| && k > i / BATCH_SIZE
    ensures var s := Commits(items, k);
            && TxKey(p) in s && s[TxKey(p)] == TxBlob(items[i].tx)
            && ProofKey(p) in s && s[ProofKey(p)] == ProofBlob(items[i].proof)
  {
    hide FirstWins, PathOf, FirstFor;
    WinnerInChunk(items, p, i, k - 1);
    BatchKeepsFirst(Chunk(items, k - 1), p);
    assert Chunk(items, k - 1) == items[BATCH_SIZE * (k - 1)..BATCH_SIZE * k];
    if k - 1 > i / BATCH_SIZE {
      WinnerSurvives(items, p, i, k - 1);
    }
  }

  /** Which entry a migrated database ends with: for every path the first entry of
      the last batch that mentions it, together with that entry's proof. */
  lemma WinnerIsStored(items: seq<Item>, p: Path, i: nat)
    requires Winner(items, p, i)
    ensures var s := Total(items);
            && TxKey(p) in s && s[TxKey(p)] == TxBlob(items[i].tx)
            && ProofKey(p) in s && s[ProofKey(p)] == ProofBlob(items[i].proof)
  {
    var k := Full(|items|);
    assert Rest(items) == Chunk(items, k);
    WinnerInChunk(items, p, i, k);
    BatchKeepsFirst(Chunk(items, k), p);
    if k > i / BATCH_SIZE {
      WinnerSurvives(items, p, i, k);
    }
  }

  /** Every path that occurs has a winner. */
  lemma {:induction false} WinnerExists(items: seq<Item>, p: Path, n: nat) returns (i: nat)
    requires n <= |items| && exists j :: 0 <= j < n && PathOf(items[j].tx) == p
    ensures Winner(items[..n], p, i)
  {
    hide PathOf;
    if PathOf(items[n - 1].tx) == p && !SameBatch(items, p, n - 1) {
      i := n - 1;
    } else {
      assert exists j :: 0 <= j < n - 1 && PathOf(items[j].tx) == p;
      i := WinnerExists(items, p, n - 1);
      var shorter, longer := items[..n - 1], items[..n];
      assert forall j :: 0 <= j < n - 1 ==> shorter[j] == longer[j];
      if PathOf(items[n - 1].tx) == p {
        var j :| 0 <= j < n - 1 && j / BATCH_SIZE == (n - 1) / BATCH_SIZE && PathOf(items[j].tx) == p;
        assert shorter[j].tx == items[j].tx;
      }
    }
  }

  /** Whether an earlier entry of the same batch has the path. */
  ghost predicate SameBatch(items: seq<Item>, p: Path, n: nat)
    requires n < |items|
  {
    exists j :: 0 <= j < n && j / BATCH_SIZE == n / BATCH_SIZE && PathOf(items[j].tx) == p
  }

  // ------------------------------------------------ both databases

  ghost predicate Occurs(items: seq<Item>, p: Path) {
    exists j :: 0 <= j < |items| && PathOf(items[j].tx) == p
  }

  lemma AbsentFromBatch(items: seq<Item>, p: Path)
    requires !Occurs(items, p)
    ensures TxKey(p) !in FirstWins(items) && ProofKey(p) !in FirstWins(items)
  {
    hide FirstWins, PathOf;
    BatchKeepsFirst(items, p);
    forall i: nat
      ensures !FirstFor(items, p, i)
    {
    }
  }

  lemma {:induction false} AbsentFromCommits(items: seq<Item>, p: Path, k: nat)
    requires !Occurs(items, p) && BATCH_SIZE * k <= |items|
    ensures TxKey(p) !in Commits(items, k) && ProofKey(p) !in Commits(items, k)
  {
    hide FirstWins, PathOf;
    if k > 0 {
      AbsentFromCommits(items, p, k - 1);
      var batch := items[BATCH_SIZE * (k - 1)..BATCH_SIZE * k];
      assert forall j :: 0 <= j < |batch| ==> batch[j] == items[BATCH_SIZE * (k - 1) + j];
      AbsentFromBatch(batch, p);
    }
  }

  /** A database that does not mention a path writes nothing there. */
  lemma AbsentFromTotal(items: seq<Item>, p: Path)
    requires !Occurs(items, p)
    ensures TxKey(p) !in Total(items) && ProofKey(p) !in Total(items)
  {
    hide FirstWins, PathOf, Full, Commits;
    var k := Full(|items|);
    AbsentFromCommits(items, p, k);
    assert forall j :: 0 <= j < |Rest(items)| ==> Rest(items)[j] == items[BATCH_SIZE * k + j];
    AbsentFromBatch(Rest(items), p);
  }

  /** The entry that decides a path: the winner of the incoming database, or of the
      outgoing one when the incoming one does not mention the path. */
  ghost predicate Decides(outs: seq<Item>, ins: seq<Item>, p: Path, item: Item) {
    if Occurs(ins, p) then exists i: nat :: Winner(ins, p, i) && ins[i] == item
    else exists i: nat :: Winner(outs, p, i) && outs[i] == item
  }

  lemma DeciderExists(outs: seq<Item>, ins: seq<Item>, p: Path) returns (item: Item)
    requires Occurs(outs, p) || Occurs(ins, p)
    ensures Decides(outs, ins, p, item)
  {
    hide PathOf, Winner;
    var items := if Occurs(ins, p) then ins else outs;
    assert items[..|items|] == items;
    var i := WinnerExists(items, p, |items|);
    assert i < |items| by { assert Winner(items, p, i); WinnerBound(items, p, i); }
    item := items[i];
  }

  lemma WinnerBound(items: seq<Item>, p: Path, i: nat)
    requires Winner(items, p, i)
    ensures i < |items|
  {
  }

  /** A whole migration leaves, for every path, the deciding entry with its own
      proof, and the old value where neither database mentions the path. */
  lemma MigratedEntry(store: Store, outs: seq<Item>, ins: seq<Item>, p: Path, item: Item)
    requires Decides(outs, ins, p, item)
    ensures var s := ApplyAll(store, outs, ins);
            && TxKey(p) in s && s[TxKey(p)] == TxBlob(item.tx)
            && ProofKey(p) in s && s[ProofKey(p)] == ProofBlob(item.proof)
  {
    hide Total, ApplyAll, PathOf;
    ApplyIsTotal(store, outs, ins);
    if Occurs(ins, p) {
      var i: nat :| Winner(ins, p, i) && ins[i] == item;
      WinnerIsStored(ins, p, i);
    } else {
      var i: nat :| Winner(outs, p, i) && outs[i] == item;
      WinnerIsStored(outs, p, i);
      AbsentFromTotal(ins, p);
    }
  }

  lemma UnmentionedStays(store: Store, outs: seq<Item>, ins: seq<Item>, p: Path)
    requires !Occurs(outs, p) && !Occurs(ins, p)
    ensures TxKey(p) in ApplyAll(store, outs, ins) <==> TxKey(p) in store
    ensures TxKey(p) in store ==> ApplyAll(store, outs, ins)[TxKey(p)] == store[TxKey(p)]
  {
    hide Total, ApplyAll, Occurs;
    ApplyIsTotal(store, outs, ins);
    AbsentFromTotal(outs, p);
    AbsentFromTotal(ins, p);
  }

  /** No candidate for the path is older than `tx`. */
  ghost predicate Oldest(outs: seq<Item>, ins: seq<Item>, p: Path, tx: Tx) {
    forall c :: c in outs + ins && PathOf(c.tx) == p ==> tx.dag.timestamp <= c.tx.dag.timestamp
  }

  /** What the comparison of timestamps was written for: after a migration the
      stored transaction is an oldest candidate if and only if the deciding entry,
      which positions alone select, happens to be one. */
  lemma OldestKeptIff(store: Store, outs: seq<Item>, ins: seq<Item>, p: Path, item: Item)
    requires Decides(outs, ins, p, item)
    ensures var s := ApplyAll(store, outs, ins);
            && TxKey(p) in s && s[TxKey(p)].TxBlob?
            && (Oldest(outs, ins, p, s[TxKey(p)].tx) <==> Oldest(outs, ins, p, item.tx))
  {
    hide ApplyAll, Decides, PathOf, Oldest;
    MigratedEntry(store, outs, ins, p, item);
  }

  /** The timestamp does not decide: of two entries for one path in a batch the
      first is kept even when the second is older, which is the opposite of what
      the comparison was written for. */
  lemma LaterTimestampKept(a: Item, b: Item)
    requires PathOf(a.tx) == PathOf(b.tx) && a.tx.dag.timestamp > b.tx.dag.timestamp
    ensures TxKey(PathOf(b.tx)) in Total([a, b])
    ensures Total([a, b])[TxKey(PathOf(b.tx))] == TxBlob(a.tx) != TxBlob(b.tx)
  {
    assert Winner([a, b], PathOf(a.tx), 0);
    WinnerIsStored([a, b], PathOf(a.tx), 0);
  }
}
