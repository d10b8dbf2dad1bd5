/** Whether a database key is parsed at most once. A check skips keys it has marked;
    a send parses its batch without looking at the marks. */
module KeysOnce {
  import opened Machine
  import opened Tokens
  import opened Transactions
  import opened CoinSelection
  import opened Replay
  import opened Node
  import opened NodeSafety
  import opened NodeRuns

  /** No two parsed transactions lie under one path. */
  ghost predicate PathsOnce(log: seq<Tx>) {
    forall i, j :: 0 <= i < j < |log| ==> PathOf(log[i]) != PathOf(log[j])
  }

  predicate UsesPath(log: seq<Tx>, p: Path) {
    exists i :: 0 <= i < |log| && PathOf(log[i]) == p
  }

  /** Own marks come from parsed transactions, and only from them. */
  ghost predicate MarksLogged(s: State) {
    forall p: Path :: p.address == s.me ==> (p in s.outgoing <==> UsesPath(s.log, p))
  }

  lemma AppendOnceIff(log: seq<Tx>, tx: Tx)
    requires PathsOnce(log)
    ensures PathsOnce(log + [tx]) <==> !UsesPath(log, PathOf(tx))
  {
    hide PathOf;
    var more := log + [tx];
    assert forall i :: 0 <= i < |log| ==> more[i] == log[i];
    if UsesPath(log, PathOf(tx)) {
      var i :| 0 <= i < |log| && PathOf(log[i]) == PathOf(tx);
      assert PathOf(more[i]) == PathOf(more[|log|]);
    }
  }

  lemma AppendUses(log: seq<Tx>, tx: Tx, p: Path)
    ensures UsesPath(log + [tx], p) <==> UsesPath(log, p) || PathOf(tx) == p
  {
    hide PathOf;
    var more := log + [tx];
    assert more[|log|] == tx && forall i :: 0 <= i < |log| ==> more[i] == log[i];
    if UsesPath(log, p) {
      var i :| 0 <= i < |log| && PathOf(log[i]) == p;
      assert PathOf(more[i]) == p;
    }
  }

  // ------------------------------------------------ checks

  /** A check of a key that is not marked finds a path not used before. */
  lemma UnmarkedIsUnused(s: State, p: Path)
    requires Inv(s) && MarksLogged(s)
    requires if p.address == s.me then p !in s.outgoing else p !in s.incoming
    ensures !UsesPath(s.log, p)
  {
    forall i | 0 <= i < |s.log|
      ensures PathOf(s.log[i]) != p
    {
      assert Marked(s.me, s.outgoing, s.incoming, s.log[i]);
    }
  }

  lemma CheckInOneOnce(s: State, p: Path)
    requires Inv(s) && MarksLogged(s) && p.address != s.me
    ensures MarksLogged(CheckInOne(s, p))
    ensures PathsOnce(s.log) ==> PathsOnce(CheckInOne(s, p).log)
  {
    hide Apply, UsesPath, PathsOnce;
    if p !in s.incoming && Fetchable(s.db, p) {
      var tx := s.db[p].tx;
      assert PathOf(tx) == p;
      UnmarkedIsUnused(s, p);
      if PathsOnce(s.log) {
        AppendOnceIff(s.log, tx);
      }
      forall q: Path | q.address == s.me
        ensures UsesPath(s.log + [tx], q) <==> UsesPath(s.log, q)
      {
        AppendUses(s.log, tx, q);
      }
    }
  }

  lemma CheckOutOneOnce(s: State, p: Path)
    requires Inv(s) && MarksLogged(s) && p.address == s.me
    ensures MarksLogged(CheckOutOne(s, p))
    ensures PathsOnce(s.log) ==> PathsOnce(CheckOutOne(s, p).log)
  {
    hide Apply, UsesPath, PathsOnce;
    if p !in s.outgoing && Fetchable(s.db, p) {
      var tx := s.db[p].tx;
      assert PathOf(tx) == p;
      UnmarkedIsUnused(s, p);
      if PathsOnce(s.log) {
        AppendOnceIff(s.log, tx);
      }
      MarkLogs(s, tx, CheckOutOne(s, p));
    }
  }

  lemma MarkLogs(s: State, tx: Tx, s': State)
    requires MarksLogged(s) && s'.me == s.me && s'.log == s.log + [tx]
    requires s'.outgoing == s.outgoing[PathOf(tx) := tx]
    ensures MarksLogged(s')
  {
    hide UsesPath;
    forall p: Path | p.address == s.me
      ensures p in s'.outgoing <==> UsesPath(s'.log, p)
    {
      AppendUses(s.log, tx, p);
    }
  }

  lemma {:induction false} CheckIncomingOnce(s: State, keys: seq<Path>)
    requires Inv(s) && MarksLogged(s) && forall p :: p in keys ==> p.address != s.me
    ensures MarksLogged(CheckIncoming(s, keys))
    ensures PathsOnce(s.log) ==> PathsOnce(CheckIncoming(s, keys).log)
    decreases |keys|
  {
    hide Inv, MarksLogged, PathsOnce;
    if keys != [] {
      CheckInOneOnce(s, keys[0]);
      CheckInOneKeeps(s, keys[0]);
      CheckIncomingOnce(CheckInOne(s, keys[0]), keys[1..]);
    }
  }

  lemma {:induction false} CheckOutgoingOnce(s: State, keys: seq<Path>)
    requires Inv(s) && MarksLogged(s) && forall p :: p in keys ==> p.address == s.me
    ensures MarksLogged(CheckOutgoing(s, keys))
    ensures PathsOnce(s.log) ==> PathsOnce(CheckOutgoing(s, keys).log)
    decreases |keys|
  {
    hide Inv, MarksLogged, PathsOnce;
    if keys != [] {
      CheckOutOneOnce(s, keys[0]);
      CheckOutOneKeeps(s, keys[0]);
      CheckOutgoingOnce(CheckOutOne(s, keys[0]), keys[1..]);
    }
  }

  // ------------------------------------------------ sends

  /** Some path of a batch is marked already. */
  ghost predicate Collides(s: State, batch: seq<Tx>) {
    exists t :: t in batch && PathOf(t) in s.outgoing
  }

  /** Parsing a batch of our own with increasing nonces. */
  lemma {:induction false} BatchOnceIff(s: State, batch: seq<Tx>)
    requires MarksLogged(s) && Increasing(batch)
    requires forall t :: t in batch ==> Parsable(t) && t.dag.source == s.me
    ensures MarksLogged(ParseBatch(s, batch)) && s.log <= ParseBatch(s, batch).log
    ensures PathsOnce(s.log) ==> (PathsOnce(ParseBatch(s, batch).log) <==> !Collides(s, batch))
    decreases |batch|
  {
    hide Apply, UsesPath, PathsOnce;
    if batch != [] {
      var tx, rest := batch[0], batch[1..];
      var next := ParseOutgoing(s, tx);
      assert tx in batch && forall t :: t in rest ==> t in batch;
      forall i, j | 0 <= i < j < |rest|
        ensures rest[i].dag.nonce < rest[j].dag.nonce
      {
        assert rest[i] == batch[i + 1] && rest[j] == batch[j + 1];
      }
      MarkLogs(s, tx, next);
      BatchOnceIff(next, rest);
      CollidesStep(s, batch, next);
      if PathsOnce(s.log) {
        AppendOnceIff(s.log, tx);
        if !PathsOnce(next.log) {
          OncePrefix(next.log, ParseBatch(next, rest).log);
        }
      }
    }
  }

  lemma CollidesStep(s: State, batch: seq<Tx>, next: State)
    requires batch != [] && Increasing(batch) && next.outgoing == s.outgoing[PathOf(batch[0]) := batch[0]]
    ensures Collides(s, batch) <==> PathOf(batch[0]) in s.outgoing || Collides(next, batch[1..])
  {
    var rest := batch[1..];
    forall t | t in rest
      ensures t in batch && PathOf(t) != PathOf(batch[0])
    {
      var i :| 0 <= i < |rest| && rest[i] == t;
      assert batch[i + 1] == t;
    }
    assert batch[0] in batch && forall t :: t in batch ==> t == batch[0] || t in rest;
  }

  lemma OncePrefix(log: seq<Tx>, longer: seq<Tx>)
    requires log <= longer && !PathsOnce(log)
    ensures !PathsOnce(longer)
  {
    var i, j :| 0 <= i < j < |log| && PathOf(log[i]) == PathOf(log[j]);
    assert longer[i] == log[i] && longer[j] == log[j];
  }

  lemma SubIncreasing(batch: seq<Tx>, rest: seq<Tx>)
    requires Increasing(batch + rest)
    ensures Increasing(batch)
  {
    forall i, j | 0 <= i < j < |batch|
      ensures batch[i].dag.nonce < batch[j].dag.nonce
    {
      assert (batch + rest)[i] == batch[i] && (batch + rest)[j] == batch[j];
    }
  }

  /** A send keeps every path parsed at most once if and only if no path of its
      batch is marked. */
  lemma SendOnceIff(s: State, fate: Fate)
    requires Inv(s) && MarksLogged(s)
    ensures MarksLogged(Send(s, fate))
    ensures PathsOnce(s.log) ==>
            (PathsOnce(Send(s, fate).log) <==> s.queue == [] || fate == PutRefused || !Collides(s, s.queue[0]))
  {
    hide PathsOnce, UsesPath;
    if s.queue != [] {
      var batch, rest := s.queue[0], Flat(s.queue[1..]);
      assert Flat(s.queue) == batch + rest;
      SubIncreasing(batch, rest);
      forall t | t in batch
        ensures Parsable(t) && t.dag.source == s.me
      {
        assert t in Flat(s.queue);
        assert Waiting(s.me, s.nonce, s.log, t);
      }
      var popped := s.(queue := s.queue[1..]);
      var written := popped.(db := Written(s.db, batch));
      BatchOnceIff(popped, batch);
      BatchOnceIff(written, batch);
    }
  }

  // ------------------------------------------------ steps and runs

  /** The guard that a send does not have: the batch it parses is not marked. */
  ghost predicate Clear(s: State, a: Action) {
    a.DoSend? && s.queue != [] && a.fate != PutRefused ==> !Collides(s, s.queue[0])
  }

  ghost predicate AllClear(s: State, actions: seq<Action>)
    requires Runs(s, actions)
    decreases |actions|
  {
    actions == [] || (Clear(s, actions[0]) && AllClear(Step(s, actions[0]), actions[1..]))
  }

  lemma StepOnceIff(s: State, a: Action)
    requires Inv(s) && MarksLogged(s) && Enabled(s, a) && Guarded([a])
    ensures MarksLogged(Step(s, a))
    ensures PathsOnce(s.log) ==> (PathsOnce(Step(s, a).log) <==> Clear(s, a))
  {
    hide Inv, PathsOnce, UsesPath;
    match a
    case DoSend(fate) => SendOnceIff(s, fate);
    case DoCheckIncoming(keys) => CheckIncomingOnce(s, keys);
    case DoCheckOutgoing(keys) => CheckOutgoingOnce(s, keys);
    case _ =>
  }

  lemma {:induction false} RunOnceIff(s: State, actions: seq<Action>)
    requires Inv(s) && MarksLogged(s) && PathsOnce(s.log) && Runs(s, actions) && Guarded(actions)
    ensures PathsOnce(Run(s, actions).log) <==> AllClear(s, actions)
    decreases |actions|
  {
    hide Inv, MarksLogged, PathsOnce, Step, Clear;
    if actions != [] {
      var a, rest := actions[0], actions[1..];
      assert a in actions && Guarded([a]) && Guarded(rest);
      StepOnceIff(s, a);
      StepKeeps(s, a);
      if Clear(s, a) {
        RunOnceIff(Step(s, a), rest);
      } else {
        RunExtends(Step(s, a), rest);
        OncePrefix(Step(s, a).log, Run(Step(s, a), rest).log);
      }
    }
  }

  /** Each database key is parsed at most once in a guarded run if and only if no
      send of the run parses a batch with a path already marked. */
  lemma KeysParsedOnceIff(me: Address, db: Database, inKeys: seq<Path>, outKeys: seq<Path>, actions: seq<Action>)
    requires Started(me, db, inKeys, outKeys) && Runs(Start(me, db, inKeys, outKeys), actions)
    requires Filed(db) && Guarded(actions)
    ensures PathsOnce(Run(Start(me, db, inKeys, outKeys), actions).log) <==>
            AllClear(Start(me, db, inKeys, outKeys), actions)
  {
    var s := Init(me, db);
    assert Inv(s) && MarksLogged(s) && PathsOnce(s.log);
    hide Inv, MarksLogged, PathsOnce, AllClear;
    CheckIncomingOnce(s, inKeys);
    CheckIncomingKeeps(s, inKeys);
    CheckOutgoingOnce(CheckIncoming(s, inKeys), outKeys);
    StartEstablishes(me, db, inKeys, outKeys);
    RunOnceIff(Start(me, db, inKeys, outKeys), actions);
  }

  // ------------------------------------------------ a node alone with its key

  /** Nobody else writes under our own address. */
  ghost predicate OwnKeysUntouched(me: Address, actions: seq<Action>) {
    forall a :: a in actions && a.Replicate? ==> a.path.address != me
  }

  /** Then every own entry that can be parsed is marked, and nothing queued is. */
  ghost predicate Alone(s: State) {
    && (forall p: Path :: p.address == s.me && Fetchable(s.db, p) ==> p in s.outgoing)
    && (forall t :: t in Flat(s.queue) ==> PathOf(t) !in s.outgoing)
  }

  predicate InBatch(batch: seq<Tx>, p: Path) {
    exists i :: 0 <= i < |batch| && PathOf(batch[i]) == p
  }

  lemma InBatchStep(batch: seq<Tx>, p: Path)
    requires batch != []
    ensures InBatch(batch, p) <==> PathOf(batch[0]) == p || InBatch(batch[1..], p)
  {
    hide PathOf;
    assert forall i :: 0 <= i < |batch[1..]| ==> batch[1..][i] == batch[i + 1];
    if InBatch(batch, p) && PathOf(batch[0]) != p {
      var i :| 0 <= i < |batch| && PathOf(batch[i]) == p;
      assert PathOf(batch[1..][i - 1]) == p;
    }
  }

  /** Parsing and writing a batch touch the paths of the batch only. */
  lemma {:induction false} BatchTouches(s: State, batch: seq<Tx>, p: Path)
    ensures p in ParseBatch(s, batch).outgoing ==> p in s.outgoing || InBatch(batch, p)
    decreases |batch|
  {
    hide Apply, InBatch;
    if batch != [] && Parsable(batch[0]) {
      InBatchStep(batch, p);
      BatchTouches(ParseOutgoing(s, batch[0]), batch[1..], p);
    }
  }

  lemma {:induction false} WriteTouches(db: Database, batch: seq<Tx>, p: Path)
    ensures p in Written(db, batch) && !InBatch(batch, p) ==> p in db && Written(db, batch)[p] == db[p]
    decreases |batch|
  {
    hide InBatch;
    if batch != [] {
      InBatchStep(batch, p);
      WriteTouches(db[PathOf(batch[0]) := Readable(batch[0])], batch[1..], p);
    }
  }

  lemma SendAlone(s: State, fate: Fate)
    requires Inv(s) && Alone(s)
    ensures Alone(Send(s, fate))
  {
    if s.queue != [] {
      var batch, rest := s.queue[0], Flat(s.queue[1..]);
      assert Flat(s.queue) == batch + rest;
      var popped := s.(queue := s.queue[1..]);
      var written := popped.(db := Written(s.db, batch));
      ParseBatchFrame(popped, batch);
      ParseBatchFrame(written, batch);
      BatchMarked(s, batch, popped, written);
      forall t | t in rest
        ensures PathOf(t) !in s.outgoing && !InBatch(batch, PathOf(t))
      {
        RestApart(batch, rest, t);
      }
      forall p: Path
        ensures p in ParseBatch(popped, batch).outgoing ==> p in s.outgoing || InBatch(batch, p)
        ensures p in ParseBatch(written, batch).outgoing ==> p in s.outgoing || InBatch(batch, p)
        ensures Fetchable(written.db, p) && !InBatch(batch, p) ==> Fetchable(s.db, p)
      {
        BatchTouches(popped, batch, p);
        BatchTouches(written, batch, p);
        WriteTouches(s.db, batch, p);
      }
    }
  }

  lemma RestApart(batch: seq<Tx>, rest: seq<Tx>, t: Tx)
    requires Increasing(batch + rest) && t in rest
    ensures t in batch + rest && !InBatch(batch, PathOf(t))
  {
    var j :| 0 <= j < |rest| && rest[j] == t;
    assert (batch + rest)[|batch| + j] == t;
    forall i | 0 <= i < |batch|
      ensures PathOf(batch[i]) != PathOf(t)
    {
      assert (batch + rest)[i] == batch[i];
    }
  }

  lemma BatchMarked(s: State, batch: seq<Tx>, popped: State, written: State)
    requires Inv(s) && s.queue != [] && batch == s.queue[0]
    requires popped.outgoing == s.outgoing && written.outgoing == s.outgoing
    ensures forall p :: p in s.outgoing || InBatch(batch, p) ==>
              p in ParseBatch(popped, batch).outgoing && p in ParseBatch(written, batch).outgoing
  {
    hide Apply;
    forall t | t in batch
      ensures Parsable(t)
    {
      assert t in Flat(s.queue);
      assert Waiting(s.me, s.nonce, s.log, t);
    }
    BatchMarks(popped, batch);
    BatchMarks(written, batch);
  }

  lemma IssueAlone(s: State, batch: seq<Tx>)
    requires Inv(s) && Alone(s) && Fresh(s, batch)
    ensures Alone(Issue(s, batch))
  {
    FlatAppend(s.queue, batch);
  }

  lemma StepAlone(s: State, a: Action)
    requires Inv(s) && Alone(s) && Enabled(s, a) && OwnKeysUntouched(s.me, [a])
    ensures Alone(Step(s, a)) && Clear(s, a)
  {
    assert a in [a];
    assert s.queue != [] ==> forall t :: t in s.queue[0] ==> t in Flat(s.queue);
    match a
    case DoTransfer(_, _, _, _) => BuildAlone(s, a);
    case DoMint(_, _, _, _, _) => BuildAlone(s, a);
    case DoHold(_, _, _, _, _) => BuildAlone(s, a);
    case DoPay(_, _, _) => BuildAlone(s, a);
    case DoSend(fate) => SendAlone(s, fate);
    case DoCheckIncoming(keys) => CheckIncomingFrame(s, keys);
    case DoCheckOutgoing(keys) => CheckOutgoingIdleIff(s, keys);
    case Replicate(_, _) =>
  }

  lemma BuildAlone(s: State, a: Action)
    requires Inv(s) && Alone(s) && Shaped(a) && (a.DoTransfer? || a.DoMint? || a.DoHold? || a.DoPay?)
    ensures Alone(Step(s, a))
  {
    hide Inv, SelectOne, Lock;
    var s' := Step(s, a);
    if s' != s {
      var batch := s'.issued[|s.issued|..];
      assert Fresh(s, batch) && s'.queue == s.queue + [batch] && s'.outgoing == s.outgoing && s'.db == s.db;
      IssueAlone(s, batch);
    }
  }

  lemma {:induction false} RunAlone(s: State, actions: seq<Action>)
    requires Inv(s) && Alone(s) && Runs(s, actions) && Guarded(actions) && OwnKeysUntouched(s.me, actions)
    ensures AllClear(s, actions)
    decreases |actions|
  {
    hide Inv, Alone, Clear, Step;
    if actions != [] {
      var a, rest := actions[0], actions[1..];
      assert a in actions && Guarded([a]) && Guarded(rest);
      assert OwnKeysUntouched(s.me, [a]) && OwnKeysUntouched(s.me, rest);
      StepAlone(s, a);
      StepKeeps(s, a);
      StepExtends(s, a);
      RunAlone(Step(s, a), rest);
    }
  }

  /** A node that is alone with its key parses each database key at most once in
      every guarded run. */
  lemma AloneParsesKeysOnce(me: Address, db: Database, inKeys: seq<Path>, outKeys: seq<Path>, actions: seq<Action>)
    requires Started(me, db, inKeys, outKeys) && Runs(Start(me, db, inKeys, outKeys), actions)
    requires Filed(db) && Guarded(actions) && OwnKeysUntouched(me, actions)
    ensures PathsOnce(Run(Start(me, db, inKeys, outKeys), actions).log)
  {
    hide Inv, PathsOnce, AllClear, Runs, Run, Start;
    KeysParsedOnceIff(me, db, inKeys, outKeys, actions);
    StartEstablishes(me, db, inKeys, outKeys);
    StartAlone(me, db, inKeys, outKeys);
    RunAlone(Start(me, db, inKeys, outKeys), actions);
  }

  lemma StartAlone(me: Address, db: Database, inKeys: seq<Path>, outKeys: seq<Path>)
    requires Started(me, db, inKeys, outKeys)
    ensures Alone(Start(me, db, inKeys, outKeys))
  {
    StartFrame(me, db, inKeys, outKeys);
    CheckIncomingFrame(Init(me, db), inKeys);
    CheckOutgoingFrame(CheckIncoming(Init(me, db), inKeys), outKeys);
  }

  // ------------------------------------------------ a run that parses a key twice

  datatype Setting = Setting(me: Address, amount: u64, token: TokenId, mine: int, theirs: int)

  function TheMint(x: Setting, time: int): Tx { Mint(Dag(1, x.me, time, ""), "", x.amount, x.token) }

  function TheKey(x: Setting): Path { PathOf(TheMint(x, x.mine)) }

  /** Mint, meet another mint of the same key and nonce, check, send. */
  function Story(x: Setting): seq<Action> {
    [DoMint(x.amount, "", "", x.token, x.mine), Replicate(TheKey(x), Readable(TheMint(x, x.theirs))),
     DoCheckOutgoing([TheKey(x)]), DoSend(Committed)]
  }

  function Minting(x: Setting): State {
    State(x.me, [], 1, [[TheMint(x, x.mine)]], map[], map[], map[], [], [], [TheMint(x, x.mine)])
  }

  function Meeting(x: Setting): State {
    Minting(x).(db := map[TheKey(x) := Readable(TheMint(x, x.theirs))])
  }

  function Checked(x: Setting): State { CheckOutOne(Meeting(x), TheKey(x)) }

  lemma StorySteps(x: Setting)
    ensures Step(Init(x.me, map[]), Story(x)[0]) == Minting(x)
    ensures Step(Minting(x), Story(x)[1]) == Meeting(x)
    ensures Step(Meeting(x), Story(x)[2]) == Checked(x)
  {
    hide Apply;
    var key := TheKey(x);
    assert [key][1..] == [];
    assert CheckOutgoing(Meeting(x), [key]) == CheckOutgoing(Checked(x), []);
  }

  lemma StoryEnabled(x: Setting)
    requires x.mine != x.theirs
    ensures Enabled(Init(x.me, map[]), Story(x)[0]) && Enabled(Minting(x), Story(x)[1])
    ensures Enabled(Meeting(x), Story(x)[2]) && Enabled(Checked(x), Story(x)[3])
  {
    hide Apply, CheckOutgoing;
    var mint := TheMint(x, x.mine);
    assert [[mint]][1..] == [];
    assert Flat([[mint]]) == [mint] + Flat([]);
  }

  /** The guarded run above parses two transactions under one key and overwrites the
      first in the database. */
  lemma SendParsesKeyAgain(x: Setting)
    requires x.mine != x.theirs
    ensures Started(x.me, map[], [], []) && Start(x.me, map[], [], []) == Init(x.me, map[])
    ensures Runs(Init(x.me, map[]), Story(x)) && Guarded(Story(x)) && Filed(map[])
    ensures var s := Run(Init(x.me, map[]), Story(x));
            && s.log == [TheMint(x, x.theirs), TheMint(x, x.mine)] && !PathsOnce(s.log)
            && TheKey(x) in s.db && s.db[TheKey(x)] == Readable(TheMint(x, x.mine))
  {
    hide Apply, Enabled, Runs, Run, Send;
    StorySteps(x);
    StoryEnabled(x);
    StoryRuns(x);
    SendsFirst(Checked(x), TheMint(x, x.mine));
    var s := Run(Init(x.me, map[]), Story(x));
    assert s.log == [TheMint(x, x.theirs)] + [TheMint(x, x.mine)];
    assert PathOf(s.log[0]) == PathOf(s.log[1]);
  }

  lemma StoryRuns(x: Setting)
    requires x.mine != x.theirs
    ensures Runs(Init(x.me, map[]), Story(x)) && Run(Init(x.me, map[]), Story(x)) == Send(Checked(x), Committed)
  {
    StorySteps(x);
    StoryEnabled(x);
    var a, last := Story(x), Send(Checked(x), Committed);
    assert Runs(last, []) && Run(last, []) == last;
    hide Apply, Enabled, Send, CheckOutgoing, MintFunds, Runs, Run;
    RunCons(Checked(x), a[3], []);
    RunCons(Meeting(x), a[2], [a[3]] + []);
    RunCons(Minting(x), a[1], [a[2]] + ([a[3]] + []));
    RunCons(Init(x.me, map[]), a[0], [a[1]] + ([a[2]] + ([a[3]] + [])));
    assert [a[0]] + ([a[1]] + ([a[2]] + ([a[3]] + []))) == a;
  }
}
