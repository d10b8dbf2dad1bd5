# SuperGenius ledger, amounts, migration and wire formats in Dafny

The project models the parts of SuperGenius whose correctness depends on several
functions working together, and proves properties of them for all inputs, all
runs and all reachable states.

* **Ledger** — `Tokens`, `Transactions`, `CoinSelection`, `Replay`, `Node`,
  `NodeSafety`, `NodeRuns`, `Completeness`, `KeysOnce`, `Refiling`, `Accounting`,
  `Payments`, `Supply`, `Network`, `Paths`, and the objects
  `Account.GeniusAccount` and `TransactionManager.Manager`. A node's manager is a
  state machine (`Node.Step`). The environment chooses the order of query results
  and the fate of every commit, and writes any value under any key, own keys
  included, at any time; it cannot know a transaction before this node has sent
  it (`Node.Enabled`, `Node.Unseen`). What holds in every such run is proved from
  `NodeSafety.Base`. The element filter of the source checks signatures but never
  compares a key with its transaction; the theorems that need this comparison
  take it as their condition (`Node.Filed` for the database at the start,
  `Node.Guarded` for what arrives later), and `Refiling` has the run that breaks
  them without it. The classes are proved to take exactly the machine's steps.
  `Supply` looks at the histories of the whole network, and `Network` plays a
  node's run and the network's history side by side.
* **Amounts** — `ScaledInteger` and `TokenAmount`: fixed-point text and
  arithmetic in 64 bits with the wrap-around written out, the processing cost,
  the exchange with child tokens, the split of an escrow.
* **Prices** — `PriceCache` (cache, rate limit, cost guard) and `Chunked` (the
  chunked transfer coding of section 7.1 of RFC 9112).
* **Migration** — `Migration` (the atomic transaction, the batch loop, the
  object) and `MigrationSafety` (what is stored, restart after any interruptions) and
  `MigrationEntries` (which legacy entries are copied).
* **Wire** — `Bits`, `Wire`, `Canonical`, `Streams`, `MessageParser`: header bit
  fields, message payloads, and the parser's dispatch.

`Machine` holds 64-bit wrap-around, truncating division and a few arithmetic facts.
Amounts are 64-bit everywhere; `Machine.Wrap` is the reduction modulo 2^64.

Conventions. The blake2b hash of a transaction is an injective constructor,
`Digest(tx)`. The order in which the database enumerates keys is arbitrary. Where
the source reads a clock, a random number or the network, the model takes a
parameter. Multi-byte integers on the wire are little-endian.

Eight properties one would expect turn out to hold only under a condition. For each
there is a lemma with the condition and one with an input that breaks it:

* each database key is parsed at most once in a guarded run if and only if no send
  parses a batch with a path already marked (`KeysParsedOnceIff`); a send does not
  look, so a second holder of the key can make it parse a key again
  (`SendParsesKeyAgain`), and a node alone with its key never does
  (`AloneParsesKeysOnce`);
* a node never spends a coin twice and never parses a transaction twice when
  transactions are stored under their own paths (`NoDoubleSpend`, `ParsedOnce`);
  an entry of another address is parsed a second time if and only if its key is
  unmarked and its transaction was parsed before (`ParsedTwiceIff`), and then a
  spent coin comes back and is spent again (`SecondParseReturns`,
  `RefilingSpendsTwice`);
* selection computes the ideal choice of coins, and balances, if and only if the
  covering prefix stays below 2^64 (`SelectionIdealIff`, `SelectionBalancesIff`;
  `OverflowingPoolFails` is refused and `OverflowingPoolLoses` loses 2^64); the
  list form balances if and only if request and inputs overflow equally often
  (`ManyBalancesIff`, `OverflowingRequestGains`);
* the coins of an account are the ledger's unspent outputs if and only if nothing
  was parsed as spent before it was parsed as created (`ReplayIsLedgerIff`,
  `HoldingsAreLedgerIff`); key order can violate this at a restart, because
  `escrow-hold` sorts before `mint` (`OrderMatters`, `RestartResurrects`);
* parsing any accepted text returns the number it denotes if and only if that
  number fits in 64 bits (`ParseExactIff`, `ParseOverflows`);
* an escrow payout adds up if and only if amount, cut and number of peers satisfy
  `PayoutFits` (`PayoutConservesIff`, `ExcessiveCut`), and conserves each token
  class if and only if it also pays in the escrow's own class
  (`PayConservesClassesIff`, `PaidInAnotherToken`);
* of several candidates for one path a migration keeps the one that positions
  select, so the oldest stays if and only if it is in that position
  (`OldestKeptIff`, `LaterTimestampKept`);
* an accepted message is byte for byte its own serialisation, except for one kind
  of bulk pull (`BulkPullCanonicalIff`, `ZeroCountAccepted`), and a serialised message reaches the
  visitor if and only if it has at most 508 bytes (`SerialisedIsVisited`,
  `LongRequestDropped`).

Code and documentation disagree in two places, and the model follows the code:
`AtomicTransaction::Get` looks only at pending operations although its header
promises the stored value otherwise, and `HasKey` does not notice a pending removal.

## Model

| member | source | states |
|---|---|---|
| Tokens.EqualsIsSameClass | src/account/TokenID.hpp:87-99 | `Equals` is exactly "spells the same number", hence an equivalence relation; the GNUS class is the number zero, invalid identifiers included |
| Tokens.ParsedClass | src/account/TokenID.hpp:32-50 | the class of a parsed identifier is the big-endian number its bytes spell, however many leading zeros; more than 32 bytes silently give GNUS |
| Tokens.OrderMatchesEquals | src/account/TokenID.hpp:72-75 | two identifiers are unordered by `<` if and only if they are `Equals`, so ordered containers merge exactly the classes |
| Paths.PathTextInjective | src/account/IGeniusTransactions.hpp:63-79 | distinct (address, kind, nonce) have distinct database keys as long as addresses contain no slash |
| CoinSelection.Choose | src/account/UTXOTxParameters.cpp:99-118 | the selection loop computes the specified prefix of the eligible coins and its 64-bit total |
| CoinSelection.CreateOne | src/account/UTXOTxParameters.cpp:92-163 | the two-pass constructor and `create` give the inputs, the sent amount, the change and the failures of `SelectOne` |
| CoinSelection.CreateMany | src/account/UTXOTxParameters.cpp:42-90 | the list constructor and `create` give the inputs, outputs, change and failures of `SelectMany` |
| CoinSelection.UpdateUtxoList | src/account/UTXOTxParameters.cpp:165-182 | locks exactly the coins that share a transaction hash with an input, whatever their index, and changes nothing else |
| CoinSelection.GatherTotal | src/account/UTXOTxParameters.cpp:99-118 | the running total is the 64-bit sum of what was chosen, a prefix of the eligible coins, and the loop stops for one of its two reasons |
| CoinSelection.GatherIsCover | src/account/UTXOTxParameters.cpp:99-118 | without overflow the loop picks the shortest covering prefix |
| CoinSelection.SentIsAmount | src/account/UTXOTxParameters.cpp:128-154 | the second pass always sends exactly the amount, even when totals wrapped |
| CoinSelection.OneIsManyOfOne | src/account/UTXOTxParameters.cpp:12-40 | both constructors agree on a single destination, for every pool, overflow included |
| CoinSelection.SelectionIdealIff | src/account/UTXOTxParameters.cpp:92-163 | selection equals the unbounded-integer reference if and only if the covering prefix fits in 64 bits or there is nothing to cover |
| CoinSelection.SelectionExact | src/account/UTXOTxParameters.cpp:92-163 | if the covering prefix fits in 64 bits: success iff they cover a positive amount; inputs are a prefix, the last input was needed, the destination gets the amount, inputs and outputs balance |
| CoinSelection.OutputsAreWrapped | src/account/UTXOTxParameters.cpp:92-163 | whatever overflows, the outputs of a successful selection are the amount and the change, worth together the inputs modulo 2^64 |
| CoinSelection.SelectionBalancesIff | src/account/UTXOTxParameters.cpp:92-163 | a successful selection puts out what it takes in if and only if the covering prefix of the eligible coins stays below 2^64 |
| CoinSelection.OverflowingPoolLoses | src/account/UTXOTxParameters.cpp:99-118 | three coins worth 2^65 - 1 pay 2^64 - 1 and nothing comes back |
| CoinSelection.ManyBalancesIff | src/account/UTXOTxParameters.cpp:42-90 | the list form puts out what it takes in if and only if the requested total and the inputs overflow 2^64 equally often |
| CoinSelection.ManyPaysEach | src/account/UTXOTxParameters.cpp:42-90 | the list form pays every request as made, address, amount and token, in order, and adds at most the change to the source |
| CoinSelection.ManySucceedsIff | src/account/UTXOTxParameters.cpp:42-90 | when the eligible coins fit in 64 bits it succeeds exactly when they cover a positive 64-bit total |
| CoinSelection.OverflowingRequestGains | src/account/UTXOTxParameters.cpp:47-52 | requests worth 2^64 + 1 are granted in full from one coin of 1 |
| CoinSelection.OverflowingPoolFails | src/account/UTXOTxParameters.cpp:99-118 | two coins worth 2^64 together cannot pay 2^64 - 1 |
| CoinSelection.SelectedInputs | src/account/UTXOTxParameters.cpp:92-163 | selected inputs are distinct, unlocked coins of the pool in the right class, overflow or not |
| Replay.ApplyFacts | src/account/TransactionManager.cpp:787-920 | parsing one transaction adds what it credits, then removes what it spends, keeps every coin genuine and no outpoint twice |
| Replay.AfterSound | src/account/TransactionManager.cpp:787-920 | after any list of transactions every coin held has the amount and token its creator gave it, once each |
| Replay.ReplayHoldsSurvivors | src/account/TransactionManager.cpp:787-920 | for any list, any order, any repetition: an output is held if and only if some parse created it and none spent it from then on |
| Replay.ReplayIsLedgerIff | src/account/TransactionManager.cpp:787-920 | the coins are exactly the unspent outputs of the transactions if and only if every spent output is spent at or after its creation; no unspent output is ever lost |
| Replay.CreatorsFirstSuffices | src/account/TransactionManager.cpp:787-920 | putting creators before spenders meets that condition |
| Replay.OrdersAgree | src/account/TransactionManager.cpp:787-920 | all such orders of the same transactions leave the same coins, amounts and tokens |
| Replay.OrderMatters | src/account/TransactionManager.cpp:787-830 | a spender parsed before its creator leaves the spent output in the account |
| Account.GeniusAccount.constructor | src/account/GeniusAccount.cpp:28-29 | a new account has no coins and nonce zero |
| Account.GeniusAccount.PutUtxo | src/account/GeniusAccount.hpp:89-111 | appends a coin unless one with its hash and index is there, and says which |
| Account.GeniusAccount.RefreshUtxos | src/account/GeniusAccount.hpp:113-127 | removes exactly the coins named by hash and index, keeping the order of the others |
| Account.GeniusAccount.GetBalance | src/account/GeniusAccount.hpp:54-68 | the unlocked coins' sum modulo 2^64 |
| Account.GeniusAccount.GetTokenBalance | src/account/GeniusAccount.cpp:97-108 | the sum modulo 2^64 of exactly the coins that selection for this token may use |
| TransactionManager.Manager.constructor | src/account/TransactionManager.cpp:37-48 | the manager starts in the initial state of the machine |
| TransactionManager.Manager.FillDag | src/account/TransactionManager.cpp:431-445 | every call takes the next nonce, under the account's address |
| TransactionManager.Manager.TransferFunds | src/account/TransactionManager.cpp:210-235 | takes exactly the step `Node.TransferFunds`: select, number, lock, enqueue, or change nothing; returns the queued transaction's hash |
| TransactionManager.Manager.MintFunds | src/account/TransactionManager.cpp:237-261 | takes exactly the step `Node.MintFunds` |
| TransactionManager.Manager.HoldEscrow | src/account/TransactionManager.cpp:263-302 | takes exactly the step `Node.HoldEscrow` (GNUS coins only) |
| TransactionManager.Manager.PayEscrow | src/account/TransactionManager.cpp:304-393 | takes exactly the step `Node.PayEscrow`: a payout and a release with consecutive nonces in one batch, or nothing |
| TransactionManager.Manager.ParseTransaction | src/account/TransactionManager.cpp:634-645 | the four parsers change the coins as `Replay.Apply` says; a kind without parser is an error and changes nothing |
| TransactionManager.Manager.CheckIncoming | src/account/TransactionManager.cpp:691-737 | takes exactly the step `Node.CheckIncoming` for the keys in query order |
| TransactionManager.Manager.CheckOutgoing | src/account/TransactionManager.cpp:739-785 | takes exactly the step `Node.CheckOutgoing`, the nonce included |
| TransactionManager.Manager.Record | src/account/TransactionManager.cpp:468-495 | the pending commit is the database with every transaction of the batch under its path |
| TransactionManager.Manager.SendTransaction | src/account/TransactionManager.cpp:447-511 | takes exactly the step `Node.Send` for each answer of the database, and succeeds iff the queue was empty or everything parsed and committed |
| TransactionManager.Manager.Start | src/account/TransactionManager.cpp:174-177 | incoming, then outgoing |
| NodeSafety.StartEstablishes | src/account/TransactionManager.cpp:174-177 | starting on a database whose keys are the paths of their transactions establishes the guarded invariant, in whatever order the queries enumerate |
| NodeSafety.StartBase | src/account/TransactionManager.cpp:174-177 | starting on any database at all establishes the unguarded invariant |
| NodeSafety.SendKeeps | src/account/TransactionManager.cpp:447-511 | a send keeps the invariant whatever the database answers |
| NodeSafety.CheckIncomingKeeps | src/account/TransactionManager.cpp:691-737 | checking incoming transactions keeps the invariant |
| NodeSafety.CheckOutgoingKeeps | src/account/TransactionManager.cpp:739-785 | so does checking outgoing ones, own entries of other sessions or devices included |
| NodeSafety.UnmarkedIsNew | src/account/TransactionManager.cpp:66-116 | under the missing guard an unmarked key holds a transaction that was neither parsed nor queued here |
| NodeSafety.TransferKeeps | src/account/TransactionManager.cpp:210-235 | building a transfer keeps the invariant; its inputs are locked and new |
| NodeSafety.HoldKeeps | src/account/TransactionManager.cpp:263-302 | building an escrow hold keeps the invariant |
| NodeSafety.PayKeeps | src/account/TransactionManager.cpp:304-393 | building a payout batch keeps the invariant |
| NodeSafety.StepKeeps | src/account/TransactionManager.cpp:400-417 | every step of the node keeps the guarded invariant, and so does any write by any node, under any address, of a transaction under its own path |
| NodeSafety.RunKeeps | src/account/TransactionManager.cpp:400-417 | so does every run of such steps |
| NodeSafety.RunBase | src/account/TransactionManager.cpp:400-417 | the unguarded invariant is kept by every run, whatever is written under whatever key |
| NodeSafety.CheckOutgoingIdleIff | src/account/TransactionManager.cpp:739-785 | checking outgoing transactions changes nothing if and only if every key is marked or cannot be parsed |
| NodeRuns.RunExtends | src/account/TransactionManager.cpp:431-445 | over any run histories and marks only grow, the nonce never falls, and all that is newly built is numbered above it |
| Completeness.CheckIncomingParses | src/account/TransactionManager.cpp:701-735 | every key of the query that can be parsed is marked with its transaction, and exactly the transactions of the unmarked ones join the log |
| Completeness.CheckOutgoingParses | src/account/TransactionManager.cpp:749-783 | the same for own keys, and the nonce becomes the highest one seen |
| Completeness.StartParsesAll | src/account/TransactionManager.cpp:174-177 | the start parses exactly the parsable transactions stored in the database, under whatever keys |
| Completeness.StartNonce | src/account/TransactionManager.cpp:174-177 | the nonce after the start is the highest found under own keys, or zero |
| Completeness.StartOrder | src/account/TransactionManager.cpp:174-177 | what lies under other addresses is parsed before what lies under the own one |
| Completeness.WrittenAt | src/account/TransactionManager.cpp:468-481 | a batch puts under each of its paths the last transaction with that path and leaves every other key alone |
| Completeness.BatchStops | src/account/TransactionManager.cpp:498-506 | the first transaction without a parser stops the send after what came before it was parsed |
| Completeness.SendEffect | src/account/TransactionManager.cpp:447-511 | in every guarded run a send removes the head of the queue; unless refused its whole batch is parsed and marked; a commit stores every transaction of it under its own path; every other key and field keeps its value |
| NodeRuns.ReplayInEveryRun | src/account/TransactionManager.cpp:400-417 | in every run, without any guard, the coins are up to locks the replay of what was parsed, nonces strictly increase, and no transfer or hold repeats an input |
| NodeRuns.NoDoubleSpend | src/account/TransactionManager.cpp:210-302 | in every run of a node whose entries are stored under their own paths, own entries arriving at any time included, any two transfers or holds it built have disjoint inputs |
| NodeRuns.ParsedOnce | src/account/TransactionManager.cpp:447-785 | in every such run no transaction is parsed twice |
| KeysOnce.CheckInOneOnce | src/account/TransactionManager.cpp:691-737 | checking an incoming key keeps every path parsed at most once |
| KeysOnce.CheckOutOneOnce | src/account/TransactionManager.cpp:739-785 | so does checking an outgoing one |
| KeysOnce.SendOnceIff | src/account/TransactionManager.cpp:497-506 | a send does so if and only if the queue is empty, the put is refused, or no path of the batch is marked |
| KeysOnce.KeysParsedOnceIff | src/account/TransactionManager.cpp:447-785 | in a guarded run each database key is parsed at most once if and only if no send of the run parses a batch with a marked path |
| KeysOnce.AloneParsesKeysOnce | src/account/TransactionManager.cpp:447-785 | that is so in every guarded run in which nobody else writes under the node's own address |
| KeysOnce.SendParsesKeyAgain | src/account/TransactionManager.cpp:497-506 | a guarded four-step run in which a send parses a second transaction under a key and overwrites the first in the database |
| NodeRuns.NoncesFresh | src/account/TransactionManager.cpp:431-445 | what a run builds from any point on has paths that differ from each other, from every own key marked by then, and from every readable own key found at the start |
| NodeRuns.SentKeysIdle | src/account/TransactionManager.cpp:739-785 | the keys of a sent batch are never parsed again: `CheckOutgoing` leaves the state unchanged on them after any run, committed or not, guard or not |
| NodeRuns.NoResurrection | src/account/TransactionManager.cpp:691-785 | under the guard an output spent at or after the parse of its creator is gone and stays gone in every continuation |
| Refiling.ParsedTwiceIff | src/account/TransactionManager.cpp:66-116 | an arbitrary entry under an arbitrary key leads to a second parse by the incoming or the outgoing check if and only if its key is unmarked there, its kind has a parser and its transaction was parsed before |
| Refiling.GuardSuffices | src/account/TransactionManager.cpp:66-116 | a key equal to the transaction's path excludes that, for incoming and own keys |
| Refiling.SecondParseReturns | src/account/TransactionManager.cpp:691-737 | otherwise every credited output that is no longer held comes back unlocked |
| Refiling.RefilingSpendsTwice | src/account/TransactionManager.cpp:691-737 | a seven-step run without the guard in which the node builds two transfers with the same input |
| NodeRuns.HoldingsAreLedgerIff | src/account/TransactionManager.cpp:691-785 | in every reachable state, guarded or not, the coins are the unspent outputs of what was parsed if and only if that was parsed in a spend-after-create order |
| NodeRuns.TransferUsesUnspent | src/account/TransactionManager.cpp:210-235 | then a new transfer never touches an output that any parsed transaction spent, earlier sessions included |
| NodeRuns.RestartResurrects | src/account/TransactionManager.cpp:739-785 | a restart over a minted and then escrowed coin brings it back unlocked in key order, and not in the other order |
| Payments.RecipientGains | src/account/TransactionManager.cpp:787-830 | an account that has nothing of a transaction yet gains exactly what the transaction credits to it |
| Payments.TransferPays | src/account/TransactionManager.cpp:210-235 | a transfer is numbered next and pays the amount to the destination, the change to the sender and nothing to anyone else, all in the token; or nothing changes |
| Payments.MintPays | src/account/TransactionManager.cpp:237-261 | a mint is numbered next and pays its amount in its token to the minter alone |
| Payments.HoldPays | src/account/TransactionManager.cpp:263-302 | a hold sets the amount aside in GNUS under the escrow address, credits nobody but the holder with the change, and records amount, developer and cut; or nothing changes |
| Payments.PayoutPays | src/account/TransactionManager.cpp:304-393 | a payout credits each account the share times the number of its results, in the tokens they name, and the developer the remainder; its release names the hold's amount, developer, source and hash; without results or hold, or on overflow, nothing changes |
| Accounting.SendAccounts | src/account/TransactionManager.cpp:447-511 | sending a queued transfer whose locked inputs are held lowers the holdings by the amount and returns the change |
| Accounting.TransferThenSend | src/account/TransactionManager.cpp:210-235 | transfer then send lowers the holdings by exactly the amount, and the balance by the amount plus the siblings that share a hash with an input and stay locked |
| Accounting.TransferSentLater | src/account/TransactionManager.cpp:447-511 | the same for the holdings after any run in between, as long as the inputs are still held |
| Accounting.NoSiblings | src/account/UTXOTxParameters.cpp:165-182 | no two held coins with one hash means no siblings, so the balance falls by exactly the amount |
| Supply.AccountsShareThePool | src/account/TransactionManager.cpp:787-891 | over any legitimate network history each account's replay holds exactly the unspent outputs credited to it |
| Supply.PoolIsOwned | src/account/TransactionManager.cpp:787-891 | an unspent output that is no open escrow is held by its payee |
| Supply.StepConservesIff | src/account/TransactionManager.cpp:787-891 | appending a transaction conserves the weighed supply if and only if the transaction is balanced |
| Supply.BuiltBalancedIff | src/account/UTXOTxParameters.cpp:92-163 | a selected transfer or hold is balanced if and only if the covering prefix of the eligible coins stays below 2^64, and then in every token class too |
| Supply.PayBalancedIff | src/account/TransactionManager.cpp:326-349 | a payout puts out exactly what the hold put in if and only if `PayoutFits` |
| Supply.PayConservesClassesIff | src/account/TransactionManager.cpp:326-349 | a payout conserves every token class if and only if it fits and pays in the escrow's class (or pays zero shares) |
| Supply.PaidInAnotherToken | src/account/TransactionManager.cpp:337-346 | a peer that names another token is paid in it, so that class is not conserved |
| Supply.ParseQualifies | src/account/TransactionManager.cpp:787-891 | parsing keeps a coin list qualified for deeds when each credited output is unspent or held already |
| Supply.QueueQualifies | src/account/TransactionManager.cpp:210-302 | after a build, the doer's locked coin list qualifies for the next deed before the first is sent |
| Supply.DeedConservesIff | src/account/TransactionManager.cpp:210-393 | one mint, transfer, hold or payout keeps the supply equal to what was minted if and only if its numbers fit in 64 bits |
| Supply.SupplyConserved | src/account/TransactionManager.cpp:210-393 | after any sequence of mints, transfers, holds and payouts that fit, by accounts whose lists may lag behind and hold queued coins, the unspent outputs are worth exactly what was minted, and per token class if payouts are in kind |
| Network.OwnMove | src/account/TransactionManager.cpp:210-393 | whatever a node builds along a run inside the network is a possible deed of the history, and its coins stay qualified |
| Network.MoveKeeps | src/account/TransactionManager.cpp:400-417 | every guarded step of the node and every deed of another account keeps node and history coupled, and the supply conserved if the numbers fit |
| Network.NetworkConserves | src/account/TransactionManager.cpp:400-417 | along any interleaving of a node's guarded steps with other accounts' deeds its unlocked coins are unspent outputs of its own, and the supply equals what was minted if all numbers fit |
| Supply.AccountsAddUp | src/account/GeniusAccount.hpp:54-68 | over any finite set of accounts that covers the payees, the accounts' holdings plus the open escrows equal what was minted |
| ScaledInteger.ComputeScaleFactor | src/base/ScaledInteger.cpp:62-70 | the loop computes 10^precision modulo 2^64 |
| ScaledInteger.ScaleExact | src/base/ScaledInteger.cpp:62-70 | up to precision 19 the factor is exactly 10^precision |
| ScaledInteger.ParseDecimal | src/base/ScaledInteger.cpp:72-130 | the parser accepts, rejects, truncates and combines as `FromString` says |
| ScaledInteger.FixedRoundTrip | src/base/ScaledInteger.cpp:132-149 | parsing the fixed rendering restores every 64-bit value at every precision with a non-zero factor |
| ScaledInteger.TrimmedRoundTrip | src/base/ScaledInteger.cpp:229-251 | so does parsing the rendering with trailing zeros removed |
| ScaledInteger.InferredRoundTrip | src/base/ScaledInteger.cpp:43-58 | the one-argument `New` on the trimmed text, then `ConvertPrecision`, restores the value |
| ScaledInteger.AcceptedIff | src/base/ScaledInteger.cpp:72-130 | the exact set of accepted texts in each mode; a longer fraction is refused as too large in strict mode and cut otherwise |
| ScaledInteger.PartsOfText | src/base/ScaledInteger.cpp:81-92 | integer part and fraction are the text around its first dot |
| ScaledInteger.RenderedShape | src/base/ScaledInteger.cpp:229-251 | the fixed rendering has exactly `precision` fraction digits; the trimmed one ends neither in a dot nor in a fraction zero |
| ScaledInteger.ParseExactIff | src/base/ScaledInteger.cpp:72-130 | for every accepted text, in either mode and up to precision 19, parsing returns the number that integer part and kept digits denote modulo 2^64, so it is right if and only if that fits |
| ScaledInteger.ParseOverflows | src/base/ScaledInteger.cpp:129-129 | 2^58 whole units at precision 6 read as zero |
| TokenAmount.CalculateCostMinions | src/account/TokenAmount.cpp:62-110 | the descending precision search computes `Cost` |
| TokenAmount.CostFailsIff | src/account/TokenAmount.cpp:62-110 | the cost fails if and only if the price is zero or even the coarsest round overflows |
| TokenAmount.HighPrecisionIff | src/account/TokenAmount.cpp:70-98 | the search stops at precision 11 or more if and only if price times 10^5 and the full-resolution quotient fit in 64 bits |
| TokenAmount.HighPrecisionExact | src/account/TokenAmount.cpp:70-110 | then the cost before the minimum is exactly floor(10 * bytes / micro-dollars) |
| TokenAmount.LowPrecisionBound | src/account/TokenAmount.cpp:70-110 | below, it is never above that and short of it by less than 10^6/price + 1 |
| TokenAmount.CostTheorem | src/account/TokenAmount.cpp:62-110 | both for the whole function, with the minimum of one minion |
| TokenAmount.CostFormula | src/account/TokenAmount.cpp:62-110 | the cost is one rounded-down division at the finest precision where bytes, price and quotient fit, at least one minion; without such a precision it fails |
| TokenAmount.ChildExact | src/account/TokenAmount.cpp:112-132 | both conversions compute the rounded-down quotient of their definition and fail exactly when an argument does not parse, the ratio is zero or the result does not fit |
| TokenAmount.ChildRoundTrip | src/account/TokenAmount.cpp:112-132 | converting to a child token and back succeeds, never gains, and loses at most ceil((b - 1) / 10^6) minions for a ratio of b millionths |
| TokenAmount.PayoutSplit | src/account/TransactionManager.cpp:326-349 | with a cut of at most 10^6 nothing fails or underflows, each peer gets floor(amount * cut / (10^6 n)), shares and remainder add up to the escrow, and the developer gets less than n minions above its part |
| TokenAmount.PayoutConservesIff | src/account/TransactionManager.cpp:326-349 | shares and remainder add up if and only if amount * cut < 10^6 * n * (floor(amount / n) + 1) |
| TokenAmount.ModestCutFits | src/account/TransactionManager.cpp:326-349 | a cut of at most 10^6 always satisfies that |
| TokenAmount.SlightExcessMayFit | src/account/TransactionManager.cpp:326-349 | a cut above 10^6 may satisfy it as well |
| TokenAmount.ExcessiveCut | src/account/TransactionManager.cpp:335-349 | a cut of 300% pays three times the escrow and wraps the remainder around |
| PriceCache.GeniusNode.constructor | src/account/GeniusNode.cpp:105-105 | the first call is never held back |
| PriceCache.GeniusNode.Classify | src/account/GeniusNode.cpp:903-917 | valid cached prices and the tokens to fetch, as specified |
| PriceCache.GeniusNode.Absorb | src/account/GeniusNode.cpp:931-935 | new prices override result and cache entries, stamped with the call's time |
| PriceCache.GeniusNode.GetCoinprice | src/account/GeniusNode.cpp:897-952 | new cache and reply of a call are `Updated` and `Reply`; an error only when nothing is known |
| PriceCache.FetchesSpaced | src/account/GeniusNode.cpp:920-928 | over any list of calls, successful fetches are at least five seconds apart |
| PriceCache.PricesFresh | src/account/GeniusNode.cpp:903-951 | over any run with a clock that does not go back, every price returned is the latest quote of that token, less than a minute old |
| PriceCache.FetchesIff | src/account/GeniusNode.cpp:903-936 | in every run a call fetches exactly when some requested token has no quote less than a minute old, the last successful fetch is at least five seconds old and the service answers |
| PriceCache.KnownIsReturned | src/account/GeniusNode.cpp:903-951 | in every run a requested token whose last quote, this call's fetch included, is less than a minute old is in the reply at that quote |
| PriceCache.FailsIff | src/account/GeniusNode.cpp:937-951 | a call fails exactly when it may fetch, the service does not answer and no requested token has such a quote |
| PriceCache.HoldOnlyWhenPriced | src/account/GeniusNode.cpp:492-505 | an escrow is held only for a valid job with known size and non-zero price, for exactly the computed cost, within the balance |
| PriceCache.HoldsAtFreshPrice | src/account/GeniusNode.cpp:492-505 | in every run an escrow is held only at a price quoted by a successful fetch less than a minute before, for exactly the cost at that price |
| PriceCache.FreshPriceHolds | src/account/GeniusNode.cpp:492-505 | conversely, with such a quote the job holds the exact cost when the balance covers it and the cut is readable |
| PriceCache.NoQuoteStopsJob | src/account/GeniusNode.cpp:689-728 | without such a quote, as when the rate limit holds a call back after the price expired, the job stops with a cost error |
| Chunked.LineLength | src/coinprices/coinprices.cpp:35-39 | a line ends at the first line feed or at the end |
| Chunked.DecodeChunkedTransfer | src/coinprices/coinprices.cpp:30-74 | the loop computes `Decode` |
| Chunked.SizeIsRead | src/coinprices/coinprices.cpp:46-48 | a chunk-size line with an optional extension is read as the number its hexadecimal digits spell |
| Chunked.DecodeChunk | src/coinprices/coinprices.cpp:46-65 | one well-formed chunk decodes to its data, whatever bytes it holds |
| Chunked.PlainLineCopied | src/coinprices/coinprices.cpp:67-70 | a line that cannot begin a number is copied with its line feed |
| Chunked.EmptyLineSkipped | src/coinprices/coinprices.cpp:36-44 | empty lines are skipped, with or without a carriage return |
| Chunked.DecodeIsPayload | src/coinprices/coinprices.cpp:30-74 | an encoded body decodes to the concatenation of its chunks, and what follows the last chunk is ignored |
| Migration.AtomicTransaction.constructor | src/crdt/impl/atomic_transaction.cpp:8-11 | nothing pending, not committed |
| Migration.AtomicTransaction.Put | src/crdt/impl/atomic_transaction.cpp:21-30 | appends the operation and marks the key, refused after the commit |
| Migration.AtomicTransaction.Remove | src/crdt/impl/atomic_transaction.cpp:32-40 | appends the removal without marking the key, refused after the commit |
| Migration.AtomicTransaction.Get | src/crdt/impl/atomic_transaction.cpp:42-62 | the value of the latest pending operation if that is a put |
| Migration.AtomicTransaction.Erase | src/crdt/impl/atomic_transaction.cpp:64-85 | drops every pending operation on the key and unmarks it if there was one |
| Migration.Database.Commit | src/crdt/impl/atomic_transaction.cpp:92-140 | all pending operations at once, and only once |
| Migration.Migrator.CommitBatch | src/account/Migration0_2_0To1_0_0.cpp:255-265 | the store gets exactly the batch, and an empty batch starts with fresh topics |
| Migration.LatestDecides | src/crdt/impl/atomic_transaction.cpp:92-150 | the latest pending operation on a key decides what a commit leaves there |
| Migration.BatchIsPending | src/crdt/impl/atomic_transaction.cpp:42-62 | so `Get` returns the batch's own value for every key of the batch |
| Migration.Migrator.Choose | src/account/Migration0_2_0To1_0_0.cpp:169-221 | of a pending and a new candidate the new one replaces the other, transaction and proof erased, if and only if the pending value does not deserialise or the compared timestamp is later |
| Migration.Migrator.MigrateItem | src/account/Migration0_2_0To1_0_0.cpp:165-253 | with the new transaction compared to itself nothing is ever erased: a transaction joins the batch together with its proof unless its path is taken |
| Migration.Migrator.MigrateDb | src/account/Migration0_2_0To1_0_0.cpp:94-270 | the loop skips unusable entries and otherwise runs `RunItems`; the returned remainder is what is pending |
| Migration.Migrator.Apply | src/account/Migration0_2_0To1_0_0.cpp:272-322 | outgoing database, incoming database, version marker; nothing is left pending |
| Migration.Migrator.Migrate | src/account/MigrationManager.cpp:51-78 | applied exactly when the marker is not there, so a second run changes nothing |
| Migration.NothingPendingAtZero | src/account/Migration0_2_0To1_0_0.cpp:289-313 | a remainder of zero means that nothing is pending, so skipping the commit loses nothing |
| MigrationSafety.LoopIsBatches | src/account/Migration0_2_0To1_0_0.cpp:118-267 | at every point of the loop exactly the full batches are committed and the batch under way spells the entries since |
| MigrationSafety.ApplyIsTotal | src/account/Migration0_2_0To1_0_0.cpp:272-322 | a clean migration lays both databases' commits over the store and touches no other key |
| MigrationSafety.RestartSafe | src/account/Migration0_2_0To1_0_0.cpp:272-322 | however often and wherever earlier attempts were cut short, a complete migration ends in the store of one clean run |
| MigrationSafety.BatchKeepsFirst | src/account/Migration0_2_0To1_0_0.cpp:165-253 | a batch holds a transaction exactly for the paths of its entries, the first of each, with the proof of that same entry |
| MigrationSafety.WinnerIsStored | src/account/Migration0_2_0To1_0_0.cpp:94-270 | for every path the store ends with the first entry of the last batch that mentions it, proof included |
| MigrationSafety.WinnerExists | src/account/Migration0_2_0To1_0_0.cpp:94-270 | every path that occurs has such an entry |
| MigrationSafety.DeciderExists | src/account/Migration0_2_0To1_0_0.cpp:272-322 | every path that either database mentions has a deciding entry |
| MigrationSafety.MigratedEntry | src/account/Migration0_2_0To1_0_0.cpp:272-322 | a whole migration leaves for every path the winner of the incoming database, or of the outgoing one if the incoming one does not mention it, with its own proof |
| MigrationSafety.UnmentionedStays | src/account/Migration0_2_0To1_0_0.cpp:272-322 | a path that neither mentions keeps its old value |
| MigrationSafety.OldestKeptIff | src/account/Migration0_2_0To1_0_0.cpp:169-221 | the stored transaction is an oldest candidate of both databases if and only if the deciding entry is one |
| MigrationEntries.OneEntry | src/account/Migration0_2_0To1_0_0.cpp:118-163 | an entry is skipped if its key does not convert, its transaction cannot be read, its signature is wrong or its proof is missing, and copied otherwise |
| MigrationEntries.EntriesInOrder | src/account/Migration0_2_0To1_0_0.cpp:118-163 | entries are taken in order |
| MigrationEntries.FailedEntryIsNothing | src/account/Migration0_2_0To1_0_0.cpp:118-163 | an entry that fails any of the four tests changes nothing, in either database |
| MigrationEntries.MigratedFromEntry | src/account/Migration0_2_0To1_0_0.cpp:272-322 | after a migration each path holds a transaction and proof of one incoming entry that passes the tests, else of an outgoing one, else what was there |
| MigrationEntries.NewComesFromEntry | src/account/Migration0_2_0To1_0_0.cpp:272-322 | a transaction that was not there before comes with its proof from an entry that passes all four tests |
| MigrationEntries.EntryIsStored | src/account/Migration0_2_0To1_0_0.cpp:272-322 | every path of such an entry is stored, with a proof |
| MigrationEntries.BatchAnnounced | src/account/Migration0_2_0To1_0_0.cpp:222-238 | at every point the topics are the full nodes and exactly the sources and transfer destinations of the batch under way |
| MigrationSafety.LaterTimestampKept | src/account/Migration0_2_0To1_0_0.cpp:181-186 | of two entries in one batch the first stays even when the second is older |
| Bits.BlockTypeStored | node/common.cpp:134-143 | a block type below 16 is read back; count and flags keep their values |
| Bits.CountStored | node/common.cpp:145-155 | a count below 16 is read back; block type and flags keep their values |
| Bits.FlagStored | node/common.cpp:157-201 | setting a flag sets that flag and changes nothing else |
| Bits.WideBlockTypeSpills | node/common.cpp:139-143 | a block type of 16 or more runs into the count |
| Wire.PeersRoundTrip | node/common.cpp:578-608 | serialised peers decode to themselves and leave what follows, 18 bytes each |
| Wire.PairsRoundTrip | node/common.cpp:699-745 | serialised root pairs decode to themselves and leave what follows, 64 bytes each |
| Wire.PeerAt | node/common.cpp:578-588 | where each peer's address and port lie |
| Wire.PairAt | node/common.cpp:699-711 | where each pair's hash and root lie |
| Wire.NonZeroFacts | node/common.cpp:733-741 | dropping zero pairs keeps the count if and only if there were none |
| Wire.BulkPullRoundTrip | node/common.cpp:926-991 | a bulk pull decodes to itself, with and without a count |
| Wire.HandshakeRoundTrip | node/common.cpp:1352-1394 | a handshake decodes to itself in all four forms |
| Wire.TelemetryRoundTrip | node/common.cpp:1169-1217 | a telemetry record decodes to itself, field by field |
| Wire.TelemetryLayout | node/common.cpp:1193-1217 | the order of the seventeen fields |
| Wire.PayloadRoundTrip | node/common.cpp:578-1394 | for every well-formed message of nine kinds, decoding under the header its constructor makes restores it and leaves exactly what followed |
| Wire.LengthAgrees | node/common.cpp:203-255 | the payload has exactly as many bytes as the header announces |
| Canonical.HandshakeCanonical | node/common.cpp:1366-1394 | an accepted handshake payload is byte for byte its serialisation |
| Canonical.ConfirmReqCanonical | node/common.cpp:719-754 | so is an accepted confirm request of root pairs, and it holds at least one pair and no zero pair |
| Canonical.TelemetryCanonical | node/common.cpp:1169-1190 | so is an accepted telemetry record |
| Canonical.ZeroCountAccepted | node/common.cpp:955-991 | a counted pull with count zero is accepted and is not what the serialiser writes |
| Canonical.BulkPullCanonicalIff | node/common.cpp:955-991 | an accepted bulk pull is its serialisation if and only if it has no count, or a non-zero count with zero reserved bytes |
| Canonical.PayloadCanonicalIff | node/common.cpp:590-1394 | every accepted payload is a well-formed message of the header's kind and, outside that case, exactly its serialisation |
| Streams.InputStream.TryRead | node/common.cpp:598-600 | reads n bytes or fails when fewer are left |
| Streams.InputStream.AtEnd | node/common.cpp:547-552 | true exactly when nothing is left |
| Streams.SerializeKeepalive | node/common.cpp:578-588 | the loop writes the encoding of the peers |
| Streams.DeserializeKeepalive | node/common.cpp:590-608 | the loop fills the peers in place as `DecodePeers` says and fails exactly on a short stream |
| Streams.SerializeConfirmReq | node/common.cpp:699-711 | the loop writes the encoding of the pairs |
| Streams.DeserializeConfirmReq | node/common.cpp:719-754 | the loop reads `count` pairs, drops zero ones and fails as `DecodeConfirmReq` says |
| Streams.SerializeHandshake | node/common.cpp:1352-1364 | query and response are written when present |
| Streams.DeserializeHandshake | node/common.cpp:1366-1394 | query and response are read as the flags say |
| MessageParser.HeaderRoundTrip | node/common.cpp:65-103 | a serialised header is read back and leaves what follows |
| MessageParser.HeaderCanonical | node/common.cpp:76-103 | an accepted header is byte for byte its serialisation |
| MessageParser.MessageHeader.constructor | node/common.cpp:50-55 | a new header has its type and no extensions |
| MessageParser.MessageHeader.Announce | node/common.cpp:673-692 | the constructors' setters give the extensions that the round trips assume |
| MessageParser.VisitIffSuccess | node/common.cpp:342-418 | up to 508 bytes the visitor is called if and only if the final status is success, and at most once; longer buffers call nobody and still report success |
| MessageParser.RefusedByHeader | node/common.cpp:342-418 | which buffers are refused for their header, for an outdated version and for their kind |
| MessageParser.PublishStatus | node/common.cpp:367-379 | a publish is refused as duplicate, malformed or of too little work, in this order |
| MessageParser.RequestStatus | node/common.cpp:455-474 | a request for a block is refused as malformed or of too little work |
| MessageParser.VoteStatus | node/common.cpp:476-503 | a vote is refused as malformed, or exactly when some whole block in it has too little work |
| MessageParser.AcceptedIsSerialised | node/common.cpp:342-545 | every accepted buffer is exactly the serialised form, header included, of the message visited, consumed to the last byte; only a telemetry answer may be followed by more |
| MessageParser.SerialisedIsVisited | node/common.cpp:342-545 | a serialised message of a dispatched kind reaches the visitor unchanged if and only if it has at most 508 bytes |
| MessageParser.LongRequestDropped | node/common.cpp:342-349 | a confirm request of eight pairs or more is dropped with status success |
| MessageParser.MessageParser.constructor | node/common.cpp:331-340 | no status but success, nobody visited |
| MessageParser.MessageParser.DeserializeBuffer | node/common.cpp:342-418 | status and visitor calls are those of `Parse` |
| MessageParser.MessageParser.DeserializeMessage | node/common.cpp:358-410 | the switch is `Dispatch` |
| MessageParser.MessageParser.DeserializeKeepaliveMessage | node/common.cpp:420-432 | keepalive branch of `Dispatch` |
| MessageParser.MessageParser.DeserializePublish | node/common.cpp:434-453 | publish branch, once the filter let it through |
| MessageParser.MessageParser.DeserializeConfirmReqMessage | node/common.cpp:455-474 | confirm request branch, both forms |
| MessageParser.MessageParser.DeserializeConfirmAck | node/common.cpp:476-503 | the loop over the vote's blocks decides whether any has too little work |
| MessageParser.MessageParser.DeserializeNodeIdHandshake | node/common.cpp:505-517 | handshake branch |
| MessageParser.MessageParser.DeserializeTelemetryReq | node/common.cpp:519-530 | telemetry request branch |
| MessageParser.MessageParser.DeserializeTelemetryAck | node/common.cpp:532-545 | telemetry answer branch; the end of the buffer is not looked at |

## Left out

- Signatures, keys and zero-knowledge proofs: a transaction's signature and proof are not modelled; a failed proof generation between selection and enqueueing is not a step.
- Protobuf serialisation of transactions: a database value either deserialises to a transaction or does not.
- The replicated store: a commit applies its operations in order; merging of concurrent deltas, tombstones and priorities is not modelled, nor a commit that fails during a migration.
- Threads, mutexes, timers and the `WaitFor...` methods: each manager method is one atomic step, and any interleaving of the steps is covered.
- Topics of parsed transactions, and the full-node flag that only changes topics.
- `GeniusNode` requests that enqueue ready-made transactions.
- Key conversion failures and the regular expressions that relate transaction and proof keys; in a migration they appear as unusable entries.
- `PayEscrow` on a path that holds another kind of transaction, or a hold without outputs: the source does not test for either and its behaviour there is undefined.
- `ScaledInteger::FromDouble` rounding: prices are exact millionths of a dollar.
- `ScaledInteger` at precisions of 64 and more, where the scale factor is zero and the source divides by it.
- A chunk size of 2^32 - 1, where the source's buffer size wraps to zero.
- Blocks and votes inside messages (`publish`, `confirm_ack`, the block form of `confirm_req`): their readers, the duplicate filter and the work check are parameters of the parser.
- Telemetry records are read and written as functions; the straight-line stream code is not a method here.
- Transport, subtask scheduling, IPFS, blockchain and validation code: other components, not part of this model.
- Canonical.TelemetryCanonical: the timestamp stays a 64-bit number of milliseconds; the source turns it into a clock's time point, in nanoseconds on common platforms, whose conversion overflows above about 9.2 * 10^12 milliseconds.
- Wire.TelemetryRoundTrip: the same holds for timestamps above that bound.
- NodeRuns.NoncesFresh: nonces are unbounded, so the 64-bit wrap-around of the nonce counter is not modelled.
- NodeRuns.NoDoubleSpend: assumes that no other holder of the account's key builds the very same transaction, timestamp included, before this node sends its own; the two would share one hash.
- TransactionManager.Manager.PayEscrow: requires that a transaction fetched from the escrow path is a hold with an output, as the source does implicitly.
