# Omicro: consensus of votes, ledger and logs

This project models the core of the Omicro node and proves what it keeps.

**Consensus of votes** (`src/server.cpp`, `src/omsession.cc`, `src/trxnstate.cc`). A client's transaction is sent to
the zone leaders (i). Each leader polls its followers (j) and collects their votes (k); at a quorum it votes in a first
round among the leaders (l), then in a second (m), then commits and orders its followers to commit (n). `NodeSteps`
holds the handlers seen from one transaction, `Servers` the same handlers as the program runs them over its stores,
proved equal, and `Clusters` the whole network: a bag of messages in flight, steps for submission, delivery, loss and
cleanup, and every sequence of them. `ClusterSafety`, `ClusterProgress`, `ClusterTheorems`, `ClusterThresholds` and
`ClusterMessages` prove the invariants, progress, the commit certificate, how long a leader waits and the message bound
over all runs. `QuerySteps`, `QueryServers`, `QueryClusters` and `QueryThresholds` do the same for voted queries,
`QueryAgreement` says what stands behind every reply, and `QueryRuns` when that is agreement.

**The dynamic circuit** (`src/dynamiccircuit.cc`, `src/omutil.cc`). Every node computes leaders, followers and quorums
on its own. `Circuits` and `DynamicCircuits` hold the definitions and the loops; `CircuitTheorems` proves that the four
computations agree with each other and form the topology that the cluster theorems start from.

**The ledger** (`src/blockmgr.cc`, `src/omaccount.cc`). `JsonTexts` and `TextSplices` model the stored token texts:
reading and printing arrays, and the splice of two array texts at their brackets; `WalletTexts` says what becomes of
such a text over a run. `Tokens` and `TokenDocs` model token transfers over JSON documents, `TokenVotes` the relation
between the check at vote time and the outcome at commit time, `TokenSteps` which records one item touches,
`TokenTotals`, `TokenInvariants` and `LedgerTokens` what transfers keep, `Rounding`, `Accounts` and `LedgerPayments`
payments with balances of six significant digits. `Ledgers` says what one transaction does, `LedgerOutcomes` which ones
go through and what the others are answered, `BlockRecords` what they leave in the block files; `BlockMgrs` is the
object that does it.

**Texts and logs** (`src/omstrsplit.cc`, `src/omicrotrxn.cc`, `src/blockmgr.cc`). `StrSplits`, `Trxns` and
`OmicroTrxns` model splitting and serialization, `BlockLogs` and `BlockReaders` the length-framed block log and its
reader, `TornLogs` what the reader makes of a record cut short, `Wals`, `Recoveries` and `RecoveryTheorems` the
write-ahead log and its replay.

`dafny verify dfyconfig.toml` checks everything.

## Assumptions

- All nodes hold the same non-empty node list without duplicates; the list reader keeps no blank line
  (src/nodelist.cc:54-71). A transaction id always comes with the same non-empty beacon.
- A message is delivered at most once. For safety it may also be lost or rejected by validation, clients may submit the
  same id again at any node, and any counter may be swept at any time. Progress assumes none of that except
  resubmission.
- Handlers are atomic: one thread runs the event loop (src/main.cc:58-60). Runs are stated for one transaction id;
  `Servers.OmServer.DoTrxnL2` proves that a handler touches nothing kept under any other id.
- `OmWaitCount` is not part of this model; its counters are a map with default 0 (`Stores.WaitCount`).
- The record hash is any function of record and seed; sqrt and cbrt of the node count are exact integer floors.
- `validateTrxn` and `validateQuery` answer anything, apart from the check for late messages; the node's own query
  result may differ at every delivery.
- Amounts, balances and limits of tokens are whole numbers written in digits. From a million up the program prints a
  number with an exponent; the model writes the same number out.
- The reading and printing of one JSON value, account-type lookup, `hasDupNames`, file paths, signatures and
  compression are parameters (`Ledgers.Host`); arrays of values are read and printed by the model. Of the value reader
  it is asked that a value starts with no blank, comma or closing bracket, and that an object ends with its brace and
  is read alike whatever follows (`JsonTexts.ReaderLaws`); of the printer, that what it prints is read back before a
  comma or a closing bracket (`JsonTexts.PrinterLaws`). Every JSON value except a requested amount is a string, as the
  code takes for granted. Texts hold no NUL; a transaction arrives as one C string.
- Recovery is stated for runs whose successes have a logged form with '|'- and NUL-free fields, a non-empty beacon and
  less than 10^7 bytes of data, that survives compression; whose ids are distinct, at most 61 characters, without '-'
  and with one ':'; and for crashes between two transactions. Nothing is asked of transactions that fail. A record fits
  the stdio buffer, so that two records appended to the same file do not mix.

## Where the code differs from its documentation

- README.md:38 of the repository says that three messages per node are required on average. The code sends up to
  3(n-m) + m + 2m(m-1) messages for m zones, close to 5n when m is near the square root of n
  (`ClusterMessages.MessageBound`, `CircuitMessages.RequestCostsFivePerNode`).
- getOtherLeadersAndThisFollowers is meant to answer whether the node leads its zone; it answers true for every listed
  node (src/dynamiccircuit.cc:228-238). The protocol is safe all the same (`ClusterTheorems.MailIsAddressed`).
- Replaying the log is meant to rebuild the ledger. createToken rewrites the request of an NFT mint before it is
  logged. The node's signature covers the request (src/omicrotrxn.cc:251-253), so the replay of the local log, which
  verifies (src/server.cpp:70, src/blockmgr.cc:1633-1638), drops such a record; a replay that does not verify rewrites
  it once more and adds a second owner member. Exactly the runs whose successes past the crash mint no NFT and still
  validate are rebuilt (`RecoveryTheorems.RecoveryIsExactlyWhenFaithful`).
- A second mint is meant to add to the tokens of an account. createToken takes the closing brackets off the very end of
  the stored text and goes on there; with a blank behind the bracket nothing is taken off, and with an empty array on
  either side a comma stands where an element must, so the text is never read again
  (`WalletTexts.MintIsReadExactlyWhen`, `WalletTexts.TrailingBlankLosesTokens`).
- The reply to a voted query is meant to be what a majority of zones computed. The votes are counted by query id alone,
  and the node replies with the first result it kept, so with two different responses in play the reply may be one that
  no majority computed (`QueryRuns.AgreedExactlyWithOneResponse`, `QueryRuns.TwoZonesDisagree`).
- A payment and a token transfer are meant to move something. To oneself they only credit, because both records are read
  before either is written (`LedgerPayments.PayingOneselfCredits`, `LedgerOutcomes.TransferToOneselfCredits`).
- A payment is meant to move an amount. Balances keep six significant digits, so from a million up the two balances may
  change by something else (`LedgerPayments.PaymentIsExactExactlyWhen`).

## Model

| member | source | states |
|---|---|---|
| ClusterTheorems.CommitCertificate | src/server.cpp:294-433 | in every run, with loss, reordering, rejection, resubmission and counters swept at any time: once a node has committed, its leader has received and counted the m votes of a quorum of distinct leaders, each of those has counted the l votes of a quorum of distinct leaders, and each of these the k votes of a quorum of distinct nodes of its own zone; a quorum of n is at least 2f + 1 for the f with 3f < n <= 3f + 3, and the zone is counted with its leader |
| ClusterThresholds.VotesAtQuorum | src/server.cpp:294-435 | both ways in every run: a leader is in C, or has sent an l vote, only with the k votes of a quorum of its zone counted, and likewise for D and the commit among all leaders; and as long as it waits, what it has counted is short of that quorum (but for its own first vote), it has counted itself, and the counters of finished rounds are empty |
| ClusterThresholds.VoteMovesExactly | src/server.cpp:298-435 | a vote moves a node on if and only if it completes a quorum of its zone (k) or of all leaders (l, m) in a round the node has not passed; an l vote may lead to the commit at once; a follower would count votes like a leader |
| ClusterThresholds.LateOrRejectedIsDropped | src/omsession.cc:288-310 | after the commit, or when validation rejects it, a message changes nothing and is not answered |
| ClusterThresholds.MisaddressedIsHarmless | src/omsession.cc:383-434 | a poll or invitation at the wrong node is not answered; a commit order at a leader commits nothing, although the state becomes F |
| ClusterProgress.QuietMeansCommitted | src/server.cpp:261-513 | progress: with two or more zones and nothing lost or rejected, in any order of delivery, once a client has submitted and nothing is in flight every leader is in F and every node has committed exactly once, although leaders may skip C or D and then never vote |
| ClusterTheorems.SoleZoneNeverCommits | src/server.cpp:336-435 | with a single zone no run ever commits anything |
| ClusterTheorems.MailIsAddressed | src/dynamiccircuit.cc:210-258 | in every run i, k, l and m in flight go to true zone leaders and j and n to followers, so the weak leader test of onRecvK, onRecvL and onRecvM (true for every listed node) never makes a follower act, and the -171 answer of onRecvN is never given |
| ClusterTheorems.CommitsExactlyInF | src/omsession.cc:422-434 | receiveTrxn is called at most once for an id on a node, and exactly once if and only if the state is F |
| ClusterTheorems.StateNeverFalls | src/trxnstate.cc:44-149 | the state byte of a node never decreases between any two points of any run |
| ClusterSafety.RunsAreSafe | src/server.cpp:302-329 | the inductive invariant: no counter exceeds the distinct voters whose votes were received and counted, under loss, cleanup and repeated requests, also where a leader without followers counts its own k vote twice |
| ClusterMessages.MessageBound | src/omsession.cc:543-593 | every message sent is delivered, lost or in flight, and all runs send at most s*m + 3(n-m) + 2m(m-1) of them for s submissions, so the protocol always comes to rest |
| CircuitMessages.RequestCostsFivePerNode | src/dynamiccircuit.cc:36-67 | on the circuit that n nodes build, for every n and at both levels, one request costs at most 5n - 4 messages |
| QueryAgreement.ReplyIsBacked | src/omsession.cc:940-996 | whatever is submitted where and how often: a node replies at most once, with a result it computed itself, and then it has counted l votes of more than half of the zones; each of them carries a response submitted at that node, which a leader and followers that make a quorum of its zone (2f + 1 for the f with 3f < n <= 3f + 3, the leader among the n) computed |
| QueryThresholds.VotesAtQuorum | src/server.cpp:631-725 | in every run a node before C has counted less than a quorum of its zone, and before D no more than half of the zones; the counts are dropped when they are acted on, and a leader without followers does not stay in B |
| QueryThresholds.ReplyEndsTheWait | src/omsession.cc:975-996 | a reply goes exactly to a client that waits, who then waits no more, on the l vote that completes the majority |
| QueryThresholds.MisaddressedIsPassedOver | src/omsession.cc:866-935 | a k vote or an invitation at a follower and a poll at a leader change nothing but the kept result |
| QueryAgreement.OwnResponseIsAgreed | src/omsession.cc:858-996 | when all submissions at the replying node carry one response, more than half of the zones agree on it, and the reply is that response or one submitted at another node |
| QueryAgreement.ReplyIsAgreed | src/omsession.cc:940-996 | when all submissions of the id carry one response, the string sent is that response, and for more than half of the zones a leader and a quorum of its followers computed it |
| QueryRuns.AgreedExactlyWithOneResponse | src/omsession.cc:858-1064 | with two or more zones, in every run the reply is one on which more than half of the zones agree, if and only if too few zones can vote for the node or all submissions of the id, anywhere, carry one response |
| QueryClusters.RunsAreSafe | src/server.cpp:631-725 | the inductive invariant of the network of one query: what every vote and counter stands for, in every run of submissions at any node, deliveries, losses and cleanups |
| QueryRuns.TwoResponsesDisagree | src/server.cpp:676-725 | a reachable run for every topology that can reply: submitted twice with different responses, the query is answered with the first although one zone at most computed it |
| QueryRuns.TwoZonesDisagree | src/server.cpp:676-725 | the same on a concrete network of two zones with two nodes each |
| QueryRuns.OtherNodesMatter | src/omwaitstr.cc:12-19 | even with one response at the replying node, a result kept for a submission at another node is what is sent |
| QueryRuns.NoReplyWithoutSpeakers | src/omsession.cc:900-925 | zones whose leader has no followers never vote, so a node that fewer than a majority of other zones can reach never replies |
| Quorum.QuorumOverlap | src/omutil.cc:38-42 | two vote sets of size twofplus1 among the same N voters share at least 4f + 2 - N of them, f = (N-1)/3 |
| Quorum.QuorumsMeetExactlyWhen | src/omutil.cc:38-42 | two such sets always share a voter for every N >= 1 except exactly 2, 3 and 6 |
| Quorum.ThresholdIsQuorum | src/omutil.cc:38-42 | twofplus1 of n >= 1 is reached exactly by 2f + 1 votes or more, for the f with 3f < n <= 3f + 3 |
| Circuits.ZoneIndexInRange | src/dynamiccircuit.cc:36-96 | for every n >= 1 and every hash below n the zone index is below the number of zones, at both levels |
| Circuits.ZoneIsSlice | src/dynamiccircuit.cc:78-96 | the zone of a node is the slice of width d that its hash below n falls in, where f slices of that width fill n up to a rest below f and f is the square root of n rounded down, from 10000 nodes on the cube root |
| Circuits.ZonesAreRoot | src/dynamiccircuit.cc:36-52 | the number of zones is the square root of n rounded up, from 10000 nodes on the cube root |
| CircuitTheorems.LeadersAgree | src/dynamiccircuit.cc:78-299 | isLeader, getLeader and getZoneLeaders pick the same nodes, the first of each zone in list order, and for them isLeader and getOtherLeadersAndThisFollowers give the same followers |
| CircuitTheorems.OtherLeadersAreOthers | src/dynamiccircuit.cc:210-258 | the other-leaders list holds each leader of the other zones exactly once |
| CircuitTheorems.ZoneMatesAreMates | src/dynamiccircuit.cc:210-258 | the followers list holds each other node of the zone exactly once |
| CircuitTheorems.LeadersCountAlike | src/server.cpp:361-363 | every listed node counts the same number of leaders, otherLeaders.size() + 1, so all ask for the same l and m quorum; it is at most the number of zones |
| CircuitTheorems.ZonesPartitionNodes | src/dynamiccircuit.cc:78-207 | the leaders and their follower lists laid end to end hold every node exactly once |
| CircuitTheorems.TopologyIsValid | src/dynamiccircuit.cc:78-107 | each zone leader leads its own zone, and the leaders are the non-blank entries of getZoneLeaders: what the cluster theorems assume of a topology holds of every circuit |
| DynamicCircuits.DynamicCircuit.GetZoneLeaders | src/dynamiccircuit.cc:70-107 | the loop fills the first node of each zone, blank for an empty zone |
| DynamicCircuits.DynamicCircuit.IsLeader | src/dynamiccircuit.cc:158-207 | the loop with its early exit decides leadership and lists the followers only for the leader |
| DynamicCircuits.DynamicCircuit.GetOtherLeadersAndThisFollowers | src/dynamiccircuit.cc:210-258 | answers true for every listed node, leader or not, with the other leaders and the rest of the zone |
| DynamicCircuits.DynamicCircuit.GetLeader | src/dynamiccircuit.cc:264-299 | finds the zone leader and whether it is the node itself |
| Servers.OmServer.DoTrxnL2 | src/omsession.cc:337-470 | one message through the real stores changes one transaction as Handle says, sends exactly its mail, and touches no other id |
| Servers.OmServer.OnRecvK | src/server.cpp:261-334 | counts a k vote; at the quorum the state becomes C, l goes to the other leaders, the own l counts, and the k counter is dropped |
| Servers.OmServer.OnRecvL | src/server.cpp:336-397 | counts an l vote; at the quorum D, the own m, and the immediate check that may already commit |
| Servers.OmServer.OnRecvM | src/server.cpp:400-435 | counts an m vote below E; at the quorum the zone is told and the leader commits |
| Servers.OmServer.OnRecvN | src/server.cpp:440-488 | -171 for a leader, -173 in F or beyond, else receiveTrxn once, with its code when that is negative |
| Servers.OmServer.SendFollowersXITn | src/server.cpp:490-513 | n to the followers, state F, one commit, m counter dropped |
| Servers.OmServer.OnRecvI | src/omsession.cc:340-382 | a leader takes up a new id through A and B, counts itself and polls its followers, or goes straight on without any |
| Servers.OmServer.OnRecvJ | src/omsession.cc:383-404 | a follower votes to its leader, a leader does not |
| Servers.OmServer.InitTrxn | src/omsession.cc:543-593 | a request below F is sent to every zone leader once |
| Servers.OmServer.Multicast | src/server.cpp:515-540 | one message to each host that is not empty, in order, repeated entries included |
| Servers.OmServer.DoCleanup | src/server.cpp:727-735 | the transaction half: expired counters of all three rounds read zero, states and commits stay |
| Stores.TransitsRise | src/trxnstate.cc:68-128 | no transit lowers the state byte at either level, and a known id is never taken up again |
| Stores.TransitsExactly | src/trxnstate.cc:68-128 | the whole table: with two levels i to n lead to A to F, i from a new id only, the others from the state before or their own; with three levels i to q lead to A to I, each from the state before only |
| Stores.TrxnState.GoState | src/trxnstate.cc:44-128 | an allowed transit moves the id, any other changes nothing |
| Stores.TrxnState.InsertOrUpdateState | src/trxnstate.cc:130-142 | inserts or overwrites, except that a terminated id stays terminated |
| Stores.TrxnState.GetState | src/trxnstate.cc:30-42 | the byte of an id, ST_NULL when absent |
| Stores.WaitStr.Add | src/omwaitstr.cc:12-19 | the first string stored under an id wins |
| Stores.WaitStr.Cleanup | src/omwaitstr.cc:34-45 | exactly the entries older than the limit go |
| Stores.WaitStr.Get | src/omwaitstr.cc:21-27 | the string kept, or what the caller had |
| QueryServers.QueryServer.DoQueryL2 | src/omsession.cc:845-1001 | one query message through the real stores changes one query as HandleQuery says and sends exactly its mail |
| QueryServers.QueryServer.OnRecvQueryK | src/server.cpp:631-671 | 0 exactly when this vote completes the zone quorum; -1 for a follower, -100 for a late vote, -50 short of the quorum |
| QueryServers.QueryServer.OnRecvQueryL | src/server.cpp:676-725 | 0 exactly when this vote completes the majority of zones, empty ones included; -100 for a late vote, -50 short of it |
| QueryServers.QueryServer.InitQuery | src/omsession.cc:1007-1064 | invites every zone leader with this node and the result it has just computed, and keeps the client only when enough could be reached |
| QueryServers.QueryServer.DoCleanup | src/server.cpp:727-735 | the query half: expired counters read zero, a result kept longer than 240 seconds goes, states and clients stay |
| TextSplices.SpliceReadsExactlyWhen | src/blockmgr.cc:297-311 | of the two texts alone: the stored text without its closing brackets, a comma and what follows the first bracket of the request read as one array after the other if and only if the stored text ends in its bracket and neither array is empty; otherwise nothing that is ever spliced on top can be read again |
| JsonTexts.PrintReads | src/blockmgr.cc:1181-1191 | a printed array reads as itself and ends in its bracket |
| WalletTexts.MintIsReadExactlyWhen | src/blockmgr.cc:258-323 | a successful mint leaves tokens that can be read if and only if the account had none, or its stored text ends in the bracket and neither array is empty; then it holds the old tokens followed by the minted ones, and no other account changes |
| LedgerOutcomes.MintsExactlyWhen | src/blockmgr.cc:258-323 | a mint goes through if and only if the account exists, every element can be minted and hasDupNames finds no key of the rewritten request among those of the tokens held; -10 and -15 otherwise, and nothing changes |
| LedgerOutcomes.MintsElementwise | src/blockmgr.cc:1442-1487 | an element can be minted if and only if it is an object with a name of 1 to 128 and a limit of 1 to 20 characters; an NFT, with a limit that is 1 as an int, gets the sender as owner and keeps every other member, anything else stays as it was sent |
| LedgerOutcomes.IntOfLong | src/blockmgr.cc:1479 | the limit of a mint is read modulo 2^32 into the range of an int |
| LedgerOutcomes.SentIsStored | src/blockmgr.cc:1489-1495 | a request without an NFT is stored and logged as it was sent |
| TextSplices.SplicedTextIs | src/blockmgr.cc:297-311 | the text stored by a second mint, character by character |
| JsonTexts.PrintIs | src/blockmgr.cc:1181-1191 | the text of a printed array: the elements, commas between them, no blanks |
| WalletTexts.TrailingBlankLosesTokens | src/blockmgr.cc:283-311 | the input that shows it: a first mint with a blank behind its bracket is stored as sent and read, and any second mint that is accepted makes the whole wallet unreadable |
| WalletTexts.RunsAreSound | src/blockmgr.cc:258-323 | over every run a stored token text is empty, an array of objects, or broken for good |
| LedgerTokens.FungibleTotalIsKept | src/blockmgr.cc:865-1191 | over any run of payments, account openings, mints of other names and token transfers between distinct accounts, the total of a fungible name over all accounts never grows, and it stays the same if and only if no mint spoils a text that holds some of it, below a million |
| LedgerTokens.NFTHasOneHolder | src/blockmgr.cc:1055-1123 | over any such run an NFT minted once has exactly one holder if and only if no mint spoils the text of its holder: the only account whose own record names it as owner, and the only one with balance 1; otherwise nobody holds it ever again |
| LedgerTokens.MintMakesTheHolder | src/blockmgr.cc:258-323 | minting an NFT of a new name once makes the sender that holder, whatever owner the request named, if and only if the stored text takes more tokens |
| LedgerTokens.VotedTransferCommits | src/blockmgr.cc:1368-1422 | a transfer that isXferTokenValid accepts goes through in transferToken on the same accounts, when sender and receiver differ and no name repeats |
| LedgerOutcomes.VotesExactlyWhen | src/blockmgr.cc:1368-1422 | a node votes for a transfer if and only if both accounts exist, the sender has tokens with a key of the request, both wallets and the request can be read, and each item asks for a token that the sender can pay; else -10, -20, -30, -40 or -50 in this order |
| LedgerOutcomes.TransfersExactlyWhen | src/blockmgr.cc:865-935 | the same early codes at commit time, -50 when the items cannot be moved, else both wallets written, one out counted for the sender and one in for the receiver, and nothing else changed |
| LedgerOutcomes.TransferToOneselfCredits | src/blockmgr.cc:865-935 | the input with sender and receiver the same: only the credited wallet is kept |
| LedgerOutcomes.TypeDecides | src/blockmgr.cc:111-136 | P, A, T and X decide what a transaction is; anything else is answered -1000 |
| TokenVotes.CheckPassesExactlyWhen | src/blockmgr.cc:1197-1364 | the check passes if and only if the sender's text is an array, the receiver's can be read, the request is an array, and each item is an object with a name of at most 128 characters and an amount of 1 when absent, else a text of at most 20 characters and positive, within the balance of the first record of that name, which has a limit and, as an NFT, the sender as owner |
| TokenVotes.VoteImpliesCommit | src/blockmgr.cc:941-1364 | if checkValidTokens returns 0 on a request with pairwise distinct names, modifyTokens succeeds on the same tokens |
| TokenVotes.RepeatedNamesGoThroughExactlyWhen | src/blockmgr.cc:941-1364 | with names repeating, a checked request goes through if and only if for each name the whole request stays within the balance and an NFT is asked for once (balances below a million) |
| TokenVotes.RepeatedNameFails | src/blockmgr.cc:1345-1350 | the input that shows distinct names are needed: three of five tokens, asked for twice, pass the check and fail with -50 |
| TokenVotes.MovesExactlyWhenPayable | src/blockmgr.cc:984-1173 | without the bound: a request goes through if and only if each name can be paid item by item, each from the rounded rest |
| TokenInvariants.RequestKeepsSum | src/blockmgr.cc:1033-1173 | what one request takes from the sender of a fungible name it gives to the receiver, item by item |
| TokenInvariants.RequestKeepsHolder | src/blockmgr.cc:1055-1173 | one request moves an NFT only from its holder, and leaves it with one holder |
| TokenTotals.MoveHere | src/blockmgr.cc:1033-1173 | the two loops seen from one name: the first record of the sender is debited, the first record of the receiver credited or a copy made, and no other record of the name changes |
| TokenTotals.MoveElsewhere | src/blockmgr.cc:1033-1173 | an item moves no record of another name, in either account |
| TokenSteps.ItemReadsAs | src/blockmgr.cc:984-1029 | a transfer item by its members: wanted, passed over, or refused with -41, -42, -44, -45 or -46 |
| TokenSteps.LongAmountIsPassedOver | src/blockmgr.cc:1010-1012 | an item with an amount of more than twenty characters moves nothing and refuses nothing, although the vote refuses it |
| TokenSteps.DebitStopsAtFirst | src/blockmgr.cc:1033-1093 | the debit stops at the first record that decides it: -70, -81, -50, or the balance lowered; records without a balance are passed over but NFTs among them change hands; -55 when none decides; nothing behind changes |
| TokenSteps.CreditGoesToFirst | src/blockmgr.cc:1096-1133 | the credit goes to the first record of the name with a balance and to no other |
| TokenSteps.FirstMember | src/blockmgr.cc:1006-1018 | a search finds the first member of a key, and a change touches that one only |
| TokenSteps.CopyIs | src/blockmgr.cc:1150-1164 | the copy made for a new receiver, member by member |
| TokenChecks.AtolOfShowBelow | src/blockmgr.cc:1120-1124 | a balance below zero is printed and read back with its sign |
| WalletTexts.UnreadableForever | src/blockmgr.cc:941-960 | once its tokens cannot be read, an account sends and receives none in any later run, whatever is minted on top |
| TokenDocs.ModifyBoth | src/blockmgr.cc:941-1191 | the nested loops over the documents compute ModifyTokens, with every error code, and write nothing back on a failure |
| TokenDocs.DebitTokens | src/blockmgr.cc:1030-1088 | the loop over the sender: first record of the name with a balance, owner changes on the way |
| TokenDocs.CreditTokens | src/blockmgr.cc:1096-1133 | the loop over the receiver |
| TokenDocs.AddToken | src/blockmgr.cc:1137-1173 | the copy of the sender's record, balance replaced by the amount as written |
| TokenDocs.CheckTokens | src/blockmgr.cc:1197-1364 | the loops of the vote-time check, with every error code |
| LedgerPayments.PaymentIsAlmostKept | src/blockmgr.cc:326-377 | a payment between two accounts moves their total by at most one part in 200000 of it, below a million not at all, and touches no other account |
| LedgerPayments.PaysExactlyWhen | src/blockmgr.cc:339-360 | a payment of any amount succeeds if and only if both accounts exist and the amount is within the balance and 10^10 either way; -90, -92 and -30 otherwise, in this order, and nothing changes |
| LedgerPayments.PaymentMovesExactly | src/blockmgr.cc:351-374 | between two accounts: the sender loses the amount and gains one out, the receiver gains the amount and one in, each to six digits; no other field and no other account changes |
| LedgerPayments.PayingOneselfCredits | src/blockmgr.cc:351-374 | the input with sender and receiver the same: the amount is credited and never debited |
| LedgerPayments.PaymentIsExactExactlyWhen | src/blockmgr.cc:339-371 | a payment takes exactly the amount from one account and gives it to the other if and only if both new balances are multiples of the scale of their six digits |
| LedgerPayments.OpeningBalancePaysForNothing | src/omaccount.cc:43-58 | the input that shows exact conservation is false: from 10000000, paying 1 leaves 10000000 |
| LedgerPayments.RoundsToItself | src/omaccount.cc:54-56 | a balance is stored unchanged if and only if it is a multiple of its scale |
| LedgerPayments.StoredIsStable | src/omaccount.cc:43-58 | a stored balance is stored again as it is: what is lost to rounding is lost once |
| LedgerPayments.PaymentKeepsOrder | src/omaccount.cc:43-58 | rounding never reorders two balances that pay or receive the same |
| LedgerPayments.OpensExactlyWhen | src/blockmgr.cc:196-255 | an account is opened if and only if its name fits, is free and its type is known, with 10000000, no tokens and the fixed fields; -1, -3 and -5 otherwise; no existing account changes |
| Rounding.RoundError | src/omaccount.cc:54-56 | six significant digits lose at most five parts in a million |
| Rounding.RoundIsNearest | src/omaccount.cc:54-56 | the stored balance is a multiple of the scale, none is closer, and at an exact tie its last digit is even |
| Rounding.ScaleIsDecade | src/omaccount.cc:54-56 | the scale is the power of ten that leaves six digits before it |
| Rounding.RoundMonotone | src/omaccount.cc:54-56 | rounding keeps order, also across powers of ten |
| Rounding.RoundIdempotent | src/omaccount.cc:54-56 | a rounded balance rounds to itself |
| LedgerTotals.TransfersAreCounted | src/blockmgr.cc:326-377 | over any run of transfers between different accounts the sums of out_ and of in_ both grow by the number of successes |
| LedgerTotals.TransfersAreCountedPerUser | src/blockmgr.cc:326-377 | and for each user: out_ grows by the transfers that user sent and in_ by those received, payments and token transfers alike; nothing else moves a counter |
| LedgerTotals.FailureChangesNothing | src/blockmgr.cc:111-136 | a transaction that fails changes no account |
| Accounts.OmAccount.AddBalance | src/omaccount.cc:43-58 | answers the unrounded balance, stores the rounded one, and stores nothing with -15 and -20 |
| Accounts.OmAccount.IncrementFence | src/omaccount.cc:70-75 | out_ grows by one |
| Accounts.OmAccount.IncrementIn | src/omaccount.cc:77-82 | in_ grows by one |
| BlockMgrs.BlockMgr.SaveTrxn | src/blockmgr.cc:111-192 | dispatch, then the write-ahead record, then the block records; on failure nothing is written |
| BlockRecords.SaveAddsRecords | src/blockmgr.cc:111-192 | a success adds one record marked - to the sender's file and, for a payment or token transfer, one marked + to the receiver's, in the exact text, with the data of the logged form; no other file changes; a failure changes nothing |
| BlockMgrs.BlockMgr.UpdateAcctBalances | src/blockmgr.cc:326-377 | both records are read before either is written back |
| BlockMgrs.BlockMgr.CreateAcct | src/blockmgr.cc:196-255 | codes -1, -3 and -5, or a new account |
| BlockMgrs.BlockMgr.CreateToken | src/blockmgr.cc:258-323 | codes -10, -15 and -20, or the request stored or spliced onto the stored text by the two scans, and the request text as it goes into the logs |
| BlockMgrs.BlockMgr.ValidateReqTokens | src/blockmgr.cc:1425-1498 | the loop that checks a mint and sets the owner of each NFT in it |
| BlockMgrs.BlockMgr.TransferToken | src/blockmgr.cc:865-935 | codes -10 to -50, or both wallets and counters |
| BlockMgrs.BlockMgr.IsXferTokenValid | src/blockmgr.cc:1368-1422 | the answer a node votes on |
| BlockMgrs.BlockMgr.AppendToBlockchain | src/blockmgr.cc:645-665 | one length-framed record at the end of the user's file |
| BlockMgrs.BlockMgr.ReplayWallog | src/blockmgr.cc:1510-1694 | the byte-by-byte replay loop computes Replay |
| BlockMgrs.BlockMgr.ReplayRecord | src/blockmgr.cc:1627-1684 | validation, id and sender checks, the lookup, and the save without logging |
| RecoveryTheorems.RecoveryIsExactlyWhenFaithful | src/blockmgr.cc:1501-1694 | after a crash between two transactions of a run whose successes have distinct ids, replaying the whole log from what is already applied ends in the final accounts and block files if and only if no success past the crash mints an NFT and, when the replay verifies, each still validates in its logged form |
| RecoveryTheorems.RecoveryIsExact | src/blockmgr.cc:1501-1694 | the sufficient half for every prefix already applied, without the assumptions on JSON: a replay after the full run changes nothing whatever the run held, a replay from the start rebuilds everything |
| Recoveries.RecordReplays | src/blockmgr.cc:1534-1684 | each logged record is read back whole, and applied exactly when it validates, if the replay verifies, and its sender's file does not hold the id |
| Recoveries.RecordOutsideWindow | src/blockmgr.cc:1601-1612 | a record from before the window is passed over whole, one from after it ends the replay |
| Wals.RecordChangesOnly | src/blockmgr.cc:1627-1684 | a record changes something only when it validates, its id is that of the transaction in it and names the sender, and the sender's file holds no record of it; then it is saved without logging |
| Wals.LongFieldIsRefused | src/blockmgr.cc:1534-1550 | a header field of more than 61 characters ends the replay |
| Wals.EmptyFieldEnds | src/blockmgr.cc:1552-1601 | and so does an empty one |
| Recoveries.AppliedIsSkipped | src/blockmgr.cc:1627-1684 | a log of transactions already applied changes nothing, whether its records validate or not |
| BlockLogs.LogRoundTrip | src/blockmgr.cc:427-619 | readTrxns for an id returns 0, exactly the data of the appended records of that id in order, and T when the log is not empty, even when data holds the frame characters |
| TornLogs.TornLogIsReported | src/blockmgr.cc:427-619 | a log whose last record was cut short anywhere: everything before it is found, and the code tells where the cut is |
| TornLogs.StatusDecides | src/blockmgr.cc:565-597 | behind the second length only T and F with a closing brace are read, with data of at least ten fields; -64 and -70 otherwise |
| TornLogs.LongLengthIsRefused | src/blockmgr.cc:455-535 | eight digits and one character more are refused, -1 and -40 |
| TornLogs.NothingMoreToRead | src/blockmgr.cc:436-484 | no digit, or a NUL behind the digits, ends the log with 0; a missing file answers -1000 |
| BlockReaders.ReadAll | src/blockmgr.cc:427-619 | the byte-by-byte reader computes ReadTrxns, with every error code |
| BlockReaders.ReadDigits | src/blockmgr.cc:454-472 | the digit loop and its limit: a ninth character read while eight digits are held |
| Trxns.ParseRestoresExactlyWritable | src/omicrotrxn.cc:62-115 | parsing allstr restores all 27 fields if and only if the beacon is not empty and no field holds a separator or a NUL |
| Trxns.LineIs | src/omicrotrxn.cc:206-322 | the order of the 19 signed fields and of the 8 behind them, and the id |
| Trxns.DataNamesTrxn | src/omicrotrxn.cc:224-227 | the id of a transaction can be read off fields 5 and 2 of its data |
| Text.CStringCuts | src/omicrotrxn.cc:62-70 | a transaction text is a C string: what stands behind a NUL is lost |
| Text.AtolReads | src/omicrotrxn.cc:170-175 | an amount is read past white space, with a sign or none, up to the first character that is no digit |
| OmicroTrxns.OmicroTrxn.Init | src/omicrotrxn.cc:62-115 | the field-by-field assignment parses the text |
| OmicroTrxns.OmicroTrxn.GetTrxnID | src/omicrotrxn.cc:224-227 | the id under which the block log finds a transaction: timestamp and sender |
| OmicroTrxns.OmicroTrxn.GetTrxnData | src/omicrotrxn.cc:301-322 | the 19 data fields joined by the separator |
| OmicroTrxns.OmicroTrxn.AllData | src/omicrotrxn.cc:206-214 | allstr: all 27 fields joined by the separator |
| StrSplits.SplitAndJoin | src/omstrsplit.cc:49-113 | a non-empty text splits into a list if and only if it is that list joined, for lists of separator-free fields |
| StrSplits.RegionDropsBlanks | src/omstrsplit.cc:66-109 | with ignoreregion the fields are the plain fields that are not blank, or one blank field when all are |
| StrSplits.OmStrSplit.Count | src/omstrsplit.cc:64-81 | the count pass finds the number of fields |
| StrSplits.OmStrSplit.Init | src/omstrsplit.cc:49-113 | the split pass fills exactly the counted slots with the fields |
| StrSplits.OmStrSplit.Get | src/omstrsplit.cc:129-155 | a field, or the empty text outside the list |

## Left out

- ClusterProgress.QuietMeansCommitted: progress is stated for runs without loss, rejection and cleanup; with any of them
  the protocol has no retry and may stop.
- QueryAgreement.ReplyIsAgreed: which one of several responses is sent is left open beyond
  QueryAgreement.OwnResponseIsAgreed.
- LedgerTokens.FungibleTotalIsKept: totals of a million and more are not exact, because balances keep six digits; mints
  of the name itself are excluded.
- LedgerPayments.PaymentIsAlmostKept: fractional amounts and their binary rounding are not modelled.
- RecoveryTheorems.RecoveryIsExact: crashes inside saveTrxn, between the account writes, the log and the block append,
  are not modelled.
- Progress of queries: a leader without followers discards the quorum it reaches (src/omsession.cc:901-904).
- getOtherLeaders of the circuit, which nothing calls, and addressing beyond the skip of empty hosts.
- The multi-level transits past B of three-level networks, enrollment, smart contracts and UDP: no caller.
- Sockets, threads, replies to clients, configuration and key files; signatures, compression and hashing as libraries.
- hasDupNames, which compares JSON keys rather than token names: a parameter, so nothing is said about which second
  mints succeed.
- A store file created by looking up a user who does not exist, hash-bucket collisions of account files, and the code
  -10 of createAcct, which needs one of them.
- rollbackFromBlockchain, taken only when a file cannot be opened.
- In modifyTokens the codes -48 and -90, which no input reaches; an NFT credited to a record without an owner member is
  left without one.
- onefplus1, which nothing calls.
- 64-bit wrap of out_ and in_, overflow in atol and atof, runQuery, trxnList and queryTrxn.
- OmStrSplit shift, back, exists, contains and pointTo.
