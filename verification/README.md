# Verified model of the orderer's consensus

The orderer agrees on blocks of client commands with one of four protocols: basic HotStuff,
chained HotStuff, HotStuff-2 and PBFT. This project models their cores, the Merkle trees they
hash commands with and the block store they write to, and proves what the protocols are for:
agreement, what every step keeps, what every run leaves on disk.

| file | what it holds |
|---|---|
| `Common.dfy` | bytes, hash functions, views, the vote bound `(n-1)/3*2`, rotation of leaders |
| `Merkle.dfy` | both root functions, the tree of section 2.1 of RFC 6962, binding |
| `Blockchain.dfy` | blocks, `BlockStore`, the hash chain on disk |
| `HotstuffTypes.dfy` | nodes, certificates, messages, the bytes they are signed on, the ideal threshold signature |
| `BasicHotstuffSpec.dfy`, `BasicHotstuff.dfy` | one replica of basic HotStuff: every handler as a function on values, and the class that updates its fields, proved equal to the functions |
| `HotstuffLog.dfy` | safety over the log of all signature shares: quorum intersection, unique certificates, branches |
| `HotstuffSystem.dfy` | the step system of n replicas, and what every run keeps |
| `HotstuffGuards.dfy` | the guards: conditions on what handlers take on trust, and what a run keeps for each guard kept |
| `HotstuffTheorems.dfy` | the results over every run, each with the guards it uses |
| `HotstuffRoundTrip.dfy`, `HotstuffHandOver.dfy` | one view from votes to decision, the hand-over to the next view, and certificates of mismatched votes |
| `HotstuffRules.dfy` | what makes a replica vote, certify, decide and propose, with exact conditions, and the quorum behind every proposal |
| `HotstuffUnguarded.dfy`, `HotstuffForeignVote.dfy`, `HotstuffUnbounded.dfy` | the runs in which agreement fails without one of its guards |
| `ChainedSpec.dfy`, `ChainedHotstuff.dfy` | one node of chained HotStuff, as functions and as a class |
| `ChainedPipeline.dfy` | the four-slot window refines a log written three views late |
| `ChainedProgress.dfy` | such runs exist for every list of requests |
| `ChainedRules.dfy` | what makes a node propose, accept, lock, store and certify, with exact conditions |
| `Hotstuff2Commit.dfy` | the lock lists of HotStuff-2 and what commits store and drop |
| `PbftTypes.dfy`, `PbftSpec.dfy`, `Pbft.dfy` | one PBFT replica in the normal case, as functions and as a class, and its view-change handler |
| `PbftNormalCase.dfy` | the results over every run without view changes |
| `PbftQuorum.dfy` | what makes a replica reply, and that the votes of 2f+1 replicas do |
| `PbftViewChange.dfy` | P sets, sequence bounds, O sets, new-view safety |

`dafny verify dfyconfig.toml` checks the whole project.

## What is taken as given

- n = 3f+1 replicas, at most f faulty, for basic HotStuff. The network loses, repeats, reorders
  and invents messages. Faulty replicas sign any bytes. A signature can be put into a message
  only if the shares it consists of were made (`MsgDerivable`).
- The threshold signature is ideal: it verifies on some bytes only when enough distinct signers
  signed exactly those bytes (`Sound`), and valid shares of distinct signers combine (`Complete`,
  used only where a certificate has to come about). `ConfigExists` shows a signature that is both.
- PBFT signatures are parameters; where votes have to be accepted, each verifies under its signer's name (`Honest`).
- The hash is any function with digests of 32 bytes. Nothing is claimed to be collision-free:
  binding results hand back a collision.
- Disk writes succeed. Times of blocks are parameters. A nil slice and an empty slice are one
  value, save the command list of a PBFT proposal, where the source tells them apart.

A `Run` of basic HotStuff starts in the initial state and delivers any messages that the shares
made so far allow. In every one of them votes rise, views never fall, a correct leader proposes
once a view, and certificates appear in the order of the phases. What rests on more holds in every
`GuardedRun`, which keeps some of the guards of `HotstuffGuards.dfy`. Each is a condition on a
message and the replica that is to handle it, checked before the call, and each theorem asks only
for the guards that it uses:

| guard | condition on a message | used by |
|---|---|---|
| `bounds` | an accepted proposal or certificate has a view below 256 and a current hash of 32 bytes, because a vote signs the view as one byte and joins the two hashes without a separator (`SignedBytesCollide`); votes are collected in such views | one node per view, agreement |
| `justify` | a proposal that passes only because its certificate claims a view above the lock (the second half of `SafeNode`) has a certificate that verifies; `HandlePrepare` does not check it | agreement |
| `preCommitVote` | the vote that completes a pre-commit certificate names the leader's view and node; `HandlePreCommitVote` locks on whatever it names | agreement, the lock |
| `prepareVote` | the same for the prepare certificate | the replica's prepare certificate |
| `newView` | the certificate of an accepted new-view message has such a view and hash | proposals of leaders |

Agreement rests on the first three, and fails without any one of them. For each there is a run of
four replicas, one of them faulty, that keeps all other guards and ends with two commit certificates
that verify and nodes that no branch joins: `AgreementNeedsGenuineJustify`, `AgreementNeedsOwnNode`,
and for either bound `AgreementNeedsBounds` and `AgreementNeedsOneByteViews`.
A certificate that a leader forms verifies exactly when the completing vote names the leader's view and
node (`CertificateVerifiesIffVoteMatches`); otherwise the leader locks on something nobody signed
(`LockOnForeignNode`).

Where code and documentation differ, the model follows the code:

- `HandleNewView` accepts a new-view message of its own view, with a certificate of the view before;
  the comment above it asks for messages of the view before.
- The leaf hash of `HashFromByteSlices` has no 0x00 prefix, that of `HashFromByteSlicesIterative`
  has: the two roots of one list differ unless the hash collides (`RootFunctionsDiffer`).
- `GetSeq` gives (-1, -1), hence an empty O set, whenever the first message has no checkpoint.
- `GetValidMsgs` stops at the first slot that is not prepared, so one gap hides what prepared later.
- `UpdateAfterCommit` drops nothing for the range (0, 0) of a longer list.
- A block is written to the file of its height, so storing twice without generating writes over a file
  (`FilesFormChain`).
- Blocks stored by chained HotStuff are no hash chain: each names the hash of the block four heights below
  (`StoredLinkFourBack`), and an empty request makes all nodes count heights from 1 again
  (`EmptyRequestRestartsHeights`).
- `HashFromByteSlices`, the root written into blocks, binds nothing, for want of the prefix (`RecursiveRootBindsNothing`).
- A timeout of basic HotStuff keeps the new-view messages collected, so a leader counts those of earlier views
  of its own since its last decision (`QuorumBehindProposal`).
- A prepare never makes a PBFT replica reply, also if it completes the quorum and enough commits are there (`PrepareCommitsIff`).
- PBFT's `CheckPrePrepareMsg` does not compare the sender with the leader: a pre-prepare of any node, signed by
  that node, is accepted (`NonLeaderProposes`).
- Storing several HotStuff-2 blocks at once leaves an empty previous hash (`StoreAllWrites`).
- PBFT's `CheckPrepareAndCommit` has a branch for early prepares that is never taken.

## Model

| member | source | states |
|---|---|---|
| HotstuffTheorems.Agreement | orderer/consensus/hotstuff/core/basic_hotstuff.go:278-281 | agreement: in any run that keeps the guards on bounds, on justifies and on pre-commit votes, with up to f faulty replicas, any two commit certificates that verify in some states of the run are for nodes on one branch of prepare-certified nodes linked by parent hashes |
| HotstuffTheorems.CommittedStays | orderer/consensus/hotstuff/core/prepare.go:15-86 | in any such run, once a commit certificate for a node verifies, every prepare certificate of a later view is for a descendant of it |
| HotstuffTheorems.OneNodePerView | orderer/consensus/hotstuff/core/precommit.go:33-60 | in every run within bounds all certificates that verify in one view, of whatever type and in whatever states, are for one node |
| HotstuffTheorems.CertificatesInOrder | orderer/consensus/hotstuff/core/commit.go:79-126 | in every run a commit (pre-commit) certificate verifies only after, in an earlier state, the pre-commit (prepare) quorum for the same view and node was complete and its own was not |
| HotstuffTheorems.ReplicaInvariant | orderer/consensus/hotstuff/core/basic_hotstuff.go:129-196 | in every state of every run the view number modulo n gives the leader; with the guard on pre-commit votes the lock is no newer than the view and backed by a quorum of shares; with that on prepare votes so is the prepare certificate; with both lock view <= prepare view |
| HotstuffTheorems.ViewsNeverFall | orderer/consensus/hotstuff/core/view_change.go:11-58 | the view never falls over any run, timeouts included; the lock's view does not with the guard on pre-commit votes, nor the prepare certificate's with that on prepare votes |
| HotstuffTheorems.VotesRiseInRun | orderer/consensus/hotstuff/core/prepare.go:18-69 | in every run the votes of a correct replica rise strictly in (view, phase), at most one per phase and view, and are cast only in views it does not lead |
| HotstuffTheorems.OneProposalPerView | orderer/consensus/hotstuff/core/new_view.go:25-92 | in every run a correct leader proposes at most once in a view, and the node it proposes carries the hash of the block it sends along |
| HotstuffTheorems.VotesAgree | orderer/consensus/hotstuff/core/prepare.go:51-71 | if the proposals delivered in a view are those of its correct leader, all prepare votes of correct replicas in it are for one node, which carries the hash of the block each voter got |
| HotstuffTheorems.GenuineProposalAccepted | orderer/consensus/hotstuff/core/new_view.go:114-133 | with the guards on bounds and on pre-commit votes: a proposal on a certificate that verifies passes `CheckNewHsNode` at each correct replica whose lock is no newer, also when lock and certificate are of one view |
| HotstuffTheorems.ProposeIsProper | orderer/consensus/hotstuff/core/new_view.go:138-183 | a proposal extends the highest certificate among the collected messages, that certificate is backed by a quorum, and its node carries the hash of its block, which has the store's height and previous hash and the root of its transactions |
| HotstuffTheorems.LeaderProposesOnNewView | orderer/consensus/hotstuff/core/new_view.go:20-92 | so in every run with the guard on new-view messages, for proposals made on such a message; the block holds the pending commands uncut |
| HotstuffTheorems.LeaderProposesOnRequest | orderer/consensus/hotstuff/core/basic_hotstuff.go:203-237 | and for proposals made on a client request, which always finds messages at hand; transaction j is command j, or its first 128 bytes if it is longer |
| HotstuffTheorems.DecidedBlockIsCertified | orderer/consensus/hotstuff/core/decide.go:72-122 | in every run a replica that voted and decides in a view stores the block it voted for with the certificate filled in; within bounds, if the leader of the view is correct and the proposals delivered in it are its own, the block's hash is the one the commit certificate names |
| HotstuffRoundTrip.VotesMakeValidCertificate | orderer/consensus/hotstuff/core/basic_hotstuff.go:292-338 | sign, combine, check: in each voting phase the votes that 2f+1 different replicas give on the leader's message, handled by the leader in any order, make it send a message that every replica in the view and the right phase acts on |
| HotstuffRoundTrip.ViewDecides | orderer/consensus/hotstuff/core/decide.go:16-122 | if 2f+1 different replicas vote on the leader's proposal, all of them go through the three phases on the leader's messages, lock on its node, store its block under a commit certificate, and report its prepare certificate to the leader of the next view |
| HotstuffRoundTrip.CertificateVerifiesIffVoteMatches | orderer/consensus/hotstuff/core/commit.go:40-54 | a certificate a leader forms verifies if and only if the completing vote names the leader's own view and node |
| HotstuffRoundTrip.LockOnForeignNode | orderer/consensus/hotstuff/core/commit.go:45-54 | a completing vote for another node leaves the leader locked on that node with a certificate that does not verify |
| HotstuffHandOver.HandOver | orderer/consensus/hotstuff/core/decide.go:104-122 | hand-over: when 2f+1 replicas decide in view v, whatever more than (n-1)/3*2 of their reports reach the leader of v+1, in whatever order, it logs all, waits, and proposes the next request on the node decided in v, and every other replica that decided votes for it |
| HotstuffHandOver.TimeoutHandsOver | orderer/consensus/hotstuff/core/view_change.go:11-58 | the same one view later when they time out, and so after any number of timeouts |
| HotstuffHandOver.TimeoutRests | orderer/consensus/hotstuff/core/view_change.go:11-58 | the message of a timeout is addressed to the next leader, carries the prepare certificate of the last decision, and is signed as a new-view message of the next view |
| HotstuffHandOver.ReportCompletes | orderer/consensus/hotstuff/core/new_view.go:20-92 | a leader that holds a request proposes it, on that node, on the last report it needs |
| HotstuffRules.QuorumBehindProposal | orderer/consensus/hotstuff/core/basic_hotstuff.go:203-237 | in every run, who proposes leads the view, and after view 0 has collected more than (n-1)/3*2 new-view messages since its last decision |
| HotstuffRules.RequestProposesIff | orderer/consensus/hotstuff/core/new_view.go:138-148 | a request is proposed if and only if the leader waits and has more than (n-1)/3*2 new-view messages, or it is the first proposal of the first leader |
| HotstuffRules.ReportProposesIff | orderer/consensus/hotstuff/core/new_view.go:20-60 | a new-view message makes the leader propose if and only if it holds commands and has more than (n-1)/3*2 messages that passed the check |
| HotstuffRules.FirstRequestIsProposed | orderer/consensus/hotstuff/core/new_view.go:138-160 | the first leader proposes the first request on the one message it starts with, and no second one |
| HotstuffRules.PrepareAnsweredIff | orderer/consensus/hotstuff/core/prepare.go:15-50 | a proposal is voted for if and only if phase, view and role fit, it has commands, and after view 0 it extends its certificate's node and the lock allows it |
| HotstuffRules.VoteCertifiesIff | orderer/consensus/hotstuff/core/precommit.go:17-73 | a vote makes a leader broadcast a certificate if and only if it collects in that phase, has more than (n-1)/3*2 votes, and they combine |
| HotstuffRules.DecideAnsweredIff | orderer/consensus/hotstuff/core/decide.go:72-90 | a replica decides if and only if it is in the commit phase of the view and the commit certificate is for the view and verifies |
| HotstuffUnguarded.AgreementNeedsGenuineJustify | orderer/consensus/hotstuff/core/prepare.go:38-40 | a run of four replicas, one faulty, that keeps all guards but that on justifies: two commit certificates verify and no branch joins their nodes |
| HotstuffForeignVote.AgreementNeedsOwnNode | orderer/consensus/hotstuff/core/commit.go:38-54 | a run of four replicas, one faulty, that keeps all guards but that on pre-commit votes: two commit certificates verify and no branch joins their nodes |
| HotstuffUnbounded.AgreementNeedsBounds | orderer/common/hotstuff_node.go:13-15 | a run that keeps all guards but that on bounds: shares for a node with a longer hash certify a second node too, and two commit certificates verify whose nodes no branch joins |
| HotstuffUnbounded.AgreementNeedsOneByteViews | orderer/consensus/hotstuff/types/QC.go:14-16 | another one, through view 256: commit certificates of view 0 verify for two nodes |
| HotstuffSystem.RunKeeps | orderer/consensus/hotstuff/core/basic_hotstuff.go:129-196 | every state of every run: logged votes obeyed the voting rules when made, each correct replica's state fits the log, and correct leaders proposed once per view |
| HotstuffSystem.StepKeeps | orderer/consensus/hotstuff/core/basic_hotstuff.go:174-196 | each delivery, timeout, request or forged share keeps that invariant |
| HotstuffGuards.GuardedRunKeeps | orderer/consensus/hotstuff/core/basic_hotstuff.go:129-196 | every state of every run, for the guards it keeps: certificates and locks are backed by the log, collected new-view messages are genuine, and each prepare vote rested on the locked parent or on a genuine, newer certificate |
| HotstuffLog.QuorumsIntersect | orderer/consensus/hotstuff/core/precommit.go:33-41 | two sets of more than (n-1)/3*2 of n = 3f+1 replicas share a correct one |
| HotstuffLog.CertificateUnique | orderer/consensus/hotstuff/core/precommit.go:33-60 | no two nodes have a quorum of the same type in one view |
| HotstuffLog.CertificateCausality | orderer/consensus/hotstuff/core/commit.go:79-126 | a quorum of one phase completes only after the quorum of the phase before, whatever views and hashes were signed |
| HotstuffLog.LaterNodesExtendCommitted | orderer/consensus/hotstuff/core/basic_hotstuff.go:278-281 | the induction behind agreement: when prepare votes rest on genuine certificates and locks, the locks of the commit quorum keep later certificates on the branch |
| HotstuffTypes.SignedBytesAgree | orderer/consensus/hotstuff/types/message.go:24-26 | when two triples (type, view, node) are signed on the same bytes: exactly equal types, views equal modulo 256, and equal joined hashes |
| HotstuffTypes.SignedBytesDetermine | orderer/consensus/hotstuff/types/QC.go:14-16 | for one-byte views and digest-length hashes the signed bytes fix type, view and node |
| HotstuffTypes.SignedBytesCollide | orderer/common/hotstuff_node.go:13-15 | neither bound can be dropped |
| HotstuffLog.ConfigExists | orderer/consensus/hotstuff/core/basic_hotstuff.go:292-338 | for every f and every set of at most f faulty replicas there is a hash and a threshold signature, sound and complete, that meet the assumptions |
| BasicHotstuff.GetHighQCIndex | orderer/consensus/hotstuff/core/new_view.go:97-109 | the loop returns the first message whose certificate has the highest view |
| BasicHotstuff.BCHotstuff.HandleNewView | orderer/consensus/hotstuff/core/new_view.go:20-92 | new state and proposal are those of the specified step, whose runs the theorems are about |
| BasicHotstuff.BCHotstuff.HandleReq | orderer/consensus/hotstuff/core/basic_hotstuff.go:203-237 | likewise for a client request |
| BasicHotstuff.BCHotstuff.HandlePrepare | orderer/consensus/hotstuff/core/prepare.go:15-86 | likewise for the prepare vote |
| BasicHotstuff.BCHotstuff.HandlePrepareVote | orderer/consensus/hotstuff/core/precommit.go:17-73 | likewise for forming the prepare certificate |
| BasicHotstuff.BCHotstuff.HandlePreCommit | orderer/consensus/hotstuff/core/precommit.go:85-135 | likewise for the pre-commit vote |
| BasicHotstuff.BCHotstuff.HandlePreCommitVote | orderer/consensus/hotstuff/core/commit.go:16-67 | likewise for forming the pre-commit certificate and the leader's lock |
| BasicHotstuff.BCHotstuff.HandleCommit | orderer/consensus/hotstuff/core/commit.go:79-126 | likewise for the lock and the commit vote |
| BasicHotstuff.BCHotstuff.HandleCommitVote | orderer/consensus/hotstuff/core/decide.go:16-61 | likewise for forming the commit certificate |
| BasicHotstuff.BCHotstuff.HandleDecide | orderer/consensus/hotstuff/core/decide.go:72-134 | likewise for storing the block and starting the next round |
| BasicHotstuff.BCHotstuff.HandleBMsg | orderer/consensus/hotstuff/core/basic_hotstuff.go:129-167 | likewise for routing, sending and the bookkeeping after it |
| BasicHotstuff.BCHotstuff.StartViewChange | orderer/consensus/hotstuff/core/view_change.go:11-58 | likewise for the timeout step, with and without the two channels |
| Merkle.HashFromByteSlicesIterative | bccrypto/merkle/tree.go:30-63 | terminates and returns the tree hash of section 2.1 of RFC 6962, for every list |
| Merkle.PairInPlace | bccrypto/merkle/tree.go:39-60 | one pass of the in-place loop: reads only items it has not overwritten, and leaves the paired list in front |
| Merkle.PairUpKeepsTree | bccrypto/merkle/tree.go:46-60 | pairing neighbours does not change the tree of the recursive split |
| Merkle.RecursiveIsTree | bccrypto/merkle/tree.go:11-24 | the recursive function is the same tree over its own leaf hashes |
| Merkle.SplitPointIsLargestPowerBelow | bccrypto/merkle/tree.go:70-81 | the split point is the largest power of two below the length (0 for length 1) |
| Merkle.SplitIsUnique | bccrypto/merkle/tree.go:70-81 | only one number is a largest power of two below a length |
| Merkle.RootBindsLeaves | bccrypto/merkle/hash.go:33-53 | from any two different lists, of any lengths, with one iterative root one computes two byte strings with the same digest |
| Merkle.RootFunctionsDiffer | bccrypto/merkle/tree.go:11-37 | if both functions give one root for a list that is not empty, one computes a collision |
| Merkle.RecursiveRootBindsNothing | bccrypto/merkle/hash.go:33-53 | for the recursive function a list of one has the root of any given list of two, whatever the hash: leaves are hashed without a prefix |
| Blockchain.StoredBlocksFormChain | common/blockchain/block.go:140-214 | the writes of a run of generating (new and empty blocks) and storing have heights 0, 1, 2, ... and each block names the hash of the one before it, if and only if every store writes a new block generated last before it |
| Blockchain.FilesFormChain | common/blockchain/block.go:58-72 | a run of n turns leaves files 0 to n-1, holding a hash chain, under the same condition and no other: a file is named by its block's height and written over |
| Blockchain.RunCounts | common/blockchain/block.go:58-72 | the store's height counts the writes in every run, and no block has a height above its place among them |
| Blockchain.HashBinds | common/blockchain/block.go:140-153 | two blocks with one hash agree on height, view and time modulo 256, previous hash, root, data hash and joined transactions, and on the transactions if their lengths agree, or one has a collision |
| Blockchain.DataHashBinds | common/blockchain/block.go:130-136 | the data hash binds height, root and transactions in the same way |
| Blockchain.ChainsBind | common/blockchain/block.go:140-214 | two chains of one length with one tip agree block by block in these fields, or one computes a collision |
| Blockchain.RunsBind | common/blockchain/block.go:158-214 | so do two stores that stored as many fresh blocks and stand on one previous hash |
| Blockchain.StoredBlocksAreMade | common/blockchain/block.go:186-214 | every block stored in such a run has the commands, view and time generated last, the root of its commands and the hash of its data |
| Blockchain.EmptyTurnBreaks | common/blockchain/block.go:158-180 | storing without generating, or after generating an empty block, breaks the chain of writes, whatever came before |
| Blockchain.ValidationNotHashed | common/blockchain/block.go:140-153 | filling in the validation does not change what is hashed |
| Blockchain.BlockStore.GenNewBlock | common/blockchain/block.go:186-214 | the store's whole new state, for the default and for a given height |
| Blockchain.BlockStore.StoreBlock | common/blockchain/block.go:158-180 | the block is appended, the height goes up, the current hash becomes the previous one |
| Blockchain.BlockStore.GenEmptyBlock | common/blockchain/block.go:217-223 | only the proposal block and the current hash change |
| ChainedPipeline.StoredIsProposedThreeViewsAgo | orderer/consensus/hotstuff/core/generic.go:206-309 | in every lockstep run, after the generic message of view v each node has stored exactly the requests of views 0 to v-3, in order, at those heights: transaction j of a block is command j, or its first 128 bytes if it is longer |
| ChainedPipeline.NodesStoreTheSame | orderer/consensus/hotstuff/core/generic.go:257-273 | all nodes store the same blocks and are in the same view |
| ChainedPipeline.WindowMatches | orderer/consensus/hotstuff/core/chained_hotstuff.go:258-267 | every filled slot of the window holds the block whose hash its node names |
| ChainedPipeline.StoredBlocksAreCertified | orderer/consensus/hotstuff/core/generic.go:257-273 | each stored block carries as validation a signature that verifies on the window of the view two later, whose third node has the block's hash and whose newer nodes extend it |
| ChainedPipeline.LocksFollow | orderer/consensus/hotstuff/core/generic.go:240-256 | after each view every node is locked on the second node of its window with a certificate that verifies, and the last leader alone has one for the newest |
| ChainedPipeline.StoredLinkFourBack | orderer/consensus/hotstuff/core/generic.go:257-273 | each stored block names the hash of the one four heights below as its previous hash |
| ChainedPipeline.CertBytesDetermine | orderer/consensus/hotstuff/types/chained_message.go:25-31 | votes on two windows sign alike exactly when the windows are equal and the views agree modulo 256 |
| ChainedPipeline.LockstepKeeps | orderer/consensus/hotstuff/core/generic.go:131-309 | the refinement: after v views there is a plain log of v blocks that window, nodes and store of every node are a view of |
| ChainedPipeline.RoundExtends | orderer/consensus/hotstuff/core/generic.go:319-380 | one view extends that log by one block that holds the requested commands, each cut after 128 bytes |
| ChainedPipeline.HighExtendsTip | orderer/consensus/hotstuff/core/generic.go:385-397 | whichever new-view messages a waiting leader got, in whichever order, the certificate it picks is the last leader's, for the newest node |
| ChainedProgress.LockstepRunsExist | orderer/consensus/hotstuff/core/generic.go:22-179 | with n >= 4 and a complete threshold signature there is a lockstep run for every list of requests |
| ChainedProgress.NextRound | orderer/consensus/hotstuff/core/generic.go:319-380 | after any number of views the next request is proposed, certified and handed on |
| ChainedRules.LinksDecide | orderer/consensus/hotstuff/core/generic.go:240-275 | one link moves the certificate, two move the lock, three decide; the oldest block is stored if and only if it has commands and the hash its node names |
| ChainedRules.GenericAnsweredIff | orderer/consensus/hotstuff/core/generic.go:206-238 | a generic message is answered if and only if it is of the view, its newest node extends the next, and its certificate is for the parent or newer than the lock |
| ChainedRules.VoteCertifiesIff | orderer/consensus/hotstuff/core/generic.go:319-380 | a vote makes the leader certify if and only if it collects, has more than (n-1)/3*2 votes, and they combine |
| ChainedRules.RequestProposesIff | orderer/consensus/hotstuff/core/generic.go:131-179 | a request is proposed if and only if the leader waits and has more than (n-1)/3*2 new-view messages, or it is view 0 |
| ChainedRules.ReportProposesIff | orderer/consensus/hotstuff/core/generic.go:22-126 | a new-view message makes the leader propose if and only if there are more than (n-1)/3*2, the last leader's among them or a timeout noted, and it holds a proposal |
| ChainedRules.ExecutesOnReport | orderer/consensus/hotstuff/core/chained_hotstuff.go:124-172 | the sign to execute is taken back when a follower that holds a validated block reports |
| ChainedRules.FirstRequestIsProposed | orderer/consensus/hotstuff/core/chained_hotstuff.go:356-383 | so does the first leader of chained HotStuff, on its (n-1)/3*2 initial messages |
| ChainedRules.EmptyRequestRestartsHeights | orderer/consensus/hotstuff/core/chained_hotstuff.go:258-267 | a request without commands makes every node count heights from 1 again |
| ChainedHotstuff.CHotstuff.CHandleNewView | orderer/consensus/hotstuff/core/generic.go:22-126 | new state and messages are those of the specified step |
| ChainedHotstuff.CHotstuff.HandleReq | orderer/consensus/hotstuff/core/chained_hotstuff.go:198-222 | likewise for a client request and the proposal made on it |
| ChainedHotstuff.CHotstuff.CHandleGeneric | orderer/consensus/hotstuff/core/generic.go:206-309 | likewise for the generic message: window, locks, stored block, vote, new view |
| ChainedHotstuff.CHotstuff.CHandleGenericVote | orderer/consensus/hotstuff/core/generic.go:319-380 | likewise for counting votes and forming the certificate |
| ChainedHotstuff.CHotstuff.HighChainedQC | orderer/consensus/hotstuff/core/generic.go:385-397 | the loop finds the first message with the highest certificate |
| ChainedHotstuff.CHotstuff.HandleCMsg | orderer/consensus/hotstuff/core/chained_hotstuff.go:124-172 | likewise for routing, sending and the bookkeeping after it |
| ChainedHotstuff.CHotstuff.InitLeader | orderer/consensus/hotstuff/core/chained_hotstuff.go:356-383 | the first leader starts with (n-1)/3*2 initial messages, waiting |
| Hotstuff2Commit.Hotstuff2.GenCommitBlkIndex | orderer/consensus/hotstuff2/core/vote1_commit.go:89-108 | the range is the maximal parent-linked segment that ends at the first block of the certificate's view, or (-1, -1) if there is none |
| Hotstuff2Commit.CommitRangeUnique | orderer/consensus/hotstuff2/core/vote1_commit.go:89-108 | there is only one such range |
| Hotstuff2Commit.Hotstuff2.AddValidation2Blk | orderer/consensus/hotstuff2/core/vote1_commit.go:111-118 | the first block of the view, and no other, gets the validation |
| Hotstuff2Commit.Hotstuff2.UpdateAfterCommit | orderer/consensus/hotstuff2/core/hotstuff_2.go:343-359 | both lists lose exactly the range, in order, except (0, 0) of a longer list |
| Hotstuff2Commit.Hotstuff2.WriteNewH2Block | orderer/consensus/hotstuff2/core/hotstuff_2.go:326-339 | the range is stored oldest first and then dropped |
| Hotstuff2Commit.Hotstuff2.UpdateConsensus | orderer/consensus/hotstuff2/core/hotstuff_2.go:304-317 | the current node and block are locked at the ends of both lists, and proposal, node and the three message lists are cleared |
| Hotstuff2Commit.Hotstuff2.Commit | orderer/consensus/hotstuff2/core/vote1_commit.go:44-54 | validate, find, store: one commit step |
| Hotstuff2Commit.CommitConserves | orderer/consensus/hotstuff2/core/hotstuff_2.go:326-359 | a commit conserves the blocks stored or locked if and only if its range is not (0, 0) of a longer list; in that case one block is held twice |
| Hotstuff2Commit.RunConserves | orderer/consensus/hotstuff2/core/hotstuff_2.go:304-359 | over every run, stored and locked blocks are together the blocks ever locked, each as often, if and only if no commit was of that kind; nothing is ever lost |
| Hotstuff2Commit.CommittedOnce | orderer/consensus/hotstuff2/core/hotstuff_2.go:343-359 | a second commit on one certificate changes nothing, if and only if the first was not of that kind and no later block of the list has the same view |
| Hotstuff2Commit.RunKeepsInStep | orderer/consensus/hotstuff2/core/hotstuff_2.go:304-359 | over every run that locks nodes with the hash of their block, nodes and blocks of the lists match by hash |
| Hotstuff2Commit.CommitsStoreBranches | orderer/consensus/hotstuff2/core/vote1_commit.go:98-106 | in every such run each commit that stores anything stores a branch by parent hashes that ends in the view committed |
| PbftNormalCase.RepliesOncePerView | orderer/consensus/pbft/core/commit.go:9-111 | whatever messages of the normal case one replica is sent, its k-th reply is for view k (once per view), it stored one block per reply, and sequence numbers rise strictly |
| PbftNormalCase.ReplyIsProposed | orderer/consensus/pbft/core/pre_prepare.go:17-174 | with one proposal a view, each reply carries digest and number of the view's pre-prepare, whatever the votes were; if blocks travel unchanged, the block stored is the proposed one and hashes to that digest |
| PbftNormalCase.RepliesAgree | orderer/consensus/pbft/core/commit.go:9-75 | any two replicas agree on all replies, and if blocks travel unchanged on all blocks: those of the slower one are a prefix |
| PbftNormalCase.StoredBlocksFormChain | orderer/consensus/pbft/core/commit.go:27-43 | if blocks travel unchanged, what each replica stores is a hash chain from height 0, one block a view |
| PbftNormalCase.StepOk | orderer/consensus/pbft/core/pbft.go:108-208 | each message, request or stable checkpoint keeps the invariant behind these results |
| PbftNormalCase.StoredMatchesDigestIff | orderer/consensus/pbft/core/pre_prepare.go:75-101 | a backup stores a block that hashes to the digest it replies if and only if the pre-prepare's block does; the check looks at the digest only |
| PbftNormalCase.NonLeaderProposes | orderer/consensus/pbft/core/pre_prepare.go:75-101 | of four nodes one backup votes for the leader's proposal and another for that of a node that does not lead, in one view and under one number |
| PbftQuorum.ReplyNeedsQuorum | orderer/consensus/pbft/core/commit.go:84-111 | whatever a replica was sent: when it replies it had been sent more than (n-1)/3*2 commits and as many prepares, held in the slot of its view, or one prepare if the pre-prepare came after them |
| PbftQuorum.CommitRepliesIff | orderer/consensus/pbft/core/commit.go:77-111 | a commit makes a replica reply if and only if it is accepted, the slot of its view holds more than (n-1)/3*2 prepares and, with it, more than (n-1)/3*2 commits |
| PbftQuorum.PrepareCommitsIff | orderer/consensus/pbft/core/prepare.go:12-77 | a prepare makes a replica send its commit if and only if it is accepted, none was sent and there are, with it, more than (n-1)/3*2 |
| PbftQuorum.PrePrepareRepliesIff | orderer/consensus/pbft/core/pre_prepare.go:108-174 | a pre-prepare is answered if and only if it is adopted, and by a reply if and only if a prepare and more than (n-1)/3*2 matching commits are there |
| PbftQuorum.VoteIsLoggedIff | orderer/consensus/pbft/core/utils.go:23-55 | a vote is logged, once, if and only if it is signed with its sender's name, not old nor far ahead, and matches the pre-prepare or comes before it |
| PbftQuorum.LoggedWereReceived | orderer/consensus/pbft/core/utils.go:58-83 | every vote in the log was received, and is there at most as often |
| PbftQuorum.PrepareIsAccepted | orderer/consensus/pbft/core/pre_prepare.go:50-66 | the prepare a replica signs is accepted by every replica that holds the same pre-prepare |
| PbftQuorum.CommitIsAccepted | orderer/consensus/pbft/core/prepare.go:30-50 | and so is its commit |
| PbftQuorum.BackupsReply | orderer/consensus/pbft/core/commit.go:9-75 | 2f+1 backups given one pre-prepare make each other reply: each sends one commit on more than (n-1)/3*2 of their prepares in any order, and on that many of their commits stores the block and replies |
| PbftQuorum.EarlyVotesReplyIff | orderer/consensus/pbft/core/pre_prepare.go:108-174 | if the votes come before the pre-prepare, it is replied to at once if and only if there is a prepare and more than (n-1)/3*2 commits |
| PbftQuorum.RequestIsFollowed | orderer/consensus/pbft/core/pbft.go:247-275 | what a leader proposes on a request holds its commands, follows its last block, and is taken in by every backup that awaits one of this view and number |
| PbftQuorum.CheckpointOpens | orderer/consensus/pbft/core/checkpoint.go:28-45 | a stable checkpoint at s empties the log and opens exactly the numbers up to s+10 |
| PbftTypes.ViewChangeBytesBind | orderer/consensus/pbft/types/message.go:86-97 | the signature of a view-change message covers its C set and its P set |
| PbftTypes.NewViewBytesBind | orderer/consensus/pbft/types/message.go:98-106 | that of a new-view message covers the headers of its V set and its O set |
| PbftSpec.AdvanceKeepsValid | orderer/consensus/pbft/core/view_change.go:76-78 | catching up with a view never goes back and rotates the leader once a view |
| Pbft.PBFT.HandlePrePrepareMsg | orderer/consensus/pbft/core/pre_prepare.go:17-67 | new state and answer are those of the specified step |
| Pbft.PBFT.CheckPrepareAndCommit | orderer/consensus/pbft/core/pre_prepare.go:108-174 | likewise: early commits are filtered and may complete the round |
| Pbft.PBFT.HandlePrepareMsg | orderer/consensus/pbft/core/prepare.go:12-77 | likewise for prepares |
| Pbft.PBFT.HandleCommitMsg | orderer/consensus/pbft/core/commit.go:9-111 | likewise for commits, reply and next round |
| Pbft.PBFT.CheckMsg | orderer/consensus/pbft/core/utils.go:23-55 | likewise for the check of a vote, which logs a vote without pre-prepare |
| Pbft.PBFT.HandlePMsg | orderer/consensus/pbft/core/pbft.go:108-168 | likewise for routing the three types of the normal case |
| Pbft.PBFT.HandleReq | orderer/consensus/pbft/core/pbft.go:247-275 | likewise for a request and the pre-prepare made on it |
| Pbft.PBFT.HandleViewChangeMsg | orderer/consensus/pbft/core/view_change.go:63-141 | the message that completes the quorum, and no other, advances the view, and makes its leader answer with V and with the O set of these messages |
| PbftViewChange.GetSeq | orderer/consensus/pbft/core/view_change.go:147-170 | min-s and max-s are the true maxima over all C and P sets, or -1, provided the first message has a checkpoint |
| PbftViewChange.GenOSet | orderer/consensus/pbft/core/view_change.go:99-123 | O has exactly one signed pre-prepare per number from min-s to max-s, in order |
| PbftViewChange.FindDigest | orderer/consensus/pbft/core/view_change.go:108-117 | its digest is that of the first certificate for the number with more than 2f prepares, or nil if there is none |
| PbftViewChange.NewViewKeepsPrepared | orderer/consensus/pbft/core/view_change.go:63-141 | new-view safety: if 2f+1 replicas report (s, d) and certificates for s agree, the O set of any 2f+1 messages proposes d at s if and only if the first message has a checkpoint and min-s is not above s |
| PbftViewChange.GetValidMsgs | orderer/consensus/pbft/core/utils.go:98-117 | exactly the certificates of the longest prefix of prepared slots, in order, prepares unchanged |
| PbftViewChange.ReportedIffNoGap | orderer/consensus/pbft/core/utils.go:98-117 | a prepared slot is reported if and only if all slots before it are prepared |
| PbftViewChange.PreparedSlotIsReported | orderer/consensus/pbft/core/utils.go:102-114 | without a gap the report is the kind new-view safety asks for |
| PbftViewChange.GapHidesPrepared | orderer/consensus/pbft/types/msglog.go:14-19 | with the first of the ten slots empty nothing is reported, whatever is prepared behind it |

## Left out

- Networking, channels, goroutines, JSON, logging, timers and the command-line client: a message is a step, a timeout is a step that may happen at any time.
- Locks and `TryLock`: every handler is one atomic step.
- SM2, SM3, SM4 and the kyber library: parameters, as said above.
- Join, exit, synchronisation and `FixLeader`: they reset views and phases; membership is fixed here.
- Agreement under faults for chained HotStuff and HotStuff-2: chained `SafeNode` compares a proposal with its own certificate rather than with the lock, and `HandlePropose` does not reject lower-ranked proposals, so the code does not decide it.
- The timeout of chained HotStuff (`StartViewChange` in generic.go): lockstep runs have none.
- HotStuff-2 messages and votes, and `GetHighestCertIndex`: only the lock lists and the commit are modelled.
- Aliasing of HotStuff-2 lock-list blocks: the source keeps pointers, each referenced from the list alone; here the list holds values.
- PBFT `VerifyOSet` and the redo of requests after a view change: its indices do not walk the set the leader builds.
- Pbft.PBFT.HandlePMsg: new-view, view-change, checkpoint and redo messages are routed nowhere, because the runs here are without view changes; `HandleViewChangeMsg` is modelled on its own.
- PBFT checkpoint messages: a checkpoint may become stable at any time and at any number, which covers every way of counting them.
- PBFT agreement when two pre-prepares are signed in one view: prepares and commits are counted without regard to their senders, so a quorum of messages is not a quorum of replicas.
- PbftNormalCase.RepliesAgree: assumes one signed pre-prepare per view, because every request makes a node propose at once (`SecondRequestCompetes`) and the sender is not compared with the leader (`NonLeaderProposes`), and for the blocks that they travel unchanged, because a pre-prepare is signed on its digest only (`StoredMatchesDigestIff`).
- HotstuffTheorems.Agreement: assumes the guards listed above, because the code leaves them unchecked and it fails without them.
- ChainedPipeline.StoredIsProposedThreeViewsAgo: fault-free lockstep with requests that are not empty, because an empty block is not stored and shifts the heights.
- PbftViewChange.GetSeq: the empty list is excluded, on which the source stops with an index error.
- The DCS score and everything that computes with floating point, the EVM stub, and the simulation harnesses.
- Liveness, beyond the lockstep runs of chained HotStuff, one view of basic HotStuff with its hand-over, and one view of PBFT.
