# Davidcoin: block tree, UTXO managers, Merkle proofs and money

This project models the core of Davidcoin, a proof-of-work coin written in Go, and proves that it keeps its promises:
coins are neither forged nor spent twice, and every node's view of the unspent outputs agrees with replaying its chain.

`dafny verify dfyconfig.toml` checks everything.

## What is modelled

- **Merkle trees** (`MerkleShape`, `MerkleProof`, `MerkleTree`, `ProofCodec`). The tree packs its elements to the left
  on one partial level; the level loops run in `uint8` arithmetic. The code's own recurrence is the specification.
- **Transactions** (`Transactions`, `TransactionCodec`, `GroupCodec`, `Layouts`, `Verification`, `GroupBuilder`):
  entities, byte layouts, the checks that need no outputs, and the builder of groups. Integers have Go's widths;
  wrap-around is explicit. `Layouts` says by position, with plain numbers, what every layout is.
- **The meaning of a chain** (`Ledger`, `Supply`, `Ownership`, `Commitment`): the replay of every block from the root,
  its coins, who may spend them, and what a header commits to.
- **UTXO managers** (`Utxo`): three nested levels of mutable maps. Managers, maps and nodes are heap objects, so that
  a copy that is really fresh can be told from one that shares a map.
- **The block tree** (`Blocks`, `ChainState`, `TreeInvariants`, `TreeFacts`, `HeaderTree`, `HeaderChain`, `Orphans`,
  `Building`, `Picture`, `BlockTree`, `Arrivals`): headers and data arriving in any order, orphan chains, and
  `verifyAndBuildDown`, which moves one manager along the tree and leaves savepoints behind. `Arrived` says as a function
  where headers go. The ghost field `history` of a node holds the blocks from the root to it; `view` holds the data of
  all nodes as a value.
- **What the updater does** (`Updating`, `EarlyData`): `BuiltDown` says as a function of values what
  `verifyAndBuildDown` does to histories, managers, data and head, whichever branch the node is on. `DoneExactly` and
  its relatives say what the function means.
- **Runs** (`Runs`, `Events`, `WholeRun`): `Step` is one event, of four kinds, with the exact effect of each in `Effect`.
  `Run` takes any list of events, returns a trace of what each did, and ends in a state where everything in
  `Trustworthy` holds.
- **Wallet and miner** (`Wallet`, `TransactionPool`, `HonestNode`): coin selection, stored proofs, fee blocks, groups
  formed from requests, and what a node that follows the rules can count on.
- **Limits** (`Limits`, `Relisting`): inputs on which the program does not keep what it is meant to keep.

`CoreInv` and `OrphanInv` of `BlockChain` are the invariants of the block tree. `NodesInv` says where nodes are
(`TreeInv`), what data they hold (`ViewInv`), what was verified (`BuiltInv`) and who holds which manager (`ManagerInv`);
`ForkInv` is about the head. `Sound` adds that the headers held are exactly those that were accepted.

## What is assumed

- SHA-256 (section 6.2 of FIPS 180-4) is an arbitrary function to 32 bytes, RSA signing and checking are arbitrary
  functions. Results that depend on hashes say "or here are two byte strings with one hash". The block tree assumes
  that the headers that arrive do not collide (`GoodHeaders`).
- Every header counts one more than the header it names (`GoodHeaders`). Miners produce such headers
  (pkg/blockchain/transactionPool.go:213); `addBlockChainNode` does not check it, and savepoints depend on it
  (`BuildOnRoot`, `LoseTheRoot`).
- A group has 1 to 255 blocks. The counts of inputs and outputs in a block are the lengths of its lists.
- One updater runs at a time, as pkg/blockchain/BlockchainCore.go:375 intends, and each operation is one step. While
  `verifyAndBuildDown` waits for data, the arrivals it is given are all that happens; if they do not bring the data,
  the outcome is `Waiting`, where the program would block. A node stays in the channel until its verification ends.
- A mined block is new, fits its group's Merkle root, and its inputs carry the outputs their references name; a run
  ignores others. Its parent may be any known block, since the head may have moved while it was mined.
- The wallet whose update ends `verifyAndBuildDown` is an argument of that method; the program reaches it through the
  miner. The Merkle tree that the program keeps with a group is built anew where proofs are made.
- The updater takes nodes off the channel in any order; an event names the node, and does nothing if it is not there.

## What the model shows about the code

- The amount rule holds for `uint64` sums only: outputs that sum to 2^64 or more pass (`OverflowBreaksRule`), so that
  whoever has a key pair can make money (`ForgedChainIsVerified`). The money supply is bounded exactly for chains without
  such a block (`MoneySupply`).
- Orphan chains join the main chain only with a header that arrives alone under a known parent, and only one chain per
  header. Whether a header gets into the main chain depends on the order of arrival (`TheOrderMatters`); none is missing
  exactly if no orphan chain was left behind (`CompleteExactly`), and it stays so exactly if no chain is overlooked when
  a header enters (`StaysCompleteExactly`).
- An output is signed over the first 32 bytes of its own signature field, because 32 spare bytes end its layout
  (`OutputSignatureCoversItself`). Nothing in the repository checks that signature.
- An input whose reference could not be resolved makes the check of its block panic
  (pkg/blockchain/transaction.go:282-286); this is the outcome `Crashed`.
- `Difficulty` above 32 makes `compHash` slice beyond the hash and panic (`Panicked`).
- A Merkle proof may "prove" the 64 bytes under an inner node (`LengthConditionIsNeeded`), or something under an element
  of 64 bytes (`LeafConditionIsNeeded`), and nothing else (`SoundForAnyData`); transaction blocks are longer, so proofs
  of transactions are sound without any condition (`ProvenBlockIsInGroup`).
- A transaction block of 65536 bytes or more is cut when its group is sent (`GroupRoundTrip`).
- If two headers share a Merkle root, data goes to the header that came last; data for a header in an orphan chain is
  dropped (`addData`).
- A switch to another branch makes the wallet list outputs below the fork again (`SwitchListsTwice`), because blocks that
  were verified before are applied, and shown to it, once more; that happens exactly if the path to the new node starts
  with such a block (`ShownAgainExactly`). `TotalAvailable` then counts an unspent output twice (`AvailableIsRefSum`
  holds with repetitions). Nothing is listed twice exactly if no block that pays the wallet was shown to it twice
  (`ListsNothingTwice`); then the balance is exact (`BalanceIsExact`).

## Model

| member | source | states |
|---|---|---|
| MerkleShape.LeavesOfCompact | pkg/merkletree/MerkleTree.go:111-157 | The left-packed tree has every element as a leaf exactly once and in order, for every number of elements |
| MerkleShape.RootBinding | pkg/merkletree/MerkleTree.go:75-159 | Two lists without 64-byte elements and with one root are the same list, or the explicit pair computed from the two trees is a hash collision |
| MerkleProof.VerifyProofStruct | pkg/merkletree/MerkleTree.go:46-62 | Verification accepts exactly if folding the siblings, by the bits of the order byte, gives the expected root |
| MerkleProof.Soundness | pkg/merkletree/MerkleTree.go:46-62 | A proof of any size and order byte that verifies against a root proves the element its order byte names, or an explicit collision is computed |
| MerkleProof.SoundForAnyData | pkg/merkletree/MerkleTree.go:46-62 | For any data: a verifying proof proves the leaf or the bytes under the inner node its order byte leads to, or a leaf of 64 bytes comes first that reads as two hashes, or an explicit collision is computed |
| MerkleProof.LengthConditionIsNeeded | pkg/merkletree/MerkleTree.go:46-62 | Without the 64-byte condition on the data, soundness fails: the two hashes under the root, taken as data, verify against every root of two or more elements |
| MerkleProof.LeafConditionIsNeeded | pkg/merkletree/MerkleTree.go:46-62 | Without the 64-byte condition on the elements, soundness fails: a tree of one 64-byte element accepts a proof of data it does not hold |
| MerkleProof.Completeness | pkg/merkletree/MerkleTree.go:183-206 | A proof made of the sibling hashes of any element, on the partial level or not, folds to the root |
| MerkleProof.GeneratedProofNamesItsIndex | pkg/merkletree/MerkleTree.go:183-192 | The order and size bytes of a generated proof determine the index it was generated for |
| Layouts.SmallRoots | pkg/merkletree/MerkleTree.go:111-157 | The roots of one, two and three elements, hash by hash |
| Layouts.FiveLeaves | pkg/merkletree/MerkleTree.go:111-157 | The root of five elements, hash by hash: the first two share the lowest level |
| Layouts.SmallProofs | pkg/merkletree/MerkleTree.go:46-62 | What a proof of one or two hashes computes, hash by hash: the lowest bit of the order byte first, a one puts the hash of the proof on the left |
| MerkleTrees.NoWrap | pkg/merkletree/MerkleTree.go:112-113 | For 1 to 255 elements the `uint8` level and width computations of `FinalizeTree` do not wrap |
| MerkleTrees.MerkleTree.InitializeMerkleTree | pkg/merkletree/MerkleTree.go:102-108 | A new tree has no elements and is not finalized |
| MerkleTrees.MerkleTree.Add | pkg/merkletree/MerkleTree.go:86-99 | Appends an element unless the tree is finalized or holds 255 |
| MerkleTrees.MerkleTree.GetMerkleRoot | pkg/merkletree/MerkleTree.go:75-83 | Zeros before the tree is finalized, afterwards the root of the left-packed tree over all elements |
| MerkleTrees.MerkleTree.GenerareteMerkleProof | pkg/merkletree/MerkleTree.go:162-209 | A proof results exactly if the tree is finalized and the number is in range (ignored for a single element); it consists of the right siblings and folds to the root |
| MerkleTrees.MerkleTree.FinalizeTree | pkg/merkletree/MerkleTree.go:111-159 | Fills every level with the hashes the recurrence says, without touching the elements |
| MerkleTrees.HashTree | pkg/merkletree/MerkleTree.go:115-157 | All levels, computed bottom up, equal the recursive level definition, for every number of elements from 1 to 255 |
| MerkleTrees.HashPartialLevels | pkg/merkletree/MerkleTree.go:116-137 | The partial level holds the leaf hashes, the level above mixes their pairs with the hashes of the remaining leaves |
| MerkleTrees.HashUpperLevels | pkg/merkletree/MerkleTree.go:147-157 | The loop that ends when its `uint8` index reaches 255 terminates, also for level 0, and fills each level from the one below |
| MerkleTrees.CollectSiblings | pkg/merkletree/MerkleTree.go:194-206 | The shifting index picks exactly the sibling hashes on the way up |
| ProofCodec.SerializeProofStruct | pkg/merkletree/MerkleTree.go:19-27 | Writes the two bytes, the used part of the proof array and the data |
| ProofCodec.DeserializeProofStruct | pkg/merkletree/MerkleTree.go:31-43 | Reads them back; the result can be verified without running off its array |
| ProofCodec.DecodeEncode | pkg/merkletree/MerkleTree.go:19-43 | Reading back a proof loses only unused bytes of its array |
| ProofCodec.EncodeDecode | pkg/merkletree/MerkleTree.go:19-43 | Every byte string that can be read as a proof is written back as it was |
| ProofCodec.TransportKeepsRoot | pkg/merkletree/MerkleTree.go:19-62 | A proof that was sent verifies against the same root as before |
| ProofCodec.ProveAndSend | test/merkletree_test.go:46-65 | Generate for any element, serialize, deserialize, verify against the root of the tree: always accepted |
| Layouts.ProofLayout | pkg/merkletree/MerkleTree.go:19-27 | The bytes of a proof by position |
| Transactions.RefKeysAreInjective | pkg/blockchain/transaction.go:32-38 | Two references with one serialization are the same reference, so it can serve as a map key |
| Transactions.InputRoundTrip | pkg/blockchain/transaction.go:259-279 | An input comes back with its output looked up anew |
| Transactions.OutputRoundTrip | pkg/blockchain/transaction.go:317-339 | An output comes back field by field |
| Transactions.BlockRoundTrip | pkg/blockchain/transaction.go:124-185 | A transaction block comes back field by field, every input resolved by the receiver |
| Transactions.BlockSignatureExcludesItself | pkg/blockchain/transaction.go:188-201 | What is signed for a transaction block does not depend on the signature |
| Ownership.SignatureCoversBlock | pkg/blockchain/transaction.go:188-201 | Two transaction blocks have one signed hash exactly if counts, challenges, references, outputs and payer are the same, or an explicit collision is at hand |
| Transactions.OutputSignatureCoversItself | pkg/blockchain/transaction.go:342-356 | An output is signed over 32 bytes of its own, still zero, signature: the signed bytes are the ones checked later exactly if the signature starts with 32 zeros |
| TransactionCodec.SerializeTransactionRef | pkg/blockchain/transaction.go:32-38 | Fills the 34 bytes of a reference |
| Layouts.FourBytesInOrder | pkg/blockchain/transaction.go:317-319 | Integers are written with the lowest byte first |
| Layouts.RefLayout | pkg/blockchain/transaction.go:32-38 | The 34 bytes of a reference by position: hash, output number, transaction block number |
| Layouts.InputLayout | pkg/blockchain/transaction.go:259-265 | The 162 bytes of an input by position |
| Layouts.OutputLayout | pkg/blockchain/transaction.go:317-327 | The 362 bytes of an output by position; the last 32 are zero |
| Layouts.BlockLayoutInput | pkg/blockchain/transaction.go:124-147 | Where each input of a transaction block is |
| Layouts.BlockLayoutOutput | pkg/blockchain/transaction.go:124-147 | Where each output is |
| Layouts.BlockLayoutRest | pkg/blockchain/transaction.go:124-147 | Where counts, payer and signature are |
| Layouts.BlockReadBack | pkg/blockchain/transaction.go:150-185 | What a receiver reads of a transaction block, field by field |
| TransactionCodec.SerializeTransactionInput | pkg/blockchain/transaction.go:259-265 | Fills challenge and reference |
| TransactionCodec.serializeTransactionOutput | pkg/blockchain/transaction.go:317-327 | Fills the fields of an output and leaves 32 bytes zero |
| TransactionCodec.serializeTransactionBlock | pkg/blockchain/transaction.go:124-147 | The buffer filled with a moving index equals the layout that reads back |
| TransactionCodec.deserializeTransactionBlock | pkg/blockchain/transaction.go:150-185 | Reads every part at its place and counts the references that could not be looked up, in a byte |
| GroupCodec.serializeTransactionBlockGroup | pkg/blockchain/transaction.go:390-408 | The buffer equals size, height, 16-bit lengths and as much of each block as its length admits |
| Layouts.GroupLayoutTable | pkg/blockchain/transaction.go:390-408 | Size, height and the table of lengths of a group by position |
| Layouts.GroupLayoutBlock | pkg/blockchain/transaction.go:390-408 | Where each block of a group is, and how much of it |
| GroupCodec.deserializeTransactionBlockGroup | pkg/blockchain/transaction.go:411-438 | Takes a group apart and builds a finalized Merkle tree over its blocks |
| GroupCodec.ReceivedIsValid | pkg/blockchain/transaction.go:411-438 | In whatever is received every transaction block is what its bytes say |
| GroupCodec.ResolvedOnArrival | pkg/blockchain/transaction.go:268-279 | Resolving references while reading equals reading first and resolving against the block tree |
| GroupCodec.GroupRoundTrip | pkg/blockchain/transaction.go:390-438 | A group of 1 to 255 blocks comes back block by block, with the same height and Merkle root, if and only if every block is shorter than 65536 bytes |
| GroupCodec.TooManyOutputs | pkg/blockchain/transaction.go:390-408 | A transaction block with 181 outputs or more is too long for its 16-bit length |
| Verification.verifyExceptUTXO | pkg/blockchain/transaction.go:204-240 | Accepts exactly the blocks with good signatures, own inputs and passing `uint64` amounts; panics exactly if an unresolved input is reached |
| Verification.VerifyExceptUTXO | pkg/blockchain/transaction.go:374-387 | The first block of a group is checked as a fee block, the others are not; an empty group panics |
| Ownership.AcceptedExactly | pkg/blockchain/transaction.go:204-240 | A transaction block passes exactly if its payer signed all of it but the signature, every input has an output paid to the payer and signed for with his key, and the sums modulo 2^64 compare, a fee block with 10^9 more |
| Ownership.PanicsExactly | pkg/blockchain/transaction.go:204-240 | The check panics exactly if the block is signed and it meets an input without output after inputs that are there and signed for |
| Ownership.GroupAcceptedExactly | pkg/blockchain/transaction.go:374-387 | A group passes exactly if it has blocks, the first passes as a fee block and the others as no fee blocks; it panics exactly if it is empty or the first block that does not pass panics |
| Verification.RuleIffNoOverflow | pkg/blockchain/transaction.go:218-239 | If the inputs fit 64 bits, the wrapped comparison means the amount rule exactly if the outputs fit, too |
| Verification.OverflowBreaksRule | pkg/blockchain/transaction.go:228-239 | Two outputs of 2^63 pass the amount rule without any input |
| Limits.ForgedChainIsVerified | pkg/blockchain/transaction.go:204-240 | Whoever has a key pair can sign a block without inputs and with two outputs of 2^63: a chain of this one block is verified, and its coins exceed the supply bound |
| Limits.BuildOnRoot | pkg/blockchain/BlockchainCore.go:518-524 | Whatever height a child of the root claims, the root has a manager afterwards exactly if that height is 1 mod 5 |
| Limits.LoseTheRoot | pkg/blockchain/BlockchainCore.go:518-524 | A child of the root that claims height 2 takes the only manager away from the root |
| Limits.OverwritingLosesTheHead | pkg/blockchain/BlockchainCore.go:299-301 | A node entered under the hash of the head, as for a mined block that is not new, breaks the invariant of the head |
| Limits.OverwritingExactly | pkg/blockchain/BlockchainCore.go:299-301 | A node entered under any known hash keeps the tree in order exactly if the node it replaces is not the root and nothing was built on it |
| GroupBuilding.GroupRefsOk | pkg/blockchain/transaction.go:453-483 | A group put together by `Add` may be spent exactly if each of its blocks may be spent |
| GroupBuilding.AddMissesRepetition | pkg/blockchain/transaction.go:453-468 | `Add` alone lets a block through that spends one output twice |
| GroupBuilding.TransactionBlockGroup.initializeTransactionBlockGroup | pkg/blockchain/transaction.go:441-450 | A new group is empty and open |
| GroupBuilding.TransactionBlockGroup.Add | pkg/blockchain/transaction.go:453-483 | Appends a block exactly if the group is open and the block shares no reference with the blocks before it |
| GroupBuilding.TransactionBlockGroup.finalizeTransactionBlockGroup | pkg/blockchain/transaction.go:486-489 | Closes the group; with at most 255 blocks it is a valid group and its Merkle tree covers all of it |
| Ledger.ReplayMeaning | pkg/blockchain/utxoManager.go:167-253 | Replaying an accepted chain lists exactly the outputs its blocks made and marks unspent exactly those no input of the chain refers to |
| Ledger.ApplyMeaning | pkg/blockchain/utxoManager.go:167-253 | What one block does to any reference |
| Ledger.StillSpendable | pkg/blockchain/utxoManager.go:167-216 | What a whole group may spend at its start, each of its blocks may still spend when its turn comes |
| Ledger.NoDoubleSpend | pkg/blockchain/utxoManager.go:90-113 | Along an accepted chain two inputs with one reference are the same input |
| Ledger.SpentAfterCreation | pkg/blockchain/utxoManager.go:90-113 | An output is spent only by a block strictly after the one that made it |
| Ownership.NoInputTwice | pkg/blockchain/utxoManager.go:90-113 | Along a verified chain two inputs, wherever they are, that name one output are one input |
| Ownership.NoTheft | pkg/blockchain/transaction.go:204-226 | Along a verified chain every input spends an output of an earlier block that was paid to the payer of now, and his key accepts a signature under that output and one under the whole transaction block |
| Ownership.EveryBlockIsSigned | pkg/blockchain/transaction.go:204-210 | Along a verified chain every transaction block, with or without inputs, is signed by its payer |
| Supply.Conservation | pkg/blockchain/utxoManager.go:167-253 | Over one block: coins afterwards plus coins spent equals coins before plus outputs made |
| Supply.ChainCoinsMeaning | pkg/blockchain/utxoManager.go:167-253 | The coins of a chain are its unspent outputs, each worth what the output says |
| Supply.InputIsWorthItsCoin | pkg/blockchain/transaction.go:220-226 | What a verified block counts for an input is what the coin it spends is worth |
| Supply.InputSumsDoNotWrap | pkg/blockchain/transaction.go:218-237 | Below 2^32 blocks and within the supply bound, the input sum plus one coin does not wrap |
| Supply.MoneySupply | pkg/blockchain/transaction.go:204-240 | After every block of a verified chain all unspent outputs are worth at most 10^9 a block, if and only if no transaction block creates 2^64 or more |
| UtxoManagers.UTxOManager.initializeUTxOMananger | pkg/blockchain/utxoManager.go:25-33 | A new manager has an empty map and is attached to the root, which has no data and is up to date |
| UtxoManagers.UTxOManager.verifyTransactionRef | pkg/blockchain/utxoManager.go:36-64 | True exactly for unspent outputs in the nested map |
| UtxoManagers.UTxOManager.VerifyTransactionBlockRefs | pkg/blockchain/utxoManager.go:67-87 | True exactly if the references of the block are distinct and unspent |
| UtxoManagers.UTxOManager.verifyTransactionBlockGroupRefs | pkg/blockchain/utxoManager.go:90-113 | True exactly if the references of all blocks together are distinct and unspent; the manager is not changed |
| UtxoManagers.UTxOManager.SpendRef | pkg/blockchain/utxoManager.go:173-212 | Marks an unspent output spent in place, or reports that the map is not in sync and changes nothing |
| UtxoManagers.UTxOManager.AddOutputs | pkg/blockchain/utxoManager.go:229-250 | Adds exactly the outputs of one transaction block, unspent, and counts them off |
| UtxoManagers.UTxOManager.ApplyBlocks | pkg/blockchain/utxoManager.go:164-255 | Applies a group in place as the replay does, with the wait counter back at zero; what the group check accepted never fails here |
| UtxoManagers.UTxOManager.updateWithNextBlockChainNode | pkg/blockchain/utxoManager.go:116-280 | Each obstacle is reported without touching nodes or map; otherwise the manager moves to the node, its map is the applied group, and the node before keeps a fresh equal copy or nothing |
| UtxoManagers.UTxOManager.Deepcopy | pkg/blockchain/utxoManager.go:283-349 | An equal map made only of new maps, attached to the same node |
| Blocks.HeaderRoundTrip | pkg/blockchain/block.go:28-47 | A header comes back from its 76 bytes |
| Blocks.serializeBlock | pkg/blockchain/block.go:28-36 | The buffer equals the layout that reads back |
| Blocks.HashBinds | pkg/blockchain/block.go:50-53 | Two headers with one hash are equal or an explicit collision |
| Layouts.HeaderLayout | pkg/blockchain/block.go:28-36 | The 76 bytes of a header by position, and that their hash is the hash of the block |
| Blocks.WorkedExactly | pkg/blockchain/block.go:67-75 | The proof of work passes exactly if as many bytes of the hash as the difficulty says, at most 32, are zero |
| Blocks.PreparedExactly | pkg/blockchain/transactionPool.go:191-220 | A header that is prepared commits to the data, names the hash of the head, demands the same difficulty and counts one more |
| Commitments.HeaderCommitsToData | pkg/blockchain/BlockchainCore.go:323-366 | Two groups that fit one Merkle root hold the same transactions, or an explicit collision is computed; transaction blocks are never 64 bytes long |
| Commitments.ProvenBlockIsInGroup | pkg/merkletree/MerkleTree.go:46-62 | A proof against a header whose data can be read as a transaction block proves a block of the group behind that header, or an explicit collision is computed |
| ChainState.ResolveGroupProperties | pkg/blockchain/BlockchainCore.go:321-323 | Resolving references keeps the Merkle root and makes every carried output the one its reference names |
| ChainState.HistoryIsVerified | pkg/blockchain/BlockchainCore.go:469-487 | A history of blocks that were accepted and passed, read off the data held, satisfies the hypotheses of the supply and double-spend theorems |
| TreeInvariants.BuiltIsVerified | pkg/blockchain/BlockchainCore.go:469-487 | The history of every verified node is a verified chain as long as its height |
| TreeInvariants.NewRoot | pkg/blockchain/blockchainGenesis.go:6-33 | The root is its own predecessor, up to date with an empty map |
| TreeInvariants.OneHigher | pkg/blockchain/BlockchainCore.go:162-177 | Every node but the root is one higher than the node before it |
| Building.MarkVerified | pkg/blockchain/BlockchainCore.go:487-488 | Marking a node verified keeps the invariant of all verified nodes; verifying it again changes no history |
| Building.MoveManager | pkg/blockchain/BlockchainCore.go:518-524 | Moving the manager never fails after the checks; every node keeps its own manager that agrees with its replay; the node before stays up to date exactly at heights 1 mod 5 of the new node |
| Orphans.JoinOverwritesNothing | pkg/blockchain/BlockchainCore.go:203-207 | The keys of an orphan chain that joins are disjoint from those of the main chain |
| Orphans.MoreNodes | pkg/blockchain/BlockchainCore.go:161-207 | Nodes without data and verification, put in their places, leave every invariant intact |
| BlockChains.BlockChain.Genesis | pkg/blockchain/blockchainGenesis.go:6-33 | A new block chain satisfies every invariant |
| BlockChains.BlockChain.getTransactionOutput | pkg/blockchain/BlockchainCore.go:681-710 | The output a reference names, exactly if its block, data, transaction block and output are known |
| BlockChains.BlockChain.addData | pkg/blockchain/BlockchainCore.go:319-373 | The first data for a known header is attached to it, other first data waits under its Merkle root; everything else is dropped |
| EarlyData.ResolvedExactly | pkg/blockchain/BlockchainCore.go:321-323 | On arrival each input is given the output its reference names in the data held, or none; nothing else of a group changes |
| EarlyData.DataGoesExactly | pkg/blockchain/BlockchainCore.go:319-373 | Where arriving data goes, in each case: kept under its root, dropped, or attached |
| EarlyData.DataBeforeHeader | pkg/blockchain/BlockchainCore.go:319-444 | Data that comes before its header is used: after the data, the header on top of the head and one round, the node has the data as it was resolved on arrival, is up to date and is the head, if both checks accept |
| BlockChains.BlockChain.FindDangling | pkg/blockchain/BlockchainCore.go:415-444 | Waiting data is attached and the lead removed; otherwise the call has to wait |
| BlockChains.BlockChain.WaitForData | pkg/blockchain/BlockchainCore.go:456-459 | Arrivals are taken one by one until the awaited data is there |
| BlockChains.BlockChain.VerifyAndApply | pkg/blockchain/BlockchainCore.go:461-524 | What the function `Judged` says: done exactly if both checks accept the data after the blocks before it; then the node is verified, takes over the manager and is the head exactly if it is higher; a failure changes no manager, history, head or height |
| BlockChains.BlockChain.TakeHead | pkg/blockchain/BlockchainCore.go:494-507 | Head, height and fork heads after a higher block |
| BlockChains.BlockChain.verifyAndBuildDown | pkg/blockchain/BlockchainCore.go:384-531 | For any node, branch, history and arrivals the outcome, what is left of the arrivals, and histories, managers, data, dangling data, leads, head and height are what the function `BuiltDown` says; a failure is remembered; the wallet lists in addition what the applied nodes pay it, in order; the forward links are redirected; and every invariant is kept |
| Updates.LinksLeadUp | pkg/blockchain/BlockchainCore.go:398-400 | Afterwards the forward links lead from the last node that was up to date to the node asked for, and no other changed |
| BlockChains.BlockChain.Tell | pkg/blockchain/BlockchainCore.go:526-528 | Once a node was applied the wallet lists what it pays, and nothing else changes |
| Updates.BuildMeaning | pkg/blockchain/BlockchainCore.go:384-531 | What `BuiltDown` means: the nodes applied are the beginning of the path from above the last up-to-date node, each accepted after the blocks before it and given that history; the first one not applied has no data, or is not accepted, or crashes the check; no other history changes |
| Updates.DoneExactly | pkg/blockchain/BlockchainCore.go:384-531 | A node becomes up to date exactly if every block on the path to it, which may lead to another branch, has its data in the end and is accepted after the blocks before it |
| Updates.DoneExactlyNow | pkg/blockchain/BlockchainCore.go:410-487 | Before the call, when nothing arrives meanwhile: the data afterwards is what was held and, for nodes on the path without data, what waits under their Merkle roots, whose leads are deleted; and the call is done exactly if with it every block on the path is there and accepted after the blocks before it |
| Updates.VerifiedAgain | pkg/blockchain/BlockchainCore.go:446-487 | A node that was verified once never fails again |
| Updates.HistoriesStay | pkg/blockchain/BlockchainCore.go:487-488 | Whatever is built, the history of a verified node never changes |
| Updates.PathIsShort | pkg/blockchain/BlockchainCore.go:518 | After a verified node the path has at most 5 nodes, because every fifth keeps a savepoint |
| BlockChains.BlockChain.initializeOrphanBlockChain | pkg/blockchain/BlockchainCore.go:588-617 | An orphan chain of one node without predecessor or data |
| BlockChains.BlockChain.AddToOrphan | pkg/blockchain/BlockchainCore.go:64-280 | In an orphan chain: the node is added once and the head is the highest node; the chain stays a tree |
| BlockChains.BlockChain.addBlockChainNode | pkg/blockchain/BlockchainCore.go:64-280 | A header is rejected exactly if one of the first bytes of its hash, as many as its difficulty says, is not zero; otherwise main chain and all orphan chains change as the function `Arrived` says, in all eight cases; no entry is overwritten, a joining chain brings exactly its nodes, the highest new node is queued exactly if it is higher than the head, the parent points forward to the new node, and nothing else changes |
| HeaderTrees.ArrivedExactly | pkg/blockchain/BlockchainCore.go:102-223 | Where a good new header goes, in each of the five cases, by index |
| HeaderTrees.StaysExactly | pkg/blockchain/BlockchainCore.go:64-101 | A bad header, or one that the main chain has, changes nothing |
| Runs.EveryNodeWorked | pkg/blockchain/BlockchainCore.go:64-72 | In every reachable state each node, of the main chain or an orphan chain, has as many zero bytes at the beginning of its hash as its difficulty says |
| BlockChains.BlockChain.addInternal | pkg/blockchain/BlockchainCore.go:283-316 | A mined block under any known parent is inserted with its data and queued, whatever its height; nothing else changes |
| BlockChains.BlockChain.utxoUpdater | pkg/blockchain/BlockchainCore.go:376-381 | One round takes one node off the channel, does what `BuiltDown` says, and keeps every invariant |
| BlockChains.BlockChain.HighestHead | pkg/blockchain/BlockchainCore.go:494-516 | When the channel is empty and no verification failed, no node of the main chain is higher than the head, and `Height` is the height of the head |
| BlockChains.BlockChain.VerifyHash | pkg/blockchain/BlockchainCore.go:713-726 | Always true |
| BlockChains.BlockChain.SerializeBlockChain | pkg/blockchain/BlockchainCore.go:536-548 | The headers from root to head, hash-linked, each at its height |
| Runs.DeserializeBlockChain | pkg/blockchain/BlockchainCore.go:551-585 | Headers that are linked from the genesis block on all end up in the main chain, and nothing else does |
| Runs.SendChain | pkg/blockchain/BlockchainCore.go:536-585 | A serialized chain is rebuilt with exactly its blocks, and no orphan chain is left |
| HeaderTrees.ArrivedIsHeld | pkg/blockchain/BlockchainCore.go:64-280 | An arriving header that passes the proof of work is held afterwards, in the main chain or an orphan chain, and every header that was held still is, wherever chains moved |
| Arrivals.CompleteExactly | pkg/blockchain/BlockchainCore.go:162-223 | Every accepted header whose parent is in the main chain is in it, too, if and only if no orphan chain was left behind with headers the main chain lacks |
| Arrivals.StaysCompleteExactly | pkg/blockchain/BlockchainCore.go:162-223 | From a complete main chain any arriving header leads to a complete one exactly if no other orphan chain with headers the main chain lacks waits for a hash that enters |
| Arrivals.MinedStaysComplete | pkg/blockchain/BlockchainCore.go:283-316 | From a complete main chain a mined block leads to a complete one exactly if no orphan chain with headers the main chain lacks waits for it |
| Arrivals.TheOrderMatters | pkg/blockchain/BlockchainCore.go:102-158 | Four headers that all join the main chain in one order leave one of them outside in another, although its parent is in |
| Runs.Arrive | pkg/blockchain/BlockchainCore.go:64-280 | Any header in any state: what the function says happens, every invariant is kept, and the headers held are exactly those that were accepted |
| Events.Mine | pkg/blockchain/miner.go:132-152 | A mined block is added under any known parent, whatever the head is by then, exactly if it is new, passes the proof of work and commits to its data; otherwise nothing changes |
| EarlyData.MinedGoesExactly | pkg/blockchain/miner.go:132-152 | The same field by field: the new node with its data is queued whatever its height, and no orphan chain joins |
| Events.Update | pkg/blockchain/BlockchainCore.go:375-531 | A round of the updater in any state, with any node, branch and arrivals: the whole state afterwards is what the function `Updated` says |
| Events.RoundExactly | pkg/blockchain/BlockchainCore.go:375-531 | What a round does: its node becomes up to date exactly if the whole path can be followed, then all of it was applied, nothing failed and it is the head if higher; otherwise the first node not applied is named with the reason; after a verified node at most 5 blocks are applied |
| Events.Step | pkg/blockchain/BlockchainCore.go:64-531 | Any event in any state keeps every invariant and has exactly the effect of its kind on nodes, orphan chains, data, queue, head, histories and wallet |
| WholeRuns.NothingIsUndone | pkg/blockchain/BlockchainCore.go:64-531 | Along any run nodes, held headers, data and histories of verified nodes stay, the head moves only upwards, and failures are remembered |
| WholeRuns.NoHeaderIsLost | pkg/blockchain/BlockchainCore.go:64-280 | From its arrival to the end of any run a header that passes the proof of work is held |
| WholeRuns.TreeIsAFunction | pkg/blockchain/BlockchainCore.go:64-316 | At any time of any run, main chain and orphan chains are a function of the headers and mined blocks so far; data, verdicts and managers do not matter |
| WholeRuns.WalletListsWhatItWasShown | pkg/blockchain/wallet.go:175-201 | Along any run the wallet was shown exactly the verified nodes, and lists what they pay, in the order in which they were applied |
| WholeRuns.WalletListsAllVerified | pkg/blockchain/wallet.go:175-201 | After any run the wallet lists an output if and only if some verified node, on any branch, pays it |
| Wallets.ListsNothingTwice | pkg/blockchain/wallet.go:175-201 | The wallet lists nothing twice if and only if no block that pays it was shown to it twice |
| Relisting.ShownAgainExactly | pkg/blockchain/BlockchainCore.go:446-527 | A round shows the wallet a node that was verified before if and only if its path starts with one |
| Relisting.SwitchListsTwice | pkg/blockchain/BlockchainCore.go:446-527 | A run of eight events: after a switch to a longer branch, with every block accepted, the wallet lists an unspent output below the fork two times |
| Relisting.FeeOnlyExists | pkg/blockchain/transactionPool.go:173-188 | Whoever has a key pair can make the data of that run: a signed fee block alone |
| WholeRuns.StoredProofsVerify | pkg/blockchain/wallet.go:182-198 | After any run each stored proof leads to the Merkle root in the header of its block, and its output pays the wallet |
| WholeRuns.Run | pkg/blockchain/BlockchainCore.go:64-531 | After any sequence of headers, data, mined blocks and rounds of the updater: each event had exactly its effect, no accepted header is lost, the tree is the function of the events, data matches headers, verified nodes have verified chains, up-to-date nodes have managers of their own that agree with the replay and share no map, savepoints stay, a drained head is highest, all stored proofs verify, and the wallet lists exactly what the verified nodes pay it |
| HonestNodes.NoDoubleSpendInTree | pkg/blockchain/utxoManager.go:90-113 | In every reachable state, along the chain of any verified node, no output is spent twice, and each strictly after the block that made it |
| HonestNodes.NoInputTwiceInTree | pkg/blockchain/utxoManager.go:90-113 | The same by inputs |
| HonestNodes.NoTheftInTree | pkg/blockchain/transaction.go:204-226 | In every reachable state nobody spends, on the chain of a verified node, what was not paid to him and signed for by him |
| HonestNodes.MoneySupplyInTree | pkg/blockchain/transaction.go:204-240 | In every reachable state the coins of a verified node are worth at most one a block of its chain, exactly if no transaction block there creates 2^64 or more |
| TransactionPools.generateFeeBlock | pkg/blockchain/transactionPool.go:173-188 | One output of 10^9 to the miner, who is the payer, with a counter in its text, from nowhere: passes as the first block of a group and as no other |
| TransactionPools.FeesDiffer | pkg/blockchain/transactionPool.go:173-182 | Fee blocks with different counters are different |
| TransactionPools.OthersStay | pkg/blockchain/transactionPool.go:104-121 | A request that enters the pool replaces no other one, or an explicit collision is at hand |
| TransactionPools.TransactionPool.receiveTransactionBlock | pkg/blockchain/transactionPool.go:92-113 | Keeps exactly the requests that pass every check but the one against the outputs |
| TransactionPools.TransactionPool.receiveInternal | pkg/blockchain/transactionPool.go:116-121 | Keeps a request of this miner unchecked, under its hash |
| TransactionPools.TransactionPool.generateTransctionBlockGroup | pkg/blockchain/transactionPool.go:124-170 | The finalized group holds the fee block and then as many requests as possible: one that could be spent is left out only for another of the group that spends the same; it passes both checks on the manager it was formed for, if the unchecked requests of this miner do |
| HonestNodes.MineFromPool | pkg/blockchain/transactionPool.go:124-220 | A block formed from the pool on top of the head is mined exactly if it has at most 255 blocks and a new header that fits it and passes the proof of work; then it is verified without fail and is the new head, with this group as its data, and the wallet of the miner lists its fee of 10^9, which is unspent; otherwise nothing changes |
| HonestNodes.AddMined | pkg/blockchain/BlockchainCore.go:283-531 | A mined block on top of the head that both checks accept is verified without fail and is the new head, with its data and the history of the old head and itself, and the wallet lists what it pays |
| HonestNodes.RequestReceived | pkg/blockchain/transactionPool.go:97-106 | A request from the network carries the outputs its references name in the data held |
| HonestNodes.PaymentRequested | pkg/blockchain/wallet.go:107-172 | So does a payment of this wallet |
| HonestNodes.RequestsStayResolved | pkg/blockchain/transactionPool.go:92-121 | And it stays so while data only arrives |
| Wallets.PaysExactlyIfAvailable | pkg/blockchain/wallet.go:88-136 | Selection reaches an amount exactly if it is available |
| Wallets.ChosenRefs | pkg/blockchain/wallet.go:111-129 | Only held, unspent outputs are chosen, each once if the wallet holds nothing twice |
| Wallets.PaymentPasses | pkg/blockchain/wallet.go:138-160 | An assembled payment passes every check of a transaction block |
| Wallets.ReceivedMeaning | pkg/blockchain/wallet.go:182-198 | An update lists every output of the block that pays the wallet, once |
| Wallets.UpdateKeepsDistinct | pkg/blockchain/wallet.go:175-201 | A wallet stays free of duplicates exactly if it held nothing of the block |
| Wallets.EntryIsWorthItsCoin | pkg/blockchain/wallet.go:66-81 | An unspent entry is worth to the wallet what it is worth in the money supply |
| Wallets.EntriesStay | pkg/blockchain/wallet.go:175-201 | What the wallet holds stays part of the data while data only arrives |
| Wallets.AvailableIsBounded | pkg/blockchain/wallet.go:48-85 | What a wallet can spend is at most one coin a block, so its sum does not wrap |
| Wallets.Wallet.updateWithBlock | pkg/blockchain/wallet.go:175-201 | Lists every output that pays the wallet with a proof that leads from the bytes of its block to the Merkle root of its data |
| Wallets.Wallet.TotalAvailable | pkg/blockchain/wallet.go:48-85 | The `uint64` sum of the unspent entries, zero for a head that is not up to date |
| Wallets.SelectionIsRight | pkg/blockchain/wallet.go:111-129 | Selection takes the unspent entries of a beginning of the wallet, in order; before the last of several their sum is less than the amount, and if entries are left over, at the end it is not |
| Wallets.Wallet.SelectCoins | pkg/blockchain/wallet.go:111-129 | The loop with its early exit chooses what the selection function says, and stops where `Selection` says |
| Wallets.Wallet.MakeTransaction | pkg/blockchain/wallet.go:88-172 | A payment results exactly if the chosen outputs suffice; it spends a `Selection`, the amount goes to the receiver with his message and the rest, if there is any, back in a second output, all outputs are signed, the references pass on the manager, the payment passes verification, and it is handed to the pool, if there is one |
| HonestNodes.WalletKnowsItsCoins | pkg/blockchain/wallet.go:48-201 | After any run the wallet lists every output on the chain of the head that pays it, and of the unspent outputs no others |
| HonestNodes.BalanceIsExact | pkg/blockchain/wallet.go:48-85 | After any run a duplicate-free wallet finds unspent exactly the coins on the chain of the head that pay it, each once, and their sum is what these coins are worth in the money supply |
| HonestNodes.PaymentSucceedsExactly | pkg/blockchain/wallet.go:48-136 | After any run a duplicate-free wallet can pay an amount exactly if it is at most `TotalAvailable`, as long as no transaction block before the head created 2^64 or more |

## Left out

- RSA and key encoding (pkg/rsa_util/rsa_util.go), SHA-256 itself, message traffic, timers, requests for missing data.
- Mutexes, goroutines and their schedules: each operation is one step.
- WaitForData: only data arrives during the wait; a header or mined block that comes meanwhile is an event before or
  after it in a run.
- The search for a nonce: only that a mined header passes `Verify`.
- Shell, printing, debug output, and the codecs of requests, sends and confirmations, which are fixed copies.
- `transactionBlockNode` and its codec, which nothing uses.
- `updateWithBlockchainNode` of the pool, which deletes requests that became part of a block.
- `Deepcopy` does not copy the miner; its use in messages tolerates that.
- The reasons kept with unresolved references: only their number is modelled. The messages behind the four ways of
  being out of sync are one error.
- GetBlockChainNodeAtHeight and GetBlockChainNodeAtHash: simple walks and lookups.
- The test for orphan chains in `verifyAndBuildDown`: only the main chain has an updater.
- verifyAndBuildDown: does not end by calling the pool; and what it does to `otherHeadNodes` is stated for `TakeHead`
  only, because nothing depends on that map (it is not the set of leaves: `addInternal` does not enter blocks into it).
- addInternal: requires that the hash is new; the code would overwrite the entry (`OverwritingLosesTheHead`,
  `OverwritingExactly`).
- Mine: a mined block that is not new changes nothing; the code would overwrite the entry.
- utxoUpdater: that data, headers or rounds ever come is not claimed.
- MakeTransaction: with more than 255 inputs the `uint8` counter wraps and the bytes that are signed are no longer those
  of the whole block; only the selection and the sums are right then.
- serializeTransactionBlock: requires counts that match the lists; the code would panic or leave entries out.
- deserializeTransactionBlock and deserializeTransactionBlockGroup require enough bytes; the code would panic.
