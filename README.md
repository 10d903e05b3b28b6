# Toy ledger integrity, modelled in Dafny

This project models the integrity logic of a small Python ledger (crypto-learn). The ledger has three parts.

1. **Transactions** (`Tx`, transaction.py).
   - Inputs and outputs are insertion-ordered dicts from a serialized public key to a `{pub_key, amount}` entry.
   - Required co-signers are a list.
   - Signatures are a dict from the signer's serialized public key to a signature.
   - A signature is made over the canonical payload: the input entries, then the output entries, then the required keys.
   - `is_valid` runs four checks in order:
     1. every input key has signed;
     2. every required key has signed;
     3. no amount is negative;
     4. every stored signature verifies over the payload.
2. **Hash-linked blocks** (`Block`, blockchain.py).
   - A block holds a data buffer that callers may reassign.
   - It keeps a reference to its parent and a snapshot of the parent's hash, taken when the block is built.
   - Its hash is recomputed on every access: the SHA-256 digest of the data followed by the snapshot, or of the data alone for a root.
3. **Transaction blocks** (`TxBlock`, block.py).
   - A `TxBlock` wraps a `Block`.
   - `add_tx` appends one serialized transaction and a newline to the data.
   - `is_valid` splits the data on newlines, drops the empty fragments, and decodes every fragment.
   - It requires every decoded transaction to be valid.
   - Unless the block is a root, it also requires the parent's current hash to equal the stored snapshot.

Modules:

- `Wrappers`: `Option` and `Result`.
- `Crypto`: the byte type and the foreign primitives.
  - SHA-256 (FIPS 180-4) enters as a function value `Hasher`.
  - RSASSA-PSS with SHA-256 and MGF1 (section 8.1 of RFC 8017) enters as a `Scheme` with `publicOf`, `sign` and `verify`.
  - What the ledger assumes of them is stated as the predicates `CollisionFree` and `Sound`. Every lemma that needs them requires them.
- `Dicts`: Python's insertion-ordered dict. Writing to an existing key replaces its value in place.
- `Transaction`:
  - Amounts are JSON numbers, as `json` writes and reads them. An `int` and a `float` are different values: `1` and `1.0` have different JSON text, so retyping an amount changes the signed payload.
  - Finite nonzero floats are kept in their shortest decimal form, so each float has one representation. The model also covers `0.0` and `-0.0`, `Infinity`, `-Infinity` and `NaN`, which `json` accepts.
  - `Negative` is Python's `amount < 0`. It is false for `NaN` and for `-0.0`, and true for `-Infinity`.
  - `TxRecord` holds the four collections as a value.
  - The signed payload concatenates the input entries, the output entries and the required keys with nothing to mark where one list ends and the next begins (transaction.py:79-85). So not every edit after signing breaks the signatures. Moving a signed input entry, in order, to the front of the outputs keeps the payload, and the transaction stays valid. `InputMovedToOutputsStaysValid` exhibits this, and `RegroupedStaysValid` states the general case.
  - Value-level transition functions give the effect of each method: `WithInput`, `WithOutput`, `WithRequired` and `Signed`.
  - `Validate` is `is_valid`.
  - The class `Tx` holds the collections as fields that its methods reassign. Each method's `ensures` is the matching transition.
  - The JSON glue is an opaque `Codec`. Three hypotheses describe it:
    - `PayloadInjective`: distinct payloads encode to distinct bytes;
    - `OneLine`: `to_json` yields one non-empty line;
    - `RoundTrips`: `from_json` undoes `to_json`.
- `Lines`: `split('\n')`, the filter that drops empty fragments, and the framing that repeated `add_tx` calls build.
- `Blockchain`: `_hash`, the running hash context it uses, and the class `Block`. The block stores its hasher as a constant, and a child uses its parent's.
- `Block`: the class `TxBlock` and `is_valid` as `Verdict`.
  - A line that does not decode makes the source raise. The model returns `Failure(MalformedTx(line))` instead.
- `Scenarios`: the test suites' scenarios, replayed on the classes, with the outcomes the tests assert.
  - The block scenarios are stated for any transactions that are valid. The tests' own transactions are built and proved valid by `SignedTransfer`, `SignedPayout` and `CosignedTransfer`.
- `Witness`: concrete primitives that meet every hypothesis at once, so no lemma that requires them is vacuous.
  - The hash is the identity.
  - The codec writes each value as a tree of naturals in a self-delimiting byte code without newlines.
  - A signature is the message and the signer's key written together.

## Model

| member | source | states |
|---|---|---|
| Dicts.Put | transaction.py:57-60 | the stored map is the old one with `k` set to `v`, whether or not `k` was present |
| Dicts.PutExisting | transaction.py:57-60 | writing to a key already present keeps the key order and the entry count and replaces only that key's value at its position |
| Dicts.PutFresh | transaction.py:57-60 | writing to a new key appends exactly that key and its value at the end |
| Dicts.Values | transaction.py:82-83 | `values()` lists one value per key |
| Dicts.ValueAtKey | transaction.py:99-104 | every key of the dict sits at a position of the key order, and `values()` lists its value there |
| Dicts.ValuesListEveryEntry | transaction.py:99-104 | every stored value is among those `values()` lists, so the negative-amount scans see every entry |
| Transaction.WithInput | transaction.py:55-60 | the input map gets the entry `{key, amount}` under `key`; the old key order is kept as a prefix; outputs, required keys and signatures are unchanged |
| Transaction.WithOutput | transaction.py:62-67 | the output map gets the entry under `key`; the old key order is kept as a prefix; inputs, required keys and signatures are unchanged |
| Transaction.WithRequired | transaction.py:69-71 | the required list grows by exactly the key, at the end, after the old list; the other fields are unchanged |
| Transaction.Signed | transaction.py:73-77 | the signature map gets the signature over the current message under the signer's public key; inputs, outputs and required keys are unchanged |
| Transaction.PayloadLayout | transaction.py:79-85 | the payload lists the input entries in key order, then the output entries in key order, then the required keys, and nothing else |
| Transaction.MessageDeterminesPayload | transaction.py:79-85 | with an injective payload encoding, two transactions have the same signed message if and only if they have the same payload |
| Transaction.Validate | transaction.py:87-128 | the chain of early returns is valid if and only if all four checks pass: inputs signed, required keys signed, no negative amount, every signature verifies over the message |
| Transaction.Tx.constructor | transaction.py:20-35 | the new transaction is the empty one with `add_input`, then `add_output`, then `add_required` applied to each argument in order (loops with invariants) |
| Transaction.RequiredsAppend | transaction.py:34-35 | calling `add_required` on each key appends exactly those keys, in order, duplicates included |
| Transaction.AddersKeepRequiredAndSignatures | transaction.py:30-33 | the constructor's input and output loops leave the required keys and the signatures alone |
| Transaction.BuildRequiredUnsigned | transaction.py:26-35 | a new transaction requires exactly the keys it was given and holds no signature |
| Transaction.Tx.AddInput | transaction.py:55-60 | the new state is the old one with the entry `{key, amount}` written under `key` |
| Transaction.InputWritten | transaction.py:55-60 | on a present key the input order and count are kept and only that entry changes; on a new key exactly one entry is appended; outputs, required keys and signatures are unchanged |
| Transaction.Tx.AddOutput | transaction.py:62-67 | the new state is the old one with the entry written under `key` in the outputs |
| Transaction.OutputWritten | transaction.py:62-67 | the same overwrite-or-append behaviour on outputs only; inputs, required keys and signatures are unchanged |
| Transaction.Tx.AddRequired | transaction.py:69-71 | exactly one key more, appended even when it is a duplicate; the other fields are unchanged |
| Transaction.Tx.Sign | transaction.py:73-77 | one signature over the current payload is stored under the signer's public key, replacing any earlier one; inputs, outputs and required keys are unchanged; with a sound scheme the new signature verifies over the payload |
| Transaction.Tx.SerializePayload | transaction.py:79-85 | the signed bytes identify the payload: with an injective payload encoding, a transaction yields these bytes if and only if it has the same payload as the current fields |
| Transaction.Tx.IsValid | transaction.py:87-128 | the transaction's own fields pass all four checks, the signatures being checked over its own serialized payload |
| Transaction.SignedVerifies | transaction.py:73-77 | with a sound scheme, a fresh signature verifies over the message of the transaction that stores it, because signing does not change the payload |
| Transaction.SigningKeepsOtherSignatures | transaction.py:73-85 | signing keeps the payload and every signature stored under another key |
| Transaction.Tx.ToJson | transaction.py:37-43 | under `OneLine` the JSON is one non-empty line without a newline; under `RoundTrips` `from_json` reads it back field for field |
| Transaction.Tx.FromJson | transaction.py:45-53 | yields a fresh transaction with exactly the decoded fields, and nothing where decoding fails |
| Transaction.ValidityCharacterised | transaction.py:87-128 | `is_valid` holds if and only if every input key and every required key has signed, no input or output amount is negative, and every stored signature verifies over the payload |
| Transaction.UnsignedInputInvalid | transaction.py:88-91 | an input key without a signature makes the transaction invalid, whatever else it holds |
| Transaction.UnsignedRequiredInvalid | transaction.py:93-96 | a required key without a signature makes the transaction invalid |
| Transaction.NegativeAmountInvalid | transaction.py:98-107 | any negative input or output amount makes the transaction invalid, even when every signature is present and correct |
| Transaction.NegativeTransferInvalid | transaction.py:98-107 | a signed one-to-one transfer with a negative amount on either side is invalid |
| Transaction.OutputEditBreaksSignature | transaction.py:119-128 | rewriting an output entry after signing, its key or its amount (retyping `1` as `1.0` included), changes the payload, so the earlier signature stops verifying and the transaction is invalid |
| Transaction.SignedByState | transaction.py:73-77 | signing in turn keeps inputs, outputs, required keys and payload; starting unsigned, exactly the signers' keys hold a signature, and each verifies |
| Transaction.SignedByValidIff | transaction.py:87-128 | an unsigned transaction signed by some parties is valid if and only if every input key and every required key is among the signers and no amount is negative |
| Transaction.SingleOwnerSignedValid | transaction.py:87-128 | a transaction with no required keys, whose inputs all belong to one key and whose amounts are non-negative, is valid once that key's owner has signed |
| Transaction.OneToOneValid | transaction.py:87-128 | a one-to-one transfer with non-negative amounts, signed by the payer, is valid whatever the two amounts are |
| Transaction.PayoutValid | transaction.py:109-128 | outputs are not checked against inputs: a payout with no inputs and a non-negative amount is valid whoever signs it |
| Transaction.OwnerAndCosignerSignedValid | transaction.py:93-96 | a transaction whose inputs belong to one key and whose required keys are all one other key is valid once both owners have signed |
| Transaction.CosignedValid | transaction.py:87-128 | a transfer that requires a co-signer is valid once the payer and the co-signer have both signed |
| Transaction.PayloadSeesOnlyConcatenation | transaction.py:79-85 | the payload depends only on the input entries and output entries taken together, and on the required keys |
| Transaction.RegroupedStaysValid | transaction.py:79-85 | moving entries between the inputs and the outputs of a valid transaction, keeping their order, keeps its payload; it stays valid while every key left among the inputs has signed |
| Transaction.InputMovedToOutputsStaysValid | transaction.py:79-85 | a signed one-to-one transfer whose input entry is moved to the front of its outputs has the same payload, so the old signature still verifies and the rewritten transaction is valid |
| Lines.Split | block.py:25 | splitting always yields at least one piece |
| Lines.SplitPiecesHaveNoNewline | block.py:25 | no piece contains a newline |
| Lines.JoinSplit | block.py:25 | joining the pieces with newlines gives back the data |
| Lines.SplitJoin | block.py:25 | splitting newline-free pieces that were joined with newlines gives back the pieces |
| Lines.SplitEndsEmpty | block.py:25 | data that is empty or ends in a newline splits into pieces the last of which is empty |
| Lines.NonEmpty | block.py:26 | the kept fragments are non-empty, come from the pieces, and are no more numerous |
| Lines.NonEmptyConcat | block.py:26 | dropping empty fragments distributes over concatenation |
| Lines.Fragments | block.py:23-27 | every fragment `is_valid` decodes is non-empty and holds no newline |
| Lines.FrameFragments | block.py:18-27 | framing non-empty, newline-free lines after data that is empty or ends in a newline adds exactly those lines, in order, to the fragments `is_valid` reads |
| Blockchain.Digest | blockchain.py:20-28 | a root's digest is that of its data alone; with a collision-free hash, a non-root's digest equals that of its data alone only when the previous hash is empty |
| Blockchain.DigestOfNonRoot | blockchain.py:25-26 | with a collision-free hash, feeding a previous hash after the data changes the digest unless that hash is empty |
| Blockchain.HashContext.Update | blockchain.py:21-26 | each update feeds its bytes after those fed before |
| Blockchain.HashContext.Finalize | blockchain.py:28 | the digest is that of everything fed, in order |
| Blockchain.ComputeDigest | blockchain.py:20-28 | the two sequential updates hash the data followed by the previous hash, or the data alone for a root |
| Blockchain.Block.constructor | blockchain.py:9-13 | the parent is stored, the parent's current hash is snapshotted when there is a parent, and a root has no previous hash |
| Blockchain.Block.Hash | blockchain.py:15-17 | reads only the block's own data and snapshot; with a collision-free hash, no other data gives the same hash with that snapshot |
| Blockchain.DataChangeChangesDigest | blockchain.py:15-17 | with a collision-free digest, changing a block's data changes its hash |
| Blockchain.DigestPinsData | blockchain.py:15-17 | with a collision-free digest, the data is the only data with that digest for a given previous hash |
| Blockchain.FreshChainsAreLinked | tests/test_blockchain.py:6-11 | in freshly built chains of two and three blocks, every snapshot equals its parent's hash |
| Blockchain.TamperingIsDetected | tests/test_blockchain.py:14-23 | replacing a block's data after its child was built makes the child's snapshot differ from the block's hash |
| Block.ParseAll | block.py:23-27 | decoding succeeds if and only if every fragment decodes; it then yields one transaction per fragment, in order; otherwise it names a fragment that does not decode |
| Block.Verdict | block.py:21-36 | fails if and only if some fragment does not decode; otherwise it is true if and only if every decoded transaction is valid and, for a non-root, the parent's current hash equals the snapshot |
| Block.TxBlock.constructor | block.py:6-7 | the wrapped block holds the data and is linked to the parent's block, with the parent's current hash as snapshot |
| Block.TxBlock.AddTx | block.py:18-19 | the data grows by the serialized transaction and a newline; the snapshot and the parent are constants |
| Block.TxBlock.Hash | block.py:38-40 | the digest of the wrapped block's data and snapshot; with a collision-free hash, no other data gives the same digest with the same snapshot |
| Block.TxBlock.PreviousBlock | block.py:42-44 | in a linked block, there is a parent exactly when there is a snapshot, and the parent wraps the wrapped block's parent |
| Block.TxBlock.PreviousHash | block.py:46-48 | in a linked block, there is a snapshot exactly when there is a parent |
| Block.TxBlock.IsValid | block.py:21-36 | reads only the data, the snapshot and the parent's current hash; a valid non-root has a parent whose hash equals the snapshot |
| Block.AppendedAllFrames | block.py:18-19 | a series of `add_tx` calls frames the serialized transactions after the data |
| Block.ParseDumps | block.py:23-27 | under `RoundTrips`, decoding the serialized transactions gives them back |
| Block.FramingRoundTrip | block.py:18-27 | after a series of `add_tx` calls, the fragments are the earlier ones followed by the serialized transactions, in order |
| Block.BlockDecodes | block.py:18-27 | a block built empty decodes to exactly the transactions added to it, in order |
| Block.InvalidTxInvalidatesBlock | block.py:28-29 | one invalid transaction makes the block invalid, whatever its links |
| Block.RootValidIff | block.py:31-36 | a root is valid if and only if all its transactions are, so an empty root is valid |
| Block.NonRootValidIff | block.py:31-36 | a non-root is valid if and only if all its transactions are valid and its parent's current hash equals its snapshot |
| Block.LinkMismatchInvalid | block.py:32-34 | a non-root whose parent's hash differs from its snapshot is never valid |
| Block.ParentAppendInvalidatesChild | tests/test_block.py:189-192 | with a collision-free digest, adding a transaction to the parent after the child was built makes the child invalid |
| Block.RootStaysValid | tests/test_block.py:189-193 | a valid root stays valid when a valid transaction is added to it |
| Scenarios.OneToOne | tests/test_transaction.py:7-17 | a transfer of `1` for `1` signed by its payer is valid |
| Scenarios.Tampering | tests/test_transaction.py:20-34 | redirecting the output entry's `pub_key` after signing is caught |
| Scenarios.RedirectedTransferInvalid | tests/test_transaction.py:20-34 | a signed transfer whose output entry is rewritten to name another key is invalid, whatever the amounts |
| Scenarios.NegativeInputAmount | tests/test_transaction.py:37-47 | an input amount of `-1` is rejected |
| Scenarios.NegativeOutputAmount | tests/test_transaction.py:50-60 | an output amount of `-0.1` is rejected |
| Scenarios.MissingSignature | tests/test_transaction.py:63-74 | a second input whose owner never signs is rejected |
| Scenarios.WrongSignature | tests/test_transaction.py:77-88 | a transfer signed by someone other than the payer is rejected |
| Scenarios.UnsignedEscrow | tests/test_transaction.py:106-118 | a transfer whose required co-signer never signs is rejected |
| Scenarios.EscrowWithoutCosignerInvalid | tests/test_transaction.py:106-118 | a transfer requiring a co-signer other than the payer, signed by the payer only, is invalid, whatever the amounts |
| Scenarios.Serdes | tests/test_transaction.py:121-138 | a signed transfer read back from its JSON is still valid |
| Scenarios.SignedTransfer | tests/test_block.py:14-18 | the new transaction holds exactly the one-to-one transfer signed by its payer, and it is valid |
| Scenarios.SignedPayout | tests/test_block.py:46-49 | the new transaction holds exactly the reward payout with no inputs, signed by a third party, and it is valid |
| Scenarios.CosignedTransfer | tests/test_block.py:137-143 | the new transaction holds exactly the transfer signed by its payer and then by its required co-signer, and it is valid |
| Scenarios.RootOfTwo | tests/test_block.py:13-26 | a new root to which two transactions are added holds exactly their two serializations, each followed by a newline |
| Scenarios.ChildOfTwo | tests/test_block.py:129-144 | a new child of the root holds exactly its two transactions' serializations, and its snapshot is the root's hash at that moment |
| Scenarios.TwoValidRootData | block.py:21-36 | the data of a root holding two valid transactions passes `is_valid` |
| Scenarios.TwoValidChildData | block.py:21-36 | the data of a child holding two valid transactions passes `is_valid` while the parent's hash equals the snapshot |
| Scenarios.RootOfTwoValid | tests/test_block.py:13-28 | a root holding any two valid transactions is valid |
| Scenarios.SingleBlock | tests/test_block.py:8-28 | a root holding two transfers of `1`, each signed by its payer, is valid |
| Scenarios.Mining | tests/test_block.py:31-52 | a root holding a transfer of `1.1` for `1` and a reward payout of `25.1` with no inputs is valid |
| Scenarios.RootAndChildValid | tests/test_block.py:113-147 | a root and its child, each holding two valid transactions, are both valid |
| Scenarios.MultipleBlocks | tests/test_block.py:107-147 | the child, holding a transfer and a co-signed transfer, and its root are both valid |
| Scenarios.ParentTamperingDetected | tests/test_block.py:156-193 | adding a valid transaction to the root through the child's parent reference makes the child's `is_valid` return false, without a decoding failure, and leaves the root valid |
| Scenarios.BlockTampering | tests/test_block.py:150-193 | the same for the test's own four transactions: the child's `is_valid` returns false without raising, and the root stays valid |
| Witness.WitnessSchemeSound | sign.py:15-39 | some signature scheme is `Sound`: a signature verifies only for the message it was made over and the signer's public key |
| Witness.WitnessCodecFaithful | transaction.py:37-53 | some codec has an injective payload encoding, writes each transaction as one non-empty line, and reads back what it wrote |
| Witness.HypothesesSatisfiable | blockchain.py:20-28 | a collision-free hash for `_hash` exists together with a sound scheme for the signing of sign.py:15-39 and a codec meeting all three hypotheses for the JSON glue of transaction.py:37-53, so the lemmas that require them are not vacuous |

## Left out

- Key generation (`gen_keys`) and the internals of RSA-PSS and SHA-256 are left out. They enter only through the `Sound` and `CollisionFree` hypotheses. PSS randomness is an explicit `salt` parameter of `Tx.Sign`.
- Blockchain.Digest: digests are byte strings of any length. A fixed 32-byte length would contradict the collision-free hypothesis.
- Wire formats are opaque. This covers PEM/PKCS#1 key serialization (transaction.py:131-139), base64 of signatures (section 4 of RFC 4648), and JSON text.
  - Keys are their serialized strings.
  - `to_json`, `from_json` and the payload encoding are the functions of a `Codec`.
  - Transaction.Tx.FromJson reads fields only. It does not model what `json.loads` does to the types of fields other than amounts.
- Transaction.Validate: check 4 decodes each stored key with `_deserialize_public_key` and each signature with `b64decode` (transaction.py:124-125, 138-139). Either raises on text that is not PEM or not base64, which only a transaction read by `from_json` can hold. The model's `verify` is total on any key text and signature text, so `is_valid` returns a boolean where the source raises.
- Transaction.Validate: `all()` and `any()` stop at the first failing element. Only the result is modelled, not the order in which entries are examined.
- Amounts other than JSON numbers are left out. A `str`, `bool` or `None` amount, which `from_json` would accept, makes `< 0` raise or compare differently in Python.
- Lines.Split works on bytes. `bytes.decode()` is treated as the identity, so non-UTF-8 data, which makes the source raise, is not modelled.
- Block.TxBlock.IsValid returns `Failure` on a line that does not decode, where the source raises an exception.
- Lines.FrameFragments and Block.FramingRoundTrip require the data to be empty or to end in a newline. After `TxBlock(data)` with data that does not end in a newline, the first added transaction is glued onto the last line.
- Block.TxBlock: the wrapped block's parent is the parent's wrapped `Block`. In the source it is the parent `TxBlock`, whose `hash` and data are those of its wrapped block, so the hash compared and the data shared are the same.
- Block serialization (`TxBlock.to_json`/`from_json`, block.py:9-16) is left out. It calls `Block.to_json`/`Block.from_json`, which blockchain.py does not define, so `test_block_serdes` has no counterpart.
- Conservation of value is left out. The check that outputs do not exceed inputs plus the mining reward is commented out (transaction.py:109-117), so `test_output_exceeds_input` and `test_bad_block` expect behaviour the code does not have. The model follows the code: `OneToOneValid` holds for any non-negative amounts.
- The unused `_hash` field (blockchain.py:11), the `print` diagnostics, and the tests' file I/O are left out.
