/**
 * The scenarios of the ledger's test suite (tests/test_transaction.py, tests/test_block.py),
 * replayed on the classes: keys come from private keys the caller supplies, salts stand
 * for the randomness of each signature, and amounts are the tests' own, `int` or `float`
 * as the tests write them.
 */
module Scenarios {
  import opened Wrappers
  import opened Crypto
  import opened Dicts
  import opened Transaction
  import opened Block

  // The amounts the tests write, as `json` sees them.
  const One: Amount := Int(1)
  const MinusOne: Amount := Int(-1)
  const OneTenth: Amount := Float(false, 0, 1, -1)
  const MinusOneTenth: Amount := Float(true, 0, 1, -1)
  const OnePointOne: Amount := Float(false, 1, 1, -1)
  const Reward: Amount := Float(false, 25, 1, -1)

  /** test_one_to_one: a transfer signed by its payer is valid. */
  method OneToOne(scheme: Scheme, codec: Codec, k1: PrivateKey, pub2: PublicKey, salt: Bytes)
    returns (valid: bool)
    requires Sound(scheme)
    ensures valid
  {
    var pub1 := scheme.publicOf(k1);
    var tx := new Tx([(pub1, One)], [(pub2, One)], []);
    tx.Sign(scheme, codec, k1, salt);
    SignedByOne(Build([(pub1, One)], [(pub2, One)], []), scheme, codec, k1, salt);
    OneToOneValid(scheme, codec, k1, pub2, One, One, salt);
    valid := tx.IsValid(scheme, codec);
  }

  /** test_tampering: redirecting the output to another key after signing is caught. */
  method Tampering(scheme: Scheme, codec: Codec, k1: PrivateKey, pub2: PublicKey, pub3: PublicKey, salt: Bytes)
    returns (valid: bool)
    requires Sound(scheme) && PayloadInjective(codec) && pub3 != pub2
    ensures !valid
  {
    var pub1 := scheme.publicOf(k1);
    var tx := new Tx([(pub1, One)], [(pub2, One)], []);
    tx.Sign(scheme, codec, k1, salt);
    tx.outputs := Put(tx.outputs, pub2, Entry(pub3, One));
    RedirectedTransferInvalid(scheme, codec, k1, pub2, pub3, One, One, salt);
    valid := tx.IsValid(scheme, codec);
  }

  /** The records of test_tampering: a signed transfer whose output is then rewritten to pay `c`. */
  lemma RedirectedTransferInvalid(scheme: Scheme, codec: Codec, k: PrivateKey, b: PublicKey, c: PublicKey,
                                  m: Amount, n: Amount, salt: Bytes)
    requires Sound(scheme) && PayloadInjective(codec) && c != b
    ensures var signed := Signed(Build([(scheme.publicOf(k), m)], [(b, n)], []), scheme, codec, k, salt);
      !Validate(signed.(outputs := Put(signed.outputs, b, Entry(c, n))), scheme, codec)
  {
    TransferShape(scheme.publicOf(k), b, m, n, []);
    OutputEditBreaksSignature(Build([(scheme.publicOf(k), m)], [(b, n)], []), scheme, codec, k, salt, b, Entry(c, n));
  }

  /** test_negative_input_amount */
  method NegativeInputAmount(scheme: Scheme, codec: Codec, k1: PrivateKey, pub2: PublicKey, salt: Bytes)
    returns (valid: bool)
    ensures !valid
  {
    var pub1 := scheme.publicOf(k1);
    var tx := new Tx([(pub1, MinusOne)], [(pub2, One)], []);
    tx.Sign(scheme, codec, k1, salt);
    SignedByOne(Build([(pub1, MinusOne)], [(pub2, One)], []), scheme, codec, k1, salt);
    NegativeTransferInvalid(scheme, codec, k1, pub2, MinusOne, One, salt);
    valid := tx.IsValid(scheme, codec);
  }

  /** test_negative_output_amount */
  method NegativeOutputAmount(scheme: Scheme, codec: Codec, k1: PrivateKey, pub2: PublicKey, salt: Bytes)
    returns (valid: bool)
    ensures !valid
  {
    var pub1 := scheme.publicOf(k1);
    var tx := new Tx([(pub1, OneTenth)], [(pub2, MinusOneTenth)], []);
    tx.Sign(scheme, codec, k1, salt);
    SignedByOne(Build([(pub1, OneTenth)], [(pub2, MinusOneTenth)], []), scheme, codec, k1, salt);
    NegativeTransferInvalid(scheme, codec, k1, pub2, OneTenth, MinusOneTenth, salt);
    valid := tx.IsValid(scheme, codec);
  }

  /** test_missing_signature: the second input's owner never signs. */
  method MissingSignature(scheme: Scheme, codec: Codec, k1: PrivateKey, pub2: PublicKey, pub3: PublicKey, salt: Bytes)
    returns (valid: bool)
    requires pub2 != scheme.publicOf(k1)
    ensures !valid
  {
    var pub1 := scheme.publicOf(k1);
    var tx := new Tx([(pub1, One), (pub2, One)], [(pub3, One)], []);
    tx.Sign(scheme, codec, k1, salt);
    TwoInputShape(pub1, pub2, pub3, One, One, One);
    UnsignedInputInvalid(tx.Record(), scheme, codec, pub2);
    valid := tx.IsValid(scheme, codec);
  }

  /** test_wrong_signature: someone other than the payer signs. */
  method WrongSignature(scheme: Scheme, codec: Codec, pub1: PublicKey, pub2: PublicKey, k3: PrivateKey, salt: Bytes)
    returns (valid: bool)
    requires scheme.publicOf(k3) != pub1
    ensures !valid
  {
    var tx := new Tx([(pub1, One)], [(pub2, One)], []);
    tx.Sign(scheme, codec, k3, salt);
    TransferShape(pub1, pub2, One, One, []);
    UnsignedInputInvalid(tx.Record(), scheme, codec, pub1);
    valid := tx.IsValid(scheme, codec);
  }

  /** test_unsigned_escrow: the required co-signer never signs. */
  method UnsignedEscrow(scheme: Scheme, codec: Codec, k1: PrivateKey, pub2: PublicKey, pub3: PublicKey, salt: Bytes)
    returns (valid: bool)
    requires pub3 != scheme.publicOf(k1)
    ensures !valid
  {
    var pub1 := scheme.publicOf(k1);
    var tx := new Tx([(pub1, One)], [(pub2, One)], [pub3]);
    tx.Sign(scheme, codec, k1, salt);
    EscrowWithoutCosignerInvalid(scheme, codec, k1, pub2, pub3, One, One, salt);
    valid := tx.IsValid(scheme, codec);
  }

  /** The record of test_unsigned_escrow: a transfer requiring `c`'s signature, signed by the payer only. */
  lemma EscrowWithoutCosignerInvalid(scheme: Scheme, codec: Codec, k: PrivateKey, b: PublicKey, c: PublicKey,
                                     m: Amount, n: Amount, salt: Bytes)
    requires c != scheme.publicOf(k)
    ensures !Validate(Signed(Build([(scheme.publicOf(k), m)], [(b, n)], [c]), scheme, codec, k, salt), scheme, codec)
  {
    BuildRequiredUnsigned([(scheme.publicOf(k), m)], [(b, n)], [c]);
    var t := Build([(scheme.publicOf(k), m)], [(b, n)], [c]);
    UnsignedRequiredInvalid(Signed(t, scheme, codec, k, salt), scheme, codec, c);
  }

  /** test_serdes: a signed transfer read back from its JSON is still valid. */
  method Serdes(scheme: Scheme, codec: Codec, k1: PrivateKey, pub2: PublicKey, salt: Bytes)
    returns (valid: bool)
    requires Sound(scheme) && RoundTrips(codec)
    ensures valid
  {
    var pub1 := scheme.publicOf(k1);
    var tx := new Tx([(pub1, One)], [(pub2, One)], []);
    tx.Sign(scheme, codec, k1, salt);
    SignedByOne(Build([(pub1, One)], [(pub2, One)], []), scheme, codec, k1, salt);
    OneToOneValid(scheme, codec, k1, pub2, One, One, salt);
    var json := tx.ToJson(codec);
    var read := Tx.FromJson(codec, json);
    valid := read.Some? && read.value.IsValid(scheme, codec);
  }

  /** The record of `Tx(inputs=[(payer, sent)], outputs=[(payee, received)])` signed by the payer. */
  function TransferRecord(scheme: Scheme, codec: Codec, k: PrivateKey, payee: PublicKey, sent: Amount, received: Amount,
                          salt: Bytes): TxRecord
  {
    SignedBy(Build([(scheme.publicOf(k), sent)], [(payee, received)], []), scheme, codec, [(k, salt)])
  }

  /** The record of `Tx(outputs=[(payee, amount)])` signed by `k`. */
  function PayoutRecord(scheme: Scheme, codec: Codec, k: PrivateKey, payee: PublicKey, amount: Amount, salt: Bytes): TxRecord
  {
    SignedBy(Build([], [(payee, amount)], []), scheme, codec, [(k, salt)])
  }

  /** The record of `Tx(inputs=[(payer, 1)], outputs=[(payee, 1)], required=[cosigner])` signed by both. */
  function CosignedRecord(scheme: Scheme, codec: Codec, k1: PrivateKey, k2: PrivateKey, payee: PublicKey,
                          s1: Bytes, s2: Bytes): TxRecord
  {
    SignedBy(Build([(scheme.publicOf(k1), One)], [(payee, One)], [scheme.publicOf(k2)]), scheme, codec, [(k1, s1), (k2, s2)])
  }

  /** A one-to-one transfer signed by its payer, as the block tests build it. */
  method SignedTransfer(scheme: Scheme, codec: Codec, k: PrivateKey, payee: PublicKey, sent: Amount, received: Amount,
                        salt: Bytes)
    returns (tx: Tx)
    requires Sound(scheme) && !Negative(sent) && !Negative(received)
    ensures fresh(tx)
    ensures tx.Record() == TransferRecord(scheme, codec, k, payee, sent, received, salt)
    ensures Validate(tx.Record(), scheme, codec)
  {
    var payer := scheme.publicOf(k);
    tx := new Tx([(payer, sent)], [(payee, received)], []);
    tx.Sign(scheme, codec, k, salt);
    SignedByOne(Build([(payer, sent)], [(payee, received)], []), scheme, codec, k, salt);
    OneToOneValid(scheme, codec, k, payee, sent, received, salt);
  }

  /** A payout with no inputs, signed by whoever pays it out, as test_mining builds it. */
  method SignedPayout(scheme: Scheme, codec: Codec, k: PrivateKey, payee: PublicKey, amount: Amount, salt: Bytes)
    returns (tx: Tx)
    requires Sound(scheme) && !Negative(amount)
    ensures fresh(tx)
    ensures tx.Record() == PayoutRecord(scheme, codec, k, payee, amount, salt)
    ensures Validate(tx.Record(), scheme, codec)
  {
    tx := new Tx([], [(payee, amount)], []);
    tx.Sign(scheme, codec, k, salt);
    SignedByOne(Build([], [(payee, amount)], []), scheme, codec, k, salt);
    PayoutValid(scheme, codec, k, payee, amount, salt);
  }

  /** A transfer that requires a co-signer, signed by its payer and then by the co-signer. */
  method CosignedTransfer(scheme: Scheme, codec: Codec, k1: PrivateKey, k2: PrivateKey, payee: PublicKey,
                          s1: Bytes, s2: Bytes)
    returns (tx: Tx)
    requires Sound(scheme)
    ensures fresh(tx)
    ensures tx.Record() == CosignedRecord(scheme, codec, k1, k2, payee, s1, s2)
    ensures Validate(tx.Record(), scheme, codec)
  {
    var pub1 := scheme.publicOf(k1);
    var pub2 := scheme.publicOf(k2);
    tx := new Tx([(pub1, One)], [(payee, One)], [pub2]);
    tx.Sign(scheme, codec, k1, s1);
    tx.Sign(scheme, codec, k2, s2);
    SignedByTwo(Build([(pub1, One)], [(payee, One)], [pub2]), scheme, codec, k1, s1, k2, s2);
    CosignedValid(scheme, codec, k1, k2, payee, One, One, s1, s2);
  }

  /** Two `add_tx` calls on empty data. */
  lemma AppendedAllTwo(codec: Codec, t1: TxRecord, t2: TxRecord)
    ensures AppendedAll(codec, [], [t1, t2]) == Appended(codec, Appended(codec, [], t1), t2)
  {
    AppendedAllSnoc(codec, [], [], t1);
    AppendedAllSnoc(codec, [], [t1], t2);
    assert [t1] + [t2] == [t1, t2];
  }

  /** A root block to which `tx1` and then `tx2` are added. */
  method RootOfTwo(h: Hasher, codec: Codec, tx1: Tx, tx2: Tx) returns (root: TxBlock)
    ensures fresh(root) && fresh(root.block) && root.previous == null && root.block.h == h && root.Linked()
    ensures root.block.data == AppendedAll(codec, [], [tx1.Record(), tx2.Record()])
  {
    root := new TxBlock([], null, h);
    root.AddTx(tx1, codec);
    root.AddTx(tx2, codec);
    AppendedAllTwo(codec, tx1.Record(), tx2.Record());
  }

  /** A child of `root` to which `tx1` and then `tx2` are added. */
  method ChildOfTwo(h: Hasher, codec: Codec, root: TxBlock, tx1: Tx, tx2: Tx) returns (child: TxBlock)
    requires root.block.h == h
    ensures fresh(child) && fresh(child.block) && child.previous == root && child.block.h == h && child.Linked()
    ensures child.block.previousHash == Some(root.Hash())
    ensures child.block.data == AppendedAll(codec, [], [tx1.Record(), tx2.Record()])
  {
    child := new TxBlock([], root, h);
    child.AddTx(tx1, codec);
    child.AddTx(tx2, codec);
    AppendedAllTwo(codec, tx1.Record(), tx2.Record());
  }

  /** The data of a root holding two valid transactions passes `is_valid`. */
  lemma TwoValidRootData(scheme: Scheme, codec: Codec, t1: TxRecord, t2: TxRecord)
    requires OneLine(codec) && RoundTrips(codec)
    requires Validate(t1, scheme, codec) && Validate(t2, scheme, codec)
    ensures Verdict(scheme, codec, AppendedAll(codec, [], [t1, t2]), None, None) == Success(true)
  {
    RootValidIff(scheme, codec, [t1, t2], None);
  }

  /** The data of a child holding two valid transactions, whose parent still has the stored hash, passes `is_valid`. */
  lemma TwoValidChildData(scheme: Scheme, codec: Codec, t1: TxRecord, t2: TxRecord, snapshot: Bytes)
    requires OneLine(codec) && RoundTrips(codec)
    requires Validate(t1, scheme, codec) && Validate(t2, scheme, codec)
    ensures Verdict(scheme, codec, AppendedAll(codec, [], [t1, t2]), Some(snapshot), Some(snapshot)) == Success(true)
  {
    NonRootValidIff(scheme, codec, [t1, t2], snapshot, snapshot);
  }

  /** A root holding two valid transactions is valid. */
  method RootOfTwoValid(h: Hasher, scheme: Scheme, codec: Codec, tx1: Tx, tx2: Tx)
    returns (verdict: Result<bool, BlockError>)
    requires OneLine(codec) && RoundTrips(codec)
    requires Validate(tx1.Record(), scheme, codec) && Validate(tx2.Record(), scheme, codec)
    ensures verdict == Success(true)
  {
    var root := RootOfTwo(h, codec, tx1, tx2);
    TwoValidRootData(scheme, codec, tx1.Record(), tx2.Record());
    verdict := root.IsValid(scheme, codec);
  }

  /** test_single_block: a root holding two transfers, each signed by its payer, is valid. */
  method SingleBlock(h: Hasher, scheme: Scheme, codec: Codec, k1: PrivateKey, k3: PrivateKey, pub2: PublicKey,
                     s1: Bytes, s3: Bytes)
    returns (verdict: Result<bool, BlockError>)
    requires Sound(scheme) && OneLine(codec) && RoundTrips(codec)
    ensures verdict == Success(true)
  {
    var tx := SignedTransfer(scheme, codec, k1, pub2, One, One, s1);
    var tx2 := SignedTransfer(scheme, codec, k3, scheme.publicOf(k1), One, One, s3);
    verdict := RootOfTwoValid(h, scheme, codec, tx, tx2);
  }

  /**
   * test_mining: a root holding a transfer of 1.1 for 1 and a reward payout of 25.1 with no
   * inputs, signed by a third party, is valid.
   */
  method Mining(h: Hasher, scheme: Scheme, codec: Codec, k1: PrivateKey, k3: PrivateKey, pub2: PublicKey,
                pub4: PublicKey, s1: Bytes, s3: Bytes)
    returns (verdict: Result<bool, BlockError>)
    requires Sound(scheme) && OneLine(codec) && RoundTrips(codec)
    ensures verdict == Success(true)
  {
    var tx := SignedTransfer(scheme, codec, k1, pub2, OnePointOne, One, s1);
    var reward := SignedPayout(scheme, codec, k3, pub4, Reward, s3);
    verdict := RootOfTwoValid(h, scheme, codec, tx, reward);
  }

  /** A root and a child holding two valid transactions each are both valid. */
  method RootAndChildValid(h: Hasher, scheme: Scheme, codec: Codec, tx1: Tx, tx2: Tx, tx3: Tx, tx4: Tx)
    returns (childVerdict: Result<bool, BlockError>, rootVerdict: Result<bool, BlockError>)
    requires OneLine(codec) && RoundTrips(codec)
    requires Validate(tx1.Record(), scheme, codec) && Validate(tx2.Record(), scheme, codec)
    requires Validate(tx3.Record(), scheme, codec) && Validate(tx4.Record(), scheme, codec)
    ensures childVerdict == Success(true) && rootVerdict == Success(true)
  {
    var root := RootOfTwo(h, codec, tx1, tx2);
    var child := ChildOfTwo(h, codec, root, tx3, tx4);
    TwoValidChildData(scheme, codec, tx3.Record(), tx4.Record(), root.Hash());
    childVerdict := child.IsValid(scheme, codec);
    TwoValidRootData(scheme, codec, tx1.Record(), tx2.Record());
    rootVerdict := root.IsValid(scheme, codec);
  }

  /**
   * Adding the child's second transaction to the root through the child's parent reference
   * makes the child's verdict false, not a decoding failure, and leaves the root valid.
   */
  method ParentTamperingDetected(h: Hasher, scheme: Scheme, codec: Codec, tx1: Tx, tx2: Tx, tx3: Tx, tx4: Tx)
    returns (childVerdict: Result<bool, BlockError>, rootVerdict: Result<bool, BlockError>)
    requires OneLine(codec) && RoundTrips(codec) && CollisionFree(h)
    requires Validate(tx1.Record(), scheme, codec) && Validate(tx2.Record(), scheme, codec)
    requires Validate(tx4.Record(), scheme, codec)
    ensures childVerdict == Success(false) && rootVerdict == Success(true)
  {
    var root := RootOfTwo(h, codec, tx1, tx2);
    var child := ChildOfTwo(h, codec, root, tx3, tx4);
    ghost var before := root.block.data;
    TwoValidRootData(scheme, codec, tx1.Record(), tx2.Record());
    child.PreviousBlock().AddTx(tx4, codec);
    ParentAppendInvalidatesChild(h, scheme, codec, before, None, tx4.Record(), child.block.data);
    BlockDecodes(codec, [tx3.Record(), tx4.Record()]);
    childVerdict := child.IsValid(scheme, codec);
    RootStaysValid(scheme, codec, [tx1.Record(), tx2.Record()], tx4.Record(), None);
    rootVerdict := root.IsValid(scheme, codec);
  }

  /** test_multiple_blocks: the child, holding a transfer and a co-signed transfer, and its root are both valid. */
  method MultipleBlocks(h: Hasher, scheme: Scheme, codec: Codec, k1: PrivateKey, k2: PrivateKey, k3: PrivateKey,
                        s1: Bytes, s2: Bytes, s3: Bytes)
    returns (childVerdict: Result<bool, BlockError>, rootVerdict: Result<bool, BlockError>)
    requires Sound(scheme) && OneLine(codec) && RoundTrips(codec)
    ensures childVerdict == Success(true) && rootVerdict == Success(true)
  {
    var tx := SignedTransfer(scheme, codec, k1, scheme.publicOf(k2), One, One, s1);
    var tx2 := SignedTransfer(scheme, codec, k3, scheme.publicOf(k1), One, One, s3);
    var tx3 := SignedTransfer(scheme, codec, k2, scheme.publicOf(k3), One, One, s2);
    var tx4 := CosignedTransfer(scheme, codec, k1, k2, scheme.publicOf(k3), s1, s2);
    childVerdict, rootVerdict := RootAndChildValid(h, scheme, codec, tx, tx2, tx3, tx4);
  }

  /**
   * test_block_tampering: adding the co-signed transfer to the root as well, through the
   * child's parent reference, makes the child invalid and leaves the root valid.
   */
  method BlockTampering(h: Hasher, scheme: Scheme, codec: Codec, k1: PrivateKey, k2: PrivateKey, k3: PrivateKey,
                        s1: Bytes, s2: Bytes, s3: Bytes)
    returns (childVerdict: Result<bool, BlockError>, rootVerdict: Result<bool, BlockError>)
    requires Sound(scheme) && OneLine(codec) && RoundTrips(codec) && CollisionFree(h)
    ensures childVerdict == Success(false) && rootVerdict == Success(true)
  {
    var tx := SignedTransfer(scheme, codec, k1, scheme.publicOf(k2), One, One, s1);
    var tx2 := SignedTransfer(scheme, codec, k3, scheme.publicOf(k1), One, One, s3);
    var tx3 := SignedTransfer(scheme, codec, k2, scheme.publicOf(k3), One, One, s2);
    var tx4 := CosignedTransfer(scheme, codec, k1, k2, scheme.publicOf(k3), s1, s2);
    childVerdict, rootVerdict := ParentTamperingDetected(h, scheme, codec, tx, tx2, tx3, tx4);
  }
}
