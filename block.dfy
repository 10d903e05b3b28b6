/**
 * Blocks of transactions (block.py). A `TxBlock` wraps a hash-linked block whose data is
 * the block's transactions, one serialized transaction per line. It is valid when every
 * line decodes to a valid transaction and, unless it is a root, its parent's current hash
 * still equals the copy taken when it was built.
 */
module Block {
  import opened Wrappers
  import opened Crypto
  import opened Transaction
  import opened Lines
  import Blockchain

  /** A non-empty line of the data that `Tx.from_json` cannot read: the source raises. */
  datatype BlockError = MalformedTx(fragment: Bytes)

  /** `[Tx.from_json(f) for f in fragments]` */
  function ParseAll(codec: Codec, fragments: seq<Bytes>): (r: Result<seq<TxRecord>, BlockError>)
    ensures r.Success? <==> forall i :: 0 <= i < |fragments| ==> codec.loadTx(fragments[i]).Some?
    ensures r.Success? ==> |r.value| == |fragments|
    ensures r.Success? ==> forall i :: 0 <= i < |fragments| ==> codec.loadTx(fragments[i]) == Some(r.value[i])
    ensures r.Failure? ==> codec.loadTx(r.error.fragment).None? && r.error.fragment in fragments
  {
    if fragments == [] then Success([])
    else match codec.loadTx(fragments[0])
      case None => Failure(MalformedTx(fragments[0]))
      case Some(t) =>
        match ParseAll(codec, fragments[1..])
        case Failure(e) => Failure(e)
        case Success(ts) => Success([t] + ts)
  }

  /**
   * `is_valid`, on the block's data, its stored previous hash and the parent's current
   * hash: any invalid transaction fails it first, then a non-root whose parent's hash
   * differs from the stored one.
   */
  function Verdict(scheme: Scheme, codec: Codec, data: Bytes, previousHash: Option<Bytes>, parentHash: Option<Bytes>)
    : (r: Result<bool, BlockError>)
    ensures r.Failure? <==> exists i :: 0 <= i < |Fragments(data)| && codec.loadTx(Fragments(data)[i]).None?
    ensures r.Success? ==>
      (r.value <==>
        && (forall i :: 0 <= i < |Fragments(data)| ==> Validate(codec.loadTx(Fragments(data)[i]).value, scheme, codec))
        && (previousHash.Some? ==> parentHash == previousHash))
  {
    match ParseAll(codec, Fragments(data))
    case Failure(e) => Failure(e)
    case Success(txs) =>
      if exists i :: 0 <= i < |txs| && !Validate(txs[i], scheme, codec) then Success(false)
      else if previousHash.Some? && parentHash != previousHash then Success(false)
      else Success(true)
  }

  /** The data after `add_tx`: the serialized transaction and a newline are appended. */
  function Appended(codec: Codec, data: Bytes, t: TxRecord): Bytes
  {
    data + (codec.dumpTx(t) + [NL])
  }

  /** The data after `add_tx` was called on each transaction in turn. */
  function AppendedAll(codec: Codec, data: Bytes, ts: seq<TxRecord>): Bytes
  {
    if ts == [] then data
    else Appended(codec, AppendedAll(codec, data, ts[..|ts| - 1]), ts[|ts| - 1])
  }

  /** The serialized transactions. */
  function Dumps(codec: Codec, ts: seq<TxRecord>): (lines: seq<Bytes>)
    ensures |lines| == |ts|
  {
    seq(|ts|, i requires 0 <= i < |ts| => codec.dumpTx(ts[i]))
  }

  class TxBlock {
    const block: Blockchain.Block
    const previous: TxBlock?

    /**
     * The wrapped block is built on the parent's wrapped block and holds a previous hash
     * exactly when there is a parent.
     */
    ghost predicate Linked()
    {
      if previous == null then block.previousBlock == null && block.previousHash.None?
      else block.previousBlock == previous.block && block.previousHash.Some? && block.h == previous.block.h
    }

    /** `TxBlock(data, previous_block)` */
    constructor (data: Bytes, previous: TxBlock?, h: Hasher)
      requires previous != null ==> previous.block.h == h
      ensures this.previous == previous && block.data == data && block.h == h && fresh(block) && Linked()
      ensures previous != null ==> block.previousHash == Some(previous.Hash())
    {
      this.previous := previous;
      block := new Blockchain.Block(data, if previous == null then null else previous.block, h);
    }

    /** `add_tx`: appends one line to the data; the previous hash and the parent stay as they are. */
    method AddTx(tx: Tx, codec: Codec)
      modifies block
      ensures block.data == Appended(codec, old(block.data), tx.Record())
      ensures block.data == old(block.data) + tx.ToJson(codec) + [NL]
    {
      block.data := block.data + (tx.ToJson(codec) + [NL]);
    }

    /**
     * `hash`: the wrapped block's hash. Under a collision-free hash no other data gives
     * this digest with the same snapshot.
     */
    function Hash(): (d: Bytes)
      reads block
      ensures d == Blockchain.Digest(block.h, block.data, block.previousHash)
      ensures CollisionFree(block.h) ==>
        forall other: Bytes :: other != block.data ==> Blockchain.Digest(block.h, other, block.previousHash) != d
    {
      block.Hash()
    }

    /** `previous_block` */
    function PreviousBlock(): (p: TxBlock?)
      ensures Linked() ==> (p == null <==> block.previousHash.None?)
      ensures Linked() && p != null ==> p.block == block.previousBlock
    {
      previous
    }

    /** `previous_hash` */
    function PreviousHash(): (ph: Option<Bytes>)
      ensures Linked() ==> (ph.Some? <==> previous != null)
    {
      block.previousHash
    }

    /** `is_valid`: reads the data, the stored previous hash and the parent's current hash; changes nothing. */
    function IsValid(scheme: Scheme, codec: Codec): (r: Result<bool, BlockError>)
      reads block, if previous == null then {} else {previous.block}
      ensures r == Success(true) && PreviousHash().Some? ==> previous != null && PreviousHash() == Some(previous.Hash())
    {
      Verdict(scheme, codec, block.data, PreviousHash(), if previous == null then None else Some(previous.Hash()))
    }
  }

  // ---------------------------------------------------------------------------
  // Properties

  /** Appending transactions one by one frames their serializations after the data. */
  lemma {:induction false} AppendedAllFrames(codec: Codec, data: Bytes, ts: seq<TxRecord>)
    ensures AppendedAll(codec, data, ts) == data + Frame(Dumps(codec, ts))
  {
    if ts != [] {
      var init := ts[..|ts| - 1];
      AppendedAllFrames(codec, data, init);
      assert Dumps(codec, ts)[..|ts| - 1] == Dumps(codec, init);
    }
  }

  /** One more `add_tx` appends one more line. */
  lemma AppendedAllSnoc(codec: Codec, data: Bytes, ts: seq<TxRecord>, t: TxRecord)
    ensures AppendedAll(codec, data, ts + [t]) == Appended(codec, AppendedAll(codec, data, ts), t)
  {
    assert (ts + [t])[..|ts|] == ts;
  }

  /** Decoding the serializations of transactions gives the transactions back. */
  lemma ParseDumps(codec: Codec, ts: seq<TxRecord>)
    requires RoundTrips(codec)
    ensures ParseAll(codec, Dumps(codec, ts)) == Success(ts)
  {
    var lines := Dumps(codec, ts);
    var r := ParseAll(codec, lines);
    assert forall i :: 0 <= i < |lines| ==> codec.loadTx(lines[i]) == Some(ts[i]);
    assert r.Success? && |r.value| == |ts|;
    forall i | 0 <= i < |ts|
      ensures r.value[i] == ts[i]
    {
      assert codec.loadTx(lines[i]) == Some(r.value[i]);
    }
    assert r.value == ts;
  }

  /**
   * After a series of `add_tx` calls on data that is empty or ends in a newline, the lines
   * `is_valid` reads are the lines it read before followed by the added transactions, in
   * order.
   */
  lemma FramingRoundTrip(codec: Codec, data: Bytes, ts: seq<TxRecord>)
    requires OneLine(codec)
    requires data == [] || data[|data| - 1] == NL
    ensures Fragments(AppendedAll(codec, data, ts)) == Fragments(data) + Dumps(codec, ts)
  {
    AppendedAllFrames(codec, data, ts);
    FrameFragments(data, Dumps(codec, ts));
  }

  /** A block built empty and then given transactions decodes back to exactly those transactions. */
  lemma BlockDecodes(codec: Codec, ts: seq<TxRecord>)
    requires OneLine(codec) && RoundTrips(codec)
    ensures ParseAll(codec, Fragments(AppendedAll(codec, [], ts))) == Success(ts)
  {
    FramingRoundTrip(codec, [], ts);
    assert Fragments([]) == [];
    assert [] + Dumps(codec, ts) == Dumps(codec, ts);
    ParseDumps(codec, ts);
  }

  /** One invalid transaction makes the block invalid, whatever its links. */
  lemma InvalidTxInvalidatesBlock(scheme: Scheme, codec: Codec, ts: seq<TxRecord>, i: nat,
                                  previousHash: Option<Bytes>, parentHash: Option<Bytes>)
    requires OneLine(codec) && RoundTrips(codec) && i < |ts| && !Validate(ts[i], scheme, codec)
    ensures Verdict(scheme, codec, AppendedAll(codec, [], ts), previousHash, parentHash) == Success(false)
  {
    BlockDecodes(codec, ts);
  }

  /** A root block is valid exactly when all its transactions are; an empty root is valid. */
  lemma RootValidIff(scheme: Scheme, codec: Codec, ts: seq<TxRecord>, parentHash: Option<Bytes>)
    requires OneLine(codec) && RoundTrips(codec)
    ensures Verdict(scheme, codec, AppendedAll(codec, [], ts), None, parentHash) ==
      Success(forall i :: 0 <= i < |ts| ==> Validate(ts[i], scheme, codec))
  {
    BlockDecodes(codec, ts);
  }

  /**
   * A non-root block is valid exactly when all its transactions are and its parent's
   * current hash equals its stored previous hash.
   */
  lemma NonRootValidIff(scheme: Scheme, codec: Codec, ts: seq<TxRecord>, snapshot: Bytes, parentHash: Bytes)
    requires OneLine(codec) && RoundTrips(codec)
    ensures Verdict(scheme, codec, AppendedAll(codec, [], ts), Some(snapshot), Some(parentHash)) ==
      Success((forall i :: 0 <= i < |ts| ==> Validate(ts[i], scheme, codec)) && parentHash == snapshot)
  {
    BlockDecodes(codec, ts);
  }

  /** A non-root block whose parent's hash differs from its stored copy is never valid, whatever its data. */
  lemma LinkMismatchInvalid(scheme: Scheme, codec: Codec, data: Bytes, snapshot: Bytes, parentHash: Option<Bytes>)
    requires parentHash != Some(snapshot)
    ensures Verdict(scheme, codec, data, Some(snapshot), parentHash) != Success(true)
  {
  }

  /**
   * Adding a transaction to a parent after its child was built changes the parent's hash,
   * so the child stops being valid; a collision-free digest is assumed.
   */
  lemma ParentAppendInvalidatesChild(h: Hasher, scheme: Scheme, codec: Codec, parentData: Bytes,
                                     parentPrevious: Option<Bytes>, t: TxRecord, childData: Bytes)
    requires CollisionFree(h)
    ensures var snapshot := Blockchain.Digest(h, parentData, parentPrevious);
      var parentNow := Blockchain.Digest(h, Appended(codec, parentData, t), parentPrevious);
      Verdict(scheme, codec, childData, Some(snapshot), Some(parentNow)) != Success(true)
  {
    var grown := Appended(codec, parentData, t);
    assert |grown| > |parentData|;
    Blockchain.DataChangeChangesDigest(h, parentData, grown, parentPrevious);
  }

  /** A valid root stays valid when a valid transaction is added to it. */
  lemma RootStaysValid(scheme: Scheme, codec: Codec, ts: seq<TxRecord>, t: TxRecord, parentHash: Option<Bytes>)
    requires OneLine(codec) && RoundTrips(codec)
    requires Verdict(scheme, codec, AppendedAll(codec, [], ts), None, parentHash) == Success(true)
    requires Validate(t, scheme, codec)
    ensures Verdict(scheme, codec, Appended(codec, AppendedAll(codec, [], ts), t), None, parentHash) == Success(true)
  {
    RootValidIff(scheme, codec, ts, parentHash);
    AppendedAllSnoc(codec, [], ts, t);
    RootValidIff(scheme, codec, ts + [t], parentHash);
    AllValidSnoc(scheme, codec, ts, t);
  }

  lemma AllValidSnoc(scheme: Scheme, codec: Codec, ts: seq<TxRecord>, t: TxRecord)
    requires forall i :: 0 <= i < |ts| ==> Validate(ts[i], scheme, codec)
    requires Validate(t, scheme, codec)
    ensures forall i :: 0 <= i < |ts + [t]| ==> Validate((ts + [t])[i], scheme, codec)
  {
    forall i | 0 <= i < |ts + [t]|
      ensures Validate((ts + [t])[i], scheme, codec)
    {
      if i < |ts| {
        assert (ts + [t])[i] == ts[i];
      }
    }
  }
}
