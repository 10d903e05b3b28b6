/**
 * Hash-linked blocks (blockchain.py). A block holds a data buffer that callers may
 * reassign, the block it was built on, and a copy of that block's hash taken when it was
 * built. Its own hash is recomputed from its data and that copy whenever it is asked for.
 */
module Blockchain {
  import opened Wrappers
  import opened Crypto

  /**
   * `_hash(data, previous_hash)`: the digest of the data followed by the previous hash,
   * or of the data alone for a root.
   */
  function Digest(h: Hasher, data: Bytes, previousHash: Option<Bytes>): (d: Bytes)
    ensures previousHash.None? ==> d == h(data)
    ensures CollisionFree(h) && previousHash.Some? ==> (d == h(data) <==> previousHash.value == [])
  {
    DigestOfNonRoot(h, data, previousHash);
    match previousHash
    case None => h(data)
    case Some(p) => h(data + p)
  }

  /** A non-empty previous hash always takes part in the digest. */
  lemma DigestOfNonRoot(h: Hasher, data: Bytes, previousHash: Option<Bytes>)
    ensures CollisionFree(h) && previousHash.Some? ==>
      (h(data + previousHash.value) == h(data) <==> previousHash.value == [])
  {
    if CollisionFree(h) && previousHash.Some? {
      var p := previousHash.value;
      if h(data + p) == h(data) {
        assert |data + p| == |data|;
      }
      if p == [] {
        assert data + p == data;
      }
    }
  }

  /** A running `hashes.Hash(hashes.SHA256())`: the bytes fed to it so far. */
  class HashContext {
    const h: Hasher
    var fed: Bytes

    constructor (h: Hasher)
      ensures this.h == h && fed == []
    {
      this.h := h;
      fed := [];
    }

    /** `update`: more input, after what was fed before. */
    method Update(bytes: Bytes)
      modifies this
      ensures fed == old(fed) + bytes
    {
      fed := fed + bytes;
    }

    /** `finalize`: the digest of everything fed, in order. */
    method Finalize() returns (digest: Bytes)
      ensures digest == h(fed)
    {
      digest := h(fed);
    }
  }

  /**
   * `_hash`, step by step: the data is fed, then the previous hash when there is one.
   * Two updates hash the concatenation, so the result is `Digest`.
   */
  method ComputeDigest(h: Hasher, data: Bytes, previousHash: Option<Bytes>) returns (digest: Bytes)
    ensures digest == Digest(h, data, previousHash)
  {
    var context := new HashContext(h);
    context.Update(data);
    if previousHash.Some? {
      context.Update(previousHash.value);
    }
    digest := context.Finalize();
    assert [] + data == data;
  }

  class Block {
    /** The digest every block of a chain uses: SHA-256 in the source. */
    const h: Hasher
    var data: Bytes
    const previousBlock: Block?
    const previousHash: Option<Bytes>

    /**
     * `Block(data, previous_block)`: the parent's hash is copied now and never refreshed;
     * a block without a parent is a root and has no previous hash.
     */
    constructor (data: Bytes, previousBlock: Block?, h: Hasher)
      requires previousBlock != null ==> previousBlock.h == h
      ensures this.h == h && this.data == data && this.previousBlock == previousBlock
      ensures previousBlock == null ==> previousHash == None
      ensures previousBlock != null ==> previousHash == Some(previousBlock.Hash())
    {
      this.h := h;
      this.data := data;
      this.previousBlock := previousBlock;
      this.previousHash := if previousBlock == null then None else Some(previousBlock.Hash());
    }

    /** `hash`: reads the data and the stored copy only, never the parent or its ancestors. */
    function Hash(): (d: Bytes)
      reads this
      ensures CollisionFree(h) ==> forall other: Bytes :: other != data ==> Digest(h, other, previousHash) != d
    {
      DigestPinsData(h, data, previousHash);
      Digest(h, data, previousHash)
    }
  }

  /** A sequence is determined by what it is a prefix of, given the common suffix. */
  lemma SuffixCancels(a: Bytes, b: Bytes, p: Bytes)
    requires a + p == b + p
    ensures a == b
  {
    assert |a| == |b|;
    assert a == (a + p)[..|a|];
    assert b == (b + p)[..|b|];
  }

  /**
   * With a collision-free digest, blocks that share their previous hash but differ in
   * their data have different hashes.
   */
  lemma DataChangeChangesDigest(h: Hasher, d1: Bytes, d2: Bytes, previousHash: Option<Bytes>)
    requires CollisionFree(h) && d1 != d2
    ensures Digest(h, d1, previousHash) != Digest(h, d2, previousHash)
  {
    if previousHash.Some? {
      var p := previousHash.value;
      if h(d1 + p) == h(d2 + p) {
        SuffixCancels(d1, d2, p);
      }
    }
  }

  /** With a collision-free digest, the data is the only data with that digest for a given previous hash. */
  lemma DigestPinsData(h: Hasher, data: Bytes, previousHash: Option<Bytes>)
    ensures CollisionFree(h) ==>
      forall other: Bytes :: other != data ==> Digest(h, other, previousHash) != Digest(h, data, previousHash)
  {
    if CollisionFree(h) {
      forall other: Bytes | other != data
        ensures Digest(h, other, previousHash) != Digest(h, data, previousHash)
      {
        DataChangeChangesDigest(h, other, data, previousHash);
      }
    }
  }

  /**
   * test_block_hashing: right after construction, the link of a two-block chain and both
   * links of a three-block chain hold.
   */
  method FreshChainsAreLinked(h: Hasher, rootData: Bytes, childData: Bytes, grandchildData: Bytes)
    returns (childLinked: bool, grandchildLinked: bool, middleLinked: bool)
    ensures childLinked && grandchildLinked && middleLinked
  {
    var root := new Block(rootData, null, h);
    var child := new Block(childData, root, h);
    childLinked := Some(child.previousBlock.Hash()) == child.previousHash;

    var root2 := new Block(rootData, null, h);
    var middle := new Block(childData, root2, h);
    var grandchild := new Block(grandchildData, middle, h);
    grandchildLinked := Some(grandchild.previousBlock.Hash()) == grandchild.previousHash;
    middleLinked := Some(middle.previousBlock.Hash()) == middle.previousHash;
  }

  /**
   * test_block_tampering: replacing the middle block's data after its child was built
   * makes the child's stored previous hash differ from the middle block's hash.
   */
  method TamperingIsDetected(h: Hasher, rootData: Bytes, childData: Bytes, grandchildData: Bytes, tampered: Bytes)
    returns (mismatch: bool)
    requires CollisionFree(h) && tampered != childData
    ensures mismatch
  {
    var root := new Block(rootData, null, h);
    var child := new Block(childData, root, h);
    var grandchild := new Block(grandchildData, child, h);
    child.data := tampered;
    DataChangeChangesDigest(h, childData, tampered, child.previousHash);
    mismatch := Some(grandchild.previousBlock.Hash()) != grandchild.previousHash;
  }
}
