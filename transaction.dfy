/**
 * Transactions (transaction.py): inputs and outputs keyed by serialized public key,
 * co-signers that are required to sign, and signatures keyed by the signer's public key.
 *
 * The four collections live in a `TxRecord` value; the class `Tx` holds them as fields
 * that its methods reassign, and each method is specified by the value-level function
 * that computes the new record from the old one.
 */
module Transaction {
  import opened Wrappers
  import opened Crypto
  import opened Dicts

  /** The last significant digit of a float written in shortest form. */
  type NonZeroDigit = d: int | 1 <= d <= 9 witness 1

  /**
   * A number as `json` writes and reads it: a Python `int`; a finite nonzero `float`, whose
   * shortest decimal form is `sign (10 * lead + last) * 10^exponent` with a last digit that is
   * not zero, so that each float value has exactly one representation; a signed float zero
   * (`0.0` or `-0.0`); or one of the non-finite floats `NaN`, `Infinity` and `-Infinity`,
   * which `json` also reads and writes. `1` and `1.0` are different values with different
   * JSON text.
   */
  datatype Number =
    | Int(value: int)
    | Float(negative: bool, lead: nat, last: NonZeroDigit, exponent: int)
    | Zero(negative: bool)
    | Infinite(negative: bool)
    | NaN

  /** The amount of an input or an output: only ever compared against zero and serialized. */
  type Amount = Number

  /** `amount < 0` in Python: true of `-Infinity`, false of `-0.0`, `NaN` and `Infinity`. */
  predicate Negative(a: Amount)
  {
    match a
    case Int(v) => v < 0
    case Float(neg, _, _, _) => neg
    case Zero(_) => false
    case Infinite(neg) => neg
    case NaN => false
  }

  /** The `{'pub_key': ..., 'amount': ...}` entry stored for an input or an output. */
  datatype Entry = Entry(pubKey: PublicKey, amount: Amount)

  datatype TxRecord = TxRecord(
    inputs: Dict<PublicKey, Entry>,
    outputs: Dict<PublicKey, Entry>,
    required: seq<PublicKey>,
    signatures: Dict<PublicKey, Signature>)

  const EmptyTx: TxRecord := TxRecord(Empty(), Empty(), [], Empty())

  /** An element of the JSON list that is signed: an entry or a required key. */
  datatype PayloadItem = EntryItem(entry: Entry) | KeyItem(key: PublicKey)

  /**
   * The JSON glue, taken as opaque: `dumpPayload` is `json.dumps(...).encode()` of the
   * payload list, `dumpTx` is `to_json`, `loadTx` is `from_json` (None when `json.loads`
   * or a missing field raises).
   */
  datatype Codec = Codec(
    dumpPayload: seq<PayloadItem> -> Bytes,
    dumpTx: TxRecord -> Bytes,
    loadTx: Bytes -> Option<TxRecord>)

  /** `json.dumps` writes distinct payload lists as distinct text. */
  ghost predicate PayloadInjective(c: Codec)
  {
    forall p, q :: c.dumpPayload(p) == c.dumpPayload(q) ==> p == q
  }

  /** `to_json` yields one non-empty line: `json.dumps` escapes the newlines inside PEM keys. */
  ghost predicate OneLine(c: Codec)
  {
    forall t :: c.dumpTx(t) != [] && NL !in c.dumpTx(t)
  }

  /** `from_json` undoes `to_json`, field by field. */
  ghost predicate RoundTrips(c: Codec)
  {
    forall t :: c.loadTx(c.dumpTx(t)) == Some(t)
  }

  // ---------------------------------------------------------------------------
  // State transitions of `Tx`, on values

  /** `add_input`: the entry is written under the key, replacing any earlier one. */
  function WithInput(t: TxRecord, key: PublicKey, amount: Amount): (r: TxRecord)
    ensures r.inputs.entries == t.inputs.entries[key := Entry(key, amount)]
    ensures t.inputs.keys <= r.inputs.keys
    ensures r.outputs == t.outputs && r.required == t.required && r.signatures == t.signatures
  {
    t.(inputs := Put(t.inputs, key, Entry(key, amount)))
  }

  /** `add_output` */
  function WithOutput(t: TxRecord, key: PublicKey, amount: Amount): (r: TxRecord)
    ensures r.outputs.entries == t.outputs.entries[key := Entry(key, amount)]
    ensures t.outputs.keys <= r.outputs.keys
    ensures r.inputs == t.inputs && r.required == t.required && r.signatures == t.signatures
  {
    t.(outputs := Put(t.outputs, key, Entry(key, amount)))
  }

  /** `add_required`: appended, duplicates included. */
  function WithRequired(t: TxRecord, key: PublicKey): (r: TxRecord)
    ensures |r.required| == |t.required| + 1 && t.required <= r.required && r.required[|t.required|] == key
    ensures r.inputs == t.inputs && r.outputs == t.outputs && r.signatures == t.signatures
  {
    t.(required := t.required + [key])
  }

  /** `_serialize_payload` before encoding: input entries, then output entries, then required keys. */
  function Payload(t: TxRecord): seq<PayloadItem>
  {
    PayloadOf(t.inputs, t.outputs, t.required)
  }

  function PayloadOf(inputs: Dict<PublicKey, Entry>, outputs: Dict<PublicKey, Entry>, required: seq<PublicKey>): seq<PayloadItem>
  {
    EntryItems(Values(inputs)) + EntryItems(Values(outputs)) + KeyItems(required)
  }

  function EntryItems(es: seq<Entry>): seq<PayloadItem>
  {
    seq(|es|, i requires 0 <= i < |es| => EntryItem(es[i]))
  }

  function KeyItems(ks: seq<PublicKey>): seq<PayloadItem>
  {
    seq(|ks|, i requires 0 <= i < |ks| => KeyItem(ks[i]))
  }

  /** The byte message every signature is computed over. */
  function Message(codec: Codec, t: TxRecord): Bytes
  {
    codec.dumpPayload(Payload(t))
  }

  /** The payload lists every input entry in key order, then every output entry, then every required key. */
  lemma PayloadLayout(t: TxRecord)
    ensures |Payload(t)| == |t.inputs.keys| + |t.outputs.keys| + |t.required|
    ensures forall i :: 0 <= i < |t.inputs.keys| ==> Payload(t)[i] == EntryItem(t.inputs.entries[t.inputs.keys[i]])
    ensures forall i :: 0 <= i < |t.outputs.keys| ==>
      Payload(t)[|t.inputs.keys| + i] == EntryItem(t.outputs.entries[t.outputs.keys[i]])
    ensures forall i :: 0 <= i < |t.required| ==>
      Payload(t)[|t.inputs.keys| + |t.outputs.keys| + i] == KeyItem(t.required[i])
  {
    var n, m := |t.inputs.keys|, |t.outputs.keys|;
    forall i | 0 <= i < m
      ensures Payload(t)[n + i] == EntryItem(t.outputs.entries[t.outputs.keys[i]])
    {
      assert Payload(t)[n + i] == EntryItems(Values(t.outputs))[i];
    }
    forall i | 0 <= i < |t.required|
      ensures Payload(t)[n + m + i] == KeyItem(t.required[i])
    {
      assert Payload(t)[n + m + i] == KeyItems(t.required)[i];
    }
  }

  /** With an injective payload encoding, two records share a message exactly when they share a payload. */
  lemma MessageDeterminesPayload(codec: Codec, t: TxRecord, u: TxRecord)
    requires PayloadInjective(codec)
    ensures Message(codec, t) == Message(codec, u) <==> Payload(t) == Payload(u)
  {
  }

  /** `sign`: one signature over the current message, stored under the signer's public key. */
  function Signed(t: TxRecord, scheme: Scheme, codec: Codec, key: PrivateKey, salt: Bytes): (r: TxRecord)
    ensures r.signatures.entries == t.signatures.entries[scheme.publicOf(key) := scheme.sign(Message(codec, t), key, salt)]
    ensures r.inputs == t.inputs && r.outputs == t.outputs && r.required == t.required
  {
    t.(signatures := Put(t.signatures, scheme.publicOf(key), scheme.sign(Message(codec, t), key, salt)))
  }

  function WithInputs(t: TxRecord, pairs: seq<(PublicKey, Amount)>): TxRecord
  {
    if pairs == [] then t
    else
      var last := pairs[|pairs| - 1];
      WithInput(WithInputs(t, pairs[..|pairs| - 1]), last.0, last.1)
  }

  function WithOutputs(t: TxRecord, pairs: seq<(PublicKey, Amount)>): TxRecord
  {
    if pairs == [] then t
    else
      var last := pairs[|pairs| - 1];
      WithOutput(WithOutputs(t, pairs[..|pairs| - 1]), last.0, last.1)
  }

  function WithRequireds(t: TxRecord, keys: seq<PublicKey>): TxRecord
  {
    if keys == [] then t
    else WithRequired(WithRequireds(t, keys[..|keys| - 1]), keys[|keys| - 1])
  }

  /** `Tx(inputs, outputs, required)`: the adders applied in argument order to an empty transaction. */
  function Build(ins: seq<(PublicKey, Amount)>, outs: seq<(PublicKey, Amount)>, req: seq<PublicKey>): TxRecord
  {
    WithRequireds(WithOutputs(WithInputs(EmptyTx, ins), outs), req)
  }

  /** `sign` called once per (private key, salt) pair, in order. */
  function SignedBy(t: TxRecord, scheme: Scheme, codec: Codec, signers: seq<(PrivateKey, Bytes)>): TxRecord
  {
    if signers == [] then t
    else
      var last := signers[|signers| - 1];
      Signed(SignedBy(t, scheme, codec, signers[..|signers| - 1]), scheme, codec, last.0, last.1)
  }

  /** The public keys of the signers, in signing order. */
  function SignerKeys(scheme: Scheme, signers: seq<(PrivateKey, Bytes)>): seq<PublicKey>
  {
    if signers == [] then []
    else SignerKeys(scheme, signers[..|signers| - 1]) + [scheme.publicOf(signers[|signers| - 1].0)]
  }

  lemma InputsStep(t: TxRecord, pairs: seq<(PublicKey, Amount)>, i: nat)
    requires i < |pairs|
    ensures WithInputs(t, pairs[..i + 1]) == WithInput(WithInputs(t, pairs[..i]), pairs[i].0, pairs[i].1)
  {
    assert pairs[..i + 1][..i] == pairs[..i];
  }

  lemma OutputsStep(t: TxRecord, pairs: seq<(PublicKey, Amount)>, i: nat)
    requires i < |pairs|
    ensures WithOutputs(t, pairs[..i + 1]) == WithOutput(WithOutputs(t, pairs[..i]), pairs[i].0, pairs[i].1)
  {
    assert pairs[..i + 1][..i] == pairs[..i];
  }

  lemma RequiredsStep(t: TxRecord, keys: seq<PublicKey>, i: nat)
    requires i < |keys|
    ensures WithRequireds(t, keys[..i + 1]) == WithRequired(WithRequireds(t, keys[..i]), keys[i])
  {
    assert keys[..i + 1][..i] == keys[..i];
  }

  // ---------------------------------------------------------------------------
  // `is_valid`

  /** Check 1: every input key has signed. */
  predicate InputsSigned(t: TxRecord)
  {
    forall k <- t.inputs.keys :: k in t.signatures.entries
  }

  /** Check 2: every required key has signed. */
  predicate RequiredSigned(t: TxRecord)
  {
    forall k <- t.required :: k in t.signatures.entries
  }

  /** Check 3 fails when some input or output amount is negative. */
  predicate HasNegativeAmount(t: TxRecord)
  {
    || (exists e <- Values(t.inputs) :: Negative(e.amount))
    || (exists e <- Values(t.outputs) :: Negative(e.amount))
  }

  /** Check 4: every stored signature verifies over the message under the key it is stored at. */
  predicate SignaturesVerify(t: TxRecord, scheme: Scheme, message: Bytes)
  {
    forall k <- t.signatures.keys :: scheme.verify(message, t.signatures.entries[k], k)
  }

  /** `is_valid`: the four checks, in the source's order, the first failure deciding. */
  predicate Validate(t: TxRecord, scheme: Scheme, codec: Codec): (valid: bool)
    ensures valid <==>
      InputsSigned(t) && RequiredSigned(t) && !HasNegativeAmount(t) && SignaturesVerify(t, scheme, Message(codec, t))
  {
    if !InputsSigned(t) then false
    else if !RequiredSigned(t) then false
    else if HasNegativeAmount(t) then false
    else SignaturesVerify(t, scheme, Message(codec, t))
  }

  // ---------------------------------------------------------------------------
  // The object

  class Tx {
    var inputs: Dict<PublicKey, Entry>
    var outputs: Dict<PublicKey, Entry>
    var required: seq<PublicKey>
    var signatures: Dict<PublicKey, Signature>

    function Record(): TxRecord
      reads this
    {
      TxRecord(inputs, outputs, required, signatures)
    }

    /** `Tx(inputs, outputs, required)`: starts empty and calls the adders on each argument in turn. */
    constructor (ins: seq<(PublicKey, Amount)>, outs: seq<(PublicKey, Amount)>, req: seq<PublicKey>)
      ensures Record() == Build(ins, outs, req)
    {
      inputs, outputs, required, signatures := Empty(), Empty(), [], Empty();
      new;
      var i := 0;
      while i < |ins|
        invariant 0 <= i <= |ins|
        invariant Record() == WithInputs(EmptyTx, ins[..i])
      {
        AddInput(ins[i].0, ins[i].1);
        InputsStep(EmptyTx, ins, i);
        i := i + 1;
      }
      assert ins[..|ins|] == ins;
      ghost var afterInputs := Record();
      i := 0;
      while i < |outs|
        invariant 0 <= i <= |outs|
        invariant Record() == WithOutputs(afterInputs, outs[..i])
      {
        AddOutput(outs[i].0, outs[i].1);
        OutputsStep(afterInputs, outs, i);
        i := i + 1;
      }
      assert outs[..|outs|] == outs;
      ghost var afterOutputs := Record();
      i := 0;
      while i < |req|
        invariant 0 <= i <= |req|
        invariant Record() == WithRequireds(afterOutputs, req[..i])
      {
        AddRequired(req[i]);
        RequiredsStep(afterOutputs, req, i);
        i := i + 1;
      }
      assert req[..|req|] == req;
    }

    /** `add_input`: the entry is written in place or appended; nothing else changes (see `InputWritten`). */
    method AddInput(key: PublicKey, amount: Amount)
      modifies this
      ensures Record() == WithInput(old(Record()), key, amount)
    {
      inputs := Put(inputs, key, Entry(key, amount));
    }

    /** `add_output`: the entry is written in place or appended; nothing else changes (see `OutputWritten`). */
    method AddOutput(key: PublicKey, amount: Amount)
      modifies this
      ensures Record() == WithOutput(old(Record()), key, amount)
    {
      outputs := Put(outputs, key, Entry(key, amount));
    }

    /** `add_required`: exactly one key more, even a duplicate; nothing else changes. */
    method AddRequired(key: PublicKey)
      modifies this
      ensures Record() == WithRequired(old(Record()), key)
      ensures |required| == |old(required)| + 1 && required[|required| - 1] == key
      ensures inputs == old(inputs) && outputs == old(outputs) && signatures == old(signatures)
    {
      required := required + [key];
    }

    /**
     * `sign`: writes one signature, under the signer's public key, over the current message.
     * The message does not cover signatures, so the new one verifies over the message the
     * transaction now has.
     */
    method Sign(scheme: Scheme, codec: Codec, key: PrivateKey, salt: Bytes)
      modifies this
      ensures Record() == Signed(old(Record()), scheme, codec, key, salt)
      ensures inputs == old(inputs) && outputs == old(outputs) && required == old(required)
      ensures scheme.publicOf(key) in signatures.entries
      ensures Sound(scheme) ==>
        scheme.verify(SerializePayload(codec), signatures.entries[scheme.publicOf(key)], scheme.publicOf(key))
    {
      var message := SerializePayload(codec);
      signatures := Put(signatures, scheme.publicOf(key), scheme.sign(message, key, salt));
      if Sound(scheme) {
        SignedVerifies(old(Record()), scheme, codec, key, salt);
      }
    }

    /**
     * `_serialize_payload`: the bytes that are signed and checked. Under an injective
     * encoding they identify the payload: any record yields these bytes exactly when
     * it has this transaction's payload.
     */
    function SerializePayload(codec: Codec): (m: Bytes)
      reads this
      ensures m == Message(codec, Record())
      ensures PayloadInjective(codec) ==>
        forall u: TxRecord {:trigger Message(codec, u)} :: Message(codec, u) == m <==> Payload(u) == Payload(Record())
    {
      assert PayloadInjective(codec) ==>
        forall u: TxRecord {:trigger Message(codec, u)} :: Message(codec, u) == Message(codec, Record()) <==> Payload(u) == Payload(Record())
      by {
        if PayloadInjective(codec) {
          forall u: TxRecord
            ensures Message(codec, u) == Message(codec, Record()) <==> Payload(u) == Payload(Record())
          {
            MessageDeterminesPayload(codec, u, Record());
          }
        }
      }
      Message(codec, Record())
    }

    /** `is_valid` */
    predicate IsValid(scheme: Scheme, codec: Codec): (valid: bool)
      reads this
      ensures valid <==>
        InputsSigned(Record()) && RequiredSigned(Record()) && !HasNegativeAmount(Record())
        && SignaturesVerify(Record(), scheme, SerializePayload(codec))
    {
      Validate(Record(), scheme, codec)
    }

    /** `to_json`: one line that `from_json` reads back field for field. */
    function ToJson(codec: Codec): (json: Bytes)
      reads this
      ensures OneLine(codec) ==> json != [] && NL !in json
      ensures RoundTrips(codec) ==> codec.loadTx(json) == Some(Record())
    {
      codec.dumpTx(Record())
    }

    /** `from_json`: a fresh transaction holding the decoded fields; None where the source raises. */
    static method FromJson(codec: Codec, json: Bytes) returns (r: Option<Tx>)
      ensures r.None? <==> codec.loadTx(json).None?
      ensures r.Some? ==> fresh(r.value) && codec.loadTx(json) == Some(r.value.Record())
    {
      var tx := new Tx([], [], []);
      match codec.loadTx(json)
      case None =>
        r := None;
      case Some(fields) =>
        tx.inputs := fields.inputs;
        tx.outputs := fields.outputs;
        tx.required := fields.required;
        tx.signatures := fields.signatures;
        r := Some(tx);
    }
  }

  // ---------------------------------------------------------------------------
  // Properties

  /**
   * `add_input` on a key already present replaces that entry and keeps its position and the
   * number of inputs; on a new key it appends exactly one entry. Outputs, required keys and
   * signatures are untouched.
   */
  lemma InputWritten(t: TxRecord, key: PublicKey, amount: Amount)
    ensures var r := WithInput(t, key, amount);
      && r.outputs == t.outputs && r.required == t.required && r.signatures == t.signatures
      && r.inputs.entries[key] == Entry(key, amount)
      && (key in t.inputs.entries ==>
            && r.inputs.keys == t.inputs.keys
            && forall i :: 0 <= i < |t.inputs.keys| && t.inputs.keys[i] == key ==>
                 Values(r.inputs) == Values(t.inputs)[i := Entry(key, amount)])
      && (key !in t.inputs.entries ==>
            r.inputs.keys == t.inputs.keys + [key] && Values(r.inputs) == Values(t.inputs) + [Entry(key, amount)])
  {
    if key in t.inputs.entries {
      forall i | 0 <= i < |t.inputs.keys| && t.inputs.keys[i] == key
        ensures Values(Put(t.inputs, key, Entry(key, amount))) == Values(t.inputs)[i := Entry(key, amount)]
      {
        PutExisting(t.inputs, key, Entry(key, amount), i);
      }
    } else {
      PutFresh(t.inputs, key, Entry(key, amount));
    }
  }

  /** `add_output`: the same overwrite-or-append behaviour, on the outputs only. */
  lemma OutputWritten(t: TxRecord, key: PublicKey, amount: Amount)
    ensures var r := WithOutput(t, key, amount);
      && r.inputs == t.inputs && r.required == t.required && r.signatures == t.signatures
      && r.outputs.entries[key] == Entry(key, amount)
      && (key in t.outputs.entries ==>
            && r.outputs.keys == t.outputs.keys
            && forall i :: 0 <= i < |t.outputs.keys| && t.outputs.keys[i] == key ==>
                 Values(r.outputs) == Values(t.outputs)[i := Entry(key, amount)])
      && (key !in t.outputs.entries ==>
            r.outputs.keys == t.outputs.keys + [key] && Values(r.outputs) == Values(t.outputs) + [Entry(key, amount)])
  {
    if key in t.outputs.entries {
      forall i | 0 <= i < |t.outputs.keys| && t.outputs.keys[i] == key
        ensures Values(Put(t.outputs, key, Entry(key, amount))) == Values(t.outputs)[i := Entry(key, amount)]
      {
        PutExisting(t.outputs, key, Entry(key, amount), i);
      }
    } else {
      PutFresh(t.outputs, key, Entry(key, amount));
    }
  }

  /** A fresh signature verifies over the message of the transaction it is stored in. */
  lemma SignedVerifies(t: TxRecord, scheme: Scheme, codec: Codec, key: PrivateKey, salt: Bytes)
    requires Sound(scheme)
    ensures var s := Signed(t, scheme, codec, key, salt);
      && scheme.publicOf(key) in s.signatures.entries
      && scheme.verify(Message(codec, s), s.signatures.entries[scheme.publicOf(key)], scheme.publicOf(key))
  {
    var s := Signed(t, scheme, codec, key, salt);
    assert Payload(s) == Payload(t);
  }

  /** Signing changes no signature stored under another key, and the message stays the same. */
  lemma SigningKeepsOtherSignatures(t: TxRecord, scheme: Scheme, codec: Codec, key: PrivateKey, salt: Bytes)
    ensures var s := Signed(t, scheme, codec, key, salt);
      && Message(codec, s) == Message(codec, t)
      && (forall k :: k in t.signatures.entries ==> k in s.signatures.entries)
      && (forall k :: k in t.signatures.entries && k != scheme.publicOf(key) ==>
            s.signatures.entries[k] == t.signatures.entries[k])
  {
    var s := Signed(t, scheme, codec, key, salt);
    assert Payload(s) == Payload(t);
  }

  /**
   * `is_valid` holds exactly when every input key and every required key has signed, no
   * amount is negative, and every stored signature verifies over the message.
   */
  lemma ValidityCharacterised(t: TxRecord, scheme: Scheme, codec: Codec)
    ensures Validate(t, scheme, codec) <==>
      && (forall k :: k in t.inputs.entries ==> k in t.signatures.entries)
      && (forall i :: 0 <= i < |t.required| ==> t.required[i] in t.signatures.entries)
      && (forall k :: k in t.inputs.entries ==> !Negative(t.inputs.entries[k].amount))
      && (forall k :: k in t.outputs.entries ==> !Negative(t.outputs.entries[k].amount))
      && (forall k :: k in t.signatures.entries ==>
            scheme.verify(Message(codec, t), t.signatures.entries[k], k))
  {
    if exists k :: k in t.inputs.entries && Negative(t.inputs.entries[k].amount) {
      var k :| k in t.inputs.entries && Negative(t.inputs.entries[k].amount);
      var i := ValueAtKey(t.inputs, k);
      assert Negative(Values(t.inputs)[i].amount);
    }
    if exists k :: k in t.outputs.entries && Negative(t.outputs.entries[k].amount) {
      var k :| k in t.outputs.entries && Negative(t.outputs.entries[k].amount);
      var i := ValueAtKey(t.outputs, k);
      assert Negative(Values(t.outputs)[i].amount);
    }
  }

  /** An input key without a signature makes the transaction invalid, whatever else it holds. */
  lemma UnsignedInputInvalid(t: TxRecord, scheme: Scheme, codec: Codec, k: PublicKey)
    requires k in t.inputs.entries && k !in t.signatures.entries
    ensures !Validate(t, scheme, codec)
  {
    ValidityCharacterised(t, scheme, codec);
  }

  /** A required key without a signature makes the transaction invalid. */
  lemma UnsignedRequiredInvalid(t: TxRecord, scheme: Scheme, codec: Codec, k: PublicKey)
    requires k in t.required && k !in t.signatures.entries
    ensures !Validate(t, scheme, codec)
  {
    ValidityCharacterised(t, scheme, codec);
  }

  /** A negative input or output amount makes the transaction invalid, whatever its signatures. */
  lemma NegativeAmountInvalid(t: TxRecord, scheme: Scheme, codec: Codec, k: PublicKey)
    requires || (k in t.inputs.entries && Negative(t.inputs.entries[k].amount))
             || (k in t.outputs.entries && Negative(t.outputs.entries[k].amount))
    ensures !Validate(t, scheme, codec)
  {
    ValidityCharacterised(t, scheme, codec);
  }

  /**
   * Tampering: rewriting an output entry (its key or its amount) after signing changes the
   * message, so the signature made before no longer verifies and the transaction is invalid.
   */
  lemma OutputEditBreaksSignature(t: TxRecord, scheme: Scheme, codec: Codec, key: PrivateKey, salt: Bytes,
                                  k: PublicKey, e: Entry)
    requires Sound(scheme) && PayloadInjective(codec)
    requires k in t.outputs.entries && e != t.outputs.entries[k]
    ensures var signed := Signed(t, scheme, codec, key, salt);
      !Validate(signed.(outputs := Put(signed.outputs, k, e)), scheme, codec)
  {
    var signed := Signed(t, scheme, codec, key, salt);
    var tampered := signed.(outputs := Put(signed.outputs, k, e));
    var i := ValueAtKey(t.outputs, k);
    PutExisting(t.outputs, k, e, i);
    var at := |Values(t.inputs)| + i;
    assert Payload(tampered)[at] == EntryItem(e);
    assert Payload(t)[at] == EntryItem(t.outputs.entries[k]);
    assert Message(codec, tampered) != Message(codec, t);
    var pk := scheme.publicOf(key);
    assert tampered.signatures.entries[pk] == scheme.sign(Message(codec, t), key, salt);
    assert !scheme.verify(Message(codec, tampered), tampered.signatures.entries[pk], pk);
  }

  /**
   * Signing in turn leaves inputs, outputs and required keys alone; starting from no
   * signatures, exactly the signers' keys end up holding one, and each verifies.
   */
  lemma {:induction false} SignedByState(t: TxRecord, scheme: Scheme, codec: Codec, signers: seq<(PrivateKey, Bytes)>)
    requires Sound(scheme) && t.signatures == Empty()
    ensures var r := SignedBy(t, scheme, codec, signers);
      && r.inputs == t.inputs && r.outputs == t.outputs && r.required == t.required
      && Message(codec, r) == Message(codec, t)
      && (forall k :: k in r.signatures.entries <==> k in SignerKeys(scheme, signers))
      && (forall k :: k in r.signatures.entries ==> scheme.verify(Message(codec, t), r.signatures.entries[k], k))
  {
    if signers != [] {
      var init := signers[..|signers| - 1];
      var last := signers[|signers| - 1];
      SignedByState(t, scheme, codec, init);
      var before := SignedBy(t, scheme, codec, init);
      var r := Signed(before, scheme, codec, last.0, last.1);
      var pk := scheme.publicOf(last.0);
      assert r.signatures.entries == before.signatures.entries[pk := scheme.sign(Message(codec, t), last.0, last.1)];
      forall k | k in r.signatures.entries
        ensures scheme.verify(Message(codec, t), r.signatures.entries[k], k)
      {
        if k != pk {
          assert k in before.signatures.entries;
        }
      }
    }
  }

  /**
   * A transaction that starts unsigned and is then signed by some parties is valid exactly
   * when every input key and every required key is among the signers and no amount is
   * negative. A missing signer makes it invalid; a signer who is neither an input's owner nor
   * a required co-signer does not.
   */
  lemma SignedByValidIff(t: TxRecord, scheme: Scheme, codec: Codec, signers: seq<(PrivateKey, Bytes)>)
    requires Sound(scheme) && t.signatures == Empty()
    ensures Validate(SignedBy(t, scheme, codec, signers), scheme, codec) <==>
      && (forall k :: k in t.inputs.entries ==> k in SignerKeys(scheme, signers))
      && (forall i :: 0 <= i < |t.required| ==> t.required[i] in SignerKeys(scheme, signers))
      && (forall k :: k in t.inputs.entries ==> !Negative(t.inputs.entries[k].amount))
      && (forall k :: k in t.outputs.entries ==> !Negative(t.outputs.entries[k].amount))
  {
    SignedByState(t, scheme, codec, signers);
    ValidityCharacterised(SignedBy(t, scheme, codec, signers), scheme, codec);
  }

  /** `add_required` called on each key in turn appends exactly those keys, duplicates included. */
  lemma {:induction false} RequiredsAppend(t: TxRecord, keys: seq<PublicKey>)
    ensures WithRequireds(t, keys) == t.(required := t.required + keys)
  {
    if keys != [] {
      var init := keys[..|keys| - 1];
      RequiredsAppend(t, init);
      assert t.required + init + [keys[|keys| - 1]] == t.required + keys;
    } else {
      assert t.required + keys == t.required;
    }
  }

  /** The input and output adders leave the required keys and the signatures alone. */
  lemma {:induction false} AddersKeepRequiredAndSignatures(t: TxRecord, ins: seq<(PublicKey, Amount)>,
                                                           outs: seq<(PublicKey, Amount)>)
    ensures WithOutputs(WithInputs(t, ins), outs).required == t.required
    ensures WithOutputs(WithInputs(t, ins), outs).signatures == t.signatures
  {
    if outs != [] {
      AddersKeepRequiredAndSignatures(t, ins, outs[..|outs| - 1]);
    } else if ins != [] {
      AddersKeepRequiredAndSignatures(t, ins[..|ins| - 1], []);
    }
  }

  /** A freshly built transaction requires exactly the keys it was given and has no signatures. */
  lemma BuildRequiredUnsigned(ins: seq<(PublicKey, Amount)>, outs: seq<(PublicKey, Amount)>, req: seq<PublicKey>)
    ensures Build(ins, outs, req).required == req && Build(ins, outs, req).signatures == Empty()
  {
    AddersKeepRequiredAndSignatures(EmptyTx, ins, outs);
    RequiredsAppend(WithOutputs(WithInputs(EmptyTx, ins), outs), req);
  }

  /** One adder call through the fold. */
  lemma InputsOne(t: TxRecord, a: PublicKey, m: Amount)
    ensures WithInputs(t, [(a, m)]) == WithInput(t, a, m)
  {
    assert [(a, m)][..0] == [];
  }

  lemma InputsTwo(t: TxRecord, a: PublicKey, m: Amount, b: PublicKey, n: Amount)
    ensures WithInputs(t, [(a, m), (b, n)]) == WithInput(WithInput(t, a, m), b, n)
  {
    assert [(a, m), (b, n)][..1] == [(a, m)];
    InputsOne(t, a, m);
  }

  lemma OutputsOne(t: TxRecord, a: PublicKey, m: Amount)
    ensures WithOutputs(t, [(a, m)]) == WithOutput(t, a, m)
  {
    assert [(a, m)][..0] == [];
  }

  lemma OutputsTwo(t: TxRecord, a: PublicKey, m: Amount, b: PublicKey, n: Amount)
    ensures WithOutputs(t, [(a, m), (b, n)]) == WithOutput(WithOutput(t, a, m), b, n)
  {
    assert [(a, m), (b, n)][..1] == [(a, m)];
    OutputsOne(t, a, m);
  }

  /** The fields of `Tx(inputs=[(a, m)], outputs=[(b, n)], required=req)`. */
  lemma TransferShape(a: PublicKey, b: PublicKey, m: Amount, n: Amount, req: seq<PublicKey>)
    ensures var t := Build([(a, m)], [(b, n)], req);
      && t.inputs == RawDict([a], map[a := Entry(a, m)])
      && t.outputs == RawDict([b], map[b := Entry(b, n)])
      && t.required == req && t.signatures == Empty()
      && Values(t.inputs) == [Entry(a, m)] && Values(t.outputs) == [Entry(b, n)]
  {
    InputsOne(EmptyTx, a, m);
    var t1 := WithInput(EmptyTx, a, m);
    OutputsOne(t1, b, n);
    RequiredsAppend(WithOutput(t1, b, n), req);
    PutOne(a, Entry(a, m));
    PutOne(b, Entry(b, n));
  }

  /** The fields of `Tx(outputs=[(a, m), (b, n)])` for distinct keys. */
  lemma MovedShape(a: PublicKey, b: PublicKey, m: Amount, n: Amount)
    requires a != b
    ensures var t := Build([], [(a, m), (b, n)], []);
      && t.inputs == Empty()
      && t.outputs == RawDict([a, b], map[a := Entry(a, m), b := Entry(b, n)])
      && t.required == [] && t.signatures == Empty()
      && Values(t.inputs) == [] && Values(t.outputs) == [Entry(a, m), Entry(b, n)]
  {
    OutputsTwo(EmptyTx, a, m, b, n);
    PutTwo(a, Entry(a, m), b, Entry(b, n));
  }

  /** The fields of `Tx(inputs=[(a, m), (b, n)], outputs=[(c, o)])` for distinct input keys. */
  lemma TwoInputShape(a: PublicKey, b: PublicKey, c: PublicKey, m: Amount, n: Amount, o: Amount)
    requires a != b
    ensures var t := Build([(a, m), (b, n)], [(c, o)], []);
      && t.inputs == RawDict([a, b], map[a := Entry(a, m), b := Entry(b, n)])
      && t.outputs == RawDict([c], map[c := Entry(c, o)])
      && t.required == [] && t.signatures == Empty()
  {
    InputsTwo(EmptyTx, a, m, b, n);
    var t2 := WithInput(WithInput(EmptyTx, a, m), b, n);
    OutputsOne(t2, c, o);
    PutTwo(a, Entry(a, m), b, Entry(b, n));
    PutOne(c, Entry(c, o));
  }

  /** The fields of `Tx(outputs=[(b, n)])`: a payout with no inputs. */
  lemma PayoutShape(b: PublicKey, n: Amount)
    ensures var t := Build([], [(b, n)], []);
      && t.inputs == Empty()
      && t.outputs == RawDict([b], map[b := Entry(b, n)])
      && t.required == [] && t.signatures == Empty()
  {
    OutputsOne(EmptyTx, b, n);
    PutOne(b, Entry(b, n));
  }

  /**
   * The transfer's entries, read inputs first, are the moved transaction's entries: the
   * payer's entry followed by the payee's.
   */
  lemma TransferRegroups(a: PublicKey, b: PublicKey, m: Amount, n: Amount)
    requires a != b
    ensures var t := Build([(a, m)], [(b, n)], []);
      var moved := Build([], [(a, m), (b, n)], []);
      && Values(t.inputs) + Values(t.outputs) == Values(moved.inputs) + Values(moved.outputs)
      && moved.inputs == Empty() && moved.required == t.required
  {
    TransferShape(a, b, m, n, []);
    MovedShape(a, b, m, n);
  }

  /** Signing once is `sign` called once. */
  lemma SignedByOne(t: TxRecord, scheme: Scheme, codec: Codec, k: PrivateKey, salt: Bytes)
    ensures SignedBy(t, scheme, codec, [(k, salt)]) == Signed(t, scheme, codec, k, salt)
    ensures SignerKeys(scheme, [(k, salt)]) == [scheme.publicOf(k)]
  {
    assert [(k, salt)][..0] == [];
  }

  /** Signing twice is `sign` called twice, in order. */
  lemma SignedByTwo(t: TxRecord, scheme: Scheme, codec: Codec, k1: PrivateKey, s1: Bytes, k2: PrivateKey, s2: Bytes)
    ensures SignedBy(t, scheme, codec, [(k1, s1), (k2, s2)]) ==
      Signed(Signed(t, scheme, codec, k1, s1), scheme, codec, k2, s2)
    ensures SignerKeys(scheme, [(k1, s1), (k2, s2)]) == [scheme.publicOf(k1), scheme.publicOf(k2)]
  {
    var signers := [(k1, s1), (k2, s2)];
    assert signers[..1] == [(k1, s1)];
    SignedByOne(t, scheme, codec, k1, s1);
    assert SignedBy(t, scheme, codec, signers) == Signed(SignedBy(t, scheme, codec, [(k1, s1)]), scheme, codec, k2, s2);
    assert SignerKeys(scheme, signers) == SignerKeys(scheme, [(k1, s1)]) + [scheme.publicOf(k2)];
  }

  /**
   * An unsigned transaction with no required keys, whose inputs all belong to one key and
   * whose amounts are non-negative, is valid once the owner of that key has signed it.
   */
  lemma SingleOwnerSignedValid(t: TxRecord, scheme: Scheme, codec: Codec, k: PrivateKey, salt: Bytes)
    requires Sound(scheme) && t.signatures == Empty() && t.required == []
    requires forall key :: key in t.inputs.entries ==> key == scheme.publicOf(k)
    requires forall key :: key in t.inputs.entries ==> !Negative(t.inputs.entries[key].amount)
    requires forall key :: key in t.outputs.entries ==> !Negative(t.outputs.entries[key].amount)
    ensures Validate(SignedBy(t, scheme, codec, [(k, salt)]), scheme, codec)
  {
    SignedByOne(t, scheme, codec, k, salt);
    SignedByValidIff(t, scheme, codec, [(k, salt)]);
  }

  /** A one-to-one transfer of non-negative amounts, signed by the input's owner, is valid. */
  lemma OneToOneValid(scheme: Scheme, codec: Codec, k: PrivateKey, b: PublicKey, m: Amount, n: Amount, salt: Bytes)
    requires Sound(scheme) && !Negative(m) && !Negative(n)
    ensures Validate(SignedBy(Build([(scheme.publicOf(k), m)], [(b, n)], []), scheme, codec, [(k, salt)]), scheme, codec)
  {
    var a := scheme.publicOf(k);
    var t := TxRecord(RawDict([a], map[a := Entry(a, m)]), RawDict([b], map[b := Entry(b, n)]), [], Empty());
    assert Build([(a, m)], [(b, n)], []) == t by {
      TransferShape(a, b, m, n, []);
    }
    SingleOwnerSignedValid(t, scheme, codec, k, salt);
  }

  /** A one-to-one transfer with a negative amount on either side is invalid, though its payer signed it. */
  lemma NegativeTransferInvalid(scheme: Scheme, codec: Codec, k: PrivateKey, b: PublicKey, m: Amount, n: Amount,
                                salt: Bytes)
    requires Negative(m) || Negative(n)
    ensures !Validate(SignedBy(Build([(scheme.publicOf(k), m)], [(b, n)], []), scheme, codec, [(k, salt)]), scheme, codec)
  {
    var a := scheme.publicOf(k);
    var t := TxRecord(RawDict([a], map[a := Entry(a, m)]), RawDict([b], map[b := Entry(b, n)]), [], Empty());
    assert Build([(a, m)], [(b, n)], []) == t by {
      TransferShape(a, b, m, n, []);
    }
    SignedByOne(t, scheme, codec, k, salt);
    if Negative(m) {
      NegativeAmountInvalid(Signed(t, scheme, codec, k, salt), scheme, codec, a);
    } else {
      NegativeAmountInvalid(Signed(t, scheme, codec, k, salt), scheme, codec, b);
    }
  }

  /**
   * A payout with no inputs and a non-negative amount is valid whoever signs it: nothing
   * checks that outputs are covered by inputs.
   */
  lemma PayoutValid(scheme: Scheme, codec: Codec, k: PrivateKey, b: PublicKey, n: Amount, salt: Bytes)
    requires Sound(scheme) && !Negative(n)
    ensures Validate(SignedBy(Build([], [(b, n)], []), scheme, codec, [(k, salt)]), scheme, codec)
  {
    var t := TxRecord(Empty(), RawDict([b], map[b := Entry(b, n)]), [], Empty());
    assert Build([], [(b, n)], []) == t by {
      PayoutShape(b, n);
    }
    SingleOwnerSignedValid(t, scheme, codec, k, salt);
  }

  /**
   * An unsigned transaction whose inputs all belong to one key, whose required keys are all
   * one other key, and whose amounts are non-negative, is valid once the owners of both
   * keys have signed it.
   */
  lemma OwnerAndCosignerSignedValid(t: TxRecord, scheme: Scheme, codec: Codec,
                                    k1: PrivateKey, s1: Bytes, k2: PrivateKey, s2: Bytes)
    requires Sound(scheme) && t.signatures == Empty()
    requires forall key :: key in t.inputs.entries ==> key == scheme.publicOf(k1)
    requires forall i :: 0 <= i < |t.required| ==> t.required[i] == scheme.publicOf(k2)
    requires forall key :: key in t.inputs.entries ==> !Negative(t.inputs.entries[key].amount)
    requires forall key :: key in t.outputs.entries ==> !Negative(t.outputs.entries[key].amount)
    ensures Validate(SignedBy(t, scheme, codec, [(k1, s1), (k2, s2)]), scheme, codec)
  {
    SignedByTwo(t, scheme, codec, k1, s1, k2, s2);
    SignedByValidIff(t, scheme, codec, [(k1, s1), (k2, s2)]);
  }

  /**
   * A transfer that also requires a co-signer is valid once the input's owner and the
   * co-signer have both signed.
   */
  lemma CosignedValid(scheme: Scheme, codec: Codec, k1: PrivateKey, k2: PrivateKey, c: PublicKey,
                      m: Amount, n: Amount, s1: Bytes, s2: Bytes)
    requires Sound(scheme) && !Negative(m) && !Negative(n)
    ensures var t := Build([(scheme.publicOf(k1), m)], [(c, n)], [scheme.publicOf(k2)]);
      Validate(SignedBy(t, scheme, codec, [(k1, s1), (k2, s2)]), scheme, codec)
  {
    var a := scheme.publicOf(k1);
    var b := scheme.publicOf(k2);
    var t := TxRecord(RawDict([a], map[a := Entry(a, m)]), RawDict([c], map[c := Entry(c, n)]), [b], Empty());
    assert Build([(a, m)], [(c, n)], [b]) == t by {
      TransferShape(a, c, m, n, [b]);
    }
    OwnerAndCosignerSignedValid(t, scheme, codec, k1, s1, k2, s2);
  }

  /**
   * The payload lists the input entries and the output entries back to back: it depends on
   * their concatenation only, not on where one list ends and the other begins.
   */
  lemma PayloadSeesOnlyConcatenation(t: TxRecord, u: TxRecord)
    requires Values(t.inputs) + Values(t.outputs) == Values(u.inputs) + Values(u.outputs)
    requires t.required == u.required
    ensures Payload(t) == Payload(u)
  {
    EntryItemsConcat(Values(t.inputs), Values(t.outputs));
    EntryItemsConcat(Values(u.inputs), Values(u.outputs));
  }

  lemma EntryItemsConcat(xs: seq<Entry>, ys: seq<Entry>)
    ensures EntryItems(xs) + EntryItems(ys) == EntryItems(xs + ys)
  {
  }

  /**
   * Regrouping the entries of a valid transaction between inputs and outputs, keeping their
   * order, its required keys and its signatures, keeps the message and keeps it valid as
   * long as every key left among the inputs has signed.
   */
  lemma RegroupedStaysValid(s: TxRecord, m: TxRecord, scheme: Scheme, codec: Codec)
    requires Validate(s, scheme, codec)
    requires Values(s.inputs) + Values(s.outputs) == Values(m.inputs) + Values(m.outputs)
    requires m.required == s.required && m.signatures == s.signatures
    requires forall k :: k in m.inputs.entries ==> k in s.signatures.entries
    ensures Message(codec, m) == Message(codec, s) && Validate(m, scheme, codec)
  {
    PayloadSeesOnlyConcatenation(s, m);
    forall e | e in Values(m.inputs) + Values(m.outputs)
      ensures !Negative(e.amount)
    {
      assert e in Values(s.inputs) + Values(s.outputs);
    }
    assert !HasNegativeAmount(m) by {
      forall e | e in Values(m.inputs) ensures !Negative(e.amount) {
        assert e in Values(m.inputs) + Values(m.outputs);
      }
      forall e | e in Values(m.outputs) ensures !Negative(e.amount) {
        assert e in Values(m.inputs) + Values(m.outputs);
      }
    }
  }

  /**
   * The signed message does not record where the inputs end and the outputs begin. Moving
   * the one input entry of a signed transfer to the front of its outputs leaves the message
   * unchanged. The old signature therefore still verifies, and the rewritten transaction,
   * which now has no inputs, is valid too.
   */
  lemma InputMovedToOutputsStaysValid(scheme: Scheme, codec: Codec, k: PrivateKey, b: PublicKey,
                                       m: Amount, n: Amount, salt: Bytes)
    requires Sound(scheme) && !Negative(m) && !Negative(n) && b != scheme.publicOf(k)
    ensures var a := scheme.publicOf(k);
      var signed := SignedBy(Build([(a, m)], [(b, n)], []), scheme, codec, [(k, salt)]);
      var moved := Build([], [(a, m), (b, n)], []).(signatures := signed.signatures);
      && Validate(signed, scheme, codec)
      && Message(codec, moved) == Message(codec, signed)
      && Validate(moved, scheme, codec)
  {
    var a := scheme.publicOf(k);
    var t := Build([(a, m)], [(b, n)], []);
    var signed := SignedBy(t, scheme, codec, [(k, salt)]);
    var moved := Build([], [(a, m), (b, n)], []).(signatures := signed.signatures);
    OneToOneValid(scheme, codec, k, b, m, n, salt);
    assert signed.inputs == t.inputs && signed.outputs == t.outputs && signed.required == t.required by {
      TransferShape(a, b, m, n, []);
      SignedByState(t, scheme, codec, [(k, salt)]);
    }
    TransferRegroups(a, b, m, n);
    RegroupedStaysValid(signed, moved, scheme, codec);
  }
}
