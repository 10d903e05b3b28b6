/**
 * The assumptions the model makes of its foreign primitives can all hold at once: a
 * signature scheme that is `Sound`, a JSON codec that is `PayloadInjective`, `OneLine` and
 * `RoundTrips`, and a `CollisionFree` hash. So no lemma that requires them is vacuous.
 *
 * The codec writes every ledger value as a tree of naturals and the tree in a
 * self-delimiting byte code that never uses the newline byte; `from_json` is its inverse.
 */
module Witness {
  import opened Wrappers
  import opened Crypto
  import opened Dicts
  import opened Transaction

  /** A tree of naturals: enough structure to write any ledger value without loss. */
  datatype Tree = Leaf(n: nat) | Node(kids: seq<Tree>)

  /** `n` copies of the byte 2. */
  function Twos(n: nat): (r: Bytes)
    ensures |r| == n && forall i :: 0 <= i < |r| ==> r[i] == 2
  {
    if n == 0 then [] else [2] + Twos(n - 1)
  }

  function Concat(ws: seq<Bytes>): Bytes
  {
    if ws == [] then [] else ws[0] + Concat(ws[1..])
  }

  /** A leaf is `1 2^n 3`; a node is `4`, its children in order, `5`. */
  function Write(t: Tree): Bytes
  {
    match t
    case Leaf(n) => [1] + Twos(n) + [3]
    case Node(kids) => [4] + Concat(seq(|kids|, i requires 0 <= i < |kids| => Write(kids[i]))) + [5]
  }

  /** Reads a run of 2s closed by a 3. */
  function ParseTwos(s: Bytes): (r: Option<(nat, Bytes)>)
    ensures r.Some? ==> |r.value.1| < |s|
  {
    if s == [] then None
    else if s[0] == 3 then Some((0, s[1..]))
    else if s[0] == 2 then
      match ParseTwos(s[1..])
      case None => None
      case Some((n, rest)) => Some((n + 1, rest))
    else None
  }

  /** Reads one tree off the front of `s`. */
  function Parse(s: Bytes): (r: Option<(Tree, Bytes)>)
    ensures r.Some? ==> |r.value.1| < |s|
    decreases |s|, 0
  {
    if s == [] then None
    else if s[0] == 1 then
      match ParseTwos(s[1..])
      case None => None
      case Some((n, rest)) => Some((Leaf(n), rest))
    else if s[0] == 4 then
      match ParseKids(s[1..])
      case None => None
      case Some((kids, rest)) => Some((Node(kids), rest))
    else None
  }

  /** Reads trees off the front of `s` up to the closing 5. */
  function ParseKids(s: Bytes): (r: Option<(seq<Tree>, Bytes)>)
    ensures r.Some? ==> |r.value.1| < |s|
    decreases |s|, 1
  {
    if s == [] then None
    else if s[0] == 5 then Some(([], s[1..]))
    else
      match Parse(s)
      case None => None
      case Some((t, rest)) =>
        match ParseKids(rest)
        case None => None
        case Some((ts, rest')) => Some(([t] + ts, rest'))
  }

  lemma {:induction false} ParseTwosWrite(n: nat, r: Bytes)
    ensures ParseTwos(Twos(n) + [3] + r) == Some((n, r))
  {
    if n > 0 {
      assert Twos(n) + [3] + r == [2] + (Twos(n - 1) + [3] + r);
      ParseTwosWrite(n - 1, r);
    }
  }

  /** Parsing takes back exactly what `Write` wrote and leaves the rest. */
  lemma {:induction false} ParseWrite(t: Tree, r: Bytes)
    ensures Parse(Write(t) + r) == Some((t, r))
    decreases t, 1, 0
  {
    match t
    case Leaf(n) =>
      assert Write(t) + r == [1] + (Twos(n) + [3] + r);
      ParseTwosWrite(n, r);
    case Node(kids) =>
      var ws := seq(|kids|, i requires 0 <= i < |kids| => Write(kids[i]));
      assert Write(t) + r == [4] + (Concat(ws) + [5] + r);
      ParseKidsWrite(t, 0, r);
      assert ws[0..] == ws;
      assert kids[0..] == kids;
  }

  lemma {:induction false} ParseKidsWrite(t: Tree, j: nat, r: Bytes)
    requires t.Node? && j <= |t.kids|
    ensures var ws := seq(|t.kids|, i requires 0 <= i < |t.kids| => Write(t.kids[i]));
      ParseKids(Concat(ws[j..]) + [5] + r) == Some((t.kids[j..], r))
    decreases t, 0, |t.kids| - j
  {
    var ws := seq(|t.kids|, i requires 0 <= i < |t.kids| => Write(t.kids[i]));
    if j == |t.kids| {
      assert ws[j..] == [] && t.kids[j..] == [];
      assert Concat(ws[j..]) + [5] + r == [5] + r;
      assert ([5] + r)[1..] == r;
    } else {
      var rest := Concat(ws[j + 1..]) + [5] + r;
      assert ws[j..][1..] == ws[j + 1..];
      assert Concat(ws[j..]) + [5] + r == Write(t.kids[j]) + rest;
      WriteStartsWell(t.kids[j]);
      ParseWrite(t.kids[j], rest);
      ParseKidsWrite(t, j + 1, r);
      assert t.kids[j..] == [t.kids[j]] + t.kids[j + 1..];
    }
  }

  lemma WriteStartsWell(t: Tree)
    ensures Write(t) != [] && Write(t)[0] != 5
  {
  }

  lemma WriteInjective(a: Tree, b: Tree)
    requires Write(a) == Write(b)
    ensures a == b
  {
    ParseWrite(a, []);
    ParseWrite(b, []);
    assert Write(a) + [] == Write(b) + [];
  }

  lemma {:induction false} ConcatNoNewline(ws: seq<Bytes>)
    requires forall i :: 0 <= i < |ws| ==> NL !in ws[i]
    ensures NL !in Concat(ws)
  {
    if ws != [] {
      ConcatNoNewline(ws[1..]);
    }
  }

  lemma {:induction false} WriteNoNewline(t: Tree)
    ensures NL !in Write(t)
  {
    match t
    case Leaf(n) =>
    case Node(kids) =>
      var ws := seq(|kids|, i requires 0 <= i < |kids| => Write(kids[i]));
      forall i | 0 <= i < |ws|
        ensures NL !in ws[i]
      {
        WriteNoNewline(kids[i]);
      }
      ConcatNoNewline(ws);
  }

  // ---------------------------------------------------------------------------
  // Ledger values as trees

  function FlagTree(b: bool): Tree
  {
    Leaf(if b then 1 else 0)
  }

  function IntTree(v: int): Tree
  {
    Node([FlagTree(v < 0), Leaf(if v < 0 then -v else v)])
  }

  function NumberTree(a: Amount): Tree
  {
    match a
    case Int(v) => Node([Leaf(0), IntTree(v)])
    case Float(neg, lead, last, e) => Node([Leaf(1), FlagTree(neg), Leaf(lead), Leaf(last as nat), IntTree(e)])
    case Zero(neg) => Node([Leaf(2), FlagTree(neg)])
    case Infinite(neg) => Node([Leaf(3), FlagTree(neg)])
    case NaN => Node([Leaf(4)])
  }

  function TextTree(s: string): Tree
  {
    Node(seq(|s|, i requires 0 <= i < |s| => Leaf(s[i] as int)))
  }

  function BytesTree(s: Bytes): Tree
  {
    Node(seq(|s|, i requires 0 <= i < |s| => Leaf(s[i] as int)))
  }

  function EntryTree(e: Entry): Tree
  {
    Node([TextTree(e.pubKey), NumberTree(e.amount)])
  }

  function KeysTree(keys: seq<PublicKey>): Tree
  {
    Node(seq(|keys|, i requires 0 <= i < |keys| => TextTree(keys[i])))
  }

  function EntriesTree(d: Dict<PublicKey, Entry>): Tree
  {
    var vs := Values(d);
    Node([KeysTree(d.keys), Node(seq(|vs|, i requires 0 <= i < |vs| => EntryTree(vs[i])))])
  }

  function SignaturesTree(d: Dict<PublicKey, Signature>): Tree
  {
    var vs := Values(d);
    Node([KeysTree(d.keys), Node(seq(|vs|, i requires 0 <= i < |vs| => BytesTree(vs[i])))])
  }

  function TxTree(t: TxRecord): Tree
  {
    Node([EntriesTree(t.inputs), EntriesTree(t.outputs), KeysTree(t.required), SignaturesTree(t.signatures)])
  }

  function ItemTree(p: PayloadItem): Tree
  {
    match p
    case EntryItem(e) => Node([Leaf(0), EntryTree(e)])
    case KeyItem(k) => Node([Leaf(1), TextTree(k)])
  }

  function PayloadTree(p: seq<PayloadItem>): Tree
  {
    Node(seq(|p|, i requires 0 <= i < |p| => ItemTree(p[i])))
  }

  lemma IntTreeInjective(a: int, b: int)
    requires IntTree(a) == IntTree(b)
    ensures a == b
  {
    assert IntTree(a).kids[0] == IntTree(b).kids[0];
    assert IntTree(a).kids[1] == IntTree(b).kids[1];
  }

  lemma NumberTreeInjective(a: Amount, b: Amount)
    requires NumberTree(a) == NumberTree(b)
    ensures a == b
  {
    assert NumberTree(a).kids[0] == NumberTree(b).kids[0];
    match a
    case Int(v) => IntTreeInjective(v, b.value);
    case Float(_, _, _, e) => IntTreeInjective(e, b.exponent);
    case Zero(_) =>
    case Infinite(_) =>
    case NaN =>
  }

  lemma TextTreeInjective(a: string, b: string)
    requires TextTree(a) == TextTree(b)
    ensures a == b
  {
    assert |a| == |TextTree(a).kids| == |TextTree(b).kids| == |b|;
    forall i | 0 <= i < |a|
      ensures a[i] == b[i]
    {
      assert TextTree(a).kids[i] == TextTree(b).kids[i];
    }
  }

  lemma BytesTreeInjective(a: Bytes, b: Bytes)
    requires BytesTree(a) == BytesTree(b)
    ensures a == b
  {
    assert |a| == |BytesTree(a).kids| == |BytesTree(b).kids| == |b|;
    forall i | 0 <= i < |a|
      ensures a[i] == b[i]
    {
      assert BytesTree(a).kids[i] == BytesTree(b).kids[i];
    }
  }

  lemma EntryTreeInjective(a: Entry, b: Entry)
    requires EntryTree(a) == EntryTree(b)
    ensures a == b
  {
    assert EntryTree(a).kids[0] == EntryTree(b).kids[0];
    assert EntryTree(a).kids[1] == EntryTree(b).kids[1];
    TextTreeInjective(a.pubKey, b.pubKey);
    NumberTreeInjective(a.amount, b.amount);
  }

  lemma KeysTreeInjective(a: seq<PublicKey>, b: seq<PublicKey>)
    requires KeysTree(a) == KeysTree(b)
    ensures a == b
  {
    assert |a| == |KeysTree(a).kids| == |KeysTree(b).kids| == |b|;
    forall i | 0 <= i < |a|
      ensures a[i] == b[i]
    {
      assert KeysTree(a).kids[i] == KeysTree(b).kids[i];
      TextTreeInjective(a[i], b[i]);
    }
  }

  /** Two dicts with the same keys in the same order and the same values are the same dict. */
  lemma DictsAgree<V>(a: Dict<PublicKey, V>, b: Dict<PublicKey, V>)
    requires a.keys == b.keys && Values(a) == Values(b)
    ensures a == b
  {
    forall k | k in a.entries
      ensures k in b.entries && a.entries[k] == b.entries[k]
    {
      var i :| 0 <= i < |a.keys| && a.keys[i] == k;
      assert Values(a)[i] == Values(b)[i];
    }
    assert a.entries == b.entries;
  }

  lemma EntriesTreeInjective(a: Dict<PublicKey, Entry>, b: Dict<PublicKey, Entry>)
    requires EntriesTree(a) == EntriesTree(b)
    ensures a == b
  {
    assert EntriesTree(a).kids[0] == EntriesTree(b).kids[0];
    KeysTreeInjective(a.keys, b.keys);
    var va, vb := Values(a), Values(b);
    assert EntriesTree(a).kids[1] == EntriesTree(b).kids[1];
    assert |va| == |EntriesTree(a).kids[1].kids| == |vb|;
    forall i | 0 <= i < |va|
      ensures va[i] == vb[i]
    {
      assert EntriesTree(a).kids[1].kids[i] == EntriesTree(b).kids[1].kids[i];
      EntryTreeInjective(va[i], vb[i]);
    }
    DictsAgree(a, b);
  }

  lemma SignaturesTreeInjective(a: Dict<PublicKey, Signature>, b: Dict<PublicKey, Signature>)
    requires SignaturesTree(a) == SignaturesTree(b)
    ensures a == b
  {
    assert SignaturesTree(a).kids[0] == SignaturesTree(b).kids[0];
    KeysTreeInjective(a.keys, b.keys);
    var va, vb := Values(a), Values(b);
    assert SignaturesTree(a).kids[1] == SignaturesTree(b).kids[1];
    assert |va| == |SignaturesTree(a).kids[1].kids| == |vb|;
    forall i | 0 <= i < |va|
      ensures va[i] == vb[i]
    {
      assert SignaturesTree(a).kids[1].kids[i] == SignaturesTree(b).kids[1].kids[i];
      BytesTreeInjective(va[i], vb[i]);
    }
    DictsAgree(a, b);
  }

  lemma TxTreeInjective(a: TxRecord, b: TxRecord)
    requires TxTree(a) == TxTree(b)
    ensures a == b
  {
    assert TxTree(a).kids[0] == TxTree(b).kids[0];
    assert TxTree(a).kids[1] == TxTree(b).kids[1];
    assert TxTree(a).kids[2] == TxTree(b).kids[2];
    assert TxTree(a).kids[3] == TxTree(b).kids[3];
    EntriesTreeInjective(a.inputs, b.inputs);
    EntriesTreeInjective(a.outputs, b.outputs);
    KeysTreeInjective(a.required, b.required);
    SignaturesTreeInjective(a.signatures, b.signatures);
  }

  lemma PayloadTreeInjective(a: seq<PayloadItem>, b: seq<PayloadItem>)
    requires PayloadTree(a) == PayloadTree(b)
    ensures a == b
  {
    assert |a| == |PayloadTree(a).kids| == |PayloadTree(b).kids| == |b|;
    forall i | 0 <= i < |a|
      ensures a[i] == b[i]
    {
      assert PayloadTree(a).kids[i] == PayloadTree(b).kids[i];
      var x, y := ItemTree(a[i]), ItemTree(b[i]);
      assert x.kids[0] == y.kids[0] && x.kids[1] == y.kids[1];
      if a[i].EntryItem? {
        EntryTreeInjective(a[i].entry, b[i].entry);
      } else {
        TextTreeInjective(a[i].key, b[i].key);
      }
    }
  }

  // ---------------------------------------------------------------------------
  // The witnesses

  /** `from_json` of the witness codec: the record whose text `s` is, if any. */
  ghost function Load(s: Bytes): Option<TxRecord>
  {
    if exists t :: Write(TxTree(t)) == s then Some(var t :| Write(TxTree(t)) == s; t) else None
  }

  ghost function WitnessCodec(): Codec
  {
    Codec(p => Write(PayloadTree(p)), t => Write(TxTree(t)), s => Load(s))
  }

  /** The public key of `k` is `k`'s bytes read as characters. */
  function KeyText(k: PrivateKey): PublicKey
  {
    seq(|k|, i requires 0 <= i < |k| => (k[i] as int) as char)
  }

  /** A signature is the message and the signer's key written together; the salt is ignored. */
  function Seal(m: Bytes, k: PrivateKey): Signature
  {
    Write(Node([BytesTree(m), TextTree(KeyText(k))]))
  }

  ghost function WitnessScheme(): Scheme
  {
    Scheme(KeyText, (m, k, salt) => Seal(m, k), (m, sig, p) => exists k :: sig == Seal(m, k) && p == KeyText(k))
  }

  lemma SealInjective(m: Bytes, k: PrivateKey, m': Bytes, k': PrivateKey)
    requires Seal(m, k) == Seal(m', k')
    ensures m == m' && KeyText(k) == KeyText(k')
  {
    var a, b := Node([BytesTree(m), TextTree(KeyText(k))]), Node([BytesTree(m'), TextTree(KeyText(k'))]);
    WriteInjective(a, b);
    assert a.kids[0] == b.kids[0] && a.kids[1] == b.kids[1];
    BytesTreeInjective(m, m');
    TextTreeInjective(KeyText(k), KeyText(k'));
  }

  lemma WitnessSchemeSound()
    ensures Sound(WitnessScheme())
  {
    var scheme := WitnessScheme();
    forall m', m, k, salt, p | scheme.verify(m', scheme.sign(m, k, salt), p)
      ensures m' == m && p == scheme.publicOf(k)
    {
      var k' :| Seal(m, k) == Seal(m', k') && p == KeyText(k');
      SealInjective(m, k, m', k');
    }
  }

  lemma WitnessCodecFaithful()
    ensures PayloadInjective(WitnessCodec()) && OneLine(WitnessCodec()) && RoundTrips(WitnessCodec())
  {
    var codec := WitnessCodec();
    forall p, q | codec.dumpPayload(p) == codec.dumpPayload(q)
      ensures p == q
    {
      WriteInjective(PayloadTree(p), PayloadTree(q));
      PayloadTreeInjective(p, q);
    }
    forall t
      ensures codec.dumpTx(t) != [] && NL !in codec.dumpTx(t)
    {
      WriteStartsWell(TxTree(t));
      WriteNoNewline(TxTree(t));
    }
    forall t
      ensures codec.loadTx(codec.dumpTx(t)) == Some(t)
    {
      var s := Write(TxTree(t));
      assert Load(s).Some?;
      var t' := Load(s).value;
      assert Write(TxTree(t')) == s;
      WriteInjective(TxTree(t), TxTree(t'));
      TxTreeInjective(t, t');
    }
  }

  /** Every hypothesis the ledger's lemmas take about its primitives is met by some primitive. */
  lemma HypothesesSatisfiable()
    ensures exists scheme: Scheme, codec: Codec, h: Hasher ::
      Sound(scheme) && PayloadInjective(codec) && OneLine(codec) && RoundTrips(codec) && CollisionFree(h)
  {
    var h: Hasher := x => x;
    WitnessSchemeSound();
    WitnessCodecFaithful();
    assert CollisionFree(h);
    assert Sound(WitnessScheme()) && PayloadInjective(WitnessCodec()) && OneLine(WitnessCodec())
      && RoundTrips(WitnessCodec()) && CollisionFree(h);
  }
}
