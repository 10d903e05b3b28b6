/**
 * The newline framing of a block's data: `data.split('\n')`, the dropping of empty
 * fragments, and the framing that repeated `add_tx` calls build.
 */
module Lines {
  import opened Crypto

  /** `s.split(b'\n')`: the pieces between newlines, in order; there is always at least one. */
  function Split(s: Bytes): (parts: seq<Bytes>)
    ensures |parts| >= 1
  {
    if s == [] then [[]]
    else
      var rest := Split(s[1..]);
      if s[0] == NL then [[]] + rest
      else [[s[0]] + rest[0]] + rest[1..]
  }

  /** `b'\n'.join(parts)`: the inverse of `Split`. */
  function Join(parts: seq<Bytes>): Bytes
    requires |parts| >= 1
  {
    if |parts| == 1 then parts[0] else parts[0] + [NL] + Join(parts[1..])
  }

  /** `[p for p in parts if p != b'']` */
  function NonEmpty(parts: seq<Bytes>): (kept: seq<Bytes>)
    ensures |kept| <= |parts|
    ensures forall i :: 0 <= i < |kept| ==> kept[i] != [] && kept[i] in parts
  {
    if parts == [] then []
    else if parts[0] == [] then NonEmpty(parts[1..])
    else [parts[0]] + NonEmpty(parts[1..])
  }

  /** The non-empty lines of `data`, as `TxBlock.is_valid` reads them. */
  function Fragments(data: Bytes): (fragments: seq<Bytes>)
    ensures forall i :: 0 <= i < |fragments| ==> fragments[i] != [] && NL !in fragments[i]
  {
    SplitPiecesHaveNoNewline(data);
    NonEmpty(Split(data))
  }

  /** Each line followed by a newline, one after the other: what `add_tx` calls append. */
  function Frame(lines: seq<Bytes>): Bytes
  {
    if lines == [] then []
    else Frame(lines[..|lines| - 1]) + (lines[|lines| - 1] + [NL])
  }

  /** No piece contains a newline. */
  lemma {:induction false} SplitPiecesHaveNoNewline(s: Bytes)
    ensures forall i :: 0 <= i < |Split(s)| ==> NL !in Split(s)[i]
  {
    if s != [] {
      SplitPiecesHaveNoNewline(s[1..]);
    }
  }

  /** Splitting and joining again gives back the original bytes. */
  lemma {:induction false} JoinSplit(s: Bytes)
    ensures Join(Split(s)) == s
  {
    if s != [] {
      JoinSplit(s[1..]);
      var rest := Split(s[1..]);
      if s[0] == NL {
        assert ([[]] + rest)[1..] == rest;
      } else if |rest| == 1 {
        assert s == [s[0]] + s[1..];
      } else {
        var parts := [[s[0]] + rest[0]] + rest[1..];
        assert parts[1..] == rest[1..];
        assert Join(rest) == rest[0] + [NL] + Join(rest[1..]);
        assert s == [s[0]] + s[1..];
      }
    }
  }

  /** A newline-free prefix glues onto the first piece of what follows it. */
  lemma {:induction false} SplitPrefix(f: Bytes, rest: Bytes)
    requires NL !in f
    ensures Split(f + rest) == [f + Split(rest)[0]] + Split(rest)[1..]
  {
    if f != [] {
      var s := f + rest;
      assert s[0] == f[0] && f[0] != NL;
      assert s[1..] == f[1..] + rest;
      SplitPrefix(f[1..], rest);
      var r := Split(s[1..]);
      var q := Split(rest);
      assert r[0] == f[1..] + q[0] && r[1..] == q[1..];
      assert Split(s) == [[f[0]] + r[0]] + r[1..];
      assert [f[0]] + (f[1..] + q[0]) == f + q[0];
    } else {
      var q := Split(rest);
      assert f + rest == rest && f + q[0] == q[0];
      assert q == [q[0]] + q[1..];
    }
  }

  /** Splitting newline-free pieces joined by newlines gives back the pieces. */
  lemma {:induction false} SplitJoin(parts: seq<Bytes>)
    requires |parts| >= 1
    requires forall i :: 0 <= i < |parts| ==> NL !in parts[i]
    ensures Split(Join(parts)) == parts
  {
    if |parts| == 1 {
      SplitPrefix(parts[0], []);
      assert parts[0] + [] == parts[0] && Split([]) == [[]];
      assert [parts[0] + Split([])[0]] + Split([])[1..] == parts;
    } else {
      SplitJoin(parts[1..]);
      var tail := [NL] + Join(parts[1..]);
      assert parts[0] + [NL] + Join(parts[1..]) == parts[0] + tail;
      SplitPrefix(parts[0], tail);
      assert tail[0] == NL && tail[1..] == Join(parts[1..]);
      var q := Split(tail);
      assert q == [[]] + parts[1..];
      assert q[0] == [] && q[1..] == parts[1..];
      assert parts[0] + q[0] == parts[0];
      assert parts == [parts[0]] + parts[1..];
    }
  }

  /** Data that is empty or ends in a newline splits into pieces the last of which is empty. */
  lemma {:induction false} SplitEndsEmpty(s: Bytes)
    requires s == [] || s[|s| - 1] == NL
    ensures Split(s)[|Split(s)| - 1] == []
    ensures s != [] ==> |Split(s)| >= 2
  {
    if s != [] {
      if |s| == 1 {
        assert s[1..] == [] && s[0] == NL;
      } else {
        assert s[1..][|s| - 2] == s[|s| - 1];
        SplitEndsEmpty(s[1..]);
      }
    }
  }

  /** Framing distributes over concatenation. */
  lemma {:induction false} FrameAppend(a: seq<Bytes>, b: seq<Bytes>)
    ensures Frame(a + b) == Frame(a) + Frame(b)
  {
    if b == [] {
      assert a + b == a;
    } else {
      var init := b[..|b| - 1];
      var last := b[|b| - 1];
      FrameAppend(a, init);
      assert (a + b)[..|a + b| - 1] == a + init && (a + b)[|a + b| - 1] == last;
      assert Frame(a + b) == Frame(a) + Frame(init) + (last + [NL]);
    }
  }

  /** Joining pieces followed by one empty piece is framing them. */
  lemma {:induction false} JoinIsFrame(front: seq<Bytes>)
    ensures Join(front + [[]]) == Frame(front)
  {
    if front != [] {
      var rest := front[1..];
      assert (front + [[]])[1..] == rest + [[]];
      JoinIsFrame(rest);
      FrameAppend([front[0]], rest);
      assert [front[0]] + rest == front;
      assert Frame([front[0]]) == front[0] + [NL] by {
        assert [front[0]][..0] == [];
      }
    } else {
      assert front + [[]] == [[]];
    }
  }

  /** Dropping the empty pieces distributes over concatenation. */
  lemma {:induction false} NonEmptyConcat(xs: seq<Bytes>, ys: seq<Bytes>)
    ensures NonEmpty(xs + ys) == NonEmpty(xs) + NonEmpty(ys)
  {
    if xs == [] {
      assert xs + ys == ys;
    } else {
      assert (xs + ys)[0] == xs[0] && (xs + ys)[1..] == xs[1..] + ys;
      NonEmptyConcat(xs[1..], ys);
    }
  }

  /** Pieces that are all non-empty are all kept. */
  lemma {:induction false} NonEmptyKeepsAll(parts: seq<Bytes>)
    requires forall i :: 0 <= i < |parts| ==> parts[i] != []
    ensures NonEmpty(parts) == parts
  {
    if parts != [] {
      NonEmptyKeepsAll(parts[1..]);
    }
  }

  /** No piece holds a newline. */
  ghost predicate NoNewline(parts: seq<Bytes>)
  {
    forall i :: 0 <= i < |parts| ==> NL !in parts[i]
  }

  lemma NoNewlineConcat(xs: seq<Bytes>, ys: seq<Bytes>)
    requires NoNewline(xs) && NoNewline(ys)
    ensures NoNewline(xs + ys)
  {
    forall i | 0 <= i < |xs + ys|
      ensures NL !in (xs + ys)[i]
    {
      if i >= |xs| {
        assert (xs + ys)[i] == ys[i - |xs|];
      }
    }
  }

  /** Kept pieces before a final empty piece, then non-empty lines: the lines are all kept. */
  lemma NonEmptyFramed(front: seq<Bytes>, lines: seq<Bytes>)
    requires forall i :: 0 <= i < |lines| ==> lines[i] != []
    ensures NonEmpty(front + lines + [[]]) == NonEmpty(front + [[]]) + lines
  {
    assert NonEmpty([[]]) == [];
    NonEmptyConcat(front + lines, [[]]);
    NonEmptyConcat(front, lines);
    NonEmptyConcat(front, [[]]);
    NonEmptyKeepsAll(lines);
  }

  /** Data that is empty or ends in a newline is the frame of its pieces but the last, empty one. */
  lemma DataIsFrame(data: Bytes)
    requires data == [] || data[|data| - 1] == NL
    ensures var ps := Split(data);
      && ps == ps[..|ps| - 1] + [[]]
      && data == Frame(ps[..|ps| - 1])
  {
    var ps := Split(data);
    var front := ps[..|ps| - 1];
    SplitEndsEmpty(data);
    assert ps == front + [[]];
    JoinSplit(data);
    JoinIsFrame(front);
  }

  /** The pieces of data that is empty or ends in a newline, with newline-free lines framed after it. */
  lemma SplitFramed(data: Bytes, lines: seq<Bytes>)
    requires data == [] || data[|data| - 1] == NL
    requires NoNewline(lines)
    ensures var ps := Split(data);
      && ps == ps[..|ps| - 1] + [[]]
      && Split(data + Frame(lines)) == ps[..|ps| - 1] + lines + [[]]
  {
    var ps := Split(data);
    var front := ps[..|ps| - 1];
    DataIsFrame(data);
    var all := front + lines + [[]];
    assert data + Frame(lines) == Join(all) by {
      FrameAppend(front, lines);
      JoinIsFrame(front + lines);
    }
    assert NoNewline(all) by {
      SplitPiecesHaveNoNewline(data);
      assert NoNewline(front) by {
        forall i | 0 <= i < |front| ensures NL !in front[i] {
          assert front[i] == ps[i];
        }
      }
      NoNewlineConcat(front, lines);
      NoNewlineConcat(front + lines, [[]]);
    }
    SplitJoin(all);
  }

  /**
   * Framing non-empty, newline-free lines after data that is empty or ends in a newline
   * adds exactly those lines, in order, to the fragments.
   */
  lemma FrameFragments(data: Bytes, lines: seq<Bytes>)
    requires data == [] || data[|data| - 1] == NL
    requires forall i :: 0 <= i < |lines| ==> lines[i] != [] && NL !in lines[i]
    ensures Fragments(data + Frame(lines)) == Fragments(data) + lines
  {
    var ps := Split(data);
    var front := ps[..|ps| - 1];
    assert NoNewline(lines);
    SplitFramed(data, lines);
    NonEmptyFramed(front, lines);
  }
}
