/** The streaming response path: chunks are forwarded as they arrive, and the stream is cut off as
    soon as the text seen so far is to be blocked. */
module ProxyStream {
  import opened ByteStrings

  datatype Item = Chunk(bytes: Bytes) | Failure

  /** All bytes of a list of chunks. */
  function Text(chunks: seq<Bytes>): (r: Bytes) {
    if chunks == [] then "" else Text(chunks[..|chunks| - 1]) + chunks[|chunks| - 1]
  }

  /** The chunks that arrive before the stream ends or fails. */
  function Arriving(items: seq<Item>): (chunks: seq<Bytes>)
    ensures |chunks| <= |items|
    ensures forall i :: 0 <= i < |chunks| ==> items[i] == Chunk(chunks[i])
    ensures |chunks| < |items| ==> items[|chunks|].Failure?
  {
    if items == [] || items[0].Failure? then [] else [items[0].bytes] + Arriving(items[1..])
  }

  /** The text after the first `n` chunks is to be blocked. */
  predicate BlockedAt(blocks: Bytes -> bool, chunks: seq<Bytes>, n: nat)
    requires n <= |chunks|
  {
    n > 0 && blocks(Text(chunks[..n]))
  }

  /** What the client, the audit log and the metrics get from a stream. */
  datatype Outcome = Outcome(forwarded: seq<Bytes>, cut: bool, seen: Bytes, endsInError: bool)

  /** The promise: exactly the longest prefix of whole chunks that never was to be blocked is
      forwarded, and the body ends in an error if and only if a chunk was withheld. */
  ghost predicate Correct(scan: bool, blocks: Bytes -> bool, items: seq<Item>, o: Outcome) {
    var chunks, n := Arriving(items), |o.forwarded|;
    && n <= |chunks| && o.forwarded == chunks[..n]
    && (scan ==> CleanTo(blocks, chunks, n))
    && (o.cut ==> scan && n < |chunks| && BlockedAt(blocks, chunks, n + 1))
    && (!o.cut ==> n == |chunks|)
    && o.seen == (if !scan then "" else if o.cut then Text(chunks[..n + 1]) else Text(chunks))
    && o.endsInError == o.cut
  }

  /** `stream_response`; `blocks` is the monitor's verdict on the bytes seen so far. */
  method StreamResponse(scan: bool, blocks: Bytes -> bool, items: seq<Item>) returns (o: Outcome)
    ensures Correct(scan, blocks, items, o)
  {
    ghost var chunks := Arriving(items);
    var forwarded, seen, cut := [], "", false;
    for i := 0 to |items|
      invariant !cut && i <= |chunks| && forwarded == chunks[..i] && seen == if scan then Text(chunks[..i]) else ""
      invariant scan ==> CleanTo(blocks, chunks, i)
    {
      if items[i].Failure? {
        break;
      }
      NextChunk(chunks, i);
      if scan {
        seen := seen + items[i].bytes;
        if blocks(seen) {
          cut := true;
          CutShort(blocks, items, i);
          break;
        }
        CleanNext(blocks, chunks, i);
      }
      forwarded := forwarded + [items[i].bytes];
    }
    o := Outcome(forwarded, cut, seen, cut);
    if !cut {
      ForwardedAll(scan, blocks, items, o);
    }
  }

  /** No text up to `n` chunks was to be blocked. */
  ghost predicate CleanTo(blocks: Bytes -> bool, chunks: seq<Bytes>, n: nat)
    requires n <= |chunks|
  {
    forall k :: 0 <= k <= n ==> !BlockedAt(blocks, chunks, k)
  }

  lemma CleanNext(blocks: Bytes -> bool, chunks: seq<Bytes>, n: nat)
    requires n < |chunks| && CleanTo(blocks, chunks, n) && !blocks(Text(chunks[..n + 1]))
    ensures CleanTo(blocks, chunks, n + 1)
  {
  }

  lemma CutShort(blocks: Bytes -> bool, items: seq<Item>, n: nat)
    requires n < |Arriving(items)| && CleanTo(blocks, Arriving(items), n) && blocks(Text(Arriving(items)[..n + 1]))
    ensures Correct(true, blocks, items, Outcome(Arriving(items)[..n], true, Text(Arriving(items)[..n + 1]), true))
  {
  }

  lemma ForwardedAll(scan: bool, blocks: Bytes -> bool, items: seq<Item>, o: Outcome)
    requires !o.cut && !o.endsInError && |o.forwarded| == |Arriving(items)| && o.forwarded == Arriving(items)[..|o.forwarded|]
    requires o.seen == if scan then Text(o.forwarded) else ""
    requires scan ==> CleanTo(blocks, Arriving(items), |o.forwarded|)
    ensures Correct(scan, blocks, items, o)
  {
    assert o.forwarded == Arriving(items);
  }

  lemma NextChunk(chunks: seq<Bytes>, i: nat)
    requires i < |chunks|
    ensures chunks[..i + 1] == chunks[..i] + [chunks[i]] && Text(chunks[..i + 1]) == Text(chunks[..i]) + chunks[i]
  {
    assert chunks[..i + 1][..i] == chunks[..i];
  }

  lemma NotShorter(scan: bool, blocks: Bytes -> bool, items: seq<Item>, o: Outcome, o': Outcome)
    requires Correct(scan, blocks, items, o) && Correct(scan, blocks, items, o')
    ensures |o.forwarded| >= |o'.forwarded|
  {
  }

  /** The promise settles the outcome. */
  lemma OutcomeDetermined(scan: bool, blocks: Bytes -> bool, items: seq<Item>, o: Outcome, o': Outcome)
    requires Correct(scan, blocks, items, o) && Correct(scan, blocks, items, o')
    ensures o == o'
  {
    NotShorter(scan, blocks, items, o, o');
    NotShorter(scan, blocks, items, o', o);
  }

  /** The stream is cut off if and only if scanning is on and some prefix of what arrives is to be
      blocked, wherever in it the chunk boundaries fall. */
  lemma CutIffBlocked(scan: bool, blocks: Bytes -> bool, items: seq<Item>, o: Outcome)
    requires Correct(scan, blocks, items, o)
    ensures o.cut <==> scan && exists n :: 0 <= n <= |Arriving(items)| && BlockedAt(blocks, Arriving(items), n)
  {
    if o.cut {
      assert BlockedAt(blocks, Arriving(items), |o.forwarded| + 1);
    }
  }

  /** A threat once seen stays one when more text follows. */
  ghost predicate Lasting(blocks: Bytes -> bool) {
    forall a: Bytes, b: Bytes :: blocks(a) ==> blocks(a + b)
  }

  lemma {:induction false} TextAppend(chunks: seq<Bytes>, n: nat) returns (rest: Bytes)
    requires n <= |chunks|
    ensures Text(chunks) == Text(chunks[..n]) + rest
    decreases |chunks|
  {
    if n == |chunks| {
      assert chunks[..n] == chunks;
      rest := "";
    } else {
      var front := chunks[..|chunks| - 1];
      rest := TextAppend(front, n);
      assert front[..n] == chunks[..n];
      assert Text(chunks[..n]) + (rest + chunks[|chunks| - 1]) == (Text(chunks[..n]) + rest) + chunks[|chunks| - 1];
      rest := rest + chunks[|chunks| - 1];
    }
  }

  /** Against the buffered path, which blocks the whole response or forwards all of it: a stream that
      was not cut would have passed there too, and if threats last the two agree on every response. */
  lemma AgreesWithBuffering(blocks: Bytes -> bool, items: seq<Item>, o: Outcome)
    requires Correct(true, blocks, items, o) && Arriving(items) != []
    ensures !o.cut ==> !blocks(Text(Arriving(items))) && Text(o.forwarded) == Text(Arriving(items))
    ensures Lasting(blocks) ==> (o.cut <==> blocks(Text(Arriving(items))))
  {
    var chunks := Arriving(items);
    assert chunks[..|chunks|] == chunks;
    if !o.cut {
      assert !BlockedAt(blocks, chunks, |chunks|);
    } else {
      var rest := TextAppend(chunks, |o.forwarded| + 1);
    }
  }

  /** With scanning on, what is hashed into the audit entry is what was forwarded plus the withheld
      chunk; with scanning off it is the empty text whatever was forwarded. */
  lemma AuditedText(scan: bool, blocks: Bytes -> bool, items: seq<Item>, o: Outcome)
    requires Correct(scan, blocks, items, o)
    ensures scan && !o.cut ==> o.seen == Text(o.forwarded)
    ensures o.cut ==> o.seen == Text(o.forwarded) + Arriving(items)[|o.forwarded|]
    ensures !scan ==> o.seen == ""
  {
    var chunks, n := Arriving(items), |o.forwarded|;
    if o.cut {
      NextChunk(chunks, n);
    } else {
      assert chunks[..n] == chunks;
    }
  }

  /** The stream is cut off exactly when the buffered path would block the whole response. */
  ghost predicate AgreesOn(blocks: Bytes -> bool, items: seq<Item>, o: Outcome) {
    Correct(true, blocks, items, o) && Arriving(items) != [] ==> (o.cut <==> blocks(Text(Arriving(items))))
  }

  /** Two chunks of which only the first alone is to be blocked: the stream is cut off, the buffered
      response passes. */
  lemma SecondChunkClears(blocks: Bytes -> bool, a: Bytes, b: Bytes)
    requires blocks(a) && !blocks(a + b)
    ensures !AgreesOn(blocks, [Chunk(a), Chunk(b)], Outcome([], true, a, true))
  {
    var items := [Chunk(a), Chunk(b)];
    assert items[1..] == [Chunk(b)] && items[1..][1..] == [];
    assert Arriving([Chunk(b)]) == [b];
    var chunks := Arriving(items);
    assert chunks == [a, b] && chunks[..1] == [a] && [a, b][..1] == [a] && [a][..0] == [];
    assert Text([a]) == Text([]) + a && Text([a, b]) == Text([a]) + b;
    assert Text([a]) == a;
    assert BlockedAt(blocks, chunks, 1) && CleanTo(blocks, chunks, 0);
  }

  /** The two paths agree on every response if and only if threats last. */
  lemma AgreeExactly(blocks: Bytes -> bool)
    ensures (forall items, o :: AgreesOn(blocks, items, o)) <==> Lasting(blocks)
  {
    if Lasting(blocks) {
      forall items, o
        ensures AgreesOn(blocks, items, o)
      {
        if Correct(true, blocks, items, o) && Arriving(items) != [] {
          AgreesWithBuffering(blocks, items, o);
        }
      }
    } else {
      var a: Bytes, b: Bytes :| blocks(a) && !blocks(a + b);
      SecondChunkClears(blocks, a, b);
    }
  }
}
