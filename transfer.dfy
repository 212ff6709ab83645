/**
 * What the STOR and RETR loops move: a file read 1024 bytes at a time,
 * and what the destination of an upload holds once chunks are written
 * over it from offset 0.  Also the messages a session sends: control
 * replies as text, and the file chunks RETR sends as they were read.
 */
module Transfer {
  import opened Host

  /** The size of the buffer every read of STOR and RETR asks for. */
  const ChunkSize: nat := 1024

  /** One `send` to the client. */
  datatype Msg = Text(text: string) | Data(bytes: Bytes)

  function Flatten(cs: seq<Bytes>): Bytes {
    if cs == [] then [] else cs[0] + Flatten(cs[1..])
  }

  /** The pieces in which successive reads of ChunkSize bytes return `d`. */
  function Chunks(d: Bytes): seq<Bytes>
    decreases |d|
  {
    if d == [] then []
    else if |d| <= ChunkSize then [d]
    else [d[..ChunkSize]] + Chunks(d[ChunkSize..])
  }

  /**
   * The chunks are all full but the last, none is empty, there are
   * |d| / ChunkSize of them rounded up, and together they are exactly `d`.
   */
  lemma {:induction false} ChunksSound(d: Bytes)
    ensures Flatten(Chunks(d)) == d
    ensures forall i :: 0 <= i < |Chunks(d)| ==> 0 < |Chunks(d)[i]| <= ChunkSize
    ensures forall i :: 0 <= i < |Chunks(d)| - 1 ==> |Chunks(d)[i]| == ChunkSize
    ensures |Chunks(d)| == (|d| + ChunkSize - 1) / ChunkSize
    decreases |d|
  {
    if |d| > ChunkSize {
      var rest := d[ChunkSize..];
      ChunksSound(rest);
      var r := Chunks(d);
      assert r == [d[..ChunkSize]] + Chunks(rest);
      assert r[1..] == Chunks(rest);
      assert d[..ChunkSize] + rest == d;
      forall i | 0 < i < |r| ensures r[i] == Chunks(rest)[i - 1] { }
    }
  }

  /**
   * Reading on from a chunk boundary adds the next read to the chunks
   * already read.
   */
  lemma {:induction false} ChunksExtend(d: Bytes, off: nat, c: nat)
    requires off % ChunkSize == 0 && 0 < c <= ChunkSize && off + c <= |d|
    ensures Chunks(d[..off + c]) == Chunks(d[..off]) + [d[off..off + c]]
    decreases off
  {
    if off == 0 {
      assert d[..off] == [];
      assert d[off..off + c] == d[..off + c];
    } else {
      var d' := d[ChunkSize..];
      ChunksExtend(d', off - ChunkSize, c);
      assert d[..off + c][..ChunkSize] == d[..ChunkSize];
      assert d[..off + c][ChunkSize..] == d'[..off - ChunkSize + c];
      assert Chunks(d[..off + c]) == [d[..ChunkSize]] + Chunks(d'[..off - ChunkSize + c]);
      assert d'[off - ChunkSize..off - ChunkSize + c] == d[off..off + c];
      if off == ChunkSize {
        assert Chunks(d[..off]) == [d[..ChunkSize]];
        assert d'[..off - ChunkSize] == [];
      } else {
        assert d[..off][..ChunkSize] == d[..ChunkSize];
        assert d[..off][ChunkSize..] == d'[..off - ChunkSize];
      }
    }
  }

  /**
   * A read of up to ChunkSize bytes at a chunk boundary of `d` returns
   * the next chunk: it either ends the data or lands on the next boundary,
   * and it extends the chunks read so far.  An empty read happens only at
   * the end.
   */
  lemma ReadStep(d: Bytes, off: nat, chunk: Bytes)
    requires off <= |d| && (off % ChunkSize == 0 || off == |d|)
    requires off + |chunk| <= |d| && chunk == d[off..off + |chunk|]
    requires |chunk| <= ChunkSize && (|chunk| == ChunkSize || off + |chunk| == |d|)
    ensures chunk == [] ==> off == |d| && d[..off] == d
    ensures chunk != [] ==>
      ((off + |chunk|) % ChunkSize == 0 || off + |chunk| == |d|) &&
      Chunks(d[..off + |chunk|]) == Chunks(d[..off]) + [chunk]
  {
    if chunk != [] {
      ChunksExtend(d, off, |chunk|);
      if |chunk| == ChunkSize { NextBoundary(off); }
    } else {
      assert d[..|d|] == d;
    }
  }

  /** A full chunk read from a chunk boundary ends on the next boundary. */
  lemma NextBoundary(off: nat)
    requires off % ChunkSize == 0
    ensures (off + ChunkSize) % ChunkSize == 0
  {
  }

  /** One Data message per chunk, in order. */
  function AsData(cs: seq<Bytes>): seq<Msg> {
    if cs == [] then [] else AsData(cs[..|cs| - 1]) + [Data(cs[|cs| - 1])]
  }

  lemma AsDataSnoc(cs: seq<Bytes>, c: Bytes)
    ensures AsData(cs + [c]) == AsData(cs) + [Data(c)]
  {
    assert (cs + [c])[..|cs|] == cs;
  }

  /** The bytes a client receives in the Data messages of `ms`. */
  function Payload(ms: seq<Msg>): Bytes {
    if ms == [] then []
    else (if ms[0].Data? then ms[0].bytes else []) + Payload(ms[1..])
  }

  lemma {:induction false} PayloadAppend(a: seq<Msg>, b: seq<Msg>)
    ensures Payload(a + b) == Payload(a) + Payload(b)
    decreases |a|
  {
    if a != [] {
      assert (a + b)[0] == a[0] && (a + b)[1..] == a[1..] + b;
      PayloadAppend(a[1..], b);
    } else {
      assert a + b == b;
    }
  }

  lemma {:induction false} FlattenSnoc(cs: seq<Bytes>, c: Bytes)
    ensures Flatten(cs + [c]) == Flatten(cs) + c
    decreases |cs|
  {
    if cs == [] {
      assert cs + [c] == [c];
    } else {
      assert (cs + [c])[0] == cs[0] && (cs + [c])[1..] == cs[1..] + [c];
      FlattenSnoc(cs[1..], c);
    }
  }

  lemma {:induction false} PayloadAsData(cs: seq<Bytes>)
    ensures Payload(AsData(cs)) == Flatten(cs)
    decreases |cs|
  {
    if cs != [] {
      var init, c := cs[..|cs| - 1], cs[|cs| - 1];
      assert cs == init + [c];
      PayloadAsData(init);
      PayloadAppend(AsData(init), [Data(c)]);
      assert Payload([Data(c)]) == c + Payload([]);
      FlattenSnoc(init, c);
    }
  }

  /** What RETR sends for a file, put back together, is the file. */
  lemma PayloadOfChunks(d: Bytes)
    ensures Payload(AsData(Chunks(d))) == d
  {
    PayloadAsData(Chunks(d));
    ChunksSound(d);
  }

  /** `n` copies of the message `m`. */
  function Repeat(m: Msg, n: nat): (r: seq<Msg>)
    ensures |r| == n
  {
    if n == 0 then [] else Repeat(m, n - 1) + [m]
  }

  /**
   * A file that held `prior` after `d` is written over it from offset 0
   * without truncation: `d`, then whatever of `prior` lies beyond it.
   */
  function Overlay(prior: Bytes, d: Bytes): (r: Bytes)
    ensures |r| == if |d| < |prior| then |prior| else |d|
    ensures r[..|d|] == d
    ensures forall i :: |d| <= i < |prior| ==> r[i] == prior[i]
  {
    d + (if |d| < |prior| then prior[|d|..] else [])
  }

  /** Writing the next piece of `src` at its offset extends the written prefix. */
  lemma OverlayStep(prior: Bytes, src: Bytes, off: nat, c: nat)
    requires off + c <= |src|
    ensures off <= |Overlay(prior, src[..off])|
    ensures Splice(Overlay(prior, src[..off]), off, src[off..off + c]) == Overlay(prior, src[..off + c])
  {
    var before := Overlay(prior, src[..off]);
    var after := Splice(before, off, src[off..off + c]);
    var want := Overlay(prior, src[..off + c]);
    assert |after| == |want|;
    forall i | 0 <= i < |after| ensures after[i] == want[i] {
      if i < off {
        assert after[i] == after[..off][i] == before[..off][i] == before[i];
        assert before[i] == before[..off][i] == src[..off][i];
        assert want[i] == want[..off + c][i];
      } else if i < off + c {
        assert after[i] == after[off..off + c][i - off];
        assert want[i] == want[..off + c][i];
      }
    }
  }

  /** Copying a file onto itself leaves it as it was. */
  lemma OverlaySelf(d: Bytes, k: nat)
    requires k <= |d|
    ensures Overlay(d, d[..k]) == d
  {
    assert d[..k] + d[k..] == d;
  }

  /** When the destination was no longer than the source, it ends up equal to it. */
  lemma OverlayShorter(prior: Bytes, d: Bytes)
    requires |prior| <= |d|
    ensures Overlay(prior, d) == d
  {
  }

  /** A longer destination keeps its tail: the upload does not make it equal to the source. */
  lemma OverlayLonger(prior: Bytes, d: Bytes)
    requires |d| < |prior|
    ensures Overlay(prior, d) != d && Overlay(prior, d) == d + prior[|d|..]
  {
  }
}
