/** Byte streams as a reader meets them: in pieces of any size. */
module Readers {
  import opened Bytes

  /** A connection's read side: `chunks` are the pieces still to come; the stream ends after them. */
  class Upstream {
    var chunks: seq<Bytes>

    constructor (chunks: seq<Bytes>)
      ensures this.chunks == chunks
    {
      this.chunks := chunks;
    }

    /** One read into a buffer of `room` bytes; `eof` when nothing is left. */
    method Read(room: nat) returns (c: Bytes, eof: bool)
      requires room > 0
      modifies this
      ensures eof == (old(chunks) == []) && c + Concat(chunks) == Concat(old(chunks))
      ensures eof ==> c == [] && chunks == []
      ensures !eof && |old(chunks)[0]| <= room ==> c == old(chunks)[0] && chunks == old(chunks)[1..]
      ensures !eof && |old(chunks)[0]| > room ==>
        c == old(chunks)[0][..room] && chunks == [old(chunks)[0][room..]] + old(chunks)[1..]
    {
      if chunks == [] { return [], true; }
      eof := false;
      if |chunks[0]| <= room {
        c, chunks := chunks[0], chunks[1..];
      } else {
        ghost var later := Concat(chunks[1..]);
        c, chunks := chunks[0][..room], [chunks[0][room..]] + chunks[1..];
        assert chunks[1..] == old(chunks)[1..];
        assert c + (chunks[0] + later) == old(chunks)[0] + later;
      }
    }

    /** `io.ReadFull`: exactly `n` bytes, or what there was when the stream ended first. */
    method ReadFull(n: nat) returns (b: Bytes, ok: bool)
      modifies this
      ensures b + Concat(chunks) == Concat(old(chunks))
      ensures ok <==> n <= |Concat(old(chunks))|
      ensures if ok then |b| == n else Concat(chunks) == []
    {
      b := [];
      while |b| < n
        invariant |b| <= n && b + Concat(chunks) == Concat(old(chunks))
        decreases n - |b|, |chunks|
      {
        var c, eof := Read(n - |b|);
        if eof { return b, false; }
        b := b + c;
      }
      ok := true;
    }
  }

  /** A connection whose first bytes have already been read: they come first (`PrefixConn`). */
  class PrefixConn {
    var prefix: Bytes
    const conn: Upstream

    ghost function Due(): Bytes
      reads this, conn
    {
      prefix + Concat(conn.chunks)
    }

    constructor (conn: Upstream, prefix: Bytes)
      ensures this.conn == conn && Due() == prefix + Concat(conn.chunks)
    {
      this.conn, this.prefix := conn, prefix;
    }

    method Read(room: nat) returns (c: Bytes, eof: bool)
      requires room > 0
      modifies this, conn
      ensures c + Due() == old(Due())
      ensures if eof then c == [] && Due() == [] else c != [] || |conn.chunks| < |old(conn.chunks)|
    {
      if prefix != [] {
        var n := if room < |prefix| then room else |prefix|;
        c, prefix, eof := prefix[..n], prefix[n..], false;
      } else {
        c, eof := conn.Read(room);
      }
    }
  }
}
