// Peek, then stream (router/proxy.go:177-200, 292-319): the reader is one-shot, so what the peek
// consumes has to be written before the rest is copied.
module Peek {
  import opened GoTypes

  type byte = n: int | 0 <= n < 256

  const MAX_PEEK_BYTES := 4096
  const COPY_BYTES := 32768

  function Concat(pieces: seq<seq<byte>>): seq<byte> {
    if pieces == [] then [] else pieces[0] + Concat(pieces[1..])
  }

  function Min(a: nat, b: nat): (r: nat)
    ensures r <= a && r <= b && (r == a || r == b)
  {
    if a <= b then a else b
  }

  /** Whether a read was the last: not yet, by the end of the body, or by an error of the connection. */
  datatype End = Open | EOF | ReadError

  /** A one-shot stream: each read delivers at most the next piece, which may be empty, and the stream
      ends in EOF or in an error, together with the last bytes (eager) or after them. */
  class Reader {
    var pieces: seq<seq<byte>>
    const broken: bool
    const eager: bool

    /** All the bytes still to be delivered. */
    function Rest(): seq<byte>
      reads this
    {
      Concat(pieces)
    }

    constructor (pieces: seq<seq<byte>>, broken: bool, eager: bool)
      ensures Rest() == Concat(pieces) && this.broken == broken && this.eager == eager
    {
      this.pieces, this.broken, this.eager := pieces, broken, eager;
    }

    /** How the stream ends. */
    function Ending(): End {
      if broken then ReadError else EOF
    }

    method Read(max: nat) returns (chunk: seq<byte>, end: End)
      requires max > 0
      modifies this
      ensures old(Rest()) == chunk + Rest() && |chunk| <= max
      ensures !end.Open? ==> pieces == [] && end == Ending()
      ensures end.Open? ==> |pieces| < |old(pieces)| || (|pieces| == |old(pieces)| && |chunk| == max)
    {
      if pieces == [] {
        return [], Ending();
      }
      var piece := pieces[0];
      if |piece| <= max {
        pieces := pieces[1..];
        return piece, if eager && pieces == [] then Ending() else Open;
      }
      chunk := piece[..max];
      pieces := [piece[max..]] + pieces[1..];
      assert piece == chunk + piece[max..];
      return chunk, Open;
    }
  }

  /** The client's side: it takes a limited number of bytes, or any number. */
  class Writer {
    var out: seq<byte>
    var room: Option<nat>

    function Accepted(n: nat): (k: nat)
      reads this
      ensures k <= n && (k == n || room == Some(k))
      ensures room.Some? ==> k <= room.value
    {
      if room.None? then n else Min(room.value, n)
    }

    constructor (room: Option<nat>)
      ensures out == [] && this.room == room
    {
      out, this.room := [], room;
    }

    method Write(p: seq<byte>) returns (ok: bool)
      modifies this
      ensures out == old(out) + p[..old(Accepted(|p|))]
      ensures ok <==> old(Accepted(|p|)) == |p|
      ensures room == if old(room).None? then None else Some(old(room).value - old(Accepted(|p|)))
    {
      var k := Accepted(|p|);
      out := out + p[..k];
      if room.Some? {
        room := Some(room.value - k);
      }
      return k == |p|;
    }
  }

  /** io.ReadFull: fill the buffer, however short the reads are. A full buffer is no error, whatever comes
      after it; otherwise the error tells how the stream ended. */
  method ReadFull(r: Reader, buf: array<byte>) returns (n: nat, end: End)
    modifies r, buf
    ensures n == Min(buf.Length, |old(r.Rest())|)
    ensures buf[..n] == old(r.Rest())[..n]
    ensures r.Rest() == old(r.Rest())[n..]
    ensures end == if n == buf.Length then Open else r.Ending()
  {
    n, end := 0, Open;
    ghost var all := r.Rest();
    while n < buf.Length && end.Open?
      invariant n <= buf.Length
      invariant all == buf[..n] + r.Rest()
      invariant !end.Open? ==> r.pieces == [] && end == r.Ending()
      decreases |r.pieces| + buf.Length - n, end.Open?
    {
      var chunk;
      label before:
      chunk, end := r.Read(buf.Length - n);
      forall k | 0 <= k < |chunk| {
        buf[n + k] := chunk[k];
      }
      assert buf[..n] == old@before(buf[..n]);
      assert buf[..n + |chunk|] == buf[..n] + chunk;
      n := n + |chunk|;
    }
    if n == buf.Length {
      end := Open;
    }
  }

  /** Decoding the error member of a response: its code, if the bytes are JSON and have one. */
  type Parser = seq<byte> -> Option<int>

  /** The JSON-RPC error code a body is seen to carry. */
  function ErrorCode(parse: Parser, body: seq<byte>): Option<int> {
    if 0 < |body| < MAX_PEEK_BYTES then parse(body) else None
  }

  /** No error is missed in this body, and none made up. */
  predicate CodeSeen(parse: Parser, body: seq<byte>, code: Option<int>) {
    code == parse(body)
  }

  /** For a decoder that, like every JSON decoder, finds nothing in no bytes: the code of a body is seen
      exactly if the body ends inside the window or carries none. */
  lemma ErrorsSeenInWindow(parse: Parser, body: seq<byte>)
    requires parse([]) == None
    ensures CodeSeen(parse, body, ErrorCode(parse, body)) <==> |body| < 4096 || parse(body) == None
  {
    assert |body| == 0 ==> body == [];
  }

  /** An error response that fills the window exactly is missed, although the peek has read all of it. */
  lemma MissedAtWindow(parse: Parser, body: seq<byte>)
    requires |body| == 4096 && parse([]) == None && parse(body).Some?
    ensures ErrorCode(parse, body) == None && Min(MAX_PEEK_BYTES, |body|) == |body|
  {
    ErrorsSeenInWindow(parse, body);
  }

  /** The peek consumes a window from the front and parses only what ends inside it. The error of the
      reader is dropped: a body that breaks off is parsed like one that is complete. */
  method PeekRPCError(r: Reader, parse: Parser) returns (consumed: seq<byte>, code: Option<int>)
    modifies r
    ensures old(r.Rest()) == consumed + r.Rest()
    ensures |consumed| == if |old(r.Rest())| < 4096 then |old(r.Rest())| else 4096
    ensures code == ErrorCode(parse, old(r.Rest()))
    ensures parse([]) == None ==>
            (CodeSeen(parse, old(r.Rest()), code) <==> |old(r.Rest())| < 4096 || parse(old(r.Rest())) == None)
  {
    var buf := new byte[MAX_PEEK_BYTES];
    var n, _ := ReadFull(r, buf);
    consumed := buf[..n];
    if parse([]) == None {
      ErrorsSeenInWindow(parse, old(r.Rest()));
    }
    if n == 0 || n == MAX_PEEK_BYTES {
      return consumed, None;
    }
    assert consumed == old(r.Rest());
    return consumed, parse(consumed);
  }

  /** io.Copy: stream until the reader ends or the writer refuses; only the end of the body is no error. */
  method Copy(w: Writer, r: Reader) returns (ok: bool)
    modifies w, r
    ensures w.out == old(w.out) + old(r.Rest())[..old(w.Accepted(|r.Rest()|))]
    ensures ok <==> old(w.Accepted(|r.Rest()|)) == |old(r.Rest())| && !r.broken
  {
    var end := Open;
    ghost var all := r.Rest();
    ghost var done: nat := 0;
    ghost var room := w.room;
    while end.Open?
      invariant done <= |all| && r.Rest() == all[done..]
      invariant w.out == old(w.out) + all[..done]
      invariant w.room == if room.None? then None else Some(room.value - done)
      invariant room.Some? ==> done <= room.value
      invariant !end.Open? ==> r.pieces == [] && end == r.Ending()
      decreases |r.pieces| + |r.Rest()|, end.Open?
    {
      var chunk;
      chunk, end := r.Read(COPY_BYTES);
      assert all[done..] == chunk + r.Rest();
      assert all[..done] + chunk == all[..done + |chunk|];
      if |chunk| > 0 {
        var took := w.Write(chunk);
        if !took {
          ghost var k := room.value - done;
          assert chunk[..k] == all[done..][..k] && all[..done] + all[done..][..k] == all[..room.value];
          return false;
        }
        assert chunk[..|chunk|] == chunk;
      }
      done := done + |chunk|;
    }
    assert all[..done] == all;
    return end.EOF?;
  }

  /** Main result: for every body, every way of splitting it into reads and every client, the client
      receives what was delivered, cut only where the client stopped taking bytes; and the relay ends
      without an error exactly if the client took it all and the stream did not break off, even if it broke
      off inside the window. */
  method Relay(w: Writer, r: Reader, parse: Parser) returns (code: Option<int>, ok: bool)
    modifies w, r
    ensures w.out == old(w.out) + old(r.Rest())[..old(w.Accepted(|r.Rest()|))]
    ensures code == ErrorCode(parse, old(r.Rest()))
    ensures ok <==> old(w.Accepted(|r.Rest()|)) == |old(r.Rest())| && !r.broken
  {
    ghost var all := r.Rest();
    var peeked;
    peeked, code := PeekRPCError(r, parse);
    ghost var rest := r.Rest();
    ok := w.Write(peeked);
    if ok {
      ghost var k := w.Accepted(|rest|);
      ok := Copy(w, r);
      assert peeked[..|peeked|] == peeked && all[..|peeked| + k] == peeked + rest[..k];
    } else {
      assert all[..old(w.Accepted(|all|))] == peeked[..old(w.Accepted(|peeked|))];
    }
  }
}
