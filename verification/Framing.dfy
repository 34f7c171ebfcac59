/**
 Length-prefixed framing (worker/warm_pool.py, worker/subprocess_runner.py,
 worker/executor.py): reads may return any nonempty part of what was asked
 for, and nothing only at the end of the stream.
 */
module Framing {
  import opened Jobs

  const LIMIT: nat := 0x1_0000_0000

  /** struct.pack("!I", n). */
  function Pack(n: nat): (b: Bytes)
    requires n < LIMIT
    ensures |b| == 4 && n == b[0] as int * 0x100_0000 + b[1] as int * 0x1_0000 + b[2] as int * 0x100 + b[3] as int
  {
    assert n / 0x1_0000 == n / 0x100 / 0x100 && n / 0x100_0000 == n / 0x100 / 0x100 / 0x100;
    [(n / 0x100_0000) as byte, (n / 0x1_0000 % 0x100) as byte, (n / 0x100 % 0x100) as byte, (n % 0x100) as byte]
  }

  function Unpack(b: Bytes): (n: nat)
    requires |b| == 4
    ensures n < LIMIT
  {
    b[0] as int * 0x100_0000 + b[1] as int * 0x1_0000 + b[2] as int * 0x100 + b[3] as int
  }

  lemma UnpackPack(n: nat)
    requires n < LIMIT
    ensures Unpack(Pack(n)) == n
  {
    var q := n / 0x100;
    var r := q / 0x100;
    assert n / 0x1_0000 == r && n / 0x100_0000 == r / 0x100;
  }

  lemma PackUnpack(b: Bytes)
    requires |b| == 4
    ensures Pack(Unpack(b)) == b
  {
    var n := Unpack(b);
    var q := b[0] as int * 0x1_0000 + b[1] as int * 0x100 + b[2] as int;
    var r := b[0] as int * 0x100 + b[1] as int;
    assert n == q * 0x100 + b[3] as int && q == r * 0x100 + b[2] as int;
    assert n / 0x100 == q && q / 0x100 == r && r / 0x100 == b[0] as int;
    assert n / 0x1_0000 == r && n / 0x100_0000 == b[0] as int;
  }

  // ---- one message -----------------------------------------------------------

  function Encode(payload: Bytes): Bytes
    requires |payload| < LIMIT
  {
    Pack(|payload|) + payload
  }

  /** The first message of a stream and what follows it; None when the stream ends first. */
  function Decode(b: Bytes): Option<(Bytes, Bytes)> {
    if |b| < 4 then None
    else
      var n := Unpack(b[..4]);
      if |b| - 4 < n then None else Some((b[4..4 + n], b[4 + n..]))
  }

  lemma DecodeEncode(payload: Bytes, rest: Bytes)
    requires |payload| < LIMIT
    ensures Decode(Encode(payload) + rest) == Some((payload, rest))
  {
    var b := Encode(payload) + rest;
    assert b[..4] == Pack(|payload|);
    UnpackPack(|payload|);
    assert b[4..4 + |payload|] == payload && b[4 + |payload|..] == rest;
  }

  /** Whatever decodes was encoded so. */
  lemma EncodeDecode(b: Bytes)
    requires Decode(b).Some?
    ensures |Decode(b).value.0| < LIMIT
    ensures b == Encode(Decode(b).value.0) + Decode(b).value.1
  {
    PackUnpack(b[..4]);
    var n := Unpack(b[..4]);
    assert b == b[..4] + b[4..4 + n] + b[4 + n..];
  }

  /** A message cut anywhere does not decode. */
  lemma PrefixFails(payload: Bytes, k: nat)
    requires |payload| < LIMIT && k < |Encode(payload)|
    ensures Decode(Encode(payload)[..k]) == None
  {
    if k >= 4 {
      assert Encode(payload)[..k][..4] == Pack(|payload|);
      UnpackPack(|payload|);
    }
  }

  // ---- a request: function, then arguments -----------------------------------

  function EncodeRequest(fn: Bytes, args: Bytes): Bytes
    requires |fn| < LIMIT && |args| < LIMIT
  {
    Encode(fn) + Encode(args)
  }

  function DecodeRequest(b: Bytes): Option<(Bytes, Bytes, Bytes)> {
    match Decode(b)
    case None => None
    case Some((fn, rest)) =>
      match Decode(rest)
      case None => None
      case Some((args, rest')) => Some((fn, args, rest'))
  }

  lemma RequestRoundTrip(fn: Bytes, args: Bytes, rest: Bytes)
    requires |fn| < LIMIT && |args| < LIMIT
    ensures DecodeRequest(EncodeRequest(fn, args) + rest) == Some((fn, args, rest))
  {
    assert EncodeRequest(fn, args) + rest == Encode(fn) + (Encode(args) + rest);
    DecodeEncode(fn, Encode(args) + rest);
    DecodeEncode(args, rest);
  }

  lemma RequestPrefixFails(fn: Bytes, args: Bytes, k: nat)
    requires |fn| < LIMIT && |args| < LIMIT && k < |EncodeRequest(fn, args)|
    ensures DecodeRequest(EncodeRequest(fn, args)[..k]) == None
  {
    var b := EncodeRequest(fn, args);
    if k < |Encode(fn)| {
      assert b[..k] == Encode(fn)[..k];
      PrefixFails(fn, k);
    } else {
      var m := k - |Encode(fn)|;
      assert b[..k] == Encode(fn) + Encode(args)[..m];
      DecodeEncode(fn, Encode(args)[..m]);
      PrefixFails(args, m);
    }
  }

  // ---- the readers -----------------------------------------------------------

  class Stream {
    var data: Bytes                // what is still to come before the end

    constructor (data: Bytes)
      ensures this.data == data
    {
      this.data := data;
    }

    /** One recv/read call: any nonempty part, nothing only at the end. */
    method Recv(n: nat) returns (chunk: Bytes)
      requires 0 < n
      modifies this
      ensures |chunk| <= n && chunk + data == old(data)
      ensures chunk == [] <==> old(data) == []
    {
      if data == [] {
        return [];
      }
      var k: nat :| 1 <= k <= n && k <= |data|;
      chunk := data[..k];
      data := data[k..];
    }

    /** _recv_exact / _read_exact: None is EOFError, and then the stream is used up. */
    method ReadExact(n: nat) returns (r: Option<Bytes>)
      modifies this
      ensures r.Some? <==> |old(data)| >= n
      ensures r.Some? ==> r.value == old(data)[..n] && data == old(data)[n..]
      ensures r.None? ==> data == []
    {
      var buf: Bytes := [];
      while |buf| < n
        invariant |buf| <= n && buf + data == old(data)
        decreases n - |buf|
      {
        var chunk := Recv(n - |buf|);
        if chunk == [] {
          return None;
        }
        buf := buf + chunk;
      }
      assert old(data)[..n] == buf && old(data)[n..] == data;
      r := Some(buf);
    }

    method RecvMessage() returns (r: Option<Bytes>)
      modifies this
      ensures r.Some? <==> Decode(old(data)).Some?
      ensures r.Some? ==> Decode(old(data)) == Some((r.value, data))
      ensures r.None? ==> data == []
    {
      var head := ReadExact(4);
      if head.None? {
        return None;
      }
      var n := Unpack(head.value);
      assert data == old(data)[4..];
      r := ReadExact(n);
      if r.Some? {
        assert old(data)[4..][..n] == old(data)[4..4 + n] && old(data)[4..][n..] == old(data)[4 + n..];
      }
    }

    method ReadRequest() returns (r: Option<(Bytes, Bytes)>)
      modifies this
      ensures r.Some? <==> DecodeRequest(old(data)).Some?
      ensures r.Some? ==> DecodeRequest(old(data)) == Some((r.value.0, r.value.1, data))
    {
      var fn := RecvMessage();
      if fn.None? {
        return None;
      }
      var args := RecvMessage();
      if args.None? {
        return None;
      }
      r := Some((fn.value, args.value));
    }
  }

  /** _send_message: struct.error, before any byte is written, when the length does not fit. */
  method SendMessage(wire: Stream, payload: Bytes) returns (sent: bool)
    modifies wire
    ensures sent <==> |payload| < LIMIT
    ensures wire.data == if sent then old(wire.data) + Encode(payload) else old(wire.data)
  {
    if |payload| >= LIMIT {
      return false;
    }
    wire.data := wire.data + Pack(|payload|);
    wire.data := wire.data + payload;
    assert wire.data == old(wire.data) + Encode(payload);
    sent := true;
  }
}
