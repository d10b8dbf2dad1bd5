/** Reading and writing messages on byte streams, as the message classes do it. */
module Streams {
  import opened Machine
  import opened Bits
  import opened Wire

  class OutputStream {
    var written: Bytes

    constructor ()
      ensures written == []
    {
      written := [];
    }

    method Write(b: Bytes)
      modifies this
      ensures written == old(written) + b
    {
      written := written + b;
    }
  }

  class InputStream {
    var rest: Bytes

    constructor (buffer: Bytes)
      ensures rest == buffer
    {
      rest := buffer;
    }

    /** A read past the end fails and drains the stream. */
    method TryRead(n: nat) returns (error: bool, b: Bytes)
      modifies this
      ensures error <==> |old(rest)| < n
      ensures !error ==> b == old(rest)[..n] && rest == old(rest)[n..]
      ensures error ==> rest == []
    {
      if |rest| < n {
        error, b, rest := true, [], [];
      } else {
        error, b, rest := false, rest[..n], rest[n..];
      }
    }

    method AtEnd() returns (end: bool)
      modifies this
      ensures end <==> old(rest) == []
    {
      var junk;
      end, junk := TryRead(1);
    }
  }

  // ------------------------------------------------ keepalive

  method SerializeKeepalive(stream: OutputStream, peers: array<Endpoint>)
    modifies stream
    ensures stream.written == old(stream.written) + Encode(Keepalive(peers[..]))
  {
    var i := 0;
    while i < peers.Length
      invariant 0 <= i <= peers.Length
      invariant stream.written == old(stream.written) + EncodePeers(peers[..i])
    {
      stream.Write(peers[i].address);
      stream.Write(Le16(peers[i].port));
      assert peers[..i + 1][..i] == peers[..i];
      i := i + 1;
    }
    assert peers[..i] == peers[..];
  }

  lemma {:induction false} PeersFailOn(s: Bytes, n: nat, m: nat)
    requires n <= m && DecodePeers(s, n).Failed?
    ensures DecodePeers(s, m).Failed?
  {
    if n < m {
      PeersFailOn(s, n, m - 1);
    }
  }

  lemma {:induction false} PeersCount(s: Bytes, n: nat)
    requires DecodePeers(s, n).Got?
    ensures |DecodePeers(s, n).value| == n
  {
    if n > 0 {
      PeersCount(s, n - 1);
    }
  }

  /** The peers are filled in place; a short stream is an error. */
  method DeserializeKeepalive(stream: InputStream, peers: array<Endpoint>) returns (error: bool)
    modifies stream, peers
    ensures error <==> DecodePeers(old(stream.rest), peers.Length).Failed?
    ensures !error ==> DecodePeers(old(stream.rest), peers.Length) == Got(peers[..], stream.rest)
  {
    ghost var s := stream.rest;
    error := false;
    var i := 0;
    while i < peers.Length && !error
      invariant 0 <= i <= peers.Length
      invariant !error ==> DecodePeers(s, i) == Got(peers[..i], stream.rest)
      invariant error ==> DecodePeers(s, peers.Length).Failed?
      decreases peers.Length - i, !error
    {
      ghost var before, left := peers[..i], stream.rest;
      var short, address := stream.TryRead(16);
      var missing, port := true, [];
      if !short {
        missing, port := stream.TryRead(2);
      }
      if !short && !missing {
        peers[i] := Endpoint(address, Un16(port));
        assert port == left[16..18] && stream.rest == left[18..];
        assert peers[..i] == before;
        assert peers[..i + 1] == before + [peers[i]];
        i := i + 1;
      } else {
        error := true;
        PeersFailOn(s, i + 1, peers.Length);
      }
    }
    if !error {
      assert peers[..i] == peers[..];
    }
  }

  // ------------------------------------------------ confirm request

  method SerializeConfirmReq(stream: OutputStream, pairs: seq<RootPair>)
    modifies stream
    ensures stream.written == old(stream.written) + Encode(ConfirmReq(pairs))
  {
    for i := 0 to |pairs|
      invariant stream.written == old(stream.written) + EncodePairs(pairs[..i])
    {
      stream.Write(pairs[i].hash);
      stream.Write(pairs[i].root);
      assert pairs[..i + 1][..i] == pairs[..i];
    }
    assert pairs[..|pairs|] == pairs;
  }

  lemma {:induction false} PairsFailOn(s: Bytes, n: nat, m: nat)
    requires n <= m && DecodePairs(s, n).Failed?
    ensures DecodePairs(s, m).Failed?
  {
    if n < m {
      PairsFailOn(s, n, m - 1);
    }
  }

  lemma NonZeroSnoc(pairs: seq<RootPair>, p: RootPair)
    ensures NonZero(pairs + [p]) == NonZero(pairs) + if ZeroPair(p) then [] else [p]
  {
    assert (pairs + [p])[..|pairs|] == pairs;
  }

  /** `count` is the header's count; zero pairs are dropped, and dropping any of
      them, or having none left, is an error. */
  method DeserializeConfirmReq(stream: InputStream, count: nat) returns (error: bool, rootsHashes: seq<RootPair>)
    modifies stream
    ensures error <==> DecodeConfirmReq(old(stream.rest), count).Failed?
    ensures !error ==> DecodeConfirmReq(old(stream.rest), count) == Got(ConfirmReq(rootsHashes), stream.rest)
  {
    ghost var s := stream.rest;
    rootsHashes := [];
    ghost var read: seq<RootPair> := [];
    var i := 0;
    while i != count
      invariant 0 <= i <= count
      invariant DecodePairs(s, i) == Got(read, stream.rest)
      invariant rootsHashes == NonZero(read)
    {
      ghost var left := stream.rest;
      var short, hash := stream.TryRead(32);
      var missing, root := true, [];
      if !short {
        missing, root := stream.TryRead(32);
      }
      if short || missing {
        PairsFailOn(s, i + 1, count);
        return true, [];
      }
      assert root == left[32..64] && stream.rest == left[64..];
      var pair := RootPair(hash, root);
      NonZeroSnoc(read, pair);
      read := read + [pair];
      if !ZeroPair(pair) {
        rootsHashes := rootsHashes + [pair];
      }
      i := i + 1;
    }
    error := rootsHashes == [] || |rootsHashes| != count;
  }

  // ------------------------------------------------ handshake

  method SerializeHandshake(stream: OutputStream, query: Option<Bytes>, response: Option<Response>)
    modifies stream
    ensures stream.written == old(stream.written) + Encode(Handshake(query, response))
  {
    ghost var start, q, r := stream.written, EncodeQuery(query), EncodeResponse(response);
    if query.Some? {
      stream.Write(query.value);
    }
    assert stream.written == start + q;
    if response.Some? {
      stream.Write(response.value.account);
      stream.Write(response.value.signature);
    }
    assert stream.written == start + q + r;
  }

  method DeserializeHandshake(stream: InputStream, asked: bool, answered: bool)
    returns (error: bool, query: Option<Bytes>, response: Option<Response>)
    modifies stream
    ensures error <==> DecodeHandshake(asked, answered, old(stream.rest)).Failed?
    ensures !error ==>
              DecodeHandshake(asked, answered, old(stream.rest)) == Got(Handshake(query, response), stream.rest)
  {
    error, query, response := false, None, None;
    if asked {
      var short, hash := stream.TryRead(32);
      if short {
        return true, None, None;
      }
      query := Some(hash);
    }
    if answered {
      ghost var left := stream.rest;
      var short, account := stream.TryRead(32);
      if short {
        return true, None, None;
      }
      var missing, signature := stream.TryRead(64);
      if missing {
        return true, None, None;
      }
      assert signature == left[32..96] && stream.rest == left[96..];
      response := Some(Response(account, signature));
    }
  }
}
