/** Network messages: their payloads as bytes, and the payload length a header
    announces. Multi-byte integers are little-endian. */
module Wire {
  import opened Machine
  import opened Bits

  // ------------------------------------------------ messages

  datatype Endpoint = Endpoint(address: Bytes, port: bv16)

  datatype RootPair = RootPair(hash: Bytes, root: Bytes)

  datatype Response = Response(account: Bytes, signature: Bytes)

  datatype Telemetry = Telemetry(
    signature: Bytes, nodeId: Bytes,
    blockCount: bv64, cementedCount: bv64, uncheckedCount: bv64, accountCount: bv64, bandwidthCap: bv64,
    peerCount: bv32, protocolVersion: bv8, uptime: bv64, genesisBlock: Bytes,
    major: bv8, minor: bv8, patch: bv8, preRelease: bv8, maker: bv8, timestamp: bv64)

  datatype Message =
    | Keepalive(peers: seq<Endpoint>)
    | ConfirmReq(pairs: seq<RootPair>)
    | FrontierReq(start: Bytes, age: bv32, limit: bv32)
    | BulkPull(first: Bytes, last: Bytes, limit: bv32)
    | BulkPullAccount(account: Bytes, minimum: Bytes, flags: bv8)
    | BulkPush
    | Handshake(query: Option<Bytes>, response: Option<Response>)
    | TelemetryReq
    | TelemetryAck(data: Option<Telemetry>)

  const KEEPALIVE: bv8 := 0x2
  const PUBLISH: bv8 := 0x3
  const CONFIRM_REQ: bv8 := 0x4
  const CONFIRM_ACK: bv8 := 0x5
  const BULK_PULL: bv8 := 0x6
  const BULK_PUSH: bv8 := 0x7
  const FRONTIER_REQ: bv8 := 0x8
  const NODE_ID_HANDSHAKE: bv8 := 0x0a
  const BULK_PULL_ACCOUNT: bv8 := 0x0b
  const TELEMETRY_REQ: bv8 := 0x0c
  const TELEMETRY_ACK: bv8 := 0x0d

  const NOT_A_BLOCK: bv16 := 1
  const INVALID_BLOCK: bv16 := 0

  const PEERS: nat := 8
  const TELEMETRY_SIZE: nat := 194

  function Kind(m: Message): bv8 {
    match m
    case Keepalive(_) => KEEPALIVE
    case ConfirmReq(_) => CONFIRM_REQ
    case FrontierReq(_, _, _) => FRONTIER_REQ
    case BulkPull(_, _, _) => BULK_PULL
    case BulkPullAccount(_, _, _) => BULK_PULL_ACCOUNT
    case BulkPush => BULK_PUSH
    case Handshake(_, _) => NODE_ID_HANDSHAKE
    case TelemetryReq => TELEMETRY_REQ
    case TelemetryAck(_) => TELEMETRY_ACK
  }

  predicate IsZero(b: Bytes) { forall i :: 0 <= i < |b| ==> b[i] == 0 }

  predicate ZeroPair(p: RootPair) { IsZero(p.hash) && IsZero(p.root) }

  predicate GoodTelemetry(t: Telemetry) {
    |t.signature| == 64 && |t.nodeId| == 32 && |t.genesisBlock| == 32
  }

  predicate GoodPeer(e: Endpoint) { |e.address| == 16 }

  predicate GoodPair(p: RootPair) { |p.hash| == 32 && |p.root| == 32 }

  /** Messages the classes can hold and their constructors produce. */
  predicate WellFormed(m: Message) {
    match m
    case Keepalive(peers) => |peers| == PEERS && forall e :: e in peers ==> GoodPeer(e)
    case ConfirmReq(pairs) => 1 <= |pairs| <= 15 && forall p :: p in pairs ==> GoodPair(p) && !ZeroPair(p)
    case FrontierReq(start, _, _) => |start| == 32
    case BulkPull(first, last, _) => |first| == 32 && |last| == 32
    case BulkPullAccount(account, minimum, _) => |account| == 32 && |minimum| == 16
    case Handshake(query, response) =>
      && (query.Some? ==> |query.value| == 32)
      && (response.Some? ==> |response.value.account| == 32 && |response.value.signature| == 64)
    case TelemetryAck(data) => data.Some? ==> GoodTelemetry(data.value)
    case _ => true
  }

  /** The extensions the constructors set. */
  function Extensions(m: Message): bv16 {
    match m
    case ConfirmReq(pairs) =>
      if |pairs| < 16 then SetCount(SetBlockType(0, NOT_A_BLOCK), |pairs| as bv16) else 0
    case BulkPull(_, _, limit) => if limit != 0 then SetFlag(0, 0) else 0
    case Handshake(query, response) =>
      var e := if query.Some? then SetFlag(0, 0) else 0;
      if response.Some? then SetFlag(e, 1) else e
    case TelemetryAck(data) => if data.Some? then 194 else 0
    case _ => 0
  }

  // ------------------------------------------------ encoding

  function EncodePeers(peers: seq<Endpoint>): Bytes {
    if peers == [] then []
    else
      var n := |peers| - 1;
      EncodePeers(peers[..n]) + peers[n].address + Le16(peers[n].port)
  }

  function EncodePairs(pairs: seq<RootPair>): Bytes {
    if pairs == [] then []
    else
      var n := |pairs| - 1;
      EncodePairs(pairs[..n]) + pairs[n].hash + pairs[n].root
  }

  /** A record written field by field. */
  function Join(fields: seq<Bytes>): Bytes {
    if fields == [] then [] else fields[0] + Join(fields[1..])
  }

  function TelemetryFields(t: Telemetry): seq<Bytes> {
    [t.signature, t.nodeId, Le64(t.blockCount), Le64(t.cementedCount), Le64(t.uncheckedCount),
     Le64(t.accountCount), Le64(t.bandwidthCap), Le32(t.peerCount), [t.protocolVersion], Le64(t.uptime),
     t.genesisBlock, [t.major], [t.minor], [t.patch], [t.preRelease], [t.maker], Le64(t.timestamp)]
  }

  function EncodeQuery(query: Option<Bytes>): Bytes {
    if query.Some? then query.value else []
  }

  function EncodeResponse(response: Option<Response>): Bytes {
    if response.Some? then response.value.account + response.value.signature else []
  }

  /** `serialize` without the header. */
  function Encode(m: Message): Bytes {
    match m
    case Keepalive(peers) => EncodePeers(peers)
    case ConfirmReq(pairs) => EncodePairs(pairs)
    case FrontierReq(start, age, limit) => start + Le32(age) + Le32(limit)
    case BulkPull(first, last, limit) =>
      first + last + if limit != 0 then [0] + Le32(limit) + [0, 0, 0] else []
    case BulkPullAccount(account, minimum, flags) => account + minimum + [flags]
    case Handshake(query, response) => EncodeQuery(query) + EncodeResponse(response)
    case TelemetryAck(data) => if data.Some? then Join(TelemetryFields(data.value)) else []
    case _ => []
  }

  // ------------------------------------------------ decoding

  /** What a reader yields: a value and the rest of the stream, or an error. */
  datatype Read<T> = Failed | Got(value: T, rest: Bytes)

  function DecodePeers(s: Bytes, n: nat): Read<seq<Endpoint>> {
    if n == 0 then Got([], s)
    else
      var before := DecodePeers(s, n - 1);
      if before.Failed? || |before.rest| < 18 then Failed
      else Got(before.value + [Endpoint(before.rest[..16], Un16(before.rest[16..18]))], before.rest[18..])
  }

  function DecodePairs(s: Bytes, n: nat): Read<seq<RootPair>> {
    if n == 0 then Got([], s)
    else
      var before := DecodePairs(s, n - 1);
      if before.Failed? || |before.rest| < 64 then Failed
      else Got(before.value + [RootPair(before.rest[..32], before.rest[32..64])], before.rest[64..])
  }

  /** Pairs of two zero hashes are not kept. */
  function NonZero(pairs: seq<RootPair>): seq<RootPair> {
    if pairs == [] then []
    else
      var n := |pairs| - 1;
      NonZero(pairs[..n]) + if ZeroPair(pairs[n]) then [] else [pairs[n]]
  }

  function DecodeConfirmReq(s: Bytes, count: nat): Read<Message> {
    var r := DecodePairs(s, count);
    if r.Failed? then Failed
    else
      var kept := NonZero(r.value);
      if kept == [] || |kept| != count then Failed else Got(ConfirmReq(kept), r.rest)
  }

  /** Consecutive reads of the given widths. */
  function Cut(s: Bytes, widths: seq<nat>): Read<seq<Bytes>> {
    if widths == [] then Got([], s)
    else if |s| < widths[0] then Failed
    else
      var r := Cut(s[widths[0]..], widths[1..]);
      if r.Failed? then Failed else Got([s[..widths[0]]] + r.value, r.rest)
  }

  const TELEMETRY_WIDTHS: seq<nat> := [64, 32, 8, 8, 8, 8, 8, 4, 1, 8, 32, 1, 1, 1, 1, 1, 8]

  function Widths(fields: seq<Bytes>): (w: seq<nat>)
    ensures |w| == |fields|
    ensures forall i :: 0 <= i < |fields| ==> w[i] == |fields[i]|
  {
    seq(|fields|, i requires 0 <= i < |fields| => |fields[i]|)
  }

  function TelemetryOf(f: seq<Bytes>): Telemetry
    requires Widths(f) == TELEMETRY_WIDTHS
  {
    assert forall i :: 0 <= i < 17 ==> |f[i]| == Widths(f)[i];
    Telemetry(f[0], f[1], Un64(f[2]), Un64(f[3]), Un64(f[4]), Un64(f[5]), Un64(f[6]), Un32(f[7]), f[8][0],
              Un64(f[9]), f[10], f[11][0], f[12][0], f[13][0], f[14][0], f[15][0], Un64(f[16]))
  }

  function DecodeTelemetry(s: Bytes): Read<Telemetry> {
    var r := Cut(s, TELEMETRY_WIDTHS);
    if r.Failed? then Failed
    else
      CutWidths(s, TELEMETRY_WIDTHS);
      Got(TelemetryOf(r.value), r.rest)
  }

  /** `deserialize` of each message kind, given the extensions of its header. The
      block form of a confirm request is not a payload of this model. */
  function Decode(kind: bv8, ext: bv16, s: Bytes): Read<Message> {
    if kind == KEEPALIVE then
      var r := DecodePeers(s, PEERS);
      if r.Failed? then Failed else Got(Keepalive(r.value), r.rest)
    else if kind == CONFIRM_REQ && BlockType(ext) == NOT_A_BLOCK then DecodeConfirmReq(s, Count(ext) as nat)
    else if kind == FRONTIER_REQ then
      if |s| < 40 then Failed else Got(FrontierReq(s[..32], Un32(s[32..36]), Un32(s[36..40])), s[40..])
    else if kind == BULK_PULL then DecodeBulkPull(Flag(ext, 0), s)
    else if kind == BULK_PULL_ACCOUNT then
      if |s| < 49 then Failed else Got(BulkPullAccount(s[..32], s[32..48], s[48]), s[49..])
    else if kind == BULK_PUSH then Got(BulkPush, s)
    else if kind == NODE_ID_HANDSHAKE then DecodeHandshake(Flag(ext, 0), Flag(ext, 1), s)
    else if kind == TELEMETRY_REQ then Got(TelemetryReq, s)
    else if kind == TELEMETRY_ACK then
      if ext == 0 then Got(TelemetryAck(None), s)
      else
        var r := DecodeTelemetry(s);
        if r.Failed? then Failed else Got(TelemetryAck(Some(r.value)), r.rest)
    else Failed
  }

  /** `counted` is the count-present flag of the header. */
  function DecodeBulkPull(counted: bool, s: Bytes): Read<Message> {
    if |s| < 64 then Failed
    else if !counted then Got(BulkPull(s[..32], s[32..64], 0), s[64..])
    else if |s| < 72 || s[64] != 0 then Failed
    else Got(BulkPull(s[..32], s[32..64], Un32(s[65..69])), s[72..])
  }

  function DecodeQuery(asked: bool, s: Bytes): Read<Option<Bytes>> {
    if !asked then Got(None, s)
    else if |s| < 32 then Failed
    else Got(Some(s[..32]), s[32..])
  }

  function DecodeResponse(answered: bool, s: Bytes): Read<Option<Response>> {
    if !answered then Got(None, s)
    else if |s| < 96 then Failed
    else Got(Some(Response(s[..32], s[32..96])), s[96..])
  }

  /** `asked` and `answered` are the query and response flags of the header. */
  function DecodeHandshake(asked: bool, answered: bool, s: Bytes): Read<Message> {
    var q := DecodeQuery(asked, s);
    if q.Failed? then Failed
    else
      var r := DecodeResponse(answered, q.rest);
      if r.Failed? then Failed else Got(Handshake(q.value, r.value), r.rest)
  }

  /** `payload_length_bytes`; the size of a block is not part of this model. */
  function PayloadLength(kind: bv8, ext: bv16, blockSize: bv16 -> nat): nat {
    if kind == BULK_PULL then 64 + (if Flag(ext, 0) then 8 else 0)
    else if kind == FRONTIER_REQ then 40
    else if kind == BULK_PULL_ACCOUNT then 49
    else if kind == KEEPALIVE then 144
    else if kind == PUBLISH then blockSize(BlockType(ext))
    else if kind == CONFIRM_ACK then
      104 + (if BlockType(ext) == NOT_A_BLOCK then (Count(ext) as nat) * 32
             else if BlockType(ext) == INVALID_BLOCK then 0 else blockSize(BlockType(ext)))
    else if kind == CONFIRM_REQ then
      if BlockType(ext) == NOT_A_BLOCK then (Count(ext) as nat) * 64
      else if BlockType(ext) == INVALID_BLOCK then 0 else blockSize(BlockType(ext))
    else if kind == NODE_ID_HANDSHAKE then (if Flag(ext, 0) then 32 else 0) + (if Flag(ext, 1) then 96 else 0)
    else if kind == TELEMETRY_ACK then ext as nat
    else 0
  }

  // ------------------------------------------------ lists of peers and pairs

  lemma JoinLast(before: Bytes, a: Bytes, b: Bytes, rest: Bytes)
    ensures before + a + b + rest == before + (a + b + rest)
  {
  }

  lemma Slices(a: Bytes, b: Bytes, c: Bytes)
    ensures var s := a + b + c;
            s[..|a|] == a && s[|a|..|a| + |b|] == b && s[|a| + |b|..] == c
  {
  }

  lemma Parts(s: Bytes, i: nat, j: nat)
    requires i <= j <= |s|
    ensures s == s[..i] + s[i..j] + s[j..]
  {
  }

  lemma {:induction false} PeersRoundTrip(peers: seq<Endpoint>, rest: Bytes)
    requires forall e :: e in peers ==> GoodPeer(e)
    ensures |EncodePeers(peers)| == 18 * |peers|
    ensures DecodePeers(EncodePeers(peers) + rest, |peers|) == Got(peers, rest)
  {
    if peers == [] {
      assert EncodePeers(peers) + rest == rest;
    } else {
      var n := |peers| - 1;
      var e := peers[n];
      assert e in peers;
      var port := Le16(e.port);
      var more := e.address + port + rest;
      assert forall x :: x in peers[..n] ==> x in peers;
      PeersRoundTrip(peers[..n], more);
      JoinLast(EncodePeers(peers[..n]), e.address, port, rest);
      Slices(e.address, port, rest);
      Le16Inverse(e.port, []);
      assert peers == peers[..n] + [e];
    }
  }

  lemma {:induction false} PeersCanonical(s: Bytes, n: nat)
    requires DecodePeers(s, n).Got?
    ensures var r := DecodePeers(s, n);
            && |r.value| == n && s == EncodePeers(r.value) + r.rest
            && forall e :: e in r.value ==> GoodPeer(e)
  {
    if n > 0 {
      PeersCanonical(s, n - 1);
      var before, r := DecodePeers(s, n - 1), DecodePeers(s, n);
      var a, b := before.rest[..16], before.rest[16..18];
      assert r.value[..n - 1] == before.value;
      Le16Inverse(0, b);
      Parts(before.rest, 16, 18);
      JoinLast(EncodePeers(before.value), a, b, r.rest);
    }
  }

  lemma PairRead(p: RootPair, rest: Bytes)
    requires GoodPair(p)
    ensures var s := p.hash + p.root + rest;
            |s| == 64 + |rest| && RootPair(s[..32], s[32..64]) == p && s[64..] == rest
  {
    Slices(p.hash, p.root, rest);
  }

  lemma {:induction false} PairsRoundTrip(pairs: seq<RootPair>, rest: Bytes)
    requires forall p :: p in pairs ==> GoodPair(p)
    ensures |EncodePairs(pairs)| == 64 * |pairs|
    ensures DecodePairs(EncodePairs(pairs) + rest, |pairs|) == Got(pairs, rest)
  {
    if pairs == [] {
      assert EncodePairs(pairs) + rest == rest;
    } else {
      var n := |pairs| - 1;
      var p := pairs[n];
      assert GoodPair(p);
      var more := p.hash + p.root + rest;
      assert forall x :: x in pairs[..n] ==> x in pairs;
      PairsRoundTrip(pairs[..n], more);
      JoinLast(EncodePairs(pairs[..n]), p.hash, p.root, rest);
      PairRead(p, rest);
      assert pairs == pairs[..n] + [p];
    }
  }

  lemma {:induction false} PairsCanonical(s: Bytes, n: nat)
    requires DecodePairs(s, n).Got?
    ensures var r := DecodePairs(s, n);
            && |r.value| == n && s == EncodePairs(r.value) + r.rest
            && forall p :: p in r.value ==> GoodPair(p)
  {
    if n > 0 {
      PairsCanonical(s, n - 1);
      var before, r := DecodePairs(s, n - 1), DecodePairs(s, n);
      assert r.value[..n - 1] == before.value;
      Parts(before.rest, 32, 64);
      JoinLast(EncodePairs(before.value), before.rest[..32], before.rest[32..64], r.rest);
    }
  }

  lemma {:induction false} NonZeroFacts(pairs: seq<RootPair>)
    ensures |NonZero(pairs)| <= |pairs|
    ensures |NonZero(pairs)| == |pairs| <==> forall p :: p in pairs ==> !ZeroPair(p)
    ensures |NonZero(pairs)| == |pairs| ==> NonZero(pairs) == pairs
  {
    hide ZeroPair;
    if pairs != [] {
      var n := |pairs| - 1;
      NonZeroFacts(pairs[..n]);
      assert pairs == pairs[..n] + [pairs[n]];
    }
  }

  /** Where each peer lies: sixteen bytes of address, two of port. */
  lemma {:induction false} PeerAt(peers: seq<Endpoint>, i: nat)
    requires (forall e :: e in peers ==> GoodPeer(e)) && i < |peers|
    ensures var s := EncodePeers(peers);
            |s| == 18 * |peers| && s[18 * i..18 * i + 16] == peers[i].address && s[18 * i + 16..18 * i + 18] == Le16(peers[i].port)
  {
    hide Le16, DecodePeers;
    var n := |peers| - 1;
    assert forall x :: x in peers[..n] ==> x in peers;
    PeersRoundTrip(peers, []);
    PeersRoundTrip(peers[..n], []);
    var s, before, e := EncodePeers(peers), EncodePeers(peers[..n]), peers[n];
    assert e in peers;
    var port := Le16(e.port);
    assert s == before + e.address + port;
    hide EncodePeers;
    if i < n {
      PeerAt(peers[..n], i);
      PrefixSlice(s, before, 18 * i, 18 * i + 16);
      PrefixSlice(s, before, 18 * i + 16, 18 * i + 18);
    } else {
      Slices(before, e.address, port);
      assert s[18 * i + 16..18 * i + 18] == s[|before| + 16..];
    }
  }

  lemma PrefixSlice(s: Bytes, before: Bytes, i: nat, j: nat)
    requires before <= s && i <= j <= |before|
    ensures s[i..j] == before[i..j]
  {
  }

  /** Where each pair lies: the hash, then the root. */
  lemma {:induction false} PairAt(pairs: seq<RootPair>, i: nat)
    requires (forall p :: p in pairs ==> GoodPair(p)) && i < |pairs|
    ensures var s := EncodePairs(pairs);
            |s| == 64 * |pairs| && s[64 * i..64 * i + 32] == pairs[i].hash && s[64 * i + 32..64 * i + 64] == pairs[i].root
  {
    var n := |pairs| - 1;
    assert forall x :: x in pairs[..n] ==> x in pairs;
    PairsRoundTrip(pairs, []);
    PairsRoundTrip(pairs[..n], []);
    var before, p := EncodePairs(pairs[..n]), pairs[n];
    assert p in pairs;
    assert EncodePairs(pairs) == before + p.hash + p.root;
    if i < n {
      PairAt(pairs[..n], i);
      PrefixSlice(EncodePairs(pairs), before, 64 * i, 64 * i + 32);
      PrefixSlice(EncodePairs(pairs), before, 64 * i + 32, 64 * i + 64);
    }
  }

  // ------------------------------------------------ records

  lemma {:induction false} CutWidths(s: Bytes, widths: seq<nat>)
    ensures Cut(s, widths).Got? ==> Widths(Cut(s, widths).value) == widths
  {
    if widths != [] && |s| >= widths[0] {
      CutWidths(s[widths[0]..], widths[1..]);
    }
  }

  lemma SplitAt(a: Bytes, b: Bytes)
    ensures (a + b)[..|a|] == a && (a + b)[|a|..] == b
  {
  }

  lemma {:induction false} CutJoin(fields: seq<Bytes>, rest: Bytes)
    ensures Cut(Join(fields) + rest, Widths(fields)) == Got(fields, rest)
  {
    if fields == [] {
      assert Join(fields) + rest == rest;
    } else {
      var s := Join(fields) + rest;
      var more := Join(fields[1..]) + rest;
      JoinLast([], fields[0], Join(fields[1..]), rest);
      assert s == fields[0] + more;
      SplitAt(fields[0], more);
      assert Widths(fields)[1..] == Widths(fields[1..]);
      CutJoin(fields[1..], rest);
      assert fields == [fields[0]] + fields[1..];
    }
  }

  lemma TelemetryRoundTrip(t: Telemetry, rest: Bytes)
    requires GoodTelemetry(t)
    ensures DecodeTelemetry(Join(TelemetryFields(t)) + rest) == Got(t, rest)
  {
    hide Le64, Le32, Un64, Un32, Join, Cut;
    var f := TelemetryFields(t);
    assert Widths(f) == TELEMETRY_WIDTHS;
    CutJoin(f, rest);
    Le64Inverse(t.blockCount, []);
    Le64Inverse(t.cementedCount, []);
    Le64Inverse(t.uncheckedCount, []);
    Le64Inverse(t.accountCount, []);
    Le64Inverse(t.bandwidthCap, []);
    Le32Inverse(t.peerCount, []);
    Le64Inverse(t.uptime, []);
    Le64Inverse(t.timestamp, []);
  }

  lemma {:induction false} JoinLength(fields: seq<Bytes>)
    ensures |Join(fields)| == SumWidths(Widths(fields))
  {
    if fields != [] {
      assert Widths(fields)[1..] == Widths(fields[1..]);
      JoinLength(fields[1..]);
    }
  }

  function SumWidths(widths: seq<nat>): nat {
    if widths == [] then 0 else widths[0] + SumWidths(widths[1..])
  }

  lemma {:induction false} SumWidthsConcat(a: seq<nat>, b: seq<nat>)
    ensures SumWidths(a + b) == SumWidths(a) + SumWidths(b)
  {
    if a == [] {
      assert a + b == b;
    } else {
      assert (a + b)[1..] == a[1..] + b;
      SumWidthsConcat(a[1..], b);
    }
  }

  lemma SumFour(a: nat, b: nat, c: nat, d: nat)
    ensures SumWidths([a, b, c, d]) == a + b + c + d
  {
    assert [a, b, c, d][1..] == [b, c, d] && [b, c, d][1..] == [c, d] && [c, d][1..] == [d];
    assert SumWidths([d]) == d;
    assert SumWidths([c, d]) == c + d;
  }

  lemma TelemetryWidthsSum()
    ensures SumWidths(TELEMETRY_WIDTHS) == TELEMETRY_SIZE
  {
    hide SumWidths;
    var a, b, c, d := [64, 32, 8, 8], [8, 8, 8, 4], [1, 8, 32, 1], [1, 1, 1, 1];
    SumFour(64, 32, 8, 8);
    SumFour(8, 8, 8, 4);
    SumFour(1, 8, 32, 1);
    SumFour(1, 1, 1, 1);
    assert SumWidths([8]) == 8 by { LastWidth(8); }
    SumWidthsConcat(a, b);
    SumWidthsConcat(a + b, c);
    SumWidthsConcat(a + b + c, d);
    SumWidthsConcat(a + b + c + d, [8]);
    assert TELEMETRY_WIDTHS == a + b + c + d + [8];
  }

  lemma LastWidth(w: nat)
    ensures SumWidths([w]) == w
  {
  }

  lemma {:induction false} JoinConcat(a: seq<Bytes>, b: seq<Bytes>)
    ensures Join(a + b) == Join(a) + Join(b)
  {
    if a == [] {
      assert a + b == b;
    } else {
      assert (a + b)[1..] == a[1..] + b;
      JoinConcat(a[1..], b);
      assert a[0] + (Join(a[1..]) + Join(b)) == a[0] + Join(a[1..]) + Join(b);
    }
  }

  lemma JoinFour(a: Bytes, b: Bytes, c: Bytes, d: Bytes)
    ensures Join([a, b, c, d]) == a + b + c + d
  {
    assert [a, b, c, d][1..] == [b, c, d] && [b, c, d][1..] == [c, d] && [c, d][1..] == [d] && [d][1..] == [];
    assert Join([d]) == d;
    assert Join([c, d]) == c + d;
    assert Join([b, c, d]) == b + c + d;
  }

  /** The order in which a telemetry record is written. */
  lemma TelemetryLayout(t: Telemetry)
    ensures Encode(TelemetryAck(Some(t))) ==
            (t.signature + t.nodeId + Le64(t.blockCount) + Le64(t.cementedCount)) +
            (Le64(t.uncheckedCount) + Le64(t.accountCount) + Le64(t.bandwidthCap) + Le32(t.peerCount)) +
            ([t.protocolVersion] + Le64(t.uptime) + t.genesisBlock + [t.major]) +
            ([t.minor] + [t.patch] + [t.preRelease] + [t.maker]) + Le64(t.timestamp)
  {
    hide Join, Le64, Le32;
    var a := [t.signature, t.nodeId, Le64(t.blockCount), Le64(t.cementedCount)];
    var b := [Le64(t.uncheckedCount), Le64(t.accountCount), Le64(t.bandwidthCap), Le32(t.peerCount)];
    var c := [[t.protocolVersion], Le64(t.uptime), t.genesisBlock, [t.major]];
    var d := [[t.minor], [t.patch], [t.preRelease], [t.maker]];
    var e := [Le64(t.timestamp)];
    assert TelemetryFields(t) == a + b + c + d + e;
    JoinConcat(a, b);
    JoinConcat(a + b, c);
    JoinConcat(a + b + c, d);
    JoinConcat(a + b + c + d, e);
    JoinFour(a[0], a[1], a[2], a[3]);
    JoinFour(b[0], b[1], b[2], b[3]);
    JoinFour(c[0], c[1], c[2], c[3]);
    JoinFour(d[0], d[1], d[2], d[3]);
    JoinOne(Le64(t.timestamp));
  }

  lemma JoinOne(a: Bytes)
    ensures Join([a]) == a
  {
    assert [a][1..] == [];
  }

  lemma TelemetryLength(t: Telemetry)
    requires GoodTelemetry(t)
    ensures |Join(TelemetryFields(t))| == TELEMETRY_SIZE
  {
    hide Le64, Le32, Join, SumWidths;
    var f := TelemetryFields(t);
    assert Widths(f) == TELEMETRY_WIDTHS;
    JoinLength(f);
    TelemetryWidthsSum();
  }

  // ------------------------------------------------ the messages

  lemma CountOf(n: nat)
    requires n < 16
    ensures var ext := SetCount(SetBlockType(0, NOT_A_BLOCK), n as bv16);
            BlockType(ext) == NOT_A_BLOCK && Count(ext) as nat == n
  {
    var c := n as bv16;
    assert c < 16;
    BlockTypeStored(0, NOT_A_BLOCK, 0);
    CountStored(SetBlockType(0, NOT_A_BLOCK), c, 0);
  }

  /** The flags the handshake constructor sets tell which parts are present. */
  lemma HandshakeFlags(query: Option<Bytes>, response: Option<Response>)
    ensures var ext := Extensions(Handshake(query, response));
            Flag(ext, 0) == query.Some? && Flag(ext, 1) == response.Some?
  {
    FlagStored(0, 0, 0);
    FlagStored(0, 0, 1);
    FlagStored(0, 1, 0);
    FlagStored(0, 1, 1);
    FlagStored(SetFlag(0, 0), 1, 0);
    FlagStored(SetFlag(0, 0), 1, 1);
    assert !Flag(0, 0) && !Flag(0, 1);
  }

  lemma QueryRoundTrip(query: Option<Bytes>, rest: Bytes)
    requires query.Some? ==> |query.value| == 32
    ensures DecodeQuery(query.Some?, EncodeQuery(query) + rest) == Got(query, rest)
  {
    if query.None? {
      assert EncodeQuery(query) + rest == rest;
    }
  }

  lemma ResponseRoundTrip(response: Option<Response>, rest: Bytes)
    requires response.Some? ==> |response.value.account| == 32 && |response.value.signature| == 64
    ensures DecodeResponse(response.Some?, EncodeResponse(response) + rest) == Got(response, rest)
  {
    if response.None? {
      assert EncodeResponse(response) + rest == rest;
    } else {
      Slices(response.value.account, response.value.signature, rest);
    }
  }

  lemma HandshakeRoundTrip(query: Option<Bytes>, response: Option<Response>, rest: Bytes)
    requires WellFormed(Handshake(query, response))
    ensures DecodeHandshake(query.Some?, response.Some?, Encode(Handshake(query, response)) + rest) ==
            Got(Handshake(query, response), rest)
  {
    hide EncodeQuery, EncodeResponse, DecodeQuery, DecodeResponse;
    var q, r := EncodeQuery(query), EncodeResponse(response);
    assert q + r + rest == q + (r + rest);
    QueryRoundTrip(query, r + rest);
    ResponseRoundTrip(response, rest);
  }

  lemma BulkPullRoundTrip(first: Bytes, last: Bytes, limit: bv32, rest: Bytes)
    requires |first| == 32 && |last| == 32
    ensures DecodeBulkPull(limit != 0, Encode(BulkPull(first, last, limit)) + rest) ==
            Got(BulkPull(first, last, limit), rest)
  {
    hide Le32, Un32;
    var tail := if limit != 0 then [0] + Le32(limit) + [0, 0, 0] else [];
    var s := Encode(BulkPull(first, last, limit)) + rest;
    assert s == first + last + (tail + rest);
    Slices(first, last, tail + rest);
    Le32Inverse(limit, []);
    if limit != 0 {
      assert s[64..] == [0] + Le32(limit) + ([0, 0, 0] + rest);
      Slices([0], Le32(limit), [0, 0, 0] + rest);
      assert s[65..69] == s[64..][1..5] && s[72..] == s[64..][5..][3..];
    } else {
      assert tail + rest == rest;
    }
  }

  lemma FrontierRoundTrip(start: Bytes, age: bv32, limit: bv32, rest: Bytes)
    requires |start| == 32
    ensures var s := Encode(FrontierReq(start, age, limit)) + rest;
            |s| >= 40 && s[..32] == start && Un32(s[32..36]) == age && Un32(s[36..40]) == limit && s[40..] == rest
  {
    hide Le32, Un32;
    var s := Encode(FrontierReq(start, age, limit)) + rest;
    assert s == start + Le32(age) + (Le32(limit) + rest);
    Slices(start, Le32(age), Le32(limit) + rest);
    assert s[36..40] == Le32(limit) && s[40..] == rest;
    Le32Inverse(age, []);
    Le32Inverse(limit, []);
  }

  /** Round trip: for every well-formed message, decoding its serialised payload
      under the header its constructor makes gives the message back and leaves
      exactly what followed. */
  lemma PayloadRoundTrip(m: Message, rest: Bytes)
    requires WellFormed(m)
    ensures Decode(Kind(m), Extensions(m), Encode(m) + rest) == Got(m, rest)
  {
    hide EncodePeers, DecodePeers, EncodePairs, DecodePairs, DecodeTelemetry, TelemetryFields, Join;
    match m
    case Keepalive(peers) => PeersRoundTrip(peers, rest);
    case ConfirmReq(pairs) => ConfirmReqRoundTrip(pairs, rest);
    case FrontierReq(start, age, limit) => FrontierRoundTrip(start, age, limit, rest);
    case BulkPull(first, last, limit) =>
      FlagStored(0, 0, 0);
      BulkPullRoundTrip(first, last, limit, rest);
      assert !Flag(0, 0);
    case BulkPullAccount(account, minimum, flags) => Slices(account, minimum, [flags] + rest);
      assert Encode(m) + rest == account + minimum + ([flags] + rest);
    case Handshake(query, response) =>
      HandshakeFlags(query, response);
      HandshakeRoundTrip(query, response, rest);
    case TelemetryAck(data) =>
      if data.Some? {
        TelemetryRoundTrip(data.value, rest);
      } else {
        assert Encode(m) + rest == rest;
      }
    case _ => assert Encode(m) + rest == rest;
  }

  lemma ConfirmReqRoundTrip(pairs: seq<RootPair>, rest: Bytes)
    requires WellFormed(ConfirmReq(pairs))
    ensures Decode(CONFIRM_REQ, Extensions(ConfirmReq(pairs)), EncodePairs(pairs) + rest) == Got(ConfirmReq(pairs), rest)
  {
    hide EncodePairs, DecodePairs;
    CountOf(|pairs|);
    PairsRoundTrip(pairs, rest);
    NonZeroFacts(pairs);
  }

  /** Length agreement: the payload has as many bytes as its header announces. */
  lemma LengthAgrees(m: Message, blockSize: bv16 -> nat)
    requires WellFormed(m)
    ensures |Encode(m)| == PayloadLength(Kind(m), Extensions(m), blockSize)
  {
    hide EncodePeers, EncodePairs, TelemetryFields, Join;
    match m
    case Keepalive(peers) => PeersRoundTrip(peers, []);
    case ConfirmReq(pairs) => CountOf(|pairs|); PairsRoundTrip(pairs, []);
    case BulkPull(_, _, _) => FlagStored(0, 0, 0); assert !Flag(0, 0);
    case Handshake(query, response) => HandshakeFlags(query, response);
    case TelemetryAck(data) =>
      if data.Some? {
        TelemetryLength(data.value);
      }
    case _ =>
  }
}
