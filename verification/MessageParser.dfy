/** The header of a message and the parser that dispatches on it. */
module MessageParser {
  import opened Machine
  import opened Bits
  import opened Wire
  import opened Canonical
  import opened Streams

  const MAX_SAFE_UDP_MESSAGE_SIZE: nat := 508
  const HEADER_SIZE: nat := 8

  // ------------------------------------------------ header

  datatype Header = Header(versionMax: bv8, versionUsing: bv8, versionMin: bv8, kind: bv8, ext: bv16)

  /** What the network parameters fix: the magic number and the oldest version accepted. */
  datatype Network = Network(magic0: bv8, magic1: bv8, minVersion: bv8)

  function EncodeHeader(net: Network, h: Header): (b: Bytes)
    ensures |b| == HEADER_SIZE
  {
    [net.magic0, net.magic1, h.versionMax, h.versionUsing, h.versionMin, h.kind] + Le16(h.ext)
  }

  function DecodeHeader(net: Network, s: Bytes): Read<Header> {
    if |s| < HEADER_SIZE || s[0] != net.magic0 || s[1] != net.magic1 then Failed
    else Got(Header(s[2], s[3], s[4], s[5], Un16(s[6..8])), s[8..])
  }

  lemma HeaderRoundTrip(net: Network, h: Header, rest: Bytes)
    ensures DecodeHeader(net, EncodeHeader(net, h) + rest) == Got(h, rest)
  {
    var s := EncodeHeader(net, h) + rest;
    assert s[6..8] == Le16(h.ext) && s[8..] == rest;
    Le16Inverse(h.ext, []);
  }

  lemma HeaderCanonical(net: Network, s: Bytes)
    requires DecodeHeader(net, s).Got?
    ensures s == EncodeHeader(net, DecodeHeader(net, s).value) + DecodeHeader(net, s).rest
  {
    Le16Inverse(0, s[6..8]);
    assert s == s[..6] + s[6..8] + s[8..];
  }

  /** The header object: its setters change the extensions in place. */
  class MessageHeader {
    var kind: bv8
    var extensions: bv16

    constructor (kind: bv8)
      ensures this.kind == kind && extensions == 0
    {
      this.kind, extensions := kind, 0;
    }

    method BlockTypeSet(t: bv16)
      modifies this`extensions
      ensures extensions == SetBlockType(old(extensions), t)
    {
      extensions := extensions & !BLOCK_TYPE_MASK;
      extensions := extensions | (t << 8);
    }

    method CountSet(count: bv16)
      requires count < 16
      modifies this`extensions
      ensures extensions == SetCount(old(extensions), count)
    {
      extensions := extensions & !COUNT_MASK;
      extensions := extensions | (count << 12);
    }

    method FlagSet(k: nat)
      requires k < 8
      modifies this`extensions
      ensures extensions == SetFlag(old(extensions), k)
    {
      extensions := extensions | FlagBit(k);
    }

    /** The constructors' work: the extensions each message announces itself with. */
    method Announce(m: Message)
      requires WellFormed(m) && extensions == 0 && kind == Kind(m)
      modifies this`extensions
      ensures extensions == Extensions(m)
    {
      match m
      case ConfirmReq(pairs) =>
        BlockTypeSet(NOT_A_BLOCK);
        assert (|pairs| as bv16) < 16;
        CountSet(|pairs| as bv16);
      case BulkPull(_, _, limit) =>
        if limit != 0 {
          FlagSet(0);
        }
      case Handshake(query, response) =>
        if query.Some? {
          FlagSet(0);
        }
        if response.Some? {
          FlagSet(1);
        }
      case TelemetryAck(data) =>
        if data.Some? {
          extensions := 194;
        }
      case _ =>
    }
  }

  // ------------------------------------------------ the parser as a function

  datatype Status =
    | Success | InsufficientWork | InvalidHeader | InvalidMessageType | InvalidKeepalive | InvalidPublish
    | InvalidConfirmReq | InvalidConfirmAck | InvalidHandshake | InvalidTelemetryReq | InvalidTelemetryAck
    | OutdatedVersion | DuplicatePublish

  /** Blocks are made and read by code outside this model. */
  type Block = nat

  /** A vote's blocks: whole blocks, or hashes only. */
  datatype Vote = Vote(blocks: seq<Option<Block>>)

  /** The readers and checks of that code: the publish filter, the readers of a
      block and a vote of a given block type, and whether a block's work is too low. */
  datatype Foreign = Foreign(
    duplicate: Bytes -> bool,
    block: (bv16, Bytes) -> Read<Block>,
    vote: (bv16, Bytes) -> Read<Vote>,
    lowWork: Block -> bool)

  /** What the visitor is called with. */
  datatype Visit = Plain(m: Message) | PublishVisit(block: Block) | RequestVisit(block: Block) | VoteVisit(vote: Vote)

  datatype Result = Result(status: Status, visit: Option<Visit>)

  /** A payload read by this model's own decoders: accepted when it ends the buffer. */
  function Whole(r: Read<Message>, invalid: Status): Result {
    if r.Got? && r.rest == [] then Result(Success, Some(Plain(r.value))) else Result(invalid, None)
  }

  function WithBlock(f: Foreign, r: Read<Block>, invalid: Status, visit: Block -> Visit): Result {
    if r.Failed? || r.rest != [] then Result(invalid, None)
    else if f.lowWork(r.value) then Result(InsufficientWork, None)
    else Result(Success, Some(visit(r.value)))
  }

  predicate LowWorkIn(f: Foreign, blocks: seq<Option<Block>>) {
    exists i :: 0 <= i < |blocks| && blocks[i].Some? && f.lowWork(blocks[i].value)
  }

  function Dispatch(f: Foreign, h: Header, s: Bytes): Result {
    if h.kind == KEEPALIVE then Whole(Decode(h.kind, h.ext, s), InvalidKeepalive)
    else if h.kind == PUBLISH then
      if f.duplicate(s) then Result(DuplicatePublish, None)
      else WithBlock(f, f.block(BlockType(h.ext), s), InvalidPublish, (b: Block) => PublishVisit(b))
    else if h.kind == CONFIRM_REQ then
      if BlockType(h.ext) == NOT_A_BLOCK then Whole(Decode(h.kind, h.ext, s), InvalidConfirmReq)
      else WithBlock(f, f.block(BlockType(h.ext), s), InvalidConfirmReq, (b: Block) => RequestVisit(b))
    else if h.kind == CONFIRM_ACK then
      var r := f.vote(BlockType(h.ext), s);
      if r.Failed? || r.rest != [] then Result(InvalidConfirmAck, None)
      else if LowWorkIn(f, r.value.blocks) then Result(InsufficientWork, None)
      else Result(Success, Some(VoteVisit(r.value)))
    else if h.kind == NODE_ID_HANDSHAKE then Whole(Decode(h.kind, h.ext, s), InvalidHandshake)
    else if h.kind == TELEMETRY_REQ then Whole(Decode(h.kind, h.ext, s), InvalidTelemetryReq)
    else if h.kind == TELEMETRY_ACK then
      // the end of the buffer is not checked here, for compatibility
      var r := Decode(h.kind, h.ext, s);
      if r.Got? then Result(Success, Some(Plain(r.value))) else Result(InvalidTelemetryAck, None)
    else Result(InvalidMessageType, None)
  }

  /** `deserialize_buffer`. */
  function Parse(net: Network, f: Foreign, buffer: Bytes): Result {
    if |buffer| > MAX_SAFE_UDP_MESSAGE_SIZE then Result(Success, None)
    else
      var h := DecodeHeader(net, buffer);
      if h.Failed? then Result(InvalidHeader, None)
      else if h.value.versionUsing < net.minVersion then Result(OutdatedVersion, None)
      else Dispatch(f, h.value, h.rest)
  }

  // ------------------------------------------------ properties

  /** The visitor is called exactly when parsing succeeds; a buffer over 508 bytes
      calls nobody and still reports success. */
  lemma VisitIffSuccess(net: Network, f: Foreign, buffer: Bytes)
    ensures var r := Parse(net, f, buffer);
            && (|buffer| <= MAX_SAFE_UDP_MESSAGE_SIZE ==> (r.visit.Some? <==> r.status == Success))
            && (|buffer| > MAX_SAFE_UDP_MESSAGE_SIZE ==> r == Result(Success, None))
  {
    hide Decode, DecodeHeader;
  }

  /** The kinds the parser passes to this model's decoders. */
  predicate Dispatched(m: Message) {
    m.Keepalive? || m.ConfirmReq? || m.Handshake? || m.TelemetryReq? || m.TelemetryAck?
  }

  /** Every accepted buffer that this model decodes is exactly the serialised form
      of the message the visitor sees, under the header that was read, and is
      consumed to its last byte; only a telemetry answer may be followed by more. */
  lemma AcceptedIsSerialised(net: Network, f: Foreign, buffer: Bytes, m: Message) returns (trailing: Bytes)
    requires Parse(net, f, buffer) == Result(Success, Some(Plain(m)))
    ensures DecodeHeader(net, buffer).Got?
    ensures var h := DecodeHeader(net, buffer).value;
            WellFormed(m) && Kind(m) == h.kind && buffer == EncodeHeader(net, h) + Encode(m) + trailing
    ensures !m.TelemetryAck? ==> trailing == []
  {
    hide Decode, DecodeHeader, EncodeHeader, Encode;
    var r := DecodeHeader(net, buffer);
    HeaderCanonical(net, buffer);
    PayloadCanonicalIff(r.value.kind, r.value.ext, r.rest);
    trailing := Decode(r.value.kind, r.value.ext, r.rest).rest;
    var head := EncodeHeader(net, r.value);
    assert head + Encode(m) + trailing == head + (Encode(m) + trailing);
  }

  /** End to end: a serialised message of a dispatched kind reaches the visitor
      unchanged if and only if header and payload fit in 508 bytes. */
  lemma SerialisedIsVisited(net: Network, f: Foreign, h: Header, m: Message)
    requires WellFormed(m) && Dispatched(m)
    requires h.kind == Kind(m) && h.ext == Extensions(m) && h.versionUsing >= net.minVersion
    ensures Parse(net, f, EncodeHeader(net, h) + Encode(m)) ==
            if HEADER_SIZE + |Encode(m)| <= MAX_SAFE_UDP_MESSAGE_SIZE then Result(Success, Some(Plain(m)))
            else Result(Success, None)
  {
    hide Decode, DecodeHeader, EncodeHeader, Encode;
    HeaderRoundTrip(net, h, Encode(m));
    PayloadRoundTrip(m, []);
    assert Encode(m) + [] == Encode(m);
    if m.ConfirmReq? {
      CountOf(|m.pairs|);
    }
  }

  lemma ParseHeaded(net: Network, f: Foreign, h: Header, payload: Bytes)
    requires HEADER_SIZE + |payload| <= MAX_SAFE_UDP_MESSAGE_SIZE
    ensures Parse(net, f, EncodeHeader(net, h) + payload) ==
            if h.versionUsing < net.minVersion then Result(OutdatedVersion, None) else Dispatch(f, h, payload)
  {
    hide DecodeHeader, EncodeHeader, Dispatch;
    HeaderRoundTrip(net, h, payload);
  }

  /** A short buffer or another network's magic number is refused before anything
      else; then a version below the minimum, whatever the kind; a kind that is not
      dispatched has a status of its own. */
  lemma RefusedByHeader(net: Network, f: Foreign, buffer: Bytes)
    requires |buffer| <= MAX_SAFE_UDP_MESSAGE_SIZE
    ensures var r := Parse(net, f, buffer);
            && (r == Result(InvalidHeader, None) <==> |buffer| < 8 || buffer[0] != net.magic0 || buffer[1] != net.magic1)
            && (r.status == InvalidHeader || (r == Result(OutdatedVersion, None) <==> buffer[3] < net.minVersion))
            && (r.status != InvalidHeader && buffer[3] >= net.minVersion ==>
                  (r == Result(InvalidMessageType, None) <==> buffer[5] !in {0x2, 0x3, 0x4, 0x5, 0x0a, 0x0c, 0x0d}))
  {
    hide Decode, BlockType, LowWorkIn, Un16;
  }

  /** A publish is refused as a duplicate, as malformed or for its work, in this
      order, and reaches the visitor otherwise. */
  lemma PublishStatus(net: Network, f: Foreign, h: Header, payload: Bytes)
    requires HEADER_SIZE + |payload| <= MAX_SAFE_UDP_MESSAGE_SIZE
    requires h.kind == PUBLISH && h.versionUsing >= net.minVersion
    ensures var r := Parse(net, f, EncodeHeader(net, h) + payload);
            var b := f.block(BlockType(h.ext), payload);
            && (f.duplicate(payload) ==> r == Result(DuplicatePublish, None))
            && (!f.duplicate(payload) && (b.Failed? || b.rest != []) ==> r == Result(InvalidPublish, None))
            && (!f.duplicate(payload) && b.Got? && b.rest == [] ==>
                  r == if f.lowWork(b.value) then Result(InsufficientWork, None)
                       else Result(Success, Some(PublishVisit(b.value))))
  {
    hide EncodeHeader, Parse, BlockType;
    ParseHeaded(net, f, h, payload);
  }

  /** A request for a block is refused as malformed or for its work. */
  lemma RequestStatus(net: Network, f: Foreign, h: Header, payload: Bytes)
    requires HEADER_SIZE + |payload| <= MAX_SAFE_UDP_MESSAGE_SIZE
    requires h.kind == CONFIRM_REQ && BlockType(h.ext) != NOT_A_BLOCK && h.versionUsing >= net.minVersion
    ensures var r := Parse(net, f, EncodeHeader(net, h) + payload);
            var b := f.block(BlockType(h.ext), payload);
            && (b.Failed? || b.rest != [] ==> r == Result(InvalidConfirmReq, None))
            && (b.Got? && b.rest == [] ==>
                  r == if f.lowWork(b.value) then Result(InsufficientWork, None)
                       else Result(Success, Some(RequestVisit(b.value))))
  {
    hide EncodeHeader, Parse, BlockType;
    ParseHeaded(net, f, h, payload);
  }

  /** A vote is refused as malformed, or when any whole block in it has too little work. */
  lemma VoteStatus(net: Network, f: Foreign, h: Header, payload: Bytes)
    requires HEADER_SIZE + |payload| <= MAX_SAFE_UDP_MESSAGE_SIZE
    requires h.kind == CONFIRM_ACK && h.versionUsing >= net.minVersion
    ensures var r := Parse(net, f, EncodeHeader(net, h) + payload);
            var v := f.vote(BlockType(h.ext), payload);
            && (v.Failed? || v.rest != [] ==> r == Result(InvalidConfirmAck, None))
            && (v.Got? && v.rest == [] ==>
                  (r == Result(InsufficientWork, None) <==>
                   exists b :: Some(b) in v.value.blocks && f.lowWork(b)))
            && (v.Got? && v.rest == [] && r.status != InsufficientWork ==> r == Result(Success, Some(VoteVisit(v.value))))
  {
    hide EncodeHeader, Parse, BlockType, LowWorkIn;
    ParseHeaded(net, f, h, payload);
    var v := f.vote(BlockType(h.ext), payload);
    if v.Got? {
      LowWorkIff(f, v.value.blocks);
    }
  }

  lemma LowWorkIff(f: Foreign, blocks: seq<Option<Block>>)
    ensures LowWorkIn(f, blocks) <==> exists b :: Some(b) in blocks && f.lowWork(b)
  {
    if LowWorkIn(f, blocks) {
      var i :| 0 <= i < |blocks| && blocks[i].Some? && f.lowWork(blocks[i].value);
      assert Some(blocks[i].value) in blocks;
    }
  }

  /** So a confirm request of eight pairs or more is dropped without an error. */
  lemma LongRequestDropped(net: Network, f: Foreign, h: Header, pairs: seq<RootPair>)
    requires WellFormed(ConfirmReq(pairs))
    requires h.kind == CONFIRM_REQ && h.ext == Extensions(ConfirmReq(pairs)) && h.versionUsing >= net.minVersion
    ensures Parse(net, f, EncodeHeader(net, h) + EncodePairs(pairs)) ==
            if |pairs| <= 7 then Result(Success, Some(Plain(ConfirmReq(pairs)))) else Result(Success, None)
  {
    hide Parse, EncodeHeader, EncodePairs;
    PairsRoundTrip(pairs, []);
    SerialisedIsVisited(net, f, h, ConfirmReq(pairs));
  }

  // ------------------------------------------------ the parser object

  class MessageParser {
    const net: Network
    const foreign: Foreign
    var status: Status
    /** The visitor's calls, in order. */
    var visited: seq<Visit>

    constructor (net: Network, foreign: Foreign)
      ensures status == Success && visited == [] && this.net == net && this.foreign == foreign
    {
      this.net, this.foreign, status, visited := net, foreign, Success, [];
    }

    /** The parser's status and the visitor's calls agree with a result. */
    twostate predicate Did(r: Result)
      reads this
    {
      status == r.status && visited == old(visited) + if r.visit.Some? then [r.visit.value] else []
    }

    method DeserializeBuffer(buffer: Bytes)
      modifies this
      ensures Did(Parse(net, foreign, buffer))
    {
      hide DecodeHeader, Dispatch;
      status := Success;
      if |buffer| <= MAX_SAFE_UDP_MESSAGE_SIZE {
        var header := DecodeHeader(net, buffer);
        if header.Failed? {
          status := InvalidHeader;
        } else if header.value.versionUsing < net.minVersion {
          status := OutdatedVersion;
        } else {
          var stream := new InputStream(header.rest);
          DeserializeMessage(stream, header.value);
        }
      }
    }

    /** The switch on the message type. */
    method DeserializeMessage(stream: InputStream, h: Header)
      requires status == Success
      modifies this, stream
      ensures Did(Dispatch(foreign, h, old(stream.rest)))
    {
      hide Decode, Whole, WithBlock, LowWorkIn, BlockType;
      if h.kind == KEEPALIVE {
        DeserializeKeepaliveMessage(stream, h);
      } else if h.kind == PUBLISH {
        if !foreign.duplicate(stream.rest) {
          DeserializePublish(stream, h);
        } else {
          status := DuplicatePublish;
        }
      } else if h.kind == CONFIRM_REQ {
        DeserializeConfirmReqMessage(stream, h);
      } else if h.kind == CONFIRM_ACK {
        DeserializeConfirmAck(stream, h);
      } else if h.kind == NODE_ID_HANDSHAKE {
        DeserializeNodeIdHandshake(stream, h);
      } else if h.kind == TELEMETRY_REQ {
        DeserializeTelemetryReq(stream, h);
      } else if h.kind == TELEMETRY_ACK {
        DeserializeTelemetryAck(stream, h);
      } else {
        status := InvalidMessageType;
      }
    }

    method DeserializeKeepaliveMessage(stream: InputStream, h: Header)
      requires status == Success && h.kind == KEEPALIVE
      modifies this, stream
      ensures Did(Dispatch(foreign, h, old(stream.rest)))
    {
      var peers := new Endpoint[PEERS](_ => Endpoint([], 0));
      var error := DeserializeKeepalive(stream, peers);
      var ended := false;
      if !error {
        ended := stream.AtEnd();
      }
      if !error && ended {
        visited := visited + [Plain(Keepalive(peers[..]))];
      } else {
        status := InvalidKeepalive;
      }
    }

    method DeserializePublish(stream: InputStream, h: Header)
      requires status == Success && h.kind == PUBLISH && !foreign.duplicate(stream.rest)
      modifies this
      ensures Did(Dispatch(foreign, h, old(stream.rest)))
    {
      var incoming := foreign.block(BlockType(h.ext), stream.rest);
      if incoming.Got? && incoming.rest == [] {
        if !foreign.lowWork(incoming.value) {
          visited := visited + [PublishVisit(incoming.value)];
        } else {
          status := InsufficientWork;
        }
      } else {
        status := InvalidPublish;
      }
    }

    method DeserializeConfirmReqMessage(stream: InputStream, h: Header)
      requires status == Success && h.kind == CONFIRM_REQ
      modifies this, stream
      ensures Did(Dispatch(foreign, h, old(stream.rest)))
    {
      if BlockType(h.ext) == NOT_A_BLOCK {
        var error, pairs := DeserializeConfirmReq(stream, Count(h.ext) as nat);
        var ended := false;
        if !error {
          ended := stream.AtEnd();
        }
        if !error && ended {
          visited := visited + [Plain(ConfirmReq(pairs))];
        } else {
          status := InvalidConfirmReq;
        }
      } else {
        var incoming := foreign.block(BlockType(h.ext), stream.rest);
        if incoming.Failed? || incoming.rest != [] {
          status := InvalidConfirmReq;
        } else if foreign.lowWork(incoming.value) {
          status := InsufficientWork;
        } else {
          visited := visited + [RequestVisit(incoming.value)];
        }
      }
    }

    /** The blocks of the vote are checked up to the first whose work is too low. */
    method DeserializeConfirmAck(stream: InputStream, h: Header)
      requires status == Success && h.kind == CONFIRM_ACK
      modifies this
      ensures Did(Dispatch(foreign, h, old(stream.rest)))
    {
      var incoming := foreign.vote(BlockType(h.ext), stream.rest);
      if incoming.Got? && incoming.rest == [] {
        var blocks := incoming.value.blocks;
        var i := 0;
        while i < |blocks|
          invariant 0 <= i <= |blocks|
          invariant status == Success && visited == old(visited)
          invariant !LowWorkIn(foreign, blocks[..i])
        {
          if blocks[i].Some? && foreign.lowWork(blocks[i].value) {
            status := InsufficientWork;
            break;
          }
          i := i + 1;
        }
        if status == Success {
          assert blocks[..i] == blocks;
          visited := visited + [VoteVisit(incoming.value)];
        }
      } else {
        status := InvalidConfirmAck;
      }
    }

    method DeserializeNodeIdHandshake(stream: InputStream, h: Header)
      requires status == Success && h.kind == NODE_ID_HANDSHAKE
      modifies this, stream
      ensures Did(Dispatch(foreign, h, old(stream.rest)))
    {
      hide Flag, DecodeHandshake;
      var error, query, response := DeserializeHandshake(stream, Flag(h.ext, 0), Flag(h.ext, 1));
      var ended := false;
      if !error {
        ended := stream.AtEnd();
      }
      if !error && ended {
        visited := visited + [Plain(Handshake(query, response))];
      } else {
        status := InvalidHandshake;
      }
    }

    method DeserializeTelemetryReq(stream: InputStream, h: Header)
      requires status == Success && h.kind == TELEMETRY_REQ
      modifies this, stream
      ensures Did(Dispatch(foreign, h, old(stream.rest)))
    {
      var ended := stream.AtEnd();
      if ended {
        visited := visited + [Plain(TelemetryReq)];
      } else {
        status := InvalidTelemetryReq;
      }
    }

    method DeserializeTelemetryAck(stream: InputStream, h: Header)
      requires status == Success && h.kind == TELEMETRY_ACK
      modifies this
      ensures Did(Dispatch(foreign, h, old(stream.rest)))
    {
      hide DecodeTelemetry;
      var incoming := Decode(TELEMETRY_ACK, h.ext, stream.rest);
      if incoming.Got? {
        visited := visited + [Plain(incoming.value)];
      } else {
        status := InvalidTelemetryAck;
      }
    }
  }
}
