/** The other direction of the payload codec: what the decoders accept is what the
    serialisers write, byte for byte. */
module Canonical {
  import opened Machine
  import opened Bits
  import opened Wire

  lemma QueryCanonical(asked: bool, s: Bytes)
    requires DecodeQuery(asked, s).Got?
    ensures var r := DecodeQuery(asked, s);
            s == EncodeQuery(r.value) + r.rest && (r.value.Some? ==> |r.value.value| == 32)
  {
    assert asked ==> s == s[..32] + s[32..];
  }

  lemma ResponseCanonical(answered: bool, s: Bytes)
    requires DecodeResponse(answered, s).Got?
    ensures var r := DecodeResponse(answered, s);
            && s == EncodeResponse(r.value) + r.rest
            && (r.value.Some? ==> |r.value.value.account| == 32 && |r.value.value.signature| == 64)
  {
    assert answered ==> s == s[..32] + s[32..96] + s[96..];
  }

  lemma HandshakeCanonical(asked: bool, answered: bool, s: Bytes)
    requires DecodeHandshake(asked, answered, s).Got?
    ensures var r := DecodeHandshake(asked, answered, s);
            r.value.Handshake? && WellFormed(r.value) && s == Encode(r.value) + r.rest
  {
    hide DecodeQuery, DecodeResponse, EncodeQuery, EncodeResponse;
    var q := DecodeQuery(asked, s);
    QueryCanonical(asked, s);
    var a := DecodeResponse(answered, q.rest);
    ResponseCanonical(answered, q.rest);
    assert EncodeQuery(q.value) + EncodeResponse(a.value) + a.rest == EncodeQuery(q.value) + (EncodeResponse(a.value) + a.rest);
  }

  lemma ConfirmReqCanonical(ext: bv16, s: Bytes)
    requires DecodeConfirmReq(s, Count(ext) as nat).Got?
    ensures var r := DecodeConfirmReq(s, Count(ext) as nat);
            WellFormed(r.value) && r.value.ConfirmReq? && s == Encode(r.value) + r.rest
  {
    hide DecodePairs, EncodePairs;
    var n := Count(ext) as nat;
    assert Count(ext) < 16;
    PairsCanonical(s, n);
    NonZeroFacts(DecodePairs(s, n).value);
  }

  // ------------------------------------------------ telemetry

  lemma {:induction false} CutCanonical(s: Bytes, widths: seq<nat>)
    requires Cut(s, widths).Got?
    ensures s == Join(Cut(s, widths).value) + Cut(s, widths).rest
  {
    if widths != [] {
      var w := widths[0];
      CutCanonical(s[w..], widths[1..]);
      var more := Cut(s[w..], widths[1..]);
      var f := Cut(s, widths).value;
      assert f[0] == s[..w] && f[1..] == more.value;
      Slices(s[..w], Join(more.value), more.rest);
      assert s == s[..w] + (Join(more.value) + more.rest) by { Parts(s, 0, w); }
    }
  }

  /** The fields of the record read from `f` are the pieces of `f`. */
  lemma FieldsOf(f: seq<Bytes>)
    requires Widths(f) == TELEMETRY_WIDTHS
    ensures TelemetryFields(TelemetryOf(f)) == f && GoodTelemetry(TelemetryOf(f))
  {
    hide Le64, Le32, Un64, Un32;
    assert forall i :: 0 <= i < 17 ==> |f[i]| == Widths(f)[i];
    Le64Inverse(0, f[2]);
    Le64Inverse(0, f[3]);
    Le64Inverse(0, f[4]);
    Le64Inverse(0, f[5]);
    Le64Inverse(0, f[6]);
    Le32Inverse(0, f[7]);
    Le64Inverse(0, f[9]);
    Le64Inverse(0, f[16]);
    SingleBytes(f[8], f[11], f[12], f[13], f[14], f[15]);
    Spread(f);
  }

  lemma Spread(f: seq<Bytes>)
    requires |f| == 17
    ensures f == [f[0], f[1], f[2], f[3], f[4], f[5], f[6], f[7], f[8],
                  f[9], f[10], f[11], f[12], f[13], f[14], f[15], f[16]]
  {
  }

  lemma SingleBytes(a: Bytes, b: Bytes, c: Bytes, d: Bytes, e: Bytes, f: Bytes)
    requires |a| == |b| == |c| == |d| == |e| == |f| == 1
    ensures a == [a[0]] && b == [b[0]] && c == [c[0]] && d == [d[0]] && e == [e[0]] && f == [f[0]]
  {
  }

  lemma TelemetryCanonical(s: Bytes)
    requires DecodeTelemetry(s).Got?
    ensures var r := DecodeTelemetry(s);
            GoodTelemetry(r.value) && s == Join(TelemetryFields(r.value)) + r.rest
  {
    hide TelemetryOf, TelemetryFields, Join, Cut;
    CutWidths(s, TELEMETRY_WIDTHS);
    CutCanonical(s, TELEMETRY_WIDTHS);
    FieldsOf(Cut(s, TELEMETRY_WIDTHS).value);
  }

  // ------------------------------------------------ bulk pull, frontier, account

  /** A counted pull is accepted with any three reserved bytes and with a count of
      zero, neither of which the serialiser writes. */
  predicate WrittenPull(counted: bool, s: Bytes) {
    counted && |s| >= 72 ==> Un32(s[65..69]) != 0 && s[69..72] == [0, 0, 0]
  }

  lemma BulkPullCanonicalIff(counted: bool, s: Bytes)
    requires DecodeBulkPull(counted, s).Got?
    ensures var r := DecodeBulkPull(counted, s);
            && r.value.BulkPull? && WellFormed(r.value)
            && (s == Encode(r.value) + r.rest <==> WrittenPull(counted, s))
  {
    hide Le32, Un32;
    var r := DecodeBulkPull(counted, s);
    var ends := s[..32] + s[32..64];
    assert s == ends + s[64..];
    if counted {
      var limit := Un32(s[65..69]);
      Le32Inverse(0, s[65..69]);
      var tail := s[64..72];
      assert tail == [0] + Le32(limit) + s[69..72];
      assert s == ends + tail + s[72..];
      if limit == 0 {
        assert |Encode(r.value) + r.rest| == |s| - 8;
      } else {
        var e := [0] + Le32(limit) + [0, 0, 0];
        assert Encode(r.value) + r.rest == ends + e + s[72..];
        assert (ends + e + s[72..])[69..72] == [0, 0, 0];
      }
    } else {
      assert Encode(r.value) == ends;
    }
  }

  /** A counted pull with a count of zero is accepted and is not what the serialiser
      writes for it. */
  lemma ZeroCountAccepted(first: Bytes, last: Bytes)
    requires |first| == 32 && |last| == 32
    ensures var s := first + last + [0, 0, 0, 0, 0, 0, 0, 0];
            && DecodeBulkPull(true, s) == Got(BulkPull(first, last, 0), [])
            && s != Encode(BulkPull(first, last, 0)) + []
  {
    var tail: Bytes := [0, 0, 0, 0, 0, 0, 0, 0];
    var s := first + last + tail;
    Slices(first, last, tail);
    assert s[65..69] == [0, 0, 0, 0];
    assert Un32([0, 0, 0, 0]) == 0 by {
      assert Le32(0) == [0, 0, 0, 0];
      Le32Inverse(0, []);
    }
  }

  lemma FrontierCanonical(s: Bytes)
    requires |s| >= 40
    ensures s == Encode(FrontierReq(s[..32], Un32(s[32..36]), Un32(s[36..40]))) + s[40..]
  {
    hide Le32, Un32;
    Le32Inverse(0, s[32..36]);
    Le32Inverse(0, s[36..40]);
    assert s == s[..32] + s[32..36] + s[36..40] + s[40..];
  }

  lemma AccountCanonical(s: Bytes)
    requires |s| >= 49
    ensures s == Encode(BulkPullAccount(s[..32], s[32..48], s[48])) + s[49..]
  {
    assert s == s[..32] + s[32..48] + [s[48]] + s[49..];
  }

  // ------------------------------------------------ all kinds

  /** Every accepted payload is a well-formed message of the header's kind; its
      bytes are exactly the serialised message followed by what is left, except
      for a counted pull outside `WrittenPull`. */
  lemma PayloadCanonicalIff(kind: bv8, ext: bv16, s: Bytes)
    requires Decode(kind, ext, s).Got?
    ensures var r := Decode(kind, ext, s);
            && WellFormed(r.value) && Kind(r.value) == kind
            && (s == Encode(r.value) + r.rest <==> (kind == BULK_PULL ==> WrittenPull(Flag(ext, 0), s)))
  {
    hide BlockType, Count, Flag, WrittenPull, DecodePeers, DecodeConfirmReq, DecodeBulkPull, DecodeHandshake,
         DecodeTelemetry, EncodePeers, EncodePairs, EncodeQuery, EncodeResponse, TelemetryFields, Join, Un32, Le32;
    if kind == KEEPALIVE {
      PeersCanonical(s, PEERS);
    } else if kind == CONFIRM_REQ {
      ConfirmReqCanonical(ext, s);
    } else if kind == FRONTIER_REQ {
      FrontierCanonical(s);
    } else if kind == BULK_PULL {
      BulkPullCanonicalIff(Flag(ext, 0), s);
    } else if kind == BULK_PULL_ACCOUNT {
      AccountCanonical(s);
    } else if kind == NODE_ID_HANDSHAKE {
      HandshakeCanonical(Flag(ext, 0), Flag(ext, 1), s);
    } else if kind == TELEMETRY_ACK && ext != 0 {
      TelemetryCanonical(s);
    } else {
      assert [] + s == s;
    }
  }
}
