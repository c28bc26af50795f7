/** The probe header, written in place by the agent and by the responder that echoes it. */
module ProbeHeader {
  import opened Numbers

  const MAGIC: seq<Byte> := [0x4e, 0x4f, 0x42, 0x50]
  const VERSION: Byte := 2

  /** Probes start with four letters and the version of their layout. */
  lemma MagicSpellsName()
    ensures |MAGIC| == 4 && VERSION == 2
    ensures forall i :: 0 <= i < 4 ==> MAGIC[i] as char == "NOBP"[i]
  {
  }
  const HEADER_SIZE := 24

  function Power256(k: nat): (p: nat)
    ensures p >= 1
  {
    if k == 0 then 1 else 256 * Power256(k - 1)
  }

  /** The `k` low bytes of a number, most significant first. */
  function BigEndian(n: nat, k: nat): (b: seq<Byte>)
    ensures |b| == k
  {
    if k == 0 then [] else BigEndian(n / 256, k - 1) + [n % 256]
  }

  function FromBigEndian(b: seq<Byte>): (n: nat)
    ensures n < Power256(|b|)
  {
    if b == [] then 0 else 256 * FromBigEndian(b[..|b| - 1]) + b[|b| - 1]
  }

  lemma {:induction false} NumberSurvives(n: nat, k: nat)
    requires n < Power256(k)
    ensures FromBigEndian(BigEndian(n, k)) == n
  {
    if k > 0 {
      NumberSurvives(n / 256, k - 1);
      assert BigEndian(n, k)[..k - 1] == BigEndian(n / 256, k - 1);
    }
  }

  lemma {:induction false} BytesSurvive(b: seq<Byte>)
    ensures BigEndian(FromBigEndian(b), |b|) == b
  {
    if b != [] {
      BytesSurvive(b[..|b| - 1]);
      var front, last := FromBigEndian(b[..|b| - 1]), b[|b| - 1];
      assert (256 * front + last) / 256 == front && (256 * front + last) % 256 == last;
    }
  }

  /** `decode_header`: the sequence number and the responder's processing time. */
  function DecodeHeader(b: seq<Byte>): Option<(nat, nat)> {
    if |b| < HEADER_SIZE || b[0..4] != MAGIC || b[4] != VERSION then None
    else Some((FromBigEndian(b[8..16]), FromBigEndian(b[16..24])))
  }

  function Header(sequence: nat, processingNs: nat): (b: seq<Byte>)
    ensures |b| == HEADER_SIZE
  {
    MAGIC + [VERSION, 0, 0, 0] + BigEndian(sequence, 8) + BigEndian(processingNs, 8)
  }

  /** Writes the header over the first bytes of a packet of `length` bytes; nothing else changes. */
  method EncodeHeader(buffer: array<Byte>, length: nat, sequence: nat, processingNs: nat) returns (ok: bool)
    requires length <= buffer.Length
    modifies buffer
    ensures ok <==> length >= HEADER_SIZE
    ensures buffer[..] == if ok then Header(sequence, processingNs) + old(buffer[HEADER_SIZE..]) else old(buffer[..])
  {
    if length < HEADER_SIZE { return false; }
    hide BigEndian;
    ghost var before := buffer[..];
    var high, low := BigEndian(sequence, 8), BigEndian(processingNs, 8);
    Copy(buffer, 0, MAGIC);
    buffer[4], buffer[5], buffer[6], buffer[7] := VERSION, 0, 0, 0;
    Copy(buffer, 8, high);
    Copy(buffer, 16, low);
    ghost var want := Header(sequence, processingNs) + before[HEADER_SIZE..];
    forall i | 0 <= i < buffer.Length ensures buffer[i] == want[i] {
      if 8 <= i < 16 { assert buffer[i] == high[i - 8]; } else if 16 <= i < 24 { assert buffer[i] == low[i - 16]; }
    }
    assert buffer[..] == want;
    return true;
  }

  /** `copy_from_slice`. */
  method Copy(buffer: array<Byte>, at: nat, b: seq<Byte>)
    requires at + |b| <= buffer.Length
    modifies buffer
    ensures forall k :: 0 <= k < |b| ==> buffer[at + k] == b[k]
    ensures forall i :: 0 <= i < buffer.Length && !(at <= i < at + |b|) ==> buffer[i] == old(buffer[i])
  {
    for i := 0 to |b|
      invariant forall k :: 0 <= k < i ==> buffer[at + k] == b[k]
      invariant forall k :: 0 <= k < buffer.Length && !(at <= k < at + i) ==> buffer[k] == old(buffer[k])
    {
      buffer[at + i] := b[i];
    }
  }

  /** A packet decodes exactly when it starts with a header, and to what that header was made of; only
      the three reserved bytes do not matter. */
  lemma DecodesIffHeader(b: seq<Byte>, sequence: nat, processingNs: nat)
    requires sequence < Power256(8) && processingNs < Power256(8)
    ensures DecodeHeader(b) == Some((sequence, processingNs)) <==>
      && |b| >= HEADER_SIZE
      && b[0..5] == Header(sequence, processingNs)[0..5] && b[8..24] == Header(sequence, processingNs)[8..24]
  {
    hide Power256;
    NumberSurvives(sequence, 8);
    NumberSurvives(processingNs, 8);
    HeaderParts(sequence, processingNs);
    hide Header;
    if |b| >= HEADER_SIZE {
      BytesSurvive(b[8..16]);
      BytesSurvive(b[16..24]);
      hide BigEndian;
      hide FromBigEndian;
      SameSlices(b, Header(sequence, processingNs));
    }
  }

  lemma HeaderParts(sequence: nat, processingNs: nat)
    ensures var h := Header(sequence, processingNs);
      && h[0..4] == MAGIC && h[4] == VERSION
      && h[8..16] == BigEndian(sequence, 8) && h[16..24] == BigEndian(processingNs, 8)
  {
    hide BigEndian;
  }

  lemma SameSlices(b: seq<Byte>, h: seq<Byte>)
    requires |b| >= HEADER_SIZE && |h| >= HEADER_SIZE
    ensures b[0..5] == h[0..5] <==> b[0..4] == h[0..4] && b[4] == h[4]
    ensures b[8..24] == h[8..24] <==> b[8..16] == h[8..16] && b[16..24] == h[16..24]
  {
    assert b[0..5] == b[0..4] + [b[4]] && h[0..5] == h[0..4] + [h[4]];
    assert b[8..24] == b[8..16] + b[16..24] && h[8..24] == h[8..16] + h[16..24];
    if b[0..5] == h[0..5] {
      assert b[0..4] == b[0..5][..4] && h[0..4] == h[0..5][..4] && b[4] == b[0..5][4];
    }
    if b[8..24] == h[8..24] {
      assert b[8..16] == b[8..24][..8] && h[8..16] == h[8..24][..8];
      assert b[16..24] == b[8..24][8..] && h[16..24] == h[8..24][8..];
    }
  }

  /** One packet through the responder: a request without a timestamp, too short or without a valid
      header is dropped; any other is echoed. */
  method Respond(buffer: array<Byte>, length: nat, receivedNs: Option<nat>, nowNs: nat) returns (echoed: bool)
    requires length <= buffer.Length
    modifies buffer
    ensures var request := DecodeHeader(old(buffer[..length]));
      && (echoed <==> receivedNs.Some? && request.Some?)
      && buffer[..] == (if echoed then Header(request.value.0, SaturatingSub(nowNs, receivedNs.value)) + old(buffer[HEADER_SIZE..])
                        else old(buffer[..]))
  {
    if receivedNs.None? || length < HEADER_SIZE { return false; }
    var request := DecodeHeader(buffer[..length]);
    if request.None? { return false; }
    echoed := EncodeHeader(buffer, length, request.value.0, SaturatingSub(nowNs, receivedNs.value));
  }

  /** A probe of at least header size comes back with its own sequence number, the responder's
      processing time and its own payload. */
  method RoundTrip(buffer: array<Byte>, sequence: nat, receivedNs: nat, nowNs: nat)
    requires buffer.Length >= HEADER_SIZE && sequence < Power256(8) && nowNs < Power256(8)
    modifies buffer
    ensures DecodeHeader(buffer[..]) == Some((sequence, SaturatingSub(nowNs, receivedNs)))
    ensures buffer[HEADER_SIZE..] == old(buffer[HEADER_SIZE..])
  {
    hide Power256;
    hide Header;
    ghost var payload := buffer[HEADER_SIZE..];
    var sent := EncodeHeader(buffer, buffer.Length, sequence, 0);
    assert buffer[..buffer.Length] == buffer[..];
    ghost var header := Header(sequence, 0);
    PowerPositive();
    StartsWithHeader(sequence, 0, payload);
    var echoed := Respond(buffer, buffer.Length, Some(receivedNs), nowNs);
    StartsWithHeader(sequence, SaturatingSub(nowNs, receivedNs), payload);
    assert (header + payload)[HEADER_SIZE..] == payload;
  }

  lemma PowerPositive()
    ensures 0 < Power256(8)
  {
  }

  lemma StartsWithHeader(sequence: nat, processingNs: nat, payload: seq<Byte>)
    requires sequence < Power256(8) && processingNs < Power256(8)
    ensures DecodeHeader(Header(sequence, processingNs) + payload) == Some((sequence, processingNs))
    ensures (Header(sequence, processingNs) + payload)[HEADER_SIZE..] == payload
  {
    hide DecodeHeader;
    hide Power256;
    var h := Header(sequence, processingNs);
    hide Header;
    assert (h + payload)[0..5] == h[0..5] && (h + payload)[8..24] == h[8..24];
    DecodesIffHeader(h + payload, sequence, processingNs);
  }
}
