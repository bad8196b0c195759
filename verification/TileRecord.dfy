/** The byte layout of one head's packed tile record: two 4-bit code matrices, two codes to a
    byte, interleaved with their FP16 scales and zeros. */
module TileRecord {
  import opened Wrappers

  const TILE_TOKENS: nat := 128
  const HEAD_DIM: nat := 256
  const PAIRS: nat := 128
  const CODES_BYTES: nat := 16384
  const K_SCALE: nat := 16384
  const K_ZERO: nat := 16896
  const K_TOKEN_SCALE: nat := 17408
  const V_CODES: nat := 17664
  const V_CHANNEL_SCALE: nat := 34048
  const V_TOKEN_SCALE: nat := 34560
  const V_ZERO: nat := 34816
  const HEAD_RECORD_BYTES: nat := 35072

  /** The little-endian bytes of an FP16 value. */
  datatype Half = Half(lo: bv8, hi: bv8)

  predicate FiniteHalf(h: Half) {
    h.hi & 0x7C != 0x7C
  }

  predicate AllFinite(halves: seq<Half>) {
    forall i :: 0 <= i < |halves| ==> FiniteHalf(halves[i])
  }

  predicate AllCodes(codes: seq<bv8>) {
    forall i :: 0 <= i < |codes| ==> codes[i] < 16
  }

  /** What a head record holds. Key codes are channel-major, value codes token-major. */
  datatype HeadParts = HeadParts(
    keyCodes: seq<bv8>, keyScale: seq<Half>, keyZero: seq<Half>, keyTokenScale: seq<Half>,
    valueCodes: seq<bv8>, valueChannelScale: seq<Half>, valueTokenScale: seq<Half>, valueZero: seq<Half>)
  {
    predicate Shaped() {
      && |keyCodes| == HEAD_DIM * TILE_TOKENS && |valueCodes| == TILE_TOKENS * HEAD_DIM
      && |keyScale| == |keyZero| == |valueChannelScale| == HEAD_DIM
      && |keyTokenScale| == |valueTokenScale| == |valueZero| == TILE_TOKENS
      && AllCodes(keyCodes) && AllCodes(valueCodes)
    }

    predicate Finite() {
      && AllFinite(keyScale) && AllFinite(keyZero) && AllFinite(keyTokenScale)
      && AllFinite(valueChannelScale) && AllFinite(valueTokenScale) && AllFinite(valueZero)
    }
  }

  // ----- reading a record back

  function Nibble(byte: bv8, odd: bool): bv8 {
    if odd then byte >> 4 else byte & 15
  }

  function KeyCode(record: seq<bv8>, channel: nat, token: nat): bv8
    requires |record| == HEAD_RECORD_BYTES && channel < HEAD_DIM && token < TILE_TOKENS
  {
    Nibble(record[token * PAIRS + channel / 2], channel % 2 == 1)
  }

  function ValueCode(record: seq<bv8>, channel: nat, token: nat): bv8
    requires |record| == HEAD_RECORD_BYTES && channel < HEAD_DIM && token < TILE_TOKENS
  {
    Nibble(record[V_CODES + token * PAIRS + channel / 2], channel % 2 == 1)
  }

  ghost predicate HalvesAt(record: seq<bv8>, base: nat, halves: seq<Half>)
    requires base + 2 * |halves| <= |record|
  {
    forall i :: 0 <= i < |halves| ==> Half(record[base + 2 * i], record[base + 2 * i + 1]) == halves[i]
  }

  /** A record reads back as exactly the given parts. */
  ghost predicate ReadsBack(record: seq<bv8>, p: HeadParts)
    requires p.Shaped()
  {
    && |record| == HEAD_RECORD_BYTES
    && (forall c: nat, t: nat :: c < HEAD_DIM && t < TILE_TOKENS ==> KeyCode(record, c, t) == p.keyCodes[c * TILE_TOKENS + t])
    && (forall c: nat, t: nat :: c < HEAD_DIM && t < TILE_TOKENS ==> ValueCode(record, c, t) == p.valueCodes[t * HEAD_DIM + c])
    && HalvesAt(record, K_SCALE, p.keyScale) && HalvesAt(record, K_ZERO, p.keyZero)
    && HalvesAt(record, K_TOKEN_SCALE, p.keyTokenScale)
    && HalvesAt(record, V_CHANNEL_SCALE, p.valueChannelScale)
    && HalvesAt(record, V_TOKEN_SCALE, p.valueTokenScale) && HalvesAt(record, V_ZERO, p.valueZero)
  }

  // ----- packing

  function Pack(low: bv8, high: bv8): bv8 {
    low | (high << 4)
  }

  lemma PackedNibbles(low: bv8, high: bv8)
    requires low < 16 && high < 16
    ensures Nibble(Pack(low, high), false) == low && Nibble(Pack(low, high), true) == high
  {
  }

  /** Byte i of the key codes: a channel pair of one token, read down the channel-major matrix. */
  function KeyByte(codes: seq<bv8>, i: nat): bv8
    requires |codes| == HEAD_DIM * TILE_TOKENS && i < CODES_BYTES
  {
    var token, pair := i / PAIRS, i % PAIRS;
    Pack(codes[pair * 2 * TILE_TOKENS + token], codes[(pair * 2 + 1) * TILE_TOKENS + token])
  }

  /** Byte i of the value codes: a channel pair of one token, adjacent in the token-major matrix. */
  function ValueByte(codes: seq<bv8>, i: nat): bv8
    requires |codes| == TILE_TOKENS * HEAD_DIM && i < CODES_BYTES
  {
    var token, pair := i / PAIRS, i % PAIRS;
    Pack(codes[token * HEAD_DIM + pair * 2], codes[token * HEAD_DIM + pair * 2 + 1])
  }

  method PackKeyCodes(record: array<bv8>, codes: seq<bv8>)
    requires record.Length == HEAD_RECORD_BYTES && |codes| == HEAD_DIM * TILE_TOKENS
    modifies record
    ensures forall i: nat :: i < CODES_BYTES ==> record[i] == KeyByte(codes, i)
    ensures forall i :: CODES_BYTES <= i < record.Length ==> record[i] == old(record[i])
  {
    for token := 0 to TILE_TOKENS
      invariant forall i: nat :: i < token * PAIRS ==> record[i] == KeyByte(codes, i)
      invariant forall i :: token * PAIRS <= i < record.Length ==> record[i] == old(record[i])
    {
      for pair := 0 to PAIRS
        invariant forall i: nat :: i < token * PAIRS + pair ==> record[i] == KeyByte(codes, i)
        invariant forall i :: token * PAIRS + pair <= i < record.Length ==> record[i] == old(record[i])
      {
        assert (token * PAIRS + pair) / PAIRS == token && (token * PAIRS + pair) % PAIRS == pair;
        var low := codes[pair * 2 * TILE_TOKENS + token];
        var high := codes[(pair * 2 + 1) * TILE_TOKENS + token];
        record[token * PAIRS + pair] := low | (high << 4);
      }
    }
  }

  method PackValueCodes(record: array<bv8>, codes: seq<bv8>)
    requires record.Length == HEAD_RECORD_BYTES && |codes| == TILE_TOKENS * HEAD_DIM
    modifies record
    ensures forall i: nat :: i < CODES_BYTES ==> record[V_CODES + i] == ValueByte(codes, i)
    ensures forall i :: 0 <= i < record.Length && !(V_CODES <= i < V_CODES + CODES_BYTES) ==> record[i] == old(record[i])
  {
    for token := 0 to TILE_TOKENS
      invariant forall i: nat :: i < token * PAIRS ==> record[V_CODES + i] == ValueByte(codes, i)
      invariant forall i :: 0 <= i < record.Length && !(V_CODES <= i < V_CODES + token * PAIRS) ==> record[i] == old(record[i])
    {
      for pair := 0 to PAIRS
        invariant forall i: nat :: i < token * PAIRS + pair ==> record[V_CODES + i] == ValueByte(codes, i)
        invariant forall i :: 0 <= i < record.Length && !(V_CODES <= i < V_CODES + token * PAIRS + pair) ==> record[i] == old(record[i])
      {
        assert (token * PAIRS + pair) / PAIRS == token && (token * PAIRS + pair) % PAIRS == pair;
        var low := codes[token * HEAD_DIM + pair * 2];
        var high := codes[token * HEAD_DIM + pair * 2 + 1];
        record[V_CODES + token * PAIRS + pair] := low | (high << 4);
      }
    }
  }

  method WriteHalf(record: array<bv8>, offset: nat, h: Half) returns (ok: bool)
    requires offset + 2 <= record.Length
    modifies record
    ensures ok == FiniteHalf(h)
    ensures ok ==> Half(record[offset], record[offset + 1]) == h
    ensures forall i :: 0 <= i < record.Length && !(ok && offset <= i < offset + 2) ==> record[i] == old(record[i])
  {
    if !FiniteHalf(h) {
      return false;
    }
    record[offset] := h.lo;
    record[offset + 1] := h.hi;
    return true;
  }

  method WriteHalves(record: array<bv8>, base: nat, halves: seq<Half>) returns (ok: bool)
    requires base + 2 * |halves| <= record.Length
    modifies record
    ensures ok == AllFinite(halves)
    ensures ok ==> HalvesAt(record[..], base, halves)
    ensures forall i :: 0 <= i < record.Length && !(base <= i < base + 2 * |halves|) ==> record[i] == old(record[i])
  {
    for n := 0 to |halves|
      invariant AllFinite(halves[..n])
      invariant forall i :: 0 <= i < n ==> Half(record[base + 2 * i], record[base + 2 * i + 1]) == halves[i]
      invariant forall i :: 0 <= i < record.Length && !(base <= i < base + 2 * n) ==> record[i] == old(record[i])
    {
      var written := WriteHalf(record, base + n * 2, halves[n]);
      if !written {
        return false;
      }
    }
    return true;
  }

  /** Two sections filled together, one value of each per step. */
  method WriteScalesAndZeros(record: array<bv8>, scaleBase: nat, zeroBase: nat, scales: seq<Half>, zeros: seq<Half>) returns (ok: bool)
    requires |scales| == |zeros| && scaleBase + 2 * |scales| <= zeroBase && zeroBase + 2 * |zeros| <= record.Length
    modifies record
    ensures ok == (AllFinite(scales) && AllFinite(zeros))
    ensures ok ==> HalvesAt(record[..], scaleBase, scales) && HalvesAt(record[..], zeroBase, zeros)
    ensures forall i :: 0 <= i < record.Length && !(scaleBase <= i < scaleBase + 2 * |scales|) && !(zeroBase <= i < zeroBase + 2 * |zeros|) ==>
              record[i] == old(record[i])
  {
    for n := 0 to |scales|
      invariant AllFinite(scales[..n]) && AllFinite(zeros[..n])
      invariant forall i :: 0 <= i < n ==> Half(record[scaleBase + 2 * i], record[scaleBase + 2 * i + 1]) == scales[i]
      invariant forall i :: 0 <= i < n ==> Half(record[zeroBase + 2 * i], record[zeroBase + 2 * i + 1]) == zeros[i]
      invariant forall i :: 0 <= i < record.Length && !(scaleBase <= i < scaleBase + 2 * n) && !(zeroBase <= i < zeroBase + 2 * n) ==>
                  record[i] == old(record[i])
    {
      var written := WriteHalf(record, scaleBase + n * 2, scales[n]);
      if !written {
        return false;
      }
      written := WriteHalf(record, zeroBase + n * 2, zeros[n]);
      if !written {
        return false;
      }
    }
    return true;
  }

  lemma KeyCodesRead(record: seq<bv8>, codes: seq<bv8>, c: nat, t: nat)
    requires |record| == HEAD_RECORD_BYTES && |codes| == HEAD_DIM * TILE_TOKENS && AllCodes(codes)
    requires forall i: nat :: i < CODES_BYTES ==> record[i] == KeyByte(codes, i)
    requires c < HEAD_DIM && t < TILE_TOKENS
    ensures KeyCode(record, c, t) == codes[c * TILE_TOKENS + t]
  {
    var pair := c / 2;
    assert (t * PAIRS + pair) / PAIRS == t && (t * PAIRS + pair) % PAIRS == pair;
    PackedNibbles(codes[pair * 2 * TILE_TOKENS + t], codes[(pair * 2 + 1) * TILE_TOKENS + t]);
    assert record[t * PAIRS + pair] == KeyByte(codes, t * PAIRS + pair);
  }

  lemma ValueCodesRead(record: seq<bv8>, codes: seq<bv8>, c: nat, t: nat)
    requires |record| == HEAD_RECORD_BYTES && |codes| == TILE_TOKENS * HEAD_DIM && AllCodes(codes)
    requires forall i: nat :: i < CODES_BYTES ==> record[V_CODES + i] == ValueByte(codes, i)
    requires c < HEAD_DIM && t < TILE_TOKENS
    ensures ValueCode(record, c, t) == codes[t * HEAD_DIM + c]
  {
    var pair := c / 2;
    assert (t * PAIRS + pair) / PAIRS == t && (t * PAIRS + pair) % PAIRS == pair;
    PackedNibbles(codes[t * HEAD_DIM + pair * 2], codes[t * HEAD_DIM + pair * 2 + 1]);
    assert record[V_CODES + (t * PAIRS + pair)] == ValueByte(codes, t * PAIRS + pair);
  }

  /** Fill a head record section by section; later sections never disturb earlier ones. */
  method EncodeHead(p: HeadParts) returns (r: Option<seq<bv8>>)
    requires p.Shaped()
    ensures r.Some? <==> p.Finite()
    ensures r.Some? ==> ReadsBack(r.value, p)
  {
    var record := new bv8[HEAD_RECORD_BYTES](_ => 0);
    PackKeyCodes(record, p.keyCodes);
    var ok := WriteScalesAndZeros(record, K_SCALE, K_ZERO, p.keyScale, p.keyZero);
    if !ok {
      return None;
    }
    ok := WriteHalves(record, K_TOKEN_SCALE, p.keyTokenScale);
    if !ok {
      return None;
    }
    PackValueCodes(record, p.valueCodes);
    ok := WriteHalves(record, V_CHANNEL_SCALE, p.valueChannelScale);
    if !ok {
      return None;
    }
    ok := WriteScalesAndZeros(record, V_TOKEN_SCALE, V_ZERO, p.valueTokenScale, p.valueZero);
    if !ok {
      return None;
    }
    forall c: nat, t: nat | c < HEAD_DIM && t < TILE_TOKENS
      ensures KeyCode(record[..], c, t) == p.keyCodes[c * TILE_TOKENS + t]
      ensures ValueCode(record[..], c, t) == p.valueCodes[t * HEAD_DIM + c]
    {
      KeyCodesRead(record[..], p.keyCodes, c, t);
      ValueCodesRead(record[..], p.valueCodes, c, t);
    }
    return Some(record[..]);
  }
}
