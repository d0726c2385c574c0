/** The TON Connect `ton_proof` check of `src/auth/ton_proof.py`: the server payload,
    the byte layout of the proof message and of the message whose digest the wallet
    signs, the public-key decision, and the extraction of the key from a wallet's
    StateInit with a slice cursor. */
module TonProof {
  import opened Common

  type Byte = b: int | 0 <= b < 256
  type Bytes = seq<Byte>

  // ---------------------------------------------------------------------------
  // Integers as bytes (`int.to_bytes`)
  // ---------------------------------------------------------------------------

  function Pow256(n: nat): (p: nat)
    ensures p >= 1
  {
    if n == 0 then 1 else 256 * Pow256(n - 1)
  }

  datatype ByteOrder = BigEndian | LittleEndian

  /** The value of big-endian bytes. */
  function FromBig(bytes: Bytes): nat {
    if bytes == [] then 0 else FromBig(bytes[..|bytes| - 1]) * 256 + bytes[|bytes| - 1]
  }

  function Reverse(bytes: Bytes): (r: Bytes)
    ensures |r| == |bytes|
    ensures forall i :: 0 <= i < |bytes| ==> r[i] == bytes[|bytes| - 1 - i]
  {
    if bytes == [] then [] else Reverse(bytes[1..]) + [bytes[0]]
  }

  lemma {:induction false} ReverseReverse(bytes: Bytes)
    ensures Reverse(Reverse(bytes)) == bytes
  {
    var r := Reverse(Reverse(bytes));
    assert |r| == |bytes|;
    forall i | 0 <= i < |bytes| ensures r[i] == bytes[i] {
      assert r[i] == Reverse(bytes)[|bytes| - 1 - i];
    }
  }

  /** The value of bytes in the given order. */
  function FromBytes(bytes: Bytes, order: ByteOrder): nat {
    if order == BigEndian then FromBig(bytes) else FromBig(Reverse(bytes))
  }

  /** `n` as `length` big-endian bytes; `n` must fit. */
  function Big(n: nat, length: nat): (bytes: Bytes)
    requires n < Pow256(length)
    ensures |bytes| == length
  {
    if length == 0 then []
    else
      assert n / 256 < Pow256(length - 1);
      Big(n / 256, length - 1) + [n % 256]
  }

  lemma {:induction false} BigRoundTrip(n: nat, length: nat)
    requires n < Pow256(length)
    ensures FromBig(Big(n, length)) == n
  {
    if length > 0 {
      var bytes := Big(n, length);
      assert bytes[..|bytes| - 1] == Big(n / 256, length - 1);
      BigRoundTrip(n / 256, length - 1);
    }
  }

  /** The value of `length` bytes is below 256^length. */
  lemma {:induction false} FromBigBound(bytes: Bytes)
    ensures FromBig(bytes) < Pow256(|bytes|)
  {
    if bytes != [] {
      FromBigBound(bytes[..|bytes| - 1]);
    }
  }

  /** `n.to_bytes(length, order)`: OverflowError for a negative `n` or one that does not fit. */
  function ToBytes(n: int, length: nat, order: ByteOrder): (r: Result<Bytes>)
    ensures r.Ok? <==> 0 <= n < Pow256(length)
    ensures r.Err? ==> r.error == Overflow
    ensures r.Ok? ==> |r.value| == length && FromBytes(r.value, order) == n
  {
    if 0 <= n < Pow256(length) then
      BigRoundTrip(n, length);
      ReverseReverse(Big(n, length));
      Ok(if order == BigEndian then Big(n, length) else Reverse(Big(n, length)))
    else Err(Overflow)
  }

  // ---------------------------------------------------------------------------
  // Hex (`bytes.hex()`)
  // ---------------------------------------------------------------------------

  function HexDigit(d: int): char
    requires 0 <= d < 16
  {
    if d < 10 then (48 + d) as char else (87 + d) as char
  }

  /** The value of a lowercase hex digit. */
  function DigitValue(c: char): Option<int> {
    if '0' <= c <= '9' then Some(c as int - 48)
    else if 'a' <= c <= 'f' then Some(c as int - 87)
    else None
  }

  /** `bytes.hex()`: two lowercase hex digits per byte, high nibble first. */
  function Hex(bytes: Bytes): (s: string)
    ensures |s| == 2 * |bytes|
  {
    if bytes == [] then []
    else [HexDigit(bytes[0] / 16), HexDigit(bytes[0] % 16)] + Hex(bytes[1..])
  }

  /** `bytes.fromhex(s)` restricted to lowercase digits without separators. */
  function FromHex(s: string): Option<Bytes>
    decreases |s|
  {
    if s == [] then Some([])
    else if |s| == 1 then None
    else
      match (DigitValue(s[0]), DigitValue(s[1]), FromHex(s[2..]))
      case (Some(hi), Some(lo), Some(rest)) =>
        if 0 <= hi < 16 && 0 <= lo < 16 then Some([hi * 16 + lo] + rest) else None
      case _ => None
  }

  lemma {:induction false} HexRoundTrip(bytes: Bytes)
    ensures FromHex(Hex(bytes)) == Some(bytes)
  {
    if bytes != [] {
      var s := Hex(bytes);
      assert s[2..] == Hex(bytes[1..]);
      HexRoundTrip(bytes[1..]);
      assert DigitValue(s[0]) == Some(bytes[0] / 16);
      assert DigitValue(s[1]) == Some(bytes[0] % 16);
      assert [bytes[0]] + bytes[1..] == bytes;
    }
  }

  // ---------------------------------------------------------------------------
  // bytearray
  // ---------------------------------------------------------------------------

  /** A Python `bytearray` grown with `extend`. */
  class ByteArray {
    var bytes: Bytes

    constructor (initial: Bytes)
      ensures bytes == initial
    {
      bytes := initial;
    }

    method Extend(more: Bytes)
      modifies this
      ensures bytes == old(bytes) + more
    {
      bytes := bytes + more;
    }
  }

  // ---------------------------------------------------------------------------
  // generate_payload
  // ---------------------------------------------------------------------------

  /** The payload for a given random prefix and deadline: the eight random bytes, then
      the deadline as eight big-endian bytes, in hex. */
  function Payload(randomBytes: Bytes, deadline: int): (payload: Result<string>)
    requires |randomBytes| == 8
    ensures payload.Ok? <==> 0 <= deadline < Pow256(8)
    ensures payload.Ok? ==> |payload.value| == 32
  {
    match ToBytes(deadline, 8, BigEndian)
    case Err(e) => Err(e)
    case Ok(stamp) => Ok(Hex(randomBytes + stamp))
  }

  /** A payload decodes back to its random prefix and its deadline. */
  lemma {:induction false} PayloadRoundTrip(randomBytes: Bytes, deadline: int)
    requires |randomBytes| == 8 && 0 <= deadline < Pow256(8)
    ensures var payload := Payload(randomBytes, deadline);
            && payload.Ok?
            && var decoded := FromHex(payload.value);
               decoded.Some? && |decoded.value| == 16
               && decoded.value[..8] == randomBytes
               && FromBig(decoded.value[8..]) == deadline
  {
    var stamp := ToBytes(deadline, 8, BigEndian).value;
    HexRoundTrip(randomBytes + stamp);
    assert (randomBytes + stamp)[8..] == stamp;
    assert (randomBytes + stamp)[..8] == randomBytes;
  }

  /** `generate_payload(ttl)`: random bytes from `random(8)` and the deadline
      `int(now + ttl)`, with `now` the clock in seconds. */
  method GeneratePayload(ttl: int, randomBytes: Bytes, now: real) returns (payload: Result<string>)
    requires |randomBytes| == 8
    ensures payload == Payload(randomBytes, Trunc(now + ttl as real))
  {
    var buffer := new ByteArray(randomBytes);
    var deadline := Trunc(now + ttl as real);
    var stamp := ToBytes(deadline, 8, BigEndian);
    if stamp.Err? {
      return Err(stamp.error);
    }
    buffer.Extend(stamp.value);
    payload := Ok(Hex(buffer.bytes));
  }

  /** `PAYLOAD_TTL` as the auth endpoint defines it: twenty minutes in milliseconds. */
  const PayloadTtl: int := 1000 * 60 * 20

  /** As written the payload's deadline is the clock in seconds plus twenty minutes
      counted in milliseconds: over thirteen days ahead, not twenty minutes. */
  lemma PayloadTtlOverstatesDeadline(now: real)
    requires now >= 0.0
    ensures Trunc(now + PayloadTtl as real) as real > now + 13.0 * 24.0 * 3600.0
  {
  }

  /** Twenty minutes in the unit `generate_payload` adds to the clock: seconds. */
  const PayloadTtlSeconds: int := 60 * 20

  /** With the TTL in seconds the embedded deadline is twenty minutes ahead. */
  lemma PayloadDeadlineTwentyMinutes(now: real)
    requires now >= 0.0
    ensures var deadline := Trunc(now + PayloadTtlSeconds as real);
            now + 1199.0 < deadline as real <= now + 1200.0
  {
  }

  // ---------------------------------------------------------------------------
  // The proof message and the signed message (`check_ton_proof`)
  // ---------------------------------------------------------------------------

  /** The parts of the user's address the proof covers: workchain and 32-byte hash part. */
  datatype AccountAddress = AccountAddress(workchain: int, hashPart: Bytes)

  /** `TonProofDomain`, with the domain name already UTF-8 encoded. */
  datatype Domain = Domain(lengthBytes: int, value: Bytes)

  /** `TonProof` as the wallet sends it; the payload is UTF-8 encoded. */
  datatype Proof = Proof(
    timestamp: int,
    domain: Domain,
    signature: string,
    payload: Bytes,
    stateInit: Option<string>,
    publicKey: Option<string>)

  /** A SHA-256 digest. */
  type Digest = d: Bytes | |d| == 32 witness seq(32, _ => 0)

  /** "ton-proof-item-v2/" in ASCII. */
  const ProofPrefix: Bytes := [116, 111, 110, 45, 112, 114, 111, 111, 102, 45, 105, 116, 101, 109, 45, 118, 50, 47]
  /** "ton-connect" in ASCII. */
  const ConnectPrefix: Bytes := [116, 111, 110, 45, 99, 111, 110, 110, 101, 99, 116]

  /** The two prefixes spell their text character by character. */
  lemma PrefixesSpellTheirText()
    ensures var text := "ton-proof-item-v2/";
            |ProofPrefix| == |text| && forall i :: 0 <= i < |text| ==> ProofPrefix[i] == text[i] as int
    ensures var text := "ton-connect";
            |ConnectPrefix| == |text| && forall i :: 0 <= i < |text| ==> ConnectPrefix[i] == text[i] as int
  {
  }

  /** The payload the message ends with: the server's when it has one, else the wallet's. */
  function SignedPayload(serverPayload: Option<Bytes>, proof: Proof): Bytes {
    if serverPayload.Some? then serverPayload.value else proof.payload
  }

  /** The proof message: prefix, workchain (4 bytes little-endian), hash part, domain
      length (4 bytes little-endian), domain, timestamp (8 bytes little-endian), payload.
      `to_bytes` raises when a number is negative or does not fit. */
  function ProofMessage(address: AccountAddress, proof: Proof, serverPayload: Option<Bytes>): (m: Result<Bytes>)
    ensures m.Ok? <==> (0 <= address.workchain < Pow256(4)
                        && 0 <= proof.domain.lengthBytes < Pow256(4)
                        && 0 <= proof.timestamp < Pow256(8))
    ensures m.Err? ==> m.error == Overflow
  {
    var wc := ToBytes(address.workchain, 4, LittleEndian);
    var length := ToBytes(proof.domain.lengthBytes, 4, LittleEndian);
    var timestamp := ToBytes(proof.timestamp, 8, LittleEndian);
    if wc.Ok? && length.Ok? && timestamp.Ok? then
      Ok(Layout(wc.value, address.hashPart, length.value, proof.domain.value, timestamp.value,
                SignedPayload(serverPayload, proof)))
    else Err(Overflow)
  }

  /** The fields of the proof message laid end to end after the prefix. */
  function Layout(wc: Bytes, hashPart: Bytes, length: Bytes, domain: Bytes, timestamp: Bytes, payload: Bytes): Bytes {
    ProofPrefix + wc + hashPart + length + domain + timestamp + payload
  }

  /** Where each field of a layout with 4-byte numbers and a 32-byte hash sits. */
  lemma {:induction false} LayoutOffsets(wc: Bytes, hashPart: Bytes, length: Bytes, domain: Bytes, timestamp: Bytes, payload: Bytes)
    requires |wc| == 4 && |hashPart| == 32 && |length| == 4 && |timestamp| == 8
    ensures var m := Layout(wc, hashPart, length, domain, timestamp, payload);
            var d := |domain|;
            && |m| == 66 + d + |payload|
            && m[..18] == ProofPrefix && m[18..22] == wc && m[22..54] == hashPart
            && m[54..58] == length && m[58..58 + d] == domain
            && m[58 + d..66 + d] == timestamp && m[66 + d..] == payload
  {
    var m := Layout(wc, hashPart, length, domain, timestamp, payload);
    var d := |domain|;
    assert |ProofPrefix| == 18;
    assert m[..18] == ProofPrefix;
    assert m[18..22] == wc;
    assert m[22..54] == hashPart;
    assert m[54..58] == length;
    assert m[58..58 + d] == domain;
    assert m[58 + d..66 + d] == timestamp;
    assert m[66 + d..] == payload;
  }

  /** The proof message read back: every field sits at its offset and decodes to the
      value it was built from, and the tail is the chosen payload. */
  lemma {:induction false} ProofMessageLayout(address: AccountAddress, proof: Proof, serverPayload: Option<Bytes>)
    requires |address.hashPart| == 32
    requires ProofMessage(address, proof, serverPayload).Ok?
    ensures var m := ProofMessage(address, proof, serverPayload).value;
            var d := |proof.domain.value|;
            && |m| == 66 + d + |SignedPayload(serverPayload, proof)|
            && m[..18] == ProofPrefix
            && FromBytes(m[18..22], LittleEndian) == address.workchain
            && m[22..54] == address.hashPart
            && FromBytes(m[54..58], LittleEndian) == proof.domain.lengthBytes
            && m[58..58 + d] == proof.domain.value
            && FromBytes(m[58 + d..66 + d], LittleEndian) == proof.timestamp
            && m[66 + d..] == SignedPayload(serverPayload, proof)
  {
    var wc := ToBytes(address.workchain, 4, LittleEndian).value;
    var length := ToBytes(proof.domain.lengthBytes, 4, LittleEndian).value;
    var timestamp := ToBytes(proof.timestamp, 8, LittleEndian).value;
    LayoutOffsets(wc, address.hashPart, length, proof.domain.value, timestamp, SignedPayload(serverPayload, proof));
  }

  /** `check_ton_proof` lines building `message`: successive `extend` calls on a bytearray. */
  method BuildProofMessage(address: AccountAddress, proof: Proof, serverPayload: Option<Bytes>)
    returns (m: Result<Bytes>)
    ensures m == ProofMessage(address, proof, serverPayload)
  {
    var message := new ByteArray([]);
    message.Extend(ProofPrefix);
    assert message.bytes == ProofPrefix;
    var wc := ToBytes(address.workchain, 4, LittleEndian);
    if wc.Err? {
      return Err(wc.error);
    }
    message.Extend(wc.value);
    message.Extend(address.hashPart);
    assert message.bytes == ProofPrefix + wc.value + address.hashPart;
    var length := ToBytes(proof.domain.lengthBytes, 4, LittleEndian);
    if length.Err? {
      return Err(length.error);
    }
    message.Extend(length.value);
    message.Extend(proof.domain.value);
    ghost var header := message.bytes;
    assert header == ProofPrefix + wc.value + address.hashPart + length.value + proof.domain.value;
    var timestamp := ToBytes(proof.timestamp, 8, LittleEndian);
    if timestamp.Err? {
      return Err(timestamp.error);
    }
    message.Extend(timestamp.value);
    if serverPayload.Some? {
      message.Extend(serverPayload.value);
    } else {
      message.Extend(proof.payload);
    }
    assert message.bytes == Layout(wc.value, address.hashPart, length.value, proof.domain.value,
                                   timestamp.value, SignedPayload(serverPayload, proof));
    m := Ok(message.bytes);
  }

  /** The message whose SHA-256 the wallet signs: `0xFF 0xFF`, "ton-connect", then the
      SHA-256 of the proof message. */
  function SignatureMessage(message: Bytes, sha256: Bytes -> Digest): (s: Bytes)
    ensures |s| == 45
    ensures s[..2] == [255, 255] && s[2..13] == ConnectPrefix && s[13..] == sha256(message)
  {
    [255, 255] + ConnectPrefix + sha256(message)
  }

  /** `check_ton_proof` lines building `signature_message`. */
  method BuildSignatureMessage(message: Bytes, sha256: Bytes -> Digest) returns (s: Bytes)
    ensures s == SignatureMessage(message, sha256)
  {
    var buffer := new ByteArray([]);
    buffer.Extend([255, 255]);
    buffer.Extend(ConnectPrefix);
    buffer.Extend(sha256(message));
    s := buffer.bytes;
  }

  /** The workchain as the TON Connect ton_proof layout defines it: a signed 32-bit
      integer, big-endian (two's complement). */
  function SignedWorkchain(wc: int): (r: Result<Bytes>)
    ensures r.Ok? <==> -0x8000_0000 <= wc < 0x8000_0000
    ensures r.Ok? ==> |r.value| == 4
  {
    if -0x8000_0000 <= wc < 0x8000_0000 then
      ToBytes(if wc < 0 then wc + 0x1_0000_0000 else wc, 4, BigEndian)
    else Err(Overflow)
  }

  /** The proof message with the workchain encoded as the standard defines it. */
  function StandardProofMessage(address: AccountAddress, proof: Proof, serverPayload: Option<Bytes>): (m: Result<Bytes>)
    ensures m.Ok? <==> (-0x8000_0000 <= address.workchain < 0x8000_0000
                        && 0 <= proof.domain.lengthBytes < Pow256(4)
                        && 0 <= proof.timestamp < Pow256(8))
  {
    var wc := SignedWorkchain(address.workchain);
    var length := ToBytes(proof.domain.lengthBytes, 4, LittleEndian);
    var timestamp := ToBytes(proof.timestamp, 8, LittleEndian);
    if wc.Ok? && length.Ok? && timestamp.Ok? then
      Ok(Layout(wc.value, address.hashPart, length.value, proof.domain.value, timestamp.value,
                SignedPayload(serverPayload, proof)))
    else Err(Overflow)
  }

  /** As written a masterchain wallet (workchain -1) cannot be checked: `to_bytes` raises. */
  lemma MasterchainProofRaises(hashPart: Bytes, proof: Proof, serverPayload: Option<Bytes>)
    ensures ProofMessage(AccountAddress(-1, hashPart), proof, serverPayload) == Err(Overflow)
  {
  }

  /** The standard encoding accepts every 32-bit workchain, decodes back to it, and
      agrees with the encoding as written on workchain 0. */
  lemma {:induction false} StandardWorkchainRoundTrip(wc: int)
    requires -0x8000_0000 <= wc < 0x8000_0000
    ensures var bytes := SignedWorkchain(wc).value;
            var unsigned := FromBytes(bytes, BigEndian);
            (if unsigned >= 0x8000_0000 then unsigned - 0x1_0000_0000 else unsigned) == wc
    ensures wc == 0 ==> SignedWorkchain(wc) == ToBytes(wc, 4, LittleEndian)
  {
    if wc == 0 {
      var big := ToBytes(0, 4, BigEndian).value;
      var little := ToBytes(0, 4, LittleEndian).value;
      assert big == [0, 0, 0, 0];
      assert little == Reverse(big);
    }
  }

  /** On workchain 0 the standard message and the message as written coincide. */
  lemma StandardAgreesOnBasechain(hashPart: Bytes, proof: Proof, serverPayload: Option<Bytes>)
    ensures StandardProofMessage(AccountAddress(0, hashPart), proof, serverPayload)
            == ProofMessage(AccountAddress(0, hashPart), proof, serverPayload)
  {
    StandardWorkchainRoundTrip(0);
  }

  // ---------------------------------------------------------------------------
  // Cells and the slice cursor
  // ---------------------------------------------------------------------------

  /** A decoded cell: its data bits and its references. */
  datatype Cell = Cell(bits: seq<bool>, refs: seq<Cell>)

  /** The unsigned value of bits, most significant first. */
  function BitsValue(bits: seq<bool>): nat {
    if bits == [] then 0
    else 2 * BitsValue(bits[..|bits| - 1]) + (if bits[|bits| - 1] then 1 else 0)
  }

  function Pow2(n: nat): (p: nat)
    ensures p >= 1
  {
    if n == 0 then 1 else 2 * Pow2(n - 1)
  }

  lemma {:induction false} BitsValueBound(bits: seq<bool>)
    ensures BitsValue(bits) < Pow2(|bits|)
  {
    if bits != [] {
      BitsValueBound(bits[..|bits| - 1]);
    }
  }

  /** Eight bits as a byte. */
  function ByteOf(bits: seq<bool>): Byte
    requires |bits| == 8
  {
    BitsValueBound(bits);
    assert Pow2(8) == 256;
    BitsValue(bits)
  }

  /** Bits packed into bytes, eight at a time, the last byte padded with zero bits
      (`bitarray.tobytes()`). */
  function Pack(bits: seq<bool>): (bytes: Bytes)
    ensures |bytes| == (|bits| + 7) / 8
  {
    if bits == [] then []
    else if |bits| < 8 then [ByteOf(bits + seq(8 - |bits|, _ => false))]
    else [ByteOf(bits[..8])] + Pack(bits[8..])
  }

  /** `n` as `length` bits, most significant first. */
  function Bits(n: nat, length: nat): (bits: seq<bool>)
    ensures |bits| == length
  {
    if length == 0 then [] else Bits(n / 2, length - 1) + [n % 2 == 1]
  }

  lemma {:induction false} BitsRoundTrip(n: nat, length: nat)
    requires n < Pow2(length)
    ensures BitsValue(Bits(n, length)) == n
  {
    if length > 0 {
      var bits := Bits(n, length);
      assert bits[..|bits| - 1] == Bits(n / 2, length - 1);
      BitsRoundTrip(n / 2, length - 1);
    }
  }

  /** Bytes as bits, eight per byte, most significant first (`store_buffer`). */
  function Unpack(bytes: Bytes): (bits: seq<bool>)
    ensures |bits| == 8 * |bytes|
  {
    if bytes == [] then [] else Bits(bytes[0], 8) + Unpack(bytes[1..])
  }

  /** Packing the bits of some bytes, followed by anything, gives those bytes back first. */
  lemma {:induction false} PackUnpack(bytes: Bytes, tail: seq<bool>)
    ensures |Pack(Unpack(bytes) + tail)| >= |bytes|
    ensures Pack(Unpack(bytes) + tail)[..|bytes|] == bytes
  {
    if bytes != [] {
      var first := Bits(bytes[0], 8);
      var rest := Unpack(bytes[1..]) + tail;
      var bits := Unpack(bytes) + tail;
      assert bits == first + rest;
      assert bits[..8] == first && bits[8..] == rest;
      FirstByte(bytes[0]);
      PackUnpack(bytes[1..], tail);
      var packed := Pack(bits);
      assert packed == [bytes[0]] + Pack(rest);
      assert packed[..|bytes|] == [bytes[0]] + Pack(rest)[..|bytes| - 1];
      assert bytes == [bytes[0]] + bytes[1..];
    }
  }

  lemma FirstByte(b: Byte)
    ensures ByteOf(Bits(b, 8)) == b
  {
    assert Pow2(8) == 256;
    BitsRoundTrip(b, 8);
  }

  /** A read cursor over a cell (tonsdk `Slice`): the bits not yet read, the cell's
      references, and the index of the next reference. */
  class Slice {
    var bits: seq<bool>
    var refs: seq<Cell>
    var refOffset: nat

    constructor (cell: Cell)
      ensures bits == cell.bits && refs == cell.refs && refOffset == 0
    {
      bits := cell.bits;
      refs := cell.refs;
      refOffset := 0;
    }

    /** `read_bit`: the next bit; reading past the end raises. */
    method ReadBit() returns (bit: Result<bool>)
      modifies this
      ensures old(bits) == [] ==> bit == Err(Malformed) && bits == old(bits)
      ensures old(bits) != [] ==> bit == Ok(old(bits)[0]) && bits == old(bits)[1..]
      ensures refs == old(refs) && refOffset == old(refOffset)
    {
      if bits == [] {
        return Err(Malformed);
      }
      bit := Ok(bits[0]);
      bits := bits[1..];
    }

    /** `read_ref`: the next reference; reading past the last one raises. */
    method ReadRef() returns (ref: Result<Cell>)
      modifies this
      ensures old(refOffset) >= |refs| ==> ref == Err(Malformed) && refOffset == old(refOffset)
      ensures old(refOffset) < |refs| ==> ref == Ok(refs[old(refOffset)]) && refOffset == old(refOffset) + 1
      ensures bits == old(bits) && refs == old(refs)
    {
      if refOffset >= |refs| {
        return Err(Malformed);
      }
      ref := Ok(refs[refOffset]);
      refOffset := refOffset + 1;
    }

    /** tonsdk's `Slice.read_uint(width)`: the value of the next `width` bits, or of all
        that remain when fewer do; nothing left to read raises. The library converts the
        bits in one call; the loop here only computes that result, `BitsValue` of the bits
        consumed, and stands for no loop of the wallet code. */
    method ReadUint(width: nat) returns (value: Result<nat>)
      modifies this
      ensures var k := if width < |old(bits)| then width else |old(bits)|;
              && (k == 0 ==> value == Err(Malformed) && bits == old(bits))
              && (k > 0 ==> value == Ok(BitsValue(old(bits)[..k])) && bits == old(bits)[k..])
      ensures refs == old(refs) && refOffset == old(refOffset)
    {
      var k := if width < |bits| then width else |bits|;
      if k == 0 {
        return Err(Malformed);
      }
      var n := 0;
      var i := 0;
      while i < k
        invariant 0 <= i <= k
        invariant n == BitsValue(bits[..i])
      {
        assert bits[..i + 1][..i] == bits[..i];
        n := 2 * n + (if bits[i] then 1 else 0);
        i := i + 1;
      }
      value := Ok(n);
      bits := bits[k..];
    }

    /** `read_bytes(count)`: the next `8 * count` bits, or all that remain, packed into
        bytes with the last one zero-padded. */
    method ReadBytes(count: nat) returns (bytes: Bytes)
      modifies this
      ensures var k := if 8 * count < |old(bits)| then 8 * count else |old(bits)|;
              bytes == Pack(old(bits)[..k]) && bits == old(bits)[k..]
      ensures refs == old(refs) && refOffset == old(refOffset)
    {
      var k := if 8 * count < |bits| then 8 * count else |bits|;
      bytes := Pack(bits[..k]);
      bits := bits[k..];
    }
  }

  // ---------------------------------------------------------------------------
  // Wallet versions and the key in the data cell (`_get_public_key_from_data`)
  // ---------------------------------------------------------------------------

  /** tonsdk's `WalletVersionEnum`. */
  datatype WalletVersion = SimpleR1 | SimpleR2 | SimpleR3 | V2R1 | V2R2 | V3R1 | V3R2 | V4R1 | V4R2 | HighloadV2

  /** The number of 32-bit fields `_get_public_key_from_data` reads before the key: the
      seqno for v2, seqno and subwallet id for v3 and v4, and the subwallet id alone for
      highload v2; None for a version it does not handle. For v2, v3 and v4 this is how
      the wallet stores its data. A highload v2 wallet stores a 64-bit `last_cleaned`
      after its subwallet id, which this count leaves out (see `HighloadKeyMisread`). */
  function FieldsBeforeKey(version: WalletVersion): Option<nat> {
    match version
    case V2R1 | V2R2 | HighloadV2 => Some(1)
    case V3R1 | V3R2 | V4R1 | V4R2 => Some(2)
    case _ => None
  }

  /** The first 32 bytes (`[:32]`). */
  function Take32(bytes: Bytes): (r: Bytes)
    ensures |r| == if |bytes| < 32 then |bytes| else 32
  {
    if |bytes| <= 32 then bytes else bytes[..32]
  }

  /** Where the key begins after `fields` 32-bit reads, each of which stops at the end. */
  function KeyStart(bits: seq<bool>, fields: nat): (start: nat)
    ensures start <= |bits|
  {
    if 32 * fields < |bits| then 32 * fields else |bits|
  }

  /** The public key read from a data cell: skip the version's 32-bit fields, pack the
      rest into bytes, keep the first 32 and write them in hex. A field read with no bits
      left raises. */
  function DataKey(data: Cell, version: WalletVersion): (key: Result<Option<string>>)
    ensures key.Err? <==> (FieldsBeforeKey(version).Some?
                           && |data.bits| <= 32 * (FieldsBeforeKey(version).value - 1))
    ensures FieldsBeforeKey(version).None? ==> key == Ok(None)
    ensures key.Ok? && key.value.Some? ==> |key.value.value| <= 64
  {
    match FieldsBeforeKey(version)
    case None => Ok(None)
    case Some(fields) =>
      if |data.bits| <= 32 * (fields - 1) then Err(Malformed)
      else
        Ok(Some(Hex(Take32(Pack(data.bits[KeyStart(data.bits, fields)..])))))
  }

  /** A data cell holding as many 32-bit fields as `FieldsBeforeKey` counts, then the
      32-byte key (and possibly more), gives that key in hex. This is the stored layout of
      v2, v3 and v4 wallets; for highload v2 it is only the layout the code assumes. */
  lemma {:induction false} DataKeyReadsStoredKey(fields: seq<bool>, key: Bytes, tail: seq<bool>, refs: seq<Cell>, version: WalletVersion)
    requires FieldsBeforeKey(version).Some? && |fields| == 32 * FieldsBeforeKey(version).value
    requires |key| == 32
    ensures DataKey(Cell(fields + Unpack(key) + tail, refs), version) == Ok(Some(Hex(key)))
  {
    var bits := fields + Unpack(key) + tail;
    assert bits[|fields|..] == Unpack(key) + tail;
    PackUnpack(key, tail);
    var packed := Pack(Unpack(key) + tail);
    assert Take32(packed) == packed[..32];
  }

  /** `_get_public_key_from_data`: a slice over the data cell, the version's field reads,
      then `read_bytes(len(slice))[:32].hex()`. */
  method KeyFromData(data: Cell, version: WalletVersion) returns (key: Result<Option<string>>)
    ensures key == DataKey(data, version)
  {
    var slice := new Slice(data);
    if version in {V2R1, V2R2} {
      key := KeyAfterOneField(slice, data, version);
    } else if version in {V3R1, V3R2, V4R1, V4R2} {
      key := KeyAfterTwoFields(slice, data, version);
    } else if version == HighloadV2 {
      key := KeyAfterOneField(slice, data, version);
    } else {
      key := Ok(None);
    }
  }

  /** One 32-bit field, then the key: `seqno` on a v2 wallet, and on a highload v2
      wallet `subwallet_id`, the only field the code assumes before its key. */
  method KeyAfterOneField(slice: Slice, ghost data: Cell, ghost version: WalletVersion) returns (key: Result<Option<string>>)
    requires FieldsBeforeKey(version) == Some(1) && slice.bits == data.bits
    modifies slice
    ensures key == DataKey(data, version)
  {
    var seqno := slice.ReadUint(32);
    if seqno.Err? {
      return Err(seqno.error);
    }
    key := KeyAfterFields(slice, data, version);
  }

  /** Two 32-bit fields, `seqno` then `subwallet_id`, then the key. */
  method KeyAfterTwoFields(slice: Slice, ghost data: Cell, ghost version: WalletVersion) returns (key: Result<Option<string>>)
    requires FieldsBeforeKey(version) == Some(2) && slice.bits == data.bits
    modifies slice
    ensures key == DataKey(data, version)
  {
    var seqno := slice.ReadUint(32);
    if seqno.Err? {
      return Err(seqno.error);
    }
    var subwalletId := slice.ReadUint(32);
    if subwalletId.Err? {
      return Err(subwalletId.error);
    }
    key := KeyAfterFields(slice, data, version);
  }

  /** The key once the version's fields are read: the rest of the slice, packed. */
  method KeyAfterFields(slice: Slice, ghost data: Cell, ghost version: WalletVersion) returns (key: Result<Option<string>>)
    requires FieldsBeforeKey(version).Some? && |data.bits| > 32 * (FieldsBeforeKey(version).value - 1)
    requires slice.bits == data.bits[KeyStart(data.bits, FieldsBeforeKey(version).value)..]
    modifies slice
    ensures key == DataKey(data, version)
  {
    var publicKey := KeyFromRest(slice);
    key := Ok(Some(publicKey));
  }

  /** `read_bytes(len(data_slice))[:32].hex()`: `len` counts bits, so every remaining
      bit is read. */
  method KeyFromRest(slice: Slice) returns (publicKey: string)
    modifies slice
    ensures publicKey == Hex(Take32(Pack(old(slice.bits))))
    ensures slice.bits == []
  {
    ghost var rest := slice.bits;
    var publicKeyBytes := slice.ReadBytes(|slice.bits|);
    assert rest[..|rest|] == rest;
    publicKey := Hex(Take32(publicKeyBytes));
  }



  /** As written, a highload v2 data cell as the wallet stores it (a 32-bit subwallet id,
      the 64-bit `last_cleaned`, then the key) yields the `last_cleaned` bytes followed by
      the first 24 bytes of the key: whenever `last_cleaned` differs from the key's first
      8 bytes, the key reported is not the wallet's. */
  lemma {:induction false} HighloadKeyMisread(
    subwalletId: seq<bool>, lastCleaned: Bytes, key: Bytes, tail: seq<bool>, refs: seq<Cell>)
    requires |subwalletId| == 32 && |lastCleaned| == 8 && |key| == 32
    ensures var read := DataKey(Cell(subwalletId + Unpack(lastCleaned) + Unpack(key) + tail, refs), HighloadV2);
            && read.Ok? && read.value.Some?
            && var bytes := FromHex(read.value.value);
            && bytes.Some? && |bytes.value| == 32 && bytes.value[..8] == lastCleaned
            && (lastCleaned != key[..8] ==> read != Ok(Some(Hex(key))))
  {
    var bits := subwalletId + Unpack(lastCleaned) + Unpack(key) + tail;
    var rest := Unpack(lastCleaned) + (Unpack(key) + tail);
    assert bits[32..] == rest;
    PackUnpack(lastCleaned, Unpack(key) + tail);
    var packed := Pack(rest);
    var got := Take32(packed);
    assert got == packed[..32];
    assert got[..8] == lastCleaned;
    HexRoundTrip(got);
    if Hex(got) == Hex(key) {
      HexRoundTrip(key);
      assert got == key;
    }
  }

  /** The fields each wallet version stores before its key, as bit widths: a 32-bit seqno
      for v2, seqno and a 32-bit subwallet id for v3 and v4, a 32-bit subwallet id and the
      64-bit `last_cleaned` for highload v2. */
  function StoredFieldWidths(version: WalletVersion): (widths: Option<seq<nat>>)
    ensures widths.Some? <==> FieldsBeforeKey(version).Some?
    ensures version != HighloadV2 && widths.Some? ==> widths.value == seq(FieldsBeforeKey(version).value, _ => 32)
  {
    match version
    case V2R1 | V2R2 => Some([32])
    case V3R1 | V3R2 | V4R1 | V4R2 => Some([32, 32])
    case HighloadV2 => Some([32, 64])
    case _ => None
  }

  function SumWidths(widths: seq<nat>): nat {
    if widths == [] then 0 else widths[0] + SumWidths(widths[1..])
  }

  /** What is left after one `read_uint` per width, each reading up to its width and
      raising when no bits remain. */
  function SkipFields(bits: seq<bool>, widths: seq<nat>): (rest: Result<seq<bool>>)
    ensures rest.Ok? ==> |rest.value| <= |bits| && rest.value == bits[|bits| - |rest.value|..]
    ensures rest.Err? ==> rest.error == Malformed
    decreases |widths|
  {
    if widths == [] then Ok(bits)
    else if bits == [] then Err(Malformed)
    else
      var k := if widths[0] < |bits| then widths[0] else |bits|;
      var rest := SkipFields(bits[k..], widths[1..]);
      if rest.Ok? then
        assert bits[k..][|bits[k..]| - |rest.value|..] == bits[|bits| - |rest.value|..];
        rest
      else rest
  }

  /** Fields of exactly the given widths, followed by something, are skipped exactly. */
  lemma {:induction false} SkipStoredFields(fields: seq<bool>, rest: seq<bool>, widths: seq<nat>)
    requires |fields| == SumWidths(widths) && rest != []
    ensures SkipFields(fields + rest, widths) == Ok(rest)
    decreases |widths|
  {
    if widths != [] {
      var w := widths[0];
      assert (fields + rest)[w..] == fields[w..] + rest;
      SkipStoredFields(fields[w..], rest, widths[1..]);
    }
  }

  /** The key read as the wallets store it: skip each stored field, then pack the rest
      into bytes, keep the first 32 and write them in hex. */
  function StoredDataKey(data: Cell, version: WalletVersion): (key: Result<Option<string>>)
    ensures StoredFieldWidths(version).None? ==> key == Ok(None)
    ensures key.Err? ==> key.error == Malformed
    ensures key.Ok? && key.value.Some? ==> |key.value.value| <= 64
  {
    match StoredFieldWidths(version)
    case None => Ok(None)
    case Some(widths) =>
      match SkipFields(data.bits, widths)
      case Err(e) => Err(e)
      case Ok(rest) => Ok(Some(Hex(Take32(Pack(rest)))))
  }

  /** Every wallet version's data cell as the wallet stores it, its fields followed by
      the 32-byte key, yields that key, highload v2 included. */
  lemma {:induction false} StoredDataKeyReadsStoredKey(
    fields: seq<bool>, key: Bytes, tail: seq<bool>, refs: seq<Cell>, version: WalletVersion)
    requires StoredFieldWidths(version).Some? && |fields| == SumWidths(StoredFieldWidths(version).value)
    requires |key| == 32
    ensures StoredDataKey(Cell(fields + Unpack(key) + tail, refs), version) == Ok(Some(Hex(key)))
  {
    var widths := StoredFieldWidths(version).value;
    var rest := Unpack(key) + tail;
    var bits := fields + Unpack(key) + tail;
    assert bits == fields + rest;
    SkipStoredFields(fields, rest, widths);
    assert SkipFields(bits, widths) == Ok(rest);
    KeyLeadsRest(key, tail);
  }

  /** Bits that start with a 32-byte key read back as that key. */
  lemma KeyLeadsRest(key: Bytes, tail: seq<bool>)
    requires |key| == 32
    ensures Hex(Take32(Pack(Unpack(key) + tail))) == Hex(key)
  {
    PackUnpack(key, tail);
    var packed := Pack(Unpack(key) + tail);
    assert Take32(packed) == packed[..32];
  }

  /** For v2, v3 and v4 wallets, and for versions without a key, the corrected reading
      is the code's. */
  lemma {:induction false} StoredDataKeyAgreesBesidesHighload(data: Cell, version: WalletVersion)
    requires version != HighloadV2
    ensures StoredDataKey(data, version) == DataKey(data, version)
  {
    match FieldsBeforeKey(version)
    case None =>
    case Some(fields) =>
      if fields == 1 {
        assert StoredFieldWidths(version) == Some([32]);
        SkipOneField(data.bits);
      } else {
        assert StoredFieldWidths(version) == Some([32, 32]);
        SkipTwoFields(data.bits);
      }
  }

  lemma SkipOneField(bits: seq<bool>)
    ensures SkipFields(bits, [32]) == if bits == [] then Err(Malformed) else Ok(bits[KeyStart(bits, 1)..])
  {
    if bits != [] {
      var k := KeyStart(bits, 1);
      assert SkipFields(bits[k..], []) == Ok(bits[k..]);
    }
  }

  lemma SkipTwoFields(bits: seq<bool>)
    ensures SkipFields(bits, [32, 32]) == if |bits| <= 32 then Err(Malformed) else Ok(bits[KeyStart(bits, 2)..])
  {
    if bits != [] {
      var rest := bits[KeyStart(bits, 1)..];
      SkipFirstField(bits, [32, 32]);
      assert [32, 32][1..] == [32];
      SkipOneField(rest);
      if |bits| > 32 {
        DropTwice(bits);
      }
    }
  }

  lemma SkipFirstField(bits: seq<bool>, widths: seq<nat>)
    requires bits != [] && widths != []
    ensures var k := if widths[0] < |bits| then widths[0] else |bits|;
            SkipFields(bits, widths) == SkipFields(bits[k..], widths[1..])
  {
  }

  lemma DropTwice(bits: seq<bool>)
    requires |bits| > 32
    ensures var rest := bits[KeyStart(bits, 1)..];
            rest != [] && rest[KeyStart(rest, 1)..] == bits[KeyStart(bits, 2)..]
  {
    var rest := bits[32..];
    assert KeyStart(rest, 1) == KeyStart(bits, 2) - 32;
  }

  // ---------------------------------------------------------------------------
  // The key in a StateInit (`get_public_key_from_state_init`)
  // ---------------------------------------------------------------------------

  /** The wallet version a code cell belongs to: `get_wallet_version` on the base64 of
      the cell's hash. */
  type VersionOf = Cell -> Option<WalletVersion>

  /** The key a StateInit cell yields. The cell holds the split-depth, special and
      have-code bits, the code reference when that bit is set, the have-data bit, the
      data reference when that bit is set, and the library bit; any of those reads past
      the end raises. No code, no data or an unknown code gives None. */
  function StateInitKey(stateInit: Cell, versionOf: VersionOf): (key: Result<Option<string>>)
    ensures key.Err? ==> key.error == Malformed
  {
    var bits := stateInit.bits;
    var refs := stateInit.refs;
    if |bits| < 3 then Err(Malformed)
    else if !bits[2] then Ok(None)
    else if |refs| < 1 || |bits| < 4 then Err(Malformed)
    else if bits[3] && |refs| < 2 then Err(Malformed)
    else if |bits| < 5 then Err(Malformed)
    else if !bits[3] then Ok(None)
    else
      match versionOf(refs[0])
      case None => Ok(None)
      case Some(version) => DataKey(refs[1], version)
  }

  /** A StateInit built as a wallet builds it (no split depth, not special, code, data,
      no library) yields the key of its data cell under its code's version. */
  lemma WellFormedStateInitKey(code: Cell, data: Cell, versionOf: VersionOf)
    ensures var stateInit := Cell([false, false, true, true, false], [code, data]);
            StateInitKey(stateInit, versionOf)
            == if versionOf(code).None? then Ok(None) else DataKey(data, versionOf(code).value)
  {
  }

  /** With the code bit unset there is no key, whatever follows. */
  lemma NoCodeNoKey(stateInit: Cell, versionOf: VersionOf)
    requires |stateInit.bits| >= 3 && !stateInit.bits[2]
    ensures StateInitKey(stateInit, versionOf) == Ok(None)
  {
  }

  /** With the code present but the data bit unset there is no key. */
  lemma NoDataNoKey(stateInit: Cell, versionOf: VersionOf)
    requires |stateInit.bits| >= 5 && stateInit.bits[2] && !stateInit.bits[3] && |stateInit.refs| >= 1
    ensures StateInitKey(stateInit, versionOf) == Ok(None)
  {
  }

  /** `get_public_key_from_state_init` after the BOC is decoded: the reads in order on a
      slice over the cell. */
  method GetPublicKeyFromStateInit(stateInit: Cell, versionOf: VersionOf) returns (key: Result<Option<string>>)
    ensures key == StateInitKey(stateInit, versionOf)
  {
    var slice := new Slice(stateInit);
    var splitDepth := slice.ReadBit();
    if splitDepth.Err? {
      return Err(splitDepth.error);
    }
    var special := slice.ReadBit();
    if special.Err? {
      return Err(special.error);
    }
    var haveCode := slice.ReadBit();
    if haveCode.Err? {
      return Err(haveCode.error);
    }
    if !haveCode.value {
      return Ok(None);
    }
    var codeCell := slice.ReadRef();
    if codeCell.Err? {
      return Err(codeCell.error);
    }
    key := DataPart(slice, stateInit, codeCell.value, versionOf);
  }

  /** The rest of `get_public_key_from_state_init` once the code reference is read. */
  method DataPart(slice: Slice, ghost stateInit: Cell, codeCell: Cell, versionOf: VersionOf)
    returns (key: Result<Option<string>>)
    requires |stateInit.bits| >= 3 && stateInit.bits[2] && |stateInit.refs| >= 1
    requires slice.bits == stateInit.bits[3..] && slice.refs == stateInit.refs && slice.refOffset == 1
    requires codeCell == stateInit.refs[0]
    modifies slice
    ensures key == StateInitKey(stateInit, versionOf)
  {
    var haveData := slice.ReadBit();
    if haveData.Err? {
      return Err(haveData.error);
    }
    var dataCell: Option<Cell> := None;
    if haveData.value {
      var ref := slice.ReadRef();
      if ref.Err? {
        return Err(ref.error);
      }
      dataCell := Some(ref.value);
    }
    var library := slice.ReadBit();
    if library.Err? {
      return Err(library.error);
    }
    if dataCell.None? {
      return Ok(None);
    }
    var version := versionOf(codeCell);
    if version.None? {
      return Ok(None);
    }
    key := KeyFromData(dataCell.value, version.value);
  }

  // ---------------------------------------------------------------------------
  // The verdict of `check_ton_proof`
  // ---------------------------------------------------------------------------

  /** The library calls `check_ton_proof` relies on. */
  datatype Crypto = Crypto(
    sha256: Bytes -> Digest,
    // `Cell.one_from_boc(b64str_to_bytes(state_init))`; None when decoding raises
    decodeStateInit: string -> Option<Cell>,
    versionOf: VersionOf,
    // `VerifyKey(key, HexEncoder).verify(digest, b64str_to_bytes(signature))` returns;
    // false when any of them raises
    verify: (string, Digest, string) -> bool)

  /** The key the proof is checked against: the wallet's own key when the RPC returns
      one (`walletKey`, None also when the call raised), else the key in the StateInit.
      A missing or undecodable StateInit raises. */
  function ResolvedKey(walletKey: Option<string>, stateInit: Option<string>, crypto: Crypto): (key: Result<Option<string>>)
    ensures walletKey.Some? ==> key == Ok(walletKey)
  {
    if walletKey.Some? then Ok(walletKey)
    else if stateInit.None? then Err(Malformed)
    else
      match crypto.decodeStateInit(stateInit.value)
      case None => Err(Malformed)
      case Some(cell) => StateInitKey(cell, crypto.versionOf)
  }

  /** `request.proof.public_key` is set (not None, not empty) and differs from the key. */
  predicate ClaimedKeyMismatch(claimed: Option<string>, key: Option<string>) {
    claimed.Some? && claimed.value != "" && key != Some(claimed.value)
  }

  /** The outcome of `check_ton_proof`: Err where it raises, else whether it returns True. */
  function TonProofVerdict(serverPayload: Option<Bytes>, address: AccountAddress, proof: Proof,
                           walletKey: Option<string>, crypto: Crypto): Result<bool>
  {
    match ProofMessage(address, proof, serverPayload)
    case Err(e) => Err(e)
    case Ok(message) =>
      match ResolvedKey(walletKey, proof.stateInit, crypto)
      case Err(e) => Err(e)
      case Ok(key) =>
        if ClaimedKeyMismatch(proof.publicKey, key) then Ok(false)
        else
          var digest := crypto.sha256(SignatureMessage(message, crypto.sha256));
          Ok(key.Some? && crypto.verify(key.value, digest, proof.signature))
  }

  /** A proof is accepted exactly when its message can be built, a key is resolved,
      any key the wallet claims is that key, and the signature over the digest of the
      signed message verifies under it. */
  lemma AcceptedExactlyWhenSignatureVerifies(serverPayload: Option<Bytes>, address: AccountAddress, proof: Proof,
                                             walletKey: Option<string>, crypto: Crypto)
    ensures TonProofVerdict(serverPayload, address, proof, walletKey, crypto) == Ok(true)
            <==> (&& ProofMessage(address, proof, serverPayload).Ok?
                  && var message := ProofMessage(address, proof, serverPayload).value;
                     var key := ResolvedKey(walletKey, proof.stateInit, crypto);
                     && key.Ok? && key.value.Some?
                     && (proof.publicKey.None? || proof.publicKey.value == "" || proof.publicKey.value == key.value.value)
                     && crypto.verify(key.value.value, crypto.sha256(SignatureMessage(message, crypto.sha256)), proof.signature))
  {
  }

  /** A claimed key that differs from the resolved one rejects the proof without a
      signature check. */
  lemma ClaimedKeyMismatchRejects(serverPayload: Option<Bytes>, address: AccountAddress, proof: Proof,
                                  walletKey: Option<string>, crypto: Crypto)
    requires ProofMessage(address, proof, serverPayload).Ok?
    requires ResolvedKey(walletKey, proof.stateInit, crypto).Ok?
    requires ClaimedKeyMismatch(proof.publicKey, ResolvedKey(walletKey, proof.stateInit, crypto).value)
    ensures TonProofVerdict(serverPayload, address, proof, walletKey, crypto) == Ok(false)
  {
  }

  /** When the wallet's key is known the StateInit is never read: the verdict does not
      depend on it. */
  lemma WalletKeyOverridesStateInit(serverPayload: Option<Bytes>, address: AccountAddress, proof: Proof,
                                    key: string, crypto: Crypto, otherStateInit: Option<string>)
    ensures TonProofVerdict(serverPayload, address, proof, Some(key), crypto)
            == TonProofVerdict(serverPayload, address, proof.(stateInit := otherStateInit), Some(key), crypto)
  {
  }

  /** `check_ton_proof` with the address already parsed and the wallet-key RPC's answer
      passed in. */
  method CheckTonProof(serverPayload: Option<Bytes>, address: AccountAddress, proof: Proof,
                       walletKey: Option<string>, crypto: Crypto) returns (ok: Result<bool>)
    ensures ok == TonProofVerdict(serverPayload, address, proof, walletKey, crypto)
  {
    var message := BuildProofMessage(address, proof, serverPayload);
    if message.Err? {
      return Err(message.error);
    }
    var signatureMessage := BuildSignatureMessage(message.value, crypto.sha256);
    var publicKey := walletKey;
    if publicKey.None? {
      if proof.stateInit.None? {
        return Err(Malformed);
      }
      var cell := crypto.decodeStateInit(proof.stateInit.value);
      if cell.None? {
        return Err(Malformed);
      }
      var fromStateInit := GetPublicKeyFromStateInit(cell.value, crypto.versionOf);
      if fromStateInit.Err? {
        return Err(fromStateInit.error);
      }
      publicKey := fromStateInit.value;
    }
    if proof.publicKey.Some? && proof.publicKey.value != "" && publicKey != Some(proof.publicKey.value) {
      return Ok(false);
    }
    if publicKey.None? {
      return Ok(false);
    }
    ok := Ok(crypto.verify(publicKey.value, crypto.sha256(signatureMessage), proof.signature));
  }
}
