/** The wire format of core/net.c, byte by byte: a 14-byte Ethernet header and 33 bytes of payload. */
module NetFrames {
  import opened Options
  import opened Words

  const ETHERTYPE_HI: byte := 0x88
  const ETHERTYPE_LO: byte := 0xB5
  const FRAME_LEN: nat := 47
  const RECEIVE_BUFFER: nat := 64

  type Mac = m: seq<byte> | |m| == 6 witness [0, 0, 0, 0, 0, 0]

  const BROADCAST: Mac := [0xFF, 0xFF, 0xFF, 0xFF, 0xFF, 0xFF]

  datatype Frame = Frame(dest: Mac, src: Mac, mtype: u64, data: u64, sender: u64, seqno: u64, isAck: bool)

  function Encode(f: Frame): (r: seq<byte>)
    ensures |r| == FRAME_LEN
  {
    f.dest + f.src + [ETHERTYPE_HI, ETHERTYPE_LO]
    + LittleEndian(f.mtype, 8) + LittleEndian(f.data, 8) + LittleEndian(f.sender, 8) + LittleEndian(f.seqno, 8)
    + [if f.isAck then 1 else 0]
  }

  predicate OurType(b: seq<byte>) {
    |b| >= 14 && b[12] == ETHERTYPE_HI && b[13] == ETHERTYPE_LO
  }

  lemma Pow8()
    ensures Pow256(8) == 0x1_0000_0000_0000_0000
  {
    assert Pow256(1) == 256;
    assert Pow256(2) == 0x1_0000;
    assert Pow256(3) == 0x100_0000;
    assert Pow256(4) == 0x1_0000_0000;
    assert Pow256(5) == 0x100_0000_0000;
    assert Pow256(6) == 0x1_0000_0000_0000;
    assert Pow256(7) == 0x100_0000_0000_0000;
  }

  /** Eight bytes read back as one 64-bit word. */
  function Word(p: seq<byte>): u64
    requires |p| == 8
  {
    Pow8();
    FromLittleEndian(p)
  }

  /** What net_poll_receive_raw makes of n received bytes; None is every reason to ignore them. */
  function Decode(b: seq<byte>): (r: Option<Frame>)
    ensures r.Some? <==> |b| >= FRAME_LEN && OurType(b)
  {
    if |b| < FRAME_LEN || !OurType(b) then None
    else Some(Frame(b[0..6], b[6..12], Word(b[14..22]), Word(b[22..30]), Word(b[30..38]), Word(b[38..46]), b[46] != 0))
  }

  lemma WordRoundTrip(v: u64)
    ensures Word(LittleEndian(v, 8)) == v
  {
    Pow8();
    LittleEndianRoundTrip(v, 8);
  }

  /** A frame survives the wire, including link-layer padding behind it. */
  lemma FrameRoundTrip(f: Frame, pad: seq<byte>)
    ensures Decode(Encode(f) + pad) == Some(f)
  {
    var b := Encode(f) + pad;
    assert b[0..6] == f.dest && b[6..12] == f.src;
    assert b[14..22] == LittleEndian(f.mtype, 8);
    assert b[22..30] == LittleEndian(f.data, 8);
    assert b[30..38] == LittleEndian(f.sender, 8);
    assert b[38..46] == LittleEndian(f.seqno, 8);
    WordRoundTrip(f.mtype);
    WordRoundTrip(f.data);
    WordRoundTrip(f.sender);
    WordRoundTrip(f.seqno);
    assert b[46] == if f.isAck then 1 else 0;
    assert OurType(b);
  }

  /** Conversely, what was decoded encodes to the bytes received, up to the value of a nonzero ACK flag. */
  lemma DecodeFaithful(b: seq<byte>)
    requires Decode(b).Some?
    ensures Encode(Decode(b).value)[..46] == b[..46]
  {
    var f := Decode(b).value;
    FromLittleEndianRoundTrip(b[14..22]);
    FromLittleEndianRoundTrip(b[22..30]);
    FromLittleEndianRoundTrip(b[30..38]);
    FromLittleEndianRoundTrip(b[38..46]);
    assert b[..12] == b[0..6] + b[6..12];
    assert b[..14] == b[..12] + [b[12], b[13]];
    assert b[..22] == b[..14] + b[14..22];
    assert b[..30] == b[..22] + b[22..30];
    assert b[..38] == b[..30] + b[30..38];
    assert b[..46] == b[..38] + b[38..46];
  }

  // ---- the loops of net.c -----------------------------------------------------------

  /** for (i = 0; i < 8; i++) p[at + i] = (uint8_t)(v >> (8 * i)) */
  method PutWord(frame: array<byte>, at: nat, v: u64)
    requires at + 8 <= frame.Length
    modifies frame
    ensures frame[at..at + 8] == LittleEndian(v, 8)
    ensures frame[..at] == old(frame[..at]) && frame[at + 8..] == old(frame[at + 8..])
    ensures frame[..at + 8] == old(frame[..at]) + LittleEndian(v, 8)
  {
    var i := 0;
    while i < 8
      invariant 0 <= i <= 8
      invariant forall j :: 0 <= j < i ==> frame[at + j] == v / Pow256(j) % 256
      invariant frame[..at] == old(frame[..at]) && frame[at + 8..] == old(frame[at + 8..])
    {
      frame[at + i] := v / Pow256(i) % 256;
      i := i + 1;
    }
    forall j | 0 <= j < 8
      ensures frame[at + j] == LittleEndian(v, 8)[j]
    {
      LittleEndianAt(v, 8, j);
    }
  }

  /** for (i = 0; i < 8; i++) v |= ((uint64_t)p[at + i]) << (8 * i) */
  method GetWord(b: seq<byte>, at: nat) returns (v: u64)
    requires at + 8 <= |b|
    ensures v == Word(b[at..at + 8])
  {
    Pow8();
    var p := b[at..at + 8];
    var acc := 0;
    var i := 0;
    while i < 8
      invariant 0 <= i <= 8
      invariant acc == FromLittleEndian(p[..i])
    {
      FromLittleEndianSnoc(p[..i], p[i]);
      assert p[..i + 1] == p[..i] + [p[i]];
      acc := acc + p[i] * Pow256(i);
      i := i + 1;
    }
    assert p[..8] == p;
    v := acc;
  }

  lemma {:induction false} FromLittleEndianSnoc(p: seq<byte>, x: byte)
    ensures FromLittleEndian(p + [x]) == FromLittleEndian(p) + x * Pow256(|p|)
  {
    if p == [] {
      assert p + [x] == [x];
      assert FromLittleEndian([x]) == x + 256 * FromLittleEndian([]);
    } else {
      FromLittleEndianSnoc(p[1..], x);
      assert (p + [x])[1..] == p[1..] + [x];
      var w := Pow256(|p| - 1);
      assert 256 * (x * w) == x * (256 * w);
    }
  }

  /** Destination, source and EtherType. */
  method PutHeader(frame: array<byte>, f: Frame)
    requires frame.Length >= 14
    modifies frame
    ensures frame[..14] == f.dest + f.src + [ETHERTYPE_HI, ETHERTYPE_LO]
  {
    var i := 0;
    while i < 6
      invariant 0 <= i <= 6
      invariant forall j :: 0 <= j < i ==> frame[j] == f.dest[j] && frame[6 + j] == f.src[j]
    {
      frame[i] := f.dest[i];
      frame[6 + i] := f.src[i];
      i := i + 1;
    }
    frame[12] := ETHERTYPE_HI;
    frame[13] := ETHERTYPE_LO;
  }

  /** net_send_raw's frame. */
  method BuildFrame(f: Frame) returns (r: seq<byte>)
    ensures r == Encode(f)
  {
    var frame := new byte[FRAME_LEN](i => 0);
    PutHeader(frame, f);
    PutWord(frame, 14, f.mtype);
    PutWord(frame, 22, f.data);
    PutWord(frame, 30, f.sender);
    PutWord(frame, 38, f.seqno);
    ghost var head := frame[..46];
    frame[46] := if f.isAck then 1 else 0;
    assert frame[..46] == head;
    r := frame[..];
    assert r == r[..46] + [r[46]];
  }

  method ParseFrame(b: seq<byte>) returns (r: Option<Frame>)
    ensures r == Decode(b)
  {
    if |b| < FRAME_LEN {
      return None;
    }
    if b[12] != ETHERTYPE_HI || b[13] != ETHERTYPE_LO {
      return None;
    }
    var t := GetWord(b, 14);
    var d := GetWord(b, 22);
    var s := GetWord(b, 30);
    var q := GetWord(b, 38);
    return Some(Frame(b[0..6], b[6..12], t, d, s, q, b[46] != 0));
  }
}
