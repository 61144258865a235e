/** The UDP codec of RFC 768 with its mandatory checksum. */
module Udp {
  import opened Wrappers
  import opened Buffers
  import opened Checksums

  const UDP_HEADER_LEN: nat := 8
  const MAX_UDP_PAYLOAD: nat := 1500 - 20 - UDP_HEADER_LEN
  const UDP_PROTOCOL: u8 := 17

  datatype ParseError = Truncated | BadTotalLength | BadChecksum | PayloadTooLarge | BufferTooSmall

  datatype UdpHeader = UdpHeader(srcPort: u16, dstPort: u16, length: u16, checksum: u16)

  /** Four octets. */
  datatype Address = Address(a: u8, b: u8, c: u8, d: u8) {
    function Octets(): (o: seq<u8>)
      ensures |o| == 4
    {
      [a, b, c, d]
    }
  }

  function BigEndian(v: u16): (b: seq<u8>)
    ensures |b| == 2 && Word(b[0], b[1]) == v
  {
    [v / 256, v % 256]
  }

  function Header(src: u16, dst: u16, length: u16, checksum: u16): (h: seq<u8>)
    ensures |h| == UDP_HEADER_LEN
  {
    BigEndian(src) + BigEndian(dst) + BigEndian(length) + BigEndian(checksum)
  }

  /** The pseudo-header: both addresses, the protocol and the length. */
  function PseudoSum(src: Address, dst: Address, length: u16): (sum: nat)
    ensures sum > 0
  {
    WordSum(src.Octets()) + WordSum(dst.Octets()) + UDP_PROTOCOL + length
  }

  /** The datagram and its pseudo-header sum to all ones. */
  predicate Checks(src: Address, dst: Address, datagram: seq<u8>)
    requires |datagram| <= U16_MAX
  {
    Fold(PseudoSum(src, dst, |datagram|) + WordSum(datagram)) == U16_MAX
  }

  function Parse(src: Address, dst: Address, payload: seq<u8>): Result<(UdpHeader, seq<u8>), ParseError> {
    if |payload| < UDP_HEADER_LEN then Failure(Truncated)
    else
      var length := Word(payload[4], payload[5]);
      var checksum := Word(payload[6], payload[7]);
      if length < UDP_HEADER_LEN || length > |payload| then Failure(BadTotalLength)
      else if checksum == 0 || !Checks(src, dst, payload[..length]) then Failure(BadChecksum)
      else
        Success((UdpHeader(Word(payload[0], payload[1]), Word(payload[2], payload[3]), length, checksum),
                 payload[UDP_HEADER_LEN..length]))
  }

  /** The sum of a datagram whose checksum field is still zero. */
  function UncheckedSum(src: Address, dst: Address, srcPort: u16, dstPort: u16, data: seq<u8>): (sum: nat)
    requires |data| <= MAX_UDP_PAYLOAD
    ensures sum > 0
  {
    var total := UDP_HEADER_LEN + |data|;
    PseudoSum(src, dst, total) + WordSum(Header(srcPort, dstPort, total, 0)) + WordSum(data)
  }

  function WireChecksum(src: Address, dst: Address, srcPort: u16, dstPort: u16, data: seq<u8>): u16
    requires |data| <= MAX_UDP_PAYLOAD
  {
    WireValue(UncheckedSum(src, dst, srcPort, dstPort, data))
  }

  function Datagram(src: Address, dst: Address, srcPort: u16, dstPort: u16, data: seq<u8>): seq<u8>
    requires |data| <= MAX_UDP_PAYLOAD
  {
    Header(srcPort, dstPort, UDP_HEADER_LEN + |data|, WireChecksum(src, dst, srcPort, dstPort, data)) + data
  }

  // ---- round trip ----

  lemma PairSum(v: u16)
    ensures WordSum(BigEndian(v)) == v
  {
    assert BigEndian(v)[2..] == [];
  }

  lemma HeaderSum(src: u16, dst: u16, length: u16, checksum: u16)
    ensures WordSum(Header(src, dst, length, checksum)) == src + dst + length + checksum
  {
    PairSum(src);
    PairSum(dst);
    PairSum(length);
    PairSum(checksum);
    WordSumAppend(BigEndian(src), BigEndian(dst));
    WordSumAppend(BigEndian(src) + BigEndian(dst), BigEndian(length));
    WordSumAppend(BigEndian(src) + BigEndian(dst) + BigEndian(length), BigEndian(checksum));
  }

  lemma WrittenSum(src: Address, dst: Address, srcPort: u16, dstPort: u16, data: seq<u8>)
    requires |data| <= MAX_UDP_PAYLOAD
    ensures WordSum(Datagram(src, dst, srcPort, dstPort, data))
            == WordSum(Header(srcPort, dstPort, UDP_HEADER_LEN + |data|, 0))
               + WireChecksum(src, dst, srcPort, dstPort, data) + WordSum(data)
  {
    hide WordSum, WireChecksum, Header;
    var total := UDP_HEADER_LEN + |data|;
    var wire := WireChecksum(src, dst, srcPort, dstPort, data);
    HeaderSum(srcPort, dstPort, total, 0);
    HeaderSum(srcPort, dstPort, total, wire);
    WordSumAppend(Header(srcPort, dstPort, total, wire), data);
  }

  /** Every written datagram checks, for every address, port and payload. */
  lemma WrittenChecks(src: Address, dst: Address, srcPort: u16, dstPort: u16, data: seq<u8>)
    requires |data| <= MAX_UDP_PAYLOAD
    ensures var d := Datagram(src, dst, srcPort, dstPort, data);
            Checks(src, dst, d) && WireChecksum(src, dst, srcPort, dstPort, data) > 0
  {
    hide WordSum, Fold, WireValue, Header, PseudoSum;
    WrittenSum(src, dst, srcPort, dstPort, data);
    ComplementChecks(UncheckedSum(src, dst, srcPort, dstPort, data));
  }

  /** Parsing a written datagram, with whatever follows it, gives back its ports and data. */
  lemma ParseOfWrite(src: Address, dst: Address, srcPort: u16, dstPort: u16, data: seq<u8>, beyond: seq<u8>)
    requires |data| <= MAX_UDP_PAYLOAD
    ensures Parse(src, dst, Datagram(src, dst, srcPort, dstPort, data) + beyond)
            == Success((UdpHeader(srcPort, dstPort, UDP_HEADER_LEN + |data|,
                                  WireChecksum(src, dst, srcPort, dstPort, data)), data))
  {
    var d := Datagram(src, dst, srcPort, dstPort, data);
    var total := UDP_HEADER_LEN + |data|;
    var h := Header(srcPort, dstPort, total, WireChecksum(src, dst, srcPort, dstPort, data));
    WrittenChecks(src, dst, srcPort, dstPort, data);
    hide Checks, WireChecksum;
    var payload := d + beyond;
    assert forall i :: 0 <= i < UDP_HEADER_LEN ==> payload[i] == h[i];
    assert payload[..total] == d && payload[UDP_HEADER_LEN..total] == data;
  }

  // ---- error detection ----

  /** Replacing one aligned word of a datagram that checks is detected, unless it swaps the two
      representations of zero. */
  lemma OneWordErrorDetected(src: Address, dst: Address, before: seq<u8>, old_: u16, new_: u16, after: seq<u8>)
    requires |before| % 2 == 0 && |before| + 2 + |after| <= U16_MAX && old_ != new_
    requires Checks(src, dst, before + BigEndian(old_) + after)
    ensures Checks(src, dst, before + BigEndian(new_) + after) <==> old_ + new_ == U16_MAX && (old_ == 0 || new_ == 0)
  {
    hide Checks, Word, WordSum, PseudoSum, BigEndian, AllOnes;
    var rest := PseudoSum(src, dst, |before| + 2 + |after|) + WordSum(before) + WordSum(after);
    SplitWord(before, old_, after);
    SplitWord(before, new_, after);
    ChecksIff(src, dst, before + BigEndian(old_) + after, rest + old_);
    ChecksIff(src, dst, before + BigEndian(new_) + after, rest + new_);
    SameRemainder(rest, old_, new_);
  }

  lemma ChecksIff(src: Address, dst: Address, datagram: seq<u8>, sum: nat)
    requires |datagram| <= U16_MAX && sum == PseudoSum(src, dst, |datagram|) + WordSum(datagram)
    ensures Checks(src, dst, datagram) <==> AllOnes(sum)
  {
    hide WordSum, Fold, PseudoSum, AllOnes;
    FoldIsOnesIff(sum);
  }

  lemma SplitWord(before: seq<u8>, w: u16, after: seq<u8>)
    requires |before| % 2 == 0
    ensures WordSum(before + BigEndian(w) + after) == WordSum(before) + w + WordSum(after)
  {
    WordSumAppend(before + BigEndian(w), after);
    WordSumAppend(before, BigEndian(w));
    PairSum(w);
  }

  lemma SameRemainder(rest: nat, a: u16, b: u16)
    requires rest > 0 && a != b && AllOnes(rest + a)
    ensures AllOnes(rest + b) <==> a + b == U16_MAX && (a == 0 || b == 0)
  {
  }

  // ---- the codec over buffers ----

  /** The pseudo-header part of the running sum. */
  method AddPseudoHeader(src: Address, dst: Address, length: u16) returns (sum: u32)
    ensures sum == PseudoSum(src, dst, length) <= 6 * U16_MAX
  {
    PairSum(UDP_PROTOCOL);
    assert BigEndian(UDP_PROTOCOL) == [0, UDP_PROTOCOL];
    hide WordSum, BigEndian, Address.Octets;
    WordSumBound(src.Octets());
    WordSumBound(dst.Octets());
    PairSum(length);
    sum := AddBytes(0, src.Octets());
    sum := AddBytes(sum, dst.Octets());
    sum := AddBytes(sum, [0, UDP_PROTOCOL]);
    sum := AddBytes(sum, BigEndian(length));
  }

  /** The length word of the pseudo-header; a length that does not fit counts as zero. */
  function LengthWord(n: nat): u16 { if n <= U16_MAX then n else 0 }

  lemma SumsFit(src: Address, dst: Address, length: u16, bytes: seq<u8>)
    requires |bytes| <= U16_MAX && PseudoSum(src, dst, length) <= 6 * U16_MAX
    ensures Wrap(PseudoSum(src, dst, length) + WordSum(bytes)) == PseudoSum(src, dst, length) + WordSum(bytes)
  {
    hide WordSum, PseudoSum;
    WordSumBound(bytes);
  }

  /** Whether the 32-bit sum folds to all ones; for every datagram that has a length, whether it checks. */
  method VerifyDatagram(src: Address, dst: Address, datagram: seq<u8>) returns (ok: bool)
    ensures ok <==> Fold(Wrap(PseudoSum(src, dst, LengthWord(|datagram|)) + WordSum(datagram))) == U16_MAX
    ensures |datagram| <= U16_MAX ==> (ok <==> Checks(src, dst, datagram))
  {
    hide WordSum, Wrap, PseudoSum, Fold;
    var length := LengthWord(|datagram|);
    var sum := AddPseudoHeader(src, dst, length);
    if |datagram| <= U16_MAX { SumsFit(src, dst, length, datagram); }
    sum := AddBytes(sum, datagram);
    var c := Finish(sum);
    ok := c == 0;
  }

  method ParseDatagram(src: Address, dst: Address, payload: seq<u8>)
    returns (r: Result<(UdpHeader, seq<u8>), ParseError>)
    ensures r == Parse(src, dst, payload)
  {
    if |payload| < UDP_HEADER_LEN { return Failure(Truncated); }
    var length := Word(payload[4], payload[5]);
    var checksum := Word(payload[6], payload[7]);
    if length < UDP_HEADER_LEN || length > |payload| { return Failure(BadTotalLength); }
    if checksum == 0 { return Failure(BadChecksum); }
    var ok := VerifyDatagram(src, dst, payload[..length]);
    if !ok { return Failure(BadChecksum); }
    r := Success((UdpHeader(Word(payload[0], payload[1]), Word(payload[2], payload[3]), length, checksum),
                  payload[UDP_HEADER_LEN..length]));
  }

  /** A datagram with its checksum field zeroed; one shorter than a header has no such field. */
  function Blanked(datagram: seq<u8>): seq<u8> {
    if |datagram| >= UDP_HEADER_LEN then datagram[6 := 0][7 := 0] else datagram
  }

  /** The complement of the sum over any datagram, ignoring its checksum field. */
  method ComputeChecksum(src: Address, dst: Address, datagram: seq<u8>) returns (c: u16)
    ensures c == U16_MAX - Fold(Wrap(PseudoSum(src, dst, LengthWord(|datagram|)) + WordSum(Blanked(datagram))))
  {
    hide WordSum, Wrap, PseudoSum, Fold;
    var sum := AddPseudoHeader(src, dst, LengthWord(|datagram|));
    if |datagram| >= UDP_HEADER_LEN {
      var header := datagram[..UDP_HEADER_LEN][6 := 0][7 := 0];
      SplitHeader(sum, datagram);
      sum := AddBytes(sum, header);
      sum := AddBytes(sum, datagram[UDP_HEADER_LEN..]);
    } else {
      sum := AddBytes(sum, datagram);
    }
    c := Finish(sum);
  }

  lemma SplitHeader(sum: nat, datagram: seq<u8>)
    requires |datagram| >= UDP_HEADER_LEN
    ensures Wrap(Wrap(sum + WordSum(datagram[..UDP_HEADER_LEN][6 := 0][7 := 0])) + WordSum(datagram[UDP_HEADER_LEN..]))
         == Wrap(sum + WordSum(Blanked(datagram)))
  {
    hide WordSum, Wrap;
    var header, rest := datagram[..UDP_HEADER_LEN][6 := 0][7 := 0], datagram[UDP_HEADER_LEN..];
    BlankedPrefix(datagram[..UDP_HEADER_LEN], rest);
    assert datagram == datagram[..UDP_HEADER_LEN] + rest;
    WordSumAppend(header, rest);
    WrapAdd(sum + WordSum(header), WordSum(rest));
  }

  /** Writes a datagram, which parses back to the same ports and data. */
  method Write(src: Address, dst: Address, srcPort: u16, dstPort: u16, data: seq<u8>, out: array<u8>)
    returns (r: Result<nat, ParseError>)
    modifies out
    ensures |data| > MAX_UDP_PAYLOAD ==> r == Failure(PayloadTooLarge)
    ensures |data| <= MAX_UDP_PAYLOAD ==>
              r == if out.Length < UDP_HEADER_LEN + |data| then Failure(BufferTooSmall)
                   else Success(UDP_HEADER_LEN + |data|)
    ensures r.Failure? ==> out[..] == old(out[..])
    ensures r.Success? ==>
              && out[..r.value] == Datagram(src, dst, srcPort, dstPort, data) && out[r.value..] == old(out[r.value..])
              && Parse(src, dst, out[..])
                 == Success((UdpHeader(srcPort, dstPort, r.value, WireChecksum(src, dst, srcPort, dstPort, data)),
                             data))
  {
    hide Word, Header, BigEndian, Datagram, WireChecksum, Parse, Overwrite;
    if |data| > MAX_UDP_PAYLOAD { return Failure(PayloadTooLarge); }
    var total := UDP_HEADER_LEN + |data|;
    if out.Length < total { return Failure(BufferTooSmall); }
    var blank := Header(srcPort, dstPort, total, 0);
    CopyBytes(out, 0, blank);
    CopyBytes(out, UDP_HEADER_LEN, data);
    var wire := ComputeWire(src, dst, srcPort, dstPort, data);
    CopyBytes(out, 6, BigEndian(wire));
    Assembled(old(out[..]), out[..], src, dst, srcPort, dstPort, data);
    ParseOfWrite(src, dst, srcPort, dstPort, data, out[total..]);
    r := Success(total);
  }

  lemma BlankChecksum(srcPort: u16, dstPort: u16, length: u16)
    ensures Header(srcPort, dstPort, length, 0)[6 := 0][7 := 0] == Header(srcPort, dstPort, length, 0)
  {
    assert BigEndian(0) == [0, 0];
    hide BigEndian;
    var h := Header(srcPort, dstPort, length, 0);
    assert h[6] == BigEndian(0)[0] && h[7] == BigEndian(0)[1];
  }

  /** A datagram written with a blank checksum sums to what its checksum complements. */
  lemma BlankDatagram(src: Address, dst: Address, srcPort: u16, dstPort: u16, data: seq<u8>)
    requires |data| <= MAX_UDP_PAYLOAD
    ensures var total := UDP_HEADER_LEN + |data|;
            Wrap(PseudoSum(src, dst, total) + WordSum(Blanked(Header(srcPort, dstPort, total, 0) + data)))
            == UncheckedSum(src, dst, srcPort, dstPort, data)
  {
    hide WordSum, PseudoSum, BigEndian, Header, Wrap, Blanked;
    var total := UDP_HEADER_LEN + |data|;
    var h := Header(srcPort, dstPort, total, 0);
    BlankChecksum(srcPort, dstPort, total);
    BlankedPrefix(h, data);
    WordSumAppend(h, data);
    PseudoBound(src, dst, total);
    SumsFit(src, dst, total, h + data);
  }

  lemma BlankedPrefix(header: seq<u8>, data: seq<u8>)
    requires |header| == UDP_HEADER_LEN
    ensures Blanked(header + data) == header[6 := 0][7 := 0] + data
  {
  }

  lemma PseudoBound(src: Address, dst: Address, length: u16)
    ensures PseudoSum(src, dst, length) <= 6 * U16_MAX
  {
    hide WordSum;
    WordSumBound(src.Octets());
    WordSumBound(dst.Octets());
  }

  method ComputeWire(src: Address, dst: Address, srcPort: u16, dstPort: u16, data: seq<u8>) returns (wire: u16)
    requires |data| <= MAX_UDP_PAYLOAD
    ensures wire == WireChecksum(src, dst, srcPort, dstPort, data)
  {
    hide WordSum, Fold, PseudoSum, BigEndian, Wrap, Header;
    var total := UDP_HEADER_LEN + |data|;
    var blank := Header(srcPort, dstPort, total, 0) + data;
    BlankDatagram(src, dst, srcPort, dstPort, data);
    var c := ComputeChecksum(src, dst, blank);
    wire := if c == 0 then U16_MAX else c;
  }

  /** Three writes leave the datagram followed by what was there. */
  lemma Assembled(before: seq<u8>, after: seq<u8>, src: Address, dst: Address, srcPort: u16, dstPort: u16,
                  data: seq<u8>)
    requires |data| <= MAX_UDP_PAYLOAD && UDP_HEADER_LEN + |data| <= |before|
    requires after == Overwrite(Overwrite(Overwrite(before, 0, Header(srcPort, dstPort, UDP_HEADER_LEN + |data|, 0)),
                                          UDP_HEADER_LEN, data),
                                6, BigEndian(WireChecksum(src, dst, srcPort, dstPort, data)))
    ensures after == Datagram(src, dst, srcPort, dstPort, data) + before[UDP_HEADER_LEN + |data|..]
  {
    var total := UDP_HEADER_LEN + |data|;
    var wire := WireChecksum(src, dst, srcPort, dstPort, data);
    var blank := Header(srcPort, dstPort, total, 0);
    hide WireChecksum, BigEndian, Word;
    OverwriteMore(before, 0, blank, data);
    assert blank[..6] + BigEndian(wire) == Header(srcPort, dstPort, total, wire);
    hide Header;
    var second := Overwrite(before, 0, blank + data);
    assert second == blank + data + before[total..];
    assert second[..6] == blank[..6] && second[8..] == data + before[total..];
  }
}
