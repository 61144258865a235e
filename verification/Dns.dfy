/** DNS names: validation, the question-name encoding, and decoding with compression
    (sections 3.1 and 4.1.4 of RFC 1035). */
module Dns {
  import opened Wrappers
  import opened Arith
  import opened Buffers

  const MAX_DNS_NAME_LEN: nat := 253
  const MAX_DNS_LABEL_LEN: nat := 63
  const HOP_LIMIT: nat := 16

  const DOT: u8 := 46
  const HYPHEN: u8 := 45

  datatype DnsError = InvalidName | Truncated | Malformed | CompressionLoop | PointerForward

  // ---- names ----

  /** The name without one trailing dot. */
  function Trimmed(name: seq<u8>): seq<u8> {
    if name != [] && name[|name| - 1] == DOT then name[..|name| - 1] else name
  }

  /** The pieces between dots; one more than there are dots. */
  function Split(s: seq<u8>): (labels: seq<seq<u8>>)
    ensures labels != []
  {
    if s == [] then [[]]
    else
      var rest := Split(s[1..]);
      if s[0] == DOT then [[]] + rest else [[s[0]] + rest[0]] + rest[1..]
  }

  /** A partial name with one more label. */
  function WithLabel(name: seq<u8>, piece: seq<u8>): seq<u8> {
    if name == [] then piece else name + [DOT] + piece
  }

  function Joined(name: seq<u8>, labels: seq<seq<u8>>): seq<u8>
    decreases |labels|
  {
    if labels == [] then name else Joined(WithLabel(name, labels[0]), labels[1..])
  }

  predicate NameByte(b: u8) { 97 <= b <= 122 || 65 <= b <= 90 || 48 <= b <= 57 || b == HYPHEN }

  predicate ValidLabel(piece: seq<u8>) {
    && 1 <= |piece| <= MAX_DNS_LABEL_LEN
    && piece[0] != HYPHEN && piece[|piece| - 1] != HYPHEN
    && (forall i :: 0 <= i < |piece| ==> NameByte(piece[i]))
  }

  predicate ValidName(name: seq<u8>) {
    && 1 <= |Trimmed(name)| <= MAX_DNS_NAME_LEN
    && (forall i :: 0 <= i < |Split(Trimmed(name))| ==> ValidLabel(Split(Trimmed(name))[i]))
  }

  /** A label behind its length byte. */
  function EncodeLabel(piece: seq<u8>): (b: seq<u8>)
    ensures |b| == 1 + |piece|
  {
    [|piece| % 256] + piece
  }

  /** Length-prefixed labels and the root label. */
  function Encode(labels: seq<seq<u8>>): (b: seq<u8>)
    ensures |b| > 0
  {
    if labels == [] then [0] else EncodeLabel(labels[0]) + Encode(labels[1..])
  }

  // ---- decoding ----

  /** A pointer's 14-bit target; its two top bits are set. */
  function Target(hi: u8, lo: u8): nat
    requires hi >= 0xC0
  {
    256 * (hi - 0xC0) + lo
  }

  function HopsLeft(hops: nat): nat { if hops > HOP_LIMIT then 0 else HOP_LIMIT - hops }

  /** What stands at an offset of a message. */
  datatype Item = Bad(error: DnsError) | Root | Jump(target: nat) | Piece(next: nat, name: seq<u8>)

  /** The item at `at`, where `name` has been read so far and pointers must lie before `limit`. */
  function ItemAt(msg: seq<u8>, at: nat, limit: nat, hops: nat, capacity: nat, name: seq<u8>): (item: Item)
    ensures !item.Bad? ==> at < |msg|
    ensures item.Jump? ==> at + 1 < |msg| && item.target < limit && hops < HOP_LIMIT
    ensures item.Piece? ==> at < item.next <= |msg| && |item.name| <= capacity
  {
    if at >= |msg| then Bad(Truncated)
    else
      var b := msg[at];
      if b == 0 then Root
      else if b >= 0xC0 then
        if at + 1 >= |msg| then Bad(Truncated)
        else if Target(b, msg[at + 1]) >= limit then Bad(PointerForward)
        else if hops + 1 > HOP_LIMIT then Bad(CompressionLoop)
        else Jump(Target(b, msg[at + 1]))
      else if b >= 0x40 then Bad(Malformed)
      else if at + 1 + b > |msg| then Bad(Truncated)
      else
        var longer := WithLabel(name, msg[at + 1..at + 1 + b]);
        if |longer| > capacity then Bad(Malformed) else Piece(at + 1 + b, longer)
  }

  /** Decodes the name at `at` onto `name`. Gives the name, the offset after it, and the number of
      pointers followed so far; it ends because each step uses up a hop or some bytes. */
  function Read(msg: seq<u8>, at: nat, limit: nat, hops: nat, capacity: nat, name: seq<u8>)
    : (r: Result<(seq<u8>, nat, nat), DnsError>)
    ensures r.Success? ==>
              && at < r.value.1 <= |msg|
              && (|name| <= capacity ==> |r.value.0| <= capacity)
              && hops <= r.value.2 && (r.value.2 <= HOP_LIMIT || r.value.2 == hops)
    decreases HopsLeft(hops), |msg| - at
  {
    match ItemAt(msg, at, limit, hops, capacity, name)
    case Bad(e) => Failure(e)
    case Root => Success((name, at + 1, hops))
    case Piece(next, longer) => Read(msg, next, limit, hops, capacity, longer)
    case Jump(target) =>
      match Read(msg, target, limit, hops + 1, capacity, name)
      case Failure(e) => Failure(e)
      case Success((n, _, h)) => Success((n, at + 2, h))
  }

  // ---- joining undoes splitting ----

  lemma Concat(name: seq<u8>, head: seq<u8>, rest: seq<u8>)
    ensures name + [DOT] + head + [DOT] + rest == name + [DOT] + (head + [DOT] + rest)
  {
  }

  lemma {:induction false} JoinedSplit(name: seq<u8>, s: seq<u8>)
    requires name != []
    ensures Joined(name, Split(s)) == name + [DOT] + s
    decreases |s|
  {
    HeadSplit(s);
    var labels := Split(s);
    var head := labels[0];
    hide Split;
    if |labels| > 1 {
      var rest := s[|head| + 1..];
      JoinedSplit(name + [DOT] + head, rest);
      assert s == head + [DOT] + rest;
      Concat(name, head, rest);
    } else {
      assert labels[1..] == [];
    }
  }

  /** The first piece is what precedes the first dot, and the others split what follows it. */
  lemma {:induction false} HeadSplit(s: seq<u8>)
    ensures var labels := Split(s);
            && |labels[0]| <= |s| && s[..|labels[0]|] == labels[0]
            && (|labels| == 1 ==> labels[0] == s)
            && (|labels| > 1 ==>
                  |labels[0]| < |s| && s[|labels[0]|] == DOT && labels[1..] == Split(s[|labels[0]| + 1..]))
  {
    if s != [] {
      var rest := Split(s[1..]);
      if s[0] == DOT {
        assert ([[]] + rest)[1..] == rest;
      } else {
        HeadSplit(s[1..]);
        var labels := Split(s);
        assert labels[1..] == rest[1..];
        assert s == [s[0]] + s[1..];
        if |rest| > 1 { assert s[1..][|rest[0]| + 1..] == s[|labels[0]| + 1..]; }
      }
    }
  }

  lemma AroundDot(s: seq<u8>, n: nat)
    requires n < |s| && s[n] == DOT
    ensures s[..n] + [DOT] + s[n + 1..] == s
  {
  }

  /** Joining the pieces of a string that starts with a non-empty piece gives the string back. */
  lemma JoinUndoesSplit(s: seq<u8>)
    requires Split(s)[0] != []
    ensures Joined([], Split(s)) == s
  {
    HeadSplit(s);
    var labels := Split(s);
    hide Split;
    JoinedStep([], labels);
    if |labels| > 1 {
      JoinedSplit(labels[0], s[|labels[0]| + 1..]);
      AroundDot(s, |labels[0]|);
      hide Joined;
    } else {
      assert labels[1..] == [];
    }
  }

  // ---- encoding and decoding ----

  predicate Encodable(labels: seq<seq<u8>>) {
    forall i :: 0 <= i < |labels| ==> 1 <= |labels[i]| <= MAX_DNS_LABEL_LEN
  }

  lemma {:induction false} JoinedGrows(name: seq<u8>, labels: seq<seq<u8>>)
    ensures |name| <= |Joined(name, labels)|
    decreases |labels|
  {
    if labels != [] { JoinedGrows(WithLabel(name, labels[0]), labels[1..]); }
  }

  /** The encoding of some labels stands at an offset of a message. */
  predicate EncodedAt(msg: seq<u8>, at: nat, labels: seq<seq<u8>>) {
    Encodable(labels) && at + |Encode(labels)| <= |msg| && msg[at..at + |Encode(labels)|] == Encode(labels)
  }

  /** Decoding encoded labels anywhere in a message joins them and stops after the root label. */
  lemma {:induction false} ReadOfEncode(msg: seq<u8>, at: nat, limit: nat, hops: nat, capacity: nat, name: seq<u8>,
                                        labels: seq<seq<u8>>)
    requires EncodedAt(msg, at, labels) && |Joined(name, labels)| <= capacity
    ensures Read(msg, at, limit, hops, capacity, name) == Success((Joined(name, labels), at + |Encode(labels)|, hops))
    decreases |labels|
  {
    hide ItemAt, EncodedAt;
    if labels == [] {
      ItemOfRoot(msg, at, limit, hops, capacity, name);
    } else {
      ItemOfLabel(msg, at, limit, hops, capacity, name, labels);
      ReadOfEncode(msg, at + 1 + |labels[0]|, limit, hops, capacity, WithLabel(name, labels[0]), labels[1..]);
    }
  }

  lemma ItemOfRoot(msg: seq<u8>, at: nat, limit: nat, hops: nat, capacity: nat, name: seq<u8>)
    requires EncodedAt(msg, at, [])
    ensures ItemAt(msg, at, limit, hops, capacity, name) == Root
  {
    assert msg[at] == msg[at..at + 1][0];
  }

  lemma ItemOfLabel(msg: seq<u8>, at: nat, limit: nat, hops: nat, capacity: nat, name: seq<u8>, labels: seq<seq<u8>>)
    requires EncodedAt(msg, at, labels) && labels != [] && |Joined(name, labels)| <= capacity
    ensures EncodedAt(msg, at + 1 + |labels[0]|, labels[1..])
    ensures ItemAt(msg, at, limit, hops, capacity, name) == Piece(at + 1 + |labels[0]|, WithLabel(name, labels[0]))
  {
    hide ItemAt, EncodedAt, Encode, WithLabel;
    LabelAt(msg, at, labels);
    JoinedStep(name, labels);
    JoinedGrows(WithLabel(name, labels[0]), labels[1..]);
    ItemOfPiece(msg, at, limit, hops, capacity, name, labels[0]);
  }

  lemma LabelAt(msg: seq<u8>, at: nat, labels: seq<seq<u8>>)
    requires EncodedAt(msg, at, labels) && labels != []
    ensures 1 <= |labels[0]| <= MAX_DNS_LABEL_LEN && at + 1 + |labels[0]| <= |msg|
    ensures msg[at] == |labels[0]| && msg[at + 1..at + 1 + |labels[0]|] == labels[0]
    ensures EncodedAt(msg, at + 1 + |labels[0]|, labels[1..])
  {
    EncodableTail(labels);
    EncodeStart(labels);
    hide Encode, EncodeLabel, Encodable;
    PrefixedAt(msg, at, Encode(labels), labels[0], Encode(labels[1..]));
  }

  lemma EncodableTail(labels: seq<seq<u8>>)
    requires Encodable(labels) && labels != []
    ensures 1 <= |labels[0]| <= MAX_DNS_LABEL_LEN && Encodable(labels[1..])
  {
  }

  lemma EncodeStart(labels: seq<seq<u8>>)
    requires labels != [] && |labels[0]| <= MAX_DNS_LABEL_LEN
    ensures Encode(labels) == [|labels[0]|] + labels[0] + Encode(labels[1..])
  {
  }

  /** The parts of a length byte, its label and what follows, where they stand in a message. */
  lemma PrefixedAt(msg: seq<u8>, at: nat, e: seq<u8>, head: seq<u8>, rest: seq<u8>)
    requires |head| <= MAX_DNS_LABEL_LEN && e == [|head|] + head + rest && at + |e| <= |msg| && msg[at..at + |e|] == e
    ensures msg[at] == |head| && msg[at + 1..at + 1 + |head|] == head
    ensures msg[at + 1 + |head|..at + 1 + |head| + |rest|] == rest
  {
    assert msg[at] == msg[at..at + |e|][0];
    PartOf(msg, at, e, 1, 1 + |head|);
    PartOf(msg, at, e, 1 + |head|, |e|);
    assert e[1..1 + |head|] == head && e[1 + |head|..] == rest;
  }

  lemma ValidNameLabels(name: seq<u8>)
    requires ValidName(name)
    ensures Encodable(Split(Trimmed(name))) && Joined([], Split(Trimmed(name))) == Trimmed(name)
  {
    var labels := Split(Trimmed(name));
    forall i | 0 <= i < |labels| ensures 1 <= |labels[i]| <= MAX_DNS_LABEL_LEN { assert ValidLabel(labels[i]); }
    JoinUndoesSplit(Trimmed(name));
  }

  lemma EncodedBetween(labels: seq<seq<u8>>, before: seq<u8>, after: seq<u8>)
    requires Encodable(labels)
    ensures EncodedAt(before + Encode(labels) + after, |before|, labels)
  {
    hide Encode;
    var e := Encode(labels);
    assert (before + e + after)[|before|..|before| + |e|] == e;
  }

  /** Decoding the encoding of a valid name gives the name without its trailing dot and ends
      right after it, whatever surrounds it. */
  lemma NameRoundTrip(name: seq<u8>, before: seq<u8>, after: seq<u8>, limit: nat, hops: nat, capacity: nat)
    requires ValidName(name) && |Trimmed(name)| <= capacity
    ensures var e := Encode(Split(Trimmed(name)));
            Read(before + e + after, |before|, limit, hops, capacity, [])
            == Success((Trimmed(name), |before| + |e|, hops))
  {
    hide Split, Trimmed, Encode, Read, ValidName, EncodedAt, Joined;
    var labels := Split(Trimmed(name));
    ValidNameLabels(name);
    EncodedBetween(labels, before, after);
    ReadOfEncode(before + Encode(labels) + after, |before|, limit, hops, capacity, [], labels);
  }

  // ---- compression ----

  type Decoded = Result<(seq<u8>, nat, nat), DnsError>

  /** `s` is `r` with `extra` more pointers followed, as long as they fit the limit. */
  predicate Shifted(r: Decoded, s: Decoded, extra: nat) {
    && (r.Success? && r.value.2 + extra <= HOP_LIMIT ==> s.Success?)
    && (s.Success? ==> r.Success? && s.value.0 == r.value.0 && s.value.1 == r.value.1 && s.value.2 == r.value.2 + extra)
  }

  /** Following pointers beforehand changes nothing but the count, as long as it fits. */
  lemma {:induction false} HopShift(msg: seq<u8>, at: nat, limit: nat, hops: nat, extra: nat, capacity: nat,
                                    name: seq<u8>)
    requires hops + extra <= HOP_LIMIT
    ensures Shifted(Read(msg, at, limit, hops, capacity, name), Read(msg, at, limit, hops + extra, capacity, name),
                    extra)
    decreases HopsLeft(hops), |msg| - at
  {
    hide ItemAt, Read, Shifted;
    match ItemAt(msg, at, limit, hops, capacity, name)
    case Jump(target) =>
      if hops + extra < HOP_LIMIT { HopShift(msg, target, limit, hops + 1, extra, capacity, name); }
      ShiftJump(msg, at, limit, hops, extra, capacity, name, target);
    case Piece(next, longer) =>
      HopShift(msg, next, limit, hops, extra, capacity, longer);
      ShiftPiece(msg, at, limit, hops, extra, capacity, name, next, longer);
    case _ => ShiftEnd(msg, at, limit, hops, extra, capacity, name);
  }

  lemma ShiftEnd(msg: seq<u8>, at: nat, limit: nat, hops: nat, extra: nat, capacity: nat, name: seq<u8>)
    requires hops + extra <= HOP_LIMIT
    requires ItemAt(msg, at, limit, hops, capacity, name).Bad? || ItemAt(msg, at, limit, hops, capacity, name).Root?
    ensures Shifted(Read(msg, at, limit, hops, capacity, name), Read(msg, at, limit, hops + extra, capacity, name),
                    extra)
  {
    hide ItemAt;
    ItemShift(msg, at, limit, hops, extra, capacity, name);
  }

  lemma ShiftPiece(msg: seq<u8>, at: nat, limit: nat, hops: nat, extra: nat, capacity: nat, name: seq<u8>, next: nat,
                   longer: seq<u8>)
    requires hops + extra <= HOP_LIMIT && ItemAt(msg, at, limit, hops, capacity, name) == Piece(next, longer)
    requires Shifted(Read(msg, next, limit, hops, capacity, longer),
                     Read(msg, next, limit, hops + extra, capacity, longer), extra)
    ensures Shifted(Read(msg, at, limit, hops, capacity, name), Read(msg, at, limit, hops + extra, capacity, name),
                    extra)
  {
    hide ItemAt, Shifted;
    ItemShift(msg, at, limit, hops, extra, capacity, name);
  }

  lemma ShiftJump(msg: seq<u8>, at: nat, limit: nat, hops: nat, extra: nat, capacity: nat, name: seq<u8>, target: nat)
    requires hops + extra <= HOP_LIMIT && ItemAt(msg, at, limit, hops, capacity, name) == Jump(target)
    requires hops + extra < HOP_LIMIT ==>
               Shifted(Read(msg, target, limit, hops + 1, capacity, name),
                       Read(msg, target, limit, hops + 1 + extra, capacity, name), extra)
    ensures Shifted(Read(msg, at, limit, hops, capacity, name), Read(msg, at, limit, hops + extra, capacity, name),
                    extra)
  {
    ItemShift(msg, at, limit, hops, extra, capacity, name);
    ReadStep(msg, at, limit, hops, capacity, name);
    ReadStep(msg, at, limit, hops + extra, capacity, name);
    hide ItemAt, Read;
  }

  /** One step of decoding. */
  lemma ReadStep(msg: seq<u8>, at: nat, limit: nat, hops: nat, capacity: nat, name: seq<u8>)
    ensures var r := Read(msg, at, limit, hops, capacity, name);
            match ItemAt(msg, at, limit, hops, capacity, name)
            case Bad(e) => r == Failure(e)
            case Root => r.Success? && r.value.0 == name && r.value.1 == at + 1 && r.value.2 == hops
            case Piece(next, longer) => r == Read(msg, next, limit, hops, capacity, longer)
            case Jump(target) =>
              var there := Read(msg, target, limit, hops + 1, capacity, name);
              && (r.Success? <==> there.Success?)
              && (r.Success? ==> r.value.0 == there.value.0 && r.value.1 == at + 2 && r.value.2 == there.value.2)
  {
    hide ItemAt;
  }

  lemma ItemShift(msg: seq<u8>, at: nat, limit: nat, hops: nat, extra: nat, capacity: nat, name: seq<u8>)
    requires hops + extra <= HOP_LIMIT
    ensures var item := ItemAt(msg, at, limit, hops, capacity, name);
            ItemAt(msg, at, limit, hops + extra, capacity, name)
            == if item.Jump? && hops + extra == HOP_LIMIT then Bad(CompressionLoop) else item
  {
  }

  /** A pointer decodes exactly when its target does with a hop to spare, to the same name. */
  lemma PointerDecodes(msg: seq<u8>, at: nat, limit: nat, hops: nat, capacity: nat, name: seq<u8>)
    requires at + 1 < |msg| && msg[at] >= 0xC0 && hops < HOP_LIMIT
    ensures var target := Target(msg[at], msg[at + 1]);
            var there := Read(msg, target, limit, hops, capacity, name);
            var here := Read(msg, at, limit, hops, capacity, name);
            && (here.Success? <==> target < limit && there.Success? && there.value.2 < HOP_LIMIT)
            && (here.Success? ==> here.value == (there.value.0, at + 2, there.value.2 + 1))
  {
    hide ItemAt, Read, Target;
    var target := Target(msg[at], msg[at + 1]);
    ItemOfPointer(msg, at, limit, hops, capacity, name);
    ReadStep(msg, at, limit, hops, capacity, name);
    HopShift(msg, target, limit, hops, 1, capacity, name);
  }

  lemma ItemOfPointer(msg: seq<u8>, at: nat, limit: nat, hops: nat, capacity: nat, name: seq<u8>)
    requires at + 1 < |msg| && msg[at] >= 0xC0 && hops < HOP_LIMIT
    ensures var target := Target(msg[at], msg[at + 1]);
            ItemAt(msg, at, limit, hops, capacity, name) == if target < limit then Jump(target) else Bad(PointerForward)
  {
  }

  /** A pointer to an encoded valid name decodes to that name. */
  lemma PointerToName(name: seq<u8>, before: seq<u8>, after: seq<u8>, at: nat, limit: nat, hops: nat)
    requires ValidName(name) && hops < HOP_LIMIT && |before| < limit
    requires var msg := before + Encode(Split(Trimmed(name))) + after;
             at + 1 < |msg| && msg[at] >= 0xC0 && Target(msg[at], msg[at + 1]) == |before|
    ensures var msg := before + Encode(Split(Trimmed(name))) + after;
            Read(msg, at, limit, hops, MAX_DNS_NAME_LEN, []) == Success((Trimmed(name), at + 2, hops + 1))
  {
    NameRoundTrip(name, before, after, limit, hops, MAX_DNS_NAME_LEN);
    PointerDecodes(before + Encode(Split(Trimmed(name))) + after, at, limit, hops, MAX_DNS_NAME_LEN, []);
  }

  // ---- labels followed by a pointer ----

  /** Length-prefixed labels without the root label. */
  function LabelBytes(labels: seq<seq<u8>>): seq<u8> {
    if labels == [] then [] else EncodeLabel(labels[0]) + LabelBytes(labels[1..])
  }

  /** The labels stand at an offset of a message. */
  predicate LabelsAt(msg: seq<u8>, at: nat, labels: seq<seq<u8>>) {
    Encodable(labels) && at + |LabelBytes(labels)| <= |msg| && msg[at..at + |LabelBytes(labels)|] == LabelBytes(labels)
  }

  lemma FirstLabelAt(msg: seq<u8>, at: nat, labels: seq<seq<u8>>)
    requires LabelsAt(msg, at, labels) && labels != []
    ensures 1 <= |labels[0]| <= MAX_DNS_LABEL_LEN && at + 1 + |labels[0]| <= |msg|
    ensures msg[at] == |labels[0]| && msg[at + 1..at + 1 + |labels[0]|] == labels[0]
    ensures |LabelBytes(labels)| == 1 + |labels[0]| + |LabelBytes(labels[1..])|
    ensures LabelsAt(msg, at + 1 + |labels[0]|, labels[1..])
  {
    EncodableTail(labels);
    LabelBytesStart(labels);
    hide LabelBytes, EncodeLabel, Encodable;
    PrefixedAt(msg, at, LabelBytes(labels), labels[0], LabelBytes(labels[1..]));
  }

  lemma LabelBytesStart(labels: seq<seq<u8>>)
    requires labels != [] && |labels[0]| <= MAX_DNS_LABEL_LEN
    ensures LabelBytes(labels) == [|labels[0]|] + labels[0] + LabelBytes(labels[1..])
  {
  }

  lemma JoinedStep(name: seq<u8>, labels: seq<seq<u8>>)
    requires labels != []
    ensures Joined(name, labels) == Joined(WithLabel(name, labels[0]), labels[1..])
  {
  }

  lemma ItemOfFirst(msg: seq<u8>, at: nat, limit: nat, hops: nat, capacity: nat, name: seq<u8>, labels: seq<seq<u8>>)
    requires LabelsAt(msg, at, labels) && labels != []
    ensures ItemAt(msg, at, limit, hops, capacity, name)
         == if |WithLabel(name, labels[0])| > capacity then Bad(Malformed)
            else Piece(at + 1 + |labels[0]|, WithLabel(name, labels[0]))
  {
    hide ItemAt, LabelsAt, LabelBytes, WithLabel, Encodable;
    FirstLabelAt(msg, at, labels);
    ItemOfPiece(msg, at, limit, hops, capacity, name, labels[0]);
  }

  lemma ItemOfPiece(msg: seq<u8>, at: nat, limit: nat, hops: nat, capacity: nat, name: seq<u8>, piece: seq<u8>)
    requires 1 <= |piece| <= MAX_DNS_LABEL_LEN && at + 1 + |piece| <= |msg|
    requires msg[at] == |piece| && msg[at + 1..at + 1 + |piece|] == piece
    ensures ItemAt(msg, at, limit, hops, capacity, name)
         == if |WithLabel(name, piece)| > capacity then Bad(Malformed)
            else Piece(at + 1 + |piece|, WithLabel(name, piece))
  {
    hide WithLabel, Target;
  }

  lemma NoLabels(name: seq<u8>, labels: seq<seq<u8>>)
    requires labels == []
    ensures LabelBytes(labels) == [] && Joined(name, labels) == name
  {
  }

  /** Labels are read onto the name before whatever follows them, unless they overflow it. */
  lemma {:induction false} ReadOfLabels(msg: seq<u8>, at: nat, limit: nat, hops: nat, capacity: nat, name: seq<u8>,
                                        labels: seq<seq<u8>>)
    requires LabelsAt(msg, at, labels)
    ensures var here := Read(msg, at, limit, hops, capacity, name);
            if labels != [] && |Joined(name, labels)| > capacity then here == Failure(Malformed)
            else here == Read(msg, at + |LabelBytes(labels)|, limit, hops, capacity, Joined(name, labels))
    decreases |labels|
  {
    hide ItemAt, LabelsAt, Read, LabelBytes, WithLabel, Joined;
    ReadStep(msg, at, limit, hops, capacity, name);
    if labels == [] {
      NoLabels(name, labels);
    } else {
      var longer := WithLabel(name, labels[0]);
      ItemOfFirst(msg, at, limit, hops, capacity, name, labels);
      FirstLabelAt(msg, at, labels);
      JoinedGrows(longer, labels[1..]);
      JoinedStep(name, labels);
      if |longer| <= capacity {
        ReadOfLabels(msg, at + 1 + |labels[0]|, limit, hops, capacity, longer, labels[1..]);
        if labels[1..] == [] { NoLabels(longer, labels[1..]); }
      }
    }
  }

  /** `tail` read behind a name that is already there. */
  function Behind(name: seq<u8>, tail: seq<u8>): seq<u8> {
    if tail == [] then name else WithLabel(name, tail)
  }

  lemma BehindLabel(name: seq<u8>, tail: seq<u8>, piece: seq<u8>)
    requires name != [] && piece != []
    ensures WithLabel(Behind(name, tail), piece) == Behind(name, WithLabel(tail, piece))
  {
    if tail != [] {
      assert name + [DOT] + tail + [DOT] + piece == name + [DOT] + (tail + [DOT] + piece);
    }
  }

  /** `there` read behind `name`: the same end and hops, the longer name, if it fits. */
  predicate ReadBehind(there: Decoded, here: Decoded, name: seq<u8>, capacity: nat) {
    && (here.Success? <==> there.Success? && |Behind(name, there.value.0)| <= capacity)
    && (here.Success? ==> here.value == (Behind(name, there.value.0), there.value.1, there.value.2))
  }

  lemma {:induction false} ReadGrows(msg: seq<u8>, at: nat, limit: nat, hops: nat, capacity: nat, name: seq<u8>)
    ensures var r := Read(msg, at, limit, hops, capacity, name); r.Success? ==> |name| <= |r.value.0|
    decreases HopsLeft(hops), |msg| - at
  {
    var item := ItemAt(msg, at, limit, hops, capacity, name);
    ReadStep(msg, at, limit, hops, capacity, name);
    if item.Jump? {
      ReadGrows(msg, item.target, limit, hops + 1, capacity, name);
    } else if item.Piece? {
      ReadGrows(msg, item.next, limit, hops, capacity, item.name);
    }
  }

  /** The items met while reading behind a name are those met without it. */
  lemma ItemBehind(msg: seq<u8>, at: nat, limit: nat, hops: nat, capacity: nat, name: seq<u8>, tail: seq<u8>)
    requires name != []
    ensures var there := ItemAt(msg, at, limit, hops, capacity, tail);
            ItemAt(msg, at, limit, hops, capacity, Behind(name, tail))
            == if there.Piece? then
                 if |Behind(name, there.name)| > capacity then Bad(Malformed)
                 else Piece(there.next, Behind(name, there.name))
               else there
    ensures ItemAt(msg, at, limit, hops, capacity, tail).Piece? ==>
              ItemAt(msg, at, limit, hops, capacity, tail).name != []
  {
    if at < |msg| && 0 < msg[at] < 0x40 && at + 1 + msg[at] <= |msg| {
      BehindLabel(name, tail, msg[at + 1..at + 1 + msg[at]]);
    }
  }

  /** Reading behind a name adds the name in front and changes nothing else, as long as it fits. */
  lemma {:induction false} ReadIsBehind(msg: seq<u8>, at: nat, limit: nat, hops: nat, capacity: nat, name: seq<u8>,
                                        tail: seq<u8>)
    requires name != [] && |Behind(name, tail)| <= capacity
    ensures ReadBehind(Read(msg, at, limit, hops, capacity, tail),
                       Read(msg, at, limit, hops, capacity, Behind(name, tail)), name, capacity)
    decreases HopsLeft(hops), |msg| - at
  {
    hide ItemAt, Read, Behind;
    ItemBehind(msg, at, limit, hops, capacity, name, tail);
    ReadStep(msg, at, limit, hops, capacity, tail);
    ReadStep(msg, at, limit, hops, capacity, Behind(name, tail));
    var item := ItemAt(msg, at, limit, hops, capacity, tail);
    if item.Jump? {
      ReadIsBehind(msg, item.target, limit, hops + 1, capacity, name, tail);
    } else if item.Piece? {
      if |Behind(name, item.name)| <= capacity {
        ReadIsBehind(msg, item.next, limit, hops, capacity, name, item.name);
      } else {
        ReadGrows(msg, item.next, limit, hops, capacity, item.name);
        BehindGrows(msg, item.next, limit, hops, capacity, name, item.name);
      }
    }
  }

  lemma BehindGrows(msg: seq<u8>, at: nat, limit: nat, hops: nat, capacity: nat, name: seq<u8>, tail: seq<u8>)
    requires name != [] && tail != [] && |Behind(name, tail)| > capacity
    ensures var r := Read(msg, at, limit, hops, capacity, tail); r.Success? ==> |Behind(name, r.value.0)| > capacity
  {
    hide Read;
    ReadGrows(msg, at, limit, hops, capacity, tail);
  }

  /** A compressed name decodes to its labels joined with the name its pointer leads to. */
  lemma CompressedName(msg: seq<u8>, at: nat, limit: nat, hops: nat, capacity: nat, labels: seq<seq<u8>>)
    requires LabelsAt(msg, at, labels) && labels != [] && hops < HOP_LIMIT
    requires var p := at + |LabelBytes(labels)|; p + 1 < |msg| && msg[p] >= 0xC0
    ensures var p := at + |LabelBytes(labels)|;
            var target := Target(msg[p], msg[p + 1]);
            var there := Read(msg, target, limit, hops, capacity, []);
            var here := Read(msg, at, limit, hops, capacity, []);
            var prefix := Joined([], labels);
            && (here.Success? <==>
                  target < limit && there.Success? && there.value.2 < HOP_LIMIT
                  && |Behind(prefix, there.value.0)| <= capacity)
            && (here.Success? ==> here.value == (Behind(prefix, there.value.0), p + 2, there.value.2 + 1))
  {
    hide Read, LabelsAt, LabelBytes, Target;
    var p := at + |LabelBytes(labels)|;
    var target := Target(msg[p], msg[p + 1]);
    var prefix := Joined([], labels);
    ReadOfLabels(msg, at, limit, hops, capacity, [], labels);
    JoinedGrows(labels[0], labels[1..]);
    FirstLabelAt(msg, at, labels);
    assert |prefix| > 0;
    if |prefix| <= capacity {
      PointerDecodes(msg, p, limit, hops, capacity, prefix);
      ReadIsBehind(msg, target, limit, hops, capacity, prefix, []);
    }
  }

  // ---- chains of pointers ----

  /** At `at` stands a pointer to a place before `limit`. */
  predicate PointerAt(msg: seq<u8>, at: nat, limit: nat) {
    at + 1 < |msg| && msg[at] >= 0xC0 && Target(msg[at], msg[at + 1]) < limit
  }

  /** Each place holds a pointer, and all but the last point to the next. */
  predicate PointerChain(msg: seq<u8>, chain: seq<nat>, limit: nat) {
    && (forall i :: 0 <= i < |chain| ==> PointerAt(msg, chain[i], limit))
    && (forall i :: 0 <= i < |chain| - 1 ==> Target(msg[chain[i]], msg[chain[i] + 1]) == chain[i + 1])
  }

  /** Once the hops are used up a pointer is refused; before that it fails as its target does. */
  lemma AtPointer(msg: seq<u8>, at: nat, limit: nat, hops: nat, capacity: nat, name: seq<u8>)
    requires PointerAt(msg, at, limit)
    ensures var r := Read(msg, at, limit, hops, capacity, name);
            if hops >= HOP_LIMIT then r == Failure(CompressionLoop)
            else var rest := Read(msg, Target(msg[at], msg[at + 1]), limit, hops + 1, capacity, name);
                 (r.Failure? <==> rest.Failure?) && (r.Failure? ==> r.error == rest.error)
  {
    hide Target;
  }

  lemma ChainTail(msg: seq<u8>, chain: seq<nat>, limit: nat)
    requires PointerChain(msg, chain, limit) && |chain| > 1
    ensures PointerChain(msg, chain[1..], limit)
  {
    hide Target;
  }

  /** A chain of more pointers than there are hops left is refused as a loop. */
  lemma {:induction false} LongChainLoops(msg: seq<u8>, chain: seq<nat>, limit: nat,
                                          hops: nat, capacity: nat, name: seq<u8>)
    requires PointerChain(msg, chain, limit) && |chain| > HopsLeft(hops)
    ensures Read(msg, chain[0], limit, hops, capacity, name) == Failure(CompressionLoop)
    decreases |chain|
  {
    hide Target, Read;
    AtPointer(msg, chain[0], limit, hops, capacity, name);
    if hops < HOP_LIMIT {
      ChainTail(msg, chain, limit);
      LongChainLoops(msg, chain[1..], limit, hops + 1, capacity, name);
    }
  }

  /** Pointers that lead round in a circle are refused, wherever decoding enters it. */
  lemma PointerCycleLoops(msg: seq<u8>, cycle: seq<nat>, limit: nat, hops: nat, capacity: nat, name: seq<u8>)
    requires cycle != [] && PointerChain(msg, cycle, limit)
    requires Target(msg[cycle[|cycle| - 1]], msg[cycle[|cycle| - 1] + 1]) == cycle[0]
    ensures Read(msg, cycle[0], limit, hops, capacity, name) == Failure(CompressionLoop)
  {
    hide Read;
    var chain := Around(cycle, HOP_LIMIT + 1);
    forall i | 0 <= i < |chain| - 1 ensures Target(msg[chain[i]], msg[chain[i] + 1]) == chain[i + 1] {
      NextAround(i, |cycle|);
    }
    LongChainLoops(msg, chain, limit, hops, capacity, name);
  }

  /** The first `n` places met going round a cycle. */
  function Around(cycle: seq<nat>, n: nat): (chain: seq<nat>)
    requires cycle != []
    ensures |chain| == n && forall i :: 0 <= i < n ==> chain[i] == cycle[i % |cycle|]
  {
    seq(n, i requires 0 <= i => cycle[i % |cycle|])
  }

  lemma NextAround(i: nat, n: nat)
    requires n > 0
    ensures (i + 1) % n == if i % n == n - 1 then 0 else i % n + 1
  {
    var q, r := i / n, i % n;
    DivMod(i, n);
    if r == n - 1 {
      assert i + 1 == (q + 1) * n by { Distribute(q + 1, q, n); }
      DivModUnique(i + 1, n, q + 1, 0);
    } else {
      DivModUnique(i + 1, n, q, r + 1);
    }
  }

  /** A pointer to itself is refused after the hop limit. */
  lemma SelfPointerLoops(msg: seq<u8>, at: nat, limit: nat, hops: nat, capacity: nat, name: seq<u8>)
    requires at + 1 < |msg| && msg[at] >= 0xC0 && Target(msg[at], msg[at + 1]) == at < limit
    ensures Read(msg, at, limit, hops, capacity, name) == Failure(CompressionLoop)
  {
    PointerCycleLoops(msg, [at], limit, hops, capacity, name);
  }

  // ---- the codec over buffers ----

  method ValidateName(name: seq<u8>) returns (r: Result<(), DnsError>)
    ensures r == if ValidName(name) then Success(()) else Failure(InvalidName)
  {
    var trimmed := Trimmed(name);
    if trimmed == [] || |trimmed| > MAX_DNS_NAME_LEN { return Failure(InvalidName); }
    var labels := Split(trimmed);
    for i := 0 to |labels|
      invariant forall k :: 0 <= k < i ==> ValidLabel(labels[k])
    {
      var piece := labels[i];
      if piece == [] || |piece| > MAX_DNS_LABEL_LEN { return Failure(InvalidName); }
      if piece[0] == HYPHEN || piece[|piece| - 1] == HYPHEN { return Failure(InvalidName); }
      for j := 0 to |piece|
        invariant forall k :: 0 <= k < j ==> NameByte(piece[k])
      {
        if !NameByte(piece[j]) {
          assert !ValidLabel(labels[i]);
          return Failure(InvalidName);
        }
      }
    }
    r := Success(());
  }

  /** From `offset` on, `e` is the encoding of the labels from the `k`th on. */
  predicate EncodedFrom(e: seq<u8>, offset: nat, labels: seq<seq<u8>>, k: nat)
    requires offset <= |e| && k <= |labels|
  {
    e[offset..] == Encode(labels[k..])
  }

  /** After its first `n` bytes, `e` goes on with `piece`. */
  predicate NextIn(e: seq<u8>, n: nat, piece: seq<u8>) {
    n + |piece| <= |e| && e[..n] + piece == e[..n + |piece|]
  }

  lemma NextLabel(labels: seq<seq<u8>>, k: nat, e: seq<u8>, offset: nat)
    requires k < |labels| && offset <= |e| && EncodedFrom(e, offset, labels, k)
    ensures var next := offset + 1 + |labels[k]|;
            next < |e| && EncodedFrom(e, next, labels, k + 1) && NextIn(e, offset, EncodeLabel(labels[k]))
  {
    var piece := labels[k];
    assert labels[k..][1..] == labels[k + 1..] && labels[k..][0] == piece;
    var tail := Encode(labels[k + 1..]);
    assert e[offset..] == EncodeLabel(piece) + tail;
    hide Encode;
    assert e == e[..offset] + e[offset..];
  }

  lemma LastLabel(labels: seq<seq<u8>>, e: seq<u8>, offset: nat)
    requires offset <= |e| && EncodedFrom(e, offset, labels, |labels|)
    ensures offset + 1 == |e| && NextIn(e, offset, [0])
  {
    assert labels[|labels|..] == [];
    assert e == e[..offset] + e[offset..];
  }

  /** Writes encoded labels and the root label, label by label, while they fit. */
  method EncodeLabels(labels: seq<seq<u8>>, out: array<u8>) returns (r: Result<nat, DnsError>)
    modifies out
    ensures |Encode(labels)| > out.Length ==> r == Failure(Truncated) && StoppedEarly(old(out[..]), out[..], labels)
    ensures |Encode(labels)| <= out.Length ==>
              r == Success(|Encode(labels)|) && out[..] == Overwrite(old(out[..]), 0, Encode(labels))
  {
    hide Overwrite, Encode, EncodeLabel, EncodedFrom, PrefixWritten, NextIn, StoppedEarly;
    ghost var e := Encode(labels);
    ghost var origin := out[..];
    EncodingStarts(origin, labels);
    var offset: nat := 0;
    for i := 0 to |labels|
      invariant offset <= out.Length && offset <= |e| && EncodedFrom(e, offset, labels, i)
      invariant PrefixWritten(origin, out[..], e, offset)
    {
      NextLabel(labels, i, e, offset);
      if offset + 1 + |labels[i]| > out.Length {
        StopsAt(origin, out[..], labels, offset, i);
        return Failure(Truncated);
      }
      offset := WriteLabel(out, offset, labels[i], origin, e);
    }
    LastLabel(labels, e, offset);
    if offset >= out.Length {
      StopsAt(origin, out[..], labels, offset, |labels|);
      return Failure(Truncated);
    }
    WriteRoot(out, offset, origin, e);
    r := Success(offset + 1);
  }

  /** The first `n` bytes of `e` have replaced those of `origin`. */
  predicate PrefixWritten(origin: seq<u8>, mem: seq<u8>, e: seq<u8>, n: nat) {
    n <= |e| && n <= |origin| && mem == Overwrite(origin, 0, e[..n])
  }

  /** The labels before the first one that does not fit have been written, and nothing else. */
  ghost predicate StoppedEarly(origin: seq<u8>, mem: seq<u8>, labels: seq<seq<u8>>) {
    exists n: nat, i: nat :: StoppedAt(origin, mem, labels, n, i)
  }

  predicate StoppedAt(origin: seq<u8>, mem: seq<u8>, labels: seq<seq<u8>>, n: nat, i: nat) {
    && i <= |labels| && n <= |Encode(labels)| && EncodedFrom(Encode(labels), n, labels, i)
    && PrefixWritten(origin, mem, Encode(labels), n)
    && n + 1 + (if i < |labels| then |labels[i]| else 0) > |origin|
  }

  lemma EncodingStarts(origin: seq<u8>, labels: seq<seq<u8>>)
    ensures EncodedFrom(Encode(labels), 0, labels, 0) && PrefixWritten(origin, origin, Encode(labels), 0)
  {
    hide Encode;
    assert labels[0..] == labels && Encode(labels)[0..] == Encode(labels);
  }

  lemma StopsAt(origin: seq<u8>, mem: seq<u8>, labels: seq<seq<u8>>, n: nat, i: nat)
    requires StoppedAt(origin, mem, labels, n, i)
    ensures StoppedEarly(origin, mem, labels)
  {
  }

  lemma WriteMore(origin: seq<u8>, mem: seq<u8>, e: seq<u8>, n: nat, piece: seq<u8>)
    requires PrefixWritten(origin, mem, e, n) && n + |piece| <= |origin| && NextIn(e, n, piece)
    ensures |mem| == |origin| && PrefixWritten(origin, Overwrite(mem, n, piece), e, n + |piece|)
  {
    OverwriteMore(origin, 0, e[..n], piece);
  }

  method WriteLabel(out: array<u8>, offset: nat, piece: seq<u8>, ghost origin: seq<u8>, ghost e: seq<u8>)
    returns (next: nat)
    requires offset + 1 + |piece| <= out.Length && PrefixWritten(origin, out[..], e, offset)
    requires NextIn(e, offset, EncodeLabel(piece))
    modifies out
    ensures next == offset + 1 + |piece| && PrefixWritten(origin, out[..], e, next)
  {
    OverwriteMore(out[..], offset, [|piece| % 256], piece);
    WriteMore(origin, out[..], e, offset, EncodeLabel(piece));
    hide Overwrite, PrefixWritten;
    CopyBytes(out, offset, [|piece| % 256]);
    CopyBytes(out, offset + 1, piece);
    next := offset + 1 + |piece|;
  }

  method WriteRoot(out: array<u8>, offset: nat, ghost origin: seq<u8>, ghost e: seq<u8>)
    requires offset < out.Length && offset + 1 == |e| && PrefixWritten(origin, out[..], e, offset)
    requires NextIn(e, offset, [0])
    modifies out
    ensures |origin| == out.Length && out[..] == Overwrite(origin, 0, e)
  {
    OverwriteMore(origin, 0, e[..offset], [0]);
    assert e[..offset] + [0] == e;
    CopyBytes(out, offset, [0]);
  }

  lemma ValidNameFits(name: seq<u8>)
    requires ValidName(name)
    ensures |Trimmed(name)| <= MAX_DNS_NAME_LEN
  {
    hide Split, Trimmed;
  }

  lemma WrittenNameReads(name: seq<u8>, origin: seq<u8>)
    requires ValidName(name) && |Encode(Split(Trimmed(name)))| <= |origin|
    ensures var e := Encode(Split(Trimmed(name)));
            Read(Overwrite(origin, 0, e), 0, 0, 0, MAX_DNS_NAME_LEN, []) == Success((Trimmed(name), |e|, 0))
  {
    hide Split, Trimmed, Encode, Read, ValidName, Overwrite;
    ValidNameFits(name);
    var e := Encode(Split(Trimmed(name)));
    OverwriteFront(origin, e);
    NameRoundTrip(name, [], origin[|e|..], 0, 0, MAX_DNS_NAME_LEN);
  }

  /** Writes the encoding of a valid name when it fits; decoding it gives the name back. */
  method EncodeName(name: seq<u8>, out: array<u8>) returns (r: Result<nat, DnsError>)
    modifies out
    ensures !ValidName(name) ==> r == Failure(InvalidName) && out[..] == old(out[..])
    ensures ValidName(name) ==>
              var e := Encode(Split(Trimmed(name)));
              if |e| > out.Length then
                r == Failure(Truncated) && StoppedEarly(old(out[..]), out[..], Split(Trimmed(name)))
              else
                && r == Success(|e|) && out[..] == Overwrite(old(out[..]), 0, e)
                && Read(out[..], 0, 0, 0, MAX_DNS_NAME_LEN, []) == Success((Trimmed(name), |e|, 0))
  {
    hide ValidName, Encode, Read, Overwrite, Split, Trimmed, StoppedEarly;
    var valid := ValidateName(name);
    if valid.Failure? { return Failure(InvalidName); }
    ghost var origin := out[..];
    r := EncodeLabels(Split(Trimmed(name)), out);
    if r.Success? { WrittenNameReads(name, origin); }
  }

  /** The whole decoding in terms of what is still to come: once a pointer has been followed,
      the end is fixed. */
  predicate Continues(whole: Decoded, rest: Decoded, followed: bool, end: nat) {
    match rest
    case Failure(e) => whole == Failure(e)
    case Success((n, last, h)) => whole == Success((n, if followed then end else last, h))
  }

  /** Appends a label of the message to the name in `out`, if it fits. */
  method AppendLabel(out: array<u8>, len: nat, piece: seq<u8>) returns (ok: bool, len': nat)
    requires len <= out.Length && |piece| > 0
    modifies out
    ensures ok <==> |WithLabel(old(out[..len]), piece)| <= out.Length
    ensures ok ==> len' == |WithLabel(old(out[..len]), piece)| && out[..len'] == WithLabel(old(out[..len]), piece)
  {
    len' := len;
    ghost var name := out[..len];
    if len > 0 {
      if len >= out.Length { return false, len; }
      out[len] := DOT;
      len' := len + 1;
    }
    assert out[..len'] == if len > 0 then name + [DOT] else name;
    if len' + |piece| > out.Length { return false, len'; }
    ghost var before := out[..];
    CopyBytes(out, len', piece);
    assert out[..len' + |piece|] == before[..len'] + piece;
    return true, len' + |piece|;
  }

  /** Decodes a name into `out` by following pointers in a loop. */
  method ReadNameAt(msg: seq<u8>, start: nat, limit: nat, hops0: nat, out: array<u8>)
    returns (r: Result<(nat, nat), DnsError>, hops: nat)
    modifies out
    ensures match Read(msg, start, limit, hops0, out.Length, [])
            case Failure(e) => r == Failure(e)
            case Success((name, end, h)) =>
              |name| <= out.Length && r == Success((|name|, end)) && hops == h && out[..|name|] == name
  {
    hide Continues, WithLabel, Read;
    var offset: nat, len: nat := start, 0;
    var followed, end: nat := false, start;
    hops := hops0;
    ghost var whole := Read(msg, start, limit, hops0, out.Length, []);
    assert Continues(whole, whole, false, start) by { ContinuesSame(whole, start); }
    assert out[..0] == [];
    while true
      invariant len <= out.Length
      invariant Continues(whole, Read(msg, offset, limit, hops, out.Length, out[..len]), followed, end)
      decreases HopsLeft(hops), |msg| - offset
    {
      ContinuesStep(whole, msg, offset, limit, hops, out.Length, out[..len], followed, end);
      if offset >= |msg| { return Failure(Truncated), hops; }
      var b := msg[offset];
      if b == 0 {
        if !followed { end := offset + 1; }
        return Success((len, end)), hops;
      }
      if b >= 0xC0 {
        if offset + 1 >= |msg| { return Failure(Truncated), hops; }
        var target := Target(b, msg[offset + 1]);
        if target >= limit { return Failure(PointerForward), hops; }
        if !followed {
          end := offset + 2;
          followed := true;
        }
        hops := hops + 1;
        if hops > HOP_LIMIT { return Failure(CompressionLoop), hops; }
        offset := target;
      } else {
        if b >= 0x40 { return Failure(Malformed), hops; }
        if offset + 1 + b > |msg| { return Failure(Truncated), hops; }
        var ok, longer := AppendLabel(out, len, msg[offset + 1..offset + 1 + b]);
        if !ok { return Failure(Malformed), hops; }
        len := longer;
        offset := offset + 1 + b;
      }
    }
  }

  lemma ContinuesSame(whole: Decoded, end: nat)
    ensures Continues(whole, whole, false, end)
  {
  }

  /** One step of the loop. */
  lemma ContinuesStep(whole: Decoded, msg: seq<u8>, at: nat, limit: nat, hops: nat, capacity: nat, name: seq<u8>,
                      followed: bool, end: nat)
    requires Continues(whole, Read(msg, at, limit, hops, capacity, name), followed, end)
    ensures match ItemAt(msg, at, limit, hops, capacity, name)
            case Bad(e) => whole == Failure(e)
            case Root => whole == Success((name, if followed then end else at + 1, hops))
            case Jump(target) =>
              Continues(whole, Read(msg, target, limit, hops + 1, capacity, name), true,
                        if followed then end else at + 2)
            case Piece(next, longer) => Continues(whole, Read(msg, next, limit, hops, capacity, longer), followed, end)
  {
    hide ItemAt;
  }
}
