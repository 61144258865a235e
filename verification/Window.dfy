/** The configure/acknowledge handshake of a window and the serials it uses. */
module Window {
  import opened Wrappers
  import opened Geometry
  import opened Surfaces

  const MAX_OUTSTANDING_CONFIGURES: nat := 4

  /** Serials skip 0, so they repeat with this period. */
  const SERIAL_PERIOD: nat := U32_MAX

  /** `states` is the window state bit set, of which only bit 0 is supported. */
  datatype WindowConfig = WindowConfig(size: Size, scale: nat, serverDecorated: bool, states: u32, bounds: Size) {
    function Validate(): Result<(), ProtocolError> {
      if size.width > MAX_SURFACE_EXTENT || size.height > MAX_SURFACE_EXTENT
         || bounds.width > MAX_SURFACE_EXTENT || bounds.height > MAX_SURFACE_EXTENT then Failure(InvalidLayout)
      else if scale != SCALE_ONE then Failure(InvalidScale)
      else if !serverDecorated || states > 1 then Failure(UnsupportedFeature)
      else Success(())
    }
  }

  type Sent = (u32, WindowConfig)

  /** Outstanding configures, oldest first, and the last one acknowledged. */
  datatype Handshake = Handshake(outstanding: seq<Sent>, acked: Option<Sent>)

  function NextSerial(serial: u32): u32 {
    if serial == U32_MAX then 1 else serial + 1
  }

  function SendConfigure(w: Handshake, next: u32, config: WindowConfig): (Handshake, u32, Result<u32, ProtocolError>) {
    if config.Validate().Failure? then (w, next, Failure(config.Validate().error))
    else if |w.outstanding| == MAX_OUTSTANDING_CONFIGURES then (w, next, Failure(TooMany))
    else (w.(outstanding := w.outstanding + [(next, config)]), NextSerial(next), Success(next))
  }

  /** The position of an outstanding serial, or the number outstanding. */
  function Position(sent: seq<Sent>, serial: u32): (k: nat)
    ensures k <= |sent| && (k < |sent| ==> sent[k].0 == serial)
    ensures forall j :: 0 <= j < k ==> sent[j].0 != serial
  {
    if sent == [] || sent[0].0 == serial then 0 else 1 + Position(sent[1..], serial)
  }

  function Acknowledge(w: Handshake, serial: u32): Result<Handshake, ProtocolError> {
    var k := Position(w.outstanding, serial);
    if k == |w.outstanding| then Failure(SerialMismatch)
    else Success(Handshake(w.outstanding[k + 1..], Some(w.outstanding[k])))
  }

  // ---- the same, updating fields in place ----

  class SerialMinter {
    var next: u32

    constructor StartingAt(first: u32)
      ensures next == if first == 0 then 1 else first
    {
      next := if first == 0 then 1 else first;
    }

    method Mint() returns (serial: u32)
      modifies this
      ensures serial == old(next) && next == NextSerial(old(next))
    {
      serial := next;
      var wrapped := (next + 1) % (U32_MAX + 1);
      next := if wrapped == 0 then 1 else wrapped;
    }
  }

  class ConfigureState {
    const outstanding: array<Option<Sent>>
    var len: nat
    var acked: Option<Sent>

    ghost predicate Valid()
      reads this, outstanding
    {
      && outstanding.Length == MAX_OUTSTANDING_CONFIGURES && len <= outstanding.Length
      && (forall i :: 0 <= i < outstanding.Length ==> (outstanding[i].Some? <==> i < len))
    }

    ghost function Value(): Handshake
      requires Valid()
      reads this, outstanding
    {
      Handshake(seq(len, i requires 0 <= i < len && Valid() reads this, outstanding => outstanding[i].value), acked)
    }

    constructor ()
      ensures Valid() && fresh(outstanding) && Value() == Handshake([], None)
    {
      outstanding := new Option<Sent>[MAX_OUTSTANDING_CONFIGURES](_ => None);
      len := 0;
      acked := None;
    }

    method Send(minter: SerialMinter, config: WindowConfig) returns (r: Result<u32, ProtocolError>)
      requires Valid()
      modifies this, outstanding, minter
      ensures Valid()
      ensures (Value(), minter.next, r) == SendConfigure(old(Value()), old(minter.next), config)
    {
      var valid := config.Validate();
      if valid.Failure? { return Failure(valid.error); }
      if len == MAX_OUTSTANDING_CONFIGURES { return Failure(TooMany); }
      ghost var before := Value().outstanding;
      var serial := minter.Mint();
      outstanding[len] := Some((serial, config));
      len := len + 1;
      assert Value().outstanding == before + [(serial, config)];
      r := Success(serial);
    }

    method Find(serial: u32) returns (k: nat)
      requires Valid()
      ensures k == Position(Value().outstanding, serial)
    {
      ghost var sent := Value().outstanding;
      k := 0;
      while k < len && outstanding[k].value.0 != serial
        invariant k <= len
        invariant Position(sent, serial) == k + Position(sent[k..], serial)
      {
        assert sent[k..][1..] == sent[k + 1..];
        k := k + 1;
      }
    }

    /** Drops the oldest `consumed` entries and clears the vacated places. */
    method Shift(consumed: nat)
      requires Valid() && consumed <= len
      modifies outstanding, `len
      ensures Valid() && Value() == Handshake(old(Value()).outstanding[consumed..], old(acked))
    {
      ghost var was := outstanding[..];
      for i := 0 to MAX_OUTSTANDING_CONFIGURES
        invariant len == old(len)
        invariant forall j :: 0 <= j < i ==> outstanding[j] == if j + consumed < len then was[j + consumed] else None
        invariant forall j :: i <= j < outstanding.Length ==> outstanding[j] == was[j]
      {
        outstanding[i] := if i + consumed < len then outstanding[i + consumed] else None;
      }
      len := len - consumed;
      assert Value().outstanding == old(Value()).outstanding[consumed..];
    }

    method Ack(serial: u32) returns (r: Result<WindowConfig, ProtocolError>)
      requires Valid()
      modifies this, outstanding
      ensures Valid()
      ensures match Acknowledge(old(Value()), serial)
              case Failure(e) => r == Failure(e) && Value() == old(Value())
              case Success(w) => w.acked.Some? && r == Success(w.acked.value.1) && Value() == w
    {
      var index := Find(serial);
      if index == len { return Failure(SerialMismatch); }
      var config := outstanding[index].value.1;
      Shift(index + 1);
      acked := Some((serial, config));
      r := Success(config);
    }
  }

  // ---- serials over a run ----

  /** The serial of the `n`th mint. */
  function SerialAt(n: nat): u32 { 1 + n % SERIAL_PERIOD }

  lemma MintFollows(n: nat)
    ensures NextSerial(SerialAt(n)) == SerialAt(n + 1)
  {
    if n % SERIAL_PERIOD == SERIAL_PERIOD - 1 {
      assert (n + 1) % SERIAL_PERIOD == 0;
    } else {
      assert (n + 1) % SERIAL_PERIOD == n % SERIAL_PERIOD + 1;
    }
  }

  /** Two mints share a serial exactly when a whole number of periods apart: one fewer than
      2^32 mints are enough to repeat a serial that is still outstanding. */
  lemma SerialsRepeatIff(m: nat, n: nat)
    requires m <= n
    ensures SerialAt(m) == SerialAt(n) <==> (n - m) % SERIAL_PERIOD == 0
    ensures SerialAt(m) == SerialAt(m + U32_MAX)
  {
    assert n - m == (n / SERIAL_PERIOD - m / SERIAL_PERIOD) * SERIAL_PERIOD + (n % SERIAL_PERIOD - m % SERIAL_PERIOD);
  }

  /** Other windows and input events mint from the same source. */
  datatype WindowOp = SendOp(config: WindowConfig) | AckOp(serial: u32) | ForeignMint

  /** The handshake, the mints so far, and the ghost record of acknowledged mints in order. */
  datatype WindowRun = WindowRun(w: Handshake, mints: nat, sentAt: seq<nat>, ackedAt: seq<nat>)

  const NEW_WINDOW := WindowRun(Handshake([], None), 0, [], [])

  function WindowStep(r: WindowRun, op: WindowOp): WindowRun {
    match op
    case ForeignMint => r.(mints := r.mints + 1)
    case SendOp(config) =>
      var (w, _, sent) := SendConfigure(r.w, SerialAt(r.mints), config);
      if sent.Failure? then r else r.(w := w, mints := r.mints + 1, sentAt := r.sentAt + [r.mints])
    case AckOp(serial) =>
      var k := Position(r.w.outstanding, serial);
      if Acknowledge(r.w, serial).Failure? || |r.sentAt| != |r.w.outstanding| then r
      else r.(w := Acknowledge(r.w, serial).value, sentAt := r.sentAt[k + 1..], ackedAt := r.ackedAt + [r.sentAt[k]])
  }

  function WindowRunOf(ops: seq<WindowOp>): WindowRun {
    if ops == [] then NEW_WINDOW else WindowStep(WindowRunOf(ops[..|ops| - 1]), ops[|ops| - 1])
  }

  predicate Increasing(s: seq<nat>) { forall i, j :: 0 <= i < j < |s| ==> s[i] < s[j] }

  /** Outstanding configures carry the serials of increasing mints, all later than any acknowledged. */
  predicate WindowOk(r: WindowRun) {
    && |r.sentAt| == |r.w.outstanding| <= MAX_OUTSTANDING_CONFIGURES
    && (forall i :: 0 <= i < |r.sentAt| ==> r.w.outstanding[i].0 == SerialAt(r.sentAt[i]))
    && (r.ackedAt == [] <==> r.w.acked.None?)
    && (r.ackedAt != [] ==> r.w.acked.Some? && r.w.acked.value.0 == SerialAt(r.ackedAt[|r.ackedAt| - 1]))
    && Increasing(r.ackedAt) && Increasing(r.sentAt)
    && (forall i, j :: 0 <= i < |r.ackedAt| && 0 <= j < |r.sentAt| ==> r.ackedAt[i] < r.sentAt[j])
    && (forall i :: 0 <= i < |r.ackedAt| ==> r.ackedAt[i] < r.mints)
    && (forall i :: 0 <= i < |r.sentAt| ==> r.sentAt[i] < r.mints)
  }

  lemma StepKeepsWindow(r: WindowRun, op: WindowOp)
    requires WindowOk(r)
    ensures WindowOk(WindowStep(r, op))
  {
    hide SerialAt, WindowOk, WindowStep;
    match op
    case ForeignMint => MintKeepsWindow(r);
    case SendOp(config) => SendKeepsWindow(r, config);
    case AckOp(serial) => AckKeepsWindow(r, serial);
  }

  lemma MintKeepsWindow(r: WindowRun)
    requires WindowOk(r)
    ensures WindowOk(WindowStep(r, ForeignMint))
  {
    hide SerialAt;
  }

  lemma SendKeepsWindow(r: WindowRun, config: WindowConfig)
    requires WindowOk(r)
    ensures WindowOk(WindowStep(r, SendOp(config)))
  {
    hide SerialAt;
  }

  /** Acknowledging drops a prefix of what is outstanding; the rest stays in step. */
  lemma AckKeepsWindow(r: WindowRun, serial: u32)
    requires WindowOk(r)
    ensures WindowOk(WindowStep(r, AckOp(serial)))
  {
    hide SerialAt, Position;
    var k := Position(r.w.outstanding, serial);
    var s := WindowStep(r, AckOp(serial));
    if s != r {
      AckShape(r, serial);
      assert s.sentAt == r.sentAt[k + 1..] && s.ackedAt == r.ackedAt + [r.sentAt[k]];
      forall i | 0 <= i < |s.sentAt|
        ensures s.sentAt[i] == r.sentAt[k + 1 + i] && s.w.outstanding[i] == r.w.outstanding[k + 1 + i]
      {
      }
    }
  }

  lemma AckShape(r: WindowRun, serial: u32)
    requires Acknowledge(r.w, serial).Success?
    ensures var k := Position(r.w.outstanding, serial);
            var w := Acknowledge(r.w, serial).value;
            && k < |r.w.outstanding| && w.outstanding == r.w.outstanding[k + 1..]
            && w.acked == Some(r.w.outstanding[k])
  {
  }

  lemma {:induction false} EveryRunKeepsWindow(ops: seq<WindowOp>)
    ensures WindowOk(WindowRunOf(ops))
  {
    if ops != [] {
      EveryRunKeepsWindow(ops[..|ops| - 1]);
      StepKeepsWindow(WindowRunOf(ops[..|ops| - 1]), ops[|ops| - 1]);
    }
  }

  /** Over every run, configures are acknowledged in the order they were sent, each at most once.
      Two outstanding ones share a serial exactly when a whole number of periods of mints lies
      between them, which cannot be within one period. */
  lemma AcksAreOrdered(ops: seq<WindowOp>)
    ensures var r := WindowRunOf(ops);
            && Increasing(r.ackedAt) && |r.sentAt| == |r.w.outstanding|
            && (forall i, j :: 0 <= i < j < |r.w.outstanding| ==>
                  (r.w.outstanding[i].0 == r.w.outstanding[j].0 <==> (r.sentAt[j] - r.sentAt[i]) % SERIAL_PERIOD == 0))
            && (r.sentAt != [] && r.mints - r.sentAt[0] <= SERIAL_PERIOD ==>
                  forall i, j :: 0 <= i < j < |r.w.outstanding| ==> r.w.outstanding[i].0 != r.w.outstanding[j].0)
  {
    hide SerialAt, WindowRunOf;
    EveryRunKeepsWindow(ops);
    var r := WindowRunOf(ops);
    forall i, j | 0 <= i < j < |r.w.outstanding|
      ensures r.w.outstanding[i].0 == r.w.outstanding[j].0 <==> (r.sentAt[j] - r.sentAt[i]) % SERIAL_PERIOD == 0
    {
      SerialsRepeatIff(r.sentAt[i], r.sentAt[j]);
    }
    if r.sentAt != [] && r.mints - r.sentAt[0] <= SERIAL_PERIOD {
      forall i, j | 0 <= i < j < |r.w.outstanding| ensures r.w.outstanding[i].0 != r.w.outstanding[j].0 {
        assert r.sentAt[0] <= r.sentAt[i] < r.sentAt[j] < r.mints;
        WithinPeriod(r.sentAt[j] - r.sentAt[i]);
      }
    }
  }

  lemma WithinPeriod(n: nat)
    requires 0 < n < SERIAL_PERIOD
    ensures n % SERIAL_PERIOD != 0
  {
  }

  /** Of two outstanding configures with one serial an acknowledgement takes the older; the newer
      stays outstanding and needs another. */
  lemma CollisionTakesOlder(w: Handshake, i: nat, j: nat)
    requires i < j < |w.outstanding| && w.outstanding[i].0 == w.outstanding[j].0
    requires forall k :: 0 <= k < i ==> w.outstanding[k].0 != w.outstanding[i].0
    ensures var a := Acknowledge(w, w.outstanding[i].0);
            && a.Success? && a.value.acked == Some(w.outstanding[i]) && a.value.outstanding == w.outstanding[i + 1..]
            && w.outstanding[j] in a.value.outstanding
  {
    assert Position(w.outstanding, w.outstanding[i].0) == i;
    assert w.outstanding[i + 1..][j - i - 1] == w.outstanding[j];
  }
}
