/** The MercuryiPS driver objects (qcodes/instrument_drivers/oxford/MercuryiPS_VISA.py):
    the instrument `MercuryiPS`, which owns the transport, the target field
    vector and the field limits, and its three per-axis sub-supplies
    `MercurySlavePS`, which speak to the device through the instrument.

    The transport is a log of the commands sent so far plus a scripted reply:
    `respond(n, cmd)` is the text the device answers to `cmd` when it is the
    n-th command of the session (counting from 0). */
module Driver {
  import opened Wrappers
  import opened Text
  import opened Decimal
  import opened SignalParsing
  import opened Protocol

  // ------------------------------------------------------------ target vector

  /** The Cartesian target coordinates the model covers. */
  datatype Coordinate = X | Y | Z

  function CoordinateName(c: Coordinate): string
  {
    match c
    case X => "x"
    case Y => "y"
    case Z => "z"
  }

  /** The Cartesian components of the target field vector, in tesla. */
  datatype Vec3 = Vec3(x: real, y: real, z: real)

  function Component(v: Vec3, c: Coordinate): real
  {
    match c
    case X => v.x
    case Y => v.y
    case Z => v.z
  }

  /** `set_component(coordinate=target)` on a copy of the vector. */
  function WithComponent(v: Vec3, c: Coordinate, t: real): (w: Vec3)
    ensures Component(w, c) == t
    ensures forall d :: d != c ==> Component(w, d) == Component(v, d)
  {
    match c
    case X => v.(x := t)
    case Y => v.(y := t)
    case Z => v.(z := t)
  }

  /** Setting a component twice keeps the last value; setting it to what it
      already holds changes nothing. */
  lemma WithComponentLaws(v: Vec3, c: Coordinate, s: real, t: real)
    ensures WithComponent(WithComponent(v, c, s), c, t) == WithComponent(v, c, t)
    ensures WithComponent(v, c, Component(v, c)) == v
  {
  }

  /** Whether the limit function accepts the vector's (x, y, z). */
  predicate Admits(limits: (real, real, real) -> bool, v: Vec3)
  {
    limits(v.x, v.y, v.z)
  }

  /** `field_limits if field_limits else lambda x, y, z: True`. */
  function EffectiveLimits(fieldLimits: Option<(real, real, real) -> bool>): (r: (real, real, real) -> bool)
    ensures fieldLimits.Some? ==> r == fieldLimits.value
    ensures fieldLimits.None? ==> forall v: Vec3 :: Admits(r, v)
  {
    match fieldLimits
    case Some(f) => f
    case None => (x: real, y: real, z: real) => true
  }

  // ------------------------------------------------------------ construction

  /** The VISA backend named by `visalib`: "NI" when none is given (or it is
      empty), otherwise the second '@'-separated field; an IndexError when
      there is no '@'. */
  function VisaBackend(visalib: Option<string>): (r: Result<string, DriverError>)
    ensures r.Err? <==> visalib.Some? && visalib.value != [] && '@' !in visalib.value
    ensures r.Ok? ==> '@' !in r.value
  {
    match visalib
    case None => Ok("NI")
    case Some(lib) =>
      if lib == [] then Ok("NI")
      else
        var parts := Split(lib, '@');
        if |parts| < 2 then
          assert lib == Join(parts, '@') by { JoinSplit(lib, '@'); }
          Err(MissingBackend(lib))
        else
          assert '@' in lib by {
            JoinSplit(lib, '@');
            assert Join(parts, '@') == parts[0] + ['@'] + Join(parts[1..], '@');
            assert Join(parts, '@')[|parts[0]|] == '@';
          }
          Ok(parts[1])
  }

  /** `path@sim` and `path@py` select the backend after the '@'. */
  lemma VisaBackendNamed(path: string, backend: string)
    requires '@' !in path && '@' !in backend
    ensures VisaBackend(Some(path + ['@'] + backend)) == Ok(backend)
  {
    SplitAtSeparator(path, backend, '@');
    SplitNoSeparator(path, '@');
    SplitNoSeparator(backend, '@');
  }

  /** The checks `MercuryiPS.__init__` makes before opening the connection:
      the backend must be found, and the address must be a raw socket unless
      the backend is the simulator. The result is the backend. */
  function ValidateConstruction(address: string, visalib: Option<string>): (r: Result<string, DriverError>)
    ensures r.Ok? <==> VisaBackend(visalib).Ok? && (EndsWith(address, "SOCKET") || VisaBackend(visalib).value == "sim")
    ensures r.Err? && VisaBackend(visalib).Ok? ==> r.error == WrongResource(address)
  {
    match VisaBackend(visalib)
    case Err(e) => Err(e)
    case Ok(backend) =>
      if !EndsWith(address, "SOCKET") && backend != "sim" then Err(WrongResource(address))
      else Ok(backend)
  }

  /** Without a VISA library only a socket resource is accepted; with the
      simulator any address is. */
  lemma ConstructionChecks(address: string, path: string)
    requires '@' !in path
    ensures ValidateConstruction(address, None).Ok? <==> EndsWith(address, "SOCKET")
    ensures ValidateConstruction(address, Some(path + "@sim")) == Ok("sim")
  {
    VisaBackendNamed(path, "sim");
    assert path + "@sim" == path + ['@'] + "sim";
  }

  // ---------------------------------------------- what one reply turns into

  /** A numeric parameter's value, from the reply to its READ command. */
  function SignalReading(uid: string, s: Signal, reply: string): (r: Result<real, DriverError>)
    ensures Classify(reply, ReadCommand(uid, SignalCommand(s))).Err? ==> r.Err?
  {
    match Classify(reply, ReadCommand(uid, SignalCommand(s)))
    case Err(e) => Err(e)
    case Ok(payload) => SignalParser(OurScaling(s), payload)
  }

  /** `ramp_status`'s value, from the reply to `READ:DEV:<uid>:PSU:ACTN`:
      preparsed, then mapped back through the token table; a KeyError for an
      unknown token. */
  function StatusReading(uid: string, reply: string): (r: Result<RampStatus, DriverError>)
    ensures r.Ok? <==> Classify(reply, ReadCommand(uid, "ACTN")).Ok?
                       && StatusFromToken(Preparse(Classify(reply, ReadCommand(uid, "ACTN")).value)).Some?
    ensures r.Ok? ==> Preparse(Classify(reply, ReadCommand(uid, "ACTN")).value) == StatusToken(r.value)
  {
    match Classify(reply, ReadCommand(uid, "ACTN"))
    case Err(e) => Err(e)
    case Ok(payload) =>
      var token := Preparse(payload);
      match StatusFromToken(token)
      case None => Err(UnknownStatus(token))
      case Some(st) => Ok(st)
  }

  /** `_idn_getter`'s result, from the reply to `*IDN?`. */
  function IdnReading(reply: string): (r: Result<Idn, DriverError>)
    ensures Contains(reply, "INVALID") ==> r == IdnFromReply(reply)
  {
    match Classify(reply, "*IDN?")
    case Err(e) => Err(e)
    case Ok(payload) => IdnFromReply(payload)
  }

  /** The reply to a READ that echoes the command and then gives a reading
      written as a numeral and a unit yields that reading in SI units. */
  lemma SignalReadingEcho(uid: string, s: Signal, x: Numeral, unit: string)
    requires WellFormed(x)
    requires !Contains(EchoedCommand(uid, SignalCommand(s)), "READ:")
    requires ':' !in unit && 'S' !in unit && HasNoNumChar(unit)
    requires !Contains("STAT:" + EchoedCommand(uid, SignalCommand(s)) + ([':'] + Written(x) + unit), "INVALID")
    requires !EndsWith("STAT:" + EchoedCommand(uid, SignalCommand(s)) + ([':'] + Written(x) + unit), "VALID")
    ensures SignalReading(uid, s, "STAT:" + EchoedCommand(uid, SignalCommand(s)) + ([':'] + Written(x) + unit))
         == Ok(SiValue(Value(x), TheirScaling(unit), OurScaling(s)))
  {
    var numeral := Written(x);
    var payload := [':'] + (numeral + unit);
    NumeralCharacters(x);
    assert 'S' !in numeral && ':' !in numeral by {
      assert forall i :: 0 <= i < |numeral| ==> IsDigit(numeral[i]) || numeral[i] == '.' || numeral[i] == '-';
    }
    assert payload == [':'] + numeral + unit;
    MissingCharNotContained(payload, "STAT:" + EchoedCommand(uid, SignalCommand(s)), 'S');
    ReadEcho(uid, SignalCommand(s), payload);
    PreparseLeadingColon(numeral + unit);
    ParseReading(OurScaling(s), payload, x, unit);
  }

  /** The reply to the ACTN read that echoes the command and then gives a
      status token yields that status. */
  lemma StatusReadingEcho(uid: string, st: RampStatus)
    requires !Contains(EchoedCommand(uid, "ACTN"), "READ:")
    requires !Contains("STAT:" + EchoedCommand(uid, "ACTN") + ([':'] + StatusToken(st)), "INVALID")
    ensures StatusReading(uid, "STAT:" + EchoedCommand(uid, "ACTN") + ([':'] + StatusToken(st))) == Ok(st)
  {
    var payload := [':'] + StatusToken(st);
    StatusEchoNotAcknowledgement(uid, st);
    ShortNotContained(payload, "STAT:" + EchoedCommand(uid, "ACTN"));
    ReadEcho(uid, "ACTN", payload);
    StatusFromPayload(uid, "STAT:" + EchoedCommand(uid, "ACTN") + payload, st);
  }

  /** An echoed status reply does not end in VALID. */
  lemma StatusEchoNotAcknowledgement(uid: string, st: RampStatus)
    ensures !EndsWith("STAT:" + EchoedCommand(uid, "ACTN") + ([':'] + StatusToken(st)), "VALID")
  {
    var payload := [':'] + StatusToken(st);
    var reply := "STAT:" + EchoedCommand(uid, "ACTN") + payload;
    assert |StatusToken(st)| == 4;
    assert reply[|reply| - 5..] == payload;
    assert payload[0] != "VALID"[0];
  }

  /** A reply whose classified payload is ':' and a status token reads as that status. */
  lemma StatusFromPayload(uid: string, reply: string, st: RampStatus)
    requires Classify(reply, ReadCommand(uid, "ACTN")) == Ok([':'] + StatusToken(st))
    ensures StatusReading(uid, reply) == Ok(st)
  {
    PreparseLeadingColon(StatusToken(st));
    StatusMappingBijective(st, st);
  }

  /** An identity reply that is not an error and carries no echo is read
      field by field. */
  lemma IdnReadingPlain(preamble: string, idn: Idn, rest: seq<string>)
    requires ':' !in preamble && ':' !in idn.vendor && ':' !in idn.model
    requires ':' !in idn.serial && ':' !in idn.firmware
    requires forall i :: 0 <= i < |rest| ==> ':' !in rest[i]
    requires !Contains(Join([preamble, idn.vendor, idn.model, idn.serial, idn.firmware] + rest, ':'), "INVALID")
    requires !EndsWith(Join([preamble, idn.vendor, idn.model, idn.serial, idn.firmware] + rest, ':'), "VALID")
    requires !Contains(Join([preamble, idn.vendor, idn.model, idn.serial, idn.firmware] + rest, ':'), "STAT:" + "*IDN?")
    ensures IdnReading(Join([preamble, idn.vendor, idn.model, idn.serial, idn.firmware] + rest, ':')) == Ok(idn)
  {
    IdnPassesThrough(Join([preamble, idn.vendor, idn.model, idn.serial, idn.firmware] + rest, ':'));
    IdnRoundTrip(preamble, idn, rest);
  }

  /** `*IDN?` has no echo to strip, so a plain reply passes `ask` unchanged. */
  lemma IdnPassesThrough(raw: string)
    requires !Contains(raw, "INVALID") && !EndsWith(raw, "VALID")
    requires !Contains(raw, "STAT:" + "*IDN?")
    ensures Classify(raw, "*IDN?") == Ok(raw)
  {
    MissingCharNotContained("*IDN?", "READ:", 'R');
    assert ReplaceAll("*IDN?", "READ:", "") == "*IDN?";
  }

  // ------------------------------------------------------------- ramp guard

  /** `_ramp_status_setter`'s guard: a clamped supply refuses to ramp to its target. */
  predicate RampPermitted(current: RampStatus, requested: RampStatus)
  {
    !(current == Clamp && requested == ToSet)
  }

  /** HOLD is always accepted, and CLAMP refuses exactly TO SET. */
  lemma RampGuard(current: RampStatus, requested: RampStatus)
    ensures RampPermitted(current, Hold)
    ensures current != Clamp ==> RampPermitted(current, requested)
    ensures !RampPermitted(Clamp, requested) <==> requested == ToSet
  {
  }

  // --------------------------------------------------------------- objects

  /** The sub-supplies the instrument creates, by UID. */
  const Groups: seq<string> := ["GRPX", "GRPY", "GRPZ"]

  /** The READ of the field of axis `i` (0, 1, 2 for x, y, z). */
  function AxisRead(i: nat): string
    requires i < |Groups|
  {
    ReadCommand(Groups[i], SignalCommand(Field))
  }

  /** The field of axis `i` when its READ is command `n` of the session. */
  function AxisReading(respond: (nat, string) -> string, n: nat, i: nat): Result<real, DriverError>
    requires i < |Groups|
  {
    SignalReading(Groups[i], Field, respond(n, AxisRead(i)))
  }

  /** Three reads made in turn, stopping at the first failure. */
  function FirstFailure(rx: Result<real, DriverError>, ry: Result<real, DriverError>,
                        rz: Result<real, DriverError>): (r: Result<Vec3, DriverError>)
    ensures r.Ok? <==> rx.Ok? && ry.Ok? && rz.Ok?
    ensures r.Ok? ==> r.value == Vec3(rx.value, ry.value, rz.value)
    ensures rx.Err? ==> r == Err(rx.error)
    ensures rx.Ok? && ry.Err? ==> r == Err(ry.error)
    ensures rx.Ok? && ry.Ok? && rz.Err? ==> r == Err(rz.error)
  {
    if rx.Err? then Err(rx.error)
    else if ry.Err? then Err(ry.error)
    else if rz.Err? then Err(rz.error)
    else Ok(Vec3(rx.value, ry.value, rz.value))
  }

  /** What the three field reads of `__init__` give, one per axis in the
      order x, y, z, when they are commands `start`, `start + 1` and
      `start + 2` of the session. */
  function InitialTarget(respond: (nat, string) -> string, start: nat): (r: Result<Vec3, DriverError>)
    ensures r.Ok? <==> AxisReading(respond, start, 0).Ok? && AxisReading(respond, start + 1, 1).Ok?
                       && AxisReading(respond, start + 2, 2).Ok?
    ensures r.Ok? ==> AxisReading(respond, start, 0) == Ok(r.value.x)
    ensures r.Ok? ==> AxisReading(respond, start + 1, 1) == Ok(r.value.y)
    ensures r.Ok? ==> AxisReading(respond, start + 2, 2) == Ok(r.value.z)
    ensures AxisReading(respond, start, 0).Err? ==> r == Err(AxisReading(respond, start, 0).error)
    ensures AxisReading(respond, start, 0).Ok? && AxisReading(respond, start + 1, 1).Err?
            ==> r == Err(AxisReading(respond, start + 1, 1).error)
    ensures AxisReading(respond, start, 0).Ok? && AxisReading(respond, start + 1, 1).Ok?
            && AxisReading(respond, start + 2, 2).Err?
            ==> r == Err(AxisReading(respond, start + 2, 2).error)
  {
    var rx, ry, rz := AxisReading(respond, start, 0), AxisReading(respond, start + 1, 1),
                      AxisReading(respond, start + 2, 2);
    FirstFailure(rx, ry, rz)
  }

  /** The commands those reads send. */
  function InitialReads(): seq<string>
  {
    [AxisRead(0), AxisRead(1), AxisRead(2)]
  }

  /** Two commands logged one after the other. */
  lemma AppendTwo(log: seq<string>, a: string, b: string)
    ensures log + [a] + [b] == log + [a, b]
  {
  }

  /** The log after the first read and then the other two. */
  lemma InitialReadsSplit(log: seq<string>)
    ensures log + [AxisRead(0)] + [AxisRead(1), AxisRead(2)] == log + InitialReads()
  {
  }

  /** What constructing the instrument comes to: the first construction
      check that fails, else the first of the three field reads that fails,
      else the identity read of `connect_message` (command 3 of the session)
      when it fails, else the target vector read at start-up. */
  function Construction(address: string, visalib: Option<string>,
                        respond: (nat, string) -> string): (r: Result<Vec3, DriverError>)
    ensures r.Ok? <==> ValidateConstruction(address, visalib).Ok? && InitialTarget(respond, 0).Ok?
                       && IdnReading(respond(|InitialReads()|, "*IDN?")).Ok?
    ensures r.Ok? ==> r == InitialTarget(respond, 0)
    ensures ValidateConstruction(address, visalib).Err? ==> r == Err(ValidateConstruction(address, visalib).error)
    ensures ValidateConstruction(address, visalib).Ok? && InitialTarget(respond, 0).Err?
            ==> r == Err(InitialTarget(respond, 0).error)
    ensures ValidateConstruction(address, visalib).Ok? && InitialTarget(respond, 0).Ok?
            && IdnReading(respond(|InitialReads()|, "*IDN?")).Err?
            ==> r == Err(IdnReading(respond(|InitialReads()|, "*IDN?")).error)
  {
    match ValidateConstruction(address, visalib)
    case Err(e) => Err(e)
    case Ok(_) =>
      match InitialTarget(respond, 0)
      case Err(e) => Err(e)
      case Ok(v) =>
        match IdnReading(respond(|InitialReads()|, "*IDN?"))
        case Err(e) => Err(e)
        case Ok(_) => Ok(v)
  }

  /** A power supply of one axis, speaking through its parent instrument. */
  class MercurySlavePS {
    const parent: MercuryiPS
    const name: string
    const uid: string

    constructor (parent: MercuryiPS, name: string, uid: string)
      ensures this.parent == parent && this.name == name && this.uid == uid
    {
      this.parent := parent;
      this.name := name;
      this.uid := uid;
    }

    /** `MercurySlavePS(parent, name, UID)`: a ValueError for a UID holding ':'. */
    static method Create(parent: MercuryiPS, name: string, uid: string) returns (r: Result<MercurySlavePS, DriverError>)
      ensures r.Err? <==> ':' in uid
      ensures r.Err? ==> r.error == InvalidUid(uid)
      ensures r.Ok? ==> fresh(r.value) && r.value.parent == parent && r.value.name == name && r.value.uid == uid
    {
      if ':' in uid {
        r := Err(InvalidUid(uid));
      } else {
        var psu := new MercurySlavePS(parent, name, uid);
        r := Ok(psu);
      }
    }

    /** `_param_getter`: one READ, classified by the parent's `ask`. */
    method ParamGetter(getCmd: string) returns (r: Result<string, DriverError>)
      modifies parent
      ensures parent.sent == old(parent.sent) + [ReadCommand(uid, getCmd)]
      ensures r == Classify(parent.respond(|old(parent.sent)|, ReadCommand(uid, getCmd)), ReadCommand(uid, getCmd))
      ensures parent.target == old(parent.target) && parent.submodules == old(parent.submodules)
    {
      r := parent.Ask(ReadCommand(uid, getCmd));
    }

    /** `_param_setter`: one SET; the classified reply is dropped, but the
        IndexError of a short acknowledgement still escapes. */
    method ParamSetter(setCmd: string, value: string) returns (r: Result<(), DriverError>)
      modifies parent
      ensures parent.sent == old(parent.sent) + [SetCommand(uid, setCmd, value)]
      ensures var reply := Classify(parent.respond(|old(parent.sent)|, SetCommand(uid, setCmd, value)), SetCommand(uid, setCmd, value));
              (r.Err? <==> reply.Err?) && (r.Err? ==> r.error == reply.error)
      ensures parent.target == old(parent.target) && parent.submodules == old(parent.submodules)
    {
      var reply := parent.Ask(SetCommand(uid, setCmd, value));
      if reply.Err? {
        r := Err(reply.error);
      } else {
        r := Ok(());
      }
    }

    /** Getting a numeric parameter: its READ, then `_signal_parser` with its scale. */
    method GetSignal(s: Signal) returns (r: Result<real, DriverError>)
      modifies parent
      ensures parent.sent == old(parent.sent) + [ReadCommand(uid, SignalCommand(s))]
      ensures r == SignalReading(uid, s, parent.respond(|old(parent.sent)|, ReadCommand(uid, SignalCommand(s))))
      ensures parent.target == old(parent.target) && parent.submodules == old(parent.submodules)
    {
      var reply := ParamGetter(SignalCommand(s));
      match reply
      case Err(e) => r := Err(e);
      case Ok(payload) => r := SignalParser(OurScaling(s), payload);
    }

    /** Setting a numeric parameter: refused for those declared without a
        set command; otherwise the value after `set_parser`, written as
        `render` writes a number, goes out in one SET. */
    method SetSignal(s: Signal, x: real, render: real -> string) returns (r: Result<(), DriverError>)
      modifies parent
      ensures !Settable(s) ==> r == Err(NotSettable(SignalCommand(s))) && parent.sent == old(parent.sent)
      ensures Settable(s) ==> parent.sent == old(parent.sent) + [SetCommand(uid, SignalCommand(s), render(ToDevice(s, x)))]
      ensures Settable(s) ==>
        var write := SetCommand(uid, SignalCommand(s), render(ToDevice(s, x)));
        var reply := Classify(parent.respond(|old(parent.sent)|, write), write);
        (r.Err? <==> reply.Err?) && (r.Err? ==> r.error == reply.error)
      ensures parent.target == old(parent.target) && parent.submodules == old(parent.submodules)
    {
      if !Settable(s) {
        r := Err(NotSettable(SignalCommand(s)));
      } else {
        r := ParamSetter(SignalCommand(s), render(ToDevice(s, x)));
      }
    }

    /** Getting `ramp_status`. */
    method GetRampStatus() returns (r: Result<RampStatus, DriverError>)
      modifies parent
      ensures parent.sent == old(parent.sent) + [ReadCommand(uid, "ACTN")]
      ensures r == StatusReading(uid, parent.respond(|old(parent.sent)|, ReadCommand(uid, "ACTN")))
      ensures parent.target == old(parent.target) && parent.submodules == old(parent.submodules)
    {
      var reply := ParamGetter("ACTN");
      match reply
      case Err(e) => r := Err(e);
      case Ok(payload) =>
        var token := Preparse(payload);
        match StatusFromToken(token)
        case None => r := Err(UnknownStatus(token));
        case Some(st) => r := Ok(st);
    }

    /** Setting `ramp_status` by name: an unknown name is refused before
        anything is sent; otherwise the current status is read, a clamped
        supply refuses TO SET, and any other request goes out as one SET of
        the status token. */
    method SetRampStatus(name: string) returns (r: Result<(), DriverError>)
      modifies parent
      ensures StatusFromName(name).None? ==> r == Err(UnknownStatus(name)) && parent.sent == old(parent.sent)
      ensures StatusFromName(name).Some? ==>
        var read := ReadCommand(uid, "ACTN");
        var current := StatusReading(uid, parent.respond(|old(parent.sent)|, read));
        var write := SetCommand(uid, "ACTN", StatusToken(StatusFromName(name).value));
        if current.Err? then
          r == Err(current.error) && parent.sent == old(parent.sent) + [read]
        else if !RampPermitted(current.value, StatusFromName(name).value) then
          r == Err(Clamped(uid)) && parent.sent == old(parent.sent) + [read]
        else
          parent.sent == old(parent.sent) + [read, write]
          && (r.Err? <==> Classify(parent.respond(|old(parent.sent)| + 1, write), write).Err?)
          && (r.Err? ==> r.error == Classify(parent.respond(|old(parent.sent)| + 1, write), write).error)
      ensures parent.target == old(parent.target) && parent.submodules == old(parent.submodules)
    {
      match StatusFromName(name)
      case None =>
        r := Err(UnknownStatus(name));
      case Some(requested) =>
        ghost var read := ReadCommand(uid, "ACTN");
        var current := GetRampStatus();
        assert parent.sent == old(parent.sent) + [read];
        if current.Err? {
          r := Err(current.error);
        } else if !RampPermitted(current.value, requested) {
          r := Err(Clamped(uid));
        } else {
          ghost var write := SetCommand(uid, "ACTN", StatusToken(requested));
          r := ParamSetter("ACTN", StatusToken(requested));
          assert parent.sent == old(parent.sent) + [read] + [write];
          assert old(parent.sent) + [read] + [write] == old(parent.sent) + [read, write];
        }
    }
  }

  /** The instrument: the transport, the three sub-supplies and the target vector. */
  class MercuryiPS {
    const name: string
    const address: string
    /** The device's answer to a command, by its position in the session. */
    const respond: (nat, string) -> string
    /** The limit function in force (the default accepts every vector). */
    const fieldLimits: (real, real, real) -> bool
    /** Every command sent so far, in order. */
    var sent: seq<string>
    var target: Vec3
    var submodules: map<string, MercurySlavePS>

    constructor (name: string, address: string, respond: (nat, string) -> string,
                 fieldLimits: (real, real, real) -> bool)
      ensures this.name == name && this.address == address
      ensures this.respond == respond && this.fieldLimits == fieldLimits
      ensures sent == [] && target == Vec3(0.0, 0.0, 0.0) && submodules == map[]
    {
      this.name := name;
      this.address := address;
      this.respond := respond;
      this.fieldLimits := fieldLimits;
      sent := [];
      target := Vec3(0.0, 0.0, 0.0);
      submodules := map[];
    }

    /** Every sub-supply belongs to this instrument and is filed under its UID. */
    predicate Valid()
      reads this
    {
      forall k :: k in submodules ==> submodules[k].parent == this && submodules[k].uid == k
    }

    /** `MercuryiPS(name, address, visalib, field_limits)`: the backend and
        resource checks, the three sub-supplies, then the target vector read
        from the device. */
    static method Create(name: string, address: string, visalib: Option<string>,
                         fieldLimits: Option<(real, real, real) -> bool>,
                         respond: (nat, string) -> string)
      returns (r: Result<MercuryiPS, DriverError>)
      ensures r.Err? ==> Construction(address, visalib, respond) == Err(r.error)
      ensures r.Ok? ==> Construction(address, visalib, respond) == Ok(r.value.target)
      ensures r.Ok? ==> fresh(r.value) && r.value.Valid() && r.value.sent == InitialReads() + ["*IDN?"]
      ensures r.Ok? ==> r.value.name == name && r.value.address == address && r.value.respond == respond
      ensures r.Ok? ==> r.value.fieldLimits == EffectiveLimits(fieldLimits)
      ensures r.Ok? ==> forall g :: g in r.value.submodules <==> g in Groups
      ensures r.Ok? ==> forall i :: 0 <= i < |Groups| ==> r.value.Holds(Groups[i])
    {
      var checked := ValidateConstruction(address, visalib);
      if checked.Err? {
        r := Err(checked.error);
      } else {
        var ps := new MercuryiPS(name, address, respond, EffectiveLimits(fieldLimits));
        ps.AddSupplies();
        var read := ps.ReadTarget();
        if read.Err? {
          r := Err(read.error);
        } else {
          ghost var log := ps.sent;
          assert log == InitialReads();
          var connected := ps.Connect(read.value);
          assert ps.sent == log + ["*IDN?"];
          if connected.Err? {
            r := Err(connected.error);
          } else {
            r := Ok(ps);
          }
        }
      }
    }

    /** The end of `__init__`: the target vector read at start-up is stored,
        then `connect_message` asks for the identity, whose IndexError on a
        short reply ends construction. */
    method Connect(v: Vec3) returns (r: Result<(), DriverError>)
      modifies this
      ensures target == v && sent == old(sent) + ["*IDN?"] && submodules == old(submodules)
      ensures r.Err? <==> IdnReading(respond(|old(sent)|, "*IDN?")).Err?
      ensures r.Err? ==> r.error == IdnReading(respond(|old(sent)|, "*IDN?")).error
      ensures old(Valid()) ==> Valid()
    {
      SetTargetVector(v);
      var idn := IdnGetter();
      if idn.Err? {
        r := Err(idn.error);
      } else {
        r := Ok(());
      }
    }

    /** Storing the vector read at start-up as the target. */
    method SetTargetVector(v: Vec3)
      modifies this
      ensures target == v && sent == old(sent) && submodules == old(submodules)
      ensures old(Valid()) ==> Valid()
    {
      target := v;
    }

    /** The sub-supply filed under `g` belongs to this instrument and has
        name and UID `g`. */
    predicate Holds(g: string)
      reads this
    {
      g in submodules && submodules[g].parent == this && submodules[g].name == g && submodules[g].uid == g
    }

    /** The loop of `__init__` that files one sub-supply per axis group. */
    method AddSupplies()
      modifies this
      requires submodules == map[]
      ensures Valid() && forall g :: g in submodules <==> g in Groups
      ensures forall i :: 0 <= i < |Groups| ==> Holds(Groups[i])
      ensures forall g :: g in submodules ==> fresh(submodules[g])
      ensures sent == old(sent) && target == old(target)
    {
      for i := 0 to |Groups|
        invariant Valid()
        invariant forall k :: 0 <= k < i ==> Holds(Groups[k])
        invariant forall g :: g in submodules <==> g in Groups[..i]
        invariant forall g :: g in submodules ==> fresh(submodules[g])
        invariant sent == old(sent) && target == old(target)
      {
        var grp := Groups[i];
        assert ':' !in grp by {
          assert grp == "GRPX" || grp == "GRPY" || grp == "GRPZ";
        }
        var made := MercurySlavePS.Create(this, grp, grp);
        submodules := submodules[grp := made.value];
        assert Groups[..i + 1] == Groups[..i] + [grp];
      }
      assert Groups[..3] == Groups;
    }

    /** The three field reads of `__init__`, through the sub-supplies. */
    method ReadTarget() returns (r: Result<Vec3, DriverError>)
      modifies this
      requires forall i :: 0 <= i < |Groups| ==> Holds(Groups[i])
      ensures r == InitialTarget(respond, |old(sent)|)
      ensures AxisReading(respond, |old(sent)|, 0).Err? ==> sent == old(sent) + [AxisRead(0)]
      ensures AxisReading(respond, |old(sent)|, 0).Ok? && AxisReading(respond, |old(sent)| + 1, 1).Err?
              ==> sent == old(sent) + [AxisRead(0), AxisRead(1)]
      ensures AxisReading(respond, |old(sent)|, 0).Ok? && AxisReading(respond, |old(sent)| + 1, 1).Ok?
              ==> sent == old(sent) + InitialReads()
      ensures target == old(target) && submodules == old(submodules)
      ensures old(Valid()) ==> Valid()
    {
      ghost var start, log := |sent|, sent;
      var x := ReadField(0);
      if x.Err? {
        return Err(x.error);
      }
      r := ReadYZ(start, x.value);
      AppendTwo(log, AxisRead(0), AxisRead(1));
      InitialReadsSplit(log);
    }

    /** The reads of y and z, after x has read as `x`. */
    method ReadYZ(ghost start: nat, x: real) returns (r: Result<Vec3, DriverError>)
      modifies this
      requires forall i :: 0 <= i < |Groups| ==> Holds(Groups[i])
      requires |sent| == start + 1 && AxisReading(respond, start, 0) == Ok(x)
      ensures r == InitialTarget(respond, start)
      ensures AxisReading(respond, start + 1, 1).Err? ==> sent == old(sent) + [AxisRead(1)]
      ensures AxisReading(respond, start + 1, 1).Ok? ==> sent == old(sent) + [AxisRead(1), AxisRead(2)]
      ensures target == old(target) && submodules == old(submodules)
      ensures old(Valid()) ==> Valid()
    {
      ghost var log := sent;
      var y := ReadField(1);
      if y.Err? {
        return Err(y.error);
      }
      r := ReadZ(start, x, y.value);
      AppendTwo(log, AxisRead(1), AxisRead(2));
    }

    /** The read of z, after x and y have read as `x` and `y`. */
    method ReadZ(ghost start: nat, x: real, y: real) returns (r: Result<Vec3, DriverError>)
      modifies this
      requires forall i :: 0 <= i < |Groups| ==> Holds(Groups[i])
      requires |sent| == start + 2 && AxisReading(respond, start, 0) == Ok(x)
      requires AxisReading(respond, start + 1, 1) == Ok(y)
      ensures r == InitialTarget(respond, start)
      ensures sent == old(sent) + [AxisRead(2)]
      ensures target == old(target) && submodules == old(submodules)
      ensures old(Valid()) ==> Valid()
    {
      var z := ReadField(2);
      if z.Err? {
        return Err(z.error);
      }
      r := Ok(Vec3(x, y, z.value));
    }

    /** `self.<group>.field()` for the group of axis `i`. */
    method ReadField(i: nat) returns (r: Result<real, DriverError>)
      modifies this
      requires i < |Groups| && Holds(Groups[i])
      ensures sent == old(sent) + [AxisRead(i)]
      ensures r == AxisReading(respond, |old(sent)|, i)
      ensures target == old(target) && submodules == old(submodules)
      ensures old(Valid()) ==> Valid()
    {
      var psu := submodules[Groups[i]];
      r := psu.GetSignal(Field);
    }

    /** `ask`: send the command, take the device's reply and classify it. */
    method Ask(cmd: string) returns (r: Result<string, DriverError>)
      modifies this
      ensures sent == old(sent) + [cmd]
      ensures r == Classify(respond(|old(sent)|, cmd), cmd)
      ensures target == old(target) && submodules == old(submodules)
      ensures old(Valid()) ==> Valid()
    {
      var reply := respond(|sent|, cmd);
      sent := sent + [cmd];
      r := Classify(reply, cmd);
    }

    /** `_get_component` for a Cartesian coordinate. */
    function GetComponent(c: Coordinate): real
      reads this
    {
      Component(target, c)
    }

    /** `_set_target`: the new target is tried on a copy of the vector and
        committed only when the field limits accept the copy; nothing is sent. */
    method SetTarget(c: Coordinate, t: real) returns (r: Result<(), DriverError>)
      modifies this
      ensures Admits(fieldLimits, WithComponent(old(target), c, t)) ==>
        r == Ok(()) && GetComponent(c) == t && target == WithComponent(old(target), c, t)
      ensures !Admits(fieldLimits, WithComponent(old(target), c, t)) ==>
        r == Err(FieldLimitViolation(CoordinateName(c), t)) && target == old(target)
      ensures forall d :: d != c ==> GetComponent(d) == old(GetComponent(d))
      ensures Admits(fieldLimits, old(target)) ==> Admits(fieldLimits, target)
      ensures sent == old(sent) && submodules == old(submodules)
      ensures old(Valid()) ==> Valid()
    {
      var candidate := WithComponent(target, c, t);
      if !Admits(fieldLimits, candidate) {
        r := Err(FieldLimitViolation(CoordinateName(c), t));
      } else {
        target := candidate;
        r := Ok(());
      }
    }

    /** `_idn_getter`: ask `*IDN?` and read the identity fields off the reply. */
    method IdnGetter() returns (r: Result<Idn, DriverError>)
      modifies this
      ensures sent == old(sent) + ["*IDN?"]
      ensures r == IdnReading(respond(|old(sent)|, "*IDN?"))
      ensures target == old(target) && submodules == old(submodules)
      ensures old(Valid()) ==> Valid()
    {
      var reply := Ask("*IDN?");
      match reply
      case Err(e) => r := Err(e);
      case Ok(raw) => r := IdnFromReply(raw);
    }
  }
}
