/** The MercuryiPS text protocol as the driver speaks it: the dressed READ and
    SET commands of a sub-supply, `MercuryiPS.ask`'s classification of raw
    replies, the ramp-status token table, the table of per-axis parameters
    and the identity reply (qcodes/instrument_drivers/oxford/MercuryiPS_VISA.py). */
module Protocol {
  import opened Wrappers
  import opened Text
  import opened Decimal
  import opened SignalParsing

  // ---------------------------------------------------------------- commands

  /** `_param_getter`'s dressed command, the ':'-join of READ, DEV, the UID,
      PSU and the command: `READ:` followed by the echo the device sends back. */
  function ReadCommand(uid: string, getCmd: string): (r: string)
    ensures r == "READ:" + EchoedCommand(uid, getCmd)
  {
    JoinCons("READ", ["DEV", uid, "PSU", getCmd], ':');
    assert ["READ", "DEV", uid, "PSU", getCmd] == ["READ"] + ["DEV", uid, "PSU", getCmd];
    assert "READ:" == "READ" + [':'];
    Join(["READ", "DEV", uid, "PSU", getCmd], ':')
  }

  /** `_param_setter`'s dressed command, the ':'-join of SET, DEV, the UID,
      PSU, the command and the value: `SET:`, then the same addressed command
      a READ of it would echo, then the value as the last field. */
  function SetCommand(uid: string, setCmd: string, value: string): (r: string)
    ensures r == "SET:" + EchoedCommand(uid, setCmd) + [':'] + value
  {
    JoinSnoc(["DEV", uid, "PSU", setCmd], value, ':');
    assert ["DEV", uid, "PSU", setCmd] + [value] == ["DEV", uid, "PSU", setCmd, value];
    JoinCons("SET", ["DEV", uid, "PSU", setCmd, value], ':');
    assert ["SET", "DEV", uid, "PSU", setCmd, value] == ["SET"] + ["DEV", uid, "PSU", setCmd, value];
    assert "SET:" == "SET" + [':'];
    Join(["SET", "DEV", uid, "PSU", setCmd, value], ':')
  }

  /** The READ command without its `READ:` head: what the device echoes after `STAT:`. */
  function EchoedCommand(uid: string, getCmd: string): string
  {
    Join(["DEV", uid, "PSU", getCmd], ':')
  }

  lemma FixedFieldsColonFree()
    ensures ':' !in "READ" && ':' !in "SET" && ':' !in "DEV" && ':' !in "PSU"
  {
  }

  /** Four leading elements are four conses. */
  lemma FourConses<T>(a: T, b: T, c: T, d: T, tail: seq<T>)
    ensures [a, b, c, d] + tail == [a] + ([b] + ([c] + ([d] + tail)))
  {
  }

  /** The four leading fields of a dressed command split off one by one. */
  lemma DressedFields(head: string, uid: string, tail: seq<string>)
    requires ':' !in head && ':' !in uid && |tail| >= 1
    ensures Split(Join([head, "DEV", uid, "PSU"] + tail, ':'), ':')
         == [head, "DEV", uid, "PSU"] + Split(Join(tail, ':'), ':')
  {
    var t3 := ["PSU"] + tail;
    var t2 := [uid] + t3;
    var t1 := ["DEV"] + t2;
    FourConses(head, "DEV", uid, "PSU", tail);
    FourConses(head, "DEV", uid, "PSU", Split(Join(tail, ':'), ':'));
    FixedFieldsColonFree();
    SplitJoinCons("PSU", tail, ':');
    SplitJoinCons(uid, t3, ':');
    SplitJoinCons("DEV", t2, ':');
    SplitJoinCons(head, t1, ':');
  }

  /** Read off field by field, a dressed READ command is the four fixed fields
      with the UID third, then the fields of the command itself. */
  lemma ReadCommandFields(uid: string, getCmd: string)
    requires ':' !in uid
    ensures Split(ReadCommand(uid, getCmd), ':') == ["READ", "DEV", uid, "PSU"] + Split(getCmd, ':')
  {
    assert ["READ", "DEV", uid, "PSU", getCmd] == ["READ", "DEV", uid, "PSU"] + [getCmd];
    FixedFieldsColonFree();
    DressedFields("READ", uid, [getCmd]);
  }

  /** The command and the value of a SET are two ':'-joined fields at its tail. */
  lemma CommandAndValueFields(setCmd: string, value: string)
    ensures Split(Join([setCmd, value], ':'), ':') == Split(setCmd, ':') + Split(value, ':')
  {
    JoinCons(setCmd, [value], ':');
    assert [setCmd] + [value] == [setCmd, value];
    SplitAtSeparator(setCmd, value, ':');
  }

  /** The same for a dressed SET command, whose value comes last. */
  lemma SetCommandFields(uid: string, setCmd: string, value: string)
    requires ':' !in uid
    ensures Split(SetCommand(uid, setCmd, value), ':')
         == ["SET", "DEV", uid, "PSU"] + Split(setCmd, ':') + Split(value, ':')
  {
    assert ["SET", "DEV", uid, "PSU", setCmd, value] == ["SET", "DEV", uid, "PSU"] + [setCmd, value];
    FixedFieldsColonFree();
    DressedFields("SET", uid, [setCmd, value]);
    CommandAndValueFields(setCmd, value);
  }

  /** Because a UID holds no ':', a dressed command determines its UID and its
      command: two sub-supplies never send the same READ. */
  lemma ReadCommandInjective(uid1: string, cmd1: string, uid2: string, cmd2: string)
    requires ':' !in uid1 && ':' !in uid2
    requires ReadCommand(uid1, cmd1) == ReadCommand(uid2, cmd2)
    ensures uid1 == uid2 && cmd1 == cmd2
  {
    ReadCommandFields(uid1, cmd1);
    ReadCommandFields(uid2, cmd2);
    var f1, f2 := Split(ReadCommand(uid1, cmd1), ':'), Split(ReadCommand(uid2, cmd2), ':');
    assert uid1 == f1[2] && uid2 == f2[2];
    assert Split(cmd1, ':') == f1[4..] && Split(cmd2, ':') == f2[4..];
    JoinSplit(cmd1, ':');
    JoinSplit(cmd2, ':');
  }

  // ------------------------------------------------------ reply classification

  /** `MercuryiPS.ask` after the transport returned `resp` for `cmd`:
      a reply containing INVALID comes back unchanged; otherwise a reply ending
      in VALID (a SET acknowledgement) gives its second-to-last ':'-field, an
      IndexError when there is none; otherwise (a READ echo) every occurrence
      of `STAT:` + the command without its `READ:` parts is cut out. */
  function Classify(resp: string, cmd: string): (r: Result<string, DriverError>)
    ensures Contains(resp, "INVALID") ==> r == Ok(resp)
    ensures r.Err? ==> !Contains(resp, "INVALID") && EndsWith(resp, "VALID") && ':' !in resp
    ensures r.Ok? && !Contains(resp, "INVALID") && EndsWith(resp, "VALID") ==> ':' !in r.value && |r.value| < |resp|
  {
    if Contains(resp, "INVALID") then
      Ok(resp)
    else if EndsWith(resp, "VALID") then
      AcknowledgedField(resp)
    else
      var baseCmd := ReplaceAll(cmd, "READ:", "");
      Ok(ReplaceAll(resp, "STAT:" + baseCmd, ""))
  }

  /** `resp.split(':')[-2]`: the second-to-last field of an acknowledgement,
      an IndexError exactly when the reply holds no ':'. */
  function AcknowledgedField(resp: string): (r: Result<string, DriverError>)
    ensures r.Err? <==> ':' !in resp
    ensures r.Ok? ==> ':' !in r.value && |r.value| < |resp|
  {
    var fields := Split(resp, ':');
    if |fields| < 2 then
      assert resp == Join(fields, ':') by { JoinSplit(resp, ':'); }
      Err(ShortReply(resp))
    else
      assert ':' in resp by {
        if ':' !in resp { SplitNoSeparator(resp, ':'); }
      }
      assert |fields[|fields| - 2]| < |resp| by { FieldShorter(resp, ':', |fields| - 2); }
      Ok(fields[|fields| - 2])
  }

  /** A field of a string with at least two fields is shorter than the string. */
  lemma FieldShorter(s: string, sep: char, i: nat)
    requires |Split(s, sep)| >= 2 && i < |Split(s, sep)|
    ensures |Split(s, sep)[i]| < |s|
  {
    var fields := Split(s, sep);
    JoinSplit(s, sep);
    JoinLength(fields, sep, i);
  }

  lemma {:induction false} JoinLength(fields: seq<string>, sep: char, i: nat)
    requires |fields| >= 2 && i < |fields|
    ensures |fields[i]| < |Join(fields, sep)|
  {
    if i > 0 && |fields| > 2 {
      JoinLength(fields[1..], sep, i - 1);
    }
  }

  /** Every reply that ends in INVALID also ends in VALID: that is why the
      INVALID test must come first, and it does. */
  lemma RejectionBeforeAcknowledgement(resp: string, cmd: string)
    requires EndsWith(resp, "INVALID")
    ensures EndsWith(resp, "VALID")
    ensures Classify(resp, cmd) == Ok(resp)
  {
    assert resp[|resp| - 5..] == resp[|resp| - 7..][2..];
    SuffixContained(resp, "INVALID");
  }

  /** A SET acknowledgement `STAT:<the SET command>:VALID` yields the value
      the device reports back, the value that was sent. */
  lemma SetAcknowledgement(uid: string, setCmd: string, value: string)
    requires ':' !in value
    requires !Contains("STAT:" + SetCommand(uid, setCmd, value) + ":VALID", "INVALID")
    ensures Classify("STAT:" + SetCommand(uid, setCmd, value) + ":VALID", SetCommand(uid, setCmd, value)) == Ok(value)
  {
    var echo := EchoedCommand(uid, setCmd);
    assert "STAT:" + SetCommand(uid, setCmd, value) + ":VALID" == ("STAT:" + "SET:" + echo) + [':'] + value + ":VALID";
    LastFieldAcknowledged("STAT:" + "SET:" + echo, value, SetCommand(uid, setCmd, value));
  }

  /** An acknowledgement `<head>:<value>:VALID` with a colon-free value yields
      that value, whatever the head. */
  lemma LastFieldAcknowledged(head: string, value: string, cmd: string)
    requires ':' !in value
    requires !Contains(head + [':'] + value + ":VALID", "INVALID")
    ensures Classify(head + [':'] + value + ":VALID", cmd) == Ok(value)
  {
    var resp := head + [':'] + value + ":VALID";
    assert resp == head + [':'] + (value + [':'] + "VALID") by {
      ValidTail();
    }
    SplitAtSeparator(head, value + [':'] + "VALID", ':');
    SplitAtSeparator(value, "VALID", ':');
    SplitNoSeparator(value, ':');
    SplitNoSeparator("VALID", ':');
    assert Split(resp, ':') == Split(head, ':') + [value, "VALID"];
    assert EndsWith(resp, "VALID") by {
      ValidTail();
      assert resp[|resp| - 5..] == "VALID";
    }
  }

  lemma ValidTail()
    ensures ":VALID" == [':'] + "VALID"
  {
  }

  /** An acknowledgement whose fields carry no 'N' cannot contain INVALID,
      so it always yields the value sent. */
  lemma PlainAcknowledgement(uid: string, setCmd: string, value: string)
    requires ':' !in value
    requires 'N' !in uid && 'N' !in setCmd && 'N' !in value
    ensures Classify("STAT:" + SetCommand(uid, setCmd, value) + ":VALID", SetCommand(uid, setCmd, value)) == Ok(value)
  {
    var fields := ["SET", "DEV", uid, "PSU", setCmd, value];
    assert forall i :: 0 <= i < |fields| ==> 'N' !in fields[i];
    CharNotInJoin(fields, ':', 'N');
    var resp := "STAT:" + SetCommand(uid, setCmd, value) + ":VALID";
    assert 'N' !in resp;
    MissingCharNotContained(resp, "INVALID", 'N');
    SetAcknowledgement(uid, setCmd, value);
  }

  /** The acknowledgement for setting the x-axis field target to 1.5. */
  lemma FieldTargetAcknowledgement()
    ensures Classify("STAT:" + SetCommand("GRPX", "SIG:FSET", "1.5") + ":VALID",
                     SetCommand("GRPX", "SIG:FSET", "1.5")) == Ok("1.5")
  {
    PlainAcknowledgement("GRPX", "SIG:FSET", "1.5");
  }

  /** A READ reply that echoes `STAT:` and the command before the payload
      yields the payload. */
  lemma ReadEcho(uid: string, getCmd: string, payload: string)
    requires !Contains(EchoedCommand(uid, getCmd), "READ:")
    requires !Contains("STAT:" + EchoedCommand(uid, getCmd) + payload, "INVALID")
    requires !EndsWith("STAT:" + EchoedCommand(uid, getCmd) + payload, "VALID")
    requires !Contains(payload, "STAT:" + EchoedCommand(uid, getCmd))
    ensures Classify("STAT:" + EchoedCommand(uid, getCmd) + payload, ReadCommand(uid, getCmd)) == Ok(payload)
  {
    var echo := EchoedCommand(uid, getCmd);
    var resp := "STAT:" + echo + payload;
    var cmd := ReadCommand(uid, getCmd);
    assert ReplaceAll(cmd, "READ:", "") == echo by {
      ReplaceLeading("READ:", echo, "");
    }
    assert ReplaceAll(resp, "STAT:" + echo, "") == payload by {
      assert resp == ("STAT:" + echo) + payload;
      ReplaceLeading("STAT:" + echo, payload, "");
    }
  }

  // ------------------------------------------------------------- ramp status

  /** The values of the `ramp_status` parameter. */
  datatype RampStatus = Hold | ToSet | Clamp | ToZero

  /** The name a user reads and writes (the keys of `val_mapping`). */
  function StatusName(s: RampStatus): (r: string)
    ensures r == StatusToken(s) <==> s == Hold
  {
    match s
    case Hold => "HOLD"
    case ToSet => "TO SET"
    case Clamp => "CLAMP"
    case ToZero => "TO ZERO"
  }

  /** The device token (the values of `val_mapping`): four letters, no ':'. */
  function StatusToken(s: RampStatus): (r: string)
    ensures |r| == 4 && ':' !in r
  {
    match s
    case Hold => "HOLD"
    case ToSet => "RTOS"
    case Clamp => "CLMP"
    case ToZero => "RTOZ"
  }

  /** The inverse mapping applied to what the device reports. */
  function StatusFromToken(token: string): (r: Option<RampStatus>)
    ensures r.Some? ==> StatusToken(r.value) == token
  {
    if token == "HOLD" then Some(Hold)
    else if token == "RTOS" then Some(ToSet)
    else if token == "CLMP" then Some(Clamp)
    else if token == "RTOZ" then Some(ToZero)
    else None
  }

  /** The mapping applied to what the user asks for. */
  function StatusFromName(name: string): (r: Option<RampStatus>)
    ensures r.Some? ==> StatusName(r.value) == name
  {
    if name == "HOLD" then Some(Hold)
    else if name == "TO SET" then Some(ToSet)
    else if name == "CLAMP" then Some(Clamp)
    else if name == "TO ZERO" then Some(ToZero)
    else None
  }

  /** Names and tokens are in one-to-one correspondence with the statuses. */
  lemma StatusMappingBijective(s: RampStatus, t: RampStatus)
    ensures StatusFromToken(StatusToken(s)) == Some(s)
    ensures StatusFromName(StatusName(s)) == Some(s)
    ensures StatusToken(s) == StatusToken(t) ==> s == t
    ensures StatusName(s) == StatusName(t) ==> s == t
  {
  }

  // ---------------------------------------------------- per-axis parameters

  /** The numeric parameters a sub-supply declares. */
  datatype Signal =
    | Voltage | Current | CurrentPersistent | CurrentTarget | FieldTarget
    | CurrentRampRate | FieldRampRate | Field | FieldPersistent | Atob

  /** The raw command each one reads (and, when settable, writes). */
  function SignalCommand(s: Signal): (r: string)
    ensures |r| >= 4 && (r[..4] == "SIG:" <==> s != Atob)
  {
    match s
    case Voltage => "SIG:VOLT"
    case Current => "SIG:CURR"
    case CurrentPersistent => "SIG:PCUR"
    case CurrentTarget => "SIG:CSET"
    case FieldTarget => "SIG:FSET"
    case CurrentRampRate => "SIG:RCST"
    case FieldRampRate => "SIG:RFST"
    case Field => "SIG:FLD"
    case FieldPersistent => "SIG:PFLD"
    case Atob => assert "ATOB"[0] != "SIG:"[0]; "ATOB"
  }

  /** `our_scaling`: the ramp rates come per minute and are reported per second. */
  function OurScaling(s: Signal): (r: real)
    ensures 0.0 < r <= 1.0
    ensures r < 1.0 <==> s == CurrentRampRate || s == FieldRampRate
  {
    if s == CurrentRampRate || s == FieldRampRate then 1.0 / 60.0 else 1.0
  }

  /** The parameters declared with a `set_cmd`. */
  predicate Settable(s: Signal)
  {
    s == FieldTarget || s == FieldRampRate || s == Atob
  }

  /** `set_parser`: the field ramp rate is written per minute. For every
      settable parameter it undoes the read scaling. */
  function ToDevice(s: Signal, x: real): (r: real)
    ensures Settable(s) ==> r * OurScaling(s) == x
  {
    if s == FieldRampRate then x * 60.0 else x
  }

  /** Writing a ramp rate and reading it back cancel over the reals: when the
      device reports the per-minute value it was sent, with a unit text that
      carries no SI prefix, the per-second value comes back. */
  lemma RampRateRoundTrip(x: real, reply: string, v: Numeral, unit: string)
    requires WellFormed(v) && Value(v) == ToDevice(FieldRampRate, x)
    requires Preparse(reply) == Written(v) + unit
    requires HasNoNumChar(unit) && TheirScaling(unit) == 1.0
    ensures SignalParser(OurScaling(FieldRampRate), reply) == Ok(x)
  {
    ParseReading(OurScaling(FieldRampRate), reply, v, unit);
    assert SiValue(x * 60.0, 1.0, 1.0 / 60.0) == x;
  }

  /** Distinct parameters read distinct commands. */
  lemma SignalCommandsDistinct(s: Signal, t: Signal)
    requires SignalCommand(s) == SignalCommand(t)
    ensures s == t
  {
  }

  // ---------------------------------------------------------------- identity

  /** The identity record `_idn_getter` builds. */
  datatype Idn = Idn(vendor: string, model: string, serial: string, firmware: string)

  /** `_idn_getter`'s parsing of `<preamble>:<vendor>:<model>:<serial>:<firmware>[:...]`;
      an IndexError when there are fewer than five fields. */
  function IdnFromReply(raw: string): (r: Result<Idn, DriverError>)
    ensures r.Ok? <==> |Split(raw, ':')| >= 5
    ensures r.Ok? ==> (':' !in r.value.vendor && ':' !in r.value.model &&
                       ':' !in r.value.serial && ':' !in r.value.firmware)
  {
    var fields := Split(raw, ':');
    if |fields| < 5 then Err(ShortReply(raw))
    else Ok(Idn(fields[1], fields[2], fields[3], fields[4]))
  }

  /** An identity reply written field by field is read back into those fields,
      whatever follows the firmware. */
  lemma IdnRoundTrip(preamble: string, idn: Idn, rest: seq<string>)
    requires ':' !in preamble && ':' !in idn.vendor && ':' !in idn.model
    requires ':' !in idn.serial && ':' !in idn.firmware
    requires forall i :: 0 <= i < |rest| ==> ':' !in rest[i]
    ensures IdnFromReply(Join([preamble, idn.vendor, idn.model, idn.serial, idn.firmware] + rest, ':')) == Ok(idn)
  {
    var head := [preamble, idn.vendor, idn.model, idn.serial, idn.firmware];
    var fields := head + rest;
    assert forall i :: 0 <= i < |head| ==> ':' !in head[i] by {
      forall i | 0 <= i < |head| ensures ':' !in head[i] {
        if i == 0 {} else if i == 1 {} else if i == 2 {} else if i == 3 {} else {}
      }
    }
    SeparatorFreeConcat(head, rest, ':');
    assert Split(Join(fields, ':'), ':') == fields by {
      SplitJoin(fields, ':');
    }
    assert fields[1..5] == [idn.vendor, idn.model, idn.serial, idn.firmware];
  }
}
