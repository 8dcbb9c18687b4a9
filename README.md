# MercuryiPS driver model

A Dafny model of the QCoDeS driver for the Oxford Instruments MercuryiPS
magnet power supply (`qcodes/instrument_drivers/oxford/MercuryiPS_VISA.py`).
It has five parts:

- **Reply parsing.** `_response_preparser` and `_signal_parser` turn a device
  reply such as `12.345mA` into an SI value. They drop every ':', keep the
  numeric characters, read the SI prefix that follows them and apply the
  caller's scale. Python's `float()` is modelled exactly over the only
  alphabet it is given here: digits, '.' and '-'.
- **The text protocol.**
  - The dressed commands `READ:DEV:<uid>:PSU:<cmd>` and
    `SET:DEV:<uid>:PSU:<cmd>:<value>`.
  - `MercuryiPS.ask`, which classifies replies three ways: rejected
    (contains `INVALID`), SET acknowledgement (ends in `VALID`), or READ
    echo (the echoed command is stripped).
  - The ramp-status name/token table.
  - The per-axis parameter table, including the per-minute ramp rates.
  - The `*IDN?` reply.
- **The sub-supply `MercurySlavePS`.**
  - The UID check.
  - `_param_getter` and `_param_setter`.
  - Getting and setting the numeric parameters.
  - `ramp_status`, including the guard that stops a clamped supply from
    ramping to its target.
- **The instrument `MercuryiPS`.**
  - The construction checks: VISA backend, socket resource.
  - The three sub-supplies and the initial read of the target vector.
  - `ask`.
  - The x/y/z target set points, validated against the field limits on a
    copy before they are committed.
  - `_idn_getter`.
- **The transport.** The VISA session becomes two things on `MercuryiPS`:
  - `sent`, the list of commands sent so far;
  - `respond(n, cmd)`, a fixed function giving the device's reply to `cmd`
    when it is the n-th command of the session.

  Every method that talks to the device states exactly which commands it
  appends to `sent` and what it makes of the replies.

Modules:

| module | file | contents |
|---|---|---|
| `Wrappers` | `wrappers.dfy` | `Option`, `Result`, and the driver's error kinds |
| `Text` | `text.dfy` | `str.replace`, `str.split`/`join`, `in` and `endswith` over `seq<char>` |
| `Decimal` | `decimal.dfy` | `float()` on numeric text, and the decimal numerals it accepts |
| `SignalParsing` | `signal_parser.dfy` | the two module-level parse functions |
| `Protocol` | `protocol.dfy` | command and reply formats, status and parameter tables, identity reply |
| `Driver` | `driver.dfy` | the two classes, the construction checks and the target vector |

Two behaviours of the code are easy to misread, and the model keeps them:

- **Numeric token.** `_signal_parser` collects every numeric character
  anywhere in the colon-free reply, not only a leading run. It then drops
  that many characters from the front to find the prefix. So `1.5T2` reads
  as the numeral `1.52` with suffix `2` (`SignalParsing.ScatteredDigits`).
- **Ramp guard.** Before refusing a clamped supply's TO SET request,
  `_ramp_status_setter` first sends a READ of the current status. Only the
  SET is withheld.

## Model

All source paths are relative to the repository root.

| member | source | states |
|---|---|---|
| `SignalParsing.Preparse` | qcodes/instrument_drivers/oxford/MercuryiPS_VISA.py:12-16 | the preparsed reply holds no ':' and is no longer than the reply |
| `SignalParsing.PreparseCounts` | qcodes/instrument_drivers/oxford/MercuryiPS_VISA.py:12-16 | preparsing keeps every other character as often as it occurs and drops every ':' |
| `SignalParsing.PreparseConcat` | qcodes/instrument_drivers/oxford/MercuryiPS_VISA.py:12-16 | preparsing a concatenation preparses each part |
| `SignalParsing.PreparseIdempotent` | qcodes/instrument_drivers/oxford/MercuryiPS_VISA.py:12-16 | preparsing twice is preparsing once |
| `SignalParsing.PreparseLeadingColon` | qcodes/instrument_drivers/oxford/MercuryiPS_VISA.py:12-16 | the ':' left in front of a payload by the echo strip disappears |
| `SignalParsing.PreparseColonFree` | qcodes/instrument_drivers/oxford/MercuryiPS_VISA.py:12-16 | a reply without a colon is left as it is |
| `SignalParsing.PreparseFramed` | qcodes/instrument_drivers/oxford/MercuryiPS_VISA.py:12-16 | `:a:b` with colon-free pieces preparses to `ab` |
| `SignalParsing.Digits` | qcodes/instrument_drivers/oxford/MercuryiPS_VISA.py:34-37 | the digits text holds only digits, '.' and '-', and is no longer than the preparsed reply |
| `SignalParsing.DigitsCounts` | qcodes/instrument_drivers/oxford/MercuryiPS_VISA.py:34-37 | each numeric character occurs in the digits text exactly as often as in the preparsed reply, and no other character occurs in it |
| `SignalParsing.DigitsConcat` | qcodes/instrument_drivers/oxford/MercuryiPS_VISA.py:36-37 | the digits of a concatenation are the digits of each part, in order |
| `SignalParsing.DigitsOfChar` | qcodes/instrument_drivers/oxford/MercuryiPS_VISA.py:34-37 | one character contributes itself when it is numeric and nothing otherwise, ':' included |
| `SignalParsing.DigitsOfNumeral` | qcodes/instrument_drivers/oxford/MercuryiPS_VISA.py:34-37 | a colon-free numeric text is its own digits text |
| `SignalParsing.DigitsAcross` | qcodes/instrument_drivers/oxford/MercuryiPS_VISA.py:34-37 | two colon-free numeric texts around one non-numeric character give their concatenation as the digits: numeric characters after the unit still count |
| `SignalParsing.ScatteredDigits` | qcodes/instrument_drivers/oxford/MercuryiPS_VISA.py:34-38 | `1.5T2` gives the digits `1.52` and the scale-and-unit `2` |
| `SignalParsing.ScaleAndUnit` | qcodes/instrument_drivers/oxford/MercuryiPS_VISA.py:38 | the digits text and the scale-and-unit together are exactly as long as the preparsed reply, and the scale-and-unit is its tail |
| `SignalParsing.NumeralThenUnit` | qcodes/instrument_drivers/oxford/MercuryiPS_VISA.py:34-38 | for a reply made of a numeral and then a text with no numeric character, the digits are the numeral and the scale-and-unit is that text |
| `SignalParsing.TheirScaling` | qcodes/instrument_drivers/oxford/MercuryiPS_VISA.py:31-44 | with the `scale_to_factor` table (`ScaleToFactor`), the instrument factor is positive, and it differs from 1 exactly when the suffix starts with one of n, u, m, k, M |
| `SignalParsing.UnitFactors` | qcodes/instrument_drivers/oxford/MercuryiPS_VISA.py:31-44 | `nA` scales by 10^-9, `uA` by 10^-6, `mA` by 10^-3, `k` by 10^3 and `MA` by 10^6; `T` and the empty suffix by 1 |
| `SignalParsing.SiValue` | qcodes/instrument_drivers/oxford/MercuryiPS_VISA.py:46 | positive scale factors never change the sign of the reading: the value is positive or negative exactly when the number read is |
| `SignalParsing.SignalParser` | qcodes/instrument_drivers/oxford/MercuryiPS_VISA.py:19-46 | parsing fails exactly when `float` rejects the digits text |
| `SignalParsing.ParseReading` | qcodes/instrument_drivers/oxford/MercuryiPS_VISA.py:36-46 | a reply whose colon-free text is a well-formed numeral followed by a unit with no numeric character parses to the numeral's value times the unit's prefix factor times the caller's scale |
| `SignalParsing.NoNumeralFails` | qcodes/instrument_drivers/oxford/MercuryiPS_VISA.py:37-46 | a reply with no numeric character is a parse error |
| `SignalParsing.MilliReading` | qcodes/instrument_drivers/oxford/MercuryiPS_VISA.py:31-46 | `12.345mA` with scale 1 reads 0.012345 |
| `SignalParsing.KiloPerMinuteReading` | qcodes/instrument_drivers/oxford/MercuryiPS_VISA.py:31-46 | `-3k` with scale 1/60 reads -50 |
| `SignalParsing.BareReading` | qcodes/instrument_drivers/oxford/MercuryiPS_VISA.py:39-46 | `7`, which has no suffix, reads 7 |
| `SignalParsing.ColonFramedPreparse` | qcodes/instrument_drivers/oxford/MercuryiPS_VISA.py:12-16 | `:1.5:T` preparses to `1.5T` |
| `SignalParsing.ColonFramedReading` | qcodes/instrument_drivers/oxford/MercuryiPS_VISA.py:36-46 | `:1.5:T` reads 1.5 once its colons are dropped |
| `Decimal.ParseNumeral` | qcodes/instrument_drivers/oxford/MercuryiPS_VISA.py:46 | `float` reads every numeral (an optional '-', then digits with at most one '.', at least one digit) as exactly the number it denotes |
| `Decimal.ParseUnsignedText` | qcodes/instrument_drivers/oxford/MercuryiPS_VISA.py:46 | without its sign a numeral reads as its magnitude, and its text does not start with '-' |
| `Decimal.ParseNegated` | qcodes/instrument_drivers/oxford/MercuryiPS_VISA.py:46 | a leading '-' negates the value of the rest of the text |
| `Decimal.ParsedIsNumeral` | qcodes/instrument_drivers/oxford/MercuryiPS_VISA.py:46 | conversely, every text `float` accepts is the text of such a numeral and reads as that numeral's value |
| `Decimal.UnsignedNumeral` | qcodes/instrument_drivers/oxford/MercuryiPS_VISA.py:46 | every accepted unsigned text is the text of an unsigned numeral with the same value |
| `Decimal.NumeralCharacters` | qcodes/instrument_drivers/oxford/MercuryiPS_VISA.py:34-37 | a numeral's text consists only of the characters in `numchars` |
| `Decimal.RejectedWithoutDigits` | qcodes/instrument_drivers/oxford/MercuryiPS_VISA.py:46 | `float` rejects "", "-" and "." |
| `Decimal.RejectedSecondPoint` | qcodes/instrument_drivers/oxford/MercuryiPS_VISA.py:46 | `float` rejects "1.2.3" |
| `Decimal.RejectedMisplacedSign` | qcodes/instrument_drivers/oxford/MercuryiPS_VISA.py:46 | `float` rejects "1-2" and "--1" |
| `Decimal.ParseFloat` | qcodes/instrument_drivers/oxford/MercuryiPS_VISA.py:46 | `float` rejects the empty text, and it reads a negative value only from a text that starts with '-' |
| `Decimal.ParseUnsigned` | qcodes/instrument_drivers/oxford/MercuryiPS_VISA.py:46 | without a sign, the empty text is rejected and every value read is non-negative |
| `Protocol.ReadCommand` | qcodes/instrument_drivers/oxford/MercuryiPS_VISA.py:166-167 | a dressed READ is `READ:` followed by exactly the echo the device sends back after `STAT:` |
| `Protocol.SetCommand` | qcodes/instrument_drivers/oxford/MercuryiPS_VISA.py:179-180 | a dressed SET is `SET:`, then the addressed command a READ of the same command would echo, then ':' and the value as the last field |
| `Protocol.DressedFields` | qcodes/instrument_drivers/oxford/MercuryiPS_VISA.py:166-180 | the fixed head, DEV, a colon-free UID and PSU split off a dressed command one field each |
| `Protocol.ReadCommandFields` | qcodes/instrument_drivers/oxford/MercuryiPS_VISA.py:166-167 | a dressed READ splits on ':' into READ, DEV, the UID, PSU and then the command's own fields |
| `Protocol.SetCommandFields` | qcodes/instrument_drivers/oxford/MercuryiPS_VISA.py:179-180 | a dressed SET splits into SET, DEV, the UID, PSU, the command's fields and then the value's fields |
| `Protocol.CommandAndValueFields` | qcodes/instrument_drivers/oxford/MercuryiPS_VISA.py:179-180 | the command and the value at a SET's tail split into the command's fields and then the value's fields |
| `Protocol.ReadCommandInjective` | qcodes/instrument_drivers/oxford/MercuryiPS_VISA.py:62-64 | for colon-free UIDs, equal READ commands have equal UIDs and equal commands |
| `Protocol.Classify` | qcodes/instrument_drivers/oxford/MercuryiPS_VISA.py:302-317 | a reply containing INVALID comes back unchanged; the only error is an acknowledgement with no ':'; an acknowledgement's payload is colon-free and shorter than the reply |
| `Protocol.AcknowledgedField` | qcodes/instrument_drivers/oxford/MercuryiPS_VISA.py:307-308 | the second-to-last ':'-field of an acknowledgement is found exactly when the reply holds a ':', and it is colon-free and shorter than the reply |
| `Protocol.RejectionBeforeAcknowledgement` | qcodes/instrument_drivers/oxford/MercuryiPS_VISA.py:302-308 | every reply ending in INVALID also ends in VALID, and it is still returned unchanged |
| `Protocol.SetAcknowledgement` | qcodes/instrument_drivers/oxford/MercuryiPS_VISA.py:307-308 | the acknowledgement `STAT:<SET command>:VALID` yields the value that was sent |
| `Protocol.LastFieldAcknowledged` | qcodes/instrument_drivers/oxford/MercuryiPS_VISA.py:307-308 | any acknowledgement `<head>:<value>:VALID` with a colon-free value and no INVALID yields that value |
| `Protocol.PlainAcknowledgement` | qcodes/instrument_drivers/oxford/MercuryiPS_VISA.py:302-308 | the same, when no field holds the letter N, so the reply cannot contain INVALID |
| `Protocol.FieldTargetAcknowledgement` | qcodes/instrument_drivers/oxford/MercuryiPS_VISA.py:307-308 | the acknowledgement to `SET:DEV:GRPX:PSU:SIG:FSET:1.5` yields `1.5` |
| `Protocol.ReadEcho` | qcodes/instrument_drivers/oxford/MercuryiPS_VISA.py:310-315 | a READ reply `STAT:<command without READ:><payload>` yields the payload |
| `Protocol.StatusName` | qcodes/instrument_drivers/oxford/MercuryiPS_VISA.py:140-143 | only HOLD has the same user name as its device token; every other name differs from its token |
| `Protocol.StatusToken` | qcodes/instrument_drivers/oxford/MercuryiPS_VISA.py:140-143 | every device token has four characters and no ':', so preparsing leaves it intact |
| `Protocol.StatusFromToken` | qcodes/instrument_drivers/oxford/MercuryiPS_VISA.py:140-143 | a device token maps back only to a status with that token |
| `Protocol.StatusFromName` | qcodes/instrument_drivers/oxford/MercuryiPS_VISA.py:140-143 | a user name maps only to a status with that name |
| `Protocol.StatusMappingBijective` | qcodes/instrument_drivers/oxford/MercuryiPS_VISA.py:140-143 | names and tokens each correspond one to one with the four statuses |
| `Protocol.RampRateRoundTrip` | qcodes/instrument_drivers/oxford/MercuryiPS_VISA.py:108-114 | a ramp rate written ×60 and reported back unprefixed reads, /60, as the rate that was set |
| `Protocol.SignalCommandsDistinct` | qcodes/instrument_drivers/oxford/MercuryiPS_VISA.py:69-133 | no two numeric parameters read the same command |
| `Protocol.SignalCommand` | qcodes/instrument_drivers/oxford/MercuryiPS_VISA.py:69-133 | every numeric parameter's command is under `SIG:`, except ATOB's |
| `Protocol.OurScaling` | qcodes/instrument_drivers/oxford/MercuryiPS_VISA.py:69-133 | the read scaling is positive and at most 1, and it is below 1 (per minute to per second) exactly for the two ramp rates |
| `Protocol.ToDevice` | qcodes/instrument_drivers/oxford/MercuryiPS_VISA.py:93-114 | for every settable parameter, `set_parser` is the inverse of the read scaling: the value written, scaled as a reading, is the value asked for |
| `Protocol.IdnFromReply` | qcodes/instrument_drivers/oxford/MercuryiPS_VISA.py:282-285 | the identity is found exactly when the reply has at least five ':'-fields, and its fields are colon-free |
| `Protocol.IdnRoundTrip` | qcodes/instrument_drivers/oxford/MercuryiPS_VISA.py:282-285 | a reply written as preamble, vendor, model, serial, firmware and any further fields reads back as that identity |
| `Driver.WithComponent` | qcodes/instrument_drivers/oxford/MercuryiPS_VISA.py:264-266 | setting one coordinate gives it the new value and leaves the other two unchanged |
| `Driver.WithComponentLaws` | qcodes/instrument_drivers/oxford/MercuryiPS_VISA.py:264-266 | setting the same coordinate twice keeps the last value; setting a coordinate to its current value changes nothing |
| `Driver.EffectiveLimits` | qcodes/instrument_drivers/oxford/MercuryiPS_VISA.py:239-240 | a supplied limit function is kept; without one every vector is admitted |
| `Driver.VisaBackend` | qcodes/instrument_drivers/oxford/MercuryiPS_VISA.py:217-220 | the backend lookup fails exactly for a non-empty library text without '@'; a found backend is '@'-free |
| `Driver.VisaBackendNamed` | qcodes/instrument_drivers/oxford/MercuryiPS_VISA.py:217-218 | `path@backend` selects that backend |
| `Driver.ValidateConstruction` | qcodes/instrument_drivers/oxford/MercuryiPS_VISA.py:217-225 | construction passes exactly when the backend is found and the address ends in SOCKET or the backend is `sim`; otherwise, with a backend found, the error is the wrong resource |
| `Driver.ConstructionChecks` | qcodes/instrument_drivers/oxford/MercuryiPS_VISA.py:217-225 | without a library only SOCKET addresses pass; with `…@sim` every address passes |
| `Driver.SignalReading` | qcodes/instrument_drivers/oxford/MercuryiPS_VISA.py:155-170 | a failed reply classification fails the read |
| `Driver.SignalReadingEcho` | qcodes/instrument_drivers/oxford/MercuryiPS_VISA.py:166-168 | an echoed reply carrying a numeral and a unit yields the numeral's value times the prefix factor times the parameter's scale |
| `Driver.StatusReading` | qcodes/instrument_drivers/oxford/MercuryiPS_VISA.py:135-143 | a status is read exactly when the reply classifies and its preparsed payload is one of the four device tokens, and then it is the status with that token |
| `Driver.StatusReadingEcho` | qcodes/instrument_drivers/oxford/MercuryiPS_VISA.py:135-143 | an echoed ACTN reply carrying a status token yields that status |
| `Driver.StatusEchoNotAcknowledgement` | qcodes/instrument_drivers/oxford/MercuryiPS_VISA.py:135-143 | an echoed ACTN reply carrying a status token never ends in VALID, so `ask` does not treat it as an acknowledgement |
| `Driver.StatusFromPayload` | qcodes/instrument_drivers/oxford/MercuryiPS_VISA.py:135-143 | a classified payload of ':' and a status token reads as that status |
| `Driver.IdnReading` | qcodes/instrument_drivers/oxford/MercuryiPS_VISA.py:281-285 | a rejected reply is split as it stands |
| `Driver.IdnPassesThrough` | qcodes/instrument_drivers/oxford/MercuryiPS_VISA.py:310-315 | `*IDN?` has no echo to strip, so a plain reply passes `ask` unchanged |
| `Driver.IdnReadingPlain` | qcodes/instrument_drivers/oxford/MercuryiPS_VISA.py:274-289 | a plain identity reply is read field by field |
| `Driver.RampGuard` | qcodes/instrument_drivers/oxford/MercuryiPS_VISA.py:146-153 | HOLD is always permitted; only a clamped supply refuses anything, and it refuses exactly TO SET |
| `Driver.InitialTarget` | qcodes/instrument_drivers/oxford/MercuryiPS_VISA.py:242-244 | the initial target is read exactly when all three axis reads succeed, and then its x, y and z are the fields read from GRPX, GRPY and GRPZ; otherwise the error is the first failing read's, in the order x, y, z |
| `Driver.FirstFailure` | qcodes/instrument_drivers/oxford/MercuryiPS_VISA.py:242-244 | the three readings form a vector exactly when all succeed; otherwise the first error in the order x, y, z is reported |
| `Driver.Construction` | qcodes/instrument_drivers/oxford/MercuryiPS_VISA.py:196-253 | construction succeeds exactly when the checks pass, the three field reads succeed and the identity reply is read, and then the target is the vector read; otherwise the error is the first failing step's: checks, then field reads, then identity |
| `Driver.MercurySlavePS.Create` | qcodes/instrument_drivers/oxford/MercuryiPS_VISA.py:62-67 | a sub-supply is refused exactly when its UID holds ':'; otherwise it keeps its parent, name and UID |
| `Driver.MercurySlavePS.ParamGetter` | qcodes/instrument_drivers/oxford/MercuryiPS_VISA.py:155-170 | exactly one dressed READ is sent, and the result is the parent's classification of the reply |
| `Driver.MercurySlavePS.ParamSetter` | qcodes/instrument_drivers/oxford/MercuryiPS_VISA.py:172-184 | exactly one dressed SET is sent; the reply's payload is discarded, but a short acknowledgement still fails the call |
| `Driver.MercurySlavePS.GetSignal` | qcodes/instrument_drivers/oxford/MercuryiPS_VISA.py:69-133 | a numeric parameter's READ is sent, and its value is that parameter's reading of the reply |
| `Driver.MercurySlavePS.SetSignal` | qcodes/instrument_drivers/oxford/MercuryiPS_VISA.py:93-114 | a parameter with no set command is refused and nothing is sent; otherwise one SET goes out carrying the value after `set_parser` (×60 for the field ramp rate), and the call fails exactly when the classification of the reply fails, with that error |
| `Driver.MercurySlavePS.GetRampStatus` | qcodes/instrument_drivers/oxford/MercuryiPS_VISA.py:135-143 | the ACTN read is sent, and the status is the reply's token mapped back |
| `Driver.MercurySlavePS.SetRampStatus` | qcodes/instrument_drivers/oxford/MercuryiPS_VISA.py:145-153 | unknown names are refused with nothing sent; otherwise the status is read, and CLAMP→TO SET is refused with only that read sent; any other request sends one SET with the status token and fails exactly when the classification of its reply fails, with that error |
| `Driver.MercuryiPS.Create` | qcodes/instrument_drivers/oxford/MercuryiPS_VISA.py:196-253 | construction ends in the result `Construction` gives; the new instrument has the GRPX/GRPY/GRPZ sub-supplies, each named and addressed by its group, the effective limits and the read target, and its log is exactly the three field READs followed by `*IDN?` |
| `Driver.MercuryiPS.AddSupplies` | qcodes/instrument_drivers/oxford/MercuryiPS_VISA.py:234-237 | after the loop, exactly the three groups are filed, each under its UID and with that group as its name, as new sub-supplies of this instrument |
| `Driver.MercuryiPS.ReadTarget` | qcodes/instrument_drivers/oxford/MercuryiPS_VISA.py:242-244 | the three field reads give the initial target; the log gains the x READ alone when x fails, the x and y READs when y fails, and all three READs otherwise |
| `Driver.MercuryiPS.ReadYZ` | qcodes/instrument_drivers/oxford/MercuryiPS_VISA.py:242-244 | after the x read, the y and z reads finish the initial target; the log gains the y READ alone when y fails and both READs otherwise |
| `Driver.MercuryiPS.ReadZ` | qcodes/instrument_drivers/oxford/MercuryiPS_VISA.py:242-244 | after the x and y reads, the z read finishes the initial target, and its READ is logged whether or not it succeeds |
| `Driver.MercuryiPS.ReadField` | qcodes/instrument_drivers/oxford/MercuryiPS_VISA.py:242-244 | one axis's field read sends its READ and gives that axis's reading |
| `Driver.MercuryiPS.SetTargetVector` | qcodes/instrument_drivers/oxford/MercuryiPS_VISA.py:242-244 | the target becomes the vector read; the log and the sub-supplies are unchanged and the instrument stays valid |
| `Driver.MercuryiPS.Ask` | qcodes/instrument_drivers/oxford/MercuryiPS_VISA.py:291-317 | the command is appended to the log, and the result is the classification of the device's reply to it |
| `Driver.MercuryiPS.SetTarget` | qcodes/instrument_drivers/oxford/MercuryiPS_VISA.py:255-272 | an admitted candidate is committed and `GetComponent` reads it back; a refused one leaves the target unchanged and reports the coordinate and value; the other coordinates never change, admissibility is preserved, and nothing is sent |
| `Driver.MercuryiPS.IdnGetter` | qcodes/instrument_drivers/oxford/MercuryiPS_VISA.py:274-289 | `*IDN?` is sent, and the identity is read from the classified reply |
| `Driver.MercuryiPS.Connect` | qcodes/instrument_drivers/oxford/MercuryiPS_VISA.py:242-253 | the read vector becomes the target, then `*IDN?` is sent as the connect message's identity read; the call fails exactly when that identity read fails, with its error |

## Left out

- The r, theta, phi and rho set points: they go through the FieldVector
  coordinate conversions, which need trigonometry and square roots. The
  target is modelled as its Cartesian components x, y and z. The FieldVector
  class is not part of this model.
- Floating point: every value is an exact real. The rounding of `float()`
  and of the arithmetic, and Python's `repr` of the number sent in a SET
  command, are left out. SET values are written by a caller-supplied
  `render` function.
- The check that `field_limits` is callable (lines 212-215): in the model the
  limits have a function type, so a value that is not callable cannot be
  passed.
- The VISA session itself: opening it, the line terminator, timeouts, and
  transport errors. The device is assumed always to answer.
- `connect_message` (line 253) belongs to the instrument base class in
  qcodes/instrument/base.py, which is not part of this model. Its one effect
  on the device is modelled by `Driver.MercuryiPS.Connect`: after the target
  reads, `*IDN?` is sent through `_idn_getter`, and a reply too short to
  hold the identity fails construction. The message it prints, the
  connection timing it reports, and the IDN wrapper and snapshot machinery
  (line 231) are left out.
- Driver.MercuryiPS.GetComponent, Protocol.EchoedCommand, Protocol.Settable,
  Driver.RampPermitted, Driver.Admits and SignalParsing.ScaleToFactor are
  plain definitions with no contract of their own. What they mean is stated
  by the rows that use them: `Driver.MercuryiPS.SetTarget`,
  `Protocol.ReadCommand`, `Protocol.ToDevice` with
  `Driver.MercurySlavePS.SetSignal`, `Driver.RampGuard`,
  `Driver.EffectiveLimits` and `SignalParsing.TheirScaling`.
- The error logging for replies containing INVALID.
- The parameter framework (`add_parameter`, validators, `val_mapping`
  bookkeeping). Its two visible effects on the core are modelled:
  - ramp status names are mapped to and from device tokens;
  - a parameter with no `set_cmd` cannot be set.
- Driver.SignalReading: its own contract says only that a classification
  error fails the read. The full behaviour on a well-formed reply is stated
  by `Driver.SignalReadingEcho`.
- Driver.IdnReading: its own contract covers only rejected replies. Plain
  replies are covered by `Driver.IdnReadingPlain`.
- Protocol.ReadEcho, Driver.SignalReadingEcho and
  Driver.StatusReadingEcho require that the echoed command contain no
  `READ:`. The code removes every `READ:` from the command before stripping
  the echo. A UID ending in `READ` would therefore make the removed echo
  differ from the one the device sends.
- Driver.SignalReadingEcho also requires that the unit text contain no 'S'.
  That is a simple sufficient condition for the payload not to repeat the
  echoed `STAT:` command, which `ask` would strip a second time. Units
  spelled with an 'S' are not covered by that lemma.
