/**
 * Controller Change (CC) events and their controller numbers: the internal
 * initialiser that picks an enum case for a controller number, and the
 * `controller` property that reads the number back.  CC 32 ... 63 are the
 * LSB halves of CC 0 ... 31 and have their own enum, `LSB`.
 *
 * The `Mode` and `RPN` payload types are not part of this model: a mode
 * message keeps the controller number it was built from, and an RPN is
 * represented without its parameters.  The initialiser's `fatalError`s are
 * `Failure` results.
 */
module ControllerChanges {
  import opened Wrappers
  import opened MidiTypes

  /** The controllers that have both an MSB (0 ... 19) and an LSB (32 ... 51) number. */
  datatype PairedName =
    | BankSelect | ModWheel | Breath | FootController | PortamentoTime
    | DataEntry | ChannelVolume | Balance | Pan | Expression
    | EffectControl1 | EffectControl2
    | GeneralPurpose1 | GeneralPurpose2 | GeneralPurpose3 | GeneralPurpose4

  /** The single-byte controllers 64 ... 95. */
  datatype SingleName =
    | SustainPedal | Portamento | SostenutoPedal | SoftPedal | LegatoFootswitch | Hold2
    | SoundVariation | TimbreIntensity | ReleaseTime | AttackTime | Brightness
    | DecayTime | VibratoRate | VibratoDepth | VibratoDelay | SoundControl10
    | GeneralPurpose5 | GeneralPurpose6 | GeneralPurpose7 | GeneralPurpose8
    | PortamentoControl | HighResolutionVelocityPrefix
    | Effects1Depth | Effects2Depth | Effects3Depth | Effects4Depth | Effects5Depth

  /** `ControllerChange.LSB`. */
  datatype Lsb =
    | LsbNamed(name: PairedName, value: UInt7)
    | LsbUndefined(controller: UInt7, value: UInt7)

  /** `ControllerChange.Mode`, known here only by its controller number. */
  datatype ModeMessage = ModeMessage(controller: UInt7, value: UInt7)

  datatype ControllerChange =
    | Paired(name: PairedName, value: UInt7)
    | LsbChange(lsb: Lsb)
    | Single(single: SingleName, value: UInt7)
    | DataIncrement(step: Option<UInt7>)
    | DataDecrement(step: Option<UInt7>)
    | Mode(mode: ModeMessage)
    | Rpn
    | Undefined(controller: UInt7, value: UInt7)
    | Raw(controller: UInt7, value: UInt7)

  /** The `fatalError`s of the initialisers. */
  datatype CcTrap = RpnFromNumber | NrpnFromNumber | UnexpectedNumber

  /** A channel voice event carrying a controller change, as `asEvent` builds it. */
  datatype ChannelVoiceEvent = ControlChangeEvent(cc: ControllerChange, channel: UInt4)

  /** MSB controller number of a paired controller. */
  function PairedNumber(name: PairedName): (n: UInt7)
    ensures n < 20 && n != 3 && n != 9 && n != 14 && n != 15
  {
    match name
    case BankSelect => 0
    case ModWheel => 1
    case Breath => 2
    case FootController => 4
    case PortamentoTime => 5
    case DataEntry => 6
    case ChannelVolume => 7
    case Balance => 8
    case Pan => 10
    case Expression => 11
    case EffectControl1 => 12
    case EffectControl2 => 13
    case GeneralPurpose1 => 16
    case GeneralPurpose2 => 17
    case GeneralPurpose3 => 18
    case GeneralPurpose4 => 19
  }

  function SingleNumber(name: SingleName): (n: UInt7)
    ensures (64 <= n <= 84) || n == 88 || (91 <= n <= 95)
  {
    match name
    case SustainPedal => 64
    case Portamento => 65
    case SostenutoPedal => 66
    case SoftPedal => 67
    case LegatoFootswitch => 68
    case Hold2 => 69
    case SoundVariation => 70
    case TimbreIntensity => 71
    case ReleaseTime => 72
    case AttackTime => 73
    case Brightness => 74
    case DecayTime => 75
    case VibratoRate => 76
    case VibratoDepth => 77
    case VibratoDelay => 78
    case SoundControl10 => 79
    case GeneralPurpose5 => 80
    case GeneralPurpose6 => 81
    case GeneralPurpose7 => 82
    case GeneralPurpose8 => 83
    case PortamentoControl => 84
    case HighResolutionVelocityPrefix => 88
    case Effects1Depth => 91
    case Effects2Depth => 92
    case Effects3Depth => 93
    case Effects4Depth => 94
    case Effects5Depth => 95
  }

  /** The paired controller with MSB number `n`, if any. */
  function PairedOfNumber(n: UInt7): (r: Option<PairedName>)
    ensures r.Some? ==> PairedNumber(r.value) == n
    ensures r.None? <==> !(n < 20 && n != 3 && n != 9 && n != 14 && n != 15)
  {
    if n == 0 then Some(BankSelect)
    else if n == 1 then Some(ModWheel)
    else if n == 2 then Some(Breath)
    else if n == 4 then Some(FootController)
    else if n == 5 then Some(PortamentoTime)
    else if n == 6 then Some(DataEntry)
    else if n == 7 then Some(ChannelVolume)
    else if n == 8 then Some(Balance)
    else if n == 10 then Some(Pan)
    else if n == 11 then Some(Expression)
    else if n == 12 then Some(EffectControl1)
    else if n == 13 then Some(EffectControl2)
    else if n == 16 then Some(GeneralPurpose1)
    else if n == 17 then Some(GeneralPurpose2)
    else if n == 18 then Some(GeneralPurpose3)
    else if n == 19 then Some(GeneralPurpose4)
    else None
  }

  /** The single-byte controller with number `n`, if any. */
  function SingleOfNumber(n: UInt7): (r: Option<SingleName>)
    ensures r.Some? ==> SingleNumber(r.value) == n
    ensures r.None? <==> !((64 <= n <= 84) || n == 88 || (91 <= n <= 95))
  {
    if n < 76 then SingleBelow76(n) else SingleFrom76(n)
  }

  /** The single-byte controllers numbered below 76. */
  function SingleBelow76(n: UInt7): (r: Option<SingleName>)
    requires n < 76
    ensures r.Some? ==> SingleNumber(r.value) == n
    ensures r.None? <==> n < 64
  {
    if n == 64 then Some(SustainPedal)
    else if n == 65 then Some(Portamento)
    else if n == 66 then Some(SostenutoPedal)
    else if n == 67 then Some(SoftPedal)
    else if n == 68 then Some(LegatoFootswitch)
    else if n == 69 then Some(Hold2)
    else if n == 70 then Some(SoundVariation)
    else if n == 71 then Some(TimbreIntensity)
    else if n == 72 then Some(ReleaseTime)
    else if n == 73 then Some(AttackTime)
    else if n == 74 then Some(Brightness)
    else if n == 75 then Some(DecayTime)
    else None
  }

  /** The single-byte controllers numbered 76 and above. */
  function SingleFrom76(n: UInt7): (r: Option<SingleName>)
    requires n >= 76
    ensures r.Some? ==> SingleNumber(r.value) == n
    ensures r.None? <==> !(n <= 84 || n == 88 || (91 <= n <= 95))
  {
    if n == 76 then Some(VibratoRate)
    else if n == 77 then Some(VibratoDepth)
    else if n == 78 then Some(VibratoDelay)
    else if n == 79 then Some(SoundControl10)
    else if n == 80 then Some(GeneralPurpose5)
    else if n == 81 then Some(GeneralPurpose6)
    else if n == 82 then Some(GeneralPurpose7)
    else if n == 83 then Some(GeneralPurpose8)
    else if n == 84 then Some(PortamentoControl)
    else if n == 88 then Some(HighResolutionVelocityPrefix)
    else if n == 91 then Some(Effects1Depth)
    else if n == 92 then Some(Effects2Depth)
    else if n == 93 then Some(Effects3Depth)
    else if n == 94 then Some(Effects4Depth)
    else if n == 95 then Some(Effects5Depth)
    else None
  }

  /** Each name has its own number. */
  lemma NumbersIdentifyNames(p: PairedName, s: SingleName)
    ensures PairedOfNumber(PairedNumber(p)) == Some(p)
    ensures SingleOfNumber(SingleNumber(s)) == Some(s)
  {
  }

  // ---- LSB ----

  predicate IsUndefinedLsbNumber(n: int)
  {
    n == 35 || n == 41 || (46 <= n <= 47) || (52 <= n <= 63)
  }

  /** `LSB.init(enumForController:value:)`. */
  function LsbFromController(n: UInt7, value: UInt7): (r: Result<Lsb, CcTrap>)
    ensures r.Failure? <==> !(32 <= n <= 63)
    ensures r.Failure? ==> r.error == UnexpectedNumber
    ensures IsUndefinedLsbNumber(n) ==> r == Success(LsbUndefined(n, value))
  {
    if 32 <= n <= 63 then
      match PairedOfNumber(n - 32)
      case Some(name) => Success(LsbNamed(name, value))
      case None => Success(LsbUndefined(n, value))
    else Failure(UnexpectedNumber)
  }

  /** `LSB.controller`. */
  function LsbController(l: Lsb): UInt7
  {
    match l
    case LsbNamed(name, _) => PairedNumber(name) + 32
    case LsbUndefined(c, _) => c
  }

  function LsbValue(l: Lsb): UInt7
  {
    match l
    case LsbNamed(_, v) => v
    case LsbUndefined(_, v) => v
  }

  /** Building an LSB from a number and reading the number back gives that number and value. */
  lemma LsbControllerRoundTrip(n: UInt7, value: UInt7)
    requires 32 <= n <= 63
    ensures LsbFromController(n, value).Success?
    ensures LsbController(LsbFromController(n, value).value) == n
    ensures LsbValue(LsbFromController(n, value).value) == value
  {
  }

  /** An LSB whose undefined number really is undefined is rebuilt from its number. */
  lemma LsbFromItsController(l: Lsb)
    requires l.LsbUndefined? ==> IsUndefinedLsbNumber(l.controller)
    ensures LsbFromController(LsbController(l), LsbValue(l)) == Success(l)
  {
    if l.LsbNamed? {
      NumbersIdentifyNames(l.name, SustainPedal);
    }
  }

  /** `LSB.asEvent(channel:)`. */
  function LsbAsEvent(l: Lsb, channel: UInt4): (e: ChannelVoiceEvent)
    ensures Controller(e.cc) == LsbController(l) && e.channel == channel
  {
    ControlChangeEvent(LsbChange(l), channel)
  }

  // ---- ControllerChange ----

  predicate IsUndefinedNumber(n: int)
  {
    n == 3 || n == 9 || (20 <= n <= 31) || (85 <= n <= 87) || (89 <= n <= 90) || (102 <= n <= 119)
  }

  /** `ControllerChange.init(enumForController:value:)`. */
  function FromController(n: UInt7, value: UInt7): (r: Result<ControllerChange, CcTrap>)
    ensures r.Failure? <==> n == 14 || n == 15 || (98 <= n <= 101)
    ensures (98 <= n <= 99) ==> r == Failure(RpnFromNumber)
    ensures (100 <= n <= 101) ==> r == Failure(NrpnFromNumber)
    ensures (n == 14 || n == 15) ==> r == Failure(UnexpectedNumber)
    ensures IsUndefinedNumber(n) ==> r == Success(Undefined(n, value))
    ensures 32 <= n <= 63 ==> r.Success? && r.value.LsbChange?
    ensures 120 <= n ==> r == Success(Mode(ModeMessage(n, value)))
  {
    if 32 <= n <= 63 then
      var l := LsbFromController(n, value);
      Success(LsbChange(l.value))
    else if n == 96 then Success(DataIncrement(Some(value)))
    else if n == 97 then Success(DataDecrement(Some(value)))
    else if 98 <= n <= 99 then Failure(RpnFromNumber)
    else if 100 <= n <= 101 then Failure(NrpnFromNumber)
    else if 120 <= n then Success(Mode(ModeMessage(n, value)))
    else if IsUndefinedNumber(n) then Success(Undefined(n, value))
    else match PairedOfNumber(n)
         case Some(name) => Success(Paired(name, value))
         case None =>
           match SingleOfNumber(n)
           case Some(name) => Success(Single(name, value))
           case None => Failure(UnexpectedNumber)
  }

  /** `ControllerChange.controller`: RPN reports 99; undefined and raw report their stored number. */
  function Controller(cc: ControllerChange): UInt7
  {
    match cc
    case Paired(name, _) => PairedNumber(name)
    case LsbChange(l) => LsbController(l)
    case Single(name, _) => SingleNumber(name)
    case DataIncrement(_) => 96
    case DataDecrement(_) => 97
    case Mode(m) => m.controller
    case Rpn => 99
    case Undefined(c, _) => c
    case Raw(c, _) => c
  }

  /** Every controller change the initialiser builds reports the number it was built from. */
  lemma ControllerRoundTrip(n: UInt7, value: UInt7)
    requires FromController(n, value).Success?
    ensures Controller(FromController(n, value).value) == n
  {
    if 32 <= n <= 63 {
      LsbControllerRoundTrip(n, value);
    }
  }

  /** The controller changes the initialiser can produce. */
  predicate Constructible(cc: ControllerChange)
  {
    match cc
    case Paired(_, _) => true
    case LsbChange(l) => l.LsbUndefined? ==> IsUndefinedLsbNumber(l.controller)
    case Single(_, _) => true
    case DataIncrement(step) => step.Some?
    case DataDecrement(step) => step.Some?
    case Mode(m) => 120 <= m.controller
    case Rpn => false
    case Undefined(c, _) => IsUndefinedNumber(c)
    case Raw(_, _) => false
  }

  function ValueOf(cc: ControllerChange): UInt7
    requires Constructible(cc)
  {
    match cc
    case Paired(_, v) => v
    case LsbChange(l) => LsbValue(l)
    case Single(_, v) => v
    case DataIncrement(step) => step.value
    case DataDecrement(step) => step.value
    case Mode(m) => m.value
    case Undefined(_, v) => v
  }

  /** Each constructible controller change is rebuilt from its controller number and value. */
  lemma FromItsController(cc: ControllerChange)
    requires Constructible(cc)
    ensures FromController(Controller(cc), ValueOf(cc)) == Success(cc)
  {
    match cc
    case Paired(name, _) =>
      NumbersIdentifyNames(name, SustainPedal);
    case LsbChange(l) =>
      LsbFromItsController(l);
    case Single(name, _) =>
      NumbersIdentifyNames(BankSelect, name);
    case _ =>
  }
}
