/** The motion command layer of DSR_ROBOT2.py: persistent task velocity and acceleration, the checks of
    movel and moveb, and the analog-output modes (lines 391-464, 523-571, 2731-2865, 3348-3474, 5834-5920).
    A service request is a record appended to `log`. Numbers are reals. */
module MotionLayer {
  import opened BlendSegment
  import opened Wrappers

  const COND_NONE := -10000.0
  const BASE := 0
  const USER_MAX := 200
  const ANALOG_CURRENT := 0
  const ANALOG_VOLTAGE := 1

  /** An argument: an int or float, a list of numbers, something else that float() accepts (True, "2", a numpy
      scalar), or something that it does not accept. */
  datatype Arg = Absent | Number(x: real) | Items(items: seq<real>) | Convertible(x: real) | Other
  datatype IntArg = NoInt | Int(i: int) | NotInt

  datatype Pair = Pair(first: real, second: real)

  /** The checked part that MoveLine and MoveBlending share. */
  datatype Limits = Limits(vel: Pair, acc: Pair, time: real)

  datatype Request =
    | MoveLine(pos: seq<real>, limits: Limits, radius: real, ref: int, mode: int, blend: int, sync: int)
    | MoveBlending(segments: seq<seq<real>>, limits: Limits, ref: int, mode: int, sync: int)
    | AnalogMode(ch: int, mod: int)
    | AnalogValue(ch: int, val: real)

  /** The module globals and the requests made so far. */
  datatype Layer = Layer(velx: Pair, accx: Pair, mode1: int, mode2: int, log: seq<Request>)

  const INITIAL := Layer(Pair(0.0, COND_NONE), Pair(0.0, COND_NONE), -1, -1, [])

  datatype LineArgs = LineArgs(
    pos: Arg, vel: Arg, acc: Arg, time: Arg, radius: Arg, ref: IntArg, mode: IntArg, ra: IntArg,
    v: Arg, a: Arg, t: Arg, r: Arg, async: bool)

  datatype BlendArgs = BlendArgs(
    segments: seq<Segment>, vel: Arg, acc: Arg, ref: IntArg, time: Arg, mode: IntArg,
    v: Arg, a: Arg, t: Arg, async: bool)

  datatype Command =
    | SetVelx(vel1: Arg, vel2: Arg)
    | SetAccx(acc1: Arg, acc2: Arg)
    | MoveL(line: LineArgs)
    | MoveB(blend: BlendArgs)
    | SetModeAnalogOutput(ch: IntArg, mod: IntArg)
    | SetAnalogOutput(ch: IntArg, val: Arg)

  /* ---- Checks ---- */

  /** get_param */
  function Param(x: Arg, y: Arg): Arg {
    if x != Absent then x else y
  }

  /** set_velx and set_accx, lines 523-571. */
  function CheckPair(one: Arg, two: Arg): Checked<Pair> {
    if !one.Number? then Err(TypeFault)
    else if one.x <= 0.0 then Err(ValueFault)
    else if !two.Number? then Err(TypeFault)
    else if two.x != COND_NONE && two.x <= 0.0 then Err(ValueFault)
    else Ok(Pair(one.x, two.x))
  }

  predicate NegativeItem(x: real) {
    x < 0.0 && x != COND_NONE
  }

  /** Lines 2735-2756: the pair a call uses. */
  function ChosenPair(arg: Arg, dflt: Pair): Checked<Pair> {
    match arg
    case Absent => NonNegative(dflt)
    case Number(x) => NonNegative(Pair(x, COND_NONE))
    case Items(items) => if |items| == 2 then NonNegative(Pair(items[0], items[1])) else Err(TypeFault)
    case _ => Err(TypeFault)
  }

  function NonNegative(p: Pair): Checked<Pair> {
    if NegativeItem(p.first) || NegativeItem(p.second) then Err(ValueFault) else Ok(p)
  }

  predicate Timeless(time: real) {
    time == 0.0 || time == COND_NONE
  }

  predicate PairPositive(p: Pair) {
    p.first > 0.0 && (p.second == COND_NONE || p.second > 0.0)
  }

  /** _check_valid_vel_acc_task, lines 449-464. */
  function CheckTask(l: Limits): Checked<Limits> {
    if Timeless(l.time) then
      if l.vel.first <= 0.0 then Err(ValueFault)
      else if l.vel.second != COND_NONE && l.vel.second <= 0.0 then Err(ValueFault)
      else if l.acc.first <= 0.0 then Err(ValueFault)
      else if l.acc.second != COND_NONE && l.acc.second <= 0.0 then Err(ValueFault)
      else Ok(l)
    else Ok(l)
  }

  /** Velocity, acceleration and time of one call. Only movel (`strictTime`) looks at the type and the sign of the
      time; moveb hands it to float(), which raises by itself on what it does not accept. */
  function ChosenLimits(layer: Layer, vel: Arg, acc: Arg, time: Arg, strictTime: bool): Checked<Limits> {
    match ChosenPair(vel, layer.velx)
    case Err(f) => Err(f)
    case Ok(v) =>
      match ChosenPair(acc, layer.accx)
      case Err(f) => Err(f)
      case Ok(a) =>
        match time
        case Absent => CheckTask(Limits(v, a, 0.0))
        case Number(t) => if strictTime && NegativeItem(t) then Err(ValueFault) else CheckTask(Limits(v, a, t))
        case Convertible(t) => if strictTime then Err(TypeFault) else CheckTask(Limits(v, a, t))
        case _ => Err(TypeFault)
  }

  /** An integer argument with a default and a range. */
  function ChosenInt(arg: IntArg, dflt: int, low: int, high: int): Checked<int> {
    match arg
    case NoInt => Ok(dflt)
    case Int(i) => if low <= i <= high then Ok(i) else Err(ValueFault)
    case NotInt => Err(TypeFault)
  }

  /** Radius of movel; the blend state of this module is never switched on, so the default is 0. */
  function ChosenRadius(arg: Arg): Checked<real> {
    match arg
    case Absent => Ok(0.0)
    case Number(r) => if r < 0.0 then Err(ValueFault) else Ok(r)
    case _ => Err(TypeFault)
  }

  /** _movel, lines 2731-2865: the request it sends, or the error it raises. */
  function LineRequest(layer: Layer, m: LineArgs): Checked<Request> {
    if !(m.pos.Items? && |m.pos.items| == 6) then Err(TypeFault)
    else match ChosenLimits(layer, Param(m.vel, m.v), Param(m.acc, m.a), Param(m.time, m.t), true)
      case Err(f) => Err(f)
      case Ok(limits) =>
        match ChosenRadius(Param(m.radius, m.r))
        case Err(f) => Err(f)
        case Ok(radius) =>
          match ChosenInt(m.ref, BASE, BASE, USER_MAX)
          case Err(f) => Err(f)
          case Ok(ref) =>
            match ChosenInt(m.mode, 0, 0, 1)
            case Err(f) => Err(f)
            case Ok(mode) =>
              match ChosenInt(m.ra, 0, 0, 1)
              case Err(f) => Err(f)
              case Ok(ra) =>
                var sentRadius, sync := if m.async then 0.0 else radius, if m.async then 1 else 0;
                Ok(MoveLine(m.pos.items, limits, sentRadius, ref, mode, ra, sync))
  }

  /** _moveb, lines 3348-3474. */
  function BlendRequest(layer: Layer, m: BlendArgs): Checked<Request> {
    if m.segments == [] then Err(ValueFault)
    else match ChosenLimits(layer, Param(m.vel, m.v), Param(m.acc, m.a), Param(m.time, m.t), false)
      case Err(f) => Err(f)
      case Ok(limits) =>
        match ChosenInt(m.ref, BASE, BASE, USER_MAX)
        case Err(f) => Err(f)
        case Ok(ref) =>
          match ChosenInt(m.mode, 0, 0, 1)
          case Err(f) => Err(f)
          case Ok(mode) => Ok(MoveBlending(PackAll(m.segments), limits, ref, mode, if m.async then 1 else 0))
  }

  function ModeOf(layer: Layer, ch: int): int {
    if ch == 1 then layer.mode1 else layer.mode2
  }

  predicate InModeRange(mod: int, val: real) {
    (mod == ANALOG_CURRENT && 4.0 <= val <= 20.0) || (mod == ANALOG_VOLTAGE && 0.0 <= val <= 10.0)
  }

  /** set_analog_output, lines 5834-5871. */
  function AnalogRequest(layer: Layer, ch: IntArg, val: Arg): Checked<Request> {
    if !ch.Int? || !val.Number? then Err(TypeFault)
    else if ch.i < 1 || ch.i > 2 then Err(ValueFault)
    else if ModeOf(layer, ch.i) == ANALOG_CURRENT then
      if val.x < 4.0 || val.x > 20.0 then Err(ValueFault) else Ok(AnalogValue(ch.i, val.x))
    else if ModeOf(layer, ch.i) == ANALOG_VOLTAGE then
      if val.x < 0.0 || val.x > 10.0 then Err(ValueFault) else Ok(AnalogValue(ch.i, val.x))
    else Err(ValueFault)
  }

  /** set_mode_analog_output, lines 5888-5912. */
  function ModeRequest(ch: IntArg, mod: IntArg): Checked<Request> {
    if !ch.Int? || !mod.Int? then Err(TypeFault)
    else if ch.i < 1 || ch.i > 2 then Err(ValueFault)
    else if mod.i != ANALOG_CURRENT && mod.i != ANALOG_VOLTAGE then Err(ValueFault)
    else Ok(AnalogMode(ch.i, mod.i))
  }

  datatype Outcome = Outcome(layer: Layer, fault: Checked<()>)

  function Sent(layer: Layer, r: Checked<Request>): Outcome {
    if r.Ok? then Outcome(layer.(log := layer.log + [r.value]), Ok(())) else Outcome(layer, Err(r.error))
  }

  /** One call on the module. */
  function Do(layer: Layer, c: Command): Outcome {
    match c
    case SetVelx(one, two) =>
      (match CheckPair(one, two)
       case Ok(p) => Outcome(layer.(velx := p), Ok(()))
       case Err(f) => Outcome(layer, Err(f)))
    case SetAccx(one, two) =>
      (match CheckPair(one, two)
       case Ok(p) => Outcome(layer.(accx := p), Ok(()))
       case Err(f) => Outcome(layer, Err(f)))
    case MoveL(m) => Sent(layer, LineRequest(layer, m))
    case MoveB(m) => Sent(layer, BlendRequest(layer, m))
    case SetModeAnalogOutput(ch, mod) =>
      (match ModeRequest(ch, mod)
       case Ok(r) => Sent(if r.ch == 1 then layer.(mode1 := r.mod) else layer.(mode2 := r.mod), Ok(r))
       case Err(f) => Outcome(layer, Err(f)))
    case SetAnalogOutput(ch, val) => Sent(layer, AnalogRequest(layer, ch, val))
  }

  function Run(layer: Layer, cs: seq<Command>): Layer {
    if cs == [] then layer else Do(Run(layer, cs[..|cs| - 1]), cs[|cs| - 1]).layer
  }

  /* ---- What every run keeps ---- */

  /** The last mode requested for a channel, -1 if none. */
  function LastMode(log: seq<Request>, ch: int): int {
    if log == [] then -1
    else if log[|log| - 1].AnalogMode? && log[|log| - 1].ch == ch then log[|log| - 1].mod
    else LastMode(log[..|log| - 1], ch)
  }

  predicate LimitsSafe(l: Limits) {
    && !NegativeItem(l.vel.first) && !NegativeItem(l.vel.second)
    && !NegativeItem(l.acc.first) && !NegativeItem(l.acc.second)
    && (Timeless(l.time) ==> PairPositive(l.vel) && PairPositive(l.acc))
  }

  /** What may be sent after the requests `before`. */
  predicate RequestSafe(before: seq<Request>, r: Request) {
    match r
    case MoveLine(pos, l, radius, ref, mode, blend, sync) =>
      && |pos| == 6 && LimitsSafe(l) && !NegativeItem(l.time) && radius >= 0.0 && (sync == 1 ==> radius == 0.0)
      && 0 <= ref <= 200 && 0 <= mode <= 1 && 0 <= blend <= 1
    case MoveBlending(segments, l, ref, mode, _) =>
      |segments| > 0 && LimitsSafe(l) && 0 <= ref <= 200 && 0 <= mode <= 1
    case AnalogMode(ch, mod) => 1 <= ch <= 2 && 0 <= mod <= 1
    case AnalogValue(ch, val) => 1 <= ch <= 2 && InModeRange(LastMode(before, ch), val)
  }

  ghost predicate LogSafe(log: seq<Request>) {
    forall i :: 0 <= i < |log| ==> RequestSafe(log[..i], log[i])
  }

  ghost predicate LayerOk(layer: Layer) {
    && LogSafe(layer.log)
    && layer.mode1 == LastMode(layer.log, 1) && layer.mode2 == LastMode(layer.log, 2)
  }

  lemma LastModeStep(log: seq<Request>, r: Request, ch: int)
    ensures LastMode(log + [r], ch) == if r.AnalogMode? && r.ch == ch then r.mod else LastMode(log, ch)
  {
    assert (log + [r])[..|log|] == log;
  }

  lemma SafeAppend(log: seq<Request>, r: Request)
    requires LogSafe(log) && RequestSafe(log, r)
    ensures LogSafe(log + [r])
  {
    var all := log + [r];
    forall i | 0 <= i < |all| ensures RequestSafe(all[..i], all[i]) {
      assert i < |log| ==> all[..i] == log[..i];
      assert i == |log| ==> all[..i] == log;
    }
  }

  lemma LimitsChecked(layer: Layer, vel: Arg, acc: Arg, time: Arg, strictTime: bool)
    ensures var c := ChosenLimits(layer, vel, acc, time, strictTime);
            c.Ok? ==> LimitsSafe(c.value) && (strictTime ==> !NegativeItem(c.value.time))
  {
  }

  lemma LineChecked(layer: Layer, m: LineArgs, before: seq<Request>)
    ensures var r := LineRequest(layer, m); r.Ok? ==> r.value.MoveLine? && RequestSafe(before, r.value)
  {
    LimitsChecked(layer, Param(m.vel, m.v), Param(m.acc, m.a), Param(m.time, m.t), true);
  }

  lemma BlendChecked(layer: Layer, m: BlendArgs, before: seq<Request>)
    ensures var r := BlendRequest(layer, m); r.Ok? ==> r.value.MoveBlending? && RequestSafe(before, r.value)
  {
    LimitsChecked(layer, Param(m.vel, m.v), Param(m.acc, m.a), Param(m.time, m.t), false);
  }

  lemma SentOk(layer: Layer, next: Layer, r: Request)
    requires LayerOk(layer) && RequestSafe(layer.log, r)
    requires next.log == layer.log + [r]
    requires next.mode1 == (if r.AnalogMode? && r.ch == 1 then r.mod else layer.mode1)
    requires next.mode2 == (if r.AnalogMode? && r.ch == 2 then r.mod else layer.mode2)
    ensures LayerOk(next)
  {
    SafeAppend(layer.log, r);
    LastModeStep(layer.log, r, 1);
    LastModeStep(layer.log, r, 2);
  }

  lemma DoOk(layer: Layer, c: Command)
    requires LayerOk(layer)
    ensures LayerOk(Do(layer, c).layer)
  {
    var next := Do(layer, c).layer;
    match c
    case SetVelx(_, _) =>
    case SetAccx(_, _) =>
    case MoveL(m) =>
      LineChecked(layer, m, layer.log);
      if LineRequest(layer, m).Ok? { SentOk(layer, next, LineRequest(layer, m).value); }
    case MoveB(m) =>
      BlendChecked(layer, m, layer.log);
      if BlendRequest(layer, m).Ok? { SentOk(layer, next, BlendRequest(layer, m).value); }
    case SetModeAnalogOutput(ch, mod) =>
      if ModeRequest(ch, mod).Ok? { SentOk(layer, next, ModeRequest(ch, mod).value); }
    case SetAnalogOutput(ch, val) =>
      if AnalogRequest(layer, ch, val).Ok? { SentOk(layer, next, AnalogRequest(layer, ch, val).value); }
  }

  /** Over every run of calls from the initial globals: each move without a time has positive first
      velocity and acceleration and second ones positive or the sentinel, whether given or inherited from
      the globals; and each analog output lies in the range of the mode last requested on its channel. */
  lemma {:induction false} EveryRequestSafe(cs: seq<Command>)
    ensures LayerOk(Run(INITIAL, cs))
  {
    if cs != [] {
      EveryRequestSafe(cs[..|cs| - 1]);
      DoOk(Run(INITIAL, cs[..|cs| - 1]), cs[|cs| - 1]);
    }
  }

  /** The pair of the last set_velx (set_accx) of the run that passed its checks. */
  function LastVelx(cs: seq<Command>): Checked<Pair> {
    if cs == [] then Err(ValueFault)
    else
      var c := cs[|cs| - 1];
      if c.SetVelx? && CheckPair(c.vel1, c.vel2).Ok? then CheckPair(c.vel1, c.vel2) else LastVelx(cs[..|cs| - 1])
  }

  function LastAccx(cs: seq<Command>): Checked<Pair> {
    if cs == [] then Err(ValueFault)
    else
      var c := cs[|cs| - 1];
      if c.SetAccx? && CheckPair(c.acc1, c.acc2).Ok? then CheckPair(c.acc1, c.acc2) else LastAccx(cs[..|cs| - 1])
  }

  ghost predicate DefaultsOk(layer: Layer, cs: seq<Command>) {
    && (if LastVelx(cs).Ok? then layer.velx == LastVelx(cs).value && PairPositive(layer.velx)
        else layer.velx == INITIAL.velx)
    && (if LastAccx(cs).Ok? then layer.accx == LastAccx(cs).value && PairPositive(layer.accx)
        else layer.accx == INITIAL.accx)
  }

  lemma DoDefaults(layer: Layer, c: Command)
    ensures var next := Do(layer, c).layer;
            && (c.SetVelx? && CheckPair(c.vel1, c.vel2).Ok? ==>
                  next.velx == CheckPair(c.vel1, c.vel2).value && PairPositive(next.velx))
            && (!(c.SetVelx? && CheckPair(c.vel1, c.vel2).Ok?) ==> next.velx == layer.velx)
            && (c.SetAccx? && CheckPair(c.acc1, c.acc2).Ok? ==>
                  next.accx == CheckPair(c.acc1, c.acc2).value && PairPositive(next.accx))
            && (!(c.SetAccx? && CheckPair(c.acc1, c.acc2).Ok?) ==> next.accx == layer.accx)
  {
  }

  lemma {:induction false} RunDefaults(cs: seq<Command>)
    ensures DefaultsOk(Run(INITIAL, cs), cs)
  {
    if cs != [] {
      RunDefaults(cs[..|cs| - 1]);
      DoDefaults(Run(INITIAL, cs[..|cs| - 1]), cs[|cs| - 1]);
    }
  }

  /** movel(pos): everything else left to its default. */
  function PlainLine(pos: seq<real>, async: bool): LineArgs {
    LineArgs(Items(pos), Absent, Absent, Absent, Absent, NoInt, NoInt, NoInt, Absent, Absent, Absent, Absent, async)
  }

  /** A plain movel to six coordinates is sent if and only if set_velx and set_accx have both succeeded
      earlier in the run; it then carries exactly the last values they set. */
  lemma PlainLineNeedsBothSettings(cs: seq<Command>, pos: seq<real>, async: bool)
    requires |pos| == 6
    ensures var r := LineRequest(Run(INITIAL, cs), PlainLine(pos, async));
            && (r.Ok? <==> LastVelx(cs).Ok? && LastAccx(cs).Ok?)
            && (r.Ok? ==>
                  var limits := Limits(LastVelx(cs).value, LastAccx(cs).value, 0.0);
                  r.value == MoveLine(pos, limits, 0.0, 0, 0, 0, if async then 1 else 0))
  {
    RunDefaults(cs);
  }

  lemma GivenLimitsOverride(one: Layer, two: Layer, m: LineArgs)
    requires Param(m.vel, m.v) != Absent && Param(m.acc, m.a) != Absent
    ensures LineRequest(one, m) == LineRequest(two, m)
    ensures LineRequest(one, m).Ok? ==>
              var v, a, l := Param(m.vel, m.v), Param(m.acc, m.a), LineRequest(one, m).value.limits;
              && (v.Number? ==> l.vel == Pair(v.x, COND_NONE)) && (v.Items? ==> v.items == [l.vel.first, l.vel.second])
              && (a.Number? ==> l.acc == Pair(a.x, COND_NONE)) && (a.Items? ==> a.items == [l.acc.first, l.acc.second])
  {
  }

  /** What a move that some state of the globals accepts comes to is the same in every state if and only if
      both velocity and acceleration are given, under either name. */
  lemma OnlyMissingLimitsInherited(layer: Layer, m: LineArgs)
    requires LineRequest(layer, m).Ok?
    ensures (forall other: Layer :: LineRequest(other, m) == LineRequest(layer, m)) <==>
            Param(m.vel, m.v) != Absent && Param(m.acc, m.a) != Absent
  {
    var v, a := layer.velx, layer.accx;
    if Param(m.vel, m.v) == Absent {
      var other := layer.(velx := Pair(v.first + 1.0, v.second));
      assert LineRequest(other, m) != LineRequest(layer, m);
    } else if Param(m.acc, m.a) == Absent {
      var other := layer.(accx := Pair(a.first + 1.0, a.second));
      assert LineRequest(other, m) != LineRequest(layer, m);
    } else {
      forall other: Layer ensures LineRequest(other, m) == LineRequest(layer, m) {
        GivenLimitsOverride(other, layer, m);
      }
    }
  }

  /** The short names v, a, t, r stand for vel, acc, time, radius, and give way to them. */
  lemma ShortNamesMeanLongOnes(layer: Layer, m: LineArgs)
    ensures m.vel == m.acc == m.time == m.radius == Absent ==>
              var long := m.(vel := m.v, acc := m.a, time := m.t, radius := m.r);
              LineRequest(layer, m) == LineRequest(layer, long.(v := Absent, a := Absent, t := Absent, r := Absent))
    ensures m.vel != Absent && m.acc != Absent && m.time != Absent && m.radius != Absent ==>
              LineRequest(layer, m) == LineRequest(layer, m.(v := Absent, a := Absent, t := Absent, r := Absent))
  {
  }

  /* ---- What a request carries ---- */

  /** float() accepts the time. */
  predicate HasTime(time: Arg) {
    time.Number? || time.Convertible?
  }

  /** x is the number given under the long name, or else under the short one, or else the default. */
  predicate CarriesNumber(long: Arg, short: Arg, dflt: real, x: real) {
    if long == Absent then (if short == Absent then x == dflt else HasTime(short) && x == short.x)
    else HasTime(long) && x == long.x
  }

  /** p is the pair given under the long name, or else under the short one, or else the stored one; a number stands
      for itself and the sentinel. */
  predicate CarriesPair(long: Arg, short: Arg, stored: Pair, p: Pair) {
    if long == Absent && short == Absent then p == stored
    else
      var given := if long == Absent then short else long;
      || (given.Number? && p.first == given.x && p.second == -10000.0)
      || (given.Items? && given.items == [p.first, p.second])
  }

  predicate CarriesInt(given: IntArg, i: int) {
    if given == NoInt then i == 0 else given == Int(i)
  }

  /** Every accepted movel carries its own arguments, each in its place: the coordinates given, the limits and the
      time given or inherited, the radius given (none when asynchronous), and reference, mode and blend type given
      or 0. */
  lemma LineCarriesArguments(layer: Layer, m: LineArgs)
    requires LineRequest(layer, m).Ok?
    ensures var r := LineRequest(layer, m).value;
            && r.MoveLine? && m.pos == Items(r.pos) && |r.pos| == 6
            && CarriesPair(m.vel, m.v, layer.velx, r.limits.vel)
            && CarriesPair(m.acc, m.a, layer.accx, r.limits.acc)
            && CarriesNumber(m.time, m.t, 0.0, r.limits.time)
            && (if m.async then r.radius == 0.0 else CarriesNumber(m.radius, m.r, 0.0, r.radius))
            && CarriesInt(m.ref, r.ref) && CarriesInt(m.mode, r.mode) && CarriesInt(m.ra, r.blend)
            && r.sync == (if m.async then 1 else 0)
  {
  }

  /** Likewise every accepted moveb, whose records read back as its segments. */
  lemma BlendCarriesArguments(layer: Layer, m: BlendArgs)
    requires BlendRequest(layer, m).Ok?
    ensures var r := BlendRequest(layer, m).value;
            && r.MoveBlending? && |r.segments| == |m.segments| > 0
            && (forall i :: 0 <= i < |m.segments| && ValidSegment(m.segments[i]) ==>
                  |r.segments[i]| == 14 && Unpack(r.segments[i]) == m.segments[i])
            && CarriesPair(m.vel, m.v, layer.velx, r.limits.vel)
            && CarriesPair(m.acc, m.a, layer.accx, r.limits.acc)
            && CarriesNumber(m.time, m.t, 0.0, r.limits.time)
            && CarriesInt(m.ref, r.ref) && CarriesInt(m.mode, r.mode)
            && r.sync == (if m.async then 1 else 0)
  {
    forall i | 0 <= i < |m.segments| && ValidSegment(m.segments[i])
      ensures |Pack(m.segments[i])| == 14 && Unpack(Pack(m.segments[i])) == m.segments[i]
    {
      PackRoundTrip(m.segments[i]);
    }
  }

  /** The argument is of a type the checks take: absent, a number or a list of two. */
  predicate PairTyped(long: Arg, short: Arg) {
    var given := if long == Absent then short else long;
    given == Absent || given.Number? || (given.Items? && |given.items| == 2)
  }

  predicate NumberTyped(long: Arg, short: Arg) {
    var given := if long == Absent then short else long;
    given == Absent || given.Number?
  }

  predicate LineTyped(m: LineArgs) {
    && m.pos.Items? && |m.pos.items| == 6 && PairTyped(m.vel, m.v) && PairTyped(m.acc, m.a)
    && NumberTyped(m.time, m.t) && NumberTyped(m.radius, m.r)
    && m.ref != NotInt && m.mode != NotInt && m.ra != NotInt
  }

  /** The pair given or stored has no negative item. */
  predicate PairInRange(long: Arg, short: Arg, stored: Pair) {
    var given := if long == Absent then short else long;
    match given
    case Absent => !NegativeItem(stored.first) && !NegativeItem(stored.second)
    case Number(x) => !NegativeItem(x)
    case Items(items) => |items| == 2 ==> !NegativeItem(items[0]) && !NegativeItem(items[1])
    case _ => true
  }

  predicate IntInRange(given: IntArg, low: int, high: int) {
    given.Int? ==> low <= given.i <= high
  }

  /** Whatever limits these arguments amount to, those without a time have positive pairs. */
  ghost predicate TimelessPositive(layer: Layer, vel: Arg, v: Arg, acc: Arg, a: Arg, time: Arg, t: Arg) {
    forall l: Limits ::
      CarriesPair(vel, v, layer.velx, l.vel) && CarriesPair(acc, a, layer.accx, l.acc)
      && CarriesNumber(time, t, 0.0, l.time) ==>
        (l.time == 0.0 || l.time == -10000.0 ==> PairPositive(l.vel) && PairPositive(l.acc))
  }

  /** As far as they are of the right types, the arguments of the move are in range. */
  ghost predicate LineValued(layer: Layer, m: LineArgs) {
    && PairInRange(m.vel, m.v, layer.velx) && PairInRange(m.acc, m.a, layer.accx)
    && TimeInRange(m.time, m.t, true) && TimelessPositive(layer, m.vel, m.v, m.acc, m.a, m.time, m.t)
    && (Param(m.radius, m.r).Number? ==> Param(m.radius, m.r).x >= 0.0)
    && IntInRange(m.ref, 0, 200) && IntInRange(m.mode, 0, 1) && IntInRange(m.ra, 0, 1)
  }

  predicate BlendTyped(m: BlendArgs) {
    && PairTyped(m.vel, m.v) && PairTyped(m.acc, m.a) && TimeTyped(m.time, m.t, false)
    && m.ref != NotInt && m.mode != NotInt
  }

  ghost predicate BlendValued(layer: Layer, m: BlendArgs) {
    && m.segments != [] && PairInRange(m.vel, m.v, layer.velx) && PairInRange(m.acc, m.a, layer.accx)
    && TimelessPositive(layer, m.vel, m.v, m.acc, m.a, m.time, m.t)
    && IntInRange(m.ref, 0, 200) && IntInRange(m.mode, 0, 1)
  }

  predicate TimeTyped(time: Arg, t: Arg, strictTime: bool) {
    Param(time, t) == Absent || (if strictTime then Param(time, t).Number? else HasTime(Param(time, t)))
  }

  predicate TimeInRange(time: Arg, t: Arg, strictTime: bool) {
    strictTime && Param(time, t).Number? ==> !NegativeItem(Param(time, t).x)
  }

  lemma PairFault(long: Arg, short: Arg, stored: Pair)
    ensures var r := ChosenPair(Param(long, short), stored);
            && (r == Err(TypeFault) <==> !PairTyped(long, short))
            && (r == Err(ValueFault) <==> PairTyped(long, short) && !PairInRange(long, short, stored))
            && (r.Ok? ==> forall p :: CarriesPair(long, short, stored, p) <==> p == r.value)
  {
  }

  /** Once the pairs and the time are settled, only the combined check is left. */
  lemma CombinedCheck(layer: Layer, vel: Arg, v: Arg, acc: Arg, a: Arg, time: Arg, t: Arg, l: Limits)
    requires forall p :: CarriesPair(vel, v, layer.velx, p) <==> p == l.vel
    requires forall p :: CarriesPair(acc, a, layer.accx, p) <==> p == l.acc
    requires forall x :: CarriesNumber(time, t, 0.0, x) <==> x == l.time
    ensures CheckTask(l) == if TimelessPositive(layer, vel, v, acc, a, time, t) then Ok(l) else Err(ValueFault)
  {
    assert CarriesPair(vel, v, layer.velx, l.vel) && CarriesPair(acc, a, layer.accx, l.acc);
    assert CarriesNumber(time, t, 0.0, l.time);
  }

  lemma LimitsFault(layer: Layer, vel: Arg, v: Arg, acc: Arg, a: Arg, time: Arg, t: Arg, strictTime: bool)
    ensures var r := ChosenLimits(layer, Param(vel, v), Param(acc, a), Param(time, t), strictTime);
            && (r.Ok? ==> PairTyped(vel, v) && PairTyped(acc, a) && TimeTyped(time, t, strictTime))
            && (r.Ok? ==>
                  && PairInRange(vel, v, layer.velx) && PairInRange(acc, a, layer.accx)
                  && TimeInRange(time, t, strictTime) && TimelessPositive(layer, vel, v, acc, a, time, t))
            && (r == Err(TypeFault) ==> !(PairTyped(vel, v) && PairTyped(acc, a) && TimeTyped(time, t, strictTime)))
            && (r == Err(ValueFault) ==>
                  !(&& PairInRange(vel, v, layer.velx) && PairInRange(acc, a, layer.accx)
                    && TimeInRange(time, t, strictTime) && TimelessPositive(layer, vel, v, acc, a, time, t)))
  {
    var p, q := ChosenPair(Param(vel, v), layer.velx), ChosenPair(Param(acc, a), layer.accx);
    PairFault(vel, v, layer.velx);
    PairFault(acc, a, layer.accx);
    if p.Ok? && q.Ok? && (Param(time, t) == Absent || HasTime(Param(time, t))) {
      var l := Limits(p.value, q.value, if Param(time, t) == Absent then 0.0 else Param(time, t).x);
      CombinedCheck(layer, vel, v, acc, a, time, t, l);
    }
  }

  /** What is wrong when a move is refused: a type error means that some argument is not of its type, a value error
      that some argument is out of range; one with neither fault is accepted, and no other. */
  lemma LineFault(layer: Layer, m: LineArgs)
    ensures LineRequest(layer, m).Ok? <==> LineTyped(m) && LineValued(layer, m)
    ensures LineRequest(layer, m) == Err(TypeFault) ==> !LineTyped(m)
    ensures LineRequest(layer, m) == Err(ValueFault) ==> !LineValued(layer, m)
  {
    LimitsFault(layer, m.vel, m.v, m.acc, m.a, m.time, m.t, true);
  }

  lemma BlendFault(layer: Layer, m: BlendArgs)
    ensures BlendRequest(layer, m).Ok? <==> BlendTyped(m) && BlendValued(layer, m)
    ensures BlendRequest(layer, m) == Err(TypeFault) ==> !BlendTyped(m)
    ensures BlendRequest(layer, m) == Err(ValueFault) ==> !BlendValued(layer, m)
  {
    LimitsFault(layer, m.vel, m.v, m.acc, m.a, m.time, m.t, false);
  }

  /** The setters accept exactly a positive number and one that is positive or the sentinel, and take them as given;
      a type error is raised only for an argument that is no number, a value error only for a number out of range. */
  lemma SetterExactly(one: Arg, two: Arg)
    ensures var r := CheckPair(one, two);
            && (r.Ok? <==> one.Number? && two.Number? && one.x > 0.0 && (two.x > 0.0 || two.x == -10000.0))
            && (r.Ok? ==> one == Number(r.value.first) && two == Number(r.value.second))
            && (r == Err(TypeFault) ==> !one.Number? || !two.Number?)
            && (r == Err(ValueFault) ==> (one.Number? && one.x <= 0.0) || (two.Number? && two.x <= 0.0))
  {
  }

  /** set_analog_output sends exactly the value given, on the channel given, if and only if the channel exists and
      its mode allows the value; set_mode_analog_output the mode given. */
  lemma AnalogExactly(layer: Layer, ch: IntArg, val: Arg, mod: IntArg)
    ensures var r := AnalogRequest(layer, ch, val);
            && (r.Ok? <==> && (ch == Int(1) || ch == Int(2)) && val.Number?
                           && InModeRange(if ch == Int(1) then layer.mode1 else layer.mode2, val.x))
            && (r.Ok? ==> r.value.AnalogValue? && Int(r.value.ch) == ch && Number(r.value.val) == val)
            && (r == Err(TypeFault) <==> !ch.Int? || !val.Number?)
    ensures var r := ModeRequest(ch, mod);
            && (r.Ok? <==> (ch == Int(1) || ch == Int(2)) && (mod == Int(0) || mod == Int(1)))
            && (r.Ok? ==> r.value.AnalogMode? && Int(r.value.ch) == ch && Int(r.value.mod) == mod)
            && (r == Err(TypeFault) <==> !ch.Int? || !mod.Int?)
  {
  }

  /** A call either raises and changes nothing, or sends at most one request, the last of the log, with everything
      sent before it as it was; only the setters send nothing. */
  lemma CallSendsAtMostOne(layer: Layer, c: Command)
    ensures var o := Do(layer, c);
            && (o.fault.Err? ==> o.layer == layer)
            && (o.fault.Ok? ==>
                  if c.SetVelx? || c.SetAccx? then o.layer.log == layer.log
                  else |o.layer.log| == |layer.log| + 1 && o.layer.log[..|layer.log|] == layer.log)
  {
  }

  /* ---- What moveb lets through and movel does not ---- */

  /** The times that movel refuses and float() accepts: negative numbers other than the sentinel, and whatever
      is neither an int nor a float. */
  predicate LaxTime(time: Arg) {
    time.Convertible? || (time.Number? && NegativeItem(time.x))
  }

  predicate BothPass(layer: Layer, vel: Arg, acc: Arg) {
    ChosenPair(vel, layer.velx).Ok? && ChosenPair(acc, layer.accx).Ok?
  }

  predicate BothPositive(layer: Layer, vel: Arg, acc: Arg)
    requires BothPass(layer, vel, acc)
  {
    PairPositive(ChosenPair(vel, layer.velx).value) && PairPositive(ChosenPair(acc, layer.accx).value)
  }

  /** moveb accepts these limits and movel does not: the pairs pass their own checks, the time is one that
      only movel refuses, and, if it counts as no time, the pairs are positive. */
  predicate OnlyBlendAccepts(layer: Layer, vel: Arg, acc: Arg, time: Arg) {
    BothPass(layer, vel, acc) && LaxTime(time) && (Timeless(time.x) ==> BothPositive(layer, vel, acc))
  }

  /** For every state of the globals and all arguments: the checks of moveb and movel come out differently if
      and only if velocity and acceleration pass and the time is one that only movel refuses; moveb accepts
      more exactly where such a time is not zero or the pairs are positive; and accepted limits carry a
      negative time if and only if one was given. */
  lemma TimeChecksDiffer(layer: Layer, vel: Arg, acc: Arg, time: Arg)
    ensures var strict, lax := ChosenLimits(layer, vel, acc, time, true), ChosenLimits(layer, vel, acc, time, false);
            && (lax != strict <==> BothPass(layer, vel, acc) && LaxTime(time))
            && (strict.Ok? ==> lax == strict)
            && (lax.Ok? && strict.Err? <==> OnlyBlendAccepts(layer, vel, acc, time))
            && (lax.Ok? ==> (NegativeItem(lax.value.time) <==> HasTime(time) && NegativeItem(time.x)))
  {
  }

  /** The move is otherwise in order: only its velocity, acceleration and time can make it fail. */
  predicate LineRestOk(m: LineArgs) {
    && m.pos.Items? && |m.pos.items| == 6
    && ChosenRadius(Param(m.radius, m.r)).Ok?
    && ChosenInt(m.ref, BASE, BASE, USER_MAX).Ok? && ChosenInt(m.mode, 0, 0, 1).Ok? && ChosenInt(m.ra, 0, 0, 1).Ok?
  }

  predicate BlendRestOk(m: BlendArgs) {
    m.segments != [] && ChosenInt(m.ref, BASE, BASE, USER_MAX).Ok? && ChosenInt(m.mode, 0, 0, 1).Ok?
  }

  /** The same velocity, acceleration and time for both commands. */
  predicate SameLimits(b: BlendArgs, m: LineArgs) {
    Param(b.vel, b.v) == Param(m.vel, m.v) && Param(b.acc, b.a) == Param(m.acc, m.a)
    && Param(b.time, b.t) == Param(m.time, m.t)
  }

  /** Given the same limits, moveb is sent wherever movel is; it is sent where movel is refused if and only if
      OnlyBlendAccepts them. */
  lemma BlendAcceptsNegativeTime(layer: Layer, b: BlendArgs, m: LineArgs)
    requires SameLimits(b, m) && LineRestOk(m) && BlendRestOk(b)
    ensures LineRequest(layer, m).Ok? ==> BlendRequest(layer, b).Ok?
    ensures BlendRequest(layer, b).Ok? && LineRequest(layer, m).Err? <==>
            OnlyBlendAccepts(layer, Param(b.vel, b.v), Param(b.acc, b.a), Param(b.time, b.t))
    ensures BlendRequest(layer, b).Ok? && HasTime(Param(b.time, b.t)) ==>
              BlendRequest(layer, b).value.limits.time == Param(b.time, b.t).x
  {
    TimeChecksDiffer(layer, Param(b.vel, b.v), Param(b.acc, b.a), Param(b.time, b.t));
  }

  /** moveb(segments, time=time): everything else left to its default. */
  function PlainBlend(segments: seq<Segment>, time: Arg, async: bool): BlendArgs {
    BlendArgs(segments, Absent, Absent, NoInt, time, NoInt, Absent, Absent, Absent, async)
  }

  /** After any run of calls and for every time t that float() accepts: a move that inherits its limits is
      refused by moveb if and only if it has no time and set_velx and set_accx have not both succeeded; movel
      refuses also every t that is negative or no int or float. A request that moveb sends carries limits that
      were never set, and hence never checked, if and only if the two settings have not both succeeded, which
      then is so only with a time. */
  lemma InheritedLimitsExactly(cs: seq<Command>, segments: seq<Segment>, pos: seq<real>, time: Arg, async: bool)
    requires segments != [] && |pos| == 6 && HasTime(time)
    ensures var layer, bothSet := Run(INITIAL, cs), LastVelx(cs).Ok? && LastAccx(cs).Ok?;
            var b := BlendRequest(layer, PlainBlend(segments, time, async));
            var m := LineRequest(layer, PlainLine(pos, async).(time := time));
            && (b.Ok? <==> (Timeless(time.x) ==> bothSet))
            && (m.Ok? <==> (Timeless(time.x) ==> bothSet) && !LaxTime(time))
            && (b.Ok? ==> b.value.limits.time == time.x
                          && (PairPositive(b.value.limits.vel) && PairPositive(b.value.limits.acc) <==> bothSet))
  {
    RunDefaults(cs);
  }

  /* ---- The checks, statement by statement ---- */

  /** Lines 2736-2756 and 2761-2781: choose the list, then look at each item. */
  method ChoosePair(arg: Arg, dflt: Pair) returns (r: Checked<Pair>)
    ensures r == ChosenPair(arg, dflt)
  {
    var items: seq<real>;
    if arg == Absent {
      items := [dflt.first, dflt.second];
    } else if arg.Number? {
      items := [0.0, 0.0];
      items := items[0 := arg.x];
      items := items[1 := COND_NONE];
    } else if arg.Items? && |arg.items| == 2 {
      items := arg.items;
    } else {
      return Err(TypeFault);
    }
    for i := 0 to |items|
      invariant forall j :: 0 <= j < i ==> !NegativeItem(items[j])
    {
      if items[i] < 0.0 && items[i] != COND_NONE {
        return Err(ValueFault);
      }
    }
    r := Ok(Pair(items[0], items[1]));
  }

  /** _check_valid_vel_acc_task */
  method CheckValidVelAccTask(vel: Pair, acc: Pair, time: real) returns (ok: bool)
    ensures ok <==> CheckTask(Limits(vel, acc, time)).Ok?
    ensures ok <==> (time == 0.0 || time == COND_NONE ==> PairPositive(vel) && PairPositive(acc))
  {
    if time == 0.0 || time == COND_NONE {
      if vel.first <= 0.0 {
        return false;
      } else if vel.second != COND_NONE && vel.second <= 0.0 {
        return false;
      }
      if acc.first <= 0.0 {
        return false;
      } else if acc.second != COND_NONE && acc.second <= 0.0 {
        return false;
      }
    }
    ok := true;
  }

  /** Lines 2735-2798: velocity, acceleration, time; only movel looks at the sign of the time. */
  method ChooseLimits(layer: Layer, velArg: Arg, accArg: Arg, timeArg: Arg, strictTime: bool)
    returns (r: Checked<Limits>)
    ensures r == ChosenLimits(layer, velArg, accArg, timeArg, strictTime)
    ensures r.Ok? ==> LimitsSafe(r.value)
    ensures r.Ok? ==> (NegativeItem(r.value.time) <==> !strictTime && HasTime(timeArg) && NegativeItem(timeArg.x))
    ensures r.Ok? && strictTime ==> timeArg == Absent || timeArg.Number?
    ensures velArg != Absent && accArg != Absent ==>
              forall other: Layer :: r == ChosenLimits(other, velArg, accArg, timeArg, strictTime)
  {
    var vel := ChoosePair(velArg, layer.velx);
    if vel.Err? { return Err(vel.error); }
    var acc := ChoosePair(accArg, layer.accx);
    if acc.Err? { return Err(acc.error); }
    var time := timeArg;
    if time == Absent { time := Number(0.0); }
    if strictTime {
      if !time.Number? { return Err(TypeFault); }
      if time.x < 0.0 && time.x != COND_NONE { return Err(ValueFault); }
    }
    if !HasTime(time) { return Err(TypeFault); }  // raised by float()
    var ok := CheckValidVelAccTask(vel.value, acc.value, time.x);
    if !ok { return Err(ValueFault); }
    r := Ok(Limits(vel.value, acc.value, time.x));
  }

  /** Lines 2801-2814. */
  method ChooseRadius(arg: Arg) returns (r: Checked<real>)
    ensures r == ChosenRadius(arg)
    ensures r.Ok? ==> r.value >= 0.0 && (arg == Absent ==> r.value == 0.0) && (arg.Number? ==> r.value == arg.x)
  {
    var radius := arg;
    if radius == Absent { radius := Number(0.0); }
    if !radius.Number? { return Err(TypeFault); }
    if radius.x < 0.0 { return Err(ValueFault); }
    r := Ok(radius.x);
  }

  /** Lines 2817-2841: an integer argument, its default and its range. */
  method ChooseInt(arg: IntArg, dflt: int, low: int, high: int) returns (r: Checked<int>)
    requires low <= dflt <= high
    ensures r == ChosenInt(arg, dflt, low, high)
    ensures r.Ok? ==> low <= r.value <= high && (arg == NoInt ==> r.value == dflt) && (arg.Int? ==> r.value == arg.i)
  {
    var i := if arg == NoInt then Int(dflt) else arg;
    if !i.Int? { return Err(TypeFault); }
    if i.i < low || i.i > high { return Err(ValueFault); }
    r := Ok(i.i);
  }

  /* ---- The module itself ---- */

  class Robot {
    var gVelx: Pair
    var gAccx: Pair
    var analogMode1: int
    var analogMode2: int
    var log: seq<Request>

    ghost function State(): Layer
      reads this
    {
      Layer(gVelx, gAccx, analogMode1, analogMode2, log)
    }

    constructor ()
      ensures State() == INITIAL
    {
      gVelx, gAccx := Pair(0.0, COND_NONE), Pair(0.0, COND_NONE);
      analogMode1, analogMode2, log := -1, -1, [];
    }

    method SetVelx(vel1: Arg, vel2: Arg) returns (fault: Checked<()>)
      modifies this`gVelx
      ensures Outcome(State(), fault) == Do(old(State()), Command.SetVelx(vel1, vel2))
    {
      if !vel1.Number? { return Err(TypeFault); }
      if vel1.x <= 0.0 { return Err(ValueFault); }
      if !vel2.Number? { return Err(TypeFault); }
      if vel2.x != COND_NONE {
        if vel2.x <= 0.0 { return Err(ValueFault); }
      }
      gVelx := Pair(vel1.x, vel2.x);
      fault := Ok(());
    }

    method SetAccx(acc1: Arg, acc2: Arg) returns (fault: Checked<()>)
      modifies this`gAccx
      ensures Outcome(State(), fault) == Do(old(State()), Command.SetAccx(acc1, acc2))
    {
      if !acc1.Number? { return Err(TypeFault); }
      if acc1.x <= 0.0 { return Err(ValueFault); }
      if !acc2.Number? { return Err(TypeFault); }
      if acc2.x != COND_NONE {
        if acc2.x <= 0.0 { return Err(ValueFault); }
      }
      gAccx := Pair(acc1.x, acc2.x);
      fault := Ok(());
    }

    method Send(r: Checked<Request>) returns (fault: Checked<()>)
      modifies this`log
      ensures Outcome(State(), fault) == Sent(old(State()), r)
    {
      if r.Err? { return Err(r.error); }
      log := log + [r.value];
      fault := Ok(());
    }

    /** _movel, lines 2731-2865. */
    method MoveL(m: LineArgs) returns (fault: Checked<()>)
      modifies this`log
      ensures Outcome(State(), fault) == Do(old(State()), Command.MoveL(m))
    {
      if !(m.pos.Items? && |m.pos.items| == 6) { return Err(TypeFault); }
      var layer := Layer(gVelx, gAccx, analogMode1, analogMode2, log);
      var limits := ChooseLimits(layer, Param(m.vel, m.v), Param(m.acc, m.a), Param(m.time, m.t), true);
      if limits.Err? { return Err(limits.error); }
      var radius := ChooseRadius(Param(m.radius, m.r));
      if radius.Err? { return Err(radius.error); }
      var ref := ChooseInt(m.ref, BASE, BASE, USER_MAX);
      if ref.Err? { return Err(ref.error); }
      var mode := ChooseInt(m.mode, 0, 0, 1);
      if mode.Err? { return Err(mode.error); }
      var ra := ChooseInt(m.ra, 0, 0, 1);
      if ra.Err? { return Err(ra.error); }
      var sentRadius := radius.value;
      if m.async { sentRadius := 0.0; }
      var sync := if m.async then 1 else 0;
      var request := MoveLine(m.pos.items, limits.value, sentRadius, ref.value, mode.value, ra.value, sync);
      fault := Send(Ok(request));
    }

    /** _moveb, lines 3348-3474, given the segment objects; packing them changes none of them. */
    method MoveB(segments: seq<Posb>, m: BlendArgs) returns (fault: Checked<()>)
      requires |m.segments| == |segments| && forall i :: 0 <= i < |segments| ==> m.segments[i] == segments[i].Value()
      modifies this`log
      ensures Outcome(State(), fault) == Do(old(State()), Command.MoveB(m))
    {
      if |segments| == 0 { return Err(ValueFault); }
      var records := PackSegments(segments);
      assert records == PackAll(m.segments);
      var layer := Layer(gVelx, gAccx, analogMode1, analogMode2, log);
      var limits := ChooseLimits(layer, Param(m.vel, m.v), Param(m.acc, m.a), Param(m.time, m.t), false);
      if limits.Err? { return Err(limits.error); }
      var ref := ChooseInt(m.ref, BASE, BASE, USER_MAX);
      if ref.Err? { return Err(ref.error); }
      var mode := ChooseInt(m.mode, 0, 0, 1);
      if mode.Err? { return Err(mode.error); }
      fault := Send(Ok(MoveBlending(records, limits.value, ref.value, mode.value, if m.async then 1 else 0)));
    }

    /** set_mode_analog_output */
    method SetModeAnalogOutput(ch: IntArg, mod: IntArg) returns (fault: Checked<()>)
      modifies this`log, this`analogMode1, this`analogMode2
      ensures Outcome(State(), fault) == Do(old(State()), Command.SetModeAnalogOutput(ch, mod))
    {
      if !ch.Int? || !mod.Int? { return Err(TypeFault); }
      if ch.i < 1 || ch.i > 2 { return Err(ValueFault); }
      if mod.i != ANALOG_CURRENT && mod.i != ANALOG_VOLTAGE { return Err(ValueFault); }
      if ch.i == 1 { analogMode1 := mod.i; }
      if ch.i == 2 { analogMode2 := mod.i; }
      fault := Send(Ok(AnalogMode(ch.i, mod.i)));
    }

    /** set_analog_output */
    method SetAnalogOutput(ch: IntArg, val: Arg) returns (fault: Checked<()>)
      modifies this`log
      ensures Outcome(State(), fault) == Do(old(State()), Command.SetAnalogOutput(ch, val))
    {
      if !ch.Int? { return Err(TypeFault); }
      if !val.Number? { return Err(TypeFault); }
      if ch.i < 1 || ch.i > 2 { return Err(ValueFault); }
      var mode := if ch.i == 1 then analogMode1 else analogMode2;
      if mode == ANALOG_CURRENT {
        if val.x < 4.0 || val.x > 20.0 { return Err(ValueFault); }
      } else if mode == ANALOG_VOLTAGE {
        if val.x < 0.0 || val.x > 10.0 { return Err(ValueFault); }
      } else {
        return Err(ValueFault);
      }
      fault := Send(Ok(AnalogValue(ch.i, val.x)));
    }
  }
}
