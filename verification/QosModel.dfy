/**
 The congestion controller of a download link, as a state and a step. It pings a host; while pings
 take too long it lowers the link's limit, otherwise it raises it as far as the load asks for it.
 Fractions are exact; a real assigned to an integer loses its fraction.
 */
module QosModel {
  datatype Mode = Check | Init | Active | Realtime | Idle

  /** The command line: ping interval in ms, bandwidth in kbps, ping limit in ms (0 if not given),
      and whether that limit is added to a measured one. */
  datatype Config = Config(period: nat, kbps: nat, limitMs: nat, add: bool)

  predicate Sane(c: Config) { 100 <= c.period <= 2000 && 100 <= c.kbps < 2147483 }

  /** The link's bandwidth in bps. */
  function Link(c: Config): nat { c.kbps * 1000 }

  function FloorLimit(c: Config): nat { c.kbps * 150 }

  /** What is seen in one tick: pongs received, the trip time, an error while scanning the classes,
      their number, whether realtime classes are active, and the load in bps. */
  datatype Input = Input(pongs: nat, trip: nat, error: bool, classes: nat, realtime: bool, load: int)

  datatype State = State(
    mode: Mode, first: bool, pingOn: bool, classes: nat, received: nat,
    filtered: int, pingLimit: int,
    known: int, limit: int, savedActive: int, savedRealtime: int,
    kernel: int)

  /** At the start the kernel's limit is whatever it was found to be. */
  function Start(c: Config, found: int): State {
    State(Check, true, false, 0, 0, 0, c.limitMs * 1000,
      Link(c), Whole(Link(c) as real * 0.9), Whole(Link(c) as real * 0.9), Whole(Link(c) as real * 0.9), found)
  }

  function Whole(x: real): int { if x >= 0.0 then x.Floor else -((-x).Floor) }

  function Quotient(a: int, b: int): int
    requires b > 0
  {
    if a >= 0 then a / b else -((-a) / b)
  }

  // ---------- The ping filter ----------

  /** The time constant is four intervals: 1000 * period / (4 * period + period). */
  function Alpha(period: nat): int
    requires period > 0
  {
    Whole((period as real * 1000.0) / ((period * 4 + period) as real))
  }

  function Filter(f: int, trip: nat, alpha: int): int { Quotient((trip * 1000 - f) * alpha, 1000) + f }

  // ---------- The limit ----------

  /** Tells the kernel, unless it was told so last. */
  function Modify(s: State, rate: int): State {
    if s.known == rate then s else s.(known := rate, kernel := rate)
  }

  /** The relative change for one error: k times the error's share of the limit, per second. */
  function Change(k: real, err: int, period: nat, p: int): real
    requires p > 0
  {
    k * err as real * period as real / p as real / 1000.0
  }

  function Times(limit: int, factor: real): real { limit as real * factor }

  function Scaled(limit: int, factor: real): int { Whole(Times(limit, factor)) }

  function Raised(limit: int, err: int, period: nat, plimit: int): int
    requires plimit > 0
  {
    Scaled(limit, 1.0 - Change(0.004, err, period, plimit))
  }

  function Lowered(limit: int, err: int, period: nat, plimit: int): int
    requires plimit > 0
  {
    Scaled(limit, 1.0 - Change(0.005, err, period, plimit))
  }

  /** The limit proposed after a ping error. */
  function Adjusted(c: Config, limit: int, filtered: int, plimit: int): int
    requires plimit > 0
  {
    var err := filtered - plimit;
    if err < 0 then
      var up := Raised(limit, err, c.period, plimit);
      if up > Link(c) then Link(c) else up
    else
      var down := Lowered(limit, if err > 2 * plimit then 2 * plimit else err, c.period, plimit);
      if (down as real) < Link(c) as real * 0.15 then Whole(Link(c) as real * 0.15) else down
  }

  // ---------- The states ----------

  function CheckStep(c: Config, s: State, i: Input): State {
    var s1 := s.(pingOn := true);
    if s.received < 2 then s1
    else if s.pingLimit != 0 && !c.add then
      Modify(s1.(known := 0), s.limit).(filtered := i.trip * 1000, mode := Idle)
    else Modify(s1, 1000).(received := 0, mode := Init)
  }

  function Clamped(x: int): int {
    if x < 10000 then 10000 else if x > 800000 then 800000 else x
  }

  function InitStep(c: Config, s: State, i: Input): State
    requires Sane(c)
  {
    var s1 := if s.received < 10000 / c.period + 1 then s.(filtered := i.trip * 1000) else s;
    if s.received > 15000 / c.period + 1 then
      var measured :=
        if c.add then Whole(s.pingLimit as real + s1.filtered as real * 1.1) else Whole(s1.filtered as real * 2.0);
      Modify(s1, s.limit).(mode := Idle, pingLimit := Clamped(measured))
    else s1
  }

  /** Which of the two modes is wanted, and the ping limit in it. */
  function Wanted(c: Config, i: Input): Mode { if !i.realtime && c.add then Active else Realtime }

  function LimitIn(c: Config, s: State, m: Mode): int {
    if m == Active then 135 * (c.limitMs * 1000) / 100 + s.pingLimit else s.pingLimit
  }

  function Saved(s: State): State {
    match s.mode
    case Realtime => s.(savedRealtime := s.limit)
    case Active => s.(savedActive := s.limit)
    case _ => s
  }

  /** Entering a mode brings back the limit last known to work in it. */
  function Entered(s: State, m: Mode): State {
    if s.mode == m then s
    else
      var limit := if m == Active then s.savedActive else s.savedRealtime;
      Modify(s.(mode := m, limit := limit), limit)
  }

  predicate Running(m: Mode) { m == Idle || m == Active || m == Realtime }

  /** Asleep below 15% of the link; asleep again below 10%; the limit is raised only if it is used. */
  function RunStep(c: Config, s: State, i: Input): State
    requires LimitIn(c, s, Wanted(c, i)) > 0
  {
    if s.mode == Idle && (i.load as real) < 0.15 * Link(c) as real then s.(pingOn := false)
    else
      var s1 := Entered(Saved(s.(pingOn := true)), Wanted(c, i));
      var plimit := LimitIn(c, s, Wanted(c, i));
      var s2 := if (i.load as real) < 0.1 * Link(c) as real then s1.(mode := Idle) else s1;
      if s.filtered < plimit && (i.load as real) < s2.known as real * 0.85 then s2
      else
        var limit := Adjusted(c, s2.limit, s.filtered, plimit);
        Modify(s2.(limit := limit), limit)
  }

  predicate Resets(s: State, i: Input) { i.error || (!s.first && s.classes != i.classes) }

  function Filtered(c: Config, s: State, i: Input): State
    requires Sane(c)
  {
    if s.pingOn then s.(filtered := Filter(s.filtered, i.trip, Alpha(c.period))) else s
  }

  /** Pongs are counted in sixteen bits. */
  function Counted(s: State, i: Input): State { s.(received := (s.received + i.pongs) % 65536) }

  function Dispatched(c: Config, s: State, i: Input): (t: State)
    requires Sane(c) && (Running(s.mode) ==> s.pingLimit > 0)
  {
    match s.mode
    case Check => CheckStep(c, s, i)
    case Init => InitStep(c, s, i)
    case _ => RunStep(c, s, i)
  }

  /** One pass of the main loop. */
  function Step(c: Config, s: State, i: Input): State
    requires Sane(c) && (Running(s.mode) ==> s.pingLimit > 0)
  {
    var s0 := Counted(s, i);
    if Resets(s0, i) then s0.(classes := i.classes, first := true, pingOn := false, mode := Check)
    else
      var s1 := Filtered(c, s0.(classes := i.classes), i);
      Dispatched(c, s1, i).(first := false)
  }

  /** The end: the kernel is told the link's bandwidth. */
  function Finish(c: Config, s: State): State { Modify(s, Link(c)) }
}
