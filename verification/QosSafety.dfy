/**
 What the controller keeps in every run: its limits stay within the dynamic range, the kernel has
 the limit it thinks it has, and one tick changes it by little.
 */
module QosSafety {
  import opened QosModel

  // ---------- Arithmetic ----------

  lemma WholeMeans(x: real)
    ensures x >= 0.0 ==> Whole(x) as real <= x < Whole(x) as real + 1.0 && Whole(x) >= 0
    ensures x <= 0.0 ==> Whole(x) as real - 1.0 < x <= Whole(x) as real && Whole(x) <= 0
  {
  }

  lemma NonNegative(a: real, b: real)
    requires a >= 0.0 && b >= 0.0
    ensures a * b >= 0.0
  {
  }

  lemma Positive(a: real, b: real)
    requires a > 0.0 && b > 0.0
    ensures a * b > 0.0
  {
  }

  /** Dividing by a positive number keeps the order. */
  lemma Cancel(q: real, b: real, p: real)
    requires p > 0.0
    ensures q * p <= b * p ==> q <= b
    ensures q * p >= b * p ==> q >= b
    ensures q * p > b * p ==> q > b
    ensures q * p < b * p ==> q < b
  {
    if q > b {
      Positive(q - b, p);
    } else if q < b {
      Positive(b - q, p);
    }
  }

  lemma Quotients(q: real, x: real, y: real)
    requires x > 0.0 && q * x == y
    ensures 0.0 <= y <= 2.0 * x ==> 0.0 <= q <= 2.0
    ensures -x <= y < 0.0 ==> -1.0 <= q < 0.0
    ensures y > 0.0 ==> q > 0.0
  {
    Cancel(q, 0.0, x);
    Cancel(q, 2.0, x);
    Cancel(q, -1.0, x);
  }

  lemma Share(e: int, p: int)
    requires p > 0
    ensures 0 <= e <= 2 * p ==> 0.0 <= e as real / p as real <= 2.0
    ensures -p <= e < 0 ==> -1.0 <= e as real / p as real < 0.0
    ensures e > 0 ==> e as real / p as real > 0.0
  {
    var x, y := p as real, e as real;
    assert (y / x) * x == y;
    Quotients(y / x, x, y);
    assert 2.0 * x == (2 * p) as real && -x == (-p) as real;
  }

  lemma Regroup(k: real, e: int, period: nat, p: int)
    requires p > 0
    ensures k * e as real * period as real / p as real / 1000.0 == k * (e as real / p as real) * (period as real / 1000.0)
  {
  }

  lemma Product(q: real, y: real)
    requires 0.1 <= y <= 2.0
    ensures 0.0 <= q <= 2.0 ==> 0.0 <= q * y <= 4.0
    ensures -1.0 <= q < 0.0 ==> -2.0 <= q * y < 0.0
    ensures q > 0.0 ==> q * y > 0.0
  {
    if 0.0 <= q <= 2.0 {
      NonNegative(2.0 - q, y);
      NonNegative(q, y);
      assert (2.0 - q) * y == 2.0 * y - q * y;
    } else if -1.0 <= q < 0.0 {
      NonNegative(q + 1.0, y);
      assert (q + 1.0) * y == q * y + y;
    }
  }

  lemma ChangeIs(k: real, err: int, period: nat, p: int)
    requires p > 0 && 100 <= period <= 2000
    ensures var qy := (err as real / p as real) * (period as real / 1000.0);
      && Change(k, err, period, p) == k * qy
      && (0 <= err <= 2 * p ==> 0.0 <= qy <= 4.0)
      && (-p <= err < 0 ==> -2.0 <= qy < 0.0)
      && (err > 0 ==> qy > 0.0)
  {
    Share(err, p);
    var q, y := err as real / p as real, period as real / 1000.0;
    Product(q, y);
    Regroup(k, err, period, p);
    assert k * q * y == k * (q * y);
  }

  lemma DownFactor(err: int, period: nat, p: int)
    requires p > 0 && 0 <= err <= 2 * p && 100 <= period <= 2000
    ensures 0.0 <= Change(0.005, err, period, p) <= 0.02
    ensures err > 0 ==> Change(0.005, err, period, p) > 0.0
  {
    ChangeIs(0.005, err, period, p);
  }

  lemma UpFactor(err: int, period: nat, p: int)
    requires p > 0 && -p <= err < 0 && 100 <= period <= 2000
    ensures -0.008 <= Change(0.004, err, period, p) < 0.0
  {
    ChangeIs(0.004, err, period, p);
  }

  lemma TimesSpec(limit: int, f: real)
    requires limit > 0
    ensures 0.98 <= f ==> Times(limit, f) >= limit as real * 0.98
    ensures f <= 1.0 ==> Times(limit, f) <= limit as real
    ensures f < 1.0 ==> Times(limit, f) < limit as real
    ensures 1.0 <= f ==> Times(limit, f) >= limit as real
    ensures f <= 1.008 ==> Times(limit, f) <= limit as real * 1.008
  {
    if 0.98 <= f { Monotone(limit as real, 0.98, f); }
    if f <= 1.008 { Monotone(limit as real, f, 1.008); }
  }

  lemma Monotone(x: real, f: real, g: real)
    requires x >= 0.0 && f <= g
    ensures x * f <= x * g
  {
    NonNegative(x, g - f);
  }

  lemma Rounded(limit: int, x: real)
    requires limit > 0 && x >= limit as real * 0.98
    ensures var l := Whole(x);
      && l as real > limit as real * 0.98 - 1.0 && l as real <= x
      && (x <= limit as real ==> l <= limit)
      && (x < limit as real ==> l < limit)
      && (x >= limit as real ==> l >= limit)
  {
    WholeMeans(x);
  }

  lemma ScaledSpec(limit: int, f: real)
    requires limit > 0 && f >= 0.98
    ensures var l := Scaled(limit, f);
      && l as real > limit as real * 0.98 - 1.0
      && (f <= 1.0 ==> l <= limit)
      && (f < 1.0 ==> l < limit)
      && (f >= 1.0 ==> l >= limit)
      && (f <= 1.008 ==> l as real <= limit as real * 1.008)
  {
    hide Whole, Times;
    TimesSpec(limit, f);
    Rounded(limit, Times(limit, f));
  }

  /** The proposed limit stays in the dynamic range; it rises by at most 0.8% and falls by at most
      2% and a fraction; it does not fall while pings are fast, and falls while they are slow. */
  lemma AdjustedSpec(c: Config, limit: int, filtered: int, plimit: int)
    requires Sane(c) && plimit > 0 && filtered >= 0 && FloorLimit(c) <= limit <= Link(c)
    ensures var l := Adjusted(c, limit, filtered, plimit);
      && FloorLimit(c) <= l <= Link(c)
      && l as real <= limit as real * 1.008
      && l as real > limit as real * 0.98 - 1.0
      && (filtered < plimit ==> l >= limit)
      && (filtered >= plimit ==> l <= limit)
      && (filtered > plimit ==> l < limit || l == FloorLimit(c) == limit)
  {
    hide Whole, Change, Scaled;
    var err := filtered - plimit;
    assert Link(c) as real * 0.15 == FloorLimit(c) as real;
    if err < 0 {
      UpFactor(err, c.period, plimit);
      ScaledSpec(limit, 1.0 - Change(0.004, err, c.period, plimit));
    } else {
      var e := if err > 2 * plimit then 2 * plimit else err;
      DownFactor(e, c.period, plimit);
      ScaledSpec(limit, 1.0 - Change(0.005, e, c.period, plimit));
      WholeMeans(FloorLimit(c) as real);
    }
  }

  lemma Scales(a: real, b: real, p: real)
    requires p > 0.0
    ensures a * b / p == a / p * b
  {
    var q := a / p;
    assert q * p == a;
    assert (q * b) * p == a * b;
  }

  /** The relative change written out, for an error of e. */
  lemma ChangeWritten(k: real, e: int, period: nat, p: int)
    requires p > 0
    ensures Change(k, e, period, p) == k * e as real / p as real * period as real / 1000.0
  {
    Scales(k * e as real, period as real, p as real);
  }

  lemma Negated(k: real, e: int, period: nat, p: int)
    requires p > 0
    ensures Change(k, -e, period, p) == -Change(k, e, period, p)
  {
    var a, b, x := k * e as real, period as real, p as real;
    assert k * (-e) as real == -a;
    assert (-a) * b == -(a * b);
    var q := a * b / x;
    assert q * x == a * b;
    assert (-q) * x == -(a * b);
    assert -(a * b) / x == -q;
  }

  /** What fast pings make of a limit, and slow ones. */
  function Risen(c: Config, limit: int, filtered: int, plimit: int): real
    requires plimit > 0
  {
    limit as real * (1.0 + 0.004 * (plimit - filtered) as real / plimit as real * c.period as real / 1000.0)
  }

  function Fallen(c: Config, limit: int, filtered: int, plimit: int): real
    requires plimit > 0
  {
    var excess := if filtered - plimit > 2 * plimit then 2 * plimit else filtered - plimit;
    limit as real * (1.0 - 0.005 * excess as real / plimit as real * c.period as real / 1000.0)
  }

  /** Main result: the new limit is, rounded down to whole bits, 0.4% a second above the old one for
      each ping limit the pings stay below it, but at most the link's bandwidth. */
  lemma RaisedTo(c: Config, limit: int, filtered: int, plimit: int)
    requires Sane(c) && 0 <= filtered < plimit && FloorLimit(c) <= limit <= Link(c)
    ensures var l := Adjusted(c, limit, filtered, plimit); var x := Risen(c, limit, filtered, plimit);
      && l as real <= x && l <= Link(c)
      && (l == Link(c) || x < l as real + 1.0)
  {
    hide Whole, Change;
    var err := filtered - plimit;
    ChangeWritten(0.004, -err, c.period, plimit);
    Negated(0.004, err, c.period, plimit);
    UpFactor(err, c.period, plimit);
    var f := 1.0 - Change(0.004, err, c.period, plimit);
    TimesSpec(limit, f);
    WholeMeans(Times(limit, f));
    assert Times(limit, f) == Risen(c, limit, filtered, plimit);
  }

  /** Main result: it is 0.5% a second below the old one for each ping limit the pings exceed it, two
      at most, but never less than 15% of the bandwidth. */
  lemma LoweredTo(c: Config, limit: int, filtered: int, plimit: int)
    requires Sane(c) && 0 < plimit <= filtered && FloorLimit(c) <= limit <= Link(c)
    ensures var l := Adjusted(c, limit, filtered, plimit); var y := Fallen(c, limit, filtered, plimit);
      && y < l as real + 1.0 && l >= FloorLimit(c)
      && (l == FloorLimit(c) || l as real <= y)
  {
    hide Whole, Change;
    var e := if filtered - plimit > 2 * plimit then 2 * plimit else filtered - plimit;
    assert Link(c) as real * 0.15 == FloorLimit(c) as real;
    ChangeWritten(0.005, e, c.period, plimit);
    DownFactor(e, c.period, plimit);
    var f := 1.0 - Change(0.005, e, c.period, plimit);
    TimesSpec(limit, f);
    WholeMeans(Times(limit, f));
    WholeMeans(FloorLimit(c) as real);
    assert Times(limit, f) == Fallen(c, limit, filtered, plimit);
  }

  // ---------- The ping filter ----------

  lemma AlphaIs200(period: nat)
    requires period > 0
    ensures Alpha(period) == 200
  {
    var p := period as real;
    assert (period * 4 + period) as real == 5.0 * p;
    assert (p * 1000.0) / (5.0 * p) == 200.0 by {
      assert 200.0 * (5.0 * p) == p * 1000.0;
    }
  }

  /** The filter moves towards the sample without passing it, by a fifth of the distance. */
  lemma FilterSpec(f: int, trip: nat)
    ensures var g := Filter(f, trip, 200);
      && (f <= trip * 1000 ==> f <= g <= trip * 1000)
      && (f >= trip * 1000 ==> trip * 1000 <= g <= f)
      && (g == f <==> -5 < trip * 1000 - f < 5)
      && 5 * (g - f) <= (trip * 1000 - f) + 4 && 5 * (g - f) >= (trip * 1000 - f) - 4
  {
    var gap := trip * 1000 - f;
    assert Quotient(gap * 200, 1000) == Quotient(gap, 5);
  }

  /** Every intermediate result fits a 32-bit integer. */
  lemma FilterFits(f: int, trip: nat, period: nat)
    requires trip <= period <= 2000 && 0 <= f <= 1000 * period
    ensures -0x8000_0000 <= (trip * 1000 - f) * 200 < 0x8000_0000
    ensures 0 <= Filter(f, trip, 200) <= 1000 * period
  {
    FilterSpec(f, trip);
  }

  function Repeated(f: int, trip: nat, n: nat): int {
    if n == 0 then f else Filter(Repeated(f, trip, n - 1), trip, 200)
  }

  function Distance(a: int, b: int): nat { if a < b then b - a else a - b }

  /** Under a constant sample the filter comes within 4 microseconds and stays there. */
  lemma {:induction false} Converges(f: int, trip: nat, n: nat)
    ensures Distance(Repeated(f, trip, n), trip * 1000) <= 4
      || Distance(Repeated(f, trip, n), trip * 1000) + n <= Distance(f, trip * 1000)
    ensures n >= Distance(f, trip * 1000) ==> Distance(Repeated(f, trip, n), trip * 1000) <= 4
  {
    if n > 0 {
      hide Filter;
      Converges(f, trip, n - 1);
      FilterSpec(Repeated(f, trip, n - 1), trip);
    }
  }

  // ---------- What is kept ----------

  predicate InRange(c: Config, l: int) { FloorLimit(c) <= l <= Link(c) }

  /** The kernel has the limit it was last told, unless nothing has been told it yet. */
  ghost predicate KernelKnows(c: Config, s: State, found: int) {
    s.kernel == s.known || (s.mode == Check && s.kernel == found && s.known == Link(c))
  }

  ghost predicate Inv(c: Config, s: State, found: int) {
    && InRange(c, s.limit) && InRange(c, s.savedActive) && InRange(c, s.savedRealtime)
    && (Running(s.mode) ==> s.known == s.kernel == s.limit)
    && KernelKnows(c, s, found)
    && 0 <= s.filtered <= 1000 * c.period
    && s.pingLimit >= 0 && (Running(s.mode) ==> s.pingLimit > 0)
  }

  lemma StartInv(c: Config, found: int)
    requires Sane(c)
    ensures Inv(c, Start(c, found), found)
  {
    assert Link(c) as real * 0.9 == (c.kbps * 900) as real;
    WholeMeans((c.kbps * 900) as real);
  }

  /** At the start every limit is 90% of the bandwidth, and the ping limit the one given. */
  lemma StartsAt(c: Config, found: int)
    ensures var s := Start(c, found);
      && s.mode == Check && s.first && !s.pingOn && s.received == 0 && s.filtered == 0
      && s.pingLimit == 1000 * c.limitMs && s.kernel == found && s.known == 1000 * c.kbps
      && 10 * s.limit == 9000 * c.kbps && s.savedActive == s.savedRealtime == s.limit
  {
    assert Link(c) as real * 0.9 == (c.kbps * 900) as real;
    WholeMeans((c.kbps * 900) as real);
  }

  lemma CheckKeeps(c: Config, s: State, i: Input, found: int)
    requires Sane(c) && Inv(c, s, found) && s.mode == Check && i.trip <= c.period
    ensures Inv(c, CheckStep(c, s, i), found)
  {
  }

  lemma InitKeeps(c: Config, s: State, i: Input, found: int)
    requires Sane(c) && Inv(c, s, found) && s.mode == Init && i.trip <= c.period
    ensures Inv(c, InitStep(c, s, i), found)
  {
    hide Whole;
  }

  // ---------- What the kernel is told ----------

  /** One rate after another is passed on. */
  function Told(s: State, rates: seq<int>): State {
    if rates == [] then s else Modify(Told(s, rates[..|rates| - 1]), rates[|rates| - 1])
  }

  lemma {:induction false} ToldSpec(s: State, rates: seq<int>)
    ensures var t := Told(s, rates);
      && t == s.(known := t.known, kernel := t.kernel)
      && t.known == (if rates == [] then s.known else rates[|rates| - 1])
      && (t.kernel == t.known <==> s.kernel == s.known || exists k :: 0 <= k < |rates| && rates[k] != s.known)
      && ((forall k :: 0 <= k < |rates| ==> rates[k] == s.known) ==> t == s)
  {
    if rates != [] {
      var front := rates[..|rates| - 1];
      ToldSpec(s, front);
      assert forall k :: 0 <= k < |rates| - 1 ==> rates[k] == front[k];
      if k :| 0 <= k < |front| && front[k] != s.known {
        assert rates[k] != s.known;
      }
      assert rates[|rates| - 1] == rates[|front|];
    }
  }

  /** After any rates were passed on, the kernel has the last of them exactly when it had the cached
      rate before, or one of them differed from that. */
  lemma KernelHasLastRate(s: State, rates: seq<int>)
    requires rates != []
    ensures Told(s, rates).kernel == rates[|rates| - 1] <==>
      s.kernel == s.known || exists k :: 0 <= k < |rates| && rates[k] != s.known
    ensures Told(s, rates) == s.(known := rates[|rates| - 1], kernel := Told(s, rates).kernel)
  {
    ToldSpec(s, rates);
  }

  /** The first state is left with the second pong. With a given ping limit the kernel then has the
      link's limit, whatever the cache says; otherwise it has 1000 bps, unless the cache already
      said so and was wrong, which no run from the start allows. */
  lemma ForcedUpdate(c: Config, s: State, i: Input)
    requires s.mode == Check
    ensures var t := CheckStep(c, s, i);
      && t.pingOn && t.limit == s.limit
      && (t.mode == Check <==> s.received < 2)
      && (t.mode == Check ==> t.kernel == s.kernel)
      && (t.mode == Idle <==> s.received >= 2 && s.pingLimit != 0 && !c.add)
      && (t.mode == Idle && s.limit != 0 ==> t.kernel == t.known == s.limit)
      && (t.mode == Init ==> (t.kernel == 1000 <==> s.known != 1000 || s.kernel == 1000))
    ensures Modify(s, s.limit).kernel == s.limit <==> s.known != s.limit || s.kernel == s.limit
  {
  }

  lemma EnteredKeeps(c: Config, s: State, m: Mode, found: int)
    requires Sane(c) && Inv(c, s, found) && Running(s.mode) && (m == Active || m == Realtime)
    ensures var t := Entered(Saved(s.(pingOn := true)), m);
      && Inv(c, t, found) && t.mode == m && t.pingLimit == s.pingLimit && t.filtered == s.filtered
      && (s.mode == m ==> t.limit == s.limit)
  {
  }

  lemma RunKeeps(c: Config, s: State, i: Input, found: int)
    requires Sane(c) && Inv(c, s, found) && Running(s.mode)
    ensures LimitIn(c, s, Wanted(c, i)) > 0
    ensures Inv(c, RunStep(c, s, i), found) && Running(RunStep(c, s, i).mode)
  {
    var m := Wanted(c, i);
    EnteredKeeps(c, s, m, found);
    hide Entered, Saved, Adjusted;
    var t := Entered(Saved(s.(pingOn := true)), m);
    AdjustedSpec(c, t.limit, s.filtered, LimitIn(c, s, m));
  }

  lemma FilteredKeeps(c: Config, s: State, i: Input, found: int)
    requires Sane(c) && Inv(c, s, found) && i.trip <= c.period
    ensures Inv(c, Filtered(c, s, i), found) && Filtered(c, s, i).mode == s.mode
  {
    hide Filter, Alpha;
    AlphaIs200(c.period);
    FilterFits(s.filtered, i.trip, c.period);
  }

  /** Every tick keeps the invariant. */
  lemma StepKeeps(c: Config, s: State, i: Input, found: int)
    requires Sane(c) && Inv(c, s, found) && i.trip <= c.period
    ensures Inv(c, Step(c, s, i), found)
  {
    var s0 := Counted(s, i);
    assert Inv(c, s0, found);
    if !Resets(s0, i) {
      hide Filtered, CheckStep, InitStep, RunStep;
      var s0' := s0.(classes := i.classes);
      assert Inv(c, s0', found);
      FilteredKeeps(c, s0', i, found);
      var s1 := Filtered(c, s0', i);
      match s1.mode
      case Check => CheckKeeps(c, s1, i, found);
      case Init => InitKeeps(c, s1, i, found);
      case _ => RunKeeps(c, s1, i, found);
    }
  }

  // ---------- A tick spelled out ----------

  /** With the `-a` switch the controller is in its active mode as long as no realtime class is active,
      and in every other case in its realtime mode. */
  function ModeFor(c: Config, i: Input): Mode { if c.add && !i.realtime then Active else Realtime }

  /** The pings it tolerates: what was measured, in the active mode with 135% of the given limit on top. */
  function Tolerated(c: Config, s: State, i: Input): int {
    s.pingLimit + if c.add && !i.realtime then c.limitMs * 1350 else 0
  }

  /** Something went wrong with the classes, or their number has changed. */
  predicate Disturbed(s: State, i: Input) { i.error || (!s.first && i.classes != s.classes) }

  /** A disturbed tick starts all over, but for the limits. */
  lemma DisturbedTick(c: Config, s: State, i: Input, found: int)
    requires Sane(c) && Inv(c, s, found) && i.trip <= c.period
    ensures var t := Step(c, s, i);
      if Disturbed(s, i)
      then t == s.(received := t.received, classes := i.classes, first := true, pingOn := false, mode := Check)
      else t.classes == i.classes && !t.first
    ensures Step(c, s, i).mode == Check ==> Step(c, s, i).received == (s.received + i.pongs) % 65536
  {
    hide Filter, Alpha, Adjusted, Whole;
    FilteredKeeps(c, Counted(s, i).(classes := i.classes), i, found);
  }

  // ---------- Runs ----------

  ghost predicate InputsOk(c: Config, seen: seq<Input>) { forall k :: 0 <= k < |seen| ==> seen[k].trip <= c.period }

  /** The state after the inputs, from the start. */
  ghost function After(c: Config, found: int, seen: seq<Input>): (s: State)
    requires Sane(c) && InputsOk(c, seen)
    ensures Inv(c, s, found)
  {
    if seen == [] then StartInv(c, found); Start(c, found)
    else
      var s := After(c, found, seen[..|seen| - 1]);
      StepKeeps(c, s, seen[|seen| - 1], found);
      Step(c, s, seen[|seen| - 1])
  }

  /** Main result: in every run all three limits stay within 15% and 100% of the link; while the
      controller is running the kernel enforces exactly its limit, so the load can always reach
      what wakes it; and at the end the kernel has the full bandwidth, or was never told anything. */
  lemma AlwaysSafe(c: Config, found: int, seen: seq<Input>)
    requires Sane(c) && InputsOk(c, seen)
    ensures var s := After(c, found, seen);
      && InRange(c, s.limit) && InRange(c, s.savedActive) && InRange(c, s.savedRealtime)
      && (Running(s.mode) ==> s.kernel == s.limit && s.kernel as real >= 0.15 * Link(c) as real)
      && (Finish(c, s).kernel == Link(c) || (s.mode == Check && s.kernel == found))
  {
    assert 0.15 * Link(c) as real == FloorLimit(c) as real;
  }

  /** A running tick that stays in its mode, or goes to sleep from it. */
  ghost predicate Steady(c: Config, s: State, i: Input) {
    s.mode == ModeFor(c, i) && !Disturbed(s, i)
  }

  /** Main result: without a mode switch one tick raises the limit by at most 0.8% and lowers it by
      at most 2% and a fraction, and it falls only when the filtered ping has reached the limit. */
  lemma SmallSteps(c: Config, s: State, i: Input, found: int)
    requires Sane(c) && Inv(c, s, found) && i.trip <= c.period && Steady(c, s, i)
    ensures var t := Step(c, s, i);
      && t.limit as real <= s.limit as real * 1.008
      && t.limit as real > s.limit as real * 0.98 - 1.0
      && (t.limit < s.limit ==> t.filtered >= Tolerated(c, s, i))
      && (t.limit > s.limit ==> i.load as real >= s.limit as real * 0.85)
  {
    var s1 := Filtered(c, Counted(s, i).(classes := i.classes), i);
    SteadyStep(c, s, i, s1, found);
    hide Step, Filtered, RunStep, Adjusted;
    AdjustedSpec(c, s.limit, s1.filtered, Tolerated(c, s, i));
  }

  /** Such a tick keeps the limit or adjusts it. */
  lemma SteadyStep(c: Config, s: State, i: Input, s1: State, found: int)
    requires Sane(c) && Inv(c, s, found) && i.trip <= c.period && Steady(c, s, i)
    requires s1 == Filtered(c, Counted(s, i).(classes := i.classes), i)
    ensures s1.filtered >= 0 && Tolerated(c, s, i) > 0 && Step(c, s, i).filtered == s1.filtered
    ensures if s1.filtered < Tolerated(c, s, i) && (i.load as real) < s.limit as real * 0.85
      then Step(c, s, i).limit == s.limit
      else Step(c, s, i).limit == Adjusted(c, s.limit, s1.filtered, Tolerated(c, s, i))
  {
    hide Adjusted, Filter, Alpha;
    AlphaIs200(c.period);
    FilterFits(s.filtered, i.trip, c.period);
  }

  /** Main result: while the filtered ping exceeds the limit in one mode, the link's limit strictly
      falls each tick until it is at its floor. */
  lemma SlowPingsLower(c: Config, s: State, i: Input, found: int)
    requires Sane(c) && Inv(c, s, found) && i.trip <= c.period && Steady(c, s, i)
    ensures Step(c, s, i).filtered > Tolerated(c, s, i) ==>
      Step(c, s, i).limit < s.limit || Step(c, s, i).limit == s.limit == FloorLimit(c)
  {
    var s1 := Filtered(c, Counted(s, i).(classes := i.classes), i);
    SteadyStep(c, s, i, s1, found);
    hide Step, Filtered, RunStep, Adjusted;
    AdjustedSpec(c, s.limit, s1.filtered, Tolerated(c, s, i));
  }

  /** Main result: what one tick makes of the limit. Fast pings raise it if at least 85% of it is used
      and leave it otherwise; slow ones lower it. */
  lemma TickLimit(c: Config, s: State, i: Input, found: int)
    requires Sane(c) && Inv(c, s, found) && i.trip <= c.period && Steady(c, s, i)
    ensures var t := Step(c, s, i); var p := Tolerated(c, s, i);
      p > 0 && t.filtered >= 0 &&
      if t.filtered < p && i.load as real < s.limit as real * 0.85 then t.limit == s.limit
      else if t.filtered < p then
        && t.limit as real <= Risen(c, s.limit, t.filtered, p) && t.limit <= Link(c)
        && (t.limit == Link(c) || Risen(c, s.limit, t.filtered, p) < t.limit as real + 1.0)
      else
        && Fallen(c, s.limit, t.filtered, p) < t.limit as real + 1.0 && t.limit >= FloorLimit(c)
        && (t.limit == FloorLimit(c) || t.limit as real <= Fallen(c, s.limit, t.filtered, p))
  {
    var s1 := Filtered(c, Counted(s, i).(classes := i.classes), i);
    SteadyStep(c, s, i, s1, found);
    hide Step, Filtered, RunStep, Adjusted, Risen, Fallen;
    if s1.filtered < Tolerated(c, s, i) {
      RaisedTo(c, s.limit, s1.filtered, Tolerated(c, s, i));
    } else {
      LoweredTo(c, s.limit, s1.filtered, Tolerated(c, s, i));
    }
  }

  /** The state after further inputs. */
  ghost function Onwards(c: Config, s: State, seen: seq<Input>, found: int): (t: State)
    requires Sane(c) && InputsOk(c, seen) && Inv(c, s, found)
    ensures Inv(c, t, found)
    decreases |seen|
  {
    if seen == [] then s
    else
      StepKeeps(c, s, seen[0], found);
      Onwards(c, Step(c, s, seen[0]), seen[1..], found)
  }

  /** Ticks of one mode, all with a filtered ping above the limit. */
  ghost predicate SlowRun(c: Config, s: State, m: Mode, seen: seq<Input>, found: int)
    requires Sane(c) && InputsOk(c, seen) && Inv(c, s, found)
    decreases |seen|
  {
    seen == [] ||
      (StepKeeps(c, s, seen[0], found);
       var t := Step(c, s, seen[0]);
       && s.mode == m && Steady(c, s, seen[0]) && t.filtered > Tolerated(c, s, seen[0])
       && SlowRun(c, t, m, seen[1..], found))
  }

  /** Slow pings bring the limit down by at least one with every tick, and so to its floor. */
  lemma {:induction false} SlowRunReachesFloor(c: Config, s: State, m: Mode, seen: seq<Input>, found: int)
    requires Sane(c) && InputsOk(c, seen) && Inv(c, s, found) && SlowRun(c, s, m, seen, found)
    ensures var t := Onwards(c, s, seen, found);
      t.limit == FloorLimit(c) || t.limit + |seen| <= s.limit
    ensures |seen| > Link(c) - FloorLimit(c) ==> Onwards(c, s, seen, found).limit == FloorLimit(c)
    decreases |seen|
  {
    hide Step, Steady;
    if seen != [] {
      StepKeeps(c, s, seen[0], found);
      SlowPingsLower(c, s, seen[0], found);
      SlowRunReachesFloor(c, Step(c, s, seen[0]), m, seen[1..], found);
    }
  }

  /** Ticks of one mode with fast pings, the limit in use, and a rise of a whole bit or more due. */
  ghost predicate FastRun(c: Config, s: State, m: Mode, seen: seq<Input>, found: int)
    requires Sane(c) && InputsOk(c, seen) && Inv(c, s, found)
    decreases |seen|
  {
    seen == [] ||
      (StepKeeps(c, s, seen[0], found);
       var t := Step(c, s, seen[0]);
       && s.mode == m && Steady(c, s, seen[0])
       && t.filtered < Tolerated(c, s, seen[0]) && seen[0].load as real >= s.limit as real * 0.85
       && Risen(c, s.limit, t.filtered, Tolerated(c, s, seen[0])) >= s.limit as real + 1.0
       && FastRun(c, t, m, seen[1..], found))
  }

  /** Main result: after congestion, fast pings on a link in use bring the limit back up, to the full
      bandwidth in a bounded number of ticks. */
  lemma {:induction false} FastRunReachesLink(c: Config, s: State, m: Mode, seen: seq<Input>, found: int)
    requires Sane(c) && InputsOk(c, seen) && Inv(c, s, found) && FastRun(c, s, m, seen, found)
    ensures var t := Onwards(c, s, seen, found);
      (t.limit == Link(c) && seen != []) || t.limit >= s.limit + |seen|
    ensures |seen| > Link(c) - FloorLimit(c) ==> Onwards(c, s, seen, found).limit == Link(c)
    decreases |seen|
  {
    hide Step, Steady, Risen, Fallen, Tolerated;
    if seen != [] {
      StepKeeps(c, s, seen[0], found);
      TickLimit(c, s, seen[0], found);
      FastRunReachesLink(c, Step(c, s, seen[0]), m, seen[1..], found);
    }
  }

  /** With pings of half the tolerated time or less, every limit rises by a whole bit or more. */
  lemma HalfIsEnough(c: Config, limit: int, filtered: int, plimit: int)
    requires Sane(c) && 0 <= 2 * filtered <= plimit && plimit > 0 && FloorLimit(c) <= limit
    ensures Risen(c, limit, filtered, plimit) >= limit as real + 1.0
  {
    var g := (plimit - filtered) as real / plimit as real;
    assert g * plimit as real == (plimit - filtered) as real;
    Cancel(0.5, g, plimit as real);
    Scales(0.004 * (plimit - filtered) as real, 1.0, plimit as real);
    var rate := 0.004 * (plimit - filtered) as real / plimit as real;
    assert rate == 0.004 * g;
    var x := c.period as real / 1000.0;
    assert rate * c.period as real / 1000.0 == rate * x;
    Monotone(rate, 0.1, x);
    assert rate * 0.1 >= 0.0002;
    Monotone(limit as real, 0.0002, rate * x);
    assert limit as real >= 15000.0;
  }

  // ---------- The first state ----------

  function Pongs(seen: seq<Input>): nat { if seen == [] then 0 else seen[0].pongs + Pongs(seen[1..]) }

  /** Nothing resets the controller: no error, and the classes stay as they are. */
  predicate Calm(s: State, seen: seq<Input>, classes: nat) {
    && (s.first || s.classes == classes)
    && forall k :: 0 <= k < |seen| ==> !seen[k].error && seen[k].classes == classes
  }

  lemma CalmTick(c: Config, s: State, i: Input, classes: nat, found: int)
    requires Sane(c) && Inv(c, s, found) && i.trip <= c.period && Calm(s, [i], classes)
    ensures var t := Step(c, s, i);
      && !t.first && t.classes == classes
      && (s.mode != Check ==> t.mode != Check)
      && (s.mode == Check && s.received + i.pongs < 65536 ==> (t.mode == Check <==> s.received + i.pongs < 2))
      && (t.mode == Check ==> t.limit == s.limit && t.pingLimit == s.pingLimit && t.received == (s.received + i.pongs) % 65536)
      && (s.mode == Check && t.mode != Check ==> t.kernel == t.known == if s.pingLimit != 0 && !c.add then s.limit else 1000)
  {
    hide Filter, Alpha, RunStep, InitStep;
    assert [i][0] == i;
    var s1 := Filtered(c, Counted(s, i).(classes := i.classes), i);
    if s.mode == Check {
      FilteredKeeps(c, Counted(s, i).(classes := i.classes), i, found);
    } else if s.mode == Init {
      InitNotCheck(c, s1, i);
    } else {
      RunNotCheck(c, s1, i);
    }
  }

  lemma InitNotCheck(c: Config, s: State, i: Input)
    requires Sane(c) && s.mode == Init
    ensures var t := InitStep(c, s, i); t.mode != Check && t.classes == s.classes && t.first == s.first
  {
    hide Whole;
  }

  lemma RunNotCheck(c: Config, s: State, i: Input)
    requires Running(s.mode) && Tolerated(c, s, i) > 0
    ensures var t := RunStep(c, s, i);
      t.mode != Check && t.classes == s.classes && t.first == s.first && t.filtered == s.filtered
  {
    hide Adjusted;
  }

  lemma {:induction false} NeverBack(c: Config, s: State, seen: seq<Input>, classes: nat, found: int)
    requires Sane(c) && InputsOk(c, seen) && Inv(c, s, found) && Calm(s, seen, classes) && s.mode != Check
    ensures Onwards(c, s, seen, found).mode != Check
    decreases |seen|
  {
    hide Step;
    if seen != [] {
      StepKeeps(c, s, seen[0], found);
      CalmTick(c, s, seen[0], classes, found);
      NeverBack(c, Step(c, s, seen[0]), seen[1..], classes, found);
    }
  }

  /** Undisturbed, the controller is in its first state exactly until two pongs have come, and never
      again after that; with the tick that brings the second the kernel gets the link's limit if a
      ping limit was given, and 1000 bps for the measurement otherwise. */
  lemma {:induction false} LeavesWhenAnswered(c: Config, s: State, seen: seq<Input>, classes: nat, found: int)
    requires Sane(c) && InputsOk(c, seen) && Inv(c, s, found) && Calm(s, seen, classes) && s.mode == Check
    requires s.received + Pongs(seen) < 65536
    ensures var t := Onwards(c, s, seen, found);
      && (t.mode == Check <==> seen == [] || s.received + Pongs(seen) < 2)
      && (seen != [] && s.received + Pongs(seen[..|seen| - 1]) < 2 <= s.received + Pongs(seen) ==>
            t.kernel == t.known == if s.pingLimit != 0 && !c.add then s.limit else 1000)
    decreases |seen|
  {
    hide Step;
    if seen != [] {
      StepKeeps(c, s, seen[0], found);
      CalmTick(c, s, seen[0], classes, found);
      var t := Step(c, s, seen[0]);
      if t.mode == Check {
        LeavesWhenAnswered(c, t, seen[1..], classes, found);
        if |seen| > 1 {
          assert seen[..|seen| - 1][1..] == seen[1..][..|seen| - 2];
        }
      } else {
        NeverBack(c, t, seen[1..], classes, found);
        assert |seen| > 1 ==> Pongs(seen[..|seen| - 1]) >= seen[0].pongs;
      }
    }
  }

  // ---------- The filtered ping ----------

  /** The filtered ping goes a fifth of the way from f to the trip time, to within 4 microseconds. */
  predicate Follows(f: int, trip: nat, g: int) {
    && -4 <= 5 * (g - f) - (1000 * trip - f) <= 4
    && (f <= g <= 1000 * trip || 1000 * trip <= g <= f)
  }

  /** What one tick makes of the filtered ping: a running controller follows the trip times while it
      pings and keeps the value otherwise; it starts from the trip that brings the second pong, or
      goes to measure with the count of pongs at zero. */
  lemma TickPing(c: Config, s: State, i: Input, found: int)
    requires Sane(c) && Inv(c, s, found) && i.trip <= c.period && !Disturbed(s, i)
    ensures var t := Step(c, s, i);
      && (Running(s.mode) && !s.pingOn ==> t.filtered == s.filtered)
      && (Running(s.mode) && s.pingOn ==> Follows(s.filtered, i.trip, t.filtered))
      && (s.mode == Check && t.mode == Idle ==> t.filtered == 1000 * i.trip)
      && (s.mode == Check && t.mode == Init ==> t.received == 0)
  {
    hide Filter, Alpha, Adjusted, Whole;
    AlphaIs200(c.period);
    FilterFits(s.filtered, i.trip, c.period);
    FilterSpec(s.filtered, i.trip);
    if Running(s.mode) {
      hide RunStep;
      var s1 := Filtered(c, Counted(s, i).(classes := i.classes), i);
      RunNotCheck(c, s1, i);
    }
  }

  // ---------- Modes ----------

  function SavedIn(s: State, m: Mode): int { if m == Active then s.savedActive else s.savedRealtime }

  /** Switching modes saves the limit of the mode left, keeps what was saved for the mode entered,
      and goes on from that. */
  lemma SwitchRemembers(c: Config, s: State, i: Input, found: int)
    requires Sane(c) && Inv(c, s, found) && i.trip <= c.period && !Disturbed(s, i)
    requires (s.mode == Active && ModeFor(c, i) == Realtime) || (s.mode == Realtime && ModeFor(c, i) == Active)
    ensures var t := Step(c, s, i); var was := SavedIn(s, ModeFor(c, i));
      && SavedIn(t, s.mode) == s.limit && SavedIn(t, ModeFor(c, i)) == was
      && t.limit as real <= was as real * 1.008 && t.limit as real > was as real * 0.98 - 1.0
  {
    hide Filtered, Adjusted;
    var s1 := Filtered(c, Counted(s, i).(classes := i.classes), i);
    FilteredKeeps(c, Counted(s, i).(classes := i.classes), i, found);
    FilteredOnly(c, Counted(s, i).(classes := i.classes), i);
    AdjustedSpec(c, SavedIn(s, ModeFor(c, i)), s1.filtered, Tolerated(c, s1, i));
  }

  /** The filter touches nothing else. */
  lemma FilteredOnly(c: Config, s: State, i: Input)
    requires Sane(c)
    ensures Filtered(c, s, i) == s.(filtered := Filtered(c, s, i).filtered)
  {
    hide Filter, Alpha;
  }

  /** What is saved for a mode changes only while the controller is in it. */
  lemma SavedElsewhere(c: Config, s: State, i: Input, m: Mode)
    requires Sane(c) && (Running(s.mode) ==> s.pingLimit > 0) && (m == Active || m == Realtime) && s.mode != m
    ensures SavedIn(Step(c, s, i), m) == SavedIn(s, m)
  {
    hide Filter, Alpha, Adjusted, Whole;
  }

  /** Over any run spent in other modes the limit saved for a mode stays. */
  lemma {:induction false} SavedKept(c: Config, s: State, m: Mode, seen: seq<Input>, found: int)
    requires Sane(c) && InputsOk(c, seen) && Inv(c, s, found) && (m == Active || m == Realtime)
    requires forall k :: 0 <= k < |seen| ==> InputsOk(c, seen[..k]) && Onwards(c, s, seen[..k], found).mode != m
    ensures SavedIn(Onwards(c, s, seen, found), m) == SavedIn(s, m)
    decreases |seen|
  {
    if seen != [] {
      hide Step;
      assert seen[..0] == [] && Onwards(c, s, seen[..0], found) == s;
      StepKeeps(c, s, seen[0], found);
      var t := Step(c, s, seen[0]);
      SavedElsewhere(c, s, seen[0], m);
      forall k | 0 <= k < |seen[1..]|
        ensures InputsOk(c, seen[1..][..k]) && Onwards(c, t, seen[1..][..k], found).mode != m
      {
        assert seen[..k + 1][1..] == seen[1..][..k] && seen[..k + 1][0] == seen[0];
        assert Onwards(c, s, seen[..k + 1], found).mode != m;
      }
      SavedKept(c, t, m, seen[1..], found);
    }
  }

  /** From sleep the controller wakes exactly when the load reaches 15% of the link, which every
      limit it can have lets through. Asleep, it neither pings nor changes a limit. */
  lemma WakesOnLoad(c: Config, s: State, i: Input, found: int)
    requires Sane(c) && Inv(c, s, found) && i.trip <= c.period && !Disturbed(s, i) && s.mode == Idle
    ensures var t := Step(c, s, i);
      && (t.mode != Idle <==> i.load as real >= 0.15 * Link(c) as real)
      && (t.mode != Idle ==> t.mode == ModeFor(c, i) && t.pingOn)
      && (t.mode == Idle ==> !t.pingOn && t.limit == s.limit && t.kernel == s.kernel)
      && (i.load >= s.kernel ==> t.mode != Idle)
  {
    hide Filter, Alpha, Adjusted;
    assert 0.15 * Link(c) as real == FloorLimit(c) as real && 0.1 * Link(c) as real == (c.kbps * 100) as real;
  }

  /** From a mode it goes to sleep exactly when the load is below 10% of the link. */
  lemma SleepsWithoutLoad(c: Config, s: State, i: Input, found: int)
    requires Sane(c) && Inv(c, s, found) && i.trip <= c.period && Steady(c, s, i)
    ensures Step(c, s, i).mode == if (i.load as real) < 0.1 * Link(c) as real then Idle else s.mode
  {
    hide Filter, Alpha, Adjusted;
  }

  /** The measuring state takes the pings as they come for ten seconds, then filters them; it ends
      after fifteen, when the ping limit is twice the filtered ping, or with the `-a` switch 1.1 times
      that on top of the limit before, within 10 and 800 ms, and the link gets its own limit back. */
  lemma MeasuredLimit(c: Config, s: State, i: Input, found: int)
    requires Sane(c) && Inv(c, s, found) && s.mode == Init
    ensures var t := InitStep(c, s, i);
      && t.filtered == (if s.received <= 10000 / c.period then i.trip * 1000 else s.filtered)
      && (t.mode == Idle || t == s.(filtered := t.filtered))
      && (t.mode == Idle <==> s.received > 15000 / c.period + 1)
    ensures var t := InitStep(c, s, i);
      t.mode == Idle ==>
        10000 <= t.pingLimit <= 800000 && t.kernel == t.limit == s.limit && s.received * c.period > 15000
    ensures var t := InitStep(c, s, i);
      t.mode == Idle && !c.add ==>
        t.pingLimit == if 2 * t.filtered < 10000 then 10000 else if 2 * t.filtered > 800000 then 800000 else 2 * t.filtered
    ensures var t := InitStep(c, s, i); var x := s.pingLimit as real + 1.1 * t.filtered as real;
      t.mode == Idle && c.add ==>
        && (t.pingLimit as real <= x || t.pingLimit == 10000)
        && (x < t.pingLimit as real + 1.0 || t.pingLimit == 800000)
  {
    hide Whole;
    var f := if s.received < 10000 / c.period + 1 then i.trip * 1000 else s.filtered;
    WholeMeans(f as real * 2.0);
    assert f as real * 2.0 == (2 * f) as real;
    WholeMeans(s.pingLimit as real + f as real * 1.1);
    if s.received > 15000 / c.period + 1 {
      EnoughPongs(s.received, c.period);
    }
  }

  lemma EnoughPongs(n: nat, period: nat)
    requires period > 0 && n > 15000 / period + 1
    ensures n * period > 15000
  {
    var q := 15000 / period;
    assert 15000 < (q + 1) * period;
    assert n * period >= (q + 2) * period by {
      Ordered(q + 2, n, period);
    }
    Ordered(q + 1, q + 2, period);
  }

  lemma Ordered(a: nat, b: nat, p: nat)
    requires a <= b
    ensures a * p <= b * p
  {
    assert (b - a) * p >= 0;
    assert (b - a) * p == b * p - a * p;
  }

  /** Measuring again after a reset adds to the ping limit found before; it never lowers it. */
  lemma RemeasuringNeverLowers(c: Config, s: State, i: Input, found: int)
    requires Sane(c) && Inv(c, s, found) && i.trip <= c.period && c.add && s.mode == Init && s.pingLimit <= 800000
    ensures var t := InitStep(c, s, i);
      t.mode == Idle ==>
        && s.pingLimit <= t.pingLimit <= 800000
        && (t.pingLimit < 800000 ==> (t.pingLimit + 1) as real > s.pingLimit as real + t.filtered as real * 1.1)
  {
    hide Whole;
    var f := if s.received < 10000 / c.period + 1 then i.trip * 1000 else s.filtered;
    WholeMeans(s.pingLimit as real + f as real * 1.1);
  }
}
