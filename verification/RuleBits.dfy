/**
 How the bits of a block change: each dimension's rules touch its own bit, the single tests share
 one more, and the last rules compare the whole byte. A test may itself read the connection mark,
 and then it reads the bits that have been set by the time its rule runs.
 */
module RuleBits {
  import opened Common
  import opened MarkBits
  import opened Netfilter
  import opened RuleCompiler
  import opened RuleMeaning

  predicate TcpOrUdp(p: Packet) { p.proto == Tcp || p.proto == Udp }

  /** Only TCP and UDP packets have ports. */
  ghost predicate Sensible(p: Packet) { TcpOrUdp(p) || forall v :: !p.holds(SrcPort(v)) && !p.holds(DstPort(v)) }

  /** The protocol guards let the packet through. */
  predicate Passes(scope: Scope, guard: bool, p: Packet) {
    InScope(scope, p) && (scope == Both && guard ==> TcpOrUdp(p))
  }

  /** The marks agree below the high byte. */
  predicate SameLow(m: Bits, m': Bits) { m - HIGH == m' - HIGH }

  // ---------- Guards ----------

  /** A guarded rule fires on a packet the guards let through when its tests hold. */
  lemma GuardedRun(ls: seq<Literal>, bits: Bits, mask: Bits, scope: Scope, guard: bool, p: Packet, m: Bits)
    ensures Run(Guarded(ls, SetMark(bits, mask), scope, guard), p, m)
         == (None, if Passes(scope, guard, p) && AllHold(ls, p, m) then Masked(m, bits, mask) else m)
  {
    hide AllHold;
    var rs := Guarded(ls, SetMark(bits, mask), scope, guard);
    var m1 := if Fires(rs[0], p, m) then Masked(m, bits, mask) else m;
    assert Run(rs[1..], p, m1) == if |rs| == 1 then (None, m1) else
        (None, if Fires(rs[1], p, m1) then Masked(m1, bits, mask) else m1) by {
      if |rs| == 2 {
        assert rs[1..] == [rs[1]] && [rs[1]][1..] == [];
      } else {
        assert rs[1..] == [];
      }
    }
  }

  // ---------- One dimension ----------

  ghost predicate Hit(ts: seq<Test>, scope: Scope, p: Packet, m: Bits) {
    InScope(scope, p) && AnyHolds(ts, p, m)
  }

  function DimBits(neg: bool, i: nat): Bits { if neg then {} else {24 + i} }

  /** The rules of a dimension touch its bit alone, and exactly when some value matches the mark
      they begin with: what a test reads changes only when the bit is already decided. */
  lemma {:induction false} ValueRun(ts: seq<Test>, neg: bool, i: nat, scope: Scope, guard: bool, p: Packet, m: Bits)
    requires Sensible(p) && (guard ==> OnlyPorts(ts))
    ensures Run(ValueRules(ts, neg, i, scope, guard), p, m)
         == (None, if Hit(ts, scope, p, m) then Masked(m, DimBits(neg, i), {24 + i}) else m)
    decreases |ts|
  {
    if ts != [] {
      hide Run, Guarded, AnyHolds;
      var ls := [Lit(ts[0], false)];
      var head := Guarded(ls, BitAction(neg, i), scope, guard);
      var m1 := Run(head, p, m).1;
      RunConcat(head, ValueRules(ts[1..], neg, i, scope, guard), p, m);
      GuardedRun(ls, DimBits(neg, i), {24 + i}, scope, guard, p, m);
      ValueRun(ts[1..], neg, i, scope, guard, p, m1);
      AnyStep(ts, p, m);
      assert AllHold(ls, p, m) <==> LitHolds(ls[0], p, m);
      assert Masked(Masked(m, DimBits(neg, i), {24 + i}), DimBits(neg, i), {24 + i}) == Masked(m, DimBits(neg, i), {24 + i});
    } else {
      NoneHolds(p, m);
    }
  }

  lemma AnyStep(ts: seq<Test>, p: Packet, m: Bits)
    requires ts != []
    ensures AnyHolds(ts, p, m) <==> TestHolds(ts[0], p, m) || AnyHolds(ts[1..], p, m)
  {
    assert ts == [ts[0]] + ts[1..];
    AnyConcat([ts[0]], ts[1..], p, m);
    assert AnyHolds([ts[0]], p, m) <==> TestHolds(ts[0], p, m) by {
      if TestHolds(ts[0], p, m) { assert TestHolds([ts[0]][0], p, m); }
    }
  }

  // ---------- All dimensions ----------

  /** The bit a dimension leaves, from the bit and the mark it found. */
  ghost predicate BitAfter(d: Dim, was: bool, scope: Scope, p: Packet, m: Bits) {
    if !d.multi then was
    else if d.neg then was && !Hit(d.tests, scope, p, m)
    else was || Hit(d.tests, scope, p, m)
  }

  lemma DimRun(d: Dim, i: nat, scope: Scope, p: Packet, m: Bits)
    requires Sensible(p) && (d.ports ==> OnlyPorts(d.tests))
    ensures var r := Run(DimRules(d, i, scope), p, m);
      && r.0.None?
      && (forall b :: b != 24 + i ==> (b in r.1 <==> b in m))
      && (24 + i in r.1 <==> BitAfter(d, 24 + i in m, scope, p, m))
  {
    if d.multi {
      ValueRun(d.tests, d.neg, i, scope, d.ports, p, m);
    }
  }

  lemma {:induction false} MultiRunFrame(ds: seq<Dim>, i: nat, scope: Scope, p: Packet, m: Bits)
    requires Sensible(p) && PortDims(ds)
    ensures var r := Run(MultiRules(ds, i, scope), p, m);
      r.0.None? && forall b :: !(24 + i <= b < 24 + i + |ds|) ==> (b in r.1 <==> b in m)
    decreases |ds|
  {
    if ds != [] {
      hide Run, DimRules, BitAfter;
      var head := DimRules(ds[0], i, scope);
      RunConcat(head, MultiRules(ds[1..], i + 1, scope), p, m);
      DimRun(ds[0], i, scope, p, m);
      MultiRunFrame(ds[1..], i + 1, scope, p, Run(head, p, m).1);
    } else {
      EmptyRun(p, m);
    }
  }

  lemma {:induction false} MultiRulesConcat(a: seq<Dim>, b: seq<Dim>, i: nat, scope: Scope)
    ensures MultiRules(a + b, i, scope) == MultiRules(a, i, scope) + MultiRules(b, i + |a|, scope)
    decreases |a|
  {
    hide DimRules;
    if a == [] {
      assert a + b == b;
    } else {
      assert (a + b)[1..] == a[1..] + b;
      MultiRulesConcat(a[1..], b, i + 1, scope);
    }
  }

  /** The mark dimension j finds. */
  function Found(ds: seq<Dim>, j: nat, scope: Scope, p: Packet, m: Bits): Bits
    requires j <= |ds|
  {
    Run(MultiRules(ds[..j], 0, scope), p, m).1
  }

  /** A dimension decides its bit from the mark it finds; the bits before it stay, those after it
      have not been touched yet. */
  lemma MultiRunBit(ds: seq<Dim>, j: nat, scope: Scope, p: Packet, m: Bits)
    requires Sensible(p) && PortDims(ds) && j < |ds|
    ensures var r := Run(MultiRules(ds, 0, scope), p, m).1; var f := Found(ds, j, scope, p, m);
      && (24 + j in r <==> BitAfter(ds[j], 24 + j in m, scope, p, f))
      && (forall b :: b < 24 + j ==> (b in f <==> b in r))
      && (forall b :: b >= 24 + j ==> (b in f <==> b in m))
  {
    hide Run, DimRules, BitAfter;
    var a, rest := ds[..j], ds[j + 1..];
    assert ds == a + ds[j..] && ds[j..] == [ds[j]] + rest && ds[j..][1..] == rest;
    var x, y, z := MultiRules(a, 0, scope), DimRules(ds[j], j, scope), MultiRules(rest, j + 1, scope);
    MultiRulesConcat(a, ds[j..], 0, scope);
    assert MultiRules(ds, 0, scope) == x + (y + z);
    RunConcat(x, y + z, p, m);
    MultiRunFrame(a, 0, scope, p, m);
    var f := Found(ds, j, scope, p, m);
    RunConcat(y, z, p, f);
    DimRun(ds[j], j, scope, p, f);
    MultiRunFrame(rest, j + 1, scope, p, Run(y, p, f).1);
  }

  lemma EmptyRun(p: Packet, m: Bits)
    ensures Run([], p, m) == (None, m)
  {
  }

  // ---------- The masks ----------

  lemma {:induction false} FinalBitsAt(ds: seq<Dim>, i: nat, b: nat)
    ensures b in FinalBits(ds, i) <==> exists j :: 0 <= j < |ds| && ds[j].multi && b == 24 + i + j
    decreases |ds|
  {
    if ds != [] {
      FinalBitsAt(ds[1..], i + 1, b);
      if j :| 0 <= j < |ds| && ds[j].multi && b == 24 + i + j {
        if j > 0 { assert ds[1..][j - 1] == ds[j]; }
      }
      if j :| 0 <= j < |ds[1..]| && ds[1..][j].multi && b == 24 + (i + 1) + j {
        assert ds[j + 1] == ds[1..][j] && b == 24 + i + (j + 1);
      }
    }
  }

  lemma {:induction false} InitialBitsAt(ds: seq<Dim>, i: nat, b: nat)
    ensures b in InitialBits(ds, i) <==>
      exists j :: 0 <= j < |ds| && ds[j].multi && ds[j].neg && !ds[j].url && b == 24 + i + j
    decreases |ds|
  {
    if ds != [] {
      InitialBitsAt(ds[1..], i + 1, b);
      if j :| 0 <= j < |ds| && ds[j].multi && ds[j].neg && !ds[j].url && b == 24 + i + j {
        if j > 0 { assert ds[1..][j - 1] == ds[j]; }
      }
      if j :| 0 <= j < |ds[1..]| && ds[1..][j].multi && ds[1..][j].neg && !ds[1..][j].url && b == 24 + (i + 1) + j {
        assert ds[j + 1] == ds[1..][j] && b == 24 + i + (j + 1);
      }
    }
  }

  // ---------- The block with bits ----------

  function UrlStarts(ds: seq<Dim>): bool
    requires ds != []
  { ds[0].multi && ds[0].neg && ds[0].url }

  function StartRules(ds: seq<Dim>): seq<Rule>
    requires ds != []
  {
    (if InitialBits(ds, 0) != {} then [Rule(None, [], SetMark(InitialBits(ds, 0), HIGH))] else [])
    + (if UrlStarts(ds) then [Rule(Some(Tcp), [Lit(Http, false)], SetMark({24}, {24}))] else [])
  }

  /** The bit of dimension j when its rules begin. */
  predicate StartBit(ds: seq<Dim>, j: nat, p: Packet)
    requires j < |ds|
  {
    ds[j].multi && ds[j].neg && (ds[j].url ==> j == 0 && p.proto == Tcp && p.holds(Http))
  }

  lemma StartRun(ds: seq<Dim>, scope: Scope, p: Packet, m: Bits)
    requires DimsOk(ds, scope) && m !! HIGH
    ensures var r := Run(StartRules(ds), p, m);
      && r.0.None?
      && (forall b :: !(24 <= b < 24 + |ds|) ==> (b in r.1 <==> b in m))
      && (forall j :: 0 <= j < |ds| ==> (24 + j in r.1 <==> StartBit(ds, j, p)))
  {
    var initial := InitialBits(ds, 0);
    var a := if initial != {} then [Rule(None, [], SetMark(initial, HIGH))] else [];
    var b := if UrlStarts(ds) then [Rule(Some(Tcp), [Lit(Http, false)], SetMark({24}, {24}))] else [];
    RunConcat(a, b, p, m);
    var m1 := Run(a, p, m).1;
    assert initial != {} ==> a[1..] == [];
    assert Run(a, p, m) == (None, m1) && m1 == if initial != {} then Masked(m, initial, HIGH) else m;
    forall x ensures x in m1 <==> x in m || x in initial {
    }
    UrlStartRun(ds, p, m1);
    forall x ensures x in initial <==> exists j :: 0 <= j < |ds| && ds[j].multi && ds[j].neg && !ds[j].url && x == 24 + 0 + j {
      InitialBitsAt(ds, 0, x);
    }
  }

  lemma UrlStartRun(ds: seq<Dim>, p: Packet, m: Bits)
    requires ds != []
    ensures Run(if UrlStarts(ds) then [Rule(Some(Tcp), [Lit(Http, false)], SetMark({24}, {24}))] else [], p, m)
      == (None, if UrlStarts(ds) && p.proto == Tcp && p.holds(Http) then Masked(m, {24}, {24}) else m)
  {
    if UrlStarts(ds) {
      var rs := [Rule(Some(Tcp), [Lit(Http, false)], SetMark({24}, {24}))];
      assert rs[1..] == [];
      assert AllHold(rs[0].tests, p, m) <==> LitHolds(rs[0].tests[0], p, m);
    }
  }

  // ---------- The bits at the end ----------

  /** The bits dimension j finds set on the way to the target: those of the dimensions before it,
      and those set at the start from its own on. */
  function Seen(ds: seq<Dim>, j: nat): Bits
    requires j <= |ds|
  {
    FinalBits(ds[..j], 0) + InitialBits(ds[j..], j)
  }

  lemma SeenAt(ds: seq<Dim>, j: nat, k: nat)
    requires j <= |ds| && k < |ds|
    ensures 24 + k in Seen(ds, j) <==> ds[k].multi && (k < j || (ds[k].neg && !ds[k].url))
  {
    FinalBitsAt(ds[..j], 0, 24 + k);
    InitialBitsAt(ds[j..], j, 24 + k);
    if k < j {
      assert ds[..j][k] == ds[k];
    } else {
      assert ds[j..][k - j] == ds[k];
    }
  }

  lemma SeenHigh(ds: seq<Dim>, j: nat, b: nat)
    requires j <= |ds| && b in Seen(ds, j)
    ensures 24 <= b < 24 + |ds|
  {
    FinalBitsAt(ds[..j], 0, b);
    InitialBitsAt(ds[j..], j, b);
  }

  /** The bit of dimension j, once the bits before it are all set. */
  ghost predicate EndBit(ds: seq<Dim>, j: nat, scope: Scope, p: Packet, m: Bits)
    requires j < |ds|
  {
    BitAfter(ds[j], StartBit(ds, j, p), scope, p, m + Seen(ds, j))
  }

  lemma BlindStable(ts: seq<Test>, p: Packet, m: Bits, m': Bits)
    requires Blind(ts)
    ensures AnyHolds(ts, p, m) == AnyHolds(ts, p, m')
  {
    forall i | 0 <= i < |ts| ensures TestHolds(ts[i], p, m) == TestHolds(ts[i], p, m') {
    }
  }

  /** The marks as the dimensions begin. */
  ghost predicate Started(ds: seq<Dim>, p: Packet, m: Bits, m1: Bits) {
    && (forall b :: !(24 <= b < 24 + |ds|) ==> (b in m1 <==> b in m))
    && (forall j :: 0 <= j < |ds| ==> (24 + j in m1 <==> StartBit(ds, j, p)))
  }

  /** A dimension without a bit leaves none. */
  lemma NoBit(ds: seq<Dim>, j: nat, scope: Scope, p: Packet, m: Bits, m1: Bits)
    requires Sensible(p) && PortDims(ds) && j < |ds| && !ds[j].multi && Started(ds, p, m, m1)
    ensures 24 + j !in Run(MultiRules(ds, 0, scope), p, m1).1
  {
    hide Run, MultiRules;
    MultiRunBit(ds, j, scope, p, m1);
    assert 24 + j in m1 <==> StartBit(ds, j, p);
  }

  /** If all bits in use before dimension j > 0 are set, it finds exactly those it is to see. */
  lemma FindsSeen(ds: seq<Dim>, j: nat, scope: Scope, p: Packet, m: Bits, m1: Bits)
    requires DimsOk(ds, scope) && Sensible(p) && m !! HIGH && 0 < j < |ds| && Started(ds, p, m, m1)
    requires forall k :: 0 <= k < j && ds[k].multi ==> 24 + k in Run(MultiRules(ds, 0, scope), p, m1).1
    ensures Found(ds, j, scope, p, m1) == m + Seen(ds, j)
  {
    hide Run, MultiRules, BitAfter, Seen, DimOk, Blind, Found;
    var f := Found(ds, j, scope, p, m1);
    MultiRunBit(ds, j, scope, p, m1);
    MultiRunFrame(ds, 0, scope, p, m1);
    forall b: nat ensures b in f <==> b in m + Seen(ds, j) {
      if 24 <= b < 24 + |ds| {
        var k := b - 24;
        SeenAt(ds, j, k);
        assert 24 + k == b && b in HIGH;
        assert 24 + k in m1 <==> StartBit(ds, k, p);
        if k < j && !ds[k].multi { NoBit(ds, k, scope, p, m, m1); }
      } else if b in Seen(ds, j) {
        SeenHigh(ds, j, b);
      }
    }
  }

  /** All bits in use end up set exactly when each would, given those before it. */
  lemma {:induction false} EndUpTo(ds: seq<Dim>, n: nat, scope: Scope, p: Packet, m: Bits, m1: Bits)
    requires DimsOk(ds, scope) && Sensible(p) && m !! HIGH && n <= |ds| && Started(ds, p, m, m1)
    ensures (forall j :: 0 <= j < n && ds[j].multi ==> 24 + j in Run(MultiRules(ds, 0, scope), p, m1).1)
      <==> (forall j :: 0 <= j < n && ds[j].multi ==> EndBit(ds, j, scope, p, m))
  {
    if n > 0 {
      var j := n - 1;
      hide Run, MultiRules, DimOk, Seen, AnyHolds;
      EndUpTo(ds, j, scope, p, m, m1);
      if forall k :: 0 <= k < j && ds[k].multi ==> 24 + k in Run(MultiRules(ds, 0, scope), p, m1).1 {
        MultiRunBit(ds, j, scope, p, m1);
        if j == 0 {
          BlindStable(ds[0].tests, p, Found(ds, 0, scope, p, m1), m + Seen(ds, 0));
        } else {
          FindsSeen(ds, j, scope, p, m, m1);
        }
      }
    }
  }

  lemma AllSet(ds: seq<Dim>, scope: Scope, p: Packet, m: Bits, m1: Bits)
    requires DimsOk(ds, scope) && Sensible(p) && m !! HIGH && Started(ds, p, m, m1)
    requires forall k :: 0 <= k < |ds| && ds[k].multi ==> 24 + k in Run(MultiRules(ds, 0, scope), p, m1).1
    ensures Run(MultiRules(ds, 0, scope), p, m1).1 == m + FinalBits(ds, 0)
  {
    hide Run, MultiRules, BitAfter, DimOk, Blind, FinalBits;
    var r := Run(MultiRules(ds, 0, scope), p, m1).1;
    MultiRunFrame(ds, 0, scope, p, m1);
    forall b: nat ensures b in r <==> b in m + FinalBits(ds, 0) {
      FinalBitsAt(ds, 0, b);
      if 24 <= b < 24 + |ds| {
        var k := b - 24;
        assert 24 + k == b && b in HIGH && b == 24 + 0 + k;
        if !ds[k].multi { NoBit(ds, k, scope, p, m, m1); }
      }
    }
  }

  // ---------- The whole block ----------

  function LastRules(ds: seq<Dim>, singles: seq<Literal>, scope: Scope, ports: bool): seq<Rule> {
    if singles != [] then Guarded(singles, BitAction(false, |ds|), scope, ports) else []
  }

  /** The single tests set the last bit if they hold on the mark the dimensions leave. */
  lemma BitsRun(ds: seq<Dim>, singles: seq<Literal>, scope: Scope, ports: bool, p: Packet, m: Bits) returns (m1: Bits)
    requires DimsOk(ds, scope) && Sensible(p) && m !! HIGH
    ensures Started(ds, p, m, m1)
    ensures var m2 := Run(MultiRules(ds, 0, scope), p, m1).1;
      var r := Run(StartRules(ds) + MultiRules(ds, 0, scope) + LastRules(ds, singles, scope, ports), p, m);
      && r.0.None?
      && (forall b :: b != 24 + |ds| ==> (b in r.1 <==> b in m2))
      && (forall b :: !(24 <= b < 24 + |ds|) ==> (b in m2 <==> b in m))
      && (24 + |ds| in r.1 <==> singles != [] && Passes(scope, ports, p) && AllHold(singles, p, m2))
  {
    hide Run, StartRules, MultiRules, StartBit, Guarded, AllHold, BitAfter, DimOk, Blind;
    var a, b, c := StartRules(ds), MultiRules(ds, 0, scope), LastRules(ds, singles, scope, ports);
    RunConcat(a, b, p, m);
    RunConcat(a + b, c, p, m);
    StartRun(ds, scope, p, m);
    m1 := Run(a, p, m).1;
    MultiRunFrame(ds, 0, scope, p, m1);
    var m2 := Run(a + b, p, m).1;
    var k := |ds|;
    assert 24 + k in HIGH && 24 + k !in m2;
    if singles != [] {
      GuardedRun(singles, {24 + k}, {24 + k}, scope, ports, p, m2);
    } else {
      EmptyRun(p, m2);
    }
  }

  function FinalMask(ds: seq<Dim>, singles: seq<Literal>): Bits {
    FinalBits(ds, 0) + if singles != [] then {24 + |ds|} else {}
  }

  /** The whole high byte matches exactly when every bit in use is set. */
  lemma FinalTest(ds: seq<Dim>, singles: seq<Literal>, m: Bits, e: Bits)
    requires 0 < |ds| <= 7 && m !! HIGH
    requires forall b :: !(24 <= b <= 24 + |ds|) ==> (b in e <==> b in m)
    requires forall j :: 0 <= j < |ds| && !ds[j].multi ==> 24 + j !in e
    requires 24 + |ds| in e ==> singles != []
    ensures e * HIGH == FinalMask(ds, singles) <==>
      (forall j :: 0 <= j < |ds| && ds[j].multi ==> 24 + j in e) && (singles != [] ==> 24 + |ds| in e)
  {
    hide FinalBits;
    var final := FinalMask(ds, singles);
    forall j | 0 <= j < |ds| ensures 24 + j in final <==> ds[j].multi {
      FinalBitsAt(ds, 0, 24 + j);
    }
    FinalBitsAt(ds, 0, 24 + |ds|);
    if (forall j :: 0 <= j < |ds| && ds[j].multi ==> 24 + j in e) && (singles != [] ==> 24 + |ds| in e) {
      forall b: nat ensures b in e * HIGH <==> b in final {
        FinalBitsAt(ds, 0, b);
        if 24 <= b < 24 + |ds| {
          var j := b - 24;
          assert 24 + j in final <==> ds[j].multi;
          assert b in HIGH;
        } else if b == 24 + |ds| {
          assert b in HIGH && b !in FinalBits(ds, 0);
        } else {
          assert b !in FinalBits(ds, 0);
          assert b in HIGH ==> b !in m;
        }
      }
    }
    if e * HIGH == final {
      forall j | 0 <= j < |ds| && ds[j].multi ensures 24 + j in e {
        assert 24 + j in final;
      }
      if singles != [] { assert 24 + |ds| in final; }
    }
  }

  /** The last two kinds of rules: jump if the high byte is the final one, else clear it. */
  lemma VerdictRun(final: Bits, scope: Scope, goal: Goal, p: Packet, m: Bits)
    ensures var r := Run(Verdict([Lit(Connmark(final, HIGH), false)], scope, goal) + [Rule(None, [], SetMark({}, HIGH))], p, m);
      if m * HIGH == final && (TargetNeedsTcp(scope, goal) ==> p.proto == Tcp)
      then r == (Some(goal.target), m) else r == (None, m - HIGH)
  {
    var ls := [Lit(Connmark(final, HIGH), false)];
    var v := Verdict(ls, scope, goal);
    var clear := [Rule(None, [], SetMark({}, HIGH))];
    RunConcat(v, clear, p, m);
    assert AllHold(ls, p, m) <==> LitHolds(ls[0], p, m);
    assert clear[1..] == [] && Masked(m, {}, HIGH) == m - HIGH;
    assert Run(clear, p, m) == (None, m - HIGH);
    assert |v| == 1 ==> v[1..] == [];
    assert |v| == 2 ==> v[1..] == [v[1]] && [v[1]][1..] == [];
  }

  predicate TargetNeedsTcp(scope: Scope, goal: Goal) {
    !(goal.target == "REJECT" && goal.bare && scope != Both) && goal.reset
  }

  /** A block with bits reaches the target exactly when every bit in use would end up set given
      those before it, the single tests hold on the mark with all of them set, and the last rule's
      own guard lets the packet through; otherwise it leaves the mark as it found it. */
  lemma MarkBlockRun(ds: seq<Dim>, singles: seq<Literal>, scope: Scope, goal: Goal, ports: bool, p: Packet, m: Bits)
    requires DimsOk(ds, scope) && Sensible(p) && m !! HIGH
    ensures var r := Run(MarkBlock(ds, singles, MultiRules(ds, 0, scope), scope, goal, ports), p, m);
      if (TargetNeedsTcp(scope, goal) ==> p.proto == Tcp)
         && (forall j :: 0 <= j < |ds| && ds[j].multi ==> EndBit(ds, j, scope, p, m))
         && (singles != [] ==> Passes(scope, ports, p) && AllHold(singles, p, m + FinalBits(ds, 0)))
      then r.0 == Some(goal.target) && SameLow(r.1, m)
      else r == (None, m)
  {
    hide Run, Verdict, EndBit, AllHold, FinalMask, TargetNeedsTcp, Passes, StartRules, MultiRules, LastRules, MarkBlock,
      DimOk, Blind, FinalBits, Started;
    var a := StartRules(ds) + MultiRules(ds, 0, scope) + LastRules(ds, singles, scope, ports);
    var final := FinalMask(ds, singles);
    var b := Verdict([Lit(Connmark(final, HIGH), false)], scope, goal) + [Rule(None, [], SetMark({}, HIGH))];
    MarkBlockShape(ds, singles, scope, goal, ports);
    RunConcat(a, b, p, m);
    var m1 := BitsRun(ds, singles, scope, ports, p, m);
    EndUpTo(ds, |ds|, scope, p, m, m1);
    var m2 := Run(MultiRules(ds, 0, scope), p, m1).1;
    var e := Run(a, p, m).1;
    forall j | 0 <= j < |ds| && !ds[j].multi ensures 24 + j !in e {
      NoBit(ds, j, scope, p, m, m1);
    }
    VerdictRun(final, scope, goal, p, e);
    FinalTest(ds, singles, m, e);
    if forall j :: 0 <= j < |ds| && ds[j].multi ==> 24 + j in m2 {
      AllSet(ds, scope, p, m, m1);
    }
    SameBelow(|ds|, m, e);
  }

  lemma SameBelow(k: nat, m: Bits, e: Bits)
    requires k <= 7 && m !! HIGH && forall b :: !(24 <= b <= 24 + k) ==> (b in e <==> b in m)
    ensures SameLow(e, m) && e - HIGH == m
  {
    assert forall x :: 24 <= x <= 24 + k ==> x in HIGH;
  }

  lemma MarkBlockShape(ds: seq<Dim>, singles: seq<Literal>, scope: Scope, goal: Goal, ports: bool)
    requires ds != []
    ensures MarkBlock(ds, singles, MultiRules(ds, 0, scope), scope, goal, ports)
      == StartRules(ds) + MultiRules(ds, 0, scope) + LastRules(ds, singles, scope, ports)
       + (Verdict([Lit(Connmark(FinalMask(ds, singles), HIGH), false)], scope, goal) + [Rule(None, [], SetMark({}, HIGH))])
  {
    hide MultiRules, Verdict, InitialBits, FinalBits, Guarded;
  }
}
