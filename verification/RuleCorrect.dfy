/**
 Compiler correctness: a definition's rule list reaches the target on exactly the packets the
 definition means, if and only if some rule looks at the protocol and the connection marks it asks
 for are not disturbed by its own bits; and it leaves the mark as it was when it reaches no verdict,
 so that blocks can follow one another.
 */
module RuleCorrect {
  import opened Common
  import opened MarkBits
  import opened Netfilter
  import opened RuleCompiler
  import opened RuleMeaning
  import opened RuleBits

  // ---------- Single tests ----------

  lemma {:induction false} SinglesSpec(ds: seq<Dim>, extras: seq<Literal>, p: Packet, m: Bits)
    ensures AllHold(Singles(ds, extras), p, m) <==>
      AllHold(extras, p, m) && forall j :: 0 <= j < |ds| ==> AllHold(SingleOf(ds[j]), p, m)
    ensures Singles(ds, extras) == [] ==> extras == [] && forall j :: 0 <= j < |ds| ==> SingleOf(ds[j]) == []
  {
    hide SingleOf, AllHold;
    if ds != [] {
      var k := |ds| - 1;
      var front := ds[..k];
      SinglesSpec(front, extras, p, m);
      HoldConcat(SingleOf(ds[k]), Singles(front, extras), p, m);
      assert Singles(ds, extras) == SingleOf(ds[k]) + Singles(front, extras);
      assert forall j :: 0 <= j < k ==> front[j] == ds[j];
      assert forall j :: 0 <= j < |ds| ==> j == k || ds[j] == front[j];
    }
  }

  // ---------- What the marks mean ----------

  /** The mark a dimension's tests read on the way to the target: a list of values reads it when its
      rules run, a single test when all bits are set. */
  function ReadAs(ds: seq<Dim>, j: nat, m: Bits): Bits
    requires j < |ds|
  {
    m + if ds[j].multi then Seen(ds, j) else FinalBits(ds, 0)
  }

  /** In scope, each dimension's bit, or its single test, says what the dimension says of that mark. */
  lemma EndBitMeaning(ds: seq<Dim>, j: nat, scope: Scope, p: Packet, m: Bits)
    requires DimsOk(ds, scope) && j < |ds| && InScope(scope, p)
    ensures ds[j].multi ==> (EndBit(ds, j, scope, p, m) <==> DimHolds(ds[j], p, ReadAs(ds, j, m)))
    ensures !ds[j].multi ==> (AllHold(SingleOf(ds[j]), p, ReadAs(ds, j, m)) <==> DimHolds(ds[j], p, ReadAs(ds, j, m)))
  {
    hide Seen, FinalBits;
    var d := ds[j];
    var r := ReadAs(ds, j, m);
    assert DimOk(d);
    if !d.multi && d.tests != [] {
      assert AnyHolds(d.tests, p, r) <==> TestHolds(d.tests[0], p, r);
      assert AllHold(SingleOf(d), p, r) <==> LitHolds(SingleOf(d)[0], p, r);
    }
  }

  /** Out of scope, only the bit of a negated dimension other than the URL one ends up set. */
  lemma EndBitOutside(ds: seq<Dim>, j: nat, scope: Scope, p: Packet, m: Bits)
    requires DimsOk(ds, scope) && j < |ds| && ds[j].multi && !InScope(scope, p)
    ensures EndBit(ds, j, scope, p, m) <==> ds[j].neg && !ds[j].url
  {
    hide Seen;
    assert DimOk(ds[j]);
  }

  ghost predicate AllRead(ds: seq<Dim>, p: Packet, m: Bits) {
    forall j :: 0 <= j < |ds| ==> DimHolds(ds[j], p, ReadAs(ds, j, m))
  }

  /** In scope, the bits and the single tests together say what the dimensions and extras say. */
  lemma InScopeMeaning(ds: seq<Dim>, singles: seq<Literal>, extras: seq<Literal>, scope: Scope, p: Packet, m: Bits)
    requires DimsOk(ds, scope) && InScope(scope, p) && singles == Singles(ds, extras)
    ensures (forall j :: 0 <= j < |ds| && ds[j].multi ==> EndBit(ds, j, scope, p, m)) && AllHold(singles, p, m + FinalBits(ds, 0))
      <==> AllHold(extras, p, m + FinalBits(ds, 0)) && AllRead(ds, p, m)
    ensures singles == [] ==> AllHold(singles, p, m + FinalBits(ds, 0))
  {
    hide EndBit, DimHolds, SingleOf, AllHold, DimsOk, Seen, FinalBits;
    var f := m + FinalBits(ds, 0);
    SinglesSpec(ds, extras, p, f);
    forall j | 0 <= j < |ds|
      ensures ds[j].multi ==>
        (EndBit(ds, j, scope, p, m) <==> DimHolds(ds[j], p, ReadAs(ds, j, m))) && AllHold(SingleOf(ds[j]), p, f)
      ensures !ds[j].multi ==> (AllHold(SingleOf(ds[j]), p, f) <==> DimHolds(ds[j], p, ReadAs(ds, j, m)))
    {
      EndBitMeaning(ds, j, scope, p, m);
      if ds[j].multi { NoSingle(ds[j], p, f); }
    }
    if singles == [] { NoSingle(Dim([], false, true, false, false), p, f); }
  }

  lemma NoSingle(d: Dim, p: Packet, m: Bits)
    requires d.multi
    ensures AllHold(SingleOf(d), p, m) && AllHold([], p, m)
  {
  }

  /** The bits that stand in the mark when a definition's connection marks are looked at. */
  function Shift(d: Definition, ingress: bool): Bits {
    var ds := Dims(d, ingress);
    if ConnmarkDim(d).multi then Seen(ds, 2) else FinalBits(ds, 0)
  }

  /** Only the connection marks look at the mark. */
  lemma OnlyConnmarkReads(d: Definition, ingress: bool, p: Packet, m: Bits)
    requires ListsFilled(d)
    ensures AllRead(Dims(d, ingress), p, m) <==> AllDims(Dims(d, ingress), p, m + Shift(d, ingress))
    ensures forall x, y :: AllHold(Extras(d), p, x) == AllHold(Extras(d), p, y)
  {
    var ds := Dims(d, ingress);
    ShapeOfDims(d, ingress);
    ExtrasBlind(d, p);
    ThirdIsConnmark(d, ingress);
    hide Dims, Extras, Seen, FinalBits, DimOk, Blind;
    forall j | 0 <= j < |ds|
      ensures DimHolds(ds[j], p, ReadAs(ds, j, m)) == DimHolds(ds[j], p, m + Shift(d, ingress))
    {
      if j != 2 {
        BlindStable(ds[j].tests, p, ReadAs(ds, j, m), m + Shift(d, ingress));
      }
    }
  }

  lemma ThirdIsConnmark(d: Definition, ingress: bool)
    ensures Dims(d, ingress)[2] == ConnmarkDim(d)
  {
  }

  lemma ExtrasBlind(d: Definition, p: Packet)
    ensures forall x, y :: AllHold(Extras(d), p, x) == AllHold(Extras(d), p, y)
  {
    assert forall i :: 0 <= i < |Extras(d)| ==> !Extras(d)[i].test.Connmark?;
  }

  // ---------- The whole block ----------

  lemma PlainBlockRun(singles: seq<Literal>, scope: Scope, goal: Goal, ports: bool, p: Packet, m: Bits)
    ensures Run(PlainBlock(singles, scope, goal, ports), p, m)
      == if Passes(scope, ports, p) && AllHold(singles, p, m) then (Some(goal.target), m) else (None, m)
  {
    hide AllHold, Run;
    var rs := PlainBlock(singles, scope, goal, ports);
    JumpRun(rs[0], p, m);
    if |rs| == 2 {
      JumpRun(rs[1], p, m);
      RunConcat([rs[0]], [rs[1]], p, m);
      assert rs == [rs[0]] + [rs[1]];
    } else {
      assert rs == [rs[0]];
    }
  }

  lemma JumpRun(r: Rule, p: Packet, m: Bits)
    requires r.action.Jump?
    ensures Run([r], p, m) == if Fires(r, p, m) then (Some(r.action.target), m) else (None, m)
  {
    assert [r][1..] == [];
  }

  lemma {:induction false} NoRules(ds: seq<Dim>, i: nat, scope: Scope)
    requires forall j :: 0 <= j < |ds| ==> DimOk(ds[j])
    ensures MultiRules(ds, i, scope) == [] <==> forall j :: 0 <= j < |ds| ==> !ds[j].multi
    decreases |ds|
  {
    if ds != [] {
      assert DimOk(ds[0]);
      NoRules(ds[1..], i + 1, scope);
      assert forall j :: 1 <= j < |ds| ==> ds[j] == ds[1..][j - 1];
    }
  }

  lemma OutOfScope(ds: seq<Dim>, scope: Scope, p: Packet, m: Bits)
    requires DimsOk(ds, scope) && !InScope(scope, p)
    ensures (forall j :: 0 <= j < |ds| && ds[j].multi ==> EndBit(ds, j, scope, p, m)) <==>
      forall j :: 0 <= j < |ds| && ds[j].multi ==> ds[j].neg && !ds[j].url
  {
    hide EndBit, DimsOk;
    forall j | 0 <= j < |ds| && ds[j].multi
      ensures EndBit(ds, j, scope, p, m) <==> ds[j].neg && !ds[j].url
    {
      EndBitOutside(ds, j, scope, p, m);
    }
  }

  /** Packets of another protocol, when no rule looks at it: all dimensions are negated lists. */
  ghost predicate Slips(d: Definition, ingress: bool, goal: Goal, p: Packet) {
    !InScope(ScopeOf(d), p) && !Guards(d, ingress, goal)
  }

  predicate AnyProto(d: Definition) {
    UrlCount(d.url) + UrlCount(d.notUrl) == 0 && d.proto != Some("tcp") && d.proto != Some("udp")
  }

  predicate AsksPorts(d: Definition) {
    d.localPort.Some? || d.notLocalPort.Some? || d.remotePort.Some? || d.notRemotePort.Some?
  }

  /** Packets that are neither TCP nor UDP, when the single tests stand under guards because there
      are ports. */
  predicate Barred(d: Definition, ingress: bool, p: Packet) {
    p.proto == Other && AnyProto(d) && AsksPorts(d) && Singles(Dims(d, ingress), Extras(d)) != []
  }

  /** The guards of the single tests bar exactly those packets. */
  lemma BarredIs(d: Definition, ingress: bool, p: Packet)
    ensures var singles := Singles(Dims(d, ingress), Extras(d));
      InScope(ScopeOf(d), p) && singles != [] ==> (Passes(ScopeOf(d), HasPorts(d), p) <==> !Barred(d, ingress, p))
    ensures !InScope(ScopeOf(d), p) ==> !Passes(ScopeOf(d), HasPorts(d), p) && !Barred(d, ingress, p)
  {
    hide Dims, Extras, Singles, UrlTests, UrlCount;
    UrlTestsSpec(d.url, 0, p, {});
    UrlTestsSpec(d.notUrl, 0, p, {});
  }

  /** Where ports are asked for and no list is in use, a single test asks for them. */
  lemma PortsAsked(d: Definition, ingress: bool)
    requires ListsFilled(d) && AsksPorts(d) && MultiRules(Dims(d, ingress), 0, ScopeOf(d)) == []
    ensures Singles(Dims(d, ingress), Extras(d)) != []
  {
    var ds := Dims(d, ingress);
    ShapeOfDims(d, ingress);
    NoRules(ds, 0, ScopeOf(d));
    var n := |ds|;
    assert ds[n - 1] == DstPortDim(d, ingress) && ds[n - 2] == SrcPortDim(d, ingress);
    hide Dims, Extras, DimsOk, ScopeOf;
    SinglesSpec(ds, Extras(d), Packet(Tcp, _ => false), {});
  }

  lemma NoBitsAtAll(ds: seq<Dim>)
    requires forall j :: 0 <= j < |ds| ==> !ds[j].multi
    ensures FinalBits(ds, 0) == {}
  {
    forall b: nat ensures b !in FinalBits(ds, 0) {
      FinalBitsAt(ds, 0, b);
    }
  }

  /** Which packets reach the target, in terms of the dimensions the compiler works on. */
  lemma BlockDims(d: Definition, ingress: bool, goal: Goal, p: Packet, m: Bits)
    requires ListsFilled(d) && ResetFits(d, goal) && Sensible(p) && m !! HIGH
    ensures var r := Run(Block(d, ingress, goal), p, m); var read := m + Shift(d, ingress);
      var meant := InScope(ScopeOf(d), p) && AllHold(Extras(d), p, read) && AllDims(Dims(d, ingress), p, read);
      if (meant && !Barred(d, ingress, p)) || Slips(d, ingress, goal, p)
      then r.0 == Some(goal.target) && SameLow(r.1, m)
      else r == (None, m)
  {
    hide Dims, Extras, MarkBlock, PlainBlock, Run, EndBit, Singles, MultiRules, ScopeOf, ListsFilled, AllDims, AllHold, AllRead, Shift, FinalBits, Sensible;
    var ds := Dims(d, ingress);
    var scope := ScopeOf(d);
    var goal' := Settle(goal, scope);
    var singles := Singles(ds, Extras(d));
    ShapeOfDims(d, ingress);
    OnlyConnmarkReads(d, ingress, p, m);
    NoRules(ds, 0, scope);
    BarredIs(d, ingress, p);
    if MultiRules(ds, 0, scope) == [] {
      if AsksPorts(d) { PortsAsked(d, ingress); }
      PlainBlockRun(singles, scope, goal', HasPorts(d), p, m);
      NoBitsAtAll(ds);
      assert m + {} == m;
    } else {
      MarkBlockRun(ds, singles, scope, goal', HasPorts(d), p, m);
    }
    if InScope(scope, p) {
      InScopeMeaning(ds, singles, Extras(d), scope, p, m);
    } else {
      OutOfScope(ds, scope, p, m);
    }
  }

  /** Exactly which packets reach the target, for every definition whose lists are not empty: those it
      means when its connection marks are read among the bits that stand by then, unless the guards
      of its ports bar them, and those that slip through unguarded. */
  lemma BlockRun(d: Definition, ingress: bool, goal: Goal, p: Packet, m: Bits)
    requires NonEmpty(d, ingress) && ResetFits(d, goal) && Sensible(p) && m !! HIGH
    ensures var r := Run(Block(d, ingress, goal), p, m);
      if (Means(d, ingress, p, m + Shift(d, ingress)) && !Barred(d, ingress, p)) || Slips(d, ingress, goal, p)
      then r.0 == Some(goal.target) && SameLow(r.1, m)
      else r == (None, m)
  {
    hide Means, Block, Run, Slips, Dims, Shift, Barred, Sensible;
    BlockDims(d, ingress, goal, p, m);
    MeansDims(d, ingress, p, m + Shift(d, ingress));
  }

  // ---------- Main results ----------

  ghost predicate Reaches(rs: seq<Rule>, p: Packet, m: Bits) { Run(rs, p, m).0.Some? }

  /** The packets the definition is about: TCP or UDP, with a clear high byte. */
  ghost predicate Fair(p: Packet, m: Bits) { TcpOrUdp(p) && m !! HIGH }

  /** The bits that stand by then do not change what the definition's connection marks say. */
  ghost predicate ConnmarkFits(d: Definition, ingress: bool) {
    forall m: Bits :: m !! HIGH ==> (ConnmarkMeets(d, m + Shift(d, ingress)) <==> ConnmarkMeets(d, m))
  }

  /** Main result: the compiled block reaches the target exactly on the packets the definition
      means, for every fair packet, if and only if some rule looks at the protocol and the block's
      own bits do not disturb the connection marks asked for. */
  lemma CompilerCorrect(d: Definition, ingress: bool, goal: Goal)
    requires NonEmpty(d, ingress) && ResetFits(d, goal)
    ensures (forall p, m :: Fair(p, m) ==> (Reaches(Block(d, ingress, goal), p, m) <==> Means(d, ingress, p, m)))
      <==> Guards(d, ingress, goal) && ConnmarkFits(d, ingress)
  {
    hide Block, Means, Guards, Run, ConnmarkMeets, Shift;
    forall p, m | Fair(p, m)
      ensures Reaches(Block(d, ingress, goal), p, m) <==> Means(d, ingress, p, m + Shift(d, ingress)) || Slips(d, ingress, goal, p)
    {
      BlockRun(d, ingress, goal, p, m);
    }
    if !Guards(d, ingress, goal) {
      var p := Stranger(d, ingress, goal);
      assert Fair(p, {}) && Slips(d, ingress, goal, p);
      assert !Means(d, ingress, p, {});
    } else if !ConnmarkFits(d, ingress) {
      var m: Bits :| m !! HIGH && ConnmarkMeets(d, m + Shift(d, ingress)) != ConnmarkMeets(d, m);
      var p := Agreeable(d, ingress);
      AgreeableMeans(d, ingress, m);
      AgreeableMeans(d, ingress, m + Shift(d, ingress));
      assert Fair(p, m);
    } else {
      forall p, m | Fair(p, m) ensures Means(d, ingress, p, m + Shift(d, ingress)) <==> Means(d, ingress, p, m) {
        MeansByConnmark(d, ingress, p, m, m + Shift(d, ingress));
      }
    }
  }

  /** No plain list of ports, a negated one, for any protocol, beside single tests. */
  predicate BarsOthers(d: Definition, ingress: bool) {
    && AnyProto(d) && d.localPort.None? && d.remotePort.None? && (d.notLocalPort.Some? || d.notRemotePort.Some?)
    && Singles(Dims(d, ingress), Extras(d)) != []
  }

  /** A packet without ports meets no plain list of them. */
  lemma PortsMissed(d: Definition, ingress: bool, p: Packet, m: Bits)
    requires Sensible(p) && Barred(d, ingress, p) && Means(d, ingress, p, m)
    ensures BarsOthers(d, ingress) && ConnmarkMeets(d, m)
  {
    hide Dims, Extras, Singles, UrlMeets, MarkMeets, ConnmarkMeets, SrcMeets, DstMeets, ExtrasMeet, UrlCount;
  }

  /** A packet without ports that does whatever else is asked of it. */
  lemma Portless(d: Definition, ingress: bool, m: Bits) returns (p: Packet)
    requires NonEmpty(d, ingress) && BarsOthers(d, ingress) && ConnmarkMeets(d, m)
    ensures Sensible(p) && Barred(d, ingress, p) && Means(d, ingress, p, m)
  {
    hide Dims, Extras, Singles, NonEmpty, Means, ConnmarkMeets, UrlCount, UrlTests, ScopeOf, Asked, Agreeable;
    p := Packet(Other, Agreeable(d, ingress).holds);
    NoPorts(d, ingress, p);
    AgreeableMeans(d, ingress, m);
    SameMatches(d, ingress, Agreeable(d, ingress), p, m);
  }

  lemma NoPorts(d: Definition, ingress: bool, p: Packet)
    requires p.holds == Agreeable(d, ingress).holds && d.localPort.None? && d.remotePort.None?
    ensures Sensible(p)
  {
    hide ScopeOf, UrlTests;
  }

  lemma SameMatches(d: Definition, ingress: bool, p: Packet, q: Packet, m: Bits)
    requires p.holds == q.holds && Means(d, ingress, p, m) && ProtoMeets(d, q)
    ensures Means(d, ingress, q, m)
  {
    hide ProtoMeets, ConnmarkMeets;
  }

  ghost predicate RightFor(d: Definition, ingress: bool, goal: Goal, p: Packet, m: Bits) {
    Sensible(p) && m !! HIGH ==> (Reaches(Block(d, ingress, goal), p, m) <==> Means(d, ingress, p, m))
  }

  ghost predicate Harmless(d: Definition, ingress: bool) {
    BarsOthers(d, ingress) ==> forall m: Bits :: m !! HIGH ==> !ConnmarkMeets(d, m)
  }

  /** Main result: for packets of any protocol there is one more condition. Negated ports beside single
      tests keep every packet away that has no ports, though the definition means it; that does no
      harm only if no connection mark meets the definition. */
  lemma CompilerCorrectForAll(d: Definition, ingress: bool, goal: Goal)
    requires NonEmpty(d, ingress) && ResetFits(d, goal)
    ensures (forall p, m :: RightFor(d, ingress, goal, p, m)) <==>
      Guards(d, ingress, goal) && ConnmarkFits(d, ingress) && Harmless(d, ingress)
  {
    hide Block, Means, Guards, ConnmarkFits, Reaches, ConnmarkMeets, Shift, NonEmpty, ResetFits, BarsOthers, Barred, Sensible;
    CompilerCorrect(d, ingress, goal);
    if forall p, m :: RightFor(d, ingress, goal, p, m) {
      forall p, m | Fair(p, m) ensures Reaches(Block(d, ingress, goal), p, m) <==> Means(d, ingress, p, m) {
        FairIsSensible(p, m);
        assert RightFor(d, ingress, goal, p, m);
      }
      if !Harmless(d, ingress) {
        var m: Bits :| m !! HIGH && ConnmarkMeets(d, m);
        var p := Portless(d, ingress, m);
        assert RightFor(d, ingress, goal, p, m);
        RightUnlessBarred(d, ingress, goal, p, m);
      }
    } else {
      var p, m :| !RightFor(d, ingress, goal, p, m);
      if Guards(d, ingress, goal) && ConnmarkFits(d, ingress) && Harmless(d, ingress) {
        RightUnlessBarred(d, ingress, goal, p, m);
        PortsMissed(d, ingress, p, m);
      }
    }
  }

  lemma NeverBarred(d: Definition, ingress: bool, p: Packet)
    requires TcpOrUdp(p)
    ensures Sensible(p) && !Barred(d, ingress, p)
  {
  }

  lemma FairIsSensible(p: Packet, m: Bits)
    requires Fair(p, m)
    ensures Sensible(p) && m !! HIGH
  {
  }

  /** Where the other two conditions hold, a packet reaches the target if it is meant and not barred. */
  lemma RightUnlessBarred(d: Definition, ingress: bool, goal: Goal, p: Packet, m: Bits)
    requires NonEmpty(d, ingress) && ResetFits(d, goal) && Sensible(p) && m !! HIGH
    requires Guards(d, ingress, goal) && ConnmarkFits(d, ingress)
    ensures Reaches(Block(d, ingress, goal), p, m) <==> Means(d, ingress, p, m) && !Barred(d, ingress, p)
  {
    hide Block, Means, Guards, Run, ConnmarkMeets, Shift, NonEmpty, ResetFits, Barred, Sensible;
    BlockRun(d, ingress, goal, p, m);
    MeansByConnmark(d, ingress, p, m, m + Shift(d, ingress));
  }

  /** A definition reads the mark only for its connection marks. */
  lemma MeansByConnmark(d: Definition, ingress: bool, p: Packet, m: Bits, m': Bits)
    requires ConnmarkMeets(d, m) == ConnmarkMeets(d, m')
    ensures Means(d, ingress, p, m) == Means(d, ingress, p, m')
  {
    hide Extras, UrlMeets, MarkMeets, SrcMeets, DstMeets, SrcPortMeets, DstPortMeets, ConnmarkMeets, AllHold;
    ExtrasBlind(d, p);
  }

  /** A packet of the protocol the definition does not name. */
  lemma Stranger(d: Definition, ingress: bool, goal: Goal) returns (p: Packet)
    requires !Guards(d, ingress, goal)
    ensures TcpOrUdp(p) && Slips(d, ingress, goal, p)
    ensures forall m :: !Means(d, ingress, p, m)
  {
    hide Dims, Extras, Singles, Settle;
    assert ScopeOf(d) != Both;
    p := Packet(if ScopeOf(d) == Only(Tcp) then Udp else Tcp, _ => false);
    ProtoIs(d, p);
  }

  /** A packet that does whatever a definition asks of it: its matches hold where they are asked for
      plainly, and fail where they are negated. */
  function Agreeable(d: Definition, ingress: bool): Packet {
    Packet(if ScopeOf(d) == Only(Tcp) then Tcp else Udp, t => Asked(d, ingress, t))
  }

  function Asked(d: Definition, ingress: bool, t: Test): bool {
    match t
    case Url(_, _) => UrlTests(d.url, 0) != []
    case Mark(_) => d.mark.Some?
    case SrcIp(_) => (if ingress then d.remoteAddr else d.localAddr).Some?
    case SrcRange(_) => (if ingress then d.remoteAddr else d.localAddr).Some?
    case SrcMac(_) => (if ingress then d.remoteAddr else d.localAddr).Some?
    case DstIp(_) => (if ingress then d.localAddr else d.remoteAddr).Some?
    case DstRange(_) => (if ingress then d.localAddr else d.remoteAddr).Some?
    case SrcPort(_) => (if ingress then d.remotePort else d.localPort).Some?
    case DstPort(_) => (if ingress then d.localPort else d.remotePort).Some?
    case _ => true
  }

  /** Whether a definition means that packet is up to its connection marks alone. */
  lemma AgreeableMeans(d: Definition, ingress: bool, m: Bits)
    requires NonEmpty(d, ingress)
    ensures TcpOrUdp(Agreeable(d, ingress))
    ensures Means(d, ingress, Agreeable(d, ingress), m) <==> ConnmarkMeets(d, m)
  {
    hide ConnmarkMeets, Extras, UrlMeets, MarkMeets, SrcMeets, DstMeets, SrcPortMeets, DstPortMeets, AllHold, ScopeOf;
    hide ProtoMeets, ExtrasMeet;
    var p := Agreeable(d, ingress);
    ProtoIs(d, p);
    ExtrasAre(d, p, m);
    AgreeableInScope(d, ingress);
    AgreeableUrls(d, ingress);
    AgreeableExtras(d, ingress, m);
    AgreeableLists(d, ingress);
    AgreeableAddrs(d, ingress);
  }

  lemma AgreeableInScope(d: Definition, ingress: bool)
    ensures InScope(ScopeOf(d), Agreeable(d, ingress))
  {
  }

  lemma AgreeableUrls(d: Definition, ingress: bool)
    ensures UrlMeets(d, Agreeable(d, ingress))
  {
    hide ScopeOf;
    var p := Agreeable(d, ingress);
    UrlTestsSpec(d.url, 0, p, {});
    if UrlCount(d.url) > 0 {
      assert TestHolds(UrlTests(d.url, 0)[0], p, {});
    }
  }

  lemma AgreeableExtras(d: Definition, ingress: bool, m: Bits)
    ensures AllHold(Extras(d), Agreeable(d, ingress), m)
  {
    hide ScopeOf;
    forall l | l in Extras(d) ensures !l.negated && (l.test.TimeRange? || l.test.Layer7? || l.test.Ipp2p? || l.test.Length?) {
    }
  }

  lemma AgreeableLists(d: Definition, ingress: bool)
    requires NonEmpty(d, ingress)
    ensures var p := Agreeable(d, ingress);
      && MarkMeets(d, p)
      && SrcPortMeets(if ingress then d.remotePort else d.localPort, if ingress then d.notRemotePort else d.notLocalPort, p)
      && DstPortMeets(if ingress then d.localPort else d.remotePort, if ingress then d.notLocalPort else d.notRemotePort, p)
  {
    hide ScopeOf;
    if d.mark.Some? { assert d.mark.value[0] in d.mark.value; }
    if d.localPort.Some? { assert d.localPort.value[0] in d.localPort.value; }
    if d.remotePort.Some? { assert d.remotePort.value[0] in d.remotePort.value; }
  }

  lemma AgreeableAddrs(d: Definition, ingress: bool)
    requires NonEmpty(d, ingress)
    ensures var p := Agreeable(d, ingress);
      && SrcMeets(if ingress then d.remoteAddr else d.localAddr, if ingress then d.notRemoteAddr else d.notLocalAddr, p)
      && DstMeets(if ingress then d.localAddr else d.remoteAddr, if ingress then d.notLocalAddr else d.notRemoteAddr, p)
  {
    hide ScopeOf, SrcMeets, DstMeets;
    var p := Agreeable(d, ingress);
    SrcAgrees(if ingress then d.remoteAddr else d.localAddr, if ingress then d.notRemoteAddr else d.notLocalAddr, p);
    DstAgrees(if ingress then d.localAddr else d.remoteAddr, if ingress then d.notLocalAddr else d.notRemoteAddr, p);
  }

  lemma SrcAgrees(pos: Option<Addrs>, neg: Option<Addrs>, p: Packet)
    requires AddrFilled(pos, true)
    requires forall v :: p.holds(SrcIp(v)) == p.holds(SrcRange(v)) == p.holds(SrcMac(v)) == pos.Some?
    ensures SrcMeets(pos, neg, p)
  {
    if pos.Some? { SomeFrom(pos.value, p); }
  }

  lemma DstAgrees(pos: Option<Addrs>, neg: Option<Addrs>, p: Packet)
    requires AddrFilled(pos, false)
    requires forall v :: p.holds(DstIp(v)) == p.holds(DstRange(v)) == pos.Some?
    ensures DstMeets(pos, neg, p)
  {
    if pos.Some? { SomeTo(pos.value, p); }
  }

  lemma SomeFrom(a: Addrs, p: Packet)
    requires a.ips != [] || a.ranges != [] || a.macs != []
    requires forall v :: p.holds(SrcIp(v)) && p.holds(SrcRange(v)) && p.holds(SrcMac(v))
    ensures FromAddr(a, p)
  {
    if a.ips != [] { assert a.ips[0] in a.ips; }
    if a.ranges != [] { assert a.ranges[0] in a.ranges; }
    if a.macs != [] { assert a.macs[0] in a.macs; }
  }

  lemma SomeTo(a: Addrs, p: Packet)
    requires a.ips != [] || a.ranges != []
    requires forall v :: p.holds(DstIp(v)) && p.holds(DstRange(v))
    ensures ToAddr(a, p)
  {
    if a.ips != [] { assert a.ips[0] in a.ips; }
    if a.ranges != [] { assert a.ranges[0] in a.ranges; }
  }

  /** Without a guard, every packet of the other protocol reaches the target, whatever it holds. */
  lemma UnguardedSlips(d: Definition, ingress: bool, goal: Goal, p: Packet, m: Bits)
    requires NonEmpty(d, ingress) && ResetFits(d, goal) && Fair(p, m)
    requires !Guards(d, ingress, goal) && !InScope(ScopeOf(d), p)
    ensures Reaches(Block(d, ingress, goal), p, m)
  {
    hide Means, Block, Run, Guards, NonEmpty, Shift;
    BlockRun(d, ingress, goal, p, m);
  }

  // ---------- When connection marks fit ----------

  /** Values whose masks leave the standing bits alone fit, and so do those of the low 24 bits. */
  lemma DisjointMasksFit(d: Definition, ingress: bool)
    requires d.connmark.Some? ==> forall v :: v in d.connmark.value ==> v.1 !! Shift(d, ingress)
    requires d.notConnmark.Some? ==> forall v :: v in d.notConnmark.value ==> v.1 !! Shift(d, ingress)
    ensures ConnmarkFits(d, ingress)
  {
    hide Shift;
    var s := Shift(d, ingress);
    forall m: Bits, v: (Bits, Bits) | v.1 !! s ensures (m + s) * v.1 == m * v.1 {
    }
  }

  lemma LowMasksFit(d: Definition, ingress: bool)
    requires d.connmark.Some? ==> forall v :: v in d.connmark.value ==> v.1 !! HIGH
    requires d.notConnmark.Some? ==> forall v :: v in d.notConnmark.value ==> v.1 !! HIGH
    ensures ConnmarkFits(d, ingress)
  {
    hide Shift;
    ShiftIsHigh(d, ingress);
    DisjointMasksFit(d, ingress);
  }

  lemma ShiftIsHigh(d: Definition, ingress: bool)
    ensures Shift(d, ingress) <= HIGH
  {
    hide Seen, FinalBits, Dims;
    var ds := Dims(d, ingress);
    forall b | b in Shift(d, ingress) ensures b in HIGH {
      FinalBitsAt(ds, 0, b);
      if b in Seen(ds, 2) { SeenHigh(ds, 2, b); }
      assert 24 <= b < 24 + |ds| <= 31;
    }
  }

  /** A single value, plain or negated. */
  predicate OnlyValue(d: Definition, v: (Bits, Bits)) {
    d.connmark == Some([v]) || (d.connmark.None? && d.notConnmark == Some([v]))
  }

  /** Main result: a definition with one connection-mark value fits if and only if the value's mask
      avoids all bits in use, or no mark meets the value, neither with a clear high byte nor with
      just those bits standing in it. */
  lemma SingleValueFits(d: Definition, ingress: bool, v: (Bits, Bits))
    requires OnlyValue(d, v)
    ensures var used := FinalBits(Dims(d, ingress), 0);
      ConnmarkFits(d, ingress) <==>
        v.1 !! used || !(v.0 <= v.1 && (v.0 !! HIGH || v.0 * HIGH == v.1 * used))
  {
    hide Dims, Seen, FinalBits, ConnmarkMeets;
    ShiftIsHigh(d, ingress);
    var s := Shift(d, ingress);
    assert !ConnmarkDim(d).multi;
    forall m: Bits ensures ConnmarkMeets(d, m) <==> ((m * v.1 == v.0) == d.connmark.Some?) {
      MeetsOne(d, v, m);
    }
    OneValueFits(v, s);
  }

  lemma MeetsOne(d: Definition, v: (Bits, Bits), m: Bits)
    requires OnlyValue(d, v)
    ensures ConnmarkMeets(d, m) <==> ((m * v.1 == v.0) == d.connmark.Some?)
  {
    if d.connmark.Some? { assert v in d.connmark.value; } else { assert v in d.notConnmark.value; }
  }

  /** What a value must be for a mark with a clear high byte to meet it, alone or with s added. */
  lemma MetBy(v: (Bits, Bits), s: Bits, m: Bits)
    requires s <= HIGH && m !! HIGH
    ensures m * v.1 == v.0 ==> v.0 <= v.1 && v.0 !! HIGH
    ensures (m + s) * v.1 == v.0 ==> v.0 <= v.1 && v.0 * HIGH == v.1 * s
  {
    hide HIGH;
    forall b: nat ensures b in (m + s) * v.1 * HIGH <==> b in v.1 * s {
    }
  }

  lemma OneValueFits(v: (Bits, Bits), s: Bits)
    requires s <= HIGH
    ensures (forall m: Bits :: m !! HIGH ==> ((m + s) * v.1 == v.0 <==> m * v.1 == v.0)) <==>
      v.1 !! s || !(v.0 <= v.1 && (v.0 !! HIGH || v.0 * HIGH == v.1 * s))
  {
    hide HIGH;
    if v.1 !! s {
      forall m: Bits ensures (m + s) * v.1 == m * v.1 {
      }
    } else if v.0 <= v.1 && (v.0 !! HIGH || v.0 * HIGH == v.1 * s) {
      var m := v.0 - HIGH;
      var b :| b in s && b in v.1;
      assert b in (m + s) * v.1 && b !in m * v.1;
      if v.0 !! HIGH {
        assert m * v.1 == v.0;
      } else {
        forall b: nat ensures b in (m + s) * v.1 <==> b in v.0 {
          assert b in HIGH ==> (b in v.0 <==> b in v.0 * HIGH);
        }
        assert (m + s) * v.1 == v.0;
      }
    } else {
      forall m: Bits | m !! HIGH ensures (m + s) * v.1 != v.0 && m * v.1 != v.0 {
        MetBy(v, s, m);
      }
    }
  }

  /** A value given without a mask is compared with all 32 bits: the definition fits if and only if
      no dimension of its block uses a bit. */
  lemma UnmaskedValueFits(d: Definition, ingress: bool, v: (Bits, Bits))
    requires OnlyValue(d, v) && HIGH <= v.1 && v.0 <= v.1 && v.0 !! HIGH
    ensures ConnmarkFits(d, ingress) <==> forall j :: 0 <= j < |Dims(d, ingress)| ==> !Dims(d, ingress)[j].multi
  {
    hide Dims, ConnmarkFits, FinalBits;
    SingleValueFits(d, ingress, v);
    var ds := Dims(d, ingress);
    if j :| 0 <= j < |ds| && ds[j].multi {
      FinalBitsAt(ds, 0, 24 + j);
      assert 24 + j == 24 + 0 + j && 24 + j in HIGH;
    } else {
      NoBitsAtAll(ds);
    }
  }

  // ---------- The whole rule list ----------

  /** The whole rule list, with the white-list rules: what else they let through, and the mark
      restored after every run without a verdict. */
  lemma CompileRun(d: Definition, ingress: bool, goal: Goal, p: Packet, m: Bits)
    requires NonEmpty(d, ingress) && ResetFits(d, goal) && Fair(p, m)
    ensures var r := Run(Compile(d, ingress, goal), p, m);
      && (if Means(d, ingress, p, m + Shift(d, ingress)) || Slips(d, ingress, goal, p) || LetThrough(d, ingress, goal, p)
          then r.0 == Some(goal.target) else r == (None, m))
      && SameLow(r.1, m)
  {
    hide Block, Means, Slips, Run, Shift;
    BlockRun(d, ingress, goal, p, m);
    WhitelistsIs(d, ingress, goal);
    if Whitelists(d, ingress, goal) {
      RunConcat(Block(d, ingress, goal), Whitelist(), p, m);
      WhitelistRun(p, m);
    } else {
      assert Block(d, ingress, goal) + [] == Block(d, ingress, goal);
    }
  }

  /** TCP to port 80 that is not an HTTP request, when a URL is white-listed. */
  predicate LetThrough(d: Definition, ingress: bool, goal: Goal, p: Packet) {
    && !ingress && goal.target == "ACCEPT" && UrlCount(d.url) + UrlCount(d.notUrl) > 0
    && p.proto == Tcp && p.holds(DstPort("80")) && !p.holds(Http)
  }

  lemma WhitelistsIs(d: Definition, ingress: bool, goal: Goal)
    ensures var urls := UrlCount(d.url) + UrlCount(d.notUrl);
      Whitelists(d, ingress, goal) <==> !ingress && goal.target == "ACCEPT" && urls > 0
  {
    var p: Packet :| true;
    UrlTestsSpec(d.url, 0, p, {});
    UrlTestsSpec(d.notUrl, 0, p, {});
  }

  lemma WhitelistRun(p: Packet, m: Bits)
    requires m !! HIGH
    ensures Run(Whitelist(), p, m) ==
      if p.proto == Tcp && p.holds(DstPort("80")) && !p.holds(Http) then (Some("ACCEPT"), m) else (None, m)
  {
    var rs := Whitelist();
    assert rs[1..] == [rs[1], rs[2]] && rs[1..][1..] == [rs[2]] && [rs[2]][1..] == [];
    assert AllHold(rs[0].tests, p, m) <==> p.holds(Http) by {
      assert AllHold(rs[0].tests, p, m) <==> LitHolds(rs[0].tests[0], p, m);
    }
    var m1 := if p.proto == Tcp && p.holds(Http) then Masked(m, HIGH, HIGH) else m;
    assert m1 * HIGH == HIGH <==> p.proto == Tcp && p.holds(Http) by {
      assert 24 in HIGH && 24 !in m;
    }
    assert AllHold(rs[1].tests, p, m1) <==> LitHolds(rs[1].tests[0], p, m1) && LitHolds(rs[1].tests[1], p, m1);
    assert Masked(m1, {}, HIGH) == m;
  }

  // ---------- Composition ----------

  datatype Job = Job(d: Definition, ingress: bool, goal: Goal)

  function CompileAll(js: seq<Job>): seq<Rule> {
    if js == [] then [] else Compile(js[0].d, js[0].ingress, js[0].goal) + CompileAll(js[1..])
  }

  ghost predicate JobsOk(js: seq<Job>) {
    forall i :: 0 <= i < |js| ==> NonEmpty(js[i].d, js[i].ingress) && ResetFits(js[i].d, js[i].goal)
  }

  ghost predicate Takes(j: Job, p: Packet, m: Bits) {
    || Means(j.d, j.ingress, p, m + Shift(j.d, j.ingress))
    || Slips(j.d, j.ingress, j.goal, p)
    || LetThrough(j.d, j.ingress, j.goal, p)
  }

  /** Where nothing slips and the marks fit, a block takes what its definition means, and what the
      white list lets through. */
  lemma TakesMeant(j: Job, p: Packet, m: Bits)
    requires Fair(p, m) && Guards(j.d, j.ingress, j.goal) && ConnmarkFits(j.d, j.ingress)
    ensures Takes(j, p, m) <==> Means(j.d, j.ingress, p, m) || LetThrough(j.d, j.ingress, j.goal, p)
  {
    hide Means, Guards, Shift, ConnmarkMeets;
    MeansByConnmark(j.d, j.ingress, p, m, m + Shift(j.d, j.ingress));
  }

  /** The target of the first definition that takes the packet. */
  ghost function FirstTarget(js: seq<Job>, p: Packet, m: Bits): Option<string> {
    if js == [] then None
    else if Takes(js[0], p, m) then Some(js[0].goal.target)
    else FirstTarget(js[1..], p, m)
  }

  /** Main result: blocks one after another give the verdict of the first that takes the packet,
      each judging the packet with the connection mark it came with; none touches the low 24 bits. */
  lemma {:induction false} BlocksCompose(js: seq<Job>, p: Packet, m: Bits)
    requires JobsOk(js) && Fair(p, m)
    ensures var r := Run(CompileAll(js), p, m);
      r.0 == FirstTarget(js, p, m) && SameLow(r.1, m) && (r.0.None? ==> r.1 == m)
    decreases |js|
  {
    if js != [] {
      hide Compile, Takes, Run, JobsOk, SameLow, Fair;
      var j := js[0];
      JobsSplit(js);
      RunConcat(Compile(j.d, j.ingress, j.goal), CompileAll(js[1..]), p, m);
      TakesRun(j, p, m);
      BlocksCompose(js[1..], p, m);
    } else {
      hide Compile, Takes, Run, JobsOk;
      EmptyRun(p, m);
    }
  }

  lemma JobsSplit(js: seq<Job>)
    requires JobsOk(js) && js != []
    ensures JobsOk([js[0]]) && JobsOk(js[1..])
  {
    hide NonEmpty, ResetFits;
  }

  lemma TakesRun(j: Job, p: Packet, m: Bits)
    requires JobsOk([j]) && Fair(p, m)
    ensures var r := Run(Compile(j.d, j.ingress, j.goal), p, m);
      (if Takes(j, p, m) then r.0 == Some(j.goal.target) else r == (None, m)) && SameLow(r.1, m)
  {
    assert [j][0] == j;
    CompileRun(j.d, j.ingress, j.goal, p, m);
  }

  /** At most eight bits are in use, one for each dimension and one for the single tests, and no two
      of them share one. */
  lemma EightBits(d: Definition, ingress: bool)
    ensures FinalMask(Dims(d, ingress), Singles(Dims(d, ingress), Extras(d))) <= HIGH
    ensures forall i, j :: 0 <= i < j <= |Dims(d, ingress)| ==> BitAction(false, i).bits !! BitAction(false, j).bits
    ensures forall i :: 0 <= i <= |Dims(d, ingress)| ==> BitAction(false, i).mask <= HIGH && |BitAction(false, i).bits| == 1
  {
    var ds := Dims(d, ingress);
    var singles := Singles(ds, Extras(d));
    hide Dims;
    forall b | b in FinalMask(ds, singles) ensures b in HIGH {
      FinalBitsAt(ds, 0, b);
      assert 24 <= b <= 24 + |ds| <= 31;
    }
  }

  // ---------- Why the other hypotheses are there ----------

  /** A TCP reset asked for in the options puts the verdict under a TCP guard: in a block with bits,
      UDP packets never reach the target, though the rule may be for UDP or for both. */
  lemma ResetLosesUdp(d: Definition, ingress: bool, goal: Goal, p: Packet, m: Bits)
    requires ListsFilled(d) && m !! HIGH && p.proto == Udp
    requires goal.reset && !goal.bare && MultiRules(Dims(d, ingress), 0, ScopeOf(d)) != []
    ensures !Reaches(Block(d, ingress, goal), p, m)
  {
    hide Dims, Extras, MarkBlock, Run, Singles, MultiRules, ScopeOf, ListsFilled, EndBit;
    var ds := Dims(d, ingress);
    ShapeOfDims(d, ingress);
    MarkBlockRun(ds, Singles(ds, Extras(d)), ScopeOf(d), Settle(goal, ScopeOf(d)), HasPorts(d), p, m);
  }

  /** So such a block is wrong for every definition that some connection mark meets, unless the
      definition is for TCP alone. */
  lemma ResetLosesMeant(d: Definition, ingress: bool, goal: Goal, m: Bits)
    requires NonEmpty(d, ingress) && m !! HIGH && ConnmarkMeets(d, m)
    requires goal.reset && !goal.bare && MultiRules(Dims(d, ingress), 0, ScopeOf(d)) != [] && ScopeOf(d) != Only(Tcp)
    ensures exists p :: Fair(p, m) && Means(d, ingress, p, m) && !Reaches(Block(d, ingress, goal), p, m)
  {
    hide Block, Means, Run, ConnmarkMeets, Dims;
    var p := Agreeable(d, ingress);
    AgreeableMeans(d, ingress, m);
    ResetLosesUdp(d, ingress, goal, p, m);
    assert Fair(p, m);
  }

  /** A destination given by hardware addresses only can never be met, yet it is passed over: the
      block reaches its target as if nothing were asked of the destination. */
  lemma UnusableListPassedOver(d: Definition, macs: seq<string>, goal: Goal, p: Packet, m: Bits)
    requires d.remoteAddr == Some(Addrs([], [], macs)) && ListsFilled(d) && ResetFits(d, goal) && Fair(p, m)
    requires AddrFilled(d.localAddr, true) && AddrFilled(d.notLocalAddr, true)
    ensures var rest := d.(remoteAddr := None, notRemoteAddr := None);
      && !Means(d, false, p, m)
      && (Reaches(Block(d, false, goal), p, m) <==> Means(rest, false, p, m + Shift(d, false)) || Slips(d, false, goal, p))
  {
    hide Barred;
    var rest := d.(remoteAddr := None, notRemoteAddr := None);
    var read := m + Shift(d, false);
    NeverBarred(d, false, p);
    DropsOneDim(d, macs, p, read);
    MeansDims(rest, false, p, read);
    BlockDims(d, false, goal, p, m);
    hide Block, Shift, Dims, Slips, Run, Extras, AllDims, AllHold;
    SameScope(d);
  }

  lemma SameScope(d: Definition)
    ensures var rest := d.(remoteAddr := None, notRemoteAddr := None); ScopeOf(rest) == ScopeOf(d) && Extras(rest) == Extras(d)
  {
  }

  lemma DropsOneDim(d: Definition, macs: seq<string>, p: Packet, m: Bits)
    requires d.remoteAddr == Some(Addrs([], [], macs))
    ensures AllDims(Dims(d, false), p, m) <==> AllDims(Dims(d.(remoteAddr := None, notRemoteAddr := None), false), p, m)
  {
    var rest := d.(remoteAddr := None, notRemoteAddr := None);
    assert DstTests(d.remoteAddr.value) == [];
    var dst := AddrDim([], false);
    assert DimHolds(dst, p, m);
    var front := [UrlDim(d), MarkDim(d), ConnmarkDim(d)] + SrcDims(d, false);
    var back := [SrcPortDim(d, false), DstPortDim(d, false)];
    assert [UrlDim(rest), MarkDim(rest), ConnmarkDim(rest)] + SrcDims(rest, false) == front;
    assert [SrcPortDim(rest, false), DstPortDim(rest, false)] == back;
    assert Dims(d, false) == front + ([dst] + back);
    assert Dims(rest, false) == front + back;
    hide UrlDim, MarkDim, ConnmarkDim, SrcDims, DstDims, SrcPortDim, DstPortDim, DimHolds, Dims;
    AllDimsConcat(front, [dst] + back, p, m);
    AllDimsConcat([dst], back, p, m);
    AllDimsConcat(front, back, p, m);
    assert AllDims([dst], p, m);
  }
}
