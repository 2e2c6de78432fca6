/**
 The construction of a rule list step by step: each dimension pushes its rules or its single test,
 claims a bit and records whether it is negated and whether it uses the bit; then the masks are
 summed up and the pieces put in order. The result is the list of RuleCompiler.
 */
module RuleBuilder {
  import opened Common
  import opened MarkBits
  import opened Netfilter
  import opened RuleCompiler

  lemma {:induction false} ValueRulesConcat(a: seq<Test>, b: seq<Test>, neg: bool, i: nat, scope: Scope, guard: bool)
    ensures ValueRules(a + b, neg, i, scope, guard) == ValueRules(a, neg, i, scope, guard) + ValueRules(b, neg, i, scope, guard)
  {
    if a == [] {
      assert a + b == b;
    } else {
      assert (a + b)[1..] == a[1..] + b;
      ValueRulesConcat(a[1..], b, neg, i, scope, guard);
    }
  }

  lemma {:induction false} MultiRulesPush(ds: seq<Dim>, d: Dim, i: nat, scope: Scope)
    ensures MultiRules(ds + [d], i, scope) == MultiRules(ds, i, scope) + DimRules(d, i + |ds|, scope)
    decreases |ds|
  {
    if ds == [] {
      assert ([] + [d])[1..] == [];
    } else {
      assert (ds + [d])[1..] == ds[1..] + [d];
      MultiRulesPush(ds[1..], d, i + 1, scope);
    }
  }

  lemma SinglesPush(ds: seq<Dim>, d: Dim, extras: seq<Literal>)
    ensures Singles(ds + [d], extras) == SingleOf(d) + Singles(ds, extras)
  {
    assert (ds + [d])[..|ds|] == ds;
  }

  method ComputeTime(d: Definition) returns (check: seq<Literal>)
    ensures check == TimeTests(d)
  {
    check := [];
    if d.weekly.Some? {
      check := check + [Lit(TimeRange(None, None, d.weekly), false)];
    } else if d.hours.Some? && d.weekdays.Some? {
      check := check + [Lit(TimeRange(d.hours, d.weekdays, None), false)];
    } else if d.hours.Some? {
      check := check + [Lit(TimeRange(d.hours, None, None), false)];
    } else if d.weekdays.Some? {
      check := check + [Lit(TimeRange(None, d.weekdays, None), false)];
    }
  }

  /** The checks that have no bit, appended as they are found. */
  method ComputeExtras(d: Definition) returns (check: seq<Literal>)
    ensures check == Extras(d)
  {
    hide TimeTests;
    check := ComputeTime(d);
    if d.layer7.Some? {
      check := check + [Lit(Layer7(d.layer7.value), false)];
    }
    if d.ipp2p.Some? {
      check := check + [Lit(Ipp2p(d.ipp2p.value), false)];
    }
    if d.minSize.Some? && d.maxSize.Some? {
      check := check + [Lit(Length(d.minSize.value, d.maxSize.value), false)];
    }
  }

  method CountUrls(lists: seq<Values>) returns (n: nat)
    ensures n == |UrlTests(lists, 0)|
  {
    n := 0;
    var k := 0;
    while k < |lists|
      invariant k <= |lists| && n + |UrlTests(lists[k..], k)| == |UrlTests(lists, 0)|
    {
      assert lists[k..][1..] == lists[k + 1..];
      if lists[k].Some? {
        n := n + |lists[k].value|;
      }
      k := k + 1;
    }
  }

  class Builder {
    const scope: Scope
    ghost const extras: seq<Literal>
    ghost var dims: seq<Dim>
    var multiRules: seq<Rule>
    var singleCheck: seq<Literal>
    var initialMasks: seq<bool>
    var finalMasks: seq<bool>
    var maskByteIndex: nat

    ghost predicate Valid()
      reads this
    {
      && multiRules == MultiRules(dims, 0, scope)
      && singleCheck == Singles(dims, extras)
      && |initialMasks| == |finalMasks| == maskByteIndex == |dims|
      && forall j :: 0 <= j < |dims| ==> initialMasks[j] == dims[j].neg && finalMasks[j] == dims[j].multi
    }

    constructor (scope: Scope, check: seq<Literal>)
      ensures Valid() && dims == [] && this.scope == scope && extras == check
    {
      this.scope, extras := scope, check;
      dims, multiRules, singleCheck := [], [], check;
      initialMasks, finalMasks, maskByteIndex := [], [], 0;
    }

    /** One check, under the guards it needs. */
    method Emit(ls: seq<Literal>, action: Action, requiresProto: bool)
      modifies `multiRules
      ensures multiRules == old(multiRules) + Guarded(ls, action, scope, requiresProto)
    {
      if scope == Both {
        if requiresProto {
          multiRules := multiRules + [Rule(Some(Tcp), ls, action)];
          multiRules := multiRules + [Rule(Some(Udp), ls, action)];
        } else {
          multiRules := multiRules + [Rule(None, ls, action)];
        }
      } else {
        multiRules := multiRules + [Rule(Some(scope.p), ls, action)];
      }
    }

    /** 0 without a list, 1 when a single value joined the single checks, 2 when rules were pushed. */
    method ComputeMultiRules(values: Option<seq<Test>>, neverSingle: bool, neg: bool, requiresProto: bool)
      returns (parseType: nat)
      modifies `multiRules, `singleCheck
      ensures values.None? ==> parseType == 0 && multiRules == old(multiRules) && singleCheck == old(singleCheck)
      ensures values.Some? && |values.value| == 1 && !neverSingle ==>
        parseType == 1 && multiRules == old(multiRules) && singleCheck == [Lit(values.value[0], neg)] + old(singleCheck)
      ensures values.Some? && !(|values.value| == 1 && !neverSingle) ==>
        && parseType == 2 && singleCheck == old(singleCheck)
        && multiRules == old(multiRules) + ValueRules(values.value, neg, maskByteIndex, scope, requiresProto)
    {
      parseType := 0;
      if values.Some? {
        var ts := values.value;
        if |ts| == 1 && !neverSingle {
          parseType := 1;
          singleCheck := [Lit(ts[0], neg)] + singleCheck;
        } else {
          parseType := 2;
          var action := BitAction(neg, maskByteIndex);
          PushEach(ts, action, neg, requiresProto);
        }
      }
    }

    method PushEach(ts: seq<Test>, action: Action, neg: bool, requiresProto: bool)
      requires action == BitAction(neg, maskByteIndex)
      modifies `multiRules
      ensures multiRules == old(multiRules) + ValueRules(ts, neg, maskByteIndex, scope, requiresProto)
    {
      hide BitAction, Guarded;
      var k := 0;
      while k < |ts|
        invariant k <= |ts|
        invariant multiRules + ValueRules(ts[k..], neg, maskByteIndex, scope, requiresProto)
               == old(multiRules) + ValueRules(ts, neg, maskByteIndex, scope, requiresProto)
      {
        assert ts[k..][1..] == ts[k + 1..];
        Emit([Lit(ts[k], false)], action, requiresProto);
        k := k + 1;
      }
    }

    /** The dimension just computed takes the next bit. */
    method Claim(ghost d: Dim, neg: bool, multi: bool)
      requires |initialMasks| == |finalMasks| == maskByteIndex == |dims|
      requires forall j :: 0 <= j < |dims| ==> initialMasks[j] == dims[j].neg && finalMasks[j] == dims[j].multi
      requires multiRules == MultiRules(dims, 0, scope) + DimRules(d, |dims|, scope)
      requires singleCheck == SingleOf(d) + Singles(dims, extras)
      requires neg == d.neg && multi == d.multi
      modifies `initialMasks, `finalMasks, `maskByteIndex, `dims
      ensures Valid() && dims == old(dims) + [d]
    {
      hide MultiRules, Singles, DimRules, SingleOf;
      MultiRulesPush(dims, d, 0, scope);
      SinglesPush(dims, d, extras);
      initialMasks := initialMasks + [neg];
      finalMasks := finalMasks + [multi];
      maskByteIndex := maskByteIndex + 1;
      dims := dims + [d];
    }

    /** Marks, connection marks and ports: the plain list if given, else the negated one. */
    method AddList(pos: Option<seq<Test>>, neg: Option<seq<Test>>, negIsMulti: bool, ports: bool, includeProto: bool)
      requires Valid() && (ports ==> includeProto) && (!ports && scope == Both ==> !includeProto)
      modifies this
      ensures Valid() && dims == old(dims) + [ListDim(pos, neg, negIsMulti, ports)]
    {
      var values, isNegated := pos, pos.None?;
      if values.None? {
        values := neg;
      }
      if values.None? {
        isNegated := false;
      }
      var parseType := ComputeMultiRules(values, negIsMulti && isNegated, isNegated, includeProto);
      ghost var d := ListDim(pos, neg, negIsMulti, ports);
      if values.Some? {
        SameGuards(d.tests, d.neg, maskByteIndex, scope, includeProto, ports);
      }
      assert multiRules == old(multiRules) + DimRules(d, |dims|, scope);
      assert singleCheck == SingleOf(d) + old(singleCheck);
      Claim(d, isNegated, parseType == 2);
    }

    /** The three kinds of addresses of one side, under one bit. */
    method AddAddrs(lists: seq<seq<Test>>, neg: bool, includeProto: bool)
      requires Valid() && |lists| == 3 && (scope == Both ==> !includeProto)
      modifies this
      ensures Valid() && dims == old(dims) + [AddrDim(lists[0] + lists[1] + lists[2], neg)]
    {
      ghost var ts := lists[0] + lists[1] + lists[2];
      var total := |lists[0]| + |lists[1]| + |lists[2]|;
      var isMulti := total > 1;
      hide MultiRules, Singles, ValueRules;
      NoValues(neg, maskByteIndex, scope, includeProto);
      PushValues(lists[0], [], isMulti, neg, includeProto);
      assert [] + lists[0] == lists[0];
      PushValues(lists[1], lists[0], isMulti, neg, includeProto);
      PushValues(lists[2], lists[0] + lists[1], isMulti, neg, includeProto);
      ghost var d := AddrDim(ts, neg);
      SameGuards(ts, neg, maskByteIndex, scope, includeProto, false);
      assert multiRules == old(multiRules) + DimRules(d, |dims|, scope);
      Claim(d, neg, isMulti);
    }

    /** The rules or the single check of the values so far. */
    ghost predicate Pushed(done: seq<Test>, isMulti: bool, neg: bool, includeProto: bool)
      reads this
    {
      && multiRules == MultiRules(dims, 0, scope)
           + (if isMulti then ValueRules(done, neg, maskByteIndex, scope, includeProto) else [])
      && singleCheck == (if !isMulti && |done| == 1 then [Lit(done[0], neg)] else []) + Singles(dims, extras)
    }

    method PushValues(ts: seq<Test>, ghost done: seq<Test>, isMulti: bool, neg: bool, includeProto: bool)
      requires Pushed(done, isMulti, neg, includeProto) && (!isMulti ==> |done + ts| <= 1)
      modifies `multiRules, `singleCheck
      ensures Pushed(done + ts, isMulti, neg, includeProto)
    {
      hide MultiRules, Singles, ValueRules;
      ValueRulesConcat(done, ts, neg, maskByteIndex, scope, includeProto);
      if ts != [] {
        var _ := ComputeMultiRules(Some(ts), isMulti, neg, includeProto);
        assert !isMulti ==> done == [] && done + ts == ts;
      } else {
        assert done + ts == done;
      }
    }

    method PushUrls(lists: seq<Values>, neg: bool, isMulti: bool, includeProto: bool)
      requires Pushed([], isMulti, neg, includeProto) && isMulti == (|UrlTests(lists, 0)| > 1)
      modifies `multiRules, `singleCheck
      ensures Pushed(UrlTests(lists, 0), isMulti, neg, includeProto)
    {
      hide Pushed;
      ghost var all := UrlTests(lists, 0);
      ghost var done := [];
      var k := 0;
      assert [] + all == all;
      while k < |lists|
        invariant k <= |lists| && done + UrlTests(lists[k..], k) == all
        invariant Pushed(done, isMulti, neg, includeProto)
      {
        assert lists[k..][1..] == lists[k + 1..];
        ghost var rest := UrlTests(lists[k + 1..], k + 1);
        if lists[k].Some? {
          var ts := Tests(lists[k].value, UrlKind(k));
          assert done + (ts + rest) == (done + ts) + rest;
          PushValues(ts, done, isMulti, neg, includeProto);
          done := done + ts;
        } else {
          assert [] + rest == rest;
        }
        k := k + 1;
      }
      assert done + [] == done;
    }

    /** The six URL lists, the negated ones only when no plain one has a value. */
    method AddUrls(d: Definition, lists: seq<Values>, neg: bool, isMulti: bool, includeProto: bool)
      requires Valid() && dims == [] && (scope == Both ==> !includeProto)
      requires UrlDim(d) == Dim(UrlTests(lists, 0), neg, isMulti, false, true) && isMulti == (|UrlTests(lists, 0)| > 1)
      modifies this
      ensures Valid() && dims == [UrlDim(d)]
    {
      hide MultiRules, Singles, UrlDim, UrlTests, ValueRules;
      NothingYet(neg, scope, includeProto, extras);
      PushUrls(lists, neg, isMulti, includeProto);
      SameGuards(UrlTests(lists, 0), neg, 0, scope, includeProto, false);
      Claim(UrlDim(d), neg, isMulti);
    }
  }

  lemma NoValues(neg: bool, i: nat, scope: Scope, guard: bool)
    ensures ValueRules([], neg, i, scope, guard) == []
  {
  }

  lemma NothingYet(neg: bool, scope: Scope, guard: bool, extras: seq<Literal>)
    ensures MultiRules([], 0, scope) == [] && Singles([], extras) == extras
    ensures ValueRules([], neg, 0, scope, guard) == []
  {
  }

  /** Under one protocol the guard is there anyway; under both, only ports ask for it. */
  lemma {:induction false} SameGuards(ts: seq<Test>, neg: bool, i: nat, scope: Scope, g: bool, h: bool)
    requires scope == Both ==> g == h
    ensures ValueRules(ts, neg, i, scope, g) == ValueRules(ts, neg, i, scope, h)
  {
    if ts != [] {
      SameGuards(ts[1..], neg, i, scope, g, h);
    }
  }

  /** Sums up the masks bit by bit, shifting the two lists; the bit past them is the single checks'. */
  method SumMasks(initialMasks: seq<bool>, finalMasks: seq<bool>, n: nat, ghost ds: seq<Dim>)
    returns (initial: Bits, final: Bits)
    requires |ds| > 0 && ds[0].url && forall j :: 1 <= j < |ds| ==> !ds[j].url
    requires |initialMasks| == |finalMasks| == |ds| && |ds| <= n <= |ds| + 1
    requires forall j :: 0 <= j < |ds| ==> initialMasks[j] == ds[j].neg && finalMasks[j] == ds[j].multi
    ensures initial == InitialBits(ds, 0)
    ensures final == FinalBits(ds, 0) + if n > |ds| then {24 + |ds|} else {}
  {
    initial, final := {}, {};
    var initials, finals := initialMasks, finalMasks;
    var next := 0;
    while next < n
      invariant next <= n
      invariant next <= |ds| ==> initials == initialMasks[next..] && finals == finalMasks[next..]
      invariant next <= |ds| ==> final + FinalBits(ds[next..], next) == FinalBits(ds, 0)
      invariant next <= |ds| ==> initial + InitialBits(ds[next..], next) == InitialBits(ds, 0)
      invariant next > |ds| ==> initial == InitialBits(ds, 0) && final == FinalBits(ds, 0) + {24 + |ds|}
    {
      if next < |ds| {
        assert ds[next..][1..] == ds[next + 1..];
      } else {
        assert ds[next..] == [];
      }
      var isMulti := true;
      if finals != [] {
        isMulti, finals := finals[0], finals[1..];
      }
      var bit := if isMulti then {24 + next} else {};
      final := final + bit;
      if initials != [] {
        var isNegated := initials[0];
        initials := initials[1..];
        if isNegated && next != 0 {
          initial := initial + bit;
        }
      }
      next := next + 1;
    }
    assert n == |ds| ==> ds[n..] == [];
  }

  /** All dimensions in turn: URL tests, marks, connection marks, addresses, ports. */
  method Collect(d: Definition, ingress: bool) returns (b: Builder, urlInitial: bool, urlCount: nat)
    ensures fresh(b) && b.Valid() && b.scope == ScopeOf(d) && b.extras == Extras(d) && b.dims == Dims(d, ingress)
    ensures urlInitial == (UrlDim(d).multi && UrlDim(d).neg) && (urlCount > 0 <==> HasUrls(d))
  {
    hide MultiRules, Singles, Extras, UrlTests, SrcDims, DstDims, SrcPortDim, DstPortDim, ListDim;
    var check := ComputeExtras(d);
    var lists, urlNegated := d.url, false;
    urlCount := CountUrls(lists);
    if urlCount == 0 {
      lists, urlNegated := d.notUrl, true;
      urlCount := CountUrls(lists);
    }
    var includeProto := DefScope(d) != Both;
    var scope := if urlCount > 0 then Only(Tcp) else DefScope(d);
    var urlMulti := urlCount > 1;
    b := new Builder(scope, check);
    b.AddUrls(d, lists, urlNegated, urlMulti, includeProto);
    b.AddList(Mapped(d.mark, MarkKind), Mapped(d.notMark, MarkKind), true, false, includeProto);
    b.AddList(MarkTests(d.connmark), MarkTests(d.notConnmark), false, false, includeProto);
    assert b.dims == [UrlDim(d), MarkDim(d), ConnmarkDim(d)];
    AddSides(b, d, ingress, includeProto);
    urlInitial := urlNegated && urlMulti;
  }

  lemma OnlyFirstUrl(d: Definition, ingress: bool)
    ensures var ds := Dims(d, ingress); ds[0] == UrlDim(d) && ds[0].url && forall j :: 1 <= j < |ds| ==> !ds[j].url
  {
  }

  method ComputeRules(d: Definition, ingress: bool, goal0: Goal) returns (rules: seq<Rule>)
    ensures rules == Compile(d, ingress, goal0)
  {
    hide MultiRules, Singles, Extras, Dims, UrlDim, ScopeOf, MarkBlock, PlainBlock, HasUrls;
    var b, urlInitial, urlCount := Collect(d, ingress);
    OnlyFirstUrl(d, ingress);
    var goal := goal0;
    if goal.bare && b.scope == Only(Tcp) && goal.target == "REJECT" {
      goal := Goal(goal.target, false, true);
    }
    if b.multiRules != [] {
      rules := MarkRules(b, b.scope, goal, HasPorts(d), urlInitial);
    } else {
      rules := PlainRules(b.singleCheck, b.scope, goal, HasPorts(d));
    }
    assert rules == Block(d, ingress, goal0);
    if urlCount > 0 && goal.target == "ACCEPT" && !ingress {
      rules := rules + Whitelist();
    }
  }

  /** Addresses and ports; for ingress the remote side is the source. */
  method AddSides(b: Builder, d: Definition, ingress: bool, includeProto: bool)
    requires b.Valid() && (b.scope == Both ==> !includeProto)
    modifies b
    ensures b.Valid()
    ensures b.dims == old(b.dims) + SrcDims(d, ingress) + DstDims(d, ingress) + [SrcPortDim(d, ingress), DstPortDim(d, ingress)]
  {
    hide MultiRules, Singles, ListDim;
    var src, notSrc := if ingress then d.remoteAddr else d.localAddr, if ingress then d.notRemoteAddr else d.notLocalAddr;
    var srcNegated := src.None? && notSrc.Some?;
    if srcNegated {
      src := notSrc;
    }
    if src.Some? {
      var a := src.value;
      b.AddAddrs([Tests(a.ips, SrcIpKind), Tests(a.ranges, SrcRangeKind), Tests(a.macs, SrcMacKind)], srcNegated, includeProto);
    }
    assert b.dims == old(b.dims) + SrcDims(d, ingress);
    var dst, notDst := if ingress then d.localAddr else d.remoteAddr, if ingress then d.notLocalAddr else d.notRemoteAddr;
    var dstNegated := dst.None? && notDst.Some?;
    if dstNegated {
      dst := notDst;
    }
    if dst.Some? {
      var a := dst.value;
      assert DstTests(a) + [] == DstTests(a);
      b.AddAddrs([Tests(a.ips, DstIpKind), Tests(a.ranges, DstRangeKind), []], dstNegated, includeProto);
    }
    assert b.dims == old(b.dims) + SrcDims(d, ingress) + DstDims(d, ingress);
    b.AddList(Mapped(if ingress then d.remotePort else d.localPort, SrcPortKind),
              Mapped(if ingress then d.notRemotePort else d.notLocalPort, SrcPortKind), false, true, true);
    b.AddList(Mapped(if ingress then d.localPort else d.remotePort, DstPortKind),
              Mapped(if ingress then d.notLocalPort else d.notRemotePort, DstPortKind), false, true, true);
  }

  /** The initial marks, one rule for the URL bit and one for the others. */
  method StartRules(initial: Bits, urlInitial: bool) returns (start: seq<Rule>)
    ensures start == (if initial != {} then [Rule(None, [], SetMark(initial, HIGH))] else [])
      + (if urlInitial then [Rule(Some(Tcp), [Lit(Http, false)], SetMark({24}, {24}))] else [])
  {
    start := [];
    if initial != {} {
      start := start + [Rule(None, [], SetMark(initial, HIGH))];
    }
    if urlInitial {
      start := start + [Rule(Some(Tcp), [Lit(Http, false)], SetMark({24}, {24}))];
    }
  }

  /** The single tests, if any, share one more bit. */
  method LastRules(b: Builder, scope: Scope, ports: bool) returns (n: nat)
    requires b.Valid() && b.scope == scope
    modifies b`multiRules
    ensures n == |b.dims| + if b.singleCheck != [] then 1 else 0
    ensures b.multiRules == MultiRules(b.dims, 0, scope)
      + if b.singleCheck != [] then Guarded(b.singleCheck, BitAction(false, |b.dims|), scope, ports) else []
  {
    hide MultiRules, Singles, Guarded, BitAction;
    n := b.maskByteIndex;
    if b.singleCheck != [] {
      b.Emit(b.singleCheck, BitAction(false, n), !(scope == Both && !ports));
      GuardByPorts(b.singleCheck, BitAction(false, n), scope, ports);
      n := n + 1;
    }
  }

  /** Puts the initial marks, the collected rules, the verdict and the clearing in order. */
  method MarkRules(b: Builder, scope: Scope, goal: Goal, ports: bool, urlInitial: bool) returns (rules: seq<Rule>)
    requires b.Valid() && b.scope == scope && |b.dims| > 0 && b.dims[0].url
    requires forall j :: 1 <= j < |b.dims| ==> !b.dims[j].url
    requires urlInitial == (b.dims[0].multi && b.dims[0].neg)
    modifies b`multiRules
    ensures rules == MarkBlock(b.dims, Singles(b.dims, b.extras), MultiRules(b.dims, 0, scope), scope, goal, ports)
  {
    hide MultiRules, Singles, FinalBits, InitialBits, Guarded, BitAction, Verdict;
    var n := LastRules(b, scope, ports);
    var initial, final := SumMasks(b.initialMasks, b.finalMasks, n, b.dims);
    var start := StartRules(initial, urlInitial);
    var jumps := JumpRules([Lit(Connmark(final, HIGH), false)], scope, goal);
    rules := start + b.multiRules + jumps + [Rule(None, [], SetMark({}, HIGH))];
    ghost var multi := MultiRules(b.dims, 0, scope);
    ghost var last := if b.singleCheck != [] then Guarded(b.singleCheck, BitAction(false, |b.dims|), scope, ports) else [];
    assert start + (multi + last) == start + multi + last;
  }

  lemma GuardByPorts(ls: seq<Literal>, action: Action, scope: Scope, ports: bool)
    ensures Guarded(ls, action, scope, !(scope == Both && !ports)) == Guarded(ls, action, scope, ports)
  {
  }

  method JumpRules(ls: seq<Literal>, scope: Scope, goal: Goal) returns (rules: seq<Rule>)
    ensures rules == Verdict(ls, scope, goal)
  {
    if goal.target == "REJECT" && goal.bare && scope != Both {
      rules := [Rule(Some(Tcp), ls, Jump(goal.target))];
      rules := rules + [Rule(None, ls, Jump(goal.target))];
    } else {
      rules := [Rule(if goal.reset then Some(Tcp) else None, ls, Jump(goal.target))];
    }
  }

  method PlainRules(check: seq<Literal>, scope: Scope, goal: Goal, ports: bool) returns (rules: seq<Rule>)
    ensures rules == PlainBlock(check, scope, goal, ports)
  {
    rules := [];
    if scope == Both {
      if !ports {
        if goal.target == "REJECT" && goal.bare {
          rules := rules + [Rule(Some(Tcp), check, Jump(goal.target))];
        }
        rules := rules + [Rule(None, check, Jump(goal.target))];
      } else {
        rules := rules + [Rule(Some(Tcp), check, Jump(goal.target))];
        rules := rules + [Rule(Some(Udp), check, Jump(goal.target))];
      }
    } else {
      rules := rules + [Rule(Some(scope.p), check, Jump(goal.target))];
    }
  }
}
