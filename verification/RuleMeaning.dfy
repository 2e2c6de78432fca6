/**
 What a rule definition means, stated on the definition alone, and the proof that its rule list
 reaches the target on exactly the packets it means.
 */
module RuleMeaning {
  import opened Common
  import opened MarkBits
  import opened Netfilter
  import opened RuleCompiler

  // ---------- Meaning ----------

  predicate InScope(scope: Scope, p: Packet) { scope.Only? ==> p.proto == scope.p }

  ghost predicate SomeUrl(lists: seq<Values>, p: Packet) { SomeUrlFrom(lists, 0, p) }

  /** List k of the options holds a value that matches; the kinds are numbered from `kind`. */
  ghost predicate SomeUrlFrom(lists: seq<Values>, kind: nat, p: Packet) {
    exists k, v :: 0 <= k < |lists| && lists[k].Some? && v in lists[k].value && p.holds(Url(kind + k, v))
  }

  function UrlCount(lists: seq<Values>): nat {
    if lists == [] then 0 else (if lists[0].Some? then |lists[0].value| else 0) + UrlCount(lists[1..])
  }

  /** A plain URL list asks for a match; failing that, a negated one forbids any, and one of
      several values also asks for an HTTP request. */
  ghost predicate UrlMeets(d: Definition, p: Packet) {
    if UrlCount(d.url) > 0 then SomeUrl(d.url, p)
    else !SomeUrl(d.notUrl, p) && (UrlCount(d.notUrl) > 1 ==> p.holds(Http))
  }

  ghost predicate MarkMeets(d: Definition, p: Packet) {
    if d.mark.Some? then exists v :: v in d.mark.value && p.holds(Mark(v))
    else d.notMark.Some? ==> forall v :: v in d.notMark.value ==> !p.holds(Mark(v))
  }

  ghost predicate ConnmarkMeets(d: Definition, m: Bits) {
    if d.connmark.Some? then exists v :: v in d.connmark.value && m * v.1 == v.0
    else d.notConnmark.Some? ==> forall v :: v in d.notConnmark.value ==> m * v.1 != v.0
  }

  ghost predicate FromAddr(a: Addrs, p: Packet) {
    || (exists v :: v in a.ips && p.holds(SrcIp(v)))
    || (exists v :: v in a.ranges && p.holds(SrcRange(v)))
    || (exists v :: v in a.macs && p.holds(SrcMac(v)))
  }

  ghost predicate ToAddr(a: Addrs, p: Packet) {
    || (exists v :: v in a.ips && p.holds(DstIp(v)))
    || (exists v :: v in a.ranges && p.holds(DstRange(v)))
  }

  ghost predicate SrcMeets(pos: Option<Addrs>, neg: Option<Addrs>, p: Packet) {
    if pos.Some? then FromAddr(pos.value, p) else neg.Some? ==> !FromAddr(neg.value, p)
  }

  ghost predicate DstMeets(pos: Option<Addrs>, neg: Option<Addrs>, p: Packet) {
    if pos.Some? then ToAddr(pos.value, p) else neg.Some? ==> !ToAddr(neg.value, p)
  }

  ghost predicate SrcPortMeets(pos: Values, neg: Values, p: Packet) {
    if pos.Some? then exists v :: v in pos.value && p.holds(SrcPort(v))
    else neg.Some? ==> forall v :: v in neg.value ==> !p.holds(SrcPort(v))
  }

  ghost predicate DstPortMeets(pos: Values, neg: Values, p: Packet) {
    if pos.Some? then exists v :: v in pos.value && p.holds(DstPort(v))
    else neg.Some? ==> forall v :: v in neg.value ==> !p.holds(DstPort(v))
  }

  /** A definition with URLs is for TCP, another one for the protocol it names, if it names one. */
  predicate ProtoMeets(d: Definition, p: Packet) {
    if UrlCount(d.url) + UrlCount(d.notUrl) > 0 || d.proto == Some("tcp") then p.proto == Tcp
    else d.proto == Some("udp") ==> p.proto == Udp
  }

  /** A weekly time range takes the place of hours and weekdays; a size needs both bounds. */
  predicate ExtrasMeet(d: Definition, p: Packet) {
    && (d.weekly.Some? ==> p.holds(TimeRange(None, None, d.weekly)))
    && (d.weekly.None? && (d.hours.Some? || d.weekdays.Some?) ==> p.holds(TimeRange(d.hours, d.weekdays, None)))
    && (d.layer7.Some? ==> p.holds(Layer7(d.layer7.value)))
    && (d.ipp2p.Some? ==> p.holds(Ipp2p(d.ipp2p.value)))
    && (d.minSize.Some? && d.maxSize.Some? ==> p.holds(Length(d.minSize.value, d.maxSize.value)))
  }

  /** The packet has the rule's protocol and satisfies every option of the definition. On ingress
      the remote side is the source, otherwise the destination. */
  ghost predicate Means(d: Definition, ingress: bool, p: Packet, m: Bits) {
    && ProtoMeets(d, p)
    && ExtrasMeet(d, p)
    && UrlMeets(d, p) && MarkMeets(d, p) && ConnmarkMeets(d, m)
    && SrcMeets(if ingress then d.remoteAddr else d.localAddr, if ingress then d.notRemoteAddr else d.notLocalAddr, p)
    && DstMeets(if ingress then d.localAddr else d.remoteAddr, if ingress then d.notLocalAddr else d.notRemoteAddr, p)
    && SrcPortMeets(if ingress then d.remotePort else d.localPort, if ingress then d.notRemotePort else d.notLocalPort, p)
    && DstPortMeets(if ingress then d.localPort else d.remotePort, if ingress then d.notLocalPort else d.notRemotePort, p)
  }

  // ---------- What the definition must satisfy ----------

  predicate Filled<T>(vs: Option<seq<T>>) { vs.Some? ==> vs.value != [] }

  predicate AddrFilled(a: Option<Addrs>, src: bool) {
    a.Some? ==> a.value.ips != [] || a.value.ranges != [] || (src && a.value.macs != [])
  }

  /** Every list of marks or ports that is given has a value. */
  predicate ListsFilled(d: Definition) {
    && Filled(d.mark) && Filled(d.notMark) && Filled(d.connmark) && Filled(d.notConnmark)
    && Filled(d.localPort) && Filled(d.notLocalPort) && Filled(d.remotePort) && Filled(d.notRemotePort)
  }

  predicate AddrsFilled(d: Definition, ingress: bool) {
    && AddrFilled(d.localAddr, !ingress) && AddrFilled(d.notLocalAddr, !ingress)
    && AddrFilled(d.remoteAddr, ingress) && AddrFilled(d.notRemoteAddr, ingress)
  }

  /** Every list that is given has a value the compiler uses. */
  predicate NonEmpty(d: Definition, ingress: bool) { ListsFilled(d) && AddrsFilled(d, ingress) }

  /** Some rule on the way to the target looks at the protocol, or none has to. */
  predicate Guards(d: Definition, ingress: bool, goal: Goal) {
    var ds := Dims(d, ingress);
    || ScopeOf(d) == Both
    || (forall j :: 0 <= j < |ds| ==> !ds[j].multi)
    || Singles(ds, Extras(d)) != []
    || (exists j :: 0 <= j < |ds| && ds[j].multi && (!ds[j].neg || ds[j].url))
    || Settle(goal, ScopeOf(d)).reset
  }

  /** A TCP reset is asked for only when the rule is for TCP. */
  predicate ResetFits(d: Definition, goal: Goal) { goal.reset ==> ScopeOf(d) == Only(Tcp) }

  // ---------- Dimensions and their meaning ----------

  ghost predicate AnyHolds(ts: seq<Test>, p: Packet, m: Bits) {
    exists i :: 0 <= i < |ts| && TestHolds(ts[i], p, m)
  }

  ghost predicate DimHolds(d: Dim, p: Packet, m: Bits) {
    if d.tests == [] then true
    else if d.neg then !AnyHolds(d.tests, p, m) && (d.url && d.multi ==> p.holds(Http))
    else AnyHolds(d.tests, p, m)
  }

  /** A dimension holds tests exactly when it is in use, and bits only when it has two tests or
      is negated. */
  predicate DimOk(d: Dim) {
    && (d.multi ==> d.tests != [] && (|d.tests| > 1 || d.neg))
    && (!d.multi ==> |d.tests| <= 1)
  }

  /** Tests that do not look at the connection mark. */
  predicate Blind(ts: seq<Test>) { forall i :: 0 <= i < |ts| ==> !ts[i].Connmark? }

  lemma {:induction false} UrlTestsSpec(lists: seq<Values>, kind: nat, p: Packet, m: Bits)
    ensures |UrlTests(lists, kind)| == UrlCount(lists)
    ensures AnyHolds(UrlTests(lists, kind), p, m) <==> SomeUrlFrom(lists, kind, p)
    ensures forall i :: 0 <= i < |UrlTests(lists, kind)| ==> UrlTests(lists, kind)[i].Url?
    decreases |lists|
  {
    hide AnyHolds;
    if lists == [] {
      assert !AnyHolds([], p, m) by { NoneHolds(p, m); }
    } else {
      var first := if lists[0].Some? then Tests(lists[0].value, UrlKind(kind)) else [];
      UrlTestsSpec(lists[1..], kind + 1, p, m);
      AnyConcat(first, UrlTests(lists[1..], kind + 1), p, m);
      if lists[0].Some? {
        TestsSpec(lists[0].value, UrlKind(kind), p, m);
      } else {
        NoneHolds(p, m);
      }
      SomeUrlStep(lists, kind, p);
    }
  }

  lemma NoneHolds(p: Packet, m: Bits)
    ensures !AnyHolds([], p, m)
  {
  }

  lemma SomeUrlStep(lists: seq<Values>, kind: nat, p: Packet)
    requires lists != []
    ensures SomeUrlFrom(lists, kind, p) <==>
      (lists[0].Some? && exists v :: v in lists[0].value && p.holds(Url(kind, v))) || SomeUrlFrom(lists[1..], kind + 1, p)
  {
    if k, v :| 0 <= k < |lists| && lists[k].Some? && v in lists[k].value && p.holds(Url(kind + k, v)) {
      if k > 0 {
        assert lists[1..][k - 1] == lists[k] && p.holds(Url(kind + 1 + (k - 1), v));
      }
    }
    if lists[0].Some? {
      if v :| v in lists[0].value && p.holds(Url(kind, v)) {
        assert p.holds(Url(kind + 0, v));
      }
    }
    if k, v :| 0 <= k < |lists[1..]| && lists[1..][k].Some? && v in lists[1..][k].value && p.holds(Url(kind + 1 + k, v)) {
      assert lists[k + 1] == lists[1..][k] && p.holds(Url(kind + (k + 1), v));
    }
  }

  lemma UrlDimSpec(d: Definition, p: Packet, m: Bits)
    ensures DimOk(UrlDim(d)) && (DimHolds(UrlDim(d), p, m) <==> UrlMeets(d, p))
    ensures UrlDim(d).url && (UrlDim(d).tests != [] <==> HasUrls(d)) && Blind(UrlDim(d).tests)
  {
    UrlTestsSpec(d.url, 0, p, m);
    UrlTestsSpec(d.notUrl, 0, p, m);
    if UrlDim(d).tests == [] {
      NoneHolds(p, m);
    }
  }

  /** A list of values of one kind meets the packet exactly when some value does. */
  lemma TestsSpec(vs: seq<string>, f: Kind, p: Packet, m: Bits)
    ensures AnyHolds(Tests(vs, f), p, m) <==> exists v :: v in vs && p.holds(f.Of(v))
    ensures Blind(Tests(vs, f))
  {
    var ts := Tests(vs, f);
    if AnyHolds(ts, p, m) {
      var i :| 0 <= i < |ts| && TestHolds(ts[i], p, m);
      assert vs[i] in vs && p.holds(f.Of(vs[i]));
    }
    if v :| v in vs && p.holds(f.Of(v)) {
      var i :| 0 <= i < |vs| && vs[i] == v;
      assert TestHolds(ts[i], p, m);
    }
  }

  lemma MarkDimSpec(d: Definition, p: Packet, m: Bits)
    requires Filled(d.mark) && Filled(d.notMark)
    ensures DimOk(MarkDim(d)) && !MarkDim(d).url && Blind(MarkDim(d).tests) && (DimHolds(MarkDim(d), p, m) <==> MarkMeets(d, p))
  {
    var f := MarkKind;
    if d.mark.Some? { TestsSpec(d.mark.value, f, p, m); }
    if d.notMark.Some? { TestsSpec(d.notMark.value, f, p, m); }
  }

  lemma SrcPortDimSpec(d: Definition, ingress: bool, p: Packet, m: Bits)
    requires ListsFilled(d)
    ensures var x := SrcPortDim(d, ingress); DimOk(x) && !x.url && Blind(x.tests)
    ensures DimHolds(SrcPortDim(d, ingress), p, m) <==>
      SrcPortMeets(if ingress then d.remotePort else d.localPort, if ingress then d.notRemotePort else d.notLocalPort, p)
  {
    var f := SrcPortKind;
    var pos := if ingress then d.remotePort else d.localPort;
    var neg := if ingress then d.notRemotePort else d.notLocalPort;
    if pos.Some? { TestsSpec(pos.value, f, p, m); }
    if neg.Some? { TestsSpec(neg.value, f, p, m); }
  }

  lemma DstPortDimSpec(d: Definition, ingress: bool, p: Packet, m: Bits)
    requires ListsFilled(d)
    ensures var x := DstPortDim(d, ingress); DimOk(x) && !x.url && Blind(x.tests)
    ensures DimHolds(DstPortDim(d, ingress), p, m) <==>
      DstPortMeets(if ingress then d.localPort else d.remotePort, if ingress then d.notLocalPort else d.notRemotePort, p)
  {
    var f := DstPortKind;
    var pos := if ingress then d.localPort else d.remotePort;
    var neg := if ingress then d.notLocalPort else d.notRemotePort;
    if pos.Some? { TestsSpec(pos.value, f, p, m); }
    if neg.Some? { TestsSpec(neg.value, f, p, m); }
  }

  lemma ConnmarkDimSpec(d: Definition, p: Packet, m: Bits)
    requires Filled(d.connmark) && Filled(d.notConnmark)
    ensures DimOk(ConnmarkDim(d)) && !ConnmarkDim(d).url && (DimHolds(ConnmarkDim(d), p, m) <==> ConnmarkMeets(d, m))
  {
    if d.connmark.Some? { ConnmarkTestsSpec(d.connmark.value, p, m); }
    if d.notConnmark.Some? { ConnmarkTestsSpec(d.notConnmark.value, p, m); }
  }

  lemma ConnmarkTestsSpec(vs: seq<(Bits, Bits)>, p: Packet, m: Bits)
    ensures var ts := MarkTests(Some(vs)).value;
      && |ts| == |vs|
      && (AnyHolds(ts, p, m) <==> exists v :: v in vs && m * v.1 == v.0)
  {
    var ts := MarkTests(Some(vs)).value;
    if AnyHolds(ts, p, m) {
      var i :| 0 <= i < |ts| && TestHolds(ts[i], p, m);
      assert vs[i] in vs;
    }
    if v :| v in vs && m * v.1 == v.0 {
      var i :| 0 <= i < |vs| && vs[i] == v;
      assert TestHolds(ts[i], p, m);
    }
  }

  lemma AnyConcat(a: seq<Test>, b: seq<Test>, p: Packet, m: Bits)
    ensures AnyHolds(a + b, p, m) <==> AnyHolds(a, p, m) || AnyHolds(b, p, m)
  {
    if i :| 0 <= i < |a| && TestHolds(a[i], p, m) {
      assert (a + b)[i] == a[i];
    }
    if i :| 0 <= i < |b| && TestHolds(b[i], p, m) {
      assert (a + b)[|a| + i] == b[i];
    }
  }

  lemma SrcTestsSpec(a: Addrs, p: Packet, m: Bits)
    ensures AnyHolds(SrcTests(a), p, m) <==> FromAddr(a, p)
    ensures Blind(SrcTests(a))
  {
    var f := SrcIpKind;
    var g := SrcRangeKind;
    var h := SrcMacKind;
    TestsSpec(a.ips, f, p, m);
    TestsSpec(a.ranges, g, p, m);
    TestsSpec(a.macs, h, p, m);
    AnyConcat(Tests(a.ips, f), Tests(a.ranges, g), p, m);
    AnyConcat(Tests(a.ips, f) + Tests(a.ranges, g), Tests(a.macs, h), p, m);
  }

  lemma DstTestsSpec(a: Addrs, p: Packet, m: Bits)
    ensures AnyHolds(DstTests(a), p, m) <==> ToAddr(a, p)
    ensures Blind(DstTests(a))
  {
    var f := DstIpKind;
    var g := DstRangeKind;
    TestsSpec(a.ips, f, p, m);
    TestsSpec(a.ranges, g, p, m);
    AnyConcat(Tests(a.ips, f), Tests(a.ranges, g), p, m);
  }

  ghost predicate AllDims(ds: seq<Dim>, p: Packet, m: Bits) {
    forall j :: 0 <= j < |ds| ==> DimHolds(ds[j], p, m)
  }

  /** A dimension of addresses holds when it has no tests, whatever the definition asks for. */
  lemma SrcDimsSpec(d: Definition, ingress: bool, p: Packet, m: Bits)
    ensures forall j :: 0 <= j < |SrcDims(d, ingress)| ==>
      DimOk(SrcDims(d, ingress)[j]) && !SrcDims(d, ingress)[j].url && Blind(SrcDims(d, ingress)[j].tests)
    ensures AddrsFilled(d, ingress) ==>
      (AllDims(SrcDims(d, ingress), p, m) <==>
       SrcMeets(if ingress then d.remoteAddr else d.localAddr, if ingress then d.notRemoteAddr else d.notLocalAddr, p))
  {
    var pos := if ingress then d.remoteAddr else d.localAddr;
    var neg := if ingress then d.notRemoteAddr else d.notLocalAddr;
    if pos.Some? { SrcTestsSpec(pos.value, p, m); }
    if neg.Some? { SrcTestsSpec(neg.value, p, m); }
    var ds := SrcDims(d, ingress);
    assert |ds| == 1 ==> (AllDims(ds, p, m) <==> DimHolds(ds[0], p, m));
  }

  lemma DstDimsSpec(d: Definition, ingress: bool, p: Packet, m: Bits)
    ensures forall j :: 0 <= j < |DstDims(d, ingress)| ==>
      DimOk(DstDims(d, ingress)[j]) && !DstDims(d, ingress)[j].url && Blind(DstDims(d, ingress)[j].tests)
    ensures AddrsFilled(d, ingress) ==>
      (AllDims(DstDims(d, ingress), p, m) <==>
       DstMeets(if ingress then d.localAddr else d.remoteAddr, if ingress then d.notLocalAddr else d.notRemoteAddr, p))
  {
    var pos := if ingress then d.localAddr else d.remoteAddr;
    var neg := if ingress then d.notLocalAddr else d.notRemoteAddr;
    if pos.Some? { DstTestsSpec(pos.value, p, m); }
    if neg.Some? { DstTestsSpec(neg.value, p, m); }
    var ds := DstDims(d, ingress);
    assert |ds| == 1 ==> (AllDims(ds, p, m) <==> DimHolds(ds[0], p, m));
  }

  lemma AllDimsConcat(a: seq<Dim>, b: seq<Dim>, p: Packet, m: Bits)
    ensures AllDims(a + b, p, m) <==> AllDims(a, p, m) && AllDims(b, p, m)
  {
    if AllDims(a + b, p, m) {
      forall j | 0 <= j < |b| ensures DimHolds(b[j], p, m) {
        assert (a + b)[|a| + j] == b[j];
      }
      forall j | 0 <= j < |a| ensures DimHolds(a[j], p, m) {
        assert (a + b)[j] == a[j];
      }
    }
  }

  /** The shape of a well-formed list of dimensions: only the first may be a URL dimension, and
      only the third looks at the connection mark. */
  /** Tests under a protocol guard look at ports. */
  predicate OnlyPorts(ts: seq<Test>) { forall i :: 0 <= i < |ts| ==> ts[i].SrcPort? || ts[i].DstPort? }

  predicate PortDims(ds: seq<Dim>) { forall j :: 0 <= j < |ds| && ds[j].ports ==> OnlyPorts(ds[j].tests) }

  ghost predicate DimsOk(ds: seq<Dim>, scope: Scope) {
    && 0 < |ds| <= 7
    && (forall j :: 0 <= j < |ds| ==> DimOk(ds[j]))
    && (forall j :: 1 <= j < |ds| ==> !ds[j].url)
    && (forall j :: 0 <= j < |ds| && j != 2 ==> Blind(ds[j].tests))
    && (ds[0].url && ds[0].tests != [] ==> scope == Only(Tcp))
    && PortDims(ds)
  }

  /** Which lists use a bit of the mark: those of several values, and negated packet marks in any case. */
  lemma UsesBits(d: Definition, ingress: bool)
    ensures UrlDim(d).multi <==> UrlCount(d.url) > 1 || (UrlCount(d.url) == 0 && UrlCount(d.notUrl) > 1)
    ensures MarkDim(d).multi <==> if d.mark.Some? then |d.mark.value| != 1 else d.notMark.Some?
    ensures ConnmarkDim(d).multi <==>
      if d.connmark.Some? then |d.connmark.value| != 1 else d.notConnmark.Some? && |d.notConnmark.value| != 1
    ensures SrcPortDim(d, true).multi == DstPortDim(d, false).multi
    ensures SrcPortDim(d, true).multi <==>
      if d.remotePort.Some? then |d.remotePort.value| != 1 else d.notRemotePort.Some? && |d.notRemotePort.value| != 1
    ensures SrcPortDim(d, false).multi == DstPortDim(d, true).multi
    ensures SrcPortDim(d, false).multi <==>
      if d.localPort.Some? then |d.localPort.value| != 1 else d.notLocalPort.Some? && |d.notLocalPort.value| != 1
  {
    var p := Packet(Tcp, _ => false);
    UrlTestsSpec(d.url, 0, p, {});
    UrlTestsSpec(d.notUrl, 0, p, {});
  }

  lemma PortTests(d: Definition, ingress: bool)
    ensures PortDims(Dims(d, ingress))
  {
    hide UrlTests;
    assert OnlyPorts(SrcPortDim(d, ingress).tests) && OnlyPorts(DstPortDim(d, ingress).tests);
    assert !UrlDim(d).ports && !MarkDim(d).ports && !ConnmarkDim(d).ports;
    assert forall x :: x in SrcDims(d, ingress) || x in DstDims(d, ingress) ==> !x.ports;
  }

  lemma ShapeOfDims(d: Definition, ingress: bool)
    requires ListsFilled(d)
    ensures DimsOk(Dims(d, ingress), ScopeOf(d))
  {
    hide UrlDim, MarkDim, ConnmarkDim, SrcDims, DstDims, SrcPortDim, DstPortDim, DimHolds, DimOk, Blind;
    PortTests(d, ingress);
    var p := Packet(Tcp, _ => false);
    UrlDimSpec(d, p, {});
    MarkDimSpec(d, p, {});
    ConnmarkDimSpec(d, p, {});
    SrcDimsSpec(d, ingress, p, {});
    DstDimsSpec(d, ingress, p, {});
    SrcPortDimSpec(d, ingress, p, {});
    DstPortDimSpec(d, ingress, p, {});
  }

  lemma ProtoIs(d: Definition, p: Packet)
    ensures ProtoMeets(d, p) <==> InScope(ScopeOf(d), p)
  {
    hide UrlTests, UrlCount;
    UrlTestsSpec(d.url, 0, p, {});
    UrlTestsSpec(d.notUrl, 0, p, {});
  }

  /** One optional test. */
  function Optional(b: bool, t: Test): seq<Literal> { if b then [Lit(t, false)] else [] }

  lemma OptionalHolds(b: bool, t: Test, p: Packet, m: Bits)
    requires !t.Connmark?
    ensures AllHold(Optional(b, t), p, m) <==> (b ==> p.holds(t))
  {
    if b && AllHold(Optional(b, t), p, m) { assert LitHolds(Optional(b, t)[0], p, m); }
  }

  lemma HoldConcat(a: seq<Literal>, b: seq<Literal>, p: Packet, m: Bits)
    ensures AllHold(a + b, p, m) <==> AllHold(a, p, m) && AllHold(b, p, m)
  {
    if AllHold(a + b, p, m) {
      forall i | 0 <= i < |b| ensures LitHolds(b[i], p, m) { assert (a + b)[|a| + i] == b[i]; }
      forall i | 0 <= i < |a| ensures LitHolds(a[i], p, m) { assert (a + b)[i] == a[i]; }
    }
  }

  lemma ExtrasAre(d: Definition, p: Packet, m: Bits)
    ensures AllHold(Extras(d), p, m) <==> ExtrasMeet(d, p)
  {
    hide AllHold;
    var time := TimeTests(d);
    var weekly, range := TimeRange(None, None, d.weekly), TimeRange(d.hours, d.weekdays, None);
    assert time == Optional(d.weekly.Some?, weekly) + Optional(d.weekly.None? && (d.hours.Some? || d.weekdays.Some?), range);
    OptionalHolds(d.weekly.Some?, weekly, p, m);
    OptionalHolds(d.weekly.None? && (d.hours.Some? || d.weekdays.Some?), range, p, m);
    HoldConcat(Optional(d.weekly.Some?, weekly), Optional(d.weekly.None? && (d.hours.Some? || d.weekdays.Some?), range), p, m);
    var layer7 := if d.layer7.Some? then [Lit(Layer7(d.layer7.value), false)] else [];
    var ipp2p := if d.ipp2p.Some? then [Lit(Ipp2p(d.ipp2p.value), false)] else [];
    var size := if d.minSize.Some? && d.maxSize.Some? then [Lit(Length(d.minSize.value, d.maxSize.value), false)] else [];
    HoldConcat(time, layer7, p, m);
    HoldConcat(time + layer7, ipp2p, p, m);
    HoldConcat(time + layer7 + ipp2p, size, p, m);
    OptionalHolds(false, weekly, p, m);
    if d.layer7.Some? { OptionalHolds(true, Layer7(d.layer7.value), p, m); }
    if d.ipp2p.Some? { OptionalHolds(true, Ipp2p(d.ipp2p.value), p, m); }
    if size != [] { OptionalHolds(true, Length(d.minSize.value, d.maxSize.value), p, m); }
  }

  /** A definition means that the packet is in scope, passes the extras and every dimension. */
  lemma MeansDims(d: Definition, ingress: bool, p: Packet, m: Bits)
    requires NonEmpty(d, ingress)
    ensures Means(d, ingress, p, m) <==>
      InScope(ScopeOf(d), p) && AllHold(Extras(d), p, m) && AllDims(Dims(d, ingress), p, m)
  {
    hide UrlDim, MarkDim, ConnmarkDim, SrcDims, DstDims, SrcPortDim, DstPortDim, DimHolds, DimOk, Blind;
    hide UrlMeets, MarkMeets, ConnmarkMeets, SrcMeets, DstMeets, SrcPortMeets, DstPortMeets;
    hide ProtoMeets, ExtrasMeet, Extras, ScopeOf;
    ProtoIs(d, p);
    ExtrasAre(d, p, m);
    UrlDimSpec(d, p, m);
    MarkDimSpec(d, p, m);
    ConnmarkDimSpec(d, p, m);
    SrcDimsSpec(d, ingress, p, m);
    DstDimsSpec(d, ingress, p, m);
    SrcPortDimSpec(d, ingress, p, m);
    DstPortDimSpec(d, ingress, p, m);
    var a := [UrlDim(d), MarkDim(d), ConnmarkDim(d)];
    var b := [SrcPortDim(d, ingress), DstPortDim(d, ingress)];
    AllDimsConcat(a, SrcDims(d, ingress), p, m);
    AllDimsConcat(a + SrcDims(d, ingress), DstDims(d, ingress), p, m);
    AllDimsConcat(a + SrcDims(d, ingress) + DstDims(d, ingress), b, p, m);
    assert AllDims(a, p, m) <==> DimHolds(a[0], p, m) && DimHolds(a[1], p, m) && DimHolds(a[2], p, m);
    assert AllDims(b, p, m) <==> DimHolds(b[0], p, m) && DimHolds(b[1], p, m);
  }
}
