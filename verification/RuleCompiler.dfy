/**
 The compilation of a firewall rule definition into a linear rule list, as a function. A
 definition gives, for each of up to eight dimensions, values of which one must match, or of which
 none may. A list of values uses one bit of the high byte of the connection mark.

 The class in RuleBuilder.dfy builds the same list step by step.
 */
module RuleCompiler {
  import opened Common
  import opened MarkBits
  import opened Netfilter

  datatype Addrs = Addrs(ips: seq<string>, ranges: seq<string>, macs: seq<string>)

  type Values = Option<seq<string>>

  datatype Definition = Definition(
    proto: Option<string>,
    weekly: Option<string>, hours: Option<string>, weekdays: Option<string>,
    layer7: Option<string>, ipp2p: Option<string>, minSize: Option<string>, maxSize: Option<string>,
    url: seq<Values>, notUrl: seq<Values>,
    mark: Values, notMark: Values,
    connmark: Option<seq<(Bits, Bits)>>, notConnmark: Option<seq<(Bits, Bits)>>,
    localAddr: Option<Addrs>, notLocalAddr: Option<Addrs>,
    remoteAddr: Option<Addrs>, notRemoteAddr: Option<Addrs>,
    localPort: Values, notLocalPort: Values, remotePort: Values, notRemotePort: Values)

  /** The protocol a rule is for: one, or both TCP and UDP. */
  datatype Scope = Both | Only(p: Proto)

  /** What the rules lead to; `reset` when the options ask for a TCP reset, `bare` when there are none. */
  datatype Goal = Goal(target: string, bare: bool, reset: bool)

  // ---------- Dimensions ----------

  /** One dimension of a definition: `multi` when it uses its bit of the mark, `ports` when its
      tests only make sense under a protocol guard. */
  datatype Dim = Dim(tests: seq<Test>, neg: bool, multi: bool, ports: bool, url: bool)

  const ABSENT := Dim([], false, false, false, false)

  /** The match a list of values is for. */
  datatype Kind = UrlKind(k: nat) | MarkKind | SrcIpKind | SrcRangeKind | SrcMacKind
    | DstIpKind | DstRangeKind | SrcPortKind | DstPortKind
  {
    function Of(v: string): Test {
      match this
      case UrlKind(k) => Url(k, v)
      case MarkKind => Mark(v)
      case SrcIpKind => SrcIp(v)
      case SrcRangeKind => SrcRange(v)
      case SrcMacKind => SrcMac(v)
      case DstIpKind => DstIp(v)
      case DstRangeKind => DstRange(v)
      case SrcPortKind => SrcPort(v)
      case DstPortKind => DstPort(v)
    }
  }

  function Tests(vs: seq<string>, kind: Kind): (r: seq<Test>)
    ensures |r| == |vs| && forall i :: 0 <= i < |vs| ==> r[i] == kind.Of(vs[i])
  {
    seq(|vs|, i requires 0 <= i < |vs| => kind.Of(vs[i]))
  }

  function UrlTests(lists: seq<Values>, kind: nat): seq<Test> {
    if lists == [] then []
    else (if lists[0].Some? then Tests(lists[0].value, UrlKind(kind)) else []) + UrlTests(lists[1..], kind + 1)
  }

  /** Negated URL lists are looked at only when no plain one has a value. */
  function UrlDim(d: Definition): Dim {
    var pos := UrlTests(d.url, 0);
    if pos != [] then Dim(pos, false, |pos| > 1, false, true)
    else
      var neg := UrlTests(d.notUrl, 0);
      Dim(neg, true, |neg| > 1, false, true)
  }

  function HasUrls(d: Definition): bool { UrlTests(d.url, 0) != [] || UrlTests(d.notUrl, 0) != [] }

  /** The plain list if given, else the negated one; a single value needs no bit unless it must. */
  function ListDim(pos: Option<seq<Test>>, neg: Option<seq<Test>>, negIsMulti: bool, ports: bool): Dim {
    if pos.Some? then Dim(pos.value, false, |pos.value| != 1, ports, false)
    else if neg.Some? then Dim(neg.value, true, |neg.value| != 1 || negIsMulti, ports, false)
    else ABSENT.(ports := ports)
  }

  function Mapped(vs: Values, kind: Kind): Option<seq<Test>> {
    if vs.Some? then Some(Tests(vs.value, kind)) else None
  }

  function MarkTests(vs: Option<seq<(Bits, Bits)>>): Option<seq<Test>> {
    if vs.Some? then
      Some(seq(|vs.value|, i requires 0 <= i < |vs.value| => Connmark(vs.value[i].0, vs.value[i].1)))
    else None
  }

  function SrcTests(a: Addrs): seq<Test> {
    Tests(a.ips, SrcIpKind) + Tests(a.ranges, SrcRangeKind) + Tests(a.macs, SrcMacKind)
  }

  /** A destination cannot be matched by its hardware address; such values are passed over. */
  function DstTests(a: Addrs): seq<Test> {
    Tests(a.ips, DstIpKind) + Tests(a.ranges, DstRangeKind)
  }

  function AddrDim(tests: seq<Test>, neg: bool): Dim { Dim(tests, neg, |tests| > 1, false, false) }

  function SrcDims(d: Definition, ingress: bool): seq<Dim> {
    var pos := if ingress then d.remoteAddr else d.localAddr;
    var neg := if ingress then d.notRemoteAddr else d.notLocalAddr;
    if pos.Some? then [AddrDim(SrcTests(pos.value), false)]
    else if neg.Some? then [AddrDim(SrcTests(neg.value), true)]
    else []
  }

  function DstDims(d: Definition, ingress: bool): seq<Dim> {
    var pos := if ingress then d.localAddr else d.remoteAddr;
    var neg := if ingress then d.notLocalAddr else d.notRemoteAddr;
    if pos.Some? then [AddrDim(DstTests(pos.value), false)]
    else if neg.Some? then [AddrDim(DstTests(neg.value), true)]
    else []
  }

  function SrcPortDim(d: Definition, ingress: bool): Dim {
    ListDim(Mapped(if ingress then d.remotePort else d.localPort, SrcPortKind),
            Mapped(if ingress then d.notRemotePort else d.notLocalPort, SrcPortKind), false, true)
  }

  function DstPortDim(d: Definition, ingress: bool): Dim {
    ListDim(Mapped(if ingress then d.localPort else d.remotePort, DstPortKind),
            Mapped(if ingress then d.notLocalPort else d.notRemotePort, DstPortKind), false, true)
  }

  function MarkDim(d: Definition): Dim {
    ListDim(Mapped(d.mark, MarkKind), Mapped(d.notMark, MarkKind), true, false)
  }

  function ConnmarkDim(d: Definition): Dim {
    ListDim(MarkTests(d.connmark), MarkTests(d.notConnmark), false, false)
  }

  /** The dimensions in the order of their bits. */
  function Dims(d: Definition, ingress: bool): (r: seq<Dim>)
    ensures 5 <= |r| <= 7
  {
    [UrlDim(d), MarkDim(d), ConnmarkDim(d)] + SrcDims(d, ingress) + DstDims(d, ingress)
      + [SrcPortDim(d, ingress), DstPortDim(d, ingress)]
  }

  predicate HasPorts(d: Definition) {
    d.localPort.Some? || d.notLocalPort.Some? || d.remotePort.Some? || d.notRemotePort.Some?
  }

  function DefScope(d: Definition): Scope {
    if d.proto == Some("tcp") then Only(Tcp) else if d.proto == Some("udp") then Only(Udp) else Both
  }

  /** URL tests only make sense on TCP. */
  function ScopeOf(d: Definition): Scope { if HasUrls(d) then Only(Tcp) else DefScope(d) }

  function TimeTests(d: Definition): seq<Literal> {
    if d.weekly.Some? then [Lit(TimeRange(None, None, d.weekly), false)]
    else if d.hours.Some? || d.weekdays.Some? then [Lit(TimeRange(d.hours, d.weekdays, None), false)]
    else []
  }

  /** Time range, layer 7, peer-to-peer and size tests, none of which has a bit. */
  function Extras(d: Definition): seq<Literal> {
    TimeTests(d)
    + (if d.layer7.Some? then [Lit(Layer7(d.layer7.value), false)] else [])
    + (if d.ipp2p.Some? then [Lit(Ipp2p(d.ipp2p.value), false)] else [])
    + (if d.minSize.Some? && d.maxSize.Some? then [Lit(Length(d.minSize.value, d.maxSize.value), false)] else [])
  }

  // ---------- Emitted rules ----------

  /** One check under the guards it needs. */
  function Guarded(ls: seq<Literal>, action: Action, scope: Scope, guard: bool): seq<Rule> {
    if scope.Only? then [Rule(Some(scope.p), ls, action)]
    else if guard then [Rule(Some(Tcp), ls, action), Rule(Some(Udp), ls, action)]
    else [Rule(None, ls, action)]
  }

  function BitAction(neg: bool, i: nat): Action { SetMark(if neg then {} else {24 + i}, {24 + i}) }

  /** A rule for each value, setting the dimension's bit on a match, or clearing it if negated. */
  function ValueRules(ts: seq<Test>, neg: bool, i: nat, scope: Scope, guard: bool): seq<Rule> {
    if ts == [] then []
    else Guarded([Lit(ts[0], false)], BitAction(neg, i), scope, guard) + ValueRules(ts[1..], neg, i, scope, guard)
  }

  function DimRules(d: Dim, i: nat, scope: Scope): seq<Rule> {
    if d.multi then ValueRules(d.tests, d.neg, i, scope, d.ports) else []
  }

  function MultiRules(ds: seq<Dim>, i: nat, scope: Scope): seq<Rule>
    decreases |ds|
  {
    if ds == [] then [] else DimRules(ds[0], i, scope) + MultiRules(ds[1..], i + 1, scope)
  }

  function SingleOf(d: Dim): seq<Literal> {
    if !d.multi && |d.tests| == 1 then [Lit(d.tests[0], d.neg)] else []
  }

  /** The single tests, the latest dimension first, before the extras. */
  function Singles(ds: seq<Dim>, extras: seq<Literal>): seq<Literal> {
    if ds == [] then extras else SingleOf(ds[|ds| - 1]) + Singles(ds[..|ds| - 1], extras)
  }

  /** The bits of the dimensions that use theirs. */
  function FinalBits(ds: seq<Dim>, i: nat): Bits
    decreases |ds|
  {
    if ds == [] then {} else (if ds[0].multi then {24 + i} else {}) + FinalBits(ds[1..], i + 1)
  }

  /** Bits set at the start: those of negated dimensions, except that of the URL dimension. */
  function InitialBits(ds: seq<Dim>, i: nat): Bits
    decreases |ds|
  {
    if ds == [] then {}
    else (if ds[0].multi && ds[0].neg && !ds[0].url then {24 + i} else {}) + InitialBits(ds[1..], i + 1)
  }

  /** REJECT with no options turns into a TCP reset when the rule is for TCP alone. */
  function Settle(goal: Goal, scope: Scope): Goal {
    if goal.bare && scope == Only(Tcp) && goal.target == "REJECT" then Goal(goal.target, false, true) else goal
  }

  /** The initial marks, the rules of the bits, the verdict on all bits, and the final clearing. */
  function MarkBlock(ds: seq<Dim>, singles: seq<Literal>, multi: seq<Rule>, scope: Scope, goal: Goal, ports: bool): seq<Rule>
    requires ds != []
  {
    var k := |ds|;
    var initial := InitialBits(ds, 0);
    var urlInitial := ds[0].multi && ds[0].neg && ds[0].url;
    var last := if singles != [] then Guarded(singles, BitAction(false, k), scope, ports) else [];
    var final := FinalBits(ds, 0) + if singles != [] then {24 + k} else {};
    (if initial != {} then [Rule(None, [], SetMark(initial, HIGH))] else [])
    + (if urlInitial then [Rule(Some(Tcp), [Lit(Http, false)], SetMark({24}, {24}))] else [])
    + multi + last
    + Verdict([Lit(Connmark(final, HIGH), false)], scope, goal)
    + [Rule(None, [], SetMark({}, HIGH))]
  }

  /** The rule, or the two rules, that jump to the target. */
  function Verdict(ls: seq<Literal>, scope: Scope, goal: Goal): seq<Rule> {
    if goal.target == "REJECT" && goal.bare && scope != Both then
      [Rule(Some(Tcp), ls, Jump(goal.target)), Rule(None, ls, Jump(goal.target))]
    else [Rule(if goal.reset then Some(Tcp) else None, ls, Jump(goal.target))]
  }

  /** Without bits, the single tests decide directly. */
  function PlainBlock(singles: seq<Literal>, scope: Scope, goal: Goal, ports: bool): seq<Rule> {
    var jump := Jump(goal.target);
    if scope.Only? then [Rule(Some(scope.p), singles, jump)]
    else if !ports then
      (if goal.target == "REJECT" && goal.bare then [Rule(Some(Tcp), singles, jump)] else [])
      + [Rule(None, singles, jump)]
    else [Rule(Some(Tcp), singles, jump), Rule(Some(Udp), singles, jump)]
  }

  /** Lets the rest of a connection through when a URL is white-listed. */
  function Whitelist(): seq<Rule> {
    [Rule(Some(Tcp), [Lit(Http, false)], SetMark(HIGH, HIGH)),
     Rule(Some(Tcp), [Lit(DstPort("80"), false), Lit(Connmark(HIGH, HIGH), true)], Jump("ACCEPT")),
     Rule(None, [], SetMark({}, HIGH))]
  }

  predicate Whitelists(d: Definition, ingress: bool, goal: Goal) {
    HasUrls(d) && goal.target == "ACCEPT" && !ingress
  }

  function Block(d: Definition, ingress: bool, goal0: Goal): seq<Rule> {
    var ds := Dims(d, ingress);
    var scope := ScopeOf(d);
    var goal := Settle(goal0, scope);
    var singles := Singles(ds, Extras(d));
    var multi := MultiRules(ds, 0, scope);
    if multi != [] then MarkBlock(ds, singles, multi, scope, goal, HasPorts(d))
    else PlainBlock(singles, scope, goal, HasPorts(d))
  }

  /** The whole rule list of a definition. */
  function Compile(d: Definition, ingress: bool, goal: Goal): seq<Rule> {
    Block(d, ingress, goal) + if Whitelists(d, ingress, goal) then Whitelist() else []
  }
}
