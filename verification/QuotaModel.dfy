/**
 The chains that enforce bandwidth quotas. A chain can only test a packet, ask a bandwidth counter,
 and set bits of the connection mark or the packet's mark. One nibble of the connection mark says
 that the packet is of the quota at hand, the other that some quota with explicit addresses has
 already claimed it, which is what the quotas for "all others" test.

 The functions give the rules of each quota and, apart from them, what a quota applies to.
 */
module QuotaModel {
  import opened Common
  import opened MarkBits
  import G = GroupText

  /** 0x0F000000 and 0xF0000000. */
  const LOW: Bits := {24, 25, 26, 27}
  const TOP: Bits := {28, 29, 30, 31}

  datatype Kind = Ingress | Egress | Combined

  /** A section of the configuration; a limit is present or not, its value belongs to the counter. */
  datatype Quota = Quota(
    id: string, enabled: Option<string>, ip: Option<string>, time: Option<string>,
    ingressLimit: bool, egressLimit: bool, combinedLimit: bool,
    upMark: Option<string>, downMark: Option<string>, ignoreBackup: Option<string>)

  datatype Config = Config(deathMark: Bits, deathMask: Bits, split: string -> seq<string>)

  datatype Test = FromWan | ToWan | Src(word: string) | Dst(word: string) | SrcLocal | DstLocal
    | Time(times: string) | Conn(bits: Bits, mask: Bits)

  datatype Use = Count | Check | CheckSwapped

  /** A counter as a rule asks it. */
  datatype Counter = Counter(id: string, kind: Kind, how: Use)

  datatype Action = SetConn(bits: Bits, mask: Bits) | SetMark(mark: string) | Kill | Nothing

  datatype Rule = Rule(tests: seq<Test>, counter: Option<Counter>, action: Action)

  datatype Packet = Packet(holds: Test -> bool, over: Counter -> bool)

  /** What a chain does to a packet, apart from its own bookkeeping. */
  datatype Event = Asked(counter: Counter) | Marked(mark: string) | Killed

  // ---------- Running a chain ----------

  predicate Holds(t: Test, p: Packet, m: Bits) {
    if t.Conn? then m * t.mask == t.bits else p.holds(t)
  }

  predicate AllHold(ts: seq<Test>, p: Packet, m: Bits) { forall k :: 0 <= k < |ts| ==> Holds(ts[k], p, m) }

  function Doing(a: Action): seq<Event> {
    match a
    case SetMark(mark) => [Marked(mark)]
    case Kill => [Killed]
    case _ => []
  }

  function Marking(a: Action, m: Bits, c: Config): Bits {
    match a
    case SetConn(bits, mask) => (m - mask) + bits
    case Kill => (m - c.deathMask) + c.deathMark
    case _ => m
  }

  function RunRule(r: Rule, p: Packet, m: Bits, c: Config): (seq<Event>, Bits) {
    if !AllHold(r.tests, p, m) then ([], m)
    else
      var asked := if r.counter.Some? then [Asked(r.counter.value)] else [];
      if r.counter.Some? && !p.over(r.counter.value) then (asked, m)
      else (asked + Doing(r.action), Marking(r.action, m, c))
  }

  function Run(rs: seq<Rule>, p: Packet, m: Bits, c: Config): (seq<Event>, Bits) {
    if rs == [] then ([], m)
    else
      var first := RunRule(rs[0], p, m, c);
      var rest := Run(rs[1..], p, first.1, c);
      (first.0 + rest.0, rest.1)
  }

  // ---------- Sections ----------

  predicate Enabled(q: Quota) { q.enabled != Some("0") }

  /** The addresses, "ALL" if there are none, without spaces around dashes. */
  function IpOf(q: Quota): string {
    G.Trimmed(if q.ip.None? || q.ip.value == "" then "ALL" else q.ip.value, false)
  }

  predicate Others(q: Quota) { IpOf(q) == "ALL_OTHERS_COMBINED" || IpOf(q) == "ALL_OTHERS_INDIVIDUAL" }

  predicate Individual(q: Quota) { IpOf(q) == "ALL_OTHERS_INDIVIDUAL" }

  predicate Explicit(q: Quota) { !Others(q) && IpOf(q) != "ALL" }

  predicate IsList(ip: string) { ',' in ip || ' ' in ip || '\t' in ip }

  function WordsOf(q: Quota, c: Config): seq<string> {
    if IsList(IpOf(q)) then c.split(IpOf(q)) else [IpOf(q)]
  }

  function HasLimit(q: Quota, t: Kind): bool {
    match t
    case Ingress => q.ingressLimit
    case Egress => q.egressLimit
    case Combined => q.combinedLimit
  }

  /** With several addresses, or two directions, the low nibble says whether one of them matched. */
  predicate UsesLow(q: Quota, t: Kind) { IsList(IpOf(q)) || t == Combined }

  // ---------- Rules ----------

  function MarkRules(words: seq<string>, t: Kind): seq<Rule> {
    if words == [] then []
    else
      (match t
       case Ingress => [Rule([Dst(words[0])], None, SetConn(LOW, LOW))]
       case Egress => [Rule([Src(words[0])], None, SetConn(LOW, LOW))]
       case Combined => [Rule([FromWan, Dst(words[0])], None, SetConn(LOW, LOW)),
                         Rule([ToWan, Src(words[0])], None, SetConn(LOW, LOW))])
      + MarkRules(words[1..], t)
  }

  function IpTests(q: Quota, t: Kind): seq<Test> {
    if Explicit(q) then
      (if UsesLow(q, t) then [Conn(LOW, LOW)] else if t == Egress then [Src(IpOf(q))] else [Dst(IpOf(q))])
    else if Others(q) then
      (if Individual(q) && t == Egress then [SrcLocal]
       else if Individual(q) && t == Ingress then [DstLocal]
       else [])
      + [Conn({}, TOP)]
    else []
  }

  function TimeTests(q: Quota): seq<Test> { if q.time.Some? then [Time(q.time.value)] else [] }

  predicate Shapes(q: Quota) { q.upMark.Some? && q.downMark.Some? }

  function Opposite(t: Kind): Kind { if t == Egress then Ingress else Egress }

  /** The counters a quota asks in one chain, with the tests that come before and what follows. */
  datatype Question = Question(before: seq<Test>, counter: Counter, action: Action)

  function Questions(q: Quota, t: Kind): seq<Question> {
    (if Shapes(q) && t != Combined && HasLimit(q, Opposite(t)) then
       [Question([], Counter(q.id, Opposite(t), CheckSwapped), SetMark(if t == Egress then q.upMark.value else q.downMark.value))]
     else [])
    + (if !HasLimit(q, t) then []
       else if !Shapes(q) then [Question([], Counter(q.id, t, Count), Kill)]
       else match t
         case Egress => [Question([], Counter(q.id, t, Count), SetMark(q.upMark.value))]
         case Ingress => [Question([], Counter(q.id, t, Count), SetMark(q.downMark.value))]
         case Combined => [Question([], Counter(q.id, t, Count), Nothing),
                           Question([ToWan], Counter(q.id, t, Check), SetMark(q.upMark.value)),
                           Question([FromWan], Counter(q.id, t, CheckSwapped), SetMark(q.downMark.value))])
  }

  function QuestionRules(qs: seq<Question>, tests: seq<Test>): seq<Rule> {
    if qs == [] then []
    else [Rule(qs[0].before + tests, Some(qs[0].counter), qs[0].action)] + QuestionRules(qs[1..], tests)
  }

  predicate ReadsConn(ts: seq<Test>) { exists k :: 0 <= k < |ts| && ts[k].Conn? }

  /** What a quota appends to a chain. The claim is made even where the quota has no limit. */
  function Rules(q: Quota, t: Kind, c: Config): seq<Rule> {
    (if Explicit(q) then
       (if UsesLow(q, t) then MarkRules(WordsOf(q, c), t) else [])
       + [Rule(IpTests(q, t), None, SetConn(TOP, TOP))]
     else [])
    + QuestionRules(Questions(q, t), IpTests(q, t) + TimeTests(q))
    + (if ReadsConn(IpTests(q, t)) then [Rule([], None, SetConn({}, LOW))] else [])
  }

  function AllRules(qs: seq<Quota>, t: Kind, c: Config): seq<Rule> {
    if qs == [] then [] else Rules(qs[0], t, c) + AllRules(qs[1..], t, c)
  }

  function Opening(c: Config): seq<Rule> {
    [Rule([], None, SetConn({}, c.deathMask)), Rule([], None, SetConn({}, HIGH))]
  }

  /** Enabled quotas in order, those for all others after the rest. */
  function Plain(qs: seq<Quota>): seq<Quota> {
    if qs == [] then [] else (if Enabled(qs[0]) && !Others(qs[0]) then [qs[0]] else []) + Plain(qs[1..])
  }

  function Deferred(qs: seq<Quota>): seq<Quota> {
    if qs == [] then [] else (if Enabled(qs[0]) && Others(qs[0]) then [qs[0]] else []) + Deferred(qs[1..])
  }

  function Order(qs: seq<Quota>): seq<Quota> { Plain(qs) + Deferred(qs) }

  function ChainOf(qs: seq<Quota>, t: Kind, c: Config): seq<Rule> {
    Opening(c) + AllRules(Order(qs), t, c) + [Rule([], None, SetConn({}, HIGH))]
  }

  // ---------- What quotas mean ----------

  predicate WordHit(w: string, t: Kind, p: Packet) {
    match t
    case Ingress => p.holds(Dst(w))
    case Egress => p.holds(Src(w))
    case Combined => (p.holds(FromWan) && p.holds(Dst(w))) || (p.holds(ToWan) && p.holds(Src(w)))
  }

  /** The packet is from or to one of the quota's own addresses. */
  predicate Claims(q: Quota, t: Kind, p: Packet, c: Config) {
    Explicit(q) && exists k :: 0 <= k < |WordsOf(q, c)| && WordHit(WordsOf(q, c)[k], t, p)
  }

  predicate SomeClaims(qs: seq<Quota>, t: Kind, p: Packet, c: Config) {
    exists k :: 0 <= k < |qs| && Enabled(qs[k]) && Claims(qs[k], t, p, c)
  }

  /** A quota for all others applies to a packet that no quota with addresses claims; an individual
      one to local addresses only, in the directions that have one. */
  predicate Applies(q: Quota, t: Kind, p: Packet, claimed: bool, c: Config) {
    if Explicit(q) then Claims(q, t, p, c)
    else if Others(q) then
      !claimed && (Individual(q) && t == Egress ==> p.holds(SrcLocal)) && (Individual(q) && t == Ingress ==> p.holds(DstLocal))
    else true
  }

  predicate InTime(q: Quota, p: Packet) { q.time.Some? ==> p.holds(Time(q.time.value)) }

  /** The counters asked, and what is done when they are over their limit. */
  function Answers(qs: seq<Question>, p: Packet): seq<Event> {
    if qs == [] then []
    else
      (if !(forall k :: 0 <= k < |qs[0].before| ==> p.holds(qs[0].before[k])) then []
       else [Asked(qs[0].counter)] + if p.over(qs[0].counter) then Doing(qs[0].action) else [])
      + Answers(qs[1..], p)
  }

  function Effects(q: Quota, t: Kind, p: Packet, claimed: bool, c: Config): seq<Event> {
    if Applies(q, t, p, claimed, c) && InTime(q, p) then Answers(Questions(q, t), p) else []
  }

  function AllEffects(qs: seq<Quota>, t: Kind, p: Packet, claimed: bool, c: Config): seq<Event> {
    if qs == [] then [] else Effects(qs[0], t, p, claimed, c) + AllEffects(qs[1..], t, p, claimed, c)
  }

  /** The connection mark once the events have happened. */
  function Deaths(es: seq<Event>, m: Bits, c: Config): Bits {
    if Killed in es then (m - c.deathMask) + c.deathMark else m
  }

  /** The death mark keeps out of the two nibbles. */
  predicate Apart(c: Config) { c.deathMask !! HIGH && c.deathMark <= c.deathMask }
}
