/**
 The main loop that works off the quota sections: those for all others are put on a second list and
 come last; every rule is appended to the chain of its kind. Groups of addresses are remembered, and
 each backup is restored with the groups known by then.
 */
module QuotaBuilder {
  import opened Common
  import opened MarkBits
  import opened QuotaModel
  import G = GroupText

  /** A backup to restore: the counter, whether it is kept for each address, and the groups to leave out. */
  datatype Restore = Restore(id: string, kind: Kind, individual: bool, groups: seq<string>)

  // ---------- What the loop records ----------

  /** The texts of the explicit quotas, in order. */
  function Groups(qs: seq<Quota>): seq<string> {
    if qs == [] then [] else (if Explicit(qs[0]) then [IpOf(qs[0])] else []) + Groups(qs[1..])
  }

  function RestoreOf(q: Quota, t: Kind, groups: seq<string>): seq<Restore> {
    if HasLimit(q, t) && q.ignoreBackup != Some("1") then [Restore(q.id, t, Individual(q), groups)] else []
  }

  function RestoresOf(q: Quota, groups: seq<string>): seq<Restore> {
    RestoreOf(q, Ingress, groups) + RestoreOf(q, Egress, groups) + RestoreOf(q, Combined, groups)
  }

  /** Each quota is restored with the groups of the quotas up to it. */
  function Restores(qs: seq<Quota>): seq<Restore>
    decreases |qs|
  {
    if qs == [] then [] else Restores(qs[..|qs| - 1]) + RestoresOf(qs[|qs| - 1], Groups(qs))
  }

  lemma {:induction false} GroupsConcat(a: seq<Quota>, b: seq<Quota>)
    ensures Groups(a + b) == Groups(a) + Groups(b)
  {
    hide Explicit;
    if a == [] {
      assert a + b == b;
    } else {
      assert (a + b)[1..] == a[1..] + b;
      GroupsConcat(a[1..], b);
    }
  }

  lemma {:induction false} NoGroups(qs: seq<Quota>)
    requires forall k :: 0 <= k < |qs| ==> Others(qs[k])
    ensures Groups(qs) == []
  {
    if qs != [] {
      hide Others;
      NotBoth(qs[0]);
      NoGroups(qs[1..]);
    }
  }

  lemma NotBoth(q: Quota)
    requires Others(q)
    ensures !Explicit(q)
  {
  }

  lemma {:induction false} DeferredOthers(qs: seq<Quota>)
    ensures forall k :: 0 <= k < |Plain(qs)| ==> !Others(Plain(qs)[k])
    ensures forall k :: 0 <= k < |Deferred(qs)| ==> Others(Deferred(qs)[k])
  {
    if qs != [] {
      hide Others;
      DeferredOthers(qs[1..]);
    }
  }

  /** Main result: every backup kept for each address is restored with the groups of all enabled
      quotas with addresses, wherever in the configuration they stand. */
  lemma {:induction false} IndividualKnowsAll(qs: seq<Quota>, k: nat, i: nat)
    requires k <= |Order(qs)| && i < |Restores(Order(qs)[..k])| && Restores(Order(qs)[..k])[i].individual
    ensures Restores(Order(qs)[..k])[i].groups == Groups(Plain(qs))
    decreases k
  {
    hide Order, Groups, RestoresOf;
    var o := Order(qs);
    var done, q := o[..k - 1], o[k - 1];
    assert o[..k][..k - 1] == done;
    if i < |Restores(done)| {
      IndividualKnowsAll(qs, k - 1, i);
    } else {
      RestoresOfSpec(q, Groups(o[..k]), i - |Restores(done)|);
      OthersKnowAll(qs, k);
    }
  }

  lemma RestoresOfSpec(q: Quota, groups: seq<string>, i: nat)
    requires i < |RestoresOf(q, groups)|
    ensures RestoresOf(q, groups)[i].groups == groups && RestoresOf(q, groups)[i].individual == Individual(q)
  {
    hide Individual;
  }

  /** When a quota for individual others is reached, all groups are known. */
  lemma OthersKnowAll(qs: seq<Quota>, k: nat)
    requires 0 < k <= |Order(qs)| && Individual(Order(qs)[k - 1])
    ensures Groups(Order(qs)[..k]) == Groups(Plain(qs))
  {
    hide Plain, Deferred, Others, Explicit, Groups, Individual;
    IsOther(Order(qs)[k - 1]);
    DeferredOthers(qs);
    assert k > |Plain(qs)|;
    var rest := Deferred(qs)[..k - |Plain(qs)|];
    assert Order(qs)[..k] == Plain(qs) + rest;
    GroupsConcat(Plain(qs), rest);
    NoGroups(rest);
  }

  lemma IsOther(q: Quota)
    requires Individual(q)
    ensures Others(q)
  {
  }

  // ---------- Which backups are restored ----------

  /** The section is on, has this limit, and does not ask to be left out at the next restore. */
  predicate WantsBackup(q: Quota, t: Kind) {
    && (q.enabled.None? || q.enabled.value != "0")
    && (q.ignoreBackup.None? || q.ignoreBackup.value != "1")
    && (t == Ingress ==> q.ingressLimit) && (t == Egress ==> q.egressLimit) && (t == Combined ==> q.combinedLimit)
  }

  /** How often the list restores this counter in this way. */
  function TimesRestored(rs: seq<Restore>, id: string, t: Kind, individual: bool): nat {
    if rs == [] then 0
    else
      var r := rs[0];
      (if r.id == id && r.kind == t && r.individual == individual then 1 else 0)
      + TimesRestored(rs[1..], id, t, individual)
  }

  /** How many sections want it. */
  function TimesWanted(qs: seq<Quota>, id: string, t: Kind, individual: bool): nat {
    if qs == [] then 0
    else
      var q := qs[0];
      (if q.id == id && Individual(q) == individual && WantsBackup(q, t) then 1 else 0)
      + TimesWanted(qs[1..], id, t, individual)
  }

  lemma {:induction false} RestoredConcat(a: seq<Restore>, b: seq<Restore>, id: string, t: Kind, individual: bool)
    ensures TimesRestored(a + b, id, t, individual) == TimesRestored(a, id, t, individual) + TimesRestored(b, id, t, individual)
  {
    if a == [] {
      assert a + b == b;
    } else {
      assert (a + b)[1..] == a[1..] + b;
      RestoredConcat(a[1..], b, id, t, individual);
    }
  }

  lemma {:induction false} WantedConcat(a: seq<Quota>, b: seq<Quota>, id: string, t: Kind, individual: bool)
    ensures TimesWanted(a + b, id, t, individual) == TimesWanted(a, id, t, individual) + TimesWanted(b, id, t, individual)
  {
    hide Individual, WantsBackup;
    if a == [] {
      assert a + b == b;
    } else {
      assert (a + b)[1..] == a[1..] + b;
      WantedConcat(a[1..], b, id, t, individual);
    }
  }

  lemma OneRestore(q: Quota, u: Kind, groups: seq<string>, id: string, t: Kind, individual: bool)
    requires q.enabled != Some("0")
    ensures TimesRestored(RestoreOf(q, u, groups), id, t, individual) ==
      if u == t && q.id == id && Individual(q) == individual && WantsBackup(q, t) then 1 else 0
  {
    hide Individual;
    var rs := RestoreOf(q, u, groups);
    if rs != [] {
      assert rs[1..] == [];
    }
  }

  lemma QuotaRestores(q: Quota, groups: seq<string>, id: string, t: Kind, individual: bool)
    requires q.enabled != Some("0")
    ensures TimesRestored(RestoresOf(q, groups), id, t, individual) == TimesWanted([q], id, t, individual)
  {
    hide Individual, RestoreOf, TimesRestored, WantsBackup;
    OneRestore(q, Ingress, groups, id, t, individual);
    OneRestore(q, Egress, groups, id, t, individual);
    OneRestore(q, Combined, groups, id, t, individual);
    var a, b, d := RestoreOf(q, Ingress, groups), RestoreOf(q, Egress, groups), RestoreOf(q, Combined, groups);
    RestoredConcat(a, b, id, t, individual);
    RestoredConcat(a + b, d, id, t, individual);
    assert [q][1..] == [];
  }

  lemma {:induction false} AllRestores(qs: seq<Quota>, id: string, t: Kind, individual: bool)
    requires forall k :: 0 <= k < |qs| ==> qs[k].enabled != Some("0")
    ensures TimesRestored(Restores(qs), id, t, individual) == TimesWanted(qs, id, t, individual)
    decreases |qs|
  {
    if qs != [] {
      hide RestoresOf, TimesRestored, TimesWanted, Groups;
      var front, last := qs[..|qs| - 1], qs[|qs| - 1];
      AllRestores(front, id, t, individual);
      QuotaRestores(last, Groups(qs), id, t, individual);
      RestoredConcat(Restores(front), RestoresOf(last, Groups(qs)), id, t, individual);
      assert qs == front + [last];
      WantedConcat(front, [last], id, t, individual);
    }
  }

  /** The order of work holds enabled sections only. */
  lemma {:induction false} OrderEnabled(qs: seq<Quota>)
    ensures forall q :: q in Plain(qs) || q in Deferred(qs) ==> q.enabled != Some("0")
  {
    if qs != [] {
      hide Others;
      OrderEnabled(qs[1..]);
    }
  }

  /** It loses none that wants a backup. */
  lemma {:induction false} OrderWanted(qs: seq<Quota>, id: string, t: Kind, individual: bool)
    ensures TimesWanted(Plain(qs), id, t, individual) + TimesWanted(Deferred(qs), id, t, individual)
      == TimesWanted(qs, id, t, individual)
  {
    if qs != [] {
      hide Others, Individual, TimesWanted, WantsBackup, Enabled;
      var a := if Enabled(qs[0]) && !Others(qs[0]) then [qs[0]] else [];
      var b := if Enabled(qs[0]) && Others(qs[0]) then [qs[0]] else [];
      OrderWanted(qs[1..], id, t, individual);
      WantedConcat(a, Plain(qs[1..]), id, t, individual);
      WantedConcat(b, Deferred(qs[1..]), id, t, individual);
      WantedConcat([qs[0]], qs[1..], id, t, individual);
      assert qs == [qs[0]] + qs[1..];
      OneWanted(qs[0], id, t, individual);
    }
  }

  lemma OneWanted(q: Quota, id: string, t: Kind, individual: bool)
    ensures TimesWanted([], id, t, individual) == 0
    ensures !Enabled(q) ==> TimesWanted([q], id, t, individual) == 0
  {
    hide Individual;
    assert [q][1..] == [];
  }

  /** Main result: over the whole configuration each backup is restored exactly as often as sections
      want it: enabled ones with that limit, that do not ask to be left out. */
  lemma RestoredAsWanted(qs: seq<Quota>, id: string, t: Kind, individual: bool)
    ensures TimesRestored(Restores(Order(qs)), id, t, individual) == TimesWanted(qs, id, t, individual)
  {
    hide Plain, Deferred, Restores, TimesRestored, TimesWanted, Individual;
    OrderEnabled(qs);
    OrderWanted(qs, id, t, individual);
    AllRestores(Order(qs), id, t, individual);
    WantedConcat(Plain(qs), Deferred(qs), id, t, individual);
  }

  lemma {:induction false} RestoredIsIn(rs: seq<Restore>, id: string, t: Kind, individual: bool)
    ensures TimesRestored(rs, id, t, individual) > 0 <==> exists r :: r in rs && r.id == id && r.kind == t && r.individual == individual
  {
    if rs != [] {
      RestoredIsIn(rs[1..], id, t, individual);
      assert rs == [rs[0]] + rs[1..];
    }
  }

  lemma {:induction false} WantedIsIn(qs: seq<Quota>, id: string, t: Kind, individual: bool)
    ensures TimesWanted(qs, id, t, individual) > 0 <==>
      exists q :: q in qs && q.id == id && Individual(q) == individual && WantsBackup(q, t)
  {
    if qs != [] {
      hide Individual, WantsBackup;
      WantedIsIn(qs[1..], id, t, individual);
      assert qs == [qs[0]] + qs[1..];
    }
  }

  /** A backup is restored if and only if some section of the configuration wants it. */
  lemma RestoredIffWanted(qs: seq<Quota>, id: string, t: Kind, individual: bool)
    ensures (exists r :: r in Restores(Order(qs)) && r.id == id && r.kind == t && r.individual == individual) <==>
      exists q :: q in qs && q.id == id && Individual(q) == individual && WantsBackup(q, t)
  {
    hide Order, Restores, TimesRestored, TimesWanted, Individual, WantsBackup;
    RestoredAsWanted(qs, id, t, individual);
    RestoredIsIn(Restores(Order(qs)), id, t, individual);
    WantedIsIn(qs, id, t, individual);
  }

  // ---------- Pushing at the end ----------

  lemma {:induction false} AllRulesPush(qs: seq<Quota>, q: Quota, t: Kind, c: Config)
    ensures AllRules(qs + [q], t, c) == AllRules(qs, t, c) + Rules(q, t, c)
  {
    hide Rules;
    if qs == [] {
      assert [] + [q] == [q] && [q][1..] == [];
    } else {
      assert (qs + [q])[1..] == qs[1..] + [q];
      AllRulesPush(qs[1..], q, t, c);
    }
  }

  lemma GroupsPush(qs: seq<Quota>, q: Quota)
    ensures Groups(qs + [q]) == Groups(qs) + if Explicit(q) then [IpOf(q)] else []
  {
    hide Explicit;
    GroupsConcat(qs, [q]);
    assert [q][1..] == [];
  }

  // ---------- The program ----------

  class Builder {
    const config: Config
    var ingressRules: seq<Rule>
    var egressRules: seq<Rule>
    var combinedRules: seq<Rule>
    var definedIpGroups: seq<string>
    var restores: seq<Restore>

    function Chain(t: Kind): seq<Rule>
      reads this
    {
      match t
      case Ingress => ingressRules
      case Egress => egressRules
      case Combined => combinedRules
    }

    constructor (c: Config)
      ensures config == c && definedIpGroups == [] && restores == []
      ensures forall t :: Chain(t) == []
    {
      config := c;
      ingressRules, egressRules, combinedRules, definedIpGroups, restores := [], [], [], [], [];
    }

    method Append(t: Kind, r: Rule)
      modifies `ingressRules, `egressRules, `combinedRules
      ensures Chain(t) == old(Chain(t)) + [r]
      ensures forall u :: u != t ==> Chain(u) == old(Chain(u))
    {
      match t {
        case Ingress => ingressRules := ingressRules + [r];
        case Egress => egressRules := egressRules + [r];
        case Combined => combinedRules := combinedRules + [r];
      }
    }

    /** One rule, or two in the combined chain, for every address. */
    method MarkAddresses(words: seq<string>, t: Kind)
      modifies `ingressRules, `egressRules, `combinedRules
      ensures Chain(t) == old(Chain(t)) + MarkRules(words, t)
      ensures forall u :: u != t ==> Chain(u) == old(Chain(u))
    {
      var k := 0;
      while k < |words|
        invariant k <= |words| && Chain(t) + MarkRules(words[k..], t) == old(Chain(t)) + MarkRules(words, t)
        invariant forall u :: u != t ==> Chain(u) == old(Chain(u))
      {
        assert words[k..][1..] == words[k + 1..];
        MarkAddress(words[k], words[k..], t);
        k := k + 1;
      }
    }

    method MarkAddress(w: string, ghost words: seq<string>, t: Kind)
      requires words != [] && words[0] == w
      modifies `ingressRules, `egressRules, `combinedRules
      ensures Chain(t) + MarkRules(words[1..], t) == old(Chain(t)) + MarkRules(words, t)
      ensures forall u :: u != t ==> Chain(u) == old(Chain(u))
    {
      match t {
        case Ingress =>
          Append(t, Rule([Dst(w)], None, SetConn(LOW, LOW)));
        case Egress =>
          Append(t, Rule([Src(w)], None, SetConn(LOW, LOW)));
        case Combined =>
          Append(t, Rule([FromWan, Dst(w)], None, SetConn(LOW, LOW)));
          Append(t, Rule([ToWan, Src(w)], None, SetConn(LOW, LOW)));
      }
    }

    /** The rules that claim the packet, and the tests for the quota's counters. */
    method TestAddresses(q: Quota, t: Kind) returns (ipTest: seq<Test>)
      modifies `ingressRules, `egressRules, `combinedRules
      ensures ipTest == IpTests(q, t)
      ensures Chain(t) == old(Chain(t)) + if Explicit(q)
        then (if UsesLow(q, t) then MarkRules(WordsOf(q, config), t) else []) + [Rule(IpTests(q, t), None, SetConn(TOP, TOP))] else []
      ensures forall u :: u != t ==> Chain(u) == old(Chain(u))
    {
      hide MarkRules, G.Trimmed;
      ipTest := [];
      var ip := IpOf(q);
      if ip != "ALL_OTHERS_COMBINED" && ip != "ALL_OTHERS_INDIVIDUAL" && ip != "ALL" {
        if IsList(ip) {
          MarkAddresses(config.split(ip), t);
          ipTest := [Conn(LOW, LOW)];
        } else if t == Egress {
          ipTest := [Src(ip)];
        } else if t == Ingress {
          ipTest := [Dst(ip)];
        } else {
          MarkAddresses([ip], t);
          ipTest := [Conn(LOW, LOW)];
        }
        Append(t, Rule(ipTest, None, SetConn(TOP, TOP)));
      } else if ip != "ALL" {
        ipTest := [Conn({}, TOP)];
        if ip == "ALL_OTHERS_INDIVIDUAL" {
          if t == Egress {
            ipTest := [SrcLocal] + ipTest;
          } else if t == Ingress {
            ipTest := [DstLocal] + ipTest;
          }
        }
      }
    }

    /** Appends the rule of one question. */
    method Ask(a: Question, t: Kind, tests: seq<Test>, ghost was: seq<Rule>, ghost asked: seq<Question>)
      requires Chain(t) == was + QuestionRules(asked, tests)
      modifies `ingressRules, `egressRules, `combinedRules
      ensures Chain(t) == was + QuestionRules(asked + [a], tests)
      ensures forall u :: u != t ==> Chain(u) == old(Chain(u))
    {
      hide QuestionRules;
      QuestionsPush(asked, a, tests);
      Append(t, Rule(a.before + tests, Some(a.counter), a.action));
    }

    /** The rules that ask the counters. */
    method AskCounters(q: Quota, t: Kind, tests: seq<Test>)
      modifies `ingressRules, `egressRules, `combinedRules
      ensures Chain(t) == old(Chain(t)) + QuestionRules(Questions(q, t), tests)
      ensures forall u :: u != t ==> Chain(u) == old(Chain(u))
    {
      hide QuestionRules;
      ghost var asked: seq<Question> := [];
      ghost var was := Chain(t);
      NoQuestions(tests);
      if q.upMark.Some? && q.downMark.Some? {
        if t != Combined && HasLimit(q, Opposite(t)) {
          var mark := if t == Egress then q.upMark.value else q.downMark.value;
          var a := Question([], Counter(q.id, Opposite(t), CheckSwapped), SetMark(mark));
          Ask(a, t, tests, was, asked);
          asked := asked + [a];
        }
      }
      if HasLimit(q, t) {
        if q.upMark.Some? && q.downMark.Some? {
          var action := if t == Egress then SetMark(q.upMark.value) else if t == Ingress then SetMark(q.downMark.value) else Nothing;
          var a := Question([], Counter(q.id, t, Count), action);
          Ask(a, t, tests, was, asked);
          asked := asked + [a];
          if t == Combined {
            var up := Question([ToWan], Counter(q.id, t, Check), SetMark(q.upMark.value));
            Ask(up, t, tests, was, asked);
            asked := asked + [up];
            var down := Question([FromWan], Counter(q.id, t, CheckSwapped), SetMark(q.downMark.value));
            Ask(down, t, tests, was, asked);
            asked := asked + [down];
          }
        } else {
          var a := Question([], Counter(q.id, t, Count), Kill);
          Ask(a, t, tests, was, asked);
          asked := asked + [a];
        }
      }
      assert asked == Questions(q, t);
    }

    method RestoreBackup(q: Quota, t: Kind)
      modifies `restores
      ensures restores == old(restores) + RestoreOf(q, t, definedIpGroups)
    {
      if HasLimit(q, t) && q.ignoreBackup != Some("1") {
        restores := restores + [Restore(q.id, t, Individual(q), definedIpGroups)];
      }
    }

    /** The low nibble is cleared after a quota that tests the connection mark. */
    method ClearLow(ipTest: seq<Test>, t: Kind)
      modifies `ingressRules, `egressRules, `combinedRules
      ensures Chain(t) == old(Chain(t)) + if ReadsConn(ipTest) then [Rule([], None, SetConn({}, LOW))] else []
      ensures forall u :: u != t ==> Chain(u) == old(Chain(u))
    {
      if ReadsConn(ipTest) {
        Append(t, Rule([], None, SetConn({}, LOW)));
      }
    }

    /** What one quota adds to one chain, and the backup of its counter. */
    method ProcessKind(q: Quota, t: Kind)
      modifies `ingressRules, `egressRules, `combinedRules, `restores
      ensures Chain(t) == old(Chain(t)) + Rules(q, t, config)
      ensures forall u :: u != t ==> Chain(u) == old(Chain(u))
      ensures restores == old(restores) + RestoreOf(q, t, definedIpGroups)
    {
      hide IpTests, MarkRules, QuestionRules, Questions, WordsOf, UsesLow, Explicit, IpOf, TimeTests, ReadsConn, RestoreOf, Rules;
      ghost var was := Chain(t);
      var ipTest := TestAddresses(q, t);
      ghost var claim := Chain(t)[|was|..];
      AskCounters(q, t, ipTest + TimeTests(q));
      RestoreBackup(q, t);
      ClearLow(ipTest, t);
      RulesAre(q, t, config, claim);
    }

    static lemma RulesAre(q: Quota, t: Kind, c: Config, claim: seq<Rule>)
      requires claim == if Explicit(q)
        then (if UsesLow(q, t) then MarkRules(WordsOf(q, c), t) else []) + [Rule(IpTests(q, t), None, SetConn(TOP, TOP))] else []
      ensures Rules(q, t, c) == claim + QuestionRules(Questions(q, t), IpTests(q, t) + TimeTests(q))
        + if ReadsConn(IpTests(q, t)) then [Rule([], None, SetConn({}, LOW))] else []
    {
      hide IpTests, MarkRules, QuestionRules, Questions, WordsOf, UsesLow, Explicit, IpOf, TimeTests, ReadsConn;
    }

    method AddressesOf(q: Quota) returns (ip: string)
      ensures ip == IpOf(q)
    {
      ip := if q.ip.None? || q.ip.value == "" then "ALL" else q.ip.value;
      ip := G.RemoveSpaces(ip);
    }

    /** Explicit addresses are remembered for the backups of individual others. */
    method Register(q: Quota)
      modifies `definedIpGroups
      ensures definedIpGroups == old(definedIpGroups) + if Explicit(q) then [IpOf(q)] else []
    {
      hide IpOf;
      var ip := AddressesOf(q);
      if ip != "ALL_OTHERS_COMBINED" && ip != "ALL_OTHERS_INDIVIDUAL" && ip != "ALL" {
        definedIpGroups := definedIpGroups + [ip];
      }
    }

    method Process(q: Quota)
      modifies this
      ensures forall t :: Chain(t) == old(Chain(t)) + Rules(q, t, config)
      ensures definedIpGroups == old(definedIpGroups) + if Explicit(q) then [IpOf(q)] else []
      ensures restores == old(restores) + RestoresOf(q, definedIpGroups)
    {
      hide Rules, RestoreOf, Explicit, IpOf;
      Register(q);
      ProcessKind(q, Ingress);
      ProcessKind(q, Egress);
      ProcessKind(q, Combined);
    }

    /** The chains and the records after some quotas have been processed. */
    ghost predicate Done(qs: seq<Quota>)
      reads this
    {
      && (forall t :: Chain(t) == Opening(config) + AllRules(qs, t, config))
      && definedIpGroups == Groups(qs)
      && restores == Restores(qs)
    }

    method Next(q: Quota, ghost qs: seq<Quota>)
      requires Done(qs)
      modifies this
      ensures Done(qs + [q])
    {
      hide Rules, AllRules, Groups, Restores, RestoresOf, Opening, Explicit;
      RestoresPush(qs, q);
      GroupsPush(qs, q);
      Process(q);
      forall t ensures Chain(t) == Opening(config) + AllRules(qs + [q], t, config) {
        AllRulesPush(qs, q, t, config);
      }
    }

    method Open()
      requires definedIpGroups == [] && restores == [] && forall t :: Chain(t) == []
      modifies this
      ensures Done([])
    {
      egressRules, ingressRules, combinedRules := Opening(config), Opening(config), Opening(config);
      assert forall t :: Chain(t) == Opening(config) + [];
    }

    method Close()
      modifies `ingressRules, `egressRules, `combinedRules
      ensures forall t :: Chain(t) == old(Chain(t)) + [Rule([], None, SetConn({}, HIGH))]
    {
      Append(Egress, Rule([], None, SetConn({}, HIGH)));
      Append(Ingress, Rule([], None, SetConn({}, HIGH)));
      Append(Combined, Rule([], None, SetConn({}, HIGH)));
    }

    /** The main loop: a section for all others met on the first list goes to the second. */
    method ProcessAll(sections: seq<Quota>)
      requires definedIpGroups == [] && restores == [] && forall t :: Chain(t) == []
      modifies this
      ensures forall t :: Chain(t) == ChainOf(sections, t, config)
      ensures definedIpGroups == Groups(Order(sections)) && restores == Restores(Order(sections))
    {
      hide Done, Plain, Deferred, Others, AllRules, Groups, Restores, Enabled;
      Open();
      ghost var done: seq<Quota> := [];
      var quotaSections, otherQuotas := sections, [];
      NothingLeft();
      while |quotaSections| > 0 || |otherQuotas| > 0
        invariant Done(done)
        invariant done + Plain(quotaSections) + otherQuotas + Deferred(quotaSections) == Order(sections)
        invariant forall k :: 0 <= k < |otherQuotas| ==> Enabled(otherQuotas[k])
        decreases |quotaSections|, |otherQuotas|
      {
        if |quotaSections| > 0 {
          var next := quotaSections[0];
          Shift(quotaSections);
          quotaSections := quotaSections[1..];
          if Enabled(next) {
            if Others(next) {
              otherQuotas := otherQuotas + [next];
            } else {
              Next(next, done);
              done := done + [next];
            }
          }
        } else {
          var next := otherQuotas[0];
          otherQuotas := otherQuotas[1..];
          NothingLeft();
          if Enabled(next) {
            Next(next, done);
            done := done + [next];
          }
        }
      }
      NothingLeft();
      assert done == Order(sections);
      Finished(done);
      Close();
    }

    lemma Finished(qs: seq<Quota>)
      requires Done(qs)
      ensures (forall t :: Chain(t) == Opening(config) + AllRules(qs, t, config))
        && definedIpGroups == Groups(qs) && restores == Restores(qs)
    {
    }
  }

  lemma NoQuestions(tests: seq<Test>)
    ensures QuestionRules([], tests) == []
  {
  }

  lemma {:induction false} QuestionsPush(qs: seq<Question>, q: Question, tests: seq<Test>)
    ensures QuestionRules(qs + [q], tests) == QuestionRules(qs, tests) + [Rule(q.before + tests, Some(q.counter), q.action)]
  {
    if qs == [] {
      assert [] + [q] == [q] && [q][1..] == [];
    } else {
      assert (qs + [q])[1..] == qs[1..] + [q];
      QuestionsPush(qs[1..], q, tests);
    }
  }

  lemma RestoresPush(qs: seq<Quota>, q: Quota)
    ensures Restores(qs + [q]) == Restores(qs) + RestoresOf(q, Groups(qs + [q]))
  {
    hide RestoresOf, Groups;
    assert (qs + [q])[..|qs|] == qs;
  }

  lemma NothingLeft()
    ensures Plain([]) == [] && Deferred([]) == []
  {
  }

  /** Taking the first section off the list. */
  lemma Shift(qs: seq<Quota>)
    requires qs != []
    ensures Plain(qs) == (if Enabled(qs[0]) && !Others(qs[0]) then [qs[0]] else []) + Plain(qs[1..])
    ensures Deferred(qs) == (if Enabled(qs[0]) && Others(qs[0]) then [qs[0]] else []) + Deferred(qs[1..])
  {
  }
}
