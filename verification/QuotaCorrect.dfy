/**
 The quota chains do what the quotas mean: each counter is asked for exactly the packets its quota
 applies to, and between two quotas the connection mark only remembers whether the packet has been
 claimed.
 */
module QuotaCorrect {
  import opened Common
  import opened MarkBits
  import opened QuotaModel

  // ---------- The connection mark between rules ----------

  /** Outside the two nibbles r; the upper one full if claimed, the lower one if matched. */
  function Form(r: Bits, claimed: bool, matched: bool): Bits {
    r + (if claimed then TOP else {}) + (if matched then LOW else {})
  }

  lemma FormReads(r: Bits, claimed: bool, matched: bool)
    requires r !! HIGH
    ensures Form(r, claimed, matched) * LOW == (if matched then LOW else {})
    ensures Form(r, claimed, matched) * TOP == (if claimed then TOP else {})
    ensures Form(r, claimed, matched) - HIGH == r
  {
    assert LOW !! TOP && LOW <= HIGH && TOP <= HIGH;
    assert HIGH == LOW + TOP;
  }

  lemma FormWrites(r: Bits, claimed: bool, matched: bool, c: Config)
    requires r !! HIGH && Apart(c)
    ensures (Form(r, claimed, matched) - LOW) + LOW == Form(r, claimed, true)
    ensures (Form(r, claimed, matched) - LOW) + {} == Form(r, claimed, false)
    ensures (Form(r, claimed, matched) - TOP) + TOP == Form(r, true, matched)
    ensures (Form(r, claimed, matched) - c.deathMask) + c.deathMark == Form((r - c.deathMask) + c.deathMark, claimed, matched)
    ensures (r - c.deathMask) + c.deathMark !! HIGH
  {
    assert LOW !! TOP && LOW <= HIGH && TOP <= HIGH;
    assert LOW !! c.deathMask && TOP !! c.deathMask;
  }

  lemma {:induction false} RunConcat(a: seq<Rule>, b: seq<Rule>, p: Packet, m: Bits, c: Config)
    ensures var r := Run(a, p, m, c); var s := Run(b, p, r.1, c);
      Run(a + b, p, m, c) == (r.0 + s.0, s.1)
  {
    hide RunRule;
    if a == [] {
      NoEvents(Run(b, p, m, c).0);
      assert a + b == b;
    } else {
      assert (a + b)[1..] == a[1..] + b;
      var f := RunRule(a[0], p, m, c);
      RunConcat(a[1..], b, p, f.1, c);
      var r := Run(a[1..], p, f.1, c);
      assert f.0 + (r.0 + Run(b, p, r.1, c).0) == (f.0 + r.0) + Run(b, p, r.1, c).0;
    }
  }

  lemma RunOne(r: Rule, p: Packet, m: Bits, c: Config)
    ensures Run([r], p, m, c) == RunRule(r, p, m, c) && Run([], p, m, c) == ([], m)
  {
    assert [r][1..] == [];
    assert RunRule(r, p, m, c).0 + [] == RunRule(r, p, m, c).0;
  }

  lemma NoEvents(es: seq<Event>)
    ensures [] + es + [] == es && [] + es == es && es + [] == es
  {
  }

  lemma HoldConcat(a: seq<Test>, b: seq<Test>, p: Packet, m: Bits)
    ensures AllHold(a + b, p, m) <==> AllHold(a, p, m) && AllHold(b, p, m)
  {
    hide Holds;
    if AllHold(a + b, p, m) {
      forall k | 0 <= k < |a| ensures Holds(a[k], p, m) { assert (a + b)[k] == a[k]; }
      forall k | 0 <= k < |b| ensures Holds(b[k], p, m) { assert (a + b)[|a| + k] == b[k]; }
    }
  }

  lemma HoldOne(t: Test, p: Packet, m: Bits)
    ensures AllHold([t], p, m) <==> Holds(t, p, m)
    ensures AllHold([], p, m)
  {
    if AllHold([t], p, m) { assert Holds([t][0], p, m); }
  }

  // ---------- Matching the addresses ----------

  /** One rule that marks the lower nibble. */
  lemma MarkOne(tests: seq<Test>, p: Packet, r: Bits, claimed: bool, matched: bool, c: Config)
    requires r !! HIGH && Apart(c)
    ensures var m := Form(r, claimed, matched);
      Run([Rule(tests, None, SetConn(LOW, LOW))], p, m, c) == ([], Form(r, claimed, matched || AllHold(tests, p, m)))
  {
    hide AllHold, Form;
    NoEvents([]);
    FormWrites(r, claimed, matched, c);
    RunOne(Rule(tests, None, SetConn(LOW, LOW)), p, Form(r, claimed, matched), c);
  }

  lemma PlainPair(a: Test, b: Test, p: Packet, m: Bits)
    requires !a.Conn? && !b.Conn?
    ensures AllHold([a, b], p, m) <==> p.holds(a) && p.holds(b)
    ensures AllHold([a], p, m) <==> p.holds(a)
  {
    HoldOne(a, p, m);
    HoldOne(b, p, m);
    HoldConcat([a], [b], p, m);
    assert [a] + [b] == [a, b];
  }

  function WordRules(w: string, t: Kind): seq<Rule> {
    match t
    case Ingress => [Rule([Dst(w)], None, SetConn(LOW, LOW))]
    case Egress => [Rule([Src(w)], None, SetConn(LOW, LOW))]
    case Combined => [Rule([FromWan, Dst(w)], None, SetConn(LOW, LOW)), Rule([ToWan, Src(w)], None, SetConn(LOW, LOW))]
  }

  lemma WordRun(w: string, t: Kind, p: Packet, r: Bits, claimed: bool, matched: bool, c: Config)
    requires r !! HIGH && Apart(c)
    ensures Run(WordRules(w, t), p, Form(r, claimed, matched), c) == ([], Form(r, claimed, matched || WordHit(w, t, p)))
  {
    hide Run, Form, AllHold;
    var m := Form(r, claimed, matched);
    match t
    case Ingress =>
      PlainPair(Dst(w), Dst(w), p, m);
      MarkOne([Dst(w)], p, r, claimed, matched, c);
    case Egress =>
      PlainPair(Src(w), Src(w), p, m);
      MarkOne([Src(w)], p, r, claimed, matched, c);
    case Combined =>
      var first := p.holds(FromWan) && p.holds(Dst(w));
      var one, two := Rule([FromWan, Dst(w)], None, SetConn(LOW, LOW)), Rule([ToWan, Src(w)], None, SetConn(LOW, LOW));
      PlainPair(FromWan, Dst(w), p, m);
      MarkOne([FromWan, Dst(w)], p, r, claimed, matched, c);
      PlainPair(ToWan, Src(w), p, Form(r, claimed, matched || first));
      MarkOne([ToWan, Src(w)], p, r, claimed, matched || first, c);
      RunConcat([one], [two], p, m, c);
      NoEvents([]);
      assert [one] + [two] == WordRules(w, t);
  }

  predicate SomeHit(words: seq<string>, t: Kind, p: Packet) { exists k :: 0 <= k < |words| && WordHit(words[k], t, p) }

  lemma SomeHitStep(words: seq<string>, t: Kind, p: Packet)
    requires words != []
    ensures SomeHit(words, t, p) <==> WordHit(words[0], t, p) || SomeHit(words[1..], t, p)
  {
    hide WordHit;
    if k :| 0 <= k < |words| && WordHit(words[k], t, p) {
      if k > 0 { assert WordHit(words[1..][k - 1], t, p); }
    }
    if k :| 0 <= k < |words[1..]| && WordHit(words[1..][k], t, p) {
      assert WordHit(words[k + 1], t, p);
    }
  }

  /** The lower nibble ends up full exactly when one of the addresses matches. */
  lemma {:induction false} MarksRun(words: seq<string>, t: Kind, p: Packet, r: Bits, claimed: bool, matched: bool, c: Config)
    requires r !! HIGH && Apart(c)
    ensures Run(MarkRules(words, t), p, Form(r, claimed, matched), c) == ([], Form(r, claimed, matched || SomeHit(words, t, p)))
  {
    if words == [] {
      hide Form;
      assert !SomeHit(words, t, p);
    } else {
      hide Run, Form, WordHit, SomeHit;
      var rest := MarkRules(words[1..], t);
      assert MarkRules(words, t) == WordRules(words[0], t) + rest;
      var hit := WordHit(words[0], t, p);
      WordRun(words[0], t, p, r, claimed, matched, c);
      MarksRun(words[1..], t, p, r, claimed, matched || hit, c);
      RunConcat(WordRules(words[0], t), rest, p, Form(r, claimed, matched), c);
      SomeHitStep(words, t, p);
    }
  }

  // ---------- The tests on the packet's addresses ----------

  /** Once the addresses have been matched, the quota's own tests say whether it applies. */
  lemma IpTestsHold(q: Quota, t: Kind, p: Packet, r: Bits, before: bool, claimed: bool, c: Config)
    requires r !! HIGH && claimed == (before || Claims(q, t, p, c))
    ensures AllHold(IpTests(q, t), p, Form(r, claimed, UsesLow(q, t) && Claims(q, t, p, c))) <==> Applies(q, t, p, before, c)
    ensures AllHold(IpTests(q, t), p, Form(r, before, UsesLow(q, t) && Claims(q, t, p, c))) <==> Applies(q, t, p, before, c)
  {
    hide AllHold, Form, Claims;
    var low := UsesLow(q, t) && Claims(q, t, p, c);
    forall b: bool | b == before || b == claimed
      ensures AllHold(IpTests(q, t), p, Form(r, b, low)) <==> Applies(q, t, p, before, c)
    {
      var m := Form(r, b, low);
      FormReads(r, b, low);
      if Explicit(q) {
        ExplicitTests(q, t, p, m, low, c);
      } else if Others(q) {
        NoClaim(q, t, p, c);
        OthersTests(q, t, p, m);
      } else {
        HoldOne(ToWan, p, m);
      }
    }
  }

  lemma NoClaim(q: Quota, t: Kind, p: Packet, c: Config)
    requires !Explicit(q)
    ensures !Claims(q, t, p, c)
  {
  }

  lemma ExplicitTests(q: Quota, t: Kind, p: Packet, m: Bits, low: bool, c: Config)
    requires Explicit(q) && low == (UsesLow(q, t) && Claims(q, t, p, c)) && m * LOW == if low then LOW else {}
    ensures AllHold(IpTests(q, t), p, m) <==> Claims(q, t, p, c)
  {
    hide AllHold, WordHit;
    if UsesLow(q, t) {
      HoldOne(Conn(LOW, LOW), p, m);
      assert 24 in LOW;
    } else {
      var test := if t == Egress then Src(IpOf(q)) else Dst(IpOf(q));
      HoldOne(test, p, m);
      SomeHitStep([IpOf(q)], t, p);
      assert WordsOf(q, c) == [IpOf(q)];
      SingleHit(IpOf(q), t, p);
    }
  }

  lemma SingleHit(ip: string, t: Kind, p: Packet)
    requires t != Combined
    ensures WordHit(ip, t, p) == p.holds(if t == Egress then Src(ip) else Dst(ip))
    ensures SomeHit([ip], t, p) == WordHit(ip, t, p)
  {
    if WordHit(ip, t, p) { assert WordHit([ip][0], t, p); }
  }

  lemma OthersTests(q: Quota, t: Kind, p: Packet, m: Bits)
    requires Others(q)
    ensures AllHold(IpTests(q, t), p, m) <==>
      && m * TOP == {}
      && (Individual(q) && t == Egress ==> p.holds(SrcLocal)) && (Individual(q) && t == Ingress ==> p.holds(DstLocal))
  {
    hide AllHold;
    var top := Conn({}, TOP);
    HoldOne(top, p, m);
    HoldOne(SrcLocal, p, m);
    HoldOne(DstLocal, p, m);
    HoldConcat([SrcLocal], [top], p, m);
    HoldConcat([DstLocal], [top], p, m);
    assert [] + [top] == [top];
  }

  // ---------- The counters ----------

  /** The counters are asked if the quota's tests hold; only the death mark is written. */
  lemma {:induction false} QuestionsRun(qs: seq<Question>, tests: seq<Test>, p: Packet, r: Bits, claimed: bool, matched: bool,
                                        c: Config, holds: bool)
    requires r !! HIGH && Apart(c)
    requires forall r' | r' !! HIGH :: AllHold(tests, p, Form(r', claimed, matched)) == holds
    requires forall k :: 0 <= k < |qs| ==> Clean(qs[k])
    ensures var es := if holds then Answers(qs, p) else [];
      Run(QuestionRules(qs, tests), p, Form(r, claimed, matched), c) == (es, Form(Deaths(es, r, c), claimed, matched))
      && Deaths(es, r, c) !! HIGH
  {
    if qs == [] {
      hide Form;
    } else {
      hide Run, Form, AllHold, Clean;
      var first := Rule(qs[0].before + tests, Some(qs[0].counter), qs[0].action);
      var rest := QuestionRules(qs[1..], tests);
      var es0 := if holds then Answer(qs[0], p) else [];
      var es1 := if holds then Answers(qs[1..], p) else [];
      var r1 := Deaths(es0, r, c);
      QuestionRun(qs[0], tests, p, r, claimed, matched, c, holds);
      QuestionsRun(qs[1..], tests, p, r1, claimed, matched, c, holds);
      RunConcat([first], rest, p, Form(r, claimed, matched), c);
      DeathsConcat(es0, es1, r, c);
      AnswersStep(qs, p);
    }
  }

  predicate Clean(q: Question) {
    !q.action.SetConn? && forall k :: 0 <= k < |q.before| ==> !q.before[k].Conn?
  }

  function Answer(q: Question, p: Packet): seq<Event> {
    if !(forall k :: 0 <= k < |q.before| ==> p.holds(q.before[k])) then []
    else [Asked(q.counter)] + if p.over(q.counter) then Doing(q.action) else []
  }

  lemma AnswersStep(qs: seq<Question>, p: Packet)
    requires qs != []
    ensures Answers(qs, p) == Answer(qs[0], p) + Answers(qs[1..], p)
  {
  }

  lemma DeathsConcat(a: seq<Event>, b: seq<Event>, m: Bits, c: Config)
    ensures Deaths(a + b, m, c) == Deaths(b, Deaths(a, m, c), c)
  {
    assert Killed in a + b <==> Killed in a || Killed in b;
  }

  lemma QuestionRun(q: Question, tests: seq<Test>, p: Packet, r: Bits, claimed: bool, matched: bool, c: Config, holds: bool)
    requires r !! HIGH && Apart(c) && Clean(q) && AllHold(tests, p, Form(r, claimed, matched)) == holds
    ensures var es := if holds then Answer(q, p) else [];
      Run([Rule(q.before + tests, Some(q.counter), q.action)], p, Form(r, claimed, matched), c)
        == (es, Form(Deaths(es, r, c), claimed, matched))
      && Deaths(es, r, c) !! HIGH
  {
    hide Form, Run;
    var m := Form(r, claimed, matched);
    NoEvents([Asked(q.counter)]);
    assert Killed in [Asked(q.counter)] + Doing(q.action) <==> q.action.Kill?;
    RunOne(Rule(q.before + tests, Some(q.counter), q.action), p, m, c);
    HoldConcat(q.before, tests, p, m);
    FormWrites(r, claimed, matched, c);
    assert AllHold(q.before, p, m) <==> forall k :: 0 <= k < |q.before| ==> p.holds(q.before[k]);
    hide AllHold;
  }

  lemma QuestionsClean(q: Quota, t: Kind)
    ensures forall k :: 0 <= k < |Questions(q, t)| ==> Clean(Questions(q, t)[k])
  {
  }

  // ---------- One quota ----------

  lemma TestsHold(q: Quota, t: Kind, p: Packet, m: Bits)
    ensures AllHold(IpTests(q, t) + TimeTests(q), p, m) <==> AllHold(IpTests(q, t), p, m) && InTime(q, p)
  {
    hide IpTests;
    HoldConcat(IpTests(q, t), TimeTests(q), p, m);
    if q.time.Some? { HoldOne(Time(q.time.value), p, m); } else { HoldOne(ToWan, p, m); }
  }

  /** The rules before the counters leave both nibbles saying what they should. */
  lemma ClaimRun(q: Quota, t: Kind, p: Packet, r: Bits, before: bool, c: Config)
    requires r !! HIGH && Apart(c)
    ensures var rules := if Explicit(q)
        then (if UsesLow(q, t) then MarkRules(WordsOf(q, c), t) else []) + [Rule(IpTests(q, t), None, SetConn(TOP, TOP))] else [];
      Run(rules, p, Form(r, before, false), c)
        == ([], Form(r, before || Claims(q, t, p, c), UsesLow(q, t) && Claims(q, t, p, c)))
  {
    if Explicit(q) {
      hide Run, Form, MarkRules, AllHold, Applies, UsesLow, IpTests;
      var marks := if UsesLow(q, t) then MarkRules(WordsOf(q, c), t) else [];
      var top := Rule(IpTests(q, t), None, SetConn(TOP, TOP));
      var hit := Claims(q, t, p, c);
      assert hit == SomeHit(WordsOf(q, c), t, p);
      var m := Form(r, before, false);
      if UsesLow(q, t) { MarksRun(WordsOf(q, c), t, p, r, before, false, c); } else { RunOne(top, p, m, c); }
      var low := UsesLow(q, t) && hit;
      RunConcat(marks, [top], p, m, c);
      RunOne(top, p, Form(r, before, low), c);
      IpTestsHold(q, t, p, r, before, before || hit, c);
      AppliesExplicit(q, t, p, before, c);
      NoEvents([]);
      FormWrites(r, before, low, c);
    } else {
      hide Form, Claims;
      NoClaim(q, t, p, c);
    }
  }

  lemma AppliesExplicit(q: Quota, t: Kind, p: Packet, before: bool, c: Config)
    requires Explicit(q)
    ensures Applies(q, t, p, before, c) == Claims(q, t, p, c)
  {
  }

  /** The lower nibble is clear again when the quota is done. */
  lemma ClearRun(q: Quota, t: Kind, p: Packet, r: Bits, claimed: bool, c: Config)
    requires r !! HIGH && Apart(c)
    ensures var rules := if ReadsConn(IpTests(q, t)) then [Rule([], None, SetConn({}, LOW))] else [];
      Run(rules, p, Form(r, claimed, UsesLow(q, t) && Claims(q, t, p, c)), c) == ([], Form(r, claimed, false))
  {
    hide Form, Claims, Run;
    var low := UsesLow(q, t) && Claims(q, t, p, c);
    var clear := Rule([], None, SetConn({}, LOW));
    FormWrites(r, claimed, low, c);
    NoEvents([]);
    RunOne(clear, p, Form(r, claimed, low), c);
    HoldOne(ToWan, p, Form(r, claimed, low));
    if low {
      if !Explicit(q) { NoClaim(q, t, p, c); }
      assert IpTests(q, t)[0].Conn?;
    }
  }

  /** Main step: a quota does to the packet what it means, given whether the packet was claimed
      before; it claims the packet exactly if it is of its addresses; the lower nibble is clear
      before and after. */
  lemma QuotaRun(q: Quota, t: Kind, p: Packet, r: Bits, before: bool, c: Config)
    requires r !! HIGH && Apart(c)
    ensures var es := Effects(q, t, p, before, c);
      Run(Rules(q, t, c), p, Form(r, before, false), c) == (es, Form(Deaths(es, r, c), before || Claims(q, t, p, c), false))
      && Deaths(es, r, c) !! HIGH
  {
    hide Run, Form, Claims, Applies, IpTests, TimeTests, Questions, MarkRules, WordsOf, Explicit, UsesLow, AllHold, InTime, ReadsConn;
    var claimed := before || Claims(q, t, p, c);
    var low := UsesLow(q, t) && Claims(q, t, p, c);
    var tests := IpTests(q, t) + TimeTests(q);
    var holds := Applies(q, t, p, before, c) && InTime(q, p);
    forall r' | r' !! HIGH ensures AllHold(tests, p, Form(r', claimed, low)) == holds {
      TestsHold(q, t, p, Form(r', claimed, low));
      IpTestsHold(q, t, p, r', before, claimed, c);
    }
    QuestionsClean(q, t);
    QuestionsRun(Questions(q, t), tests, p, r, claimed, low, c, holds);
    var es := Effects(q, t, p, before, c);
    NoEvents(es);
    ClaimRun(q, t, p, r, before, c);
    ClearRun(q, t, p, Deaths(es, r, c), claimed, c);
    RunThree(q, t, p, Form(r, before, false), c);
  }

  lemma RunThree(q: Quota, t: Kind, p: Packet, m: Bits, c: Config)
    ensures var a := if Explicit(q)
        then (if UsesLow(q, t) then MarkRules(WordsOf(q, c), t) else []) + [Rule(IpTests(q, t), None, SetConn(TOP, TOP))] else [];
      var b := QuestionRules(Questions(q, t), IpTests(q, t) + TimeTests(q));
      var d := if ReadsConn(IpTests(q, t)) then [Rule([], None, SetConn({}, LOW))] else [];
      var x := Run(a, p, m, c);
      var y := Run(b, p, x.1, c);
      var z := Run(d, p, y.1, c);
      Run(Rules(q, t, c), p, m, c) == (x.0 + y.0 + z.0, z.1)
  {
    hide Run, MarkRules, QuestionRules, Questions, IpTests, TimeTests, Explicit, UsesLow, WordsOf, ReadsConn;
    var a := if Explicit(q)
      then (if UsesLow(q, t) then MarkRules(WordsOf(q, c), t) else []) + [Rule(IpTests(q, t), None, SetConn(TOP, TOP))] else [];
    var b := QuestionRules(Questions(q, t), IpTests(q, t) + TimeTests(q));
    var d := if ReadsConn(IpTests(q, t)) then [Rule([], None, SetConn({}, LOW))] else [];
    RunConcat(a, b, p, m, c);
    RunConcat(a + b, d, p, m, c);
  }

  // ---------- All quotas ----------

  predicate AnyClaims(qs: seq<Quota>, t: Kind, p: Packet, c: Config) {
    exists k :: 0 <= k < |qs| && Claims(qs[k], t, p, c)
  }

  lemma AnyClaimsStep(qs: seq<Quota>, t: Kind, p: Packet, c: Config)
    requires qs != []
    ensures AnyClaims(qs, t, p, c) <==> Claims(qs[0], t, p, c) || AnyClaims(qs[1..], t, p, c)
  {
    hide Claims;
    if k :| 0 <= k < |qs| && Claims(qs[k], t, p, c) {
      if k > 0 { assert Claims(qs[1..][k - 1], t, p, c); }
    }
    if k :| 0 <= k < |qs[1..]| && Claims(qs[1..][k], t, p, c) {
      assert Claims(qs[k + 1], t, p, c);
    }
  }

  /** A run of quotas whose effects do not depend on what has been claimed before them, or which
      claim nothing themselves. */
  lemma {:induction false} QuotasRun(qs: seq<Quota>, t: Kind, p: Packet, r: Bits, before: bool, claimed: bool, c: Config)
    requires r !! HIGH && Apart(c)
    requires (forall k :: 0 <= k < |qs| ==> !Others(qs[k])) || (before == claimed && forall k :: 0 <= k < |qs| ==> Others(qs[k]))
    ensures var es := AllEffects(qs, t, p, claimed, c);
      Run(AllRules(qs, t, c), p, Form(r, before, false), c)
        == (es, Form(Deaths(es, r, c), before || AnyClaims(qs, t, p, c), false))
      && Deaths(es, r, c) !! HIGH
    decreases |qs|
  {
    if qs == [] {
      hide Form;
      RunOne(Rule([], None, Nothing), p, Form(r, before, false), c);
      assert !AnyClaims(qs, t, p, c);
    } else {
      hide Run, Form, Claims, Effects, Rules, Others, Deaths, AnyClaims;
      QuotaRun(qs[0], t, p, r, before, c);
      EffectsSame(qs[0], t, p, before, claimed, c);
      var es0 := Effects(qs[0], t, p, claimed, c);
      var now := before || Claims(qs[0], t, p, c);
      QuotasRun(qs[1..], t, p, Deaths(es0, r, c), now, claimed, c);
      RunConcat(Rules(qs[0], t, c), AllRules(qs[1..], t, c), p, Form(r, before, false), c);
      DeathsConcat(es0, AllEffects(qs[1..], t, p, claimed, c), r, c);
      AnyClaimsStep(qs, t, p, c);
    }
  }

  /** Only quotas for all others ask whether a packet is claimed, and they claim nothing. */
  lemma EffectsSame(q: Quota, t: Kind, p: Packet, before: bool, claimed: bool, c: Config)
    requires Others(q) ==> before == claimed
    ensures Effects(q, t, p, before, c) == Effects(q, t, p, claimed, c)
    ensures Others(q) ==> !Claims(q, t, p, c)
  {
    hide Questions, InTime, Individual;
  }

  lemma {:induction false} PlainSpec(qs: seq<Quota>, t: Kind, p: Packet, c: Config)
    ensures forall k :: 0 <= k < |Plain(qs)| ==> !Others(Plain(qs)[k])
    ensures forall k :: 0 <= k < |Deferred(qs)| ==> Others(Deferred(qs)[k])
    ensures AnyClaims(Plain(qs), t, p, c) <==> SomeClaims(qs, t, p, c)
  {
    if qs != [] {
      hide Others, Claims, SomeClaims, AnyClaims, Enabled;
      PlainSpec(qs[1..], t, p, c);
      SomeClaimsStep(qs, t, p, c);
      OthersClaimNothing(qs[0], t, p, c);
      var own := if Enabled(qs[0]) && !Others(qs[0]) then [qs[0]] else [];
      if own != [] {
        AnyClaimsStep(Plain(qs), t, p, c);
        assert Plain(qs)[1..] == Plain(qs[1..]);
      } else {
        assert Plain(qs) == Plain(qs[1..]);
      }
    }
  }

  lemma OthersClaimNothing(q: Quota, t: Kind, p: Packet, c: Config)
    ensures Others(q) ==> !Claims(q, t, p, c)
  {
  }

  lemma SomeClaimsStep(qs: seq<Quota>, t: Kind, p: Packet, c: Config)
    requires qs != []
    ensures SomeClaims(qs, t, p, c) <==> (Enabled(qs[0]) && Claims(qs[0], t, p, c)) || SomeClaims(qs[1..], t, p, c)
  {
    hide Claims, Enabled;
    if k :| 0 <= k < |qs| && Enabled(qs[k]) && Claims(qs[k], t, p, c) {
      if k > 0 { assert Enabled(qs[1..][k - 1]) && Claims(qs[1..][k - 1], t, p, c); }
    }
    if k :| 0 <= k < |qs[1..]| && Enabled(qs[1..][k]) && Claims(qs[1..][k], t, p, c) {
      assert Enabled(qs[k + 1]) && Claims(qs[k + 1], t, p, c);
    }
  }

  /** Main result: whatever mark a packet brings, a quota chain asks the counters of exactly the
      quotas that apply to it, in order, where a quota for all others applies only if no enabled
      quota of the configuration claims the packet; and it leaves the two nibbles clear. */
  lemma ChainCorrect(qs: seq<Quota>, t: Kind, p: Packet, m: Bits, c: Config)
    requires Apart(c)
    ensures var claimed := SomeClaims(qs, t, p, c);
      var es := AllEffects(Order(qs), t, p, claimed, c);
      Run(ChainOf(qs, t, c), p, m, c) == (es, Deaths(es, m - c.deathMask - HIGH, c))
  {
    hide Run, Form, Claims, Effects, Rules, Others, Deaths, AnyClaims, SomeClaims, AllRules, AllEffects, Plain, Deferred;
    var claimed := SomeClaims(qs, t, p, c);
    var r := m - c.deathMask - HIGH;
    PlainSpec(qs, t, p, c);
    OpeningRun(p, m, c);
    var es0, es1 := AllEffects(Plain(qs), t, p, claimed, c), AllEffects(Deferred(qs), t, p, claimed, c);
    QuotasRun(Plain(qs), t, p, r, false, claimed, c);
    QuotasRun(Deferred(qs), t, p, Deaths(es0, r, c), claimed, claimed, c);
    DeathsConcat(es0, es1, r, c);
    RulesConcat(Plain(qs), Deferred(qs), t, c);
    EffectsConcat(Plain(qs), Deferred(qs), t, p, claimed, c);
    var a, b := AllRules(Plain(qs), t, c), AllRules(Deferred(qs), t, c);
    RunConcat(a, b, p, Form(r, false, false), c);
    var last := [Rule([], None, SetConn({}, HIGH))];
    RunConcat(Opening(c), a + b, p, m, c);
    RunConcat(Opening(c) + (a + b), last, p, m, c);
    NoEvents(es0 + es1);
    ClosingRun(p, Deaths(es0 + es1, r, c), claimed || AnyClaims(Deferred(qs), t, p, c), c);
  }

  lemma {:induction false} RulesConcat(a: seq<Quota>, b: seq<Quota>, t: Kind, c: Config)
    ensures AllRules(a + b, t, c) == AllRules(a, t, c) + AllRules(b, t, c)
  {
    hide Rules;
    if a == [] {
      assert a + b == b;
    } else {
      assert (a + b)[1..] == a[1..] + b;
      RulesConcat(a[1..], b, t, c);
    }
  }

  lemma {:induction false} EffectsConcat(a: seq<Quota>, b: seq<Quota>, t: Kind, p: Packet, claimed: bool, c: Config)
    ensures AllEffects(a + b, t, p, claimed, c) == AllEffects(a, t, p, claimed, c) + AllEffects(b, t, p, claimed, c)
  {
    hide Effects;
    if a == [] {
      assert a + b == b;
    } else {
      assert (a + b)[1..] == a[1..] + b;
      EffectsConcat(a[1..], b, t, p, claimed, c);
    }
  }

  lemma OpeningRun(p: Packet, m: Bits, c: Config)
    ensures Run(Opening(c), p, m, c) == ([], Form(m - c.deathMask - HIGH, false, false))
  {
    hide Run;
    var one, two := Rule([], None, SetConn({}, c.deathMask)), Rule([], None, SetConn({}, HIGH));
    RunOne(one, p, m, c);
    RunOne(two, p, m - c.deathMask, c);
    RunConcat([one], [two], p, m, c);
    assert [one] + [two] == Opening(c);
    assert (m - c.deathMask) + {} == m - c.deathMask;
  }

  lemma ClosingRun(p: Packet, r: Bits, claimed: bool, c: Config)
    requires r !! HIGH
    ensures Run([Rule([], None, SetConn({}, HIGH))], p, Form(r, claimed, false), c) == ([], r)
  {
    FormReads(r, claimed, false);
    NoEvents([]);
    assert r + {} == r;
    RunOne(Rule([], None, SetConn({}, HIGH)), p, Form(r, claimed, false), c);
  }

  // ---------- Between two quotas ----------

  /** The lower nibble is clear and the upper one is full if claimed, else clear. */
  ghost predicate Settled(m: Bits, claimed: bool) { m == Form(m - HIGH, claimed, false) }

  lemma SettledMeans(m: Bits, claimed: bool, p: Packet)
    requires Settled(m, claimed)
    ensures m * LOW == {}
    ensures AllHold([Conn({}, TOP)], p, m) <==> !claimed
  {
    FormReads(m - HIGH, claimed, false);
    HoldOne(Conn({}, TOP), p, m);
    assert 28 in TOP;
  }

  lemma {:induction false} MarkAfter(qs: seq<Quota>, t: Kind, p: Packet, m: Bits, before: bool, c: Config)
    requires Settled(m, before) && Apart(c)
    ensures Settled(Run(AllRules(qs, t, c), p, m, c).1, before || AnyClaims(qs, t, p, c))
    decreases |qs|
  {
    if qs == [] {
      hide Form;
    } else {
      hide Run, Claims, Rules, AnyClaims, Deaths;
      QuotaRun(qs[0], t, p, m - HIGH, before, c);
      var m1 := Run(Rules(qs[0], t, c), p, m, c).1;
      var now := before || Claims(qs[0], t, p, c);
      FormReads(Deaths(Effects(qs[0], t, p, before, c), m - HIGH, c), now, false);
      assert Settled(m1, now);
      MarkAfter(qs[1..], t, p, m1, now, c);
      RunConcat(Rules(qs[0], t, c), AllRules(qs[1..], t, c), p, m, c);
      AnyClaimsStep(qs, t, p, c);
    }
  }

  /** The mark when the first k quotas of the order of work are done. */
  function MarkBefore(qs: seq<Quota>, k: nat, t: Kind, p: Packet, m: Bits, c: Config): Bits
    requires k <= |Order(qs)|
  {
    Run(Opening(c) + AllRules(Order(qs)[..k], t, c), p, m, c).1
  }

  /** Main result: between any two quotas the lower nibble is clear; and when a quota for all others
      is reached, its guard, the upper nibble clear, holds exactly if no enabled quota of the
      configuration claims the packet. */
  lemma GuardIsUnclaimed(qs: seq<Quota>, k: nat, t: Kind, p: Packet, m: Bits, c: Config)
    requires Apart(c) && k <= |Order(qs)|
    ensures MarkBefore(qs, k, t, p, m, c) * LOW == {}
    ensures k < |Order(qs)| && Others(Order(qs)[k]) ==>
      (AllHold([Conn({}, TOP)], p, MarkBefore(qs, k, t, p, m, c)) <==> !SomeClaims(qs, t, p, c))
  {
    hide Run, AllHold, SomeClaims, AnyClaims, Others, Plain, Deferred, AllRules, Settled, Claims;
    var r := m - c.deathMask - HIGH;
    OpeningRun(p, m, c);
    StartSettled(r);
    MarkAfter(Order(qs)[..k], t, p, Form(r, false, false), false, c);
    RunConcat(Opening(c), AllRules(Order(qs)[..k], t, c), p, m, c);
    SettledMeans(MarkBefore(qs, k, t, p, m, c), AnyClaims(Order(qs)[..k], t, p, c), p);
    if k < |Order(qs)| && Others(Order(qs)[k]) {
      PlainSpec(qs, t, p, c);
      assert k >= |Plain(qs)|;
      ClaimsUpTo(Plain(qs), Deferred(qs), k, t, p, c);
    }
  }

  lemma StartSettled(r: Bits)
    requires r !! HIGH
    ensures Settled(Form(r, false, false), false)
  {
    FormReads(r, false, false);
  }

  lemma ClaimsUpTo(a: seq<Quota>, b: seq<Quota>, k: nat, t: Kind, p: Packet, c: Config)
    requires |a| <= k <= |a + b| && forall i :: 0 <= i < |b| ==> Others(b[i])
    ensures AnyClaims((a + b)[..k], t, p, c) == AnyClaims(a, t, p, c)
  {
    hide Claims, Others;
    var all := (a + b)[..k];
    if i :| 0 <= i < |all| && Claims(all[i], t, p, c) {
      if i < |a| {
        assert Claims(a[i], t, p, c);
      } else {
        OthersClaimNothing(b[i - |a|], t, p, c);
      }
    }
    if i :| 0 <= i < |a| && Claims(a[i], t, p, c) {
      assert Claims(all[i], t, p, c);
    }
  }

  // ---------- Each enabled quota once ----------

  function EnabledOf(qs: seq<Quota>): seq<Quota> {
    if qs == [] then [] else (if Enabled(qs[0]) then [qs[0]] else []) + EnabledOf(qs[1..])
  }

  /** The order of work is a permutation of the enabled quotas. */
  lemma {:induction false} EachOnce(qs: seq<Quota>)
    ensures multiset(Order(qs)) == multiset(EnabledOf(qs))
  {
    if qs != [] {
      hide Enabled, Others;
      EachOnce(qs[1..]);
    }
  }
}
