/**
 What a whole chain does to a packet, said on the text of the sections alone: which sections concern
 the packet, whose counters see it, who cuts it off and who slows it down. The functions the rules
 are built from are not used to say it.
 */
module QuotaSections {
  import opened Common
  import opened MarkBits
  import opened QuotaModel
  import opened QuotaCorrect
  import opened QuotaEffects
  import opened QuotaBuilder
  import G = GroupText

  // ---------- A section's text ----------

  predicate On(q: Quota) { q.enabled.None? || q.enabled.value != "0" }

  /** The addresses are given, and are this text but for the spaces around dashes. */
  predicate Says(q: Quota, text: string) {
    q.ip.Some? && q.ip.value != "" && G.Trimmed(q.ip.value, false) == text
  }

  /** No addresses at all stand for "ALL". */
  predicate HasAddresses(q: Quota) {
    && q.ip.Some? && q.ip.value != ""
    && !Says(q, "ALL") && !Says(q, "ALL_OTHERS_COMBINED") && !Says(q, "ALL_OTHERS_INDIVIDUAL")
  }

  predicate Limited(q: Quota, t: Kind) {
    (t == Ingress && q.ingressLimit) || (t == Egress && q.egressLimit) || (t == Combined && q.combinedLimit)
  }

  /** The word is the packet's local address: the destination on the way in, the source on the way out. */
  predicate IsEnd(w: string, t: Kind, p: Packet) {
    || (t == Ingress && p.holds(Dst(w)))
    || (t == Egress && p.holds(Src(w)))
    || (t == Combined && p.holds(FromWan) && p.holds(Dst(w)))
    || (t == Combined && p.holds(ToWan) && p.holds(Src(w)))
  }

  /** A text with a comma, a space or a tab is a list of words, any other one word. */
  function Pieces(text: string, c: Config): seq<string> {
    if (exists i :: 0 <= i < |text| && (text[i] == ',' || text[i] == ' ' || text[i] == '\t')) then c.split(text) else [text]
  }

  predicate OfAddresses(q: Quota, t: Kind, p: Packet, c: Config) {
    HasAddresses(q) && SomeEnd(Pieces(G.Trimmed(q.ip.value, false), c), t, p)
  }

  predicate SomeEnd(words: seq<string>, t: Kind, p: Packet) { exists k :: 0 <= k < |words| && IsEnd(words[k], t, p) }

  /** Some section that is on has the packet among its addresses. */
  predicate Taken(qs: seq<Quota>, t: Kind, p: Packet, c: Config) {
    exists k :: 0 <= k < |qs| && On(qs[k]) && OfAddresses(qs[k], t, p, c)
  }

  /** The section is on, at this time of day, and the packet is of its addresses, or of nobody's if it
      is for all others, from or to this network if it counts the others one by one. */
  predicate Concerns(q: Quota, qs: seq<Quota>, t: Kind, p: Packet, c: Config) {
    && On(q)
    && (q.time.Some? ==> p.holds(Time(q.time.value)))
    && (HasAddresses(q) ==> OfAddresses(q, t, p, c))
    && (Says(q, "ALL_OTHERS_COMBINED") || Says(q, "ALL_OTHERS_INDIVIDUAL") ==> !Taken(qs, t, p, c))
    && (Says(q, "ALL_OTHERS_INDIVIDUAL") && t == Egress ==> p.holds(SrcLocal))
    && (Says(q, "ALL_OTHERS_INDIVIDUAL") && t == Ingress ==> p.holds(DstLocal))
  }

  lemma AllIsTrim()
    ensures G.Trimmed("ALL", false) == "ALL"
  {
    assert "ALL"[1..] == "LL" && "LL"[1..] == "L" && "L"[1..] == "";
    assert G.Trimmed("L", false) == "L" && G.Trimmed("LL", false) == "LL";
  }

  lemma TextIs(q: Quota)
    ensures Enabled(q) <==> On(q)
    ensures Individual(q) <==> Says(q, "ALL_OTHERS_INDIVIDUAL")
    ensures Others(q) <==> Says(q, "ALL_OTHERS_COMBINED") || Says(q, "ALL_OTHERS_INDIVIDUAL")
    ensures Explicit(q) <==> HasAddresses(q)
    ensures HasAddresses(q) ==> IpOf(q) == G.Trimmed(q.ip.value, false)
  {
    AllIsTrim();
    hide G.Trimmed;
  }

  lemma PiecesAre(q: Quota, c: Config)
    requires HasAddresses(q)
    ensures WordsOf(q, c) == Pieces(G.Trimmed(q.ip.value, false), c)
  {
    hide HasAddresses, Explicit, G.Trimmed;
    TextIs(q);
  }

  lemma ClaimsAre(q: Quota, t: Kind, p: Packet, c: Config)
    ensures Claims(q, t, p, c) <==> OfAddresses(q, t, p, c)
  {
    hide HasAddresses, Explicit, G.Trimmed, WordsOf, Pieces, WordHit, IsEnd;
    TextIs(q);
    if HasAddresses(q) {
      PiecesAre(q, c);
      forall w ensures WordHit(w, t, p) <==> IsEnd(w, t, p) { EndIs(w, t, p); }
    }
  }

  lemma EndIs(w: string, t: Kind, p: Packet)
    ensures WordHit(w, t, p) <==> IsEnd(w, t, p)
  {
  }

  lemma TakenIs(qs: seq<Quota>, t: Kind, p: Packet, c: Config)
    ensures SomeClaims(qs, t, p, c) <==> Taken(qs, t, p, c)
  {
    hide Claims, OfAddresses, Enabled, On;
    forall k | 0 <= k < |qs| ensures Enabled(qs[k]) && Claims(qs[k], t, p, c) <==> On(qs[k]) && OfAddresses(qs[k], t, p, c) {
      TextIs(qs[k]);
      ClaimsAre(qs[k], t, p, c);
    }
  }

  /** Which sections concern a packet is what the quotas mean. */
  lemma ConcernsIs(q: Quota, qs: seq<Quota>, t: Kind, p: Packet, c: Config)
    ensures Concerns(q, qs, t, p, c) <==>
      Enabled(q) && Applies(q, t, p, SomeClaims(qs, t, p, c), c) && InTime(q, p)
  {
    hide Claims, OfAddresses, Enabled, On, HasAddresses, Explicit, Others, Individual, SomeClaims, Taken, Says;
    TextIs(q);
    ClaimsAre(q, t, p, c);
    TakenIs(qs, t, p, c);
    NotTwo(q);
  }

  lemma NotTwo(q: Quota)
    ensures !(Explicit(q) && Others(q))
  {
  }

  // ---------- Events of a chain ----------

  lemma {:induction false} EventsOf(l: seq<Quota>, t: Kind, p: Packet, claimed: bool, c: Config, e: Event)
    ensures e in AllEffects(l, t, p, claimed, c) <==> exists q :: q in l && e in Effects(q, t, p, claimed, c)
  {
    hide Effects;
    if l != [] {
      EventsOf(l[1..], t, p, claimed, c, e);
      assert l == [l[0]] + l[1..];
    }
  }

  lemma {:induction false} Members(qs: seq<Quota>, q: Quota)
    ensures q in Order(qs) <==> q in qs && Enabled(q)
  {
    hide Enabled, Others;
    if qs != [] {
      Members(qs[1..], q);
      assert qs == [qs[0]] + qs[1..];
    }
  }

  /** Something happens to a packet exactly when a section that concerns it brings it about. */
  lemma ChainEvents(qs: seq<Quota>, t: Kind, p: Packet, m: Bits, c: Config, e: Event)
    requires Apart(c)
    ensures e in Run(ChainOf(qs, t, c), p, m, c).0 <==>
      exists q :: q in qs && Concerns(q, qs, t, p, c) && e in Answers(Questions(q, t), p)
  {
    hide Run, ChainOf, SomeClaims, AllEffects, Order, Concerns, Applies, InTime, Answers, Questions, Enabled, Apart;
    var claimed := SomeClaims(qs, t, p, c);
    ChainCorrect(qs, t, p, m, c);
    EventsOf(Order(qs), t, p, claimed, c, e);
    forall q ensures q in Order(qs) && e in Effects(q, t, p, claimed, c) <==>
        q in qs && Concerns(q, qs, t, p, c) && e in Answers(Questions(q, t), p) {
      Members(qs, q);
      ConcernsIs(q, qs, t, p, c);
    }
  }

  /** Main result: whatever mark a packet brings, it is cut off exactly when some section that concerns
      it has a limit in this chain, gives no marks for both directions, and is over that limit; the
      connection then has the death mark, and otherwise neither that nor anything in the high byte. */
  lemma CutOff(qs: seq<Quota>, t: Kind, p: Packet, m: Bits, c: Config)
    requires Apart(c)
    ensures Killed in Run(ChainOf(qs, t, c), p, m, c).0 <==>
      exists q :: q in qs && Concerns(q, qs, t, p, c) && Overdrawn(q, t, p)
    ensures var r := Run(ChainOf(qs, t, c), p, m, c);
      r.1 == (m - c.deathMask - HIGH) + if Killed in r.0 then c.deathMark else {}
  {
    hide Run, ChainOf, Concerns, Answers, Questions, SomeClaims, AllEffects;
    ChainEvents(qs, t, p, m, c, Killed);
    forall q ensures Killed in Answers(Questions(q, t), p) <==> Overdrawn(q, t, p) {
      KillsOverLimit(q, t, p);
    }
    ChainCorrect(qs, t, p, m, c);
  }

  predicate Overdrawn(q: Quota, t: Kind, p: Packet) {
    Limited(q, t) && (q.upMark.None? || q.downMark.None?) && p.over(Counter(q.id, t, Count))
  }

  /** Main result: a packet gets a mark exactly from a section that concerns it, gives marks for both
      directions, and is over a limit for the packet's direction. */
  lemma SlowedDown(qs: seq<Quota>, t: Kind, p: Packet, m: Bits, c: Config, mark: string)
    requires Apart(c)
    ensures Marked(mark) in Run(ChainOf(qs, t, c), p, m, c).0 <==>
      exists q :: q in qs && Concerns(q, qs, t, p, c) && Slows(q, t, p, mark)
  {
    hide Run, ChainOf, Concerns, Answers, Questions, MarksUp, MarksDown;
    ChainEvents(qs, t, p, m, c, Marked(mark));
    forall q ensures Marked(mark) in Answers(Questions(q, t), p) <==> Slows(q, t, p, mark) {
      MarksByDirection(q, t, p, mark);
    }
  }

  predicate Slows(q: Quota, t: Kind, p: Packet, mark: string) {
    q.upMark.Some? && q.downMark.Some? && (MarksUp(q, t, p, mark) || MarksDown(q, t, p, mark))
  }

  // ---------- Counting ----------

  /** How many sections with this counter concern the packet. */
  function TimesConcerned(l: seq<Quota>, qs: seq<Quota>, id: string, t: Kind, p: Packet, c: Config): nat {
    if l == [] then 0
    else (if Owns(l[0], qs, id, t, p, c) then 1 else 0) + TimesConcerned(l[1..], qs, id, t, p, c)
  }

  predicate Owns(q: Quota, qs: seq<Quota>, id: string, t: Kind, p: Packet, c: Config) {
    q.id == id && Limited(q, t) && Concerns(q, qs, t, p, c)
  }

  lemma CountsOf(q: Quota, id: string, t: Kind, p: Packet)
    ensures multiset(Answers(Questions(q, t), p))[Asked(Counter(id, t, Count))] == if q.id == id && Limited(q, t) then 1 else 0
  {
    hide Answers, Questions;
    var e := Asked(Counter(id, t, Count));
    if q.id == id {
      CountsOnce(q, t, p);
    } else if e in Answers(Questions(q, t), p) {
      AsksItsOwn(q, t, p, Counter(id, t, Count));
    }
  }

  lemma {:induction false} CountsOver(l: seq<Quota>, qs: seq<Quota>, id: string, t: Kind, p: Packet, c: Config)
    requires forall k :: 0 <= k < |l| ==> Enabled(l[k])
    ensures multiset(AllEffects(l, t, p, SomeClaims(qs, t, p, c), c))[Asked(Counter(id, t, Count))]
      == TimesConcerned(l, qs, id, t, p, c)
  {
    hide Answers, Questions, Concerns, Applies, InTime, SomeClaims, Enabled, Limited;
    if l != [] {
      CountsOver(l[1..], qs, id, t, p, c);
      CountsOf(l[0], id, t, p);
      ConcernsIs(l[0], qs, t, p, c);
    }
  }

  lemma {:induction false} TimesOver(l: seq<Quota>, qs: seq<Quota>, id: string, t: Kind, p: Packet, c: Config)
    ensures TimesConcerned(Plain(l), qs, id, t, p, c) + TimesConcerned(Deferred(l), qs, id, t, p, c)
      == TimesConcerned(l, qs, id, t, p, c)
  {
    if l != [] {
      hide Others, Concerns, Enabled, Limited, TimesConcerned;
      TimesOver(l[1..], qs, id, t, p, c);
      ConcernsIs(l[0], qs, t, p, c);
      var own := [l[0]];
      var a := if Enabled(l[0]) && !Others(l[0]) then own else [];
      var b := if Enabled(l[0]) && Others(l[0]) then own else [];
      TimesConcat(a, Plain(l[1..]), qs, id, t, p, c);
      TimesConcat(b, Deferred(l[1..]), qs, id, t, p, c);
      TimesConcat(own, l[1..], qs, id, t, p, c);
      assert l == own + l[1..];
      TimesOne(l[0], qs, id, t, p, c);
    }
  }

  lemma TimesOne(q: Quota, qs: seq<Quota>, id: string, t: Kind, p: Packet, c: Config)
    ensures TimesConcerned([], qs, id, t, p, c) == 0
    ensures !Concerns(q, qs, t, p, c) ==> TimesConcerned([q], qs, id, t, p, c) == 0
  {
    hide Concerns;
    assert [q][1..] == [];
  }

  lemma {:induction false} TimesConcat(a: seq<Quota>, b: seq<Quota>, qs: seq<Quota>, id: string, t: Kind, p: Packet, c: Config)
    ensures TimesConcerned(a + b, qs, id, t, p, c) == TimesConcerned(a, qs, id, t, p, c) + TimesConcerned(b, qs, id, t, p, c)
  {
    hide Owns;
    if a == [] {
      assert a + b == b;
    } else {
      assert (a + b)[1..] == a[1..] + b;
      TimesConcat(a[1..], b, qs, id, t, p, c);
    }
  }

  /** Main result: a counter counts a packet once for each section with that counter that concerns it,
      however the sections are ordered and whatever mark the packet brings. */
  lemma CountedFor(qs: seq<Quota>, id: string, t: Kind, p: Packet, m: Bits, c: Config)
    requires Apart(c)
    ensures multiset(Run(ChainOf(qs, t, c), p, m, c).0)[Asked(Counter(id, t, Count))] == TimesConcerned(qs, qs, id, t, p, c)
  {
    hide Run, ChainOf, SomeClaims, AllEffects, Plain, Deferred, TimesConcerned, Enabled;
    ChainCorrect(qs, t, p, m, c);
    forall k | 0 <= k < |Order(qs)| ensures Enabled(Order(qs)[k]) { Members(qs, Order(qs)[k]); }
    CountsOver(Order(qs), qs, id, t, p, c);
    TimesConcat(Plain(qs), Deferred(qs), qs, id, t, p, c);
    TimesOver(qs, qs, id, t, p, c);
  }

  // ---------- Backups ----------

  lemma {:induction false} GroupTexts(l: seq<Quota>, text: string)
    ensures text in Groups(l) <==> exists q :: q in l && HasAddresses(q) && Says(q, text)
  {
    if l != [] {
      hide Explicit, HasAddresses, IpOf;
      GroupTexts(l[1..], text);
      TextIs(l[0]);
      assert l == [l[0]] + l[1..];
    }
  }

  lemma {:induction false} PlainMembers(qs: seq<Quota>, q: Quota)
    ensures q in Plain(qs) <==> q in qs && Enabled(q) && !Others(q)
  {
    hide Enabled, Others;
    if qs != [] {
      PlainMembers(qs[1..], q);
      assert qs == [qs[0]] + qs[1..];
    }
  }

  /** Main result: a backup kept for each address is restored without the addresses of exactly the
      sections that are on and have some. */
  lemma LeavesOut(qs: seq<Quota>, r: Restore, text: string)
    requires r in Restores(Order(qs)) && r.individual
    ensures text in r.groups <==> exists q :: q in qs && On(q) && HasAddresses(q) && Says(q, text)
  {
    hide Restores, Order, Groups, Plain, Enabled, Others, Explicit, On, HasAddresses, Says;
    var i :| 0 <= i < |Restores(Order(qs))| && Restores(Order(qs))[i] == r;
    assert Order(qs)[..|Order(qs)|] == Order(qs);
    IndividualKnowsAll(qs, |Order(qs)|, i);
    GroupTexts(Plain(qs), text);
    forall q ensures q in Plain(qs) && HasAddresses(q) <==> q in qs && On(q) && HasAddresses(q) {
      PlainMembers(qs, q);
      TextIs(q);
      NotTwo(q);
    }
  }

  // ---------- The order of work ----------

  lemma {:induction false} PlainConcat(a: seq<Quota>, b: seq<Quota>)
    ensures Plain(a + b) == Plain(a) + Plain(b)
  {
    hide Enabled, Others;
    if a == [] {
      assert a + b == b;
    } else {
      assert (a + b)[1..] == a[1..] + b;
      PlainConcat(a[1..], b);
    }
  }

  lemma {:induction false} DeferredConcat(a: seq<Quota>, b: seq<Quota>)
    ensures Deferred(a + b) == Deferred(a) + Deferred(b)
  {
    hide Enabled, Others;
    if a == [] {
      assert a + b == b;
    } else {
      assert (a + b)[1..] == a[1..] + b;
      DeferredConcat(a[1..], b);
    }
  }

  /** A section is worked off before any that stands after it in the configuration, unless it is for
      all others and that one is not. */
  lemma OrderKept(a: seq<Quota>, q: Quota, b: seq<Quota>, r: Quota, d: seq<Quota>)
    requires On(q) && On(r)
    ensures var qs := a + [q] + b + [r] + d;
      exists i, j :: 0 <= i < |Order(qs)| && 0 <= j < |Order(qs)| && Order(qs)[i] == q && Order(qs)[j] == r
        && (i < j <==> !ForOthers(q) || ForOthers(r))
  {
    hide Plain, Deferred, Others, Enabled, ForOthers;
    TextIs(q);
    TextIs(r);
    OneOf(q);
    OneOf(r);
    var x, y := a + [q], a + [q] + b;
    PlainConcat(a, [q]);
    PlainConcat(x, b);
    PlainConcat(y, [r]);
    PlainConcat(y + [r], d);
    DeferredConcat(a, [q]);
    DeferredConcat(x, b);
    DeferredConcat(y, [r]);
    DeferredConcat(y + [r], d);
    var n := |Plain(y + [r] + d)|;
    var i := if Others(q) then n + |Deferred(a)| else |Plain(a)|;
    var j := if Others(r) then n + |Deferred(y)| else |Plain(y)|;
    var o := Order(y + [r] + d);
    assert o[i] == q;
    assert o[j] == r;
  }

  predicate ForOthers(q: Quota) { Says(q, "ALL_OTHERS_COMBINED") || Says(q, "ALL_OTHERS_INDIVIDUAL") }

  lemma OneOf(q: Quota)
    ensures Plain([q]) == (if Enabled(q) && !Others(q) then [q] else [])
    ensures Deferred([q]) == (if Enabled(q) && Others(q) then [q] else [])
    ensures Others(q) <==> ForOthers(q)
  {
    hide Enabled, Others, Says;
    TextIs(q);
    assert [q][1..] == [];
  }
}
