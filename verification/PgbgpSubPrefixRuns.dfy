/**
 Runs with sub-prefixes in which something is left over: flags that no drain takes back, and the log
 of a suspicion that finds the super-prefix without an origin. All but the last have the program's
 default windows.
 */
module PgbgpSubPrefixRuns {
  import opened Common
  import opened PgbgpModel
  import opened PgbgpCollection
  import opened PgbgpRuns
  import opened PgbgpVerdicts
  import opened PgbgpForgiveness
  import opened PgbgpDirect

  /** Suspicions of a day; origins remembered for 30 days, prefixes for 10, edges for 60. */
  const DEFAULTS := Config(86400, 86400, 86400, 86400 * 30, 86400 * 10, 86400 * 60)

  const SUPER: Prefix := [true, true, true, true, true, true, true, true]
  const SUB: Prefix := SUPER + [true]
  const OTHER_SUB: Prefix := SUPER + [false]
  const SUB_SUB: Prefix := SUB + [true]

  const T: Time := 1000000
  /** When a suspicion begun a second later is over. */
  const U: Time := 1086401

  /** The queue is empty or holds one entry. */
  ghost predicate At(s: State, cfg: Config, hists: map<Prefix, Hist>, ribs: map<Prefix, seq<Route>>, queue: seq<Entry>) {
    Plain(s) && s.cfg == cfg && s.lastgc == T && s.hists == hists && s.ribs == ribs && s.queue == queue
  }

  function News1(n: Prefix, peer: nat, peerAs: AsNum, a: AsNum): News { News(n, peer, peerAs, Direct(a)) }

  function RouteOf(peer: nat, peerAs: AsNum, a: AsNum, flags: Flags): Route { Route(peer, peerAs, Direct(a), flags, false) }

  const BLAMED := Flags(false, true, false, false)
  const IGNORED := Flags(false, false, false, true)

  /** Goes on with an announcement at t. */
  lemma Onward(s0: State, es: seq<Event>, s: State, now: Time, m: News, t: Time)
    requires Reaches(s0, T, es, s, now) && s.rqSize == |s.queue| && now <= t && !GcDue(s, t)
    ensures Reaches(s0, T, es + [Announced(m, {}, t)], Announce(s, m, {}, t), t)
  {
    hide Announce, Reaches;
    RunExtends(s0, T, es, s, now, Announced(m, {}, t));
  }

  // ---------- The super-prefix ----------

  function OnlySuper(p: nat): map<Prefix, Hist> { map[SUPER := Clean(p, T)] }

  function SuperRib(p: nat): map<Prefix, seq<Route>> { map[SUPER := [RouteOf(p, p, p, NO_FLAGS)]] }

  /** Every run begins with an announcement of the super-prefix by peer p of AS p. */
  lemma SuperAnnounced(cfg: Config, p: nat) returns (s: State)
    requires cfg.Sane()
    ensures Reaches(Fresh(cfg, T), T, [Announced(News1(SUPER, p, p, p), {}, T)], s, T)
    ensures At(s, cfg, OnlySuper(p), SuperRib(p), [])
  {
    hide Announce;
    var s0 := Fresh(cfg, T);
    var m := News1(SUPER, p, p, p);
    assert SuperOf(s0, SUPER, T) == None;
    assert VerdictOn(s0, SUPER, p, p, T) == Trusted;
    TrustedStep(s0, SUPER, p, p, p, T);
    s := Announce(s0, m, {}, T);
    assert Reaches(s0, T, [], s0, T);
    Onward(s0, [], s0, T, m, T);
    assert [] + [Announced(m, {}, T)] == [Announced(m, {}, T)];
    assert PutRoute([], m, NO_FLAGS) == [RouteOf(p, p, p, NO_FLAGS)];
  }

  lemma SuperOfNine(s: State, n: Prefix, t: Time)
    requires |n| == 9 && n[..8] == SUPER && Eligible(s.hists, SUPER, t)
    ensures SuperOf(s, n, t) == Some(SUPER)
  {
    assert n != SUPER by { assert |SUPER| == 8; }
    assert SuperFrom(s.hists[n := HistOf(s, n)], n, 8, t) == Some(SUPER);
  }

  lemma SuperOfTen(s: State, t: Time)
    requires Eligible(s.hists, SUPER, t)
    ensures SuperOf(s, SUB_SUB, t) == if Eligible(s.hists, SUB, t) then Some(SUB) else Some(SUPER)
  {
    assert |SUPER| == 8 && |SUB| == 9 && |SUB_SUB| == 10;
    assert SUB_SUB[..9] == SUB && SUB_SUB[..8] == SUPER;
    var h := s.hists[SUB_SUB := HistOf(s, SUB_SUB)];
    assert SuperFrom(h, SUB_SUB, 9, t) == if Eligible(h, SUB, t) then Some(SUB) else SuperFrom(h, SUB_SUB, 8, t);
  }

  lemma Unlike(a: AsNum, b: AsNum)
    ensures PathIsPrefix(Direct(a), Direct(b)) <==> a == b
  {
    assert Direct(a)[0].ases[0] == a && Direct(b)[0].ases[0] == b;
    assert Direct(a)[1..] == [] && Direct(b)[1..] == [];
  }

  // ---------- A second route from one neighbour ----------

  /** The origin, the record and the note of a prefix that was hijacked from below. */
  function Warned(a: AsNum, t: Time, notes: seq<Avoid>): Hist {
    Clean(a, t).(prefix := Some(PrefixRec(t, 0, notes)))
  }

  function Hijacker(t: Time, until: Time): Hist {
    Clean(9, t).(prefix := Some(PrefixRec(t, until, [])))
  }

  /** A sub-prefix announced from AS 9 by the peer the super-prefix came from. */
  lemma SubHijacked(s: State, n: Prefix) returns (s': State)
    requires At(s, DEFAULTS, OnlySuper(1), SuperRib(1), []) && n == SUB
    ensures s' == Announce(s, News1(SUB, 1, 1, 9), {}, T + 1)
    ensures At(s', DEFAULTS, map[SUPER := Warned(1, T, [Avoid(1, U, SUB)]), SUB := Hijacker(T + 1, U)],
               map[SUPER := [RouteOf(1, 1, 1, BLAMED)], SUB := [RouteOf(1, 1, 9, NO_FLAGS)]],
               [PrefixEntry(U, SUB, SUPER)])
  {
    hide Announce, PathIsPrefix;
    var t := T + 1;
    assert |SUB| == 9 && SUB[..8] == SUPER;
    SuperOfNine(s, SUB, t);
    Unlike(1, 9);
    assert SuperRib(1)[SUPER][0].peerAs == 1;
    assert VerdictOn(s, SUB, 1, 9, t) == Hijack(true);
    HijackStep(s, SUB, SUPER, 1, 1, 9, t);
    s' := Announce(s, News1(SUB, 1, 1, 9), {}, t);
    assert SetSuspP(SuperRib(1)[SUPER], 1, true) == [RouteOf(1, 1, 1, BLAMED)];
    assert [RouteOf(1, 1, 1, BLAMED)][1..] == [];
    assert Selected([RouteOf(1, 1, 1, BLAMED)]) == 1;
    assert Noted([], 1, U, SUB) == [Avoid(1, U, SUB)];
    assert PutRoute([], News1(SUB, 1, 1, 9), NO_FLAGS) == [RouteOf(1, 1, 9, NO_FLAGS)];
    assert [] + [PrefixEntry(U, SUB, SUPER)] == [PrefixEntry(U, SUB, SUPER)];
    assert s'.hists == map[SUPER := Warned(1, T, [Avoid(1, U, SUB)]), SUB := Hijacker(T + 1, U)];
    assert s'.ribs == map[SUPER := [RouteOf(1, 1, 1, BLAMED)], SUB := [RouteOf(1, 1, 9, NO_FLAGS)]];
  }

  lemma DrainOne(s: State, u: Time)
    requires |s.queue| == 1 && s.rqSize == 1 && s.queue[0].PrefixEntry? && s.queue[0].key <= u
    ensures var e := s.queue[0];
      Drain(s, u) == ReusePrefix(s.(queue := [], rqSize := 0), e.node, e.super, u) && Drain(s, u).queue == []
  {
    hide ReusePrefix;
    assert Remove(s.queue, 0) == [];
    assert ReuseAt(s, 0, u).queue == [] && ReuseAt(s, 0, u).rqSize == 0;
  }

  /** Two peers of one neighbour are flagged on its account. When the suspicion is over, the queue is
      empty and no note is left, yet the second of them is still flagged. */
  lemma FlagStays() returns (es: seq<Event>, s: State)
    ensures Reaches(Fresh(DEFAULTS, T), T, es, s, T + 2) && s.rqSize == |s.queue|
    ensures var s' := Drain(s, U);
      && s'.queue == [] && (forall a :: !LapsedAt(s', SUPER, a, U))
      && |Rib(s'.ribs, SUPER)| == 2 && Rib(s'.ribs, SUPER)[1].flags.suspP
  {
    hide Announce, Reaches, LapsedAt, IsFirst;
    var s0 := Fresh(DEFAULTS, T);
    var m0, m1, m2 := News1(SUPER, 1, 1, 1), News1(SUB, 1, 1, 9), News1(SUPER, 2, 1, 1);
    var s1 := SuperAnnounced(DEFAULTS, 1);
    var s2 := SubHijacked(s1, SUB);
    Onward(s0, [Announced(m0, {}, T)], s1, T, m1, T + 1);
    s := Announce(s2, m2, {}, T + 2);
    SecondRoute(s2);
    es := [Announced(m0, {}, T)] + [Announced(m1, {}, T + 1)] + [Announced(m2, {}, T + 2)];
    Onward(s0, [Announced(m0, {}, T)] + [Announced(m1, {}, T + 1)], s2, T + 1, m2, T + 2);
    DrainOne(s, U);
    DrainForgives(s, U, SUPER, 1);
    assert !IsFirst(Rib(s.ribs, SUPER), 1) by { SecondIsNotFirst(Rib(s.ribs, SUPER)); }
    forall a ensures !LapsedAt(Drain(s, U), SUPER, a, U) {
      DrainDropsNotes(s, U, SUPER, a);
      assert ForSuper(s.queue[0], SUPER);
    }
  }

  lemma SecondIsNotFirst(rs: seq<Route>)
    requires |rs| > 1 && rs[0].peerAs == rs[1].peerAs
    ensures !IsFirst(rs, 1)
  {
  }

  lemma SecondRoute(s: State)
    requires At(s, DEFAULTS, map[SUPER := Warned(1, T, [Avoid(1, U, SUB)]), SUB := Hijacker(T + 1, U)],
                map[SUPER := [RouteOf(1, 1, 1, BLAMED)], SUB := [RouteOf(1, 1, 9, NO_FLAGS)]],
                [PrefixEntry(U, SUB, SUPER)])
    ensures var s' := Announce(s, News1(SUPER, 2, 1, 1), {}, T + 2);
      Plain(s') && s'.queue == s.queue
      && Rib(s'.ribs, SUPER) == [RouteOf(2, 1, 1, BLAMED), RouteOf(1, 1, 1, BLAMED)]
  {
    hide Announce;
    var rs := [RouteOf(1, 1, 1, BLAMED)];
    assert SUPER != SUB by { assert |SUPER| == 8 && |SUB| == 9; }
    assert SuperOf(s, SUPER, T + 2) == None by { assert |SUPER| == 8; }
    var av := [Avoid(1, U, SUB)];
    assert av[0].peerAs == 1 && Avoided(av, 1, T + 2);
    assert VerdictOn(s, SUPER, 1, 1, T + 2) == AvoidPeer;
    TrustedStep(s, SUPER, 2, 1, 1, T + 2);
    assert rs[1..] == [] && FromPeer(rs, 2) == 1;
    assert PutRoute(rs, News1(SUPER, 2, 1, 1), BLAMED) == [RouteOf(2, 1, 1, BLAMED), RouteOf(1, 1, 1, BLAMED)];
  }

  // ---------- A super-prefix found later ----------

  const DEEP := PrefixEntry(U, SUB_SUB, SUPER)

  /** The prefix two levels down is suspected on account of the uppermost. */
  lemma DeepHijacked(s: State) returns (s': State)
    requires At(s, DEFAULTS, OnlySuper(2), SuperRib(2), [])
    ensures s' == Announce(s, News1(SUB_SUB, 1, 1, 9), {}, T + 1)
    ensures At(s', DEFAULTS, map[SUPER := Warned(2, T, [Avoid(1, U, SUB_SUB)]), SUB_SUB := Hijacker(T + 1, U)],
               map[SUPER := [RouteOf(2, 2, 2, NO_FLAGS)], SUB_SUB := [RouteOf(1, 1, 9, NO_FLAGS)]], [DEEP])
  {
    hide Announce, PathIsPrefix;
    var t := T + 1;
    assert |SUPER| == 8 && |SUB| == 9 && |SUB_SUB| == 10;
    SuperOfTen(s, t);
    var rs := SuperRib(2)[SUPER];
    assert rs[1..] == [] && rs[0].peerAs == 2 && FirstFrom(rs, 1) == 1;
    assert VerdictOn(s, SUB_SUB, 1, 9, t) == Hijack(true);
    HijackStep(s, SUB_SUB, SUPER, 1, 1, 9, t);
    s' := Announce(s, News1(SUB_SUB, 1, 1, 9), {}, t);
    assert SetSuspP(rs, 1, true) == rs && Selected(rs) == 1;
    assert Noted([], 1, U, SUB_SUB) == [Avoid(1, U, SUB_SUB)];
    assert PutRoute([], News1(SUB_SUB, 1, 1, 9), NO_FLAGS) == [RouteOf(1, 1, 9, NO_FLAGS)];
    assert [] + [DEEP] == [DEEP];
    assert s'.hists == map[SUPER := Warned(2, T, [Avoid(1, U, SUB_SUB)]), SUB_SUB := Hijacker(T + 1, U)];
    assert s'.ribs == map[SUPER := [RouteOf(2, 2, 2, NO_FLAGS)], SUB_SUB := [RouteOf(1, 1, 9, NO_FLAGS)]];
  }

  /** The prefix between the two is announced on a path that the uppermost one vouches for. */
  lemma BetweenTrusted(s: State) returns (s': State)
    requires At(s, DEFAULTS, map[SUPER := Warned(2, T, [Avoid(1, U, SUB_SUB)]), SUB_SUB := Hijacker(T + 1, U)],
                map[SUPER := [RouteOf(2, 2, 2, NO_FLAGS)], SUB_SUB := [RouteOf(1, 1, 9, NO_FLAGS)]], [DEEP])
    ensures s' == Announce(s, News1(SUB, 2, 2, 2), {}, T + 2)
    ensures At(s', DEFAULTS, map[SUPER := Warned(2, T, [Avoid(1, U, SUB_SUB)]), SUB_SUB := Hijacker(T + 1, U),
                       SUB := Clean(2, T + 2)],
               map[SUPER := [RouteOf(2, 2, 2, NO_FLAGS)], SUB_SUB := [RouteOf(1, 1, 9, NO_FLAGS)],
                   SUB := [RouteOf(2, 2, 2, NO_FLAGS)]], [DEEP])
  {
    hide Announce, PathIsPrefix;
    var t := T + 2;
    assert |SUPER| == 8 && |SUB| == 9 && |SUB_SUB| == 10 && SUB[..8] == SUPER;
    SuperOfNine(s, SUB, t);
    Unlike(2, 2);
    assert Rib(s.ribs, SUPER)[0].peerAs == 2;
    assert VerdictOn(s, SUB, 2, 2, t) == Trusted;
    TrustedStep(s, SUB, 2, 2, 2, t);
    s' := Announce(s, News1(SUB, 2, 2, 2), {}, t);
    assert PutRoute([], News1(SUB, 2, 2, 2), NO_FLAGS) == [RouteOf(2, 2, 2, NO_FLAGS)];
    assert s'.hists == map[SUPER := Warned(2, T, [Avoid(1, U, SUB_SUB)]), SUB_SUB := Hijacker(T + 1, U),
                           SUB := Clean(2, T + 2)];
    assert s'.ribs == map[SUPER := [RouteOf(2, 2, 2, NO_FLAGS)], SUB_SUB := [RouteOf(1, 1, 9, NO_FLAGS)],
                          SUB := [RouteOf(2, 2, 2, NO_FLAGS)]];
  }

  /** Announced again, the suspected prefix puts the blame on the super-prefix found now. */
  lemma BetweenBlamed(s: State)
    requires At(s, DEFAULTS, map[SUPER := Warned(2, T, [Avoid(1, U, SUB_SUB)]), SUB_SUB := Hijacker(T + 1, U),
                       SUB := Clean(2, T + 2)],
                map[SUPER := [RouteOf(2, 2, 2, NO_FLAGS)], SUB_SUB := [RouteOf(1, 1, 9, NO_FLAGS)],
                    SUB := [RouteOf(2, 2, 2, NO_FLAGS)]], [DEEP])
    ensures var s' := Announce(s, News1(SUB_SUB, 2, 2, 9), {}, T + 3);
      && Plain(s') && s'.queue == [DEEP] && Rib(s'.ribs, SUB) == [RouteOf(2, 2, 2, BLAMED)]
      && SUB in s'.hists && s'.hists[SUB] == Warned(2, T + 2, [Avoid(2, U, SUB_SUB)])
  {
    hide Announce;
    var t := T + 3;
    assert |SUPER| == 8 && |SUB| == 9 && |SUB_SUB| == 10;
    SuperOfTen(s, t);
    assert VerdictOn(s, SUB_SUB, 2, 9, t) == Hijack(false);
    HijackStep(s, SUB_SUB, SUB, 2, 2, 9, t);
    var rs := [RouteOf(2, 2, 2, NO_FLAGS)];
    assert rs[0].peerAs == 2 && SetSuspP(rs, 2, true) == [RouteOf(2, 2, 2, BLAMED)];
    assert Noted([], 2, U, SUB_SUB) == [Avoid(2, U, SUB_SUB)];
  }

  /** A prefix is suspected, then a nearer super-prefix appears, and the next announcement blames that
      one. The entry still names the first: when the suspicion is over and the queue empty, the only
      route of the nearer one from that neighbour stays flagged, and its lapsed note stays too. */
  lemma BlameStaysElsewhere() returns (es: seq<Event>, s: State)
    ensures Reaches(Fresh(DEFAULTS, T), T, es, s, T + 3) && s.rqSize == |s.queue|
    ensures var s' := Drain(s, U);
      && s'.queue == [] && LapsedAt(s', SUB, 2, U)
      && |Rib(s'.ribs, SUB)| == 1 && Rib(s'.ribs, SUB)[0].peerAs == 2 && Rib(s'.ribs, SUB)[0].flags.suspP
  {
    hide Announce, Reaches, IsFirst;
    var s0 := Fresh(DEFAULTS, T);
    var m0, m1 := News1(SUPER, 2, 2, 2), News1(SUB_SUB, 1, 1, 9);
    var m2, m3 := News1(SUB, 2, 2, 2), News1(SUB_SUB, 2, 2, 9);
    var s1 := SuperAnnounced(DEFAULTS, 2);
    var s2 := DeepHijacked(s1);
    var s3 := BetweenTrusted(s2);
    BetweenBlamed(s3);
    s := Announce(s3, m3, {}, T + 3);
    var e0, e1, e2, e3 := Announced(m0, {}, T), Announced(m1, {}, T + 1), Announced(m2, {}, T + 2), Announced(m3, {}, T + 3);
    Onward(s0, [e0], s1, T, m1, T + 1);
    Onward(s0, [e0] + [e1], s2, T + 1, m2, T + 2);
    Onward(s0, [e0] + [e1] + [e2], s3, T + 2, m3, T + 3);
    es := [e0] + [e1] + [e2] + [e3];
    BlameLeft(s);
  }

  lemma BlameLeft(s: State)
    requires s.queue == [DEEP] && s.rqSize == 1 && Rib(s.ribs, SUB) == [RouteOf(2, 2, 2, BLAMED)]
    requires SUB in s.hists && s.hists[SUB] == Warned(2, T + 2, [Avoid(2, U, SUB_SUB)])
    ensures var s' := Drain(s, U);
      && s'.queue == [] && LapsedAt(s', SUB, 2, U)
      && |Rib(s'.ribs, SUB)| == 1 && Rib(s'.ribs, SUB)[0].peerAs == 2 && Rib(s'.ribs, SUB)[0].flags.suspP
  {
    hide Drain;
    var u := U;
    assert |SUPER| == 8 && |SUB| == 9;
    DrainOne(s, u);
    assert !DueSuper(s.queue, SUB, u);
    DrainForgives(s, u, SUB, 0);
    assert [Avoid(2, u, SUB_SUB)][0].until <= u;
    assert LapsedAt(s, SUB, 2, u);
    DrainDropsNotes(s, u, SUB, 2);
  }

  // ---------- A note that outlives its sub-prefix ----------

  const V: Time := 1086410
  const FIRST_SUB := PrefixEntry(U, SUB, SUPER)
  const SECOND_SUB := PrefixEntry(V, OTHER_SUB, SUPER)

  function Chosen(flags: Flags): Route { RouteOf(3, 3, 3, flags).(selected := true) }

  lemma ChosenFirst(s: State)
    requires At(s, DEFAULTS, OnlySuper(3), SuperRib(3), [])
    ensures At(RibUpdated(s, SUPER, 0, T), DEFAULTS, OnlySuper(3), map[SUPER := [Chosen(NO_FLAGS)]], [])
  {
    var rs := SuperRib(3)[SUPER];
    assert Mark(rs, 0) == [Chosen(NO_FLAGS)];
    assert s.ribs[SUPER := [Chosen(NO_FLAGS)]] == map[SUPER := [Chosen(NO_FLAGS)]];
  }

  /** The first sub-prefix is ignored, since the super-prefix has a usable route. */
  lemma FirstIgnored(s: State) returns (s': State)
    requires At(s, DEFAULTS, OnlySuper(3), map[SUPER := [Chosen(NO_FLAGS)]], [])
    ensures s' == Announce(s, News1(SUB, 1, 1, 9), {}, T + 1)
    ensures At(s', DEFAULTS, map[SUPER := Warned(3, T, [Avoid(1, U, SUB)]), SUB := Hijacker(T + 1, U)],
               map[SUPER := [Chosen(NO_FLAGS)], SUB := [RouteOf(1, 1, 9, IGNORED)]], [FIRST_SUB])
  {
    hide Announce, PathIsPrefix;
    var t := T + 1;
    assert |SUPER| == 8 && |SUB| == 9 && SUB[..8] == SUPER;
    SuperOfNine(s, SUB, t);
    var rs := [Chosen(NO_FLAGS)];
    assert rs[1..] == [] && FirstFrom(rs, 1) == 1;
    assert VerdictOn(s, SUB, 1, 9, t) == Hijack(true);
    HijackStep(s, SUB, SUPER, 1, 1, 9, t);
    s' := Announce(s, News1(SUB, 1, 1, 9), {}, t);
    assert SetSuspP(rs, 1, true) == rs && Selected(rs) == 0;
    assert Noted([], 1, U, SUB) == [Avoid(1, U, SUB)];
    assert PutRoute([], News1(SUB, 1, 1, 9), IGNORED) == [RouteOf(1, 1, 9, IGNORED)];
    assert [] + [FIRST_SUB] == [FIRST_SUB];
    assert s'.hists == map[SUPER := Warned(3, T, [Avoid(1, U, SUB)]), SUB := Hijacker(T + 1, U)];
    assert s'.ribs == map[SUPER := [Chosen(NO_FLAGS)], SUB := [RouteOf(1, 1, 9, IGNORED)]];
  }

  /** A second one from the same neighbour prolongs the note, which goes on naming the first. */
  lemma SecondProlongs(s: State) returns (s': State)
    requires At(s, DEFAULTS, map[SUPER := Warned(3, T, [Avoid(1, U, SUB)]), SUB := Hijacker(T + 1, U)],
                map[SUPER := [Chosen(NO_FLAGS)], SUB := [RouteOf(1, 1, 9, IGNORED)]], [FIRST_SUB])
    ensures s' == Announce(s, News1(OTHER_SUB, 1, 1, 9), {}, T + 10)
    ensures Plain(s') && s'.queue == [FIRST_SUB, SECOND_SUB]
    ensures SUPER in s'.hists && s'.hists[SUPER] == Warned(3, T, [Avoid(1, V, SUB)])
    ensures Rib(s'.ribs, SUPER) == [Chosen(NO_FLAGS)] && Rib(s'.ribs, SUB) == [RouteOf(1, 1, 9, IGNORED)]
    ensures s'.cfg == DEFAULTS && s'.lastgc == T
  {
    hide Announce, PathIsPrefix;
    var t := T + 10;
    assert |SUPER| == 8 && |SUB| == 9 && |OTHER_SUB| == 9 && OTHER_SUB[..8] == SUPER;
    assert SUB[8] != OTHER_SUB[8];
    SuperOfNine(s, OTHER_SUB, t);
    var rs := [Chosen(NO_FLAGS)];
    assert rs[1..] == [] && FirstFrom(rs, 1) == 1;
    assert VerdictOn(s, OTHER_SUB, 1, 9, t) == Hijack(true);
    HijackStep(s, OTHER_SUB, SUPER, 1, 1, 9, t);
    s' := Announce(s, News1(OTHER_SUB, 1, 1, 9), {}, t);
    assert SetSuspP(rs, 1, true) == rs;
    assert Noted([Avoid(1, U, SUB)], 1, V, OTHER_SUB) == [Avoid(1, V, SUB)];
    assert [FIRST_SUB] + [SECOND_SUB] == [FIRST_SUB, SECOND_SUB];
  }

  const NOTES := [Avoid(1, V, SUB)]

  /** The first suspicion is over: its drain takes IGNORED_P back, and leaves the prolonged note. */
  lemma FirstRestored(a: State) returns (d: State)
    requires Plain(a) && a.queue == [FIRST_SUB, SECOND_SUB] && a.cfg == DEFAULTS
    requires SUPER in a.hists && a.hists[SUPER] == Warned(3, T, NOTES)
    requires Rib(a.ribs, SUPER) == [Chosen(NO_FLAGS)] && Rib(a.ribs, SUB) == [RouteOf(1, 1, 9, IGNORED)]
    ensures d == Drain(a, U) && Plain(d) && d.queue == [SECOND_SUB] && d.cfg == DEFAULTS && d.lastgc == a.lastgc
    ensures SUPER in d.hists && d.hists[SUPER] == Warned(3, T, NOTES)
    ensures Rib(d.ribs, SUPER) == [Chosen(NO_FLAGS)] && Rib(d.ribs, SUB) == [RouteOf(1, 1, 9, NO_FLAGS)]
  {
    hide ReusePrefix, LapsedAt;
    assert |SUPER| == 8 && |SUB| == 9;
    assert Remove(a.queue, 0) == [SECOND_SUB];
    var a1 := a.(queue := [SECOND_SUB], rqSize := 1);
    d := ReusePrefix(a1, SUB, SUPER, U);
    assert MinIndex(a.queue) == 0 && ReuseAt(a, 0, U) == d;
    QuietDrain(d, U);
    ReusePrefixRoute(a1, SUB, SUPER, U, SUPER, 0);
    ReusePrefixRoute(a1, SUB, SUPER, U, SUB, 0);
    NotesStay(a1);
  }

  lemma NotesStay(s: State)
    requires SUPER in s.hists && s.hists[SUPER] == Warned(3, T, NOTES)
    ensures var d := ReusePrefix(s, SUB, SUPER, U); SUPER in d.hists && d.hists[SUPER] == Warned(3, T, NOTES)
  {
    hide ClearSuspP, ClearIgnored, UnlockSubs, Bump, Expired;
    assert NOTES[1..] == [] && Unexpired(NOTES, U) == NOTES;
  }

  lemma SuperVouched(d: State, b: State)
    requires d.cfg == DEFAULTS && SUPER in d.hists && d.hists[SUPER] == Warned(3, T, NOTES)
    requires Alike(Stamped(d, SUPER, 3, U), b) && SUPER in b.hists
    ensures var (u, p, g) := UpdatePrefix(b, SUPER, SuperOf(d, SUPER, U), 3, Direct(3), U, false);
      && !p && !g && u.ribs == d.ribs && u.queue == d.queue
      && SUPER in u.hists && u.hists[SUPER] == Warned(3, U, NOTES)
  {
    assert |SUPER| == 8;
    assert NOTES[0].peerAs == 1;
    assert b.hists[SUPER].prefix == Some(PrefixRec(T, 0, NOTES));
    assert JudgePrefix(b, SUPER, SuperOf(d, SUPER, U), 3, Direct(3), U, false) == Trusted;
  }

  lemma NoteCollected(s: State)
    requires Distinct(s.order) && s.cfg == DEFAULTS && SUPER in s.hists && s.hists[SUPER] == Warned(3, U, NOTES)
    requires Rib(s.ribs, SUPER) != [] && s.lastgc <= U
    ensures var s' := Gc(s, {}, U); SUPER in s'.hists && s'.hists[SUPER].prefix == Some(PrefixRec(U, 0, NOTES))
  {
    hide GcNodes, GcOrigins;
    GcNodesAt(s, s.order, U, SUPER);
  }

  /** The super-prefix is announced again when the first suspicion is over. */
  lemma SuperAgain(s: State) returns (s': State)
    requires EngineInv(s, T + 10) && Plain(s) && s.queue == [FIRST_SUB, SECOND_SUB] && s.cfg == DEFAULTS && s.lastgc == T
    requires SUPER in s.hists && s.hists[SUPER] == Warned(3, T, NOTES)
    requires Rib(s.ribs, SUPER) == [Chosen(NO_FLAGS)] && Rib(s.ribs, SUB) == [RouteOf(1, 1, 9, IGNORED)]
    ensures s' == Announce(s, News1(SUPER, 3, 3, 3), {}, U)
    ensures s'.rqSize == 1 && s'.queue == [SECOND_SUB]
    ensures SUPER in s'.hists && s'.hists[SUPER].prefix == Some(PrefixRec(U, 0, NOTES))
    ensures Rib(s'.ribs, SUPER) == [Chosen(NO_FLAGS)] && Rib(s'.ribs, SUB) == [RouteOf(1, 1, 9, NO_FLAGS)]
  {
    hide Drain, Detect, Gc, UpdatePrefix, EngineInv;
    var m := News1(SUPER, 3, 3, 3);
    var a := AddNode(s, SUPER);
    var d := FirstRestored(a);
    assert OldFlags(Rib(d.ribs, SUPER), 3) == NO_FLAGS;
    var b := DirectDetected(d, SUPER, 3, 3, 3, U, NO_FLAGS);
    SuperVouched(d, b);
    UpdateFrame(b, SUPER, SuperOf(d, SUPER, U), 3, Direct(3), U);
    BeforeGcKeeps(s, m, T + 10, U);
    var (s1, flags) := BeforeGc(s, m, U);
    assert s1.ribs == d.ribs && s1.queue == [SECOND_SUB] && flags == NO_FLAGS;
    NoteCollected(s1);
    GcFrame(s1, {}, U);
    assert |SUPER| == 8 && |SUB| == 9;
    var rs := [Chosen(NO_FLAGS)];
    assert PutRoute(rs, m, NO_FLAGS) == rs;
    s' := Announce(s, m, {}, U);
  }

  /** No edge entry, no stranding. */
  lemma NothingToStrand(s: State, now: Time, m: News, t: Time)
    requires s.rqSize == |s.queue| && now <= t && forall i :: 0 <= i < |s.queue| ==> !s.queue[i].EdgeEntry?
    ensures Fair(s, now, Announced(m, {}, t))
  {
    forall e | e in s.queue ensures !e.EdgeEntry? {
      var i :| 0 <= i < |s.queue| && s.queue[i] == e;
    }
  }

  /** Two sub-prefixes are suspected in turn. When the first suspicion is over its route is given back,
      but the note the second prolonged still names the first, and a route selection ignores it
      again. When all is over, the queue empty and the note gone, it is still ignored. */
  lemma IgnoredStays() returns (es: seq<Event>, s: State)
    ensures Reaches(Fresh(DEFAULTS, T), T, es, s, U) && s.rqSize == |s.queue|
    ensures var s' := Drain(s, V);
      && s'.queue == [] && SUPER in s'.hists && PrefixOf(s'.hists[SUPER]).avoid == []
      && |Rib(s'.ribs, SUB)| == 1 && Rib(s'.ribs, SUB)[0].flags.ignP
  {
    hide Announce, Reaches, RibUpdated, Drain, At, Plain;
    var s0 := Fresh(DEFAULTS, T);
    var m2, m3, m4 := News1(SUB, 1, 1, 9), News1(OTHER_SUB, 1, 1, 9), News1(SUPER, 3, 3, 3);
    var e0, e1, e5 := Announced(m4, {}, T), Decided(SUPER, 0, T), Decided(SUPER, 0, U);
    var e2, e3, e4 := Announced(m2, {}, T + 1), Announced(m3, {}, T + 10), Announced(m4, {}, U);
    var s1 := SuperAnnounced(DEFAULTS, 3);
    var s2 := RibUpdated(s1, SUPER, 0, T);
    ChosenFirst(s1);
    AtCounts(s1, OnlySuper(3), SuperRib(3), []);
    RunExtends(s0, T, [e0], s1, T, e1);
    var s3 := FirstIgnored(s2);
    AtCounts(s2, OnlySuper(3), map[SUPER := [Chosen(NO_FLAGS)]], []);
    Onward(s0, [e0] + [e1], s2, T, m2, T + 1);
    var s4 := SecondProlongs(s3);
    AtCounts(s3, map[SUPER := Warned(3, T, [Avoid(1, U, SUB)]), SUB := Hijacker(T + 1, U)],
             map[SUPER := [Chosen(NO_FLAGS)], SUB := [RouteOf(1, 1, 9, IGNORED)]], [FIRST_SUB]);
    Onward(s0, [e0] + [e1] + [e2], s3, T + 1, m3, T + 10);
    FreshInv(DEFAULTS, T);
    RunKeeps(s0, T, [e0] + [e1] + [e2] + [e3], s4, T + 10);
    var s5 := SuperAgain(s4);
    NothingToStrand(s4, T + 10, m4, U);
    RunExtends(s0, T, [e0] + [e1] + [e2] + [e3], s4, T + 10, e4);
    RunExtends(s0, T, [e0] + [e1] + [e2] + [e3] + [e4], s5, U, e5);
    s := RibUpdated(s5, SUPER, 0, U);
    es := [e0] + [e1] + [e2] + [e3] + [e4] + [e5];
    IgnoredAgain(s5);
  }

  lemma AtCounts(s: State, hists: map<Prefix, Hist>, ribs: map<Prefix, seq<Route>>, queue: seq<Entry>)
    requires At(s, DEFAULTS, hists, ribs, queue)
    ensures s.rqSize == |s.queue| && s.lastgc == T && s.queue == queue
  {
  }

  lemma IgnoredAgain(s: State)
    requires s.rqSize == 1 && s.queue == [SECOND_SUB]
    requires SUPER in s.hists && s.hists[SUPER].prefix == Some(PrefixRec(U, 0, NOTES))
    requires Rib(s.ribs, SUPER) == [Chosen(NO_FLAGS)] && Rib(s.ribs, SUB) == [RouteOf(1, 1, 9, NO_FLAGS)]
    ensures var s1 := RibUpdated(s, SUPER, 0, U); var s' := Drain(s1, V);
      && s1.rqSize == |s1.queue| && s'.queue == [] && SUPER in s'.hists && PrefixOf(s'.hists[SUPER]).avoid == []
      && |Rib(s'.ribs, SUB)| == 1 && Rib(s'.ribs, SUB)[0].flags.ignP
  {
    hide RibUpdated, Drain;
    var s1 := RibUpdated(s, SUPER, 0, U);
    SelectionOnly(s);
    assert NOTES[0].sub == SUB && NOTES[0].until > U;
    SelectionIgnores(s, SUPER, 0, U, SUB, 0);
    assert |SUB| == 9 && |OTHER_SUB| == 9 && SUB[8] != OTHER_SUB[8];
    assert !DueNode(s1.queue, SUB, V);
    DrainRestores(s1, V, SUB, 0);
    DrainOne(s1, V);
    LastNoteGone(s1.(queue := [], rqSize := 0));
  }

  lemma SelectionOnly(s: State)
    ensures var s1 := RibUpdated(s, SUPER, 0, U); s1.queue == s.queue && s1.rqSize == s.rqSize && s1.hists == s.hists
  {
  }

  lemma LastNoteGone(s: State)
    requires SUPER in s.hists && s.hists[SUPER].prefix == Some(PrefixRec(U, 0, NOTES))
    ensures var s' := ReusePrefix(s, OTHER_SUB, SUPER, V); SUPER in s'.hists && PrefixOf(s'.hists[SUPER]).avoid == []
  {
    hide ClearSuspP, ClearIgnored, UnlockSubs, Bump, Expired;
    assert NOTES[1..] == [] && Unexpired(NOTES, V) == [];
  }

  // ---------- A super-prefix without origins ----------

  /** Suspicions of an hour; prefixes are remembered for ten days, origins and edges for one. */
  const LONG_PREFIXES := Config(3600, 3600, 3600, 86400, 86400 * 10, 86400)

  const ROOT: Prefix := []
  const DAY_LATER: Time := 1086400
  const BARE := Hist([], Some(PrefixRec(T, 0, [])), false)

  lemma CollectedPlain(s: State, t: Time)
    requires Plain(s)
    ensures Plain(Gc(s, {}, t))
  {
    hide GcNodes;
    GcNodesTables(s, s.order, t);
    GcFrame(s, {}, t);
  }

  lemma SuperIsBare()
    ensures GcHist(LONG_PREFIXES, [], T, Clean(1, T), DAY_LATER) == BARE
  {
    assert Clean(1, T).origins[1..] == [];
  }

  /** Another prefix is announced a day after the super-prefix was withdrawn. */
  lemma OriginCollected(s: State) returns (s': State)
    requires EngineInv(s, T) && At(s, LONG_PREFIXES, OnlySuper(1), map[SUPER := []], [])
    ensures s' == Announce(s, News1(ROOT, 2, 2, 2), {}, DAY_LATER)
    ensures Plain(s') && s'.queue == [] && s'.cfg == LONG_PREFIXES && SUB !in s'.hists
    ensures SUPER in s'.hists && s'.hists[SUPER] == BARE && Rib(s'.ribs, SUPER) == []
  {
    hide BeforeGc, Gc, EngineInv;
    var m := News1(ROOT, 2, 2, 2);
    var b := DirectBefore(s, ROOT, 2, 2, 2, DAY_LATER);
    BeforeGcKeeps(s, m, T, DAY_LATER);
    var (s1, flags) := BeforeGc(s, m, DAY_LATER);
    assert |SUPER| == 8 && |SUB| == 9;
    RootUpdated(b);
    assert s1.hists == map[SUPER := Clean(1, T), ROOT := Clean(2, DAY_LATER)] && Rib(s1.ribs, SUPER) == [] && s1.queue == [];
    BareCollected(s1);
    CollectedPlain(s1, DAY_LATER);
    GcFrame(s1, {}, DAY_LATER);
    s' := Announce(s, m, {}, DAY_LATER);
    RoutedPlain(Gc(s1, {}, DAY_LATER), s');
  }

  lemma RootUpdated(b: State)
    requires b.cfg == LONG_PREFIXES
    requires b.hists == map[SUPER := Clean(1, T), ROOT := Hist([Origin(2, DAY_LATER, 0)], None, false)]
    ensures var u := UpdatePrefix(b, ROOT, None, 2, Direct(2), DAY_LATER, false).0;
      u.hists == map[SUPER := Clean(1, T), ROOT := Clean(2, DAY_LATER)] && u.ribs == b.ribs && u.queue == b.queue
  {
    assert |SUPER| == 8;
  }

  lemma BareCollected(s: State)
    requires Distinct(s.order) && SUPER in s.order && s.cfg == LONG_PREFIXES && s.lastgc == T && Rib(s.ribs, SUPER) == []
    requires s.hists == map[SUPER := Clean(1, T), ROOT := Clean(2, DAY_LATER)]
    ensures var s' := Gc(s, {}, DAY_LATER); SUPER in s'.hists && s'.hists[SUPER] == BARE && SUB !in s'.hists
  {
    hide GcNodes, GcHist;
    assert |SUPER| == 8 && |SUB| == 9;
    SuperIsBare();
    GcNodesAt(s, s.order, DAY_LATER, SUPER);
    GcNodesFrees(s, s.order, DAY_LATER, SUB);
  }

  /** The super-prefix is remembered longer than its origin: the log of the next suspicion about a
      sub-prefix of it fails its assertion. */
  lemma LogCanFail() returns (es: seq<Event>, s: State)
    ensures Reaches(Fresh(LONG_PREFIXES, T), T, es, s, DAY_LATER) && s.rqSize == |s.queue|
    ensures var t := DAY_LATER + 1; var m := News1(SUB, 2, 2, 2);
      var (s1, super, newPeer) := Prepare(Drain(AddNode(s, SUB), t), m, t);
      LogFails(UpdateOrigin(s1, SUB, m.path, t, newPeer).0, SUB, super, 2, m.path, t, newPeer)
  {
    hide Announce, Reaches, LogFails, UpdateOrigin;
    var s0 := Fresh(LONG_PREFIXES, T);
    var e0, e1 := Announced(News1(SUPER, 1, 1, 1), {}, T), Withdrawn(SUPER, 0);
    var e2 := Announced(News1(ROOT, 2, 2, 2), {}, DAY_LATER);
    var s1 := SuperAnnounced(LONG_PREFIXES, 1);
    assert Remove(SuperRib(1)[SUPER], 0) == [];
    var s2 := Withdraw(s1, SUPER, 0);
    assert s2.ribs == map[SUPER := []];
    RunExtends(s0, T, [e0], s1, T, e1);
    FreshInv(LONG_PREFIXES, T);
    RunKeeps(s0, T, [e0] + [e1], s2, T);
    s := OriginCollected(s2);
    NothingToStrand(s2, T, News1(ROOT, 2, 2, 2), DAY_LATER);
    RunExtends(s0, T, [e0] + [e1], s2, T, e2);
    es := [e0] + [e1] + [e2];
    SubSuspected(s);
  }

  lemma SubSuspected(s: State)
    requires Plain(s) && s.queue == [] && s.cfg == LONG_PREFIXES && SUB !in s.hists
    requires SUPER in s.hists && s.hists[SUPER] == BARE && Rib(s.ribs, SUPER) == []
    ensures var t := DAY_LATER + 1; var m := News1(SUB, 2, 2, 2);
      var (s1, super, newPeer) := Prepare(Drain(AddNode(s, SUB), t), m, t);
      LogFails(UpdateOrigin(s1, SUB, m.path, t, newPeer).0, SUB, super, 2, m.path, t, newPeer)
  {
    hide LogFails, UpdateOrigin, Prepare;
    var t, m := DAY_LATER + 1, News1(SUB, 2, 2, 2);
    var d := AddNode(s, SUB);
    assert Drain(d, t) == d;
    assert |SUPER| == 8 && |SUB| == 9 && SUB[..8] == SUPER;
    SuperOfNine(d, SUB, t);
    DirectPrepared(d, m, t);
    LogFailsExactly(d, m, t);
    assert !LedTo([], 2, m.path);
  }
}
