/**
 Announcements with a path of a single AS, for which only the sub-prefix detector has anything to
 decide: the state after one in terms of the verdict, up to locks.
 */
module PgbgpDirect {
  import opened Common
  import opened PgbgpModel

  /** A path of one AS. */
  function Direct(a: AsNum): Path { [Segment(2, [a])] }

  lemma DirectPath(a: AsNum)
    ensures OriginAs(Direct(a)) == a && PathEdges(Direct(a)) == []
  {
    assert Flatten(Direct(a)) == [a] by { assert Direct(a)[1..] == []; }
  }

  function Clean(a: AsNum, t: Time): Hist { Hist([Origin(a, t, 0)], Some(PrefixRec(t, 0, [])), false) }

  function HistOf(s: State, n: Prefix): Hist {
    if n in s.hists then s.hists[n] else Hist([], None, false)
  }

  // ---------- Announcements with a path of one AS ----------

  /** No pair of an announced path is on record, and no peer ever was in a grace period. */
  ghost predicate Plain(s: State) {
    && s.cfg.Sane() && s.edges == map[] && s.rqSize == |s.queue|
    && forall p :: p in s.peers ==> s.peers[p].depref == 0
  }

  /** No origin but a. */
  predicate OnlyFrom(os: seq<Origin>, a: AsNum) { os == [] || (|os| == 1 && os[0].asn == a && os[0].depref == 0) }

  lemma OriginStamped(s: State, n: Prefix, a: AsNum, t: Time)
    requires n in s.hists && OnlyFrom(s.hists[n].origins, a)
    ensures UpdateOrigin(s, n, Direct(a), t, false)
      == (s.(hists := s.hists[n := s.hists[n].(origins := [Origin(a, t, 0)])]), false)
  {
    DirectPath(a);
    var os := s.hists[n].origins;
    if os == [] {
      assert [Origin(a, 0, 0)] + os == [Origin(a, 0, 0)];
      assert [Origin(a, 0, 0)][0 := Origin(a, t, 0)] == [Origin(a, t, 0)];
    } else {
      assert os[0 := os[0].(lastSeen := t)] == [Origin(a, t, 0)];
    }
  }

  lemma NoEdges(s: State, n: Prefix, a: AsNum, t: Time)
    requires n in s.hists
    ensures UpdateEdge(s, n, Direct(a), t, false) == (s, false)
  {
    DirectPath(a);
  }

  lemma BlameFrame(s: State, n: Prefix, m: Prefix, peerAs: AsNum, until: Time)
    ensures var u := BlameSuper(s, n, m, peerAs, until);
      && u.cfg == s.cfg && u.edges == s.edges && u.peers == s.peers && u.lastgc == s.lastgc
      && u.rqSize == s.rqSize && u.queue == s.queue
  {
    hide SetSuspP, FirstAvoid, Bump;
  }

  predicate SameFrame(s: State, u: State) {
    && u.cfg == s.cfg && u.edges == s.edges && u.peers == s.peers && u.lastgc == s.lastgc
    && u.rqSize - |u.queue| == s.rqSize - |s.queue|
  }

  lemma SuspectFrame(s: State, n: Prefix, m: Prefix, t: Time)
    requires n in s.hists
    ensures SameFrame(s, SuspectPrefix(s, n, m, t)) && SameFrame(s, SeePrefix(s, n, t))
  {
    hide Bump, PrefixOf;
  }

  lemma UpdateFrame(s: State, n: Prefix, super: Option<Prefix>, peerAs: AsNum, path: Path, t: Time)
    requires n in s.hists
    ensures SameFrame(s, UpdatePrefix(s, n, super, peerAs, path, t, false).0)
  {
    hide JudgePrefix, BlameSuper, SuspectPrefix, SeePrefix, ShouldIgnore, PrefixOf;
    SuspectFrame(s, n, n, t);
    var v := JudgePrefix(s, n, super, peerAs, path, t, false);
    if v.Hijack? && super.Some? {
      var s1 := if v.isNew then SuspectPrefix(s, n, super.value, t) else s;
      SuspectFrame(s, n, super.value, t);
      BlameFrame(s1, n, super.value, peerAs, PrefixOf(s1.hists[n]).ignoreUntil);
      SuspectFrame(BlameSuper(s1, n, super.value, peerAs, PrefixOf(s1.hists[n]).ignoreUntil), n, n, t);
    }
  }

  /** The same but for locks and peers. */
  predicate Alike(s: State, s': State) {
    && s'.cfg == s.cfg && s'.hists == s.hists && s'.ribs == s.ribs && s'.queue == s.queue
    && s'.lastgc == s.lastgc
  }

  /** What the sub-prefix detector looks at. */
  function Stamped(d: State, n: Prefix, a: AsNum, t: Time): State {
    d.(hists := d.hists[n := HistOf(d, n).(origins := [Origin(a, t, 0)])])
  }

  function SuperOf(d: State, n: Prefix, t: Time): Option<Prefix> {
    FindSuper(d.hists[n := HistOf(d, n)], n, t)
  }

  lemma DirectPrepared(d: State, m: News, t: Time)
    requires Plain(d) && t < PEER_HIST
    ensures var (s1, super, newPeer) := Prepare(d, m, t);
      && super == SuperOf(d, m.node, t) && !newPeer && Plain(s1)
      && Alike(d.(hists := d.hists[m.node := HistOf(d, m.node)]), s1)
  {
    hide FindSuper, Bump;
    assert m.node in d.hists ==> d.hists[m.node := d.hists[m.node]] == d.hists;
  }

  /** An announcement up to collection is what the sub-prefix detector makes of it. */
  lemma DirectDetected(d: State, n: Prefix, peer: nat, peerAs: AsNum, a: AsNum, t: Time, was: Flags) returns (b: State)
    requires Plain(d) && t < PEER_HIST && OnlyFrom(HistOf(d, n).origins, a)
    ensures n in b.hists && Alike(Stamped(d, n, a, t), b)
    ensures var (s', flags) := Detect(d, News(n, peer, peerAs, Direct(a)), t, was);
      var (u, p, g) := UpdatePrefix(b, n, SuperOf(d, n, t), peerAs, Direct(a), t, false);
      Plain(s') && Alike(u, s') && flags == Flags(was.suspO, was.suspP || p, was.suspE, was.ignP || g)
  {
    hide Prepare, UpdateOrigin, UpdatePrefix, UpdateEdge, FindSuper;
    var m := News(n, peer, peerAs, Direct(a));
    DirectPrepared(d, m, t);
    var (s1, super, newPeer) := Prepare(d, m, t);
    b := UpdateOrigin(s1, n, m.path, t, false).0;
    OriginStamped(s1, n, a, t);
    UpdateFrame(b, n, super, peerAs, m.path, t);
    NoEdges(UpdatePrefix(b, n, super, peerAs, m.path, t, false).0, n, a, t);
  }

  ghost predicate Quiet(s: State, t: Time) { |s.queue| <= 1 && forall i :: 0 <= i < |s.queue| ==> t < s.queue[i].key }

  lemma QuietDrain(s: State, t: Time)
    requires Quiet(s, t) && s.rqSize == |s.queue|
    ensures Drain(s, t) == s
  {
    if |s.queue| == 1 {
      assert Remove(s.queue, 0) + [s.queue[0]] == s.queue;
    }
  }

  lemma DirectBefore(s: State, n: Prefix, peer: nat, peerAs: AsNum, a: AsNum, t: Time) returns (b: State)
    requires Plain(s) && t < PEER_HIST && OnlyFrom(HistOf(s, n).origins, a) && Quiet(s, t)
    ensures n in b.hists && Alike(Stamped(s, n, a, t), b)
    ensures var (s1, flags) := BeforeGc(s, News(n, peer, peerAs, Direct(a)), t);
      var (u, p, g) := UpdatePrefix(b, n, SuperOf(s, n, t), peerAs, Direct(a), t, false);
      var was := OldFlags(Rib(s.ribs, n), peer);
      && Plain(s1) && Alike(u, s1) && s1.lastgc == s.lastgc
      && flags == Flags(was.suspO, was.suspP || p, was.suspE, was.ignP || g)
  {
    hide Detect, Drain, UpdatePrefix, FindSuper, OldFlags, Plain, Quiet, OnlyFrom;
    var d := AddNode(s, n);
    AddedPlain(s, n, t);
    QuietDrain(d, t);
    b := DirectDetected(d, n, peer, peerAs, a, t, OldFlags(Rib(d.ribs, n), peer));
    UpdateFrame(b, n, SuperOf(d, n, t), peerAs, Direct(a), t);
  }

  lemma NotCollected(s: State, m: News, t: Time)
    requires s.rqSize == |s.queue| && !GcDue(BeforeGc(s, m, t).0, t)
    ensures var (s1, flags) := BeforeGc(s, m, t);
      Announce(s, m, {}, t) == s1.(ribs := s1.ribs[m.node := PutRoute(Rib(s1.ribs, m.node), m, flags)])
  {
    hide BeforeGc, PutRoute;
  }

  /** While nothing is due and no collection, this is the whole announcement. */
  lemma DirectAnnounced(s: State, n: Prefix, peer: nat, peerAs: AsNum, a: AsNum, t: Time) returns (b: State)
    requires Plain(s) && t < PEER_HIST && OnlyFrom(HistOf(s, n).origins, a) && Quiet(s, t) && !GcDue(s, t)
    ensures n in b.hists && Alike(Stamped(s, n, a, t), b)
    ensures var m := News(n, peer, peerAs, Direct(a)); var s' := Announce(s, m, {}, t);
      var (u, p, g) := UpdatePrefix(b, n, SuperOf(s, n, t), peerAs, Direct(a), t, false);
      var was := OldFlags(Rib(s.ribs, n), peer);
      var flags := Flags(was.suspO, was.suspP || p, was.suspE, was.ignP || g);
      && Plain(s') && Alike(u.(ribs := u.ribs[n := PutRoute(Rib(u.ribs, n), m, flags)]), s')
  {
    hide BeforeGc, Announce, UpdatePrefix, FindSuper, PutRoute, OldFlags, Plain, Quiet, OnlyFrom, Stamped;
    b := DirectBefore(s, n, peer, peerAs, a, t);
    var m := News(n, peer, peerAs, Direct(a));
    AddedPlain(s, n, t);
    NotCollected(s, m, t);
    RoutedPlain(BeforeGc(s, m, t).0, Announce(s, m, {}, t));
  }

  lemma AddedPlain(s: State, n: Prefix, t: Time)
    requires Plain(s)
    ensures Plain(AddNode(s, n)) && Quiet(AddNode(s, n), t) == Quiet(s, t) && AddNode(s, n).rqSize == |AddNode(s, n).queue|
  {
  }

  lemma RoutedPlain(s: State, s': State)
    requires Plain(s) && s' == s.(ribs := s'.ribs)
    ensures Plain(s')
  {
  }

  lemma AlikeJudged(s: State, b: State, n: Prefix, super: Option<Prefix>, peerAs: AsNum, path: Path, t: Time)
    requires Alike(s, b) && n in s.hists
    ensures JudgePrefix(b, n, super, peerAs, path, t, false) == JudgePrefix(s, n, super, peerAs, path, t, false)
  {
    hide SamePath, Avoided;
  }

  function VerdictOn(s: State, n: Prefix, peerAs: AsNum, a: AsNum, t: Time): PrefixVerdict {
    JudgePrefix(Stamped(s, n, a, t), n, SuperOf(s, n, t), peerAs, Direct(a), t, false)
  }

  ghost predicate Ready(s: State, n: Prefix, a: AsNum, t: Time) {
    Plain(s) && t < PEER_HIST && OnlyFrom(HistOf(s, n).origins, a) && Quiet(s, t) && !GcDue(s, t)
  }

  function Seen(s: State, n: Prefix, a: AsNum, t: Time, until: Time): Hist {
    HistOf(s, n).(origins := [Origin(a, t, 0)],
                  prefix := Some(PrefixOf(HistOf(s, n)).(ignoreUntil := until, lastSeen := t)))
  }

  /** An announcement that is trusted, or avoided for a note about its neighbour. */
  lemma TrustedStep(s: State, n: Prefix, peer: nat, peerAs: AsNum, a: AsNum, t: Time)
    requires Ready(s, n, a, t) && !VerdictOn(s, n, peerAs, a, t).Hijack?
    ensures var m := News(n, peer, peerAs, Direct(a)); var s' := Announce(s, m, {}, t);
      var was := OldFlags(Rib(s.ribs, n), peer);
      var avoided := VerdictOn(s, n, peerAs, a, t) == AvoidPeer;
      && Plain(s') && s'.cfg == s.cfg && s'.lastgc == s.lastgc && s'.queue == s.queue
      && s'.hists == s.hists[n := Seen(s, n, a, t, PrefixOf(HistOf(s, n)).ignoreUntil)]
      && s'.ribs == s.ribs[n := PutRoute(Rib(s.ribs, n), m, was.(suspP := was.suspP || avoided))]
  {
    hide Announce, JudgePrefix, PutRoute, OldFlags, Plain, Quiet, OnlyFrom, SuperOf;
    var b := DirectAnnounced(s, n, peer, peerAs, a, t);
    AlikeJudged(Stamped(s, n, a, t), b, n, SuperOf(s, n, t), peerAs, Direct(a), t);
  }

  function Noted(av: seq<Avoid>, a: AsNum, until: Time, n: Prefix): seq<Avoid> {
    var i := FirstAvoid(av, a);
    if i < |av| then av[i := av[i].(until := Max(av[i].until, until))] else [Avoid(a, until, n)] + av
  }

  lemma BlameView(s: State, n: Prefix, m: Prefix, peerAs: AsNum, until: Time)
    requires m in s.hists && s.hists[m].prefix.Some?
    ensures var u := BlameSuper(s, n, m, peerAs, until); var sp := s.hists[m].prefix.value;
      && u.cfg == s.cfg && u.queue == s.queue && u.lastgc == s.lastgc
      && u.hists == s.hists[m := s.hists[m].(prefix := Some(sp.(avoid := Noted(sp.avoid, peerAs, until, n))))]
      && u.ribs == s.ribs[m := SetSuspP(Rib(s.ribs, m), peerAs, true)]
  {
    hide SetSuspP, FirstAvoid, Bump;
  }

  lemma SuspectView(b: State, n: Prefix, m: Prefix, t: Time)
    requires n in b.hists
    ensures var u := SuspectPrefix(b, n, m, t);
      && u.cfg == b.cfg && u.lastgc == b.lastgc && u.ribs == b.ribs
      && u.queue == b.queue + [PrefixEntry(t + b.cfg.subSus, n, m)]
      && u.hists == b.hists[n := b.hists[n].(prefix := Some(PrefixOf(b.hists[n]).(ignoreUntil := t + b.cfg.subSus)))]
  {
    hide Bump;
  }

  /** What a hijack makes of the state, up to locks. */
  lemma HijackView(b: State, n: Prefix, m: Prefix, peerAs: AsNum, path: Path, t: Time)
    requires n in b.hists && m != n && m in b.hists && b.hists[m].prefix.Some?
    requires JudgePrefix(b, n, Some(m), peerAs, path, t, false).Hijack?
    ensures var (u, p, g) := UpdatePrefix(b, n, Some(m), peerAs, path, t, false);
      var isNew := JudgePrefix(b, n, Some(m), peerAs, path, t, false).isNew;
      var until := if isNew then t + b.cfg.subSus else PrefixOf(b.hists[n]).ignoreUntil;
      var sp := b.hists[m].prefix.value; var rs := SetSuspP(Rib(b.ribs, m), peerAs, true);
      && u.cfg == b.cfg && u.lastgc == b.lastgc && !p && (g <==> ShouldIgnore(rs))
      && u.queue == (if isNew then b.queue + [PrefixEntry(until, n, m)] else b.queue)
      && u.ribs == b.ribs[m := rs]
      && u.hists == b.hists[n := b.hists[n].(prefix := Some(PrefixOf(b.hists[n]).(ignoreUntil := until, lastSeen := t)))]
                           [m := b.hists[m].(prefix := Some(sp.(avoid := Noted(sp.avoid, peerAs, until, n))))]
  {
    hide JudgePrefix, SuspectPrefix, BlameSuper, SetSuspP, ShouldIgnore, Noted;
    var v := JudgePrefix(b, n, Some(m), peerAs, path, t, false);
    SuspectView(b, n, m, t);
    var s1 := if v.isNew then SuspectPrefix(b, n, m, t) else b;
    BlameView(s1, n, m, peerAs, PrefixOf(s1.hists[n]).ignoreUntil);
  }

  /** An announcement under suspicion. */
  lemma HijackStep(s: State, n: Prefix, m: Prefix, peer: nat, peerAs: AsNum, a: AsNum, t: Time)
    requires Ready(s, n, a, t) && VerdictOn(s, n, peerAs, a, t).Hijack?
    requires SuperOf(s, n, t) == Some(m) && m != n && m in s.hists && s.hists[m].prefix.Some?
    ensures var ev := News(n, peer, peerAs, Direct(a)); var s' := Announce(s, ev, {}, t);
      var isNew := VerdictOn(s, n, peerAs, a, t).isNew;
      var until := if isNew then t + s.cfg.subSus else PrefixOf(HistOf(s, n)).ignoreUntil;
      var sp := s.hists[m].prefix.value; var rs := SetSuspP(Rib(s.ribs, m), peerAs, true);
      var was := OldFlags(Rib(s.ribs, n), peer);
      && Plain(s') && s'.cfg == s.cfg && s'.lastgc == s.lastgc
      && s'.queue == (if isNew then s.queue + [PrefixEntry(until, n, m)] else s.queue)
      && s'.hists == s.hists[n := Seen(s, n, a, t, until)]
                            [m := s.hists[m].(prefix := Some(sp.(avoid := Noted(sp.avoid, peerAs, until, n))))]
      && s'.ribs == s.ribs[m := rs][n := PutRoute(Rib(s.ribs, n), ev, was.(ignP := was.ignP || ShouldIgnore(rs)))]
  {
    hide Announce, JudgePrefix, UpdatePrefix, PutRoute, OldFlags, Plain, Quiet, OnlyFrom, SuperOf, SetSuspP, ShouldIgnore, Noted;
    var b := DirectAnnounced(s, n, peer, peerAs, a, t);
    AlikeJudged(Stamped(s, n, a, t), b, n, Some(m), peerAs, Direct(a), t);
    HijackView(b, n, m, peerAs, Direct(a), t);
  }
}
