/**
 Origin suspicion over whole runs. Every pending origin entry still has its record, every
 suspected record has its pending entry, and every route flagged SUSPICIOUS_O has its origin
 on record and an entry that will look at it again.
 */
module PgbgpOrigins {
  import opened Common
  import opened PgbgpModel

  predicate DistinctAsns(os: seq<Origin>) {
    forall i, j :: 0 <= i < j < |os| ==> os[i].asn != os[j].asn
  }

  /** The record behind a pending entry: same deadline, and seen since the suspicion began. */
  ghost predicate Backs(cfg: Config, os: seq<Origin>, a: AsNum, key: Time) {
    exists o :: o in os && o.asn == a && o.depref == key && key <= o.lastSeen + cfg.originSus
  }

  ghost predicate PendingOn(q: seq<Entry>, n: Prefix) {
    exists e :: e in q && e.OriginEntry? && e.node == n
  }

  ghost predicate EntriesBacked(s: State) {
    forall e :: e in s.queue && e.OriginEntry? ==>
      e.node in s.hists && Backs(s.cfg, s.hists[e.node].origins, e.asn, e.key)
  }

  ghost predicate SuspicionsPending(s: State, t: Time) {
    forall n, o :: n in s.hists && o in s.hists[n].origins && o.depref > t ==>
      OriginEntry(o.depref, n, o.asn) in s.queue
  }

  ghost predicate FlagsAccounted(s: State) {
    forall n, r :: r in Rib(s.ribs, n) && r.flags.suspO ==>
      n in s.hists && Knows(s.hists[n].origins, OriginAs(r.path)) && PendingOn(s.queue, n)
  }

  /** No record comes from the future. */
  ghost predicate SeenBy(s: State, t: Time) {
    forall n, o :: n in s.hists && o in s.hists[n].origins ==> o.lastSeen <= t
  }

  ghost predicate OriginInv(s: State, t: Time) {
    && (forall n :: n in s.hists ==> DistinctAsns(s.hists[n].origins))
    && SeenBy(s, t)
    && EntriesBacked(s)
    && SuspicionsPending(s, t)
    && FlagsAccounted(s)
  }

  /** Every key lies in the future, as after a drain at t. */
  ghost predicate AllLater(q: seq<Entry>, t: Time) {
    forall e :: e in q ==> e.key > t
  }

  // ---------- Steps that leave origins alone ----------

  /** s' holds the same origins and origin entries, and flags no further route. */
  ghost predicate SameOrigins(s: State, s': State) {
    && s'.cfg == s.cfg
    && s'.hists.Keys == s.hists.Keys
    && (forall n :: n in s.hists ==> s'.hists[n].origins == s.hists[n].origins)
    && (forall e: Entry :: e.OriginEntry? ==> (e in s'.queue <==> e in s.queue))
    && NoNewFlags(s.ribs, s'.ribs)
  }

  ghost predicate NoNewFlags(ribs: map<Prefix, seq<Route>>, ribs': map<Prefix, seq<Route>>) {
    forall n, r' :: r' in Rib(ribs', n) && r'.flags.suspO ==> FlaggedAs(Rib(ribs, n), r'.path)
  }

  ghost predicate FlaggedAs(rs: seq<Route>, path: Path) {
    exists r :: r in rs && r.flags.suspO && r.path == path
  }

  lemma FrameOrigins(s: State, s': State, t: Time)
    requires OriginInv(s, t) && SameOrigins(s, s')
    ensures OriginInv(s', t)
  {
    forall n | n in s'.hists ensures DistinctAsns(s'.hists[n].origins) {
      assert n in s.hists;
    }
    forall e | e in s'.queue && e.OriginEntry?
      ensures e.node in s'.hists && Backs(s'.cfg, s'.hists[e.node].origins, e.asn, e.key)
    {
      assert e in s.queue;
    }
    forall n, o | n in s'.hists && o in s'.hists[n].origins && o.depref > t
      ensures OriginEntry(o.depref, n, o.asn) in s'.queue
    {
      assert n in s.hists && o in s.hists[n].origins;
      assert OriginEntry(o.depref, n, o.asn) in s.queue;
    }
    forall n, r' | r' in Rib(s'.ribs, n) && r'.flags.suspO
      ensures n in s'.hists && Knows(s'.hists[n].origins, OriginAs(r'.path)) && PendingOn(s'.queue, n)
    {
      assert FlaggedAs(Rib(s.ribs, n), r'.path);
      var r :| r in Rib(s.ribs, n) && r.flags.suspO && r.path == r'.path;
      assert PendingOn(s.queue, n);
      var e :| e in s.queue && e.OriginEntry? && e.node == n;
      assert e in s'.queue;
    }
  }

  lemma UpdateNoNewFlags(ribs: map<Prefix, seq<Route>>, n: Prefix, rs: seq<Route>)
    requires forall r' :: r' in rs && r'.flags.suspO ==> FlaggedAs(Rib(ribs, n), r'.path)
    ensures NoNewFlags(ribs, ribs[n := rs])
  {
    forall m, r' | r' in Rib(ribs[n := rs], m) && r'.flags.suspO
      ensures FlaggedAs(Rib(ribs, m), r'.path)
    {
      if m != n {
        assert r' in Rib(ribs, m);
      }
    }
  }

  lemma SetSuspPKeeps(rs: seq<Route>, a: AsNum, on: bool)
    ensures forall r' :: r' in SetSuspP(rs, a, on) && r'.flags.suspO ==> FlaggedAs(rs, r'.path)
  {
    forall r' | r' in SetSuspP(rs, a, on) && r'.flags.suspO ensures FlaggedAs(rs, r'.path) {
      var i := FirstFrom(rs, a);
      if i < |rs| && r' == rs[i].(flags := rs[i].flags.(suspP := on)) {
        assert rs[i] in rs;
      } else {
        assert r' in rs;
      }
    }
  }

  lemma {:induction false} ClearSuspPKeeps(rs: seq<Route>, av: seq<Avoid>)
    ensures forall r' :: r' in ClearSuspP(rs, av) && r'.flags.suspO ==> FlaggedAs(rs, r'.path)
    decreases |av|
  {
    if av == [] {
      assert ClearSuspP(rs, av) == rs;
    } else {
      var rs1 := SetSuspP(rs, av[0].peerAs, false);
      ClearSuspPKeeps(rs1, av[1..]);
      SetSuspPKeeps(rs, av[0].peerAs, false);
      forall r' | r' in ClearSuspP(rs, av) && r'.flags.suspO ensures FlaggedAs(rs, r'.path) {
        assert FlaggedAs(rs1, r'.path);
        var r1 :| r1 in rs1 && r1.flags.suspO && r1.path == r'.path;
      }
    }
  }

  lemma PutPrefixOrigins(s: State, n: Prefix, pre: PrefixRec)
    requires n in s.hists
    ensures SameOrigins(s, PutPrefix(s, n, pre))
  {
    assert forall m, r :: r in Rib(s.ribs, m) && r.flags.suspO ==> FlaggedAs(Rib(s.ribs, m), r.path);
  }

  lemma NoteAvoidOrigins(s: State, m: Prefix, peerAs: AsNum, until: Time, n: Prefix)
    ensures SameOrigins(s, NoteAvoid(s, m, peerAs, until, n))
  {
    assert forall m, r :: r in Rib(s.ribs, m) && r.flags.suspO ==> FlaggedAs(Rib(s.ribs, m), r.path);
  }

  lemma SuspectPrefixOrigins(s: State, n: Prefix, m: Prefix, t: Time)
    requires n in s.hists
    ensures SameOrigins(s, SuspectPrefix(s, n, m, t))
  {
    assert forall m, r :: r in Rib(s.ribs, m) && r.flags.suspO ==> FlaggedAs(Rib(s.ribs, m), r.path);
  }

  lemma BlameSuperOrigins(s: State, n: Prefix, m: Prefix, peerAs: AsNum, until: Time)
    ensures SameOrigins(s, BlameSuper(s, n, m, peerAs, until))
  {
    var rs := SetSuspP(Rib(s.ribs, m), peerAs, true);
    SetSuspPKeeps(Rib(s.ribs, m), peerAs, true);
    UpdateNoNewFlags(s.ribs, m, rs);
    var s1 := s.(ribs := s.ribs[m := rs]);
    NoteAvoidOrigins(s1, m, peerAs, until, n);
    SameOriginsTrans(s, s1, NoteAvoid(s1, m, peerAs, until, n));
  }

  lemma UpdatePrefixOrigins(s: State, n: Prefix, super: Option<Prefix>, peerAs: AsNum, path: Path,
                            t: Time, newPeer: bool)
    requires n in s.hists
    ensures SameOrigins(s, UpdatePrefix(s, n, super, peerAs, path, t, newPeer).0)
  {
    hide JudgePrefix, ShouldIgnore, SuspectPrefix, BlameSuper, PutPrefix, SameOrigins;
    var v := JudgePrefix(s, n, super, peerAs, path, t, newPeer);
    if v.Hijack? && super.Some? {
      var s1 := if v.isNew then SuspectPrefix(s, n, super.value, t) else s;
      SuspectPrefixOrigins(s, n, super.value, t);
      PutPrefixOrigins(s, n, PrefixOf(s.hists[n]));
      var until := PrefixOf(s1.hists[n]).ignoreUntil;
      var s2 := BlameSuper(s1, n, super.value, peerAs, until);
      BlameSuperOrigins(s1, n, super.value, peerAs, until);
      PutPrefixOrigins(s2, n, PrefixOf(s2.hists[n]).(lastSeen := t));
      SameOriginsTrans(s1, s2, SeePrefix(s2, n, t));
      if v.isNew {
        SameOriginsTrans(s, s1, SeePrefix(s2, n, t));
      }
    } else {
      PutPrefixOrigins(s, n, PrefixOf(s.hists[n]).(lastSeen := t));
    }
  }

  lemma ReusePrefixOrigins(s: State, n: Prefix, m: Prefix, t: Time)
    ensures SameOrigins(s, ReusePrefix(s, n, m, t))
  {
    var cleared := ClearIgnored(Rib(s.ribs, n));
    forall r' | r' in cleared && r'.flags.suspO ensures FlaggedAs(Rib(s.ribs, n), r'.path) {
      var j :| 0 <= j < |cleared| && cleared[j] == r';
      assert Rib(s.ribs, n)[j] in Rib(s.ribs, n);
    }
    UpdateNoNewFlags(s.ribs, n, cleared);
    var s1 := s.(ribs := s.ribs[n := cleared]);
    assert SameOrigins(s, s1);
    var s2 := ForgiveSuper(s1, m, t);
    if m in s1.hists && s1.hists[m].prefix.Some? {
      var gone := Expired(s1.hists[m].prefix.value.avoid, t);
      ClearSuspPKeeps(Rib(s1.ribs, m), gone);
      UpdateNoNewFlags(s1.ribs, m, ClearSuspP(Rib(s1.ribs, m), gone));
    }
    assert SameOrigins(s1, s2);
    SameOriginsTrans(s, s1, s2);
  }

  lemma SameOriginsTrans(s: State, s1: State, s2: State)
    requires SameOrigins(s, s1) && SameOrigins(s1, s2)
    ensures SameOrigins(s, s2)
  {
    forall n, r | r in Rib(s2.ribs, n) && r.flags.suspO ensures FlaggedAs(Rib(s.ribs, n), r.path) {
      assert FlaggedAs(Rib(s1.ribs, n), r.path);
      var r1 :| r1 in Rib(s1.ribs, n) && r1.flags.suspO && r1.path == r.path;
    }
  }

  lemma ReuseEdgeOrigins(s: State, n: Prefix, t: Time)
    ensures SameOrigins(s, ReuseEdge(s, n, t))
  {
    hide NextExpiry, RouteExpiry, LatestExpiry, LastSequence;
    if n in s.hists {
      var rs := Rib(s.ribs, n);
      var rs' := seq(|rs|, j requires 0 <= j < |rs| => ForgiveEdge(s.edges, rs[j], t));
      forall r' | r' in rs' && r'.flags.suspO ensures FlaggedAs(rs, r'.path) {
        var j :| 0 <= j < |rs'| && rs'[j] == r';
        assert rs[j] in rs;
      }
      UpdateNoNewFlags(s.ribs, n, rs');
    }
  }

  // ---------- Draining ----------

  /** A route of the node is unflagged, or stays flagged because its own origin is still
      suspected, and then an entry for that origin is pending. */
  lemma ForgivenAccounted(s: State, e: Entry, r0: Route, q: seq<Entry>, t: Time)
    requires OriginInv(s, t) && e in s.queue && e.OriginEntry? && e.key <= t
    requires r0 in Rib(s.ribs, e.node)
    requires forall x :: x in s.queue && x != e ==> x in q
    ensures var os := s.hists[e.node].origins; var r := ForgiveOrigin(r0, os, t);
      r.flags.suspO ==> Knows(os, OriginAs(r.path)) && PendingOn(q, e.node)
  {
    var os := s.hists[e.node].origins;
    if ForgiveOrigin(r0, os, t).flags.suspO {
      var o :| o in os && o.asn == OriginAs(r0.path);
      var k := IndexOf(os, OriginAs(r0.path));
      assert k < |os| && os[k] in os && os[k].depref > t;
      assert OriginEntry(os[k].depref, e.node, os[k].asn) in q;
    }
  }

  lemma PendingSurvives(q: seq<Entry>, q': seq<Entry>, e: Entry, n: Prefix)
    requires PendingOn(q, n) && (forall x :: x in q && x != e ==> x in q')
    requires !e.OriginEntry? || e.node != n
    ensures PendingOn(q', n)
  {
    var x :| x in q && x.OriginEntry? && x.node == n;
    assert x in q';
  }

  /** Handling a due origin entry keeps the invariant. */
  lemma ReuseOriginKeeps(s: State, i: nat, t: Time)
    requires i < |s.queue| && s.queue[i].OriginEntry? && s.queue[i].key <= t
    requires OriginInv(s, t)
    ensures OriginInv(ReuseAt(s, i, t), t)
  {
    hide IndexOf, ForgiveOrigin, LastSequence;
    var e := s.queue[i];
    var s' := ReuseAt(s, i, t);
    var os := s.hists[e.node].origins;
    var rs := Rib(s.ribs, e.node);
    var q := Remove(s.queue, i);
    assert s'.hists == s.hists && s'.queue == q && s'.cfg == s.cfg;
    forall n, o | n in s'.hists && o in s'.hists[n].origins && o.depref > t
      ensures OriginEntry(o.depref, n, o.asn) in s'.queue
    {
      assert OriginEntry(o.depref, n, o.asn) in s.queue;
      assert OriginEntry(o.depref, n, o.asn) != e;
    }
    forall n, r | r in Rib(s'.ribs, n) && r.flags.suspO
      ensures n in s'.hists && Knows(s'.hists[n].origins, OriginAs(r.path)) && PendingOn(s'.queue, n)
    {
      if n == e.node {
        var j :| 0 <= j < |rs| && r == ForgiveOrigin(rs[j], os, t);
        ForgivenAccounted(s, e, rs[j], q, t);
      } else {
        assert r in Rib(s.ribs, n);
        PendingSurvives(s.queue, q, e, n);
      }
    }
  }

  /** The assertions of the source in the handler of a due origin entry hold: the node has a
      history, and it knows the origin of every route flagged SUSPICIOUS_O. */
  lemma ReuseOriginAsserts(s: State, e: Entry, t: Time)
    requires OriginInv(s, t) && e in s.queue && e.OriginEntry?
    ensures e.node in s.hists
    ensures forall r :: r in Rib(s.ribs, e.node) && r.flags.suspO ==>
      Knows(s.hists[e.node].origins, OriginAs(r.path))
  {
  }

  lemma ReuseAtKeepsOrigins(s: State, i: nat, t: Time)
    requires i < |s.queue| && s.queue[i].key <= t
    requires OriginInv(s, t)
    ensures OriginInv(ReuseAt(s, i, t), t)
  {
    hide ReuseOrigin, ReusePrefix, ReuseEdge, OriginInv;
    var e := s.queue[i];
    var s1 := s.(queue := Remove(s.queue, i), rqSize := s.rqSize - 1);
    match e
    case OriginEntry(_, _, _) =>
      ReuseOriginKeeps(s, i, t);
    case PrefixEntry(_, n, m) =>
      assert SameOrigins(s, s1);
      ReusePrefixOrigins(s1, n, m, t);
      SameOriginsTrans(s, s1, ReusePrefix(s1, n, m, t));
      FrameOrigins(s, ReusePrefix(s1, n, m, t), t);
    case EdgeEntry(_, n) =>
      assert SameOrigins(s, s1);
      ReuseEdgeOrigins(s1, n, t);
      SameOriginsTrans(s, s1, ReuseEdge(s1, n, t));
      FrameOrigins(s, ReuseEdge(s1, n, t), t);
  }

  lemma {:induction false} DrainKeepsOrigins(s: State, t: Time)
    requires s.rqSize == |s.queue| && OriginInv(s, t)
    ensures OriginInv(Drain(s, t), t)
    decreases Due(s.queue, t)
  {
    if s.rqSize > 0 {
      var i := MinIndex(s.queue);
      if t < s.queue[i].key {
        var q := Remove(s.queue, i) + [s.queue[i]];
        assert s.queue[i] in q;
        FrameOrigins(s, Drain(s, t), t);
      } else {
        ReuseAtQueue(s, i, t);
        ReuseAtKeepsOrigins(s, i, t);
        DrainKeepsOrigins(ReuseAt(s, i, t), t);
      }
    }
  }

  // ---------- Announcing ----------

  lemma ReplaceMembers(os: seq<Origin>, i: nat, o: Origin, x: Origin)
    requires DistinctAsns(os) && i < |os| && o.asn == os[i].asn
    ensures DistinctAsns(os[i := o]) && o in os[i := o]
    ensures x.asn != o.asn ==> (x in os[i := o] <==> x in os)
    ensures x.asn == o.asn && x in os ==> x == os[i]
  {
    var os' := os[i := o];
    assert os'[i] == o;
    if x in os {
      var j :| 0 <= j < |os| && os[j] == x;
      assert j != i ==> os'[j] == x;
    }
    if x in os' {
      var j :| 0 <= j < |os'| && os'[j] == x;
      assert j != i ==> os[j] == x;
    }
  }

  /** What announcing origin a does to a list: every other record is untouched, a's own record
      is o, seen at t, and a deadline of o was there before unless a suspicion starts now. */
  lemma TouchOriginSpec(cfg: Config, os: seq<Origin>, a: AsNum, t: Time, newPeer: bool) returns (o: Origin)
    requires DistinctAsns(os)
    ensures var r := TouchOrigin(cfg, os, a, t, newPeer);
      && DistinctAsns(r.origins)
      && (forall x: Origin :: x.asn != a ==> (x in r.origins <==> x in os))
      && o in r.origins && o.asn == a && o.lastSeen == t
      && (r.starts ==> r.suspicious && o.depref == t + cfg.originSus)
      && (r.suspicious && 0 < cfg.originSus ==> o.depref > t)
      && (!r.starts && o.depref > 0 ==> exists p :: p in os && p.asn == a && p.depref == o.depref)
      && (forall p :: p in os && p.asn == a && p.depref > t ==> !r.starts && o.depref == p.depref)
  {
    hide DistinctAsns;
    var i0 := IndexOf(os, a);
    var os1 := if i0 == |os| then [Origin(a, 0, 0)] + os else os;
    var i := if i0 == |os| then 0 else i0;
    if i0 == |os| {
      NewOriginDistinct(os, a);
    }
    var r := TouchOrigin(cfg, os, a, t, newPeer);
    o := r.origins[i];
    ReplaceMembers(os1, i, o, o);
    forall x: Origin | x.asn != a ensures x in r.origins <==> x in os {
      ReplaceMembers(os1, i, o, x);
    }
    forall p | p in os && p.asn == a ensures i0 < |os| && p == os[i0] {
      assert p in os1;
      ReplaceMembers(os1, i, o, p);
    }
    if i0 < |os| {
      assert os[i0] in os;
    }
  }

  lemma NewOriginDistinct(os: seq<Origin>, a: AsNum)
    requires DistinctAsns(os) && IndexOf(os, a) == |os|
    ensures DistinctAsns([Origin(a, 0, 0)] + os)
  {
  }

  /** The new list backs every entry the old list backed. */
  lemma TouchKeepsBacking(cfg: Config, os: seq<Origin>, a: AsNum, t: Time, newPeer: bool, e: Entry)
    requires DistinctAsns(os) && (forall o :: o in os ==> o.lastSeen <= t)
    requires e.OriginEntry? && e.key > t && Backs(cfg, os, e.asn, e.key)
    ensures Backs(cfg, TouchOrigin(cfg, os, a, t, newPeer).origins, e.asn, e.key)
  {
    var o := TouchOriginSpec(cfg, os, a, t, newPeer);
    var r := TouchOrigin(cfg, os, a, t, newPeer);
    var p :| p in os && p.asn == e.asn && p.depref == e.key && e.key <= p.lastSeen + cfg.originSus;
    if e.asn == a {
      assert o in r.origins && o.depref == p.depref;
    } else {
      assert p in r.origins;
    }
  }

  lemma TouchKeepsKnown(cfg: Config, os: seq<Origin>, a: AsNum, t: Time, newPeer: bool, b: AsNum)
    requires DistinctAsns(os) && Knows(os, b)
    ensures Knows(TouchOrigin(cfg, os, a, t, newPeer).origins, b)
  {
    var o := TouchOriginSpec(cfg, os, a, t, newPeer);
    var p :| p in os && p.asn == b;
    assert p.asn == a || p in TouchOrigin(cfg, os, a, t, newPeer).origins;
  }

  lemma UpdateOriginBacked(s: State, n: Prefix, path: Path, t: Time, newPeer: bool)
    requires s.cfg.Sane() && OriginInv(s, t) && AllLater(s.queue, t) && n in s.hists
    ensures EntriesBacked(UpdateOrigin(s, n, path, t, newPeer).0)
  {
    hide TouchOrigin, LastSequence;
    var a := OriginAs(path);
    var os := s.hists[n].origins;
    var s' := UpdateOrigin(s, n, path, t, newPeer).0;
    var o := TouchOriginSpec(s.cfg, os, a, t, newPeer);
    forall e | e in s'.queue && e.OriginEntry?
      ensures e.node in s'.hists && Backs(s'.cfg, s'.hists[e.node].origins, e.asn, e.key)
    {
      if e in s.queue {
        if e.node == n {
          TouchKeepsBacking(s.cfg, os, a, t, newPeer, e);
        }
      } else {
        assert e == OriginEntry(t + s.cfg.originSus, n, a) && o in s'.hists[n].origins;
      }
    }
  }

  lemma UpdateOriginPending(s: State, n: Prefix, path: Path, t: Time, newPeer: bool)
    requires s.cfg.Sane() && OriginInv(s, t) && AllLater(s.queue, t) && n in s.hists
    ensures SuspicionsPending(UpdateOrigin(s, n, path, t, newPeer).0, t)
  {
    hide TouchOrigin, LastSequence;
    var a := OriginAs(path);
    var os := s.hists[n].origins;
    var s' := UpdateOrigin(s, n, path, t, newPeer).0;
    var o := TouchOriginSpec(s.cfg, os, a, t, newPeer);
    var r := TouchOrigin(s.cfg, os, a, t, newPeer);
    forall m, x | m in s'.hists && x in s'.hists[m].origins && x.depref > t
      ensures OriginEntry(x.depref, m, x.asn) in s'.queue
    {
      if m != n || x.asn != a {
        assert m in s.hists && x in s.hists[m].origins;
        assert OriginEntry(x.depref, m, x.asn) in s.queue;
      } else {
        assert x == o;
        if !r.starts {
          var p :| p in os && p.asn == a && p.depref == o.depref;
          assert OriginEntry(p.depref, n, a) in s.queue;
        }
      }
    }
  }

  lemma UpdateOriginFlags(s: State, n: Prefix, path: Path, t: Time, newPeer: bool)
    requires s.cfg.Sane() && OriginInv(s, t) && n in s.hists
    ensures FlagsAccounted(UpdateOrigin(s, n, path, t, newPeer).0)
  {
    hide TouchOrigin, LastSequence;
    var s' := UpdateOrigin(s, n, path, t, newPeer).0;
    forall m, x | x in Rib(s'.ribs, m) && x.flags.suspO
      ensures m in s'.hists && Knows(s'.hists[m].origins, OriginAs(x.path)) && PendingOn(s'.queue, m)
    {
      assert x in Rib(s.ribs, m);
      if m == n {
        TouchKeepsKnown(s.cfg, s.hists[n].origins, OriginAs(path), t, newPeer, OriginAs(x.path));
      }
      PendingSurvives(s.queue, s'.queue, EdgeEntry(0, []), m);
    }
  }

  lemma UpdateOriginSeen(s: State, n: Prefix, path: Path, t: Time, newPeer: bool)
    requires s.cfg.Sane() && OriginInv(s, t) && n in s.hists
    ensures var s' := UpdateOrigin(s, n, path, t, newPeer).0;
      && SeenBy(s', t)
      && (forall m :: m in s'.hists ==> DistinctAsns(s'.hists[m].origins))
      && SeenNow(s'.hists[n].origins, OriginAs(path), t)
  {
    hide TouchOrigin, LastSequence;
    var a := OriginAs(path);
    var os := s.hists[n].origins;
    var o := TouchOriginSpec(s.cfg, os, a, t, newPeer);
    var os' := TouchOrigin(s.cfg, os, a, t, newPeer).origins;
    var s' := UpdateOrigin(s, n, path, t, newPeer).0;
    assert s'.hists[n].origins == os';
    forall m, x | m in s'.hists && x in s'.hists[m].origins ensures x.lastSeen <= t {
      if m != n || x.asn != a {
        assert m in s.hists && x in s.hists[m].origins;
      } else {
        assert x == o;
      }
    }
  }

  lemma UpdateOriginEntry(s: State, n: Prefix, path: Path, t: Time, newPeer: bool)
    requires s.cfg.Sane() && OriginInv(s, t) && AllLater(s.queue, t) && n in s.hists
    ensures var (s', flag) := UpdateOrigin(s, n, path, t, newPeer);
      && AllLater(s'.queue, t)
      && (flag || PendingOn(s.queue, n) ==> PendingOn(s'.queue, n))
  {
    hide TouchOrigin, LastSequence;
    var a := OriginAs(path);
    var os := s.hists[n].origins;
    var (s', flag) := UpdateOrigin(s, n, path, t, newPeer);
    var o := TouchOriginSpec(s.cfg, os, a, t, newPeer);
    if flag {
      UpdateOriginPending(s, n, path, t, newPeer);
      assert o in s'.hists[n].origins && OriginEntry(o.depref, n, a) in s'.queue;
    }
    if PendingOn(s.queue, n) {
      PendingSurvives(s.queue, s'.queue, EdgeEntry(0, []), n);
    }
  }

  lemma AssembleOriginInv(s: State, t: Time)
    requires forall n :: n in s.hists ==> DistinctAsns(s.hists[n].origins)
    requires SeenBy(s, t) && EntriesBacked(s) && SuspicionsPending(s, t) && FlagsAccounted(s)
    ensures OriginInv(s, t)
  {
  }

  /** Announcing an origin keeps the invariant; the origin is on record as seen now, and a flagged
      announcement has an entry pending on its node. */
  lemma UpdateOriginKeeps(s: State, n: Prefix, path: Path, t: Time, newPeer: bool)
    requires s.cfg.Sane() && OriginInv(s, t) && AllLater(s.queue, t) && n in s.hists
    ensures var (s', flag) := UpdateOrigin(s, n, path, t, newPeer);
      && OriginInv(s', t) && AllLater(s'.queue, t)
      && SeenNow(s'.hists[n].origins, OriginAs(path), t)
      && (flag || PendingOn(s.queue, n) ==> PendingOn(s'.queue, n))
  {
    UpdateOriginBacked(s, n, path, t, newPeer);
    UpdateOriginPending(s, n, path, t, newPeer);
    UpdateOriginFlags(s, n, path, t, newPeer);
    UpdateOriginSeen(s, n, path, t, newPeer);
    UpdateOriginEntry(s, n, path, t, newPeer);
    AssembleOriginInv(UpdateOrigin(s, n, path, t, newPeer).0, t);
  }

  ghost predicate SeenNow(os: seq<Origin>, a: AsNum, t: Time) {
    exists o :: o in os && o.asn == a && o.lastSeen == t
  }

  // ---------- Collecting ----------

  /** The collected list holds exactly the surviving records. */
  lemma {:induction false} GcOriginsMembers(cfg: Config, rs: seq<Route>, lastgc: Time, os: seq<Origin>, t: Time, x: Origin)
    ensures x in GcOrigins(cfg, rs, lastgc, os, t) <==>
            exists o :: o in os && GcOrigin(cfg, rs, lastgc, o, t) == Some(x)
  {
    if os != [] {
      var r := GcOrigin(cfg, rs, lastgc, os[0], t);
      var rest := GcOrigins(cfg, rs, lastgc, os[1..], t);
      GcOriginsMembers(cfg, rs, lastgc, os[1..], t, x);
      if x in rest {
        var o :| o in os[1..] && GcOrigin(cfg, rs, lastgc, o, t) == Some(x);
        assert o in os;
      }
      if exists o :: o in os && GcOrigin(cfg, rs, lastgc, o, t) == Some(x) {
        var o :| o in os && GcOrigin(cfg, rs, lastgc, o, t) == Some(x);
        assert o == os[0] || o in os[1..];
      }
    }
  }

  lemma {:induction false} GcOriginsDistinct(cfg: Config, rs: seq<Route>, lastgc: Time, os: seq<Origin>, t: Time)
    requires DistinctAsns(os)
    ensures DistinctAsns(GcOrigins(cfg, rs, lastgc, os, t))
  {
    if os != [] {
      var rest := GcOrigins(cfg, rs, lastgc, os[1..], t);
      GcOriginsDistinct(cfg, rs, lastgc, os[1..], t);
      forall j | 0 <= j < |rest| ensures rest[j].asn != os[0].asn {
        GcOriginsMembers(cfg, rs, lastgc, os[1..], t, rest[j]);
        var o :| o in os[1..] && GcOrigin(cfg, rs, lastgc, o, t) == Some(rest[j]);
      }
    }
  }

  /** A record still suspected, or seen at t, survives collection. */
  lemma GcOriginSurvives(s: State, n: Prefix, o: Origin, t: Time)
    requires s.cfg.Sane() && n in s.hists && o in s.hists[n].origins && s.lastgc <= t
    requires o.lastSeen <= t
    requires (o.depref > t && o.depref <= o.lastSeen + s.cfg.originSus) || o.lastSeen == t || InRib(Rib(s.ribs, n), o.asn)
    ensures var r := GcOrigin(s.cfg, Rib(s.ribs, n), s.lastgc, o, t);
      r.Some? && r.value in GcOrigins(s.cfg, Rib(s.ribs, n), s.lastgc, s.hists[n].origins, t)
      && r.value.asn == o.asn && o.lastSeen <= r.value.lastSeen <= t
      && (o.depref > t ==> r.value.depref == o.depref)
  {
    GcOriginsMembers(s.cfg, Rib(s.ribs, n), s.lastgc, s.hists[n].origins, t,
                     GcOrigin(s.cfg, Rib(s.ribs, n), s.lastgc, o, t).value);
  }

  /** Collecting node n touches only its own records, and drops its history only when none is left. */
  lemma GcNodeOrigins(s: State, n: Prefix, t: Time)
    ensures var s' := GcNode(s, n, t);
      && s'.cfg == s.cfg && s'.queue == s.queue && s'.ribs == s.ribs
      && (forall m :: m != n ==> (m in s'.hists <==> m in s.hists) && (m in s.hists ==> s'.hists[m] == s.hists[m]))
      && (n in s'.hists ==> n in s.hists)
      && (n in s.hists ==>
            var os := GcOrigins(s.cfg, Rib(s.ribs, n), s.lastgc, s.hists[n].origins, t);
            (n !in s'.hists ==> os == []) && (n in s'.hists ==> s'.hists[n].origins == os))
  {
  }

  lemma GcNodeBacked(s: State, n: Prefix, t: Time)
    requires s.cfg.Sane() && OriginInv(s, t) && AllLater(s.queue, t) && s.lastgc <= t
    ensures EntriesBacked(GcNode(s, n, t))
  {
    hide GcNode, GcOrigins, GcOrigin, InRib;
    GcNodeOrigins(s, n, t);
    var s' := GcNode(s, n, t);
    forall e | e in s'.queue && e.OriginEntry?
      ensures e.node in s'.hists && Backs(s'.cfg, s'.hists[e.node].origins, e.asn, e.key)
    {
      assert e in s.queue && Backs(s.cfg, s.hists[e.node].origins, e.asn, e.key);
      if e.node == n {
        var o :| o in s.hists[n].origins && o.asn == e.asn && o.depref == e.key && e.key <= o.lastSeen + s.cfg.originSus;
        GcOriginSurvives(s, n, o, t);
      }
    }
  }

  lemma GcNodeFlags(s: State, n: Prefix, t: Time)
    requires s.cfg.Sane() && OriginInv(s, t) && s.lastgc <= t
    ensures FlagsAccounted(GcNode(s, n, t))
  {
    hide GcNode, GcOrigins, GcOrigin, LastSequence;
    GcNodeOrigins(s, n, t);
    var s' := GcNode(s, n, t);
    forall m, r | r in Rib(s'.ribs, m) && r.flags.suspO
      ensures m in s'.hists && Knows(s'.hists[m].origins, OriginAs(r.path)) && PendingOn(s'.queue, m)
    {
      if m == n {
        var o :| o in s.hists[n].origins && o.asn == OriginAs(r.path);
        var j :| 0 <= j < |Rib(s.ribs, n)| && Rib(s.ribs, n)[j] == r;
        GcOriginSurvives(s, n, o, t);
      }
    }
  }

  lemma GcNodeRecords(s: State, n: Prefix, t: Time)
    requires OriginInv(s, t)
    ensures var s' := GcNode(s, n, t);
      && SeenBy(s', t) && SuspicionsPending(s', t)
      && (forall m :: m in s'.hists ==> DistinctAsns(s'.hists[m].origins))
  {
    hide GcNode, GcOrigins, InRib;
    GcNodeOrigins(s, n, t);
    var s' := GcNode(s, n, t);
    if n in s.hists {
      GcOriginsDistinct(s.cfg, Rib(s.ribs, n), s.lastgc, s.hists[n].origins, t);
    }
    forall m, x | m in s'.hists && x in s'.hists[m].origins
      ensures x.lastSeen <= t && (x.depref > t ==> OriginEntry(x.depref, m, x.asn) in s'.queue)
    {
      if m == n {
        GcOriginsMembers(s.cfg, Rib(s.ribs, n), s.lastgc, s.hists[n].origins, t, x);
        var o :| o in s.hists[n].origins && GcOrigin(s.cfg, Rib(s.ribs, n), s.lastgc, o, t) == Some(x);
      } else {
        assert x in s.hists[m].origins;
      }
    }
  }

  lemma GcNodeKeeps(s: State, n: Prefix, t: Time)
    requires s.cfg.Sane() && OriginInv(s, t) && AllLater(s.queue, t) && s.lastgc <= t
    ensures OriginInv(GcNode(s, n, t), t)
  {
    GcNodeBacked(s, n, t);
    GcNodeFlags(s, n, t);
    GcNodeRecords(s, n, t);
    AssembleOriginInv(GcNode(s, n, t), t);
  }

  lemma GcNodeSeenNow(s: State, n: Prefix, t: Time, m: Prefix, a: AsNum)
    requires s.cfg.Sane() && OriginInv(s, t) && s.lastgc <= t
    requires m in s.hists && SeenNow(s.hists[m].origins, a, t)
    ensures var s' := GcNode(s, n, t); m in s'.hists && SeenNow(s'.hists[m].origins, a, t)
  {
    if m == n {
      var o :| o in s.hists[n].origins && o.asn == a && o.lastSeen == t;
      GcOriginSurvives(s, n, o, t);
    }
  }

  lemma GcNodeFrame(s: State, n: Prefix, t: Time)
    ensures var s' := GcNode(s, n, t);
      && s'.cfg == s.cfg && s'.queue == s.queue && s'.ribs == s.ribs
      && s'.lastgc == s.lastgc && s'.rqSize == s.rqSize && s'.order == s.order
      && s'.edges == s.edges && s'.peers == s.peers
  {
  }

  lemma {:induction false} GcNodesKeepOrigins(s: State, ns: seq<Prefix>, t: Time, m: Prefix, a: AsNum)
    requires s.cfg.Sane() && OriginInv(s, t) && AllLater(s.queue, t) && s.lastgc <= t
    requires m in s.hists && SeenNow(s.hists[m].origins, a, t)
    ensures var s' := GcNodes(s, ns, t);
      && OriginInv(s', t) && s'.queue == s.queue
      && m in s'.hists && SeenNow(s'.hists[m].origins, a, t)
    decreases |ns|
  {
    if ns != [] {
      GcNodeKeeps(s, ns[0], t);
      GcNodeSeenNow(s, ns[0], t, m, a);
      GcNodeFrame(s, ns[0], t);
      GcNodesKeepOrigins(GcNode(s, ns[0], t), ns[1..], t, m, a);
    }
  }

  /** Collection at t keeps the invariant, and keeps the origin announced at t. */
  lemma GcKeepsOrigins(s: State, live: set<Edge>, t: Time, m: Prefix, a: AsNum)
    requires s.cfg.Sane() && OriginInv(s, t) && AllLater(s.queue, t) && s.lastgc <= t
    requires m in s.hists && SeenNow(s.hists[m].origins, a, t)
    ensures var s' := Gc(s, live, t);
      && OriginInv(s', t) && s'.queue == s.queue
      && m in s'.hists && SeenNow(s'.hists[m].origins, a, t)
  {
    hide GcNodes, GcEdges, OriginAs;
    GcNodesKeepOrigins(s, s.order, t, m, a);
    var s1 := GcNodes(s, s.order, t);
    AssembleOriginInv(Gc(s, live, t), t);
  }
}
