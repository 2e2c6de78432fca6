/**
 When exactly the flags of a route go again: over one handler, over a whole drain of the queue, and
 after a route selection.
 */
module PgbgpForgiveness {
  import opened Common
  import opened PgbgpModel
  import opened PgbgpOrigins
  import opened PgbgpEdges
  import opened PgbgpVerdicts

  // ---------- One handler ----------

  predicate Names(av: seq<Avoid>, a: AsNum) { exists i :: 0 <= i < |av| && av[i].peerAs == a }

  /** Clearing by a list of notes: a route loses SUSPICIOUS_P exactly when it is the first one from
      a neighbour the notes name. */
  lemma {:induction false} ClearSuspPAt(rs: seq<Route>, av: seq<Avoid>, j: nat)
    requires j < |rs|
    ensures |ClearSuspP(rs, av)| == |rs| && ClearSuspP(rs, av)[j] ==
      if Names(av, rs[j].peerAs) && IsFirst(rs, j) then rs[j].(flags := rs[j].flags.(suspP := false)) else rs[j]
    decreases |av|
  {
    if av != [] {
      hide SetSuspP;
      var rs1 := SetSuspP(rs, av[0].peerAs, false);
      SameLength(rs, av[0].peerAs, false);
      forall i | 0 <= i < |rs| ensures rs1[i].peerAs == rs[i].peerAs {
        SetSuspPAt(rs, av[0].peerAs, false, i);
      }
      SetSuspPAt(rs, av[0].peerAs, false, j);
      ClearSuspPAt(rs1, av[1..], j);
      NamesSplit(av, rs[j].peerAs);
    }
  }

  lemma SameLength(rs: seq<Route>, a: AsNum, on: bool)
    ensures |SetSuspP(rs, a, on)| == |rs|
  {
  }

  lemma NamesSplit(av: seq<Avoid>, a: AsNum)
    requires av != []
    ensures Names(av, a) <==> av[0].peerAs == a || Names(av[1..], a)
  {
    if Names(av, a) {
      var i :| 0 <= i < |av| && av[i].peerAs == a;
      if i > 0 { assert av[1..][i - 1].peerAs == a; }
    }
    if Names(av[1..], a) {
      var i :| 0 <= i < |av[1..]| && av[1..][i].peerAs == a;
      assert av[i + 1].peerAs == a;
    }
  }

  predicate Lapsed(av: seq<Avoid>, a: AsNum, t: Time) {
    exists i :: 0 <= i < |av| && av[i].peerAs == a && av[i].until <= t
  }

  lemma {:induction false} ExpiredNames(av: seq<Avoid>, a: AsNum, t: Time)
    ensures Names(Expired(av, t), a) <==> Lapsed(av, a, t)
  {
    if av != [] {
      ExpiredNames(av[1..], a, t);
      var rest := Expired(av[1..], t);
      if av[0].until <= t {
        assert Expired(av, t) == [av[0]] + rest && ([av[0]] + rest)[1..] == rest;
        NamesSplit([av[0]] + rest, a);
      } else {
        assert Expired(av, t) == rest;
      }
      LapsedSplit(av, a, t);
    }
  }

  lemma LapsedSplit(av: seq<Avoid>, a: AsNum, t: Time)
    requires av != []
    ensures Lapsed(av, a, t) <==> (av[0].peerAs == a && av[0].until <= t) || Lapsed(av[1..], a, t)
  {
    if Lapsed(av, a, t) {
      var i :| 0 <= i < |av| && av[i].peerAs == a && av[i].until <= t;
      if i > 0 { assert av[1..][i - 1] == av[i]; }
    }
    if Lapsed(av[1..], a, t) {
      var i :| 0 <= i < |av[1..]| && av[1..][i].peerAs == a && av[1..][i].until <= t;
      assert av[i + 1] == av[1..][i];
    }
  }

  predicate LapsedAt(s: State, m: Prefix, a: AsNum, t: Time) {
    m in s.hists && s.hists[m].prefix.Some? && Lapsed(s.hists[m].prefix.value.avoid, a, t)
  }

  /** No lapsed note is left. */
  lemma {:induction false} UnexpiredStands(av: seq<Avoid>, a: AsNum, t: Time)
    ensures !Lapsed(Unexpired(av, t), a, t)
  {
    if av != [] {
      UnexpiredStands(av[1..], a, t);
      var rest := Unexpired(av[1..], t);
      if av[0].until > t {
        assert Unexpired(av, t) == [av[0]] + rest && ([av[0]] + rest)[1..] == rest;
        LapsedSplit([av[0]] + rest, a, t);
      } else {
        assert Unexpired(av, t) == rest;
      }
    }
  }

  /** A route of the super-prefix loses SUSPICIOUS_P exactly when a note about its neighbour has
      lapsed and no earlier route comes from that neighbour; a route of the sub-prefix loses
      IGNORED_P; nothing else about any route changes. */
  lemma ReusePrefixRoute(s: State, n: Prefix, m: Prefix, t: Time, k: Prefix, j: nat)
    requires j < |Rib(s.ribs, k)|
    ensures var r := Rib(s.ribs, k)[j]; var rs' := Rib(ReusePrefix(s, n, m, t).ribs, k);
      var forgiven := k == m && LapsedAt(s, m, r.peerAs, t) && IsFirst(Rib(s.ribs, m), j);
      && |rs'| == |Rib(s.ribs, k)|
      && rs'[j] == r.(flags := r.flags.(suspP := r.flags.suspP && !forgiven, ignP := r.flags.ignP && k != n))
  {
    hide ForgiveSuper, ClearIgnored, LapsedAt, IsFirst;
    var s1 := s.(ribs := s.ribs[n := ClearIgnored(Rib(s.ribs, n))]);
    IgnoredCleared(Rib(s.ribs, n));
    ForgiveSuperRoute(s1, m, t, k, j);
    if k == m {
      FirstByNeighbour(Rib(s.ribs, m), Rib(s1.ribs, m), j);
      assert LapsedAt(s1, m, Rib(s.ribs, m)[j].peerAs, t) == LapsedAt(s, m, Rib(s.ribs, m)[j].peerAs, t) by {
        SameLapsed(s, s1, m, Rib(s.ribs, m)[j].peerAs, t);
      }
    }
  }

  lemma IgnoredCleared(rs: seq<Route>)
    ensures |ClearIgnored(rs)| == |rs|
    ensures forall i :: 0 <= i < |rs| ==> ClearIgnored(rs)[i] == rs[i].(flags := rs[i].flags.(ignP := false))
  {
  }

  lemma SameLapsed(s: State, s': State, m: Prefix, a: AsNum, t: Time)
    requires s'.hists == s.hists
    ensures LapsedAt(s', m, a, t) == LapsedAt(s, m, a, t)
  {
  }

  lemma ForgiveSuperRoute(s: State, m: Prefix, t: Time, k: Prefix, j: nat)
    requires j < |Rib(s.ribs, k)|
    ensures var r := Rib(s.ribs, k)[j]; var rs' := Rib(ForgiveSuper(s, m, t).ribs, k);
      var forgiven := k == m && LapsedAt(s, m, r.peerAs, t) && IsFirst(Rib(s.ribs, m), j);
      |rs'| == |Rib(s.ribs, k)| && rs'[j] == r.(flags := r.flags.(suspP := r.flags.suspP && !forgiven))
  {
    hide ClearSuspP, Expired, Unexpired, UnlockSubs, Names, Lapsed, IsFirst;
    if k == m && m in s.hists && s.hists[m].prefix.Some? {
      var av := s.hists[m].prefix.value.avoid;
      ClearSuspPAt(Rib(s.ribs, m), Expired(av, t), j);
      ExpiredNames(av, Rib(s.ribs, m)[j].peerAs, t);
    }
  }

  lemma FirstByNeighbour(rs: seq<Route>, rs': seq<Route>, j: nat)
    requires |rs'| == |rs| && (forall i :: 0 <= i < |rs| ==> rs'[i].peerAs == rs[i].peerAs) && j < |rs|
    ensures IsFirst(rs', j) == IsFirst(rs, j)
  {
  }

  lemma ReusePrefixNotes(s: State, n: Prefix, m: Prefix, t: Time, k: Prefix, a: AsNum)
    ensures LapsedAt(ReusePrefix(s, n, m, t), k, a, t) <==> LapsedAt(s, k, a, t) && k != m
  {
    hide ClearSuspP, ClearIgnored, Expired, Unexpired, UnlockSubs, Bump, Lapsed;
    if m in s.hists && s.hists[m].prefix.Some? {
      UnexpiredStands(s.hists[m].prefix.value.avoid, a, t);
    }
  }

  // ---------- One entry ----------

  predicate ForSuper(e: Entry, m: Prefix) { e.PrefixEntry? && e.super == m }

  predicate ForNode(e: Entry, n: Prefix) { e.PrefixEntry? && e.node == n }

  lemma ReuseOriginRoute(s: State, n: Prefix, t: Time, k: Prefix, j: nat)
    requires j < |Rib(s.ribs, k)|
    ensures var r := Rib(s.ribs, k)[j]; var rs' := Rib(ReuseOrigin(s, n, t).ribs, k);
      |rs'| == |Rib(s.ribs, k)| && rs'[j].(flags := r.flags) == r
      && rs'[j].flags.suspP == r.flags.suspP && rs'[j].flags.ignP == r.flags.ignP
  {
    hide IndexOf, OriginAs, Bump;
  }

  lemma ForgiveEdgeKeeps(edges: map<Edge, EdgeRec>, r: Route, t: Time)
    ensures var r' := ForgiveEdge(edges, r, t);
      && r'.(flags := r.flags) == r && r'.flags.suspO == r.flags.suspO
      && r'.flags.suspP == r.flags.suspP && r'.flags.ignP == r.flags.ignP
  {
    hide RouteExpiry;
  }

  lemma ReuseEdgeRoute(s: State, n: Prefix, t: Time, k: Prefix, j: nat)
    requires j < |Rib(s.ribs, k)|
    ensures var r := Rib(s.ribs, k)[j]; var rs' := Rib(ReuseEdge(s, n, t).ribs, k);
      |rs'| == |Rib(s.ribs, k)| && rs'[j].(flags := r.flags) == r
      && rs'[j].flags.suspO == r.flags.suspO
      && rs'[j].flags.suspP == r.flags.suspP && rs'[j].flags.ignP == r.flags.ignP
  {
    hide ForgiveEdge, NextExpiry, Bump;
    ForgiveEdgeKeeps(s.edges, Rib(s.ribs, k)[j], t);
  }

  lemma ReuseAtRoute(s: State, i: nat, t: Time, k: Prefix, j: nat)
    requires i < |s.queue| && j < |Rib(s.ribs, k)|
    ensures var e := s.queue[i]; var r := Rib(s.ribs, k)[j]; var rs' := Rib(ReuseAt(s, i, t).ribs, k);
      var forgiven := ForSuper(e, k) && LapsedAt(s, k, r.peerAs, t) && IsFirst(Rib(s.ribs, k), j);
      && |rs'| == |Rib(s.ribs, k)| && rs'[j].peerAs == r.peerAs
      && (rs'[j].flags.suspP <==> r.flags.suspP && !forgiven)
      && (rs'[j].flags.ignP <==> r.flags.ignP && !ForNode(e, k))
  {
    hide ReuseOrigin, ReusePrefix, ReuseEdge, IsFirst, Lapsed;
    var s1 := s.(queue := Remove(s.queue, i), rqSize := s.rqSize - 1);
    match s.queue[i]
    case OriginEntry(_, n, _) => ReuseOriginRoute(s1, n, t, k, j);
    case PrefixEntry(_, n, m) => ReusePrefixRoute(s1, n, m, t, k, j);
    case EdgeEntry(_, n) => ReuseEdgeRoute(s1, n, t, k, j);
  }

  lemma ReuseAtNotes(s: State, i: nat, t: Time, k: Prefix, a: AsNum)
    requires i < |s.queue|
    ensures LapsedAt(ReuseAt(s, i, t), k, a, t) <==> LapsedAt(s, k, a, t) && !ForSuper(s.queue[i], k)
  {
    hide ReusePrefix, Lapsed, ForgiveEdge, NextExpiry, ForgiveOrigin, Bump;
    var s1 := s.(queue := Remove(s.queue, i), rqSize := s.rqSize - 1);
    if s.queue[i].PrefixEntry? {
      ReusePrefixNotes(s1, s.queue[i].node, s.queue[i].super, t, k, a);
    }
  }

  lemma ReuseAtOthers(s: State, i: nat, t: Time, x: Entry)
    requires i < |s.queue| && x.PrefixEntry?
    ensures x in s.queue <==> x == s.queue[i] || x in ReuseAt(s, i, t).queue
  {
    hide ReusePrefix, ForgiveEdge, NextExpiry, ForgiveOrigin, Bump;
    assert x in Remove(s.queue, i) ==> x in s.queue;
  }

  // ---------- A drain ----------

  /** An entry due at t names m as the super-prefix. */
  ghost predicate DueSuper(q: seq<Entry>, m: Prefix, t: Time) {
    exists e :: e in q && ForSuper(e, m) && e.key <= t
  }

  /** An entry due at t is that of sub-prefix n. */
  ghost predicate DueNode(q: seq<Entry>, n: Prefix, t: Time) {
    exists e :: e in q && ForNode(e, n) && e.key <= t
  }

  lemma DueSplit(s: State, i: nat, t: Time, k: Prefix)
    requires i < |s.queue| && s.queue[i].key <= t
    ensures DueSuper(s.queue, k, t) <==> ForSuper(s.queue[i], k) || DueSuper(ReuseAt(s, i, t).queue, k, t)
    ensures DueNode(s.queue, k, t) <==> ForNode(s.queue[i], k) || DueNode(ReuseAt(s, i, t).queue, k, t)
  {
    hide ReuseAt;
    forall x: Entry | x.PrefixEntry? ensures x in s.queue <==> x == s.queue[i] || x in ReuseAt(s, i, t).queue {
      ReuseAtOthers(s, i, t, x);
    }
    assert s.queue[i] in s.queue;
  }

  lemma NoneDue(q: seq<Entry>, k: Prefix, t: Time)
    requires forall i :: 0 <= i < |q| ==> t < q[i].key
    ensures !DueSuper(q, k, t) && !DueNode(q, k, t)
  {
    forall e | e in q ensures t < e.key {
      var i :| 0 <= i < |q| && q[i] == e;
    }
  }

  /** Main result: over a whole drain a route of m loses SUSPICIOUS_P exactly when it is the first
      from its neighbour, a note about that neighbour on m has lapsed, and some due entry names m as
      its super-prefix. Without such an entry the lapsed note and the flag stay. */
  lemma {:induction false} DrainForgives(s: State, t: Time, m: Prefix, j: nat)
    requires s.rqSize == |s.queue| && j < |Rib(s.ribs, m)|
    ensures var rs := Rib(s.ribs, m); var rs' := Rib(Drain(s, t).ribs, m);
      var forgiven := IsFirst(rs, j) && LapsedAt(s, m, rs[j].peerAs, t) && DueSuper(s.queue, m, t);
      && |rs'| == |rs| && rs'[j].peerAs == rs[j].peerAs
      && (rs'[j].flags.suspP <==> rs[j].flags.suspP && !forgiven)
    decreases Due(s.queue, t)
  {
    hide ReuseAt, LapsedAt, IsFirst, DueSuper, DueNode;
    if s.rqSize > 0 {
      var i := MinIndex(s.queue);
      if t < s.queue[i].key {
        NoneDue(s.queue, m, t);
      } else {
        var s1 := ReuseAt(s, i, t);
        ReuseAtQueue(s, i, t);
        DueSplit(s, i, t, m);
        ReuseAtRoute(s, i, t, m, j);
        ReuseAtNotes(s, i, t, m, Rib(s.ribs, m)[j].peerAs);
        SameFirst(s, i, t, m, j);
        DrainForgives(s1, t, m, j);
      }
    } else {
      NoneDue(s.queue, m, t);
    }
  }

  lemma SameFirst(s: State, i: nat, t: Time, m: Prefix, j: nat)
    requires i < |s.queue| && j < |Rib(s.ribs, m)|
    ensures |Rib(ReuseAt(s, i, t).ribs, m)| == |Rib(s.ribs, m)|
    ensures IsFirst(Rib(ReuseAt(s, i, t).ribs, m), j) == IsFirst(Rib(s.ribs, m), j)
  {
    hide ReuseAt, IsFirst, LapsedAt;
    var rs, rs' := Rib(s.ribs, m), Rib(ReuseAt(s, i, t).ribs, m);
    ReuseAtRoute(s, i, t, m, j);
    forall x | 0 <= x < |rs| ensures |rs'| == |rs| && rs'[x].peerAs == rs[x].peerAs {
      ReuseAtRoute(s, i, t, m, x);
    }
    FirstByNeighbour(rs, rs', j);
  }

  /** A lapsed note goes exactly with a due entry that names its node as the super-prefix. */
  lemma {:induction false} DrainDropsNotes(s: State, t: Time, m: Prefix, a: AsNum)
    requires s.rqSize == |s.queue|
    ensures LapsedAt(Drain(s, t), m, a, t) <==> LapsedAt(s, m, a, t) && !DueSuper(s.queue, m, t)
    decreases Due(s.queue, t)
  {
    hide ReuseAt, Lapsed, DueSuper, DueNode;
    if s.rqSize > 0 {
      var i := MinIndex(s.queue);
      if t < s.queue[i].key {
        NoneDue(s.queue, m, t);
      } else {
        ReuseAtQueue(s, i, t);
        DueSplit(s, i, t, m);
        ReuseAtNotes(s, i, t, m, a);
        DrainDropsNotes(ReuseAt(s, i, t), t, m, a);
      }
    } else {
      NoneDue(s.queue, m, t);
    }
  }

  /** Main result: over a whole drain a route of n loses IGNORED_P exactly when an entry of n itself
      is due. */
  lemma {:induction false} DrainRestores(s: State, t: Time, n: Prefix, j: nat)
    requires s.rqSize == |s.queue| && j < |Rib(s.ribs, n)|
    ensures var rs := Rib(s.ribs, n); var rs' := Rib(Drain(s, t).ribs, n);
      |rs'| == |rs| && (rs'[j].flags.ignP <==> rs[j].flags.ignP && !DueNode(s.queue, n, t))
    decreases Due(s.queue, t)
  {
    hide ReuseAt, LapsedAt, IsFirst, DueSuper, DueNode;
    if s.rqSize > 0 {
      var i := MinIndex(s.queue);
      if t < s.queue[i].key {
        NoneDue(s.queue, n, t);
      } else {
        ReuseAtQueue(s, i, t);
        DueSplit(s, i, t, n);
        ReuseAtRoute(s, i, t, n, j);
        DrainRestores(ReuseAt(s, i, t), t, n, j);
      }
    } else {
      NoneDue(s.queue, n, t);
    }
  }

  // ---------- The other two flags over a drain ----------

  ghost predicate SuspectedAt(s: State, n: Prefix, a: AsNum, t: Time) {
    n in s.hists && UnderSuspicion(s.hists[n].origins, a, t)
  }

  /** An entry due at t is about an origin of n. */
  ghost predicate DueOrigin(q: seq<Entry>, n: Prefix, t: Time) {
    exists e :: e in q && e.OriginEntry? && e.node == n && e.key <= t
  }

  predicate ForOrigin(e: Entry, n: Prefix) { e.OriginEntry? && e.node == n }

  lemma ForgivenOrigin(r: Route, os: seq<Origin>, t: Time)
    requires DistinctAsns(os) && (r.flags.suspO ==> Knows(os, OriginAs(r.path)))
    ensures var r' := ForgiveOrigin(r, os, t);
      && r'.path == r.path
      && (r'.flags.suspO <==> r.flags.suspO && UnderSuspicion(os, OriginAs(r.path), t))
  {
    hide OriginAs;
    var a := OriginAs(r.path);
    var i := IndexOf(os, a);
    if i < |os| {
      assert os[i] in os;
      forall o | o in os && o.asn == a ensures o == os[i] {
        var j :| 0 <= j < |os| && os[j] == o;
      }
    }
  }

  lemma ReuseOriginFlag(s: State, n: Prefix, t: Time, k: Prefix, j: nat)
    requires j < |Rib(s.ribs, k)| && FlagsAccounted(s) && (n in s.hists ==> DistinctAsns(s.hists[n].origins))
    ensures var r := Rib(s.ribs, k)[j]; var rs' := Rib(ReuseOrigin(s, n, t).ribs, k);
      && |rs'| == |Rib(s.ribs, k)| && rs'[j].path == r.path
      && (rs'[j].flags.suspO <==> r.flags.suspO && !(k == n && !SuspectedAt(s, n, OriginAs(r.path), t)))
  {
    hide ForgiveOrigin, OriginAs, Bump, Knows, PendingOn;
    var r := Rib(s.ribs, k)[j];
    assert r in Rib(s.ribs, k);
    if k == n && n in s.hists {
      ForgivenOrigin(r, s.hists[n].origins, t);
    }
  }

  lemma ReuseAtOriginFlag(s: State, i: nat, t: Time, k: Prefix, j: nat)
    requires i < |s.queue| && j < |Rib(s.ribs, k)| && OriginInv(s, t)
    ensures var e := s.queue[i]; var r := Rib(s.ribs, k)[j]; var rs' := Rib(ReuseAt(s, i, t).ribs, k);
      && |rs'| == |Rib(s.ribs, k)| && rs'[j].path == r.path
      && (rs'[j].flags.suspO <==> r.flags.suspO && !(ForOrigin(e, k) && !SuspectedAt(s, k, OriginAs(r.path), t)))
  {
    hide ReuseOrigin, ReusePrefix, ReuseEdge, UnderSuspicion, OriginAs;
    var s1 := s.(queue := Remove(s.queue, i), rqSize := s.rqSize - 1);
    match s.queue[i]
    case OriginEntry(_, n, _) => HandledOriginFlag(s, s1, n, t, k, j);
    case PrefixEntry(_, n, m) => ReusePrefixRoute(s1, n, m, t, k, j);
    case EdgeEntry(_, n) => ReuseEdgeRoute(s1, n, t, k, j);
  }

  /** The handler runs when its entry is off the queue; the flags are accounted for by then still, as
      far as the origins go. */
  lemma HandledOriginFlag(s: State, s1: State, n: Prefix, t: Time, k: Prefix, j: nat)
    requires OriginInv(s, t) && s1 == s.(queue := s1.queue, rqSize := s1.rqSize) && j < |Rib(s.ribs, k)|
    ensures var r := Rib(s.ribs, k)[j]; var rs' := Rib(ReuseOrigin(s1, n, t).ribs, k);
      && |rs'| == |Rib(s.ribs, k)| && rs'[j].path == r.path
      && (rs'[j].flags.suspO <==> r.flags.suspO && !(k == n && !SuspectedAt(s, n, OriginAs(r.path), t)))
  {
    hide OriginAs, Bump, Knows, PendingOn, ForgiveOrigin;
    ReuseOriginFlag(s, n, t, k, j);
  }

  lemma ReuseAtOrigins(s: State, i: nat, t: Time, k: Prefix, a: AsNum)
    requires i < |s.queue|
    ensures SuspectedAt(ReuseAt(s, i, t), k, a, t) == SuspectedAt(s, k, a, t)
  {
    hide ClearSuspP, ClearIgnored, Expired, Unexpired, UnlockSubs, ForgiveEdge, NextExpiry, ForgiveOrigin, Bump;
  }

  lemma DueOriginSplit(s: State, i: nat, t: Time, k: Prefix)
    requires i < |s.queue| && s.queue[i].key <= t
    ensures DueOrigin(s.queue, k, t) <==> ForOrigin(s.queue[i], k) || DueOrigin(ReuseAt(s, i, t).queue, k, t)
  {
    hide ReusePrefix, ForgiveEdge, NextExpiry, ForgiveOrigin, Bump;
    forall x: Entry | x.OriginEntry? ensures x in s.queue <==> x == s.queue[i] || x in ReuseAt(s, i, t).queue {
      assert x in Remove(s.queue, i) ==> x in s.queue;
    }
    assert s.queue[i] in s.queue;
  }

  lemma NoOriginDue(q: seq<Entry>, k: Prefix, t: Time)
    requires forall i :: 0 <= i < |q| ==> t < q[i].key
    ensures !DueOrigin(q, k, t) && !DueEdge(q, k, t)
  {
    forall e | e in q ensures t < e.key {
      var i :| 0 <= i < |q| && q[i] == e;
    }
  }

  /** Main result: over a whole drain a route of n loses SUSPICIOUS_O exactly when some entry about an
      origin of n is due and the route's own origin is not under suspicion any more. */
  lemma {:induction false} DrainForgivesOrigins(s: State, t: Time, n: Prefix, j: nat)
    requires s.rqSize == |s.queue| && OriginInv(s, t) && j < |Rib(s.ribs, n)|
    ensures var r := Rib(s.ribs, n)[j]; var rs' := Rib(Drain(s, t).ribs, n);
      && |rs'| == |Rib(s.ribs, n)| && rs'[j].path == r.path
      && (rs'[j].flags.suspO <==>
            r.flags.suspO && !(DueOrigin(s.queue, n, t) && !SuspectedAt(s, n, OriginAs(r.path), t)))
    decreases Due(s.queue, t)
  {
    hide ReuseAt, OriginInv, SuspectedAt, DueOrigin, DueEdge, OriginAs;
    if s.rqSize > 0 {
      var i := MinIndex(s.queue);
      if t < s.queue[i].key {
        NoOriginDue(s.queue, n, t);
      } else {
        ReuseAtQueue(s, i, t);
        DueOriginSplit(s, i, t, n);
        ReuseAtOriginFlag(s, i, t, n, j);
        ReuseAtOrigins(s, i, t, n, OriginAs(Rib(s.ribs, n)[j].path));
        ReuseAtKeepsOrigins(s, i, t);
        DrainForgivesOrigins(ReuseAt(s, i, t), t, n, j);
      }
    } else {
      NoOriginDue(s.queue, n, t);
    }
  }

  /** An entry due at t is the edge entry of n. */
  ghost predicate DueEdge(q: seq<Entry>, n: Prefix, t: Time) {
    exists e :: e in q && ForEdge(e, n) && e.key <= t
  }

  predicate ForEdge(e: Entry, n: Prefix) { e.EdgeEntry? && e.node == n }

  lemma ReuseEdgeFlag(s: State, n: Prefix, t: Time, k: Prefix, j: nat)
    requires j < |Rib(s.ribs, k)|
    ensures var r := Rib(s.ribs, k)[j]; var rs' := Rib(ReuseEdge(s, n, t).ribs, k);
      && |rs'| == |Rib(s.ribs, k)| && rs'[j].path == r.path
      && (rs'[j].flags.suspE <==> r.flags.suspE && !(k == n && n in s.hists && !HasSuspect(s.edges, PathEdges(r.path), t)))
  {
    hide LatestExpiry, NextExpiry, HasSuspect, PathEdges, Bump;
    LatestExpirySpec(s.edges, PathEdges(Rib(s.ribs, k)[j].path), t);
  }

  lemma ReuseAtEdgeFlag(s: State, i: nat, t: Time, k: Prefix, j: nat)
    requires i < |s.queue| && j < |Rib(s.ribs, k)|
    ensures var e := s.queue[i]; var r := Rib(s.ribs, k)[j]; var rs' := Rib(ReuseAt(s, i, t).ribs, k);
      var free := k in s.hists && !HasSuspect(s.edges, PathEdges(r.path), t);
      && |rs'| == |Rib(s.ribs, k)| && rs'[j].path == r.path
      && (rs'[j].flags.suspE <==> r.flags.suspE && !(ForEdge(e, k) && free))
  {
    hide ReuseOrigin, ReusePrefix, ReuseEdge, HasSuspect, PathEdges;
    var s1 := s.(queue := Remove(s.queue, i), rqSize := s.rqSize - 1);
    match s.queue[i]
    case OriginEntry(_, n, _) => OtherFlagsKept(s1, n, t, k, j);
    case PrefixEntry(_, n, m) => ReusePrefixRoute(s1, n, m, t, k, j);
    case EdgeEntry(_, n) => ReuseEdgeFlag(s1, n, t, k, j);
  }

  lemma OtherFlagsKept(s: State, n: Prefix, t: Time, k: Prefix, j: nat)
    requires j < |Rib(s.ribs, k)|
    ensures var r := Rib(s.ribs, k)[j]; var rs' := Rib(ReuseOrigin(s, n, t).ribs, k);
      |rs'| == |Rib(s.ribs, k)| && rs'[j].path == r.path && rs'[j].flags.suspE == r.flags.suspE
  {
    hide IndexOf, OriginAs, Bump;
  }

  lemma ReuseAtTables(s: State, i: nat, t: Time)
    requires i < |s.queue|
    ensures ReuseAt(s, i, t).edges == s.edges && ReuseAt(s, i, t).hists.Keys == s.hists.Keys
  {
    hide ClearSuspP, ClearIgnored, Expired, Unexpired, UnlockSubs, ForgiveEdge, NextExpiry, ForgiveOrigin, Bump;
  }

  lemma DueEdgeSplit(s: State, i: nat, t: Time, k: Prefix)
    requires i < |s.queue| && s.queue[i].key <= t
    ensures DueEdge(s.queue, k, t) <==> ForEdge(s.queue[i], k) || DueEdge(ReuseAt(s, i, t).queue, k, t)
  {
    hide ReusePrefix, ForgiveEdge, NextExpiry, ForgiveOrigin, Bump;
    forall x: Entry | x.EdgeEntry? && x.key <= t ensures x in s.queue <==> x == s.queue[i] || x in ReuseAt(s, i, t).queue {
      assert x in Remove(s.queue, i) ==> x in s.queue;
    }
    assert s.queue[i] in s.queue;
  }

  /** Main result: over a whole drain a route of n loses SUSPICIOUS_E exactly when the edge entry of n
      is due and no pair of the route's path is under suspicion any more. */
  lemma {:induction false} DrainForgivesEdges(s: State, t: Time, n: Prefix, j: nat)
    requires s.rqSize == |s.queue| && n in s.hists && j < |Rib(s.ribs, n)|
    ensures var r := Rib(s.ribs, n)[j]; var rs' := Rib(Drain(s, t).ribs, n);
      && |rs'| == |Rib(s.ribs, n)| && rs'[j].path == r.path
      && (rs'[j].flags.suspE <==>
            r.flags.suspE && !(DueEdge(s.queue, n, t) && !HasSuspect(s.edges, PathEdges(r.path), t)))
    decreases Due(s.queue, t)
  {
    hide ReuseAt, HasSuspect, PathEdges, DueOrigin, DueEdge;
    if s.rqSize > 0 {
      var i := MinIndex(s.queue);
      if t < s.queue[i].key {
        NoOriginDue(s.queue, n, t);
      } else {
        ReuseAtQueue(s, i, t);
        DueEdgeSplit(s, i, t, n);
        ReuseAtEdgeFlag(s, i, t, n, j);
        ReuseAtTables(s, i, t);
        DrainForgivesEdges(ReuseAt(s, i, t), t, n, j);
      }
    } else {
      NoOriginDue(s.queue, n, t);
    }
  }

  // ---------- A route selection ----------

  /** A note that is still running names sub-prefix k. */
  predicate NotesSub(av: seq<Avoid>, k: Prefix, t: Time) {
    exists i :: 0 <= i < |av| && av[i].sub == k && av[i].until > t
  }

  lemma NotesSubSplit(av: seq<Avoid>, k: Prefix, t: Time)
    requires av != []
    ensures NotesSub(av, k, t) <==> (av[0].sub == k && av[0].until > t) || NotesSub(av[1..], k, t)
  {
    if NotesSub(av, k, t) {
      var i :| 0 <= i < |av| && av[i].sub == k && av[i].until > t;
      if i > 0 { assert av[1..][i - 1] == av[i]; }
    }
    if NotesSub(av[1..], k, t) {
      var i :| 0 <= i < |av[1..]| && av[1..][i].sub == k && av[1..][i].until > t;
      assert av[i + 1] == av[1..][i];
    }
  }

  lemma {:induction false} IgnoreSubsAt(ribs: map<Prefix, seq<Route>>, av: seq<Avoid>, on: bool, t: Time, k: Prefix, j: nat)
    requires j < |Rib(ribs, k)|
    ensures var rs' := Rib(IgnoreSubs(ribs, av, on, t), k); var r := Rib(ribs, k)[j];
      |rs'| == |Rib(ribs, k)| && rs'[j] == if NotesSub(av, k, t) then r.(flags := r.flags.(ignP := on)) else r
    decreases |av|
  {
    if av != [] {
      hide NotesSub;
      NotesSubSplit(av, k, t);
      var ribs1 := if av[0].until > t then ribs[av[0].sub := Ignore(Rib(ribs, av[0].sub), on)] else ribs;
      IgnoreSubsAt(ribs1, av[1..], on, t, k, j);
    }
  }

  predicate NotedAt(s: State, n: Prefix, k: Prefix, t: Time) {
    n in s.hists && s.hists[n].prefix.Some? && NotesSub(s.hists[n].prefix.value.avoid, k, t)
  }

  /** After a selection for n, IGNORED_P on a route of k follows the choice exactly when a running note
      of n names k: it is set if a route was chosen that is not suspect, and else cleared. */
  lemma SelectionIgnores(s: State, n: Prefix, best: nat, t: Time, k: Prefix, j: nat)
    requires j < |Rib(s.ribs, k)|
    ensures var rs := Rib(s.ribs, k); var rs' := Rib(RibUpdated(s, n, best, t).ribs, k);
      var usable := best < |Rib(s.ribs, n)| && !Rib(s.ribs, n)[best].flags.suspP;
      |rs'| == |rs| && (rs'[j].flags.ignP <==> if NotedAt(s, n, k, t) then usable else rs[j].flags.ignP)
  {
    hide NotesSub, IgnoreSubs;
    var rs := Mark(Rib(s.ribs, n), best);
    var s1 := s.(ribs := s.ribs[n := rs]);
    assert |Rib(s1.ribs, k)| == |Rib(s.ribs, k)| && Rib(s1.ribs, k)[j].flags == Rib(s.ribs, k)[j].flags;
    ChosenIs(Rib(s.ribs, n), best);
    if n in s.hists && s.hists[n].prefix.Some? {
      IgnoreSubsAt(s1.ribs, s.hists[n].prefix.value.avoid, ShouldIgnore(rs), t, k, j);
    }
  }

  lemma ChosenIs(rs: seq<Route>, best: nat)
    ensures ShouldIgnore(Mark(rs, best)) <==> best < |rs| && !rs[best].flags.suspP
  {
    hide Mark;
    var rs' := Mark(rs, best);
    MarkAt(rs, best);
    if best < |rs| {
      assert rs'[best].selected;
      assert Selected(rs') == best;
    }
  }

  lemma MarkAt(rs: seq<Route>, best: nat)
    ensures |Mark(rs, best)| == |rs|
    ensures forall j :: 0 <= j < |rs| ==> Mark(rs, best)[j].selected == (j == best) && Mark(rs, best)[j].flags == rs[j].flags
  {
  }
}
