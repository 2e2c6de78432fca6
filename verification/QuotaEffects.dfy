/**
 What the counters of a quota lead to, said without reference to the rules that ask them: who is
 counted, who is cut off, and who is slowed down in which direction.
 */
module QuotaEffects {
  import opened QuotaModel
  import opened QuotaCorrect

  /** A counter is asked, and acts if it is over its limit. */
  function Reply(counter: Counter, action: Action, p: Packet): seq<Event> {
    [Asked(counter)] + if p.over(counter) then Doing(action) else []
  }

  lemma ReplyMembers(counter: Counter, action: Action, p: Packet, e: Event)
    ensures e in Reply(counter, action, p) <==> e == Asked(counter) || (p.over(counter) && e in Doing(action))
    ensures e.Asked? ==> multiset(Reply(counter, action, p))[e] == if e == Asked(counter) then 1 else 0
  {
    var done := if p.over(counter) then Doing(action) else [];
    assert multiset(Reply(counter, action, p)) == multiset{Asked(counter)} + multiset(done);
    assert e.Asked? ==> e !in done;
  }

  lemma AnswerIs(q: Question, p: Packet)
    ensures q.before == [] ==> Answer(q, p) == Reply(q.counter, q.action, p)
    ensures |q.before| == 1 ==> Answer(q, p) == if p.holds(q.before[0]) then Reply(q.counter, q.action, p) else []
  {
  }

  function Opposing(q: Quota, t: Kind, p: Packet): seq<Event> {
    if Shapes(q) && t != Combined && HasLimit(q, Opposite(t)) then
      Reply(Counter(q.id, Opposite(t), CheckSwapped), SetMark(if t == Egress then q.upMark.value else q.downMark.value), p)
    else []
  }

  function Own(q: Quota, t: Kind, p: Packet): seq<Event> {
    if !HasLimit(q, t) then []
    else
      Reply(Counter(q.id, t, Count),
            if !Shapes(q) then Kill else if t == Egress then SetMark(q.upMark.value)
            else if t == Ingress then SetMark(q.downMark.value) else Nothing, p)
  }

  function Upwards(q: Quota, t: Kind, p: Packet): seq<Event> {
    if Shapes(q) && t == Combined && HasLimit(q, t) && p.holds(ToWan) then
      Reply(Counter(q.id, t, Check), SetMark(q.upMark.value), p)
    else []
  }

  function Downwards(q: Quota, t: Kind, p: Packet): seq<Event> {
    if Shapes(q) && t == Combined && HasLimit(q, t) && p.holds(FromWan) then
      Reply(Counter(q.id, t, CheckSwapped), SetMark(q.downMark.value), p)
    else []
  }

  lemma NoAnswers(p: Packet)
    ensures Answers([], p) == []
  {
  }

  lemma {:induction false} AnswersConcat(a: seq<Question>, b: seq<Question>, p: Packet)
    ensures Answers(a + b, p) == Answers(a, p) + Answers(b, p)
  {
    hide Answer;
    if a == [] {
      assert a + b == b;
      NoAnswers(p);
    } else {
      assert (a + b)[1..] == a[1..] + b;
      AnswersStep(a, p);
      AnswersStep(a + b, p);
      AnswersConcat(a[1..], b, p);
    }
  }

  lemma OneAnswer(q: Question, p: Packet)
    ensures Answers([q], p) == Answer(q, p)
  {
    hide Answer;
    NoAnswers(p);
    AnswersStep([q], p);
    assert [q][1..] == [];
  }

  /** The events of a quota in one chain, piece by piece. */
  lemma Written(q: Quota, t: Kind, p: Packet)
    ensures Answers(Questions(q, t), p) == Opposing(q, t, p) + (Own(q, t, p) + (Upwards(q, t, p) + Downwards(q, t, p)))
  {
    hide Answers, Answer, Reply;
    NoAnswers(p);
    var opposing: seq<Question> := if Shapes(q) && t != Combined && HasLimit(q, Opposite(t)) then
      [Question([], Counter(q.id, Opposite(t), CheckSwapped), SetMark(if t == Egress then q.upMark.value else q.downMark.value))] else [];
    if opposing != [] { OneAnswer(opposing[0], p); AnswerIs(opposing[0], p); }
    assert Answers(opposing, p) == Opposing(q, t, p);
    var rest := Questions(q, t)[|opposing|..];
    assert Questions(q, t) == opposing + rest;
    AnswersConcat(opposing, rest, p);
    WrittenRest(q, t, p, rest);
  }

  lemma WrittenRest(q: Quota, t: Kind, p: Packet, rest: seq<Question>)
    requires var n := if Shapes(q) && t != Combined && HasLimit(q, Opposite(t)) then 1 else 0;
      |Questions(q, t)| >= n && rest == Questions(q, t)[n..]
    ensures Answers(rest, p) == Own(q, t, p) + (Upwards(q, t, p) + Downwards(q, t, p))
  {
    hide Answers, Answer, Reply;
    NoAnswers(p);
    if HasLimit(q, t) {
      var own := rest[0];
      OneAnswer(own, p);
      AnswerIs(own, p);
      if t == Combined && Shapes(q) {
        assert rest == [own] + ([rest[1]] + [rest[2]]);
        AnswersConcat([own], [rest[1]] + [rest[2]], p);
        AnswersConcat([rest[1]], [rest[2]], p);
        OneAnswer(rest[1], p);
        OneAnswer(rest[2], p);
        AnswerIs(rest[1], p);
        AnswerIs(rest[2], p);
      } else {
        assert rest == [own];
      }
    }
  }

  /** A quota without marks kills exactly when it is over its limit; with marks it never kills. */
  lemma KillsOverLimit(q: Quota, t: Kind, p: Packet)
    ensures Killed in Answers(Questions(q, t), p) <==>
      HasLimit(q, t) && !Shapes(q) && p.over(Counter(q.id, t, Count))
  {
    Written(q, t, p);
    hide Reply, Answers, Questions;
    forall k, a ensures Killed in Reply(k, a, p) <==> p.over(k) && a == Kill {
      ReplyMembers(k, a, p, Killed);
    }
  }

  /** Each packet is counted once for each limit of the quota in its chain, and not otherwise. */
  lemma CountsOnce(q: Quota, t: Kind, p: Packet)
    ensures multiset(Answers(Questions(q, t), p))[Asked(Counter(q.id, t, Count))] == if HasLimit(q, t) then 1 else 0
  {
    Written(q, t, p);
    hide Reply, Answers, Questions;
    var e := Asked(Counter(q.id, t, Count));
    var a, b, c, d := Opposing(q, t, p), Own(q, t, p), Upwards(q, t, p), Downwards(q, t, p);
    assert multiset(a + (b + (c + d))) == multiset(a) + multiset(b) + multiset(c) + multiset(d);
    forall k, x ensures multiset(Reply(k, x, p))[e] == if e == Asked(k) then 1 else 0 {
      ReplyMembers(k, x, p, e);
    }
  }

  /** Only the quota's own counters are asked, and only those that exist. */
  lemma AsksItsOwn(q: Quota, t: Kind, p: Packet, k: Counter)
    requires Asked(k) in Answers(Questions(q, t), p)
    ensures k.id == q.id && HasLimit(q, k.kind) && (k.how == Count ==> k.kind == t)
  {
    Written(q, t, p);
    hide Reply, Answers, Questions;
    forall j, x ensures Asked(k) in Reply(j, x, p) <==> j == k {
      ReplyMembers(j, x, p, Asked(k));
    }
  }

  /** Traffic going out: over its own limit, or, in its own chain, over that of the other direction. */
  predicate MarksUp(q: Quota, t: Kind, p: Packet, mark: string)
    requires Shapes(q)
  {
    mark == q.upMark.value &&
    ((t == Egress && q.egressLimit && p.over(Counter(q.id, Egress, Count)))
     || (t == Egress && q.ingressLimit && p.over(Counter(q.id, Ingress, CheckSwapped)))
     || (t == Combined && q.combinedLimit && p.holds(ToWan) && p.over(Counter(q.id, Combined, Check))))
  }

  predicate MarksDown(q: Quota, t: Kind, p: Packet, mark: string)
    requires Shapes(q)
  {
    mark == q.downMark.value &&
    ((t == Ingress && q.ingressLimit && p.over(Counter(q.id, Ingress, Count)))
     || (t == Ingress && q.egressLimit && p.over(Counter(q.id, Egress, CheckSwapped)))
     || (t == Combined && q.combinedLimit && p.holds(FromWan) && p.over(Counter(q.id, Combined, CheckSwapped))))
  }

  /** Marks are those of the packet's direction, and follow only a counter over its limit. */
  lemma MarksByDirection(q: Quota, t: Kind, p: Packet, mark: string)
    ensures Marked(mark) in Answers(Questions(q, t), p) <==> Shapes(q) && (MarksUp(q, t, p, mark) || MarksDown(q, t, p, mark))
  {
    Written(q, t, p);
    hide Reply, Answers, Questions;
    forall k, a ensures Marked(mark) in Reply(k, a, p) <==> p.over(k) && a == SetMark(mark) {
      ReplyMembers(k, a, p, Marked(mark));
    }
  }
}
