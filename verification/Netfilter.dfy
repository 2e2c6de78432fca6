/**
 The part of iptables the rule compilers rely on: rules with a protocol guard and tests that must
 all hold, actions that set bits of the connection mark or leave with a verdict, and a run of a
 rule list over a packet.
 */
module Netfilter {
  import opened Common
  import opened MarkBits

  datatype Proto = Tcp | Udp | Other

  datatype Test =
    | Url(kind: nat, value: string)
    | Http
    | Mark(value: string)
    | Connmark(bits: Bits, mask: Bits)
    | SrcIp(value: string) | SrcRange(value: string) | SrcMac(value: string)
    | DstIp(value: string) | DstRange(value: string)
    | SrcPort(value: string) | DstPort(value: string)
    | TimeRange(hours: Option<string>, weekdays: Option<string>, weekly: Option<string>)
    | Layer7(value: string)
    | Ipp2p(value: string)
    | Length(min: string, max: string)

  datatype Literal = Lit(test: Test, negated: bool)

  datatype Action =
    | SetMark(bits: Bits, mask: Bits)
    | Jump(target: string)

  datatype Rule = Rule(proto: Option<Proto>, tests: seq<Literal>, action: Action)

  /** A packet, with the answer of every match module but connmark. */
  datatype Packet = Packet(proto: Proto, holds: Test -> bool)

  predicate TestHolds(t: Test, p: Packet, m: Bits) {
    if t.Connmark? then m * t.mask == t.bits else p.holds(t)
  }

  predicate LitHolds(l: Literal, p: Packet, m: Bits) {
    TestHolds(l.test, p, m) != l.negated
  }

  predicate AllHold(ls: seq<Literal>, p: Packet, m: Bits) {
    forall i :: 0 <= i < |ls| ==> LitHolds(ls[i], p, m)
  }

  predicate Fires(r: Rule, p: Packet, m: Bits) {
    (r.proto.Some? ==> p.proto == r.proto.value) && AllHold(r.tests, p, m)
  }

  function Masked(m: Bits, bits: Bits, mask: Bits): Bits { (m - mask) + bits }

  /** The verdict of a rule list, if it reaches one, and the connection mark it leaves. */
  function Run(rs: seq<Rule>, p: Packet, m: Bits): (Option<string>, Bits)
    decreases |rs|
  {
    if rs == [] then (None, m)
    else if !Fires(rs[0], p, m) then Run(rs[1..], p, m)
    else match rs[0].action
      case Jump(target) => (Some(target), m)
      case SetMark(bits, mask) => Run(rs[1..], p, Masked(m, bits, mask))
  }

  /** A list goes on where the list before it stopped. */
  lemma {:induction false} RunConcat(a: seq<Rule>, b: seq<Rule>, p: Packet, m: Bits)
    ensures Run(a + b, p, m) == if Run(a, p, m).0.Some? then Run(a, p, m) else Run(b, p, Run(a, p, m).1)
    decreases |a|
  {
    if a == [] {
      assert a + b == b;
    } else {
      assert (a + b)[1..] == a[1..] + b;
      if !Fires(a[0], p, m) {
        RunConcat(a[1..], b, p, m);
      } else if a[0].action.SetMark? {
        RunConcat(a[1..], b, p, Masked(m, a[0].action.bits, a[0].action.mask));
      }
    }
  }
}
