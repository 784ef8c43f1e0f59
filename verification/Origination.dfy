/** A history of N-UNITDATA requests: which signalling link each takes, stack.go 609-616 and unitdata.go 114. */
module Origination {
  import opened Basics
  import opened Codec
  import opened Fields
  import opened Messages
  import opened Segmenting
  import References

  /** Requests in order, what each came to, and the rotation before the first and after each. */
  predicate History(node: Node, reqs: seq<Request>, rs: seq<Sent>, links: seq<byte>) {
    && |rs| == |reqs| && |links| == |reqs| + 1 && links[0] < 16
    && forall i :: 0 <= i < |reqs| ==> Sends(node, reqs[i], links[i], rs[i], links[i + 1])
  }

  /** Request i was accepted and its messages went out. */
  predicate Went(reqs: seq<Request>, rs: seq<Sent>, i: nat) {
    i < |reqs| == |rs| && Refusal(reqs[i]) == None && rs[i].Transfers?
  }

  /** The node that the request is for. */
  function Goal(req: Request): int {
    if req.dpc != 0 then req.dpc else req.called.pointCode
  }

  /** Whether a request takes a turn in the rotation: an accepted one of class 0 does. */
  function Turn(req: Request): nat {
    if Refusal(req) == None && req.protocolClass == 0 then 1 else 0
  }

  function Turns(reqs: seq<Request>): nat {
    if |reqs| == 0 then 0 else Turns(reqs[..|reqs| - 1]) + Turn(reqs[|reqs| - 1])
  }

  lemma At(node: Node, reqs: seq<Request>, rs: seq<Sent>, links: seq<byte>, i: nat)
    requires History(node, reqs, rs, links) && i < |reqs|
    ensures Sends(node, reqs[i], links[i], rs[i], links[i + 1])
  {
    hide Sends;
  }

  /** All messages of one request, the segments of one message among them, carry one label, from here to its goal. */
  lemma OneLabel(node: Node, reqs: seq<Request>, rs: seq<Sent>, links: seq<byte>, i: nat, t: Transfer, u: Transfer)
    requires History(node, reqs, rs, links) && Went(reqs, rs, i) && t in rs[i].transfers && u in rs[i].transfers
    ensures t.routing == u.routing
    ensures t.routing.opc == node.pointCode && t.routing.ni == node.ni && t.routing.dpc == Goal(reqs[i])
    ensures t.routing.sls < 16
  {
    hide Refusal;
    At(node, reqs, rs, links, i);
    LinksAdvance(node, reqs, rs, links, 0, i);
  }

  /**
   * In-sequence delivery: two class 1 requests to one node go with equal labels if and only if their sequence
   * controls agree modulo 16, whatever else is requested between them.
   */
  lemma SequenceKeepsLink(node: Node, reqs: seq<Request>, rs: seq<Sent>, links: seq<byte>, i: nat, j: nat, t: Transfer, u: Transfer)
    requires History(node, reqs, rs, links) && Went(reqs, rs, i) && Went(reqs, rs, j)
    requires reqs[i].protocolClass == 1 && reqs[j].protocolClass == 1 && Goal(reqs[i]) == Goal(reqs[j])
    requires t in rs[i].transfers && u in rs[j].transfers
    ensures t.routing == u.routing <==> reqs[i].sequence % 16 == reqs[j].sequence % 16
  {
    hide Refusal, History;
    At(node, reqs, rs, links, i);
    At(node, reqs, rs, links, j);
    OneLabel(node, reqs, rs, links, i, t, t);
    OneLabel(node, reqs, rs, links, j, u, u);
  }

  lemma TurnTaken(node: Node, req: Request, link: byte, r: Sent, linkAfter: byte)
    requires link < 16 && Sends(node, req, link, r, linkAfter)
    ensures linkAfter == (link + Turn(req)) % 16
  {
    hide Routable;
  }

  /** A request of class 1 does not take part in the rotation, and one of class 0 moves it on by one. */
  lemma {:induction false} LinksAdvance(node: Node, reqs: seq<Request>, rs: seq<Sent>, links: seq<byte>, i: nat, j: nat)
    requires History(node, reqs, rs, links) && i <= j <= |reqs|
    ensures links[i] < 16 && links[j] == (links[i] + Turns(reqs[i..j])) % 16
    decreases i + j
  {
    hide Sends, Turn, Refusal;
    if i > 0 {
      LinksAdvance(node, reqs, rs, links, 0, i);
    }
    if i < j {
      LinksAdvance(node, reqs, rs, links, i, j - 1);
      assert reqs[i..j][..j - i - 1] == reqs[i..j - 1];
      At(node, reqs, rs, links, j - 1);
      TurnTaken(node, reqs[j - 1], links[j - 1], rs[j - 1], links[j]);
      Around(links[i], Turns(reqs[i..j - 1]), Turn(reqs[j - 1]));
    }
  }

  lemma Around(link: nat, n: nat, k: nat)
    ensures ((link + n) % 16 + k) % 16 == (link + n + k) % 16
  {
  }

  /**
   * Load sharing: two class 0 requests go on one link if and only if the class 0 requests accepted from the first
   * to before the second are a multiple of 16.
   */
  lemma RotationShares(node: Node, reqs: seq<Request>, rs: seq<Sent>, links: seq<byte>, i: nat, j: nat, t: Transfer, u: Transfer)
    requires History(node, reqs, rs, links) && i < j && Went(reqs, rs, i) && Went(reqs, rs, j)
    requires reqs[i].protocolClass == 0 && reqs[j].protocolClass == 0
    requires t in rs[i].transfers && u in rs[j].transfers
    ensures t.routing.sls == u.routing.sls <==> Turns(reqs[i..j]) % 16 == 0
  {
    hide Refusal;
    At(node, reqs, rs, links, i);
    At(node, reqs, rs, links, j);
    LinksAdvance(node, reqs, rs, links, i, j);
  }

  /** Any 16 consecutive class 0 requests take 16 different links. */
  lemma SixteenLinks(node: Node, reqs: seq<Request>, rs: seq<Sent>, links: seq<byte>, i: nat, j: nat, t: Transfer, u: Transfer)
    requires History(node, reqs, rs, links) && i < j < i + 16 && j < |reqs|
    requires forall k :: i <= k <= j ==> Went(reqs, rs, k) && reqs[k].protocolClass == 0
    requires Went(reqs, rs, i) && Went(reqs, rs, j) && t in rs[i].transfers && u in rs[j].transfers
    ensures t.routing.sls != u.routing.sls
  {
    hide Refusal;
    AllTurn(reqs, rs, i, j);
    RotationShares(node, reqs, rs, links, i, j, t, u);
  }

  lemma {:induction false} AllTurn(reqs: seq<Request>, rs: seq<Sent>, i: nat, j: nat)
    requires i <= j <= |reqs|
    requires forall k :: i <= k < j ==> Went(reqs, rs, k) && reqs[k].protocolClass == 0
    ensures Turns(reqs[i..j]) == j - i
    decreases j
  {
    hide Refusal;
    if i < j {
      AllTurn(reqs, rs, i, j - 1);
      assert reqs[i..j][..j - i - 1] == reqs[i..j - 1];
      assert Went(reqs, rs, j - 1);
    }
  }

  /**
   * What the messages of a request say. A request that goes whole is a UDT, or an XUDT when the node prefers one or
   * an importance is asked for; otherwise each segment is an XUDT of class 1 that only asks for a return in the
   * first, counts down to 0, and carries its part of the data under one reference. An importance is at most 6.
   */
  lemma TransfersSay(node: Node, req: Request, routing: RoutingLabel, now: nat, before: References.Pool, r: Sent, after: References.Pool)
    requires Refusal(req) == None && Answers(node, req, routing, now, before, r, after) && r.Transfers?
    ensures 1 <= |r.transfers| <= 16
    ensures var importance := if req.importance.Some? && req.importance.value > 6 then Some(6 as byte) else req.importance;
            var parts, n := Carried(r.transfers), |r.transfers|;
            && (n == 1 && !node.useXUDT && req.importance == None ==>
                  parts[0] == UDT(ProtocolClass(req.protocolClass, req.returnOnError), req.called, req.calling, req.data))
            && (n == 1 && (node.useXUDT || req.importance.Some?) ==>
                  parts[0] == XUDT(ProtocolClass(req.protocolClass, req.returnOnError), node.hop, req.called, req.calling,
                                   req.data, None, importance, []))
            && (n > 1 ==>
                  && parts[0].XUDT? && parts[0].segmentation.Some?
                  && forall i :: 0 <= i < n ==>
                    parts[i] == XUDT(ProtocolClass(1, req.returnOnError && i == 0), node.hop, req.called, req.calling,
                                     Chunk(req.data, n, i),
                                     Some(Segmentation(i == 0, req.protocolClass == 1, n - 1 - i, parts[0].segmentation.value.reference)),
                                     importance, []))
  {
    hide Marshal, Refusal, PlanOf, References.Allocated, References.ValidPool, Chunk;
  }

  function Carried(ts: seq<Transfer>): (ms: seq<Message>)
    ensures |ms| == |ts| && forall i :: 0 <= i < |ts| ==> ms[i] == ts[i].message
  {
    seq(|ts|, i requires 0 <= i < |ts| => ts[i].message)
  }
}
