/**
 * The request gate of the RPM regulator driver (`vreg_set`) and the voter
 * aggregation of the shared PM8058 S1 rail (`vreg_set_pm8058_s1`), as pure
 * functions of a rail's state. The class in rpm_regulator.dfy runs them in
 * place; the functions here say what each call leaves behind.
 */
module RpmGate {
  import opened Words
  import opened RpmRequest

  /**
   * A request handed to the RPM transport: the words, how many of them the
   * transport reads (`cnt`), and whether the no-IRQ entry point was used.
   */
  datatype Message = Message(req: Words2, count: nat, noirq: bool)

  /** The request words after one pass through the gate, its return code and what it transmitted. */
  datatype GateResult = GateResult(req: Words2, prevReq: Words2, rc: int, sent: Option<Words2>)

  /**
   * The commit step shared by both gates: `target` are the merged request
   * words, `before` the words before the merge, `prev` the last words the RPM
   * acknowledged and `reply` what the transport would answer.
   */
  function Commit(before: Words2, target: Words2, prev: Words2, reply: int): (g: GateResult)
    // duplicate suppression: a request equal to the acknowledged one is not transmitted
    ensures g.sent == None <==> target == prev
    ensures g.sent == None ==> g.rc == 0 && g.req == target && g.prevReq == prev
    // anything else is transmitted, and the transport's answer is returned
    ensures g.sent != None ==> g.sent == Some(target) && g.rc == reply
    // success: the merged words are in force and acknowledged
    ensures g.rc == 0 ==> g.req == target && g.prevReq == target
    // failure: the words roll back and the acknowledged words stay
    ensures g.rc != 0 ==> g.req == before && g.prevReq == prev
  {
    if target == prev then GateResult(target, prev, 0, None)
    else if reply != 0 then GateResult(before, prev, reply, Some(target))
    else GateResult(target, target, 0, Some(target))
  }

  /** The transport calls a gate result stands for. */
  function Sent(sent: Option<Words2>, count: nat, noirq: bool): (m: seq<Message>)
    ensures sent == None ==> m == []
    ensures sent != None ==> m == [Message(sent.value, count, noirq)]
  {
    match sent
    case None => []
    case Some(w) => [Message(w, count, noirq)]
  }

  // ---- the shared S1 rail ----

  /** Linux's `max()` on two votes. */
  function Max(a: int, b: int): (m: int)
    ensures a <= m && b <= m && (m == a || m == b)
  {
    if a > b then a else b
  }

  /**
   * The highest millivolt vote, accumulated left to right from 0 as the loop
   * in `vreg_set_pm8058_s1` does.
   */
  function MaxVote(votes: seq<int>): (m: int)
    ensures forall i :: 0 <= i < |votes| ==> votes[i] <= m
    ensures m == 0 || m in votes
    decreases |votes|
  {
    if |votes| == 0 then 0
    else Max(MaxVote(votes[..|votes| - 1]), votes[|votes| - 1])
  }

  /** Every vote is a 12-bit voltage field. */
  predicate VotesFit(votes: seq<int>)
  {
    forall i :: 0 <= i < |votes| ==> 0 <= votes[i] <= 0xFFF
  }

  /** The S1 request after the vote: the merged words with the voltage field set to the highest vote. */
  function S1Target(merged: Words2, votes: seq<int>): Words2
  {
    Words2(Merge(merged.w0, VoltageMask, ToWord(MaxVote(votes))), merged.w1)
  }

  /** The result of an S1 vote: the gate's result and the vote table afterwards. */
  datatype VoteResult = VoteResult(gate: GateResult, votes: seq<int>)

  /**
   * `vreg_set_pm8058_s1`: `voter` merges its mask/value pair, its vote becomes
   * the merged voltage field, and the rail is programmed with the highest
   * vote. The vote table is not rolled back when the transport fails.
   */
  function S1Vote(req: Words2, prev: Words2, votes: seq<int>, voter: int, d: Delta, reply: int)
    : (v: VoteResult)
    // an unknown voter is refused and nothing changes
    ensures !(0 <= voter < |votes|) ==> v == VoteResult(GateResult(req, prev, EInval, None), votes)
    // otherwise only the voter's entry changes, to the voltage it merged
    ensures 0 <= voter < |votes| ==>
      |v.votes| == |votes| && v.votes[voter] == VoltageField(Apply(req, d).w0) as int
      && forall i :: 0 <= i < |votes| && i != voter ==> v.votes[i] == votes[i]
    // the request goes through the commit step
    ensures 0 <= voter < |votes| ==> v.gate == Commit(req, S1Target(Apply(req, d), v.votes), prev, reply)
  {
    if !(0 <= voter < |votes|) then VoteResult(GateResult(req, prev, EInval, None), votes)
    else
      var merged := Apply(req, d);
      var votes' := votes[voter := VoltageField(merged.w0) as int];
      VoteResult(Commit(req, S1Target(merged, votes'), prev, reply), votes')
  }

  lemma VoltageFieldFits(w0: Word)
    ensures 0 <= VoltageField(w0) as int <= 0xFFF
  {
  }

  /**
   * What an accepted S1 vote programs: the voltage field of the request is
   * the highest vote in the table, at least every voter's vote, and every
   * other bit is what the voter merged. The table keeps 12-bit votes, and it
   * is the same whatever the transport answers.
   */
  lemma {:induction false} S1VoteWritesMax(req: Words2, prev: Words2, votes: seq<int>, voter: int, d: Delta, reply: int)
    requires 0 <= voter < |votes| && VotesFit(votes)
    ensures var v := S1Vote(req, prev, votes, voter, d, reply);
      var target := S1Target(Apply(req, d), v.votes);
      && VotesFit(v.votes)
      && VoltageField(target.w0) == ToWord(MaxVote(v.votes))
      && (forall i :: 0 <= i < |v.votes| ==> v.votes[i] <= MaxVote(v.votes))
      && target.w0 & !VoltageMask == Apply(req, d).w0 & !VoltageMask
      && target.w1 == Apply(req, d).w1
      && v.votes == S1Vote(req, prev, votes, voter, d, 0).votes
  {
    var merged := Apply(req, d);
    var v := S1Vote(req, prev, votes, voter, d, reply);
    VoltageFieldFits(merged.w0);
    assert VotesFit(v.votes);
    var m := MaxVote(v.votes);
    assert 0 <= m <= 0xFFF;
    ToWordBelow4096(m);
    VoltageWrite(merged.w0, ToWord(m));
  }

  // ---- a rail's state and the gate on it ----

  /**
   * The mutable part of `struct vreg` (request words, acknowledged words,
   * `save_uV`, `pc_vote`, `optimum`, `mode_initialized`) together with the S1
   * vote table, which only the S1 rail uses.
   */
  datatype Rail = Rail(req: Words2, prevReq: Words2, saveUV: int, pcVote: U32, optimum: U32,
                       modeInitialized: bool, votes: seq<int>)

  /**
   * The fixed part of a rail: its id, `lpm_max_load`, the board's platform
   * data, and the voter index the regulator framework votes with on S1.
   */
  datatype Config = Config(id: int, lpmMaxLoad: int, pdata: PlatformData, regFrameworkVoter: int)

  /** A rail operation's result: the new state, the return code and the transport calls made. */
  datatype Outcome = Outcome(rail: Rail, rc: int, sent: seq<Message>)

  /** `vreg_set_pm8058_s1` on the S1 rail's state. */
  function VregSetS1(r: Rail, voter: int, d: Delta, count: nat, reply: int): (o: Outcome)
    // only the request words and the vote table can change
    ensures o.rail.(req := r.req, prevReq := r.prevReq, votes := r.votes) == r
    // an unknown voter is refused without any effect
    ensures !(0 <= voter < |r.votes|) ==> o == Outcome(r, EInval, [])
    // transmissions use the no-IRQ transport and carry the requested count
    ensures |o.sent| <= 1
    ensures forall m :: m in o.sent ==> m.noirq && m.count == count
    ensures o.rc == 0 ==> o.rail.req == o.rail.prevReq
    ensures o.rc != 0 ==> o.rail.req == r.req && o.rail.prevReq == r.prevReq
    ensures o.sent == [] ==> o.rail.prevReq == r.prevReq
  {
    var v := S1Vote(r.req, r.prevReq, r.votes, voter, d, reply);
    Outcome(r.(req := v.gate.req, prevReq := v.gate.prevReq, votes := v.votes), v.gate.rc,
            Sent(v.gate.sent, count, true))
  }

  /**
   * `vreg_set`: merge `d` into the request words and commit them through the
   * blocking transport, except on the S1 rail, which votes as the regulator
   * framework's voter.
   */
  function VregSet(c: Config, r: Rail, d: Delta, count: nat, reply: int): (o: Outcome)
    // only the request words and the vote table can change
    ensures o.rail.(req := r.req, prevReq := r.prevReq, votes := r.votes) == r
    ensures |o.sent| <= 1
    // success leaves the request acknowledged, failure rolls it back
    ensures o.rc == 0 ==> o.rail.req == o.rail.prevReq
    ensures o.rc != 0 ==> o.rail.req == r.req && o.rail.prevReq == r.prevReq
    ensures o.sent == [] ==> o.rail.prevReq == r.prevReq
    // on every rail but S1: the merged words, sent unless they repeat the acknowledged ones
    ensures c.id != PM8058_S1 ==> o.rail.votes == r.votes
    ensures c.id != PM8058_S1 ==> (o.sent == [] <==> Apply(r.req, d) == r.prevReq)
    ensures c.id != PM8058_S1 && o.sent != [] ==>
      o.sent == [Message(Apply(r.req, d), count, false)] && o.rc == reply
    ensures c.id != PM8058_S1 && o.rc == 0 ==> o.rail.req == Apply(r.req, d)
    // on S1: the regulator framework's vote
    ensures c.id == PM8058_S1 ==> o == VregSetS1(r, c.regFrameworkVoter, d, count, reply)
  {
    if c.id == PM8058_S1 then VregSetS1(r, c.regFrameworkVoter, d, count, reply)
    else
      var g := Commit(r.req, Apply(r.req, d), r.prevReq, reply);
      Outcome(r.(req := g.req, prevReq := g.prevReq), g.rc, Sent(g.sent, count, false))
  }

  /**
   * Two requests in a row: once a request succeeded, repeating the same
   * mask/value pair on a rail other than S1 sends nothing and succeeds.
   */
  lemma {:induction false} RepeatedRequestSuppressed(c: Config, r: Rail, d: Delta, count: nat, reply1: int, reply2: int)
    requires c.id != PM8058_S1
    requires VregSet(c, r, d, count, reply1).rc == 0
    ensures var o := VregSet(c, r, d, count, reply1);
      VregSet(c, o.rail, d, count, reply2) == Outcome(o.rail, 0, [])
  {
    var o := VregSet(c, r, d, count, reply1);
    MergeIdempotent(r.req.w0, d.mask0, d.val0);
    MergeIdempotent(r.req.w1, d.mask1, d.val1);
    assert Apply(o.rail.req, d) == o.rail.req;
  }

  /** Merging the same mask/value pair twice is merging it once. */
  lemma MergeIdempotent(w: Word, mask: Word, val: Word)
    ensures Merge(Merge(w, mask, val), mask, val) == Merge(w, mask, val)
  {
  }
}
