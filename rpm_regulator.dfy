/**
 * The rails of the RPM regulator driver as objects (`struct vreg`): each
 * operation updates the request words and the bookkeeping in place, as the
 * driver does, and is proved to leave exactly the state the functions of
 * RpmGate and RpmOps describe. The RPM transport is an object that records
 * every request; its answer is a parameter of each call.
 */
module RpmRegulator {
  import opened Words
  import opened RpmRequest
  import opened RpmModes
  import opened RpmGate
  import Ops = RpmOps

  /**
   * `msm_rpm_set` / `msm_rpm_set_noirq`: every request handed over is
   * recorded, and the call returns the answer the caller supplies.
   */
  class Transport {
    var sent: seq<Message>

    constructor ()
      ensures sent == []
    {
      sent := [];
    }

    method Send(m: Message, reply: int) returns (rc: int)
      modifies this
      ensures sent == old(sent) + [m] && rc == reply
    {
      sent := sent + [m];
      rc := reply;
    }
  }

  /** One entry of the `vregs` table. */
  class Vreg {
    const id: int
    const lpmMaxLoad: int
    const pdata: PlatformData
    /** The index the regulator framework votes with on the S1 rail. */
    const regFrameworkVoter: int
    /** `min_mV_votes`: the per-voter millivolt votes of the S1 rail. */
    const votes: array<int>

    var req: Words2
    var prevReq: Words2
    var saveUV: int
    var pcVote: U32
    var optimum: U32
    var modeInitialized: bool

    function Cfg(): Config
    {
      Config(id, lpmMaxLoad, pdata, regFrameworkVoter)
    }

    function State(): Rail
      reads this, votes
    {
      Rail(req, prevReq, saveUV, pcVote, optimum, modeInitialized, votes[..])
    }

    /** Every vote is a 12-bit voltage field. */
    predicate Valid()
      reads this, votes
    {
      VotesFit(votes[..])
    }

    /**
     * A `vregs` entry before `vreg_init`: the static table gives the load
     * limit, and everything else is zero.
     */
    constructor (id: int, pdata: PlatformData, voters: nat, regFrameworkVoter: int)
      ensures this.id == id && this.pdata == pdata && this.regFrameworkVoter == regFrameworkVoter
      ensures lpmMaxLoad == LpmMaxLoadOf(id)
      ensures fresh(votes) && votes.Length == voters
      ensures State() == Rail(Words2(0, 0), Words2(0, 0), 0, 0, 0, false, seq(voters, _ => 0))
      ensures Valid()
    {
      this.id := id;
      this.pdata := pdata;
      this.regFrameworkVoter := regFrameworkVoter;
      lpmMaxLoad := LpmMaxLoadOf(id);
      votes := new int[voters](_ => 0);
      req := Words2(0, 0);
      prevReq := Words2(0, 0);
      saveUV := 0;
      pcVote := 0;
      optimum := 0;
      modeInitialized := false;
    }

    /** The loop of `vreg_set_pm8058_s1` that finds the highest vote. */
    method HighestVote() returns (m: int)
      ensures m == MaxVote(votes[..])
      ensures forall i :: 0 <= i < votes.Length ==> votes[i] <= m
    {
      m := 0;
      var i := 0;
      while i < votes.Length
        invariant 0 <= i <= votes.Length
        invariant m == MaxVote(votes[..i])
      {
        assert votes[..i + 1][..i] == votes[..i];
        m := Max(m, votes[i]);
        i := i + 1;
      }
      assert votes[..i] == votes[..];
    }

    /**
     * The commit step of both gates: drop a request equal to the acknowledged
     * one, otherwise transmit it and roll back to `before` if the transport fails.
     */
    method Transmit(before: Words2, count: nat, noirq: bool, t: Transport, reply: int) returns (rc: int)
      modifies this, t
      ensures var g := Commit(before, old(req), old(prevReq), reply);
        State() == old(State()).(req := g.req, prevReq := g.prevReq) && rc == g.rc
        && t.sent == old(t.sent) + Sent(g.sent, count, noirq)
    {
      // duplicate requests are not sent
      if req == prevReq {
        return 0;
      }
      rc := t.Send(Message(req, count, noirq), reply);
      if rc != 0 {
        req := before;
      } else {
        prevReq := req;
      }
    }

    /** `vreg_set_pm8058_s1`, run on the S1 rail's entry. */
    method SetS1(voter: int, d: Delta, count: nat, t: Transport, reply: int) returns (rc: int)
      requires Valid()
      modifies this, votes, t
      ensures Valid()
      ensures var o := VregSetS1(old(State()), voter, d, count, reply);
        State() == o.rail && rc == o.rc && t.sent == old(t.sent) + o.sent
    {
      if !(0 <= voter < votes.Length) {
        return EInval;
      }
      var prev := req;
      req := Words2(Merge(req.w0, d.mask0, d.val0), req.w1);
      req := Words2(req.w0, Merge(req.w1, d.mask1, d.val1));
      assert req == Apply(prev, d);
      VoltageFieldFits(req.w0);
      votes[voter] := VoltageField(req.w0) as int;
      var maxVote := HighestVote();
      req := Words2(Merge(req.w0, VoltageMask, ToWord(maxVote)), req.w1);
      assert req == S1Target(Apply(prev, d), votes[..]);
      rc := Transmit(prev, count, true, t, reply);
    }

    /** `vreg_set`: the S1 rail votes as the regulator framework; every other rail merges and commits. */
    method Set(d: Delta, count: nat, t: Transport, reply: int) returns (rc: int)
      requires Valid()
      modifies this, votes, t
      ensures Valid()
      ensures var o := VregSet(Cfg(), old(State()), d, count, reply);
        State() == o.rail && rc == o.rc && t.sent == old(t.sent) + o.sent
    {
      if id == PM8058_S1 {
        rc := SetS1(regFrameworkVoter, d, count, t, reply);
      } else {
        rc := SetDirect(d, count, t, reply);
      }
    }

    /** The normal route of `vreg_set`: merge the pair into the request words and commit them. */
    method SetDirect(d: Delta, count: nat, t: Transport, reply: int) returns (rc: int)
      requires id != PM8058_S1
      modifies this, t
      ensures var o := VregSet(Cfg(), old(State()), d, count, reply);
        State() == o.rail && rc == o.rc && t.sent == old(t.sent) + o.sent
    {
      var prev := req;
      req := Words2(Merge(req.w0, d.mask0, d.val0), req.w1);
      req := Words2(req.w0, Merge(req.w1, d.mask1, d.val1));
      assert req == Apply(prev, d);
      rc := Transmit(prev, count, false, t, reply);
    }

    /** `pm8058_s1_set_min_uv_noirq` on the S1 rail. */
    method S1SetMinUvNoirq(voter: int, uV: int, t: Transport, reply: int) returns (rc: int)
      requires Valid() && id == PM8058_S1
      modifies this, votes, t
      ensures Valid()
      ensures var o := Ops.S1SetMinUvNoirq(old(State()), voter, uV, reply);
        State() == o.rail && rc == o.rc && t.sent == old(t.sent) + o.sent
    {
      rc := SetS1(voter, VoltageDelta(uV), 2, t, reply);
      if rc == 0 {
        return;
      }
      if uV != 0 {
        saveUV := uV;
      }
    }

    /** `ldo_set_voltage` / `smps_set_voltage`. */
    method SetVoltage(uV: int, t: Transport, reply: int) returns (rc: int)
      requires Valid()
      modifies this, votes, t
      ensures Valid()
      ensures var o := Ops.SetVoltage(Cfg(), old(State()), uV, reply);
        State() == o.rail && rc == o.rc && t.sent == old(t.sent) + o.sent
    {
      rc := Set(VoltageDelta(uV), 2, t, reply);
      if rc == 0 {
        return;
      }
      if uV != 0 {
        saveUV := uV;
      }
    }

    /** `smps_8901_set_voltage`, with the PMIC revision supplied by the caller. */
    method Smps8901SetVoltage(uV: int, rev: Ops.Pm8901Revision, t: Transport, reply: int) returns (rc: int)
      requires Valid()
      modifies this, votes, t
      ensures Valid()
      ensures var o := Ops.Smps8901SetVoltage(Cfg(), old(State()), uV, rev, reply);
        State() == o.rail && rc == o.rc && t.sent == old(t.sent) + o.sent
    {
      var scaled := uV;
      if uV != 0 && rev == Ops.RevV1 {
        scaled := Pm8901V1Scale(uV);
      }
      rc := Set(VoltageDelta(scaled), 2, t, reply);
      if rc == 0 {
        return;
      }
      if uV != 0 {
        saveUV := uV;
      }
    }

    /** `ldo_enable` / `smps_enable`. */
    method Enable(t: Transport, reply: int) returns (rc: int)
      requires Valid()
      modifies this, votes, t
      ensures Valid()
      ensures var o := Ops.Enable(Cfg(), old(State()), reply);
        State() == o.rail && rc == o.rc && t.sent == old(t.sent) + o.sent
    {
      rc := 0;
      if MicroToMilli(saveUV) > 0 {
        rc := SetVoltage(saveUV, t, reply);
      }
    }

    /** `ldo_disable` / `smps_disable`. */
    method Disable(t: Transport, reply: int) returns (rc: int)
      requires Valid()
      modifies this, votes, t
      ensures Valid()
      ensures var o := Ops.Disable(Cfg(), old(State()), reply);
        State() == o.rail && rc == o.rc && t.sent == old(t.sent) + o.sent
    {
      rc := SetVoltage(0, t, reply);
    }

    /** `ldo_set_mode` / `smps_set_mode`. */
    method SetMode(mode: U32, t: Transport, reply: int) returns (rc: int)
      requires Valid()
      modifies this, votes, t
      ensures Valid()
      ensures var o := Ops.SetMode(Cfg(), old(State()), mode, reply);
        State() == o.rail && rc == o.rc && t.sent == old(t.sent) + o.sent
    {
      var peakUA := PeakMicroamps(req.w0);
      var step := CurrentRailSetMode(ModeState(optimum, pcVote, modeInitialized), peakUA,
                                     lpmMaxLoad, pdata.pinCtrl, mode);
      match step
      case Rejected =>
        return EInval;
      case Settled(next) =>
        optimum, pcVote, modeInitialized := next.optimum, next.pcVote, next.modeInitialized;
        return 0;
      case Program(request, next) =>
        rc := Set(RequestDelta(request), 2, t, reply);
        if rc != 0 {
          return;
        }
        optimum, pcVote, modeInitialized := next.optimum, next.pcVote, next.modeInitialized;
    }

    /** `ldo_get_optimum_mode` / `smps_get_optimum_mode`: writes the load without sending it. */
    method GetOptimumMode(loadUA: int) returns (mode: U32)
      requires Valid()
      modifies this
      ensures Valid()
      ensures var res := Ops.GetOptimumMode(Cfg(), old(State()), loadUA);
        State() == res.rail && mode == res.mode
    {
      if MicroToMilli(loadUA) > 0 {
        // both current fields take the clipped load in mA
        req := Apply(req, CurrentDelta(ToWord(SaturatedMilliamps(loadUA))));
      } else {
        return GetMode(ModeState(optimum, pcVote, modeInitialized));
      }
      if loadUA > lpmMaxLoad {
        return ModeFast;
      }
      return ModeStandby;
    }

    /** `switch_enable`. */
    method SwitchEnable(t: Transport, reply: int) returns (rc: int)
      requires Valid()
      modifies this, votes, t
      ensures Valid()
      ensures var o := Ops.SwitchEnable(Cfg(), old(State()), reply);
        State() == o.rail && rc == o.rc && t.sent == old(t.sent) + o.sent
    {
      rc := Set(Ops.SwitchStateDelta(StateOn), 1, t, reply);
    }

    /** `switch_disable`. */
    method SwitchDisable(t: Transport, reply: int) returns (rc: int)
      requires Valid()
      modifies this, votes, t
      ensures Valid()
      ensures var o := Ops.SwitchDisable(Cfg(), old(State()), reply);
        State() == o.rail && rc == o.rc && t.sent == old(t.sent) + o.sent
    {
      rc := Set(Ops.SwitchStateDelta(StateOff), 1, t, reply);
    }

    /** `switch_set_mode`. */
    method SwitchSetMode(mode: U32, t: Transport, reply: int) returns (rc: int)
      requires Valid()
      modifies this, votes, t
      ensures Valid()
      ensures var o := Ops.SwitchSetMode(Cfg(), old(State()), mode, reply);
        State() == o.rail && rc == o.rc && t.sent == old(t.sent) + o.sent
    {
      match SwitchModeStep(pcVote, pdata.pinCtrl, mode)
      case SwitchRejected =>
        return EInval;
      case SwitchSettled(v) =>
        pcVote := v;
        return 0;
      case SwitchProgram(pin, v) =>
        rc := Set(SwitchPinDelta(pin), 2, t, reply);
        if rc != 0 {
          return;
        }
        pcVote := v;
    }

    /** `ncp_enable`. */
    method NcpEnable(t: Transport, reply: int) returns (rc: int)
      requires Valid()
      modifies this, votes, t
      ensures Valid()
      ensures var o := Ops.NcpEnable(Cfg(), old(State()), reply);
        State() == o.rail && rc == o.rc && t.sent == old(t.sent) + o.sent
    {
      rc := Set(Ops.NcpStateDelta(StateOn), 2, t, reply);
    }

    /** `ncp_disable`. */
    method NcpDisable(t: Transport, reply: int) returns (rc: int)
      requires Valid()
      modifies this, votes, t
      ensures Valid()
      ensures var o := Ops.NcpDisable(Cfg(), old(State()), reply);
        State() == o.rail && rc == o.rc && t.sent == old(t.sent) + o.sent
    {
      rc := Set(Ops.NcpStateDelta(StateOff), 2, t, reply);
    }

    /** `ncp_set_voltage`. */
    method NcpSetVoltage(uV: int, t: Transport, reply: int) returns (rc: int)
      requires Valid()
      modifies this, votes, t
      ensures Valid()
      ensures var o := Ops.NcpSetVoltage(Cfg(), old(State()), uV, reply);
        State() == o.rail && rc == o.rc && t.sent == old(t.sent) + o.sent
    {
      rc := Set(Delta(NcpVoltageMask, ToWord(MicroToMilli(uV)), 0, 0), 2, t, reply);
    }

    /** `vreg_init`. */
    method Init() returns (rc: int)
      requires Valid()
      modifies this
      ensures Valid()
      ensures var o := Ops.Init(Cfg(), old(State()));
        State() == o.rail && rc == o.rc
    {
      saveUV := 1;
      if pdata.peakUA > lpmMaxLoad {
        optimum := ModeFast;
      } else {
        optimum := ModeStandby;
      }
      modeInitialized := false;
      ghost var base := State();

      if IsLdo(id) {
        req := LdoInitWords(pdata);
      } else if IsSmps(id) {
        req := SmpsInitWords(pdata);
      } else if IsNcp(id) {
        req := Words2(NcpInitWord(pdata), req.w1);
      } else if IsSwitch(id) {
        req := Words2(SwitchInitWord(pdata), req.w1);
      } else {
        return EInval;
      }
      assert State() == base.(req := req);
      return 0;
    }
  }
}
