/**
 * The regulator operations of the RPM regulator driver (the `ldo_*`,
 * `smps_*`, `switch_*` and `ncp_*` callbacks, the S1 no-IRQ vote and
 * `vreg_init`) as functions from a rail's state to an Outcome. LDO and SMPS
 * callbacks are textually the same code with the same masks, so one function
 * serves both families.
 */
module RpmOps {
  import opened Words
  import opened RpmRequest
  import opened RpmModes
  import opened RpmGate

  /** The rail's mode bookkeeping (`optimum`, `pc_vote`, `mode_initialized`). */
  function ModeOf(r: Rail): ModeState
  {
    ModeState(r.optimum, r.pcVote, r.modeInitialized)
  }

  function WithMode(r: Rail, st: ModeState): Rail
  {
    r.(optimum := st.optimum, pcVote := st.pcVote, modeInitialized := st.modeInitialized)
  }

  /** `if (!rc) return rc; if (min_uV) vreg->save_uV = min_uV;` after a voltage request. */
  function SaveOnFailure(o: Outcome, uV: int): Outcome
  {
    if o.rc != 0 && uV != 0 then o.(rail := o.rail.(saveUV := uV)) else o
  }

  // ---- voltage of LDO and SMPS rails ----

  /**
   * `ldo_set_voltage` / `smps_set_voltage`: request `MICRO_TO_MILLI(min_uV)`
   * through the gate; `save_uV` records the voltage only when the request
   * failed and the voltage is not zero.
   */
  function SetVoltage(c: Config, r: Rail, uV: int, reply: int): (o: Outcome)
    ensures var g := VregSet(c, r, VoltageDelta(uV), 2, reply);
      o.rc == g.rc && o.sent == g.sent && o.rail.(saveUV := r.saveUV) == g.rail
    ensures o.rail.saveUV != r.saveUV ==> o.rc != 0 && uV != 0
    ensures o.rc != 0 && uV != 0 ==> o.rail.saveUV == uV
  {
    SaveOnFailure(VregSet(c, r, VoltageDelta(uV), 2, reply), uV)
  }

  /** `ldo_is_enabled` / `smps_is_enabled`: the voltage field is not zero. */
  function IsEnabled(r: Rail): bool
  {
    VoltageField(r.req.w0) != 0
  }

  /** `ldo_get_voltage` / `smps_get_voltage`. */
  function GetVoltage(r: Rail): int
  {
    r.saveUV
  }

  /** `ldo_disable` / `smps_disable`: request voltage 0; `save_uV` is never touched. */
  function Disable(c: Config, r: Rail, reply: int): (o: Outcome)
    ensures o.rail.saveUV == r.saveUV
    ensures o.rail.(req := r.req, prevReq := r.prevReq, votes := r.votes) == r
  {
    SetVoltage(c, r, 0, reply)
  }

  /**
   * `ldo_enable` / `smps_enable`: re-request the saved voltage when it is at
   * least 1 mV; otherwise succeed without a request. `save_uV` keeps its value.
   */
  function Enable(c: Config, r: Rail, reply: int): (o: Outcome)
    ensures MicroToMilli(r.saveUV) <= 0 ==> o == Outcome(r, 0, [])
    ensures MicroToMilli(r.saveUV) > 0 ==> o == SetVoltage(c, r, r.saveUV, reply)
    ensures o.rail.saveUV == r.saveUV
  {
    if MicroToMilli(r.saveUV) > 0 then SetVoltage(c, r, r.saveUV, reply) else Outcome(r, 0, [])
  }

  /**
   * On a rail other than S1, a voltage request that succeeds is in force: the
   * voltage field holds the requested millivolts, word 1 is kept, and the rail
   * reads as enabled exactly when that voltage is not zero.
   */
  lemma {:induction false} SetVoltageTakesEffect(c: Config, r: Rail, uV: int, reply: int)
    requires c.id != PM8058_S1 && 0 <= MicroToMilli(uV) < 4096
    requires SetVoltage(c, r, uV, reply).rc == 0
    ensures var o := SetVoltage(c, r, uV, reply);
      && VoltageField(o.rail.req.w0) == ToWord(MicroToMilli(uV))
      && o.rail.req.w1 == r.req.w1
      && o.rail.prevReq == o.rail.req
      && (IsEnabled(o.rail) <==> MicroToMilli(uV) != 0)
  {
    VoltageDeltaReadsBack(r.req, uV);
    ToWordZero(MicroToMilli(uV));
  }

  /**
   * Disabling and re-enabling a rail other than S1 restores the saved
   * voltage: when both requests succeed the rail is on at `save_uV`, which
   * neither call changed.
   */
  lemma {:induction false} DisableEnableRestores(c: Config, r: Rail, reply1: int, reply2: int)
    requires c.id != PM8058_S1 && 0 < MicroToMilli(r.saveUV) < 4096
    requires Disable(c, r, reply1).rc == 0
    requires Enable(c, Disable(c, r, reply1).rail, reply2).rc == 0
    ensures var off := Disable(c, r, reply1).rail;
      var on := Enable(c, off, reply2).rail;
      && !IsEnabled(off) && IsEnabled(on)
      && VoltageField(on.req.w0) == ToWord(MicroToMilli(r.saveUV))
      && GetVoltage(on) == r.saveUV
  {
    var off := Disable(c, r, reply1).rail;
    SetVoltageTakesEffect(c, r, 0, reply1);
    SetVoltageTakesEffect(c, off, r.saveUV, reply2);
  }

  /**
   * On the shared S1 rail, disabling through the regulator framework only
   * withdraws the framework's vote: the request carries the highest vote left,
   * so the rail stays on while any other voter holds a nonzero vote.
   */
  lemma {:induction false} S1DisableKeepsOtherVotes(c: Config, r: Rail, reply: int)
    requires c.id == PM8058_S1 && 0 <= c.regFrameworkVoter < |r.votes| && VotesFit(r.votes)
    requires Disable(c, r, reply).rc == 0
    ensures var o := Disable(c, r, reply);
      && o.rail.votes == r.votes[c.regFrameworkVoter := 0]
      && (IsEnabled(o.rail) <==>
            exists i :: 0 <= i < |r.votes| && i != c.regFrameworkVoter && r.votes[i] > 0)
  {
    S1DisableWritesMax(c, r, reply);
    var votes := r.votes[c.regFrameworkVoter := 0];
    MaxVoteWithout(r.votes, c.regFrameworkVoter);
    ToWordZero(MaxVote(votes));
  }

  /** An S1 disable records a zero vote and programs the highest vote left. */
  lemma {:induction false} S1DisableWritesMax(c: Config, r: Rail, reply: int)
    requires c.id == PM8058_S1 && 0 <= c.regFrameworkVoter < |r.votes| && VotesFit(r.votes)
    ensures var o := Disable(c, r, reply);
      && o.rail.votes == r.votes[c.regFrameworkVoter := 0]
      && (o.rc == 0 ==> VoltageField(o.rail.req.w0) == ToWord(MaxVote(o.rail.votes)))
  {
    var d := VoltageDelta(0);
    VoltageDeltaReadsBack(r.req, 0);
    assert ToWord(0) == 0;
    S1VoteWritesMax(r.req, r.prevReq, r.votes, c.regFrameworkVoter, d, reply);
  }

  /** With one entry zeroed, the highest vote is nonzero exactly when another vote is. */
  lemma {:induction false} MaxVoteWithout(votes: seq<int>, k: int)
    requires 0 <= k < |votes| && VotesFit(votes)
    ensures VotesFit(votes[k := 0])
    ensures 0 <= MaxVote(votes[k := 0]) < 4096
    ensures MaxVote(votes[k := 0]) != 0 <==> exists i :: 0 <= i < |votes| && i != k && votes[i] > 0
  {
    var v := votes[k := 0];
    if exists i :: 0 <= i < |votes| && i != k && votes[i] > 0 {
      var i :| 0 <= i < |votes| && i != k && votes[i] > 0;
      assert v[i] == votes[i];
    }
    if MaxVote(v) != 0 {
      assert MaxVote(v) in v;
      var i :| 0 <= i < |v| && v[i] == MaxVote(v);
      assert i != k && votes[i] > 0;
    }
  }

  /** The PMIC 8901 revision as `pm8901_rev` reports it. */
  datatype Pm8901Revision = RevUnavailable | RevV1 | RevLater

  /**
   * `smps_8901_set_voltage`: on a v1 PMIC 8901 a nonzero voltage is scaled
   * down before it is requested; `save_uV` records the unscaled voltage.
   */
  function Smps8901SetVoltage(c: Config, r: Rail, uV: int, rev: Pm8901Revision, reply: int): (o: Outcome)
    // without scaling it is the plain SMPS request
    ensures uV == 0 || rev != RevV1 ==> o == SetVoltage(c, r, uV, reply)
    // with scaling, the scaled millivolts go through the gate
    ensures uV != 0 && rev == RevV1 ==>
      var g := VregSet(c, r, VoltageDelta(Pm8901V1Scale(uV)), 2, reply);
      o.rc == g.rc && o.sent == g.sent && o.rail.(saveUV := r.saveUV) == g.rail
    // what is saved is the caller's voltage, never the scaled one
    ensures o.rail.saveUV != r.saveUV ==> o.rc != 0 && o.rail.saveUV == uV
  {
    var scaled := if uV != 0 && rev == RevV1 then Pm8901V1Scale(uV) else uV;
    SaveOnFailure(VregSet(c, r, VoltageDelta(scaled), 2, reply), uV)
  }

  /**
   * What a v1 PMIC 8901 SMPS (not S1) transmits for a nonzero voltage: the
   * voltage field carries the scaled millivolts.
   */
  lemma {:induction false} Smps8901SendsScaled(c: Config, r: Rail, uV: int, reply: int)
    requires c.id != PM8058_S1 && uV != 0 && 0 <= MicroToMilli(Pm8901V1Scale(uV)) < 4096
    requires Smps8901SetVoltage(c, r, uV, RevV1, reply).sent != []
    ensures var o := Smps8901SetVoltage(c, r, uV, RevV1, reply);
      VoltageField(o.sent[0].req.w0) == ToWord(MicroToMilli(Pm8901V1Scale(uV)))
  {
    VoltageDeltaReadsBack(r.req, Pm8901V1Scale(uV));
  }

  /**
   * `pm8058_s1_set_min_uv_noirq`: `voter` votes for `min_uV` on the S1 rail
   * through the no-IRQ gate; as with the other voltage calls, `save_uV` is
   * written only when the call fails, and that includes a refused voter.
   */
  function S1SetMinUvNoirq(r: Rail, voter: int, uV: int, reply: int): (o: Outcome)
    ensures var g := VregSetS1(r, voter, VoltageDelta(uV), 2, reply);
      o.rc == g.rc && o.sent == g.sent && o.rail.(saveUV := r.saveUV) == g.rail
    ensures !(0 <= voter < |r.votes|) ==>
      o.rc == EInval && o.sent == [] && o.rail == r.(saveUV := if uV != 0 then uV else r.saveUV)
    ensures 0 <= voter < |r.votes| && 0 <= MicroToMilli(uV) < 4096 ==>
      o.rail.votes == r.votes[voter := ToWord(MicroToMilli(uV)) as int]
  {
    var o := SaveOnFailure(VregSetS1(r, voter, VoltageDelta(uV), 2, reply), uV);
    assert 0 <= voter < |r.votes| && 0 <= MicroToMilli(uV) < 4096 ==>
      o.rail.votes == r.votes[voter := ToWord(MicroToMilli(uV)) as int] by {
      if 0 <= voter < |r.votes| && 0 <= MicroToMilli(uV) < 4096 {
        VoltageDeltaReadsBack(r.req, uV);
      }
    }
    o
  }

  // ---- mode of LDO and SMPS rails ----

  /**
   * `ldo_set_mode` / `smps_set_mode`: the step CurrentRailSetMode decides is
   * run against the gate. The bookkeeping is committed when the step settles
   * without a request or when the request succeeds, and kept when it fails.
   */
  function SetMode(c: Config, r: Rail, mode: U32, reply: int): (o: Outcome)
    // an unknown mode is refused without any effect
    ensures !KnownMode(mode) ==> o == Outcome(r, EInval, [])
    // failure keeps the bookkeeping; success commits the step's bookkeeping
    ensures o.rc != 0 ==> ModeOf(o.rail) == ModeOf(r)
    ensures KnownMode(mode) && o.rc == 0 ==>
      ModeOf(o.rail) == CurrentRailSetMode(ModeOf(r), PeakMicroamps(r.req.w0), c.lpmMaxLoad, c.pdata.pinCtrl, mode).next
    // a settled step makes no request
    ensures CurrentRailSetMode(ModeOf(r), PeakMicroamps(r.req.w0), c.lpmMaxLoad, c.pdata.pinCtrl, mode).Settled? ==>
      o.rc == 0 && o.sent == [] && o.rail.(optimum := r.optimum, pcVote := r.pcVote,
                                            modeInitialized := r.modeInitialized) == r
    // a programming step is one request through the gate
    ensures var s := CurrentRailSetMode(ModeOf(r), PeakMicroamps(r.req.w0), c.lpmMaxLoad, c.pdata.pinCtrl, mode);
      s.Program? ==>
        var g := VregSet(c, r, RequestDelta(s.request), 2, reply);
        o.rc == g.rc && o.sent == g.sent && WithMode(o.rail, ModeOf(r)) == g.rail
  {
    match CurrentRailSetMode(ModeOf(r), PeakMicroamps(r.req.w0), c.lpmMaxLoad, c.pdata.pinCtrl, mode)
    case Rejected => Outcome(r, EInval, [])
    case Settled(next) => Outcome(WithMode(r, next), 0, [])
    case Program(request, next) =>
      var g := VregSet(c, r, RequestDelta(request), 2, reply);
      if g.rc != 0 then g else g.(rail := WithMode(g.rail, next))
  }

  /** The step CurrentRailSetMode takes on a rail. */
  function StepOf(c: Config, r: Rail, mode: U32): SetModeStep
  {
    CurrentRailSetMode(ModeOf(r), PeakMicroamps(r.req.w0), c.lpmMaxLoad, c.pdata.pinCtrl, mode)
  }

  /** The peak-current field a current vote leaves in word 0. */
  function PeakWordAfter(w0: Word, cur: CurrentVote): Word
  {
    match cur
    case KeepCurrent => PeakField(w0)
    case WriteCurrent(mA) => ToWord(mA)
  }

  /** For a load limit the fields can express, the thresholds fit the 12-bit current fields. */
  lemma ThresholdsFit(peakUA: int, lpmMaxLoad: int)
    requires LoadThresholdStep <= lpmMaxLoad < MaxPossibleLoad
    ensures RaiseToHpm(peakUA, lpmMaxLoad).WriteCurrent? ==> 0 <= RaiseToHpm(peakUA, lpmMaxLoad).mA < 4096
    ensures LowerToLpm(peakUA, lpmMaxLoad).WriteCurrent? ==> 0 <= LowerToLpm(peakUA, lpmMaxLoad).mA < 4096
  {
  }

  /**
   * The request words after a mode change that succeeds on a rail other than
   * S1: the pin-control field holds the step's pin vote (CurrentRailSetMode
   * says which, mode by mode), the voltage is kept, and the peak current is
   * what the step's current vote leaves (HysteresisBand says where that lies).
   */
  lemma {:induction false} SetModeFields(c: Config, r: Rail, mode: U32, reply: int)
    requires c.id != PM8058_S1 && LoadThresholdStep <= c.lpmMaxLoad < MaxPossibleLoad
    requires StepOf(c, r, mode).Program? && SetMode(c, r, mode, reply).rc == 0
    ensures var after := SetMode(c, r, mode, reply).rail.req;
      && PinCtrlField(after.w0) == PinValue(StepOf(c, r, mode).request.pin)
      && VoltageField(after.w0) == VoltageField(r.req.w0)
      && PeakField(after.w0) == PeakWordAfter(r.req.w0, StepOf(c, r, mode).request.current)
  {
    var s := StepOf(c, r, mode);
    ThresholdsFit(PeakMicroamps(r.req.w0), c.lpmMaxLoad);
    RequestDeltaEffect(r.req, s.request);
  }

  /**
   * `ldo_get_optimum_mode` / `smps_get_optimum_mode`: with a load of at
   * least 1 mA, the clipped load is written into both current fields, which
   * go out with the next request, and the mode follows the load; with less,
   * nothing is written and the current mode is returned.
   */
  datatype OptimumResult = OptimumResult(rail: Rail, mode: U32)

  /** The rail with a load in mA written into both current fields of its request. */
  function WithLoad(r: Rail, mA: Word): (rail: Rail)
    requires mA < 4096
    ensures rail.(req := r.req) == r
    ensures PeakField(rail.req.w0) == mA && AvgField(rail.req.w1) == mA
    ensures SameOutside(rail.req.w0, r.req.w0, PeakCurrentMask)
    ensures SameOutside(rail.req.w1, r.req.w1, AvgCurrentMask)
  {
    CurrentDeltaReadsBack(r.req, mA);
    CurrentDeltaKeepsRest(r.req, mA);
    r.(req := Apply(r.req, CurrentDelta(mA)))
  }

  function GetOptimumMode(c: Config, r: Rail, loadUA: int): (res: OptimumResult)
    ensures res.mode == OptimumMode(ModeOf(r), c.lpmMaxLoad, loadUA)
    ensures loadUA < 1000 ==> res.rail == r
    // only the request words change, and nothing is acknowledged
    ensures res.rail.(req := r.req) == r
    // at 1 mA or more both current fields take the clipped load, and every
    // other bit of the two request words is kept
    ensures loadUA >= 1000 ==>
      && PeakField(res.rail.req.w0) == ToWord(SaturatedMilliamps(loadUA))
      && AvgField(res.rail.req.w1) == ToWord(SaturatedMilliamps(loadUA))
      && SameOutside(res.rail.req.w0, r.req.w0, PeakCurrentMask)
      && SameOutside(res.rail.req.w1, r.req.w1, AvgCurrentMask)
  {
    if MicroToMilli(loadUA) > 0 then
      var mA := SaturatedMilliamps(loadUA);
      ToWordBelow4096(mA);
      OptimumResult(WithLoad(r, ToWord(mA)), if loadUA > c.lpmMaxLoad then ModeFast else ModeStandby)
    else
      OptimumResult(r, GetMode(ModeOf(r)))
  }

  // ---- switches ----

  function SwitchStateDelta(state: int): Delta
  {
    Delta(SwitchStateMask, ToWord(state), 0, 0)
  }

  /** `switch_enable`: one word, state ON. */
  function SwitchEnable(c: Config, r: Rail, reply: int): Outcome
  {
    VregSet(c, r, SwitchStateDelta(StateOn), 1, reply)
  }

  /** `switch_disable`: one word, state OFF. */
  function SwitchDisable(c: Config, r: Rail, reply: int): Outcome
  {
    VregSet(c, r, SwitchStateDelta(StateOff), 1, reply)
  }

  /** `switch_is_enabled`. */
  function SwitchIsEnabled(r: Rail): bool
  {
    SwitchStateField(r.req.w0) == ToWord(StateOn)
  }

  /** A switch is on after an enable that succeeds; pin control is untouched. */
  lemma {:induction false} SwitchEnableTurnsOn(c: Config, r: Rail, reply: int)
    requires IsSwitch(c.id)
    ensures var o := SwitchEnable(c, r, reply);
      o.rc == 0 ==> SwitchIsEnabled(o.rail) && SwitchPinCtrlField(o.rail.req.w0) == SwitchPinCtrlField(r.req.w0)
  {
    assert ToWord(StateOn) == 1;
    SwitchStateWrite(r.req.w0, 1);
  }

  /** A switch is off after a disable that succeeds; pin control is untouched. */
  lemma {:induction false} SwitchDisableTurnsOff(c: Config, r: Rail, reply: int)
    requires IsSwitch(c.id)
    ensures var o := SwitchDisable(c, r, reply);
      o.rc == 0 ==> !SwitchIsEnabled(o.rail) && SwitchPinCtrlField(o.rail.req.w0) == SwitchPinCtrlField(r.req.w0)
  {
    assert ToWord(StateOff) == 0;
    SwitchStateWrite(r.req.w0, 0);
  }

  lemma SwitchStateWrite(w0: Word, s: Word)
    requires s < 2
    ensures SwitchStateField(Merge(w0, SwitchStateMask, s)) == s
    ensures SwitchPinCtrlField(Merge(w0, SwitchStateMask, s)) == SwitchPinCtrlField(w0)
  {
  }

  /**
   * `switch_set_mode`: the step SwitchModeStep decides is run against the
   * gate; the counter is committed when the step settles or the request
   * succeeds.
   */
  function SwitchSetMode(c: Config, r: Rail, mode: U32, reply: int): (o: Outcome)
    ensures mode != ModeIdle && mode != ModeNormal ==> o == Outcome(r, EInval, [])
    ensures o.rc != 0 ==> o.rail.pcVote == r.pcVote
    ensures var s := SwitchModeStep(r.pcVote, c.pdata.pinCtrl, mode);
      && (s.SwitchSettled? ==> o == Outcome(r.(pcVote := s.pcVote), 0, []))
      && (s.SwitchProgram? ==>
            var g := VregSet(c, r, SwitchPinDelta(s.pin), 2, reply);
            o.rc == g.rc && o.sent == g.sent
            && o.rail == (if g.rc == 0 then g.rail.(pcVote := s.pcVote) else g.rail))
  {
    match SwitchModeStep(r.pcVote, c.pdata.pinCtrl, mode)
    case SwitchRejected => Outcome(r, EInval, [])
    case SwitchSettled(v) => Outcome(r.(pcVote := v), 0, [])
    case SwitchProgram(pin, v) =>
      var g := VregSet(c, r, SwitchPinDelta(pin), 2, reply);
      if g.rc != 0 then g else g.(rail := g.rail.(pcVote := v))
  }

  /**
   * A first IDLE vote on a switch that succeeds turns pin control on with the
   * board's value, and the release of the last vote turns it off again.
   */
  lemma {:induction false} SwitchPinCtrlFollowsVotes(c: Config, r: Rail, reply: int)
    requires IsSwitch(c.id)
    ensures r.pcVote == 0 && SwitchSetMode(c, r, ModeIdle, reply).rc == 0 ==>
      var o := SwitchSetMode(c, r, ModeIdle, reply);
      SwitchPinCtrlField(o.rail.req.w0) == ToWord(c.pdata.pinCtrl) & 0xF && o.rail.pcVote == 1
    ensures r.pcVote == 1 && SwitchSetMode(c, r, ModeNormal, reply).rc == 0 ==>
      var o := SwitchSetMode(c, r, ModeNormal, reply);
      SwitchPinCtrlField(o.rail.req.w0) == 0 && o.rail.pcVote == 0
  {
    SwitchPinDeltaEffect(r.req, SetPinCtrl(c.pdata.pinCtrl));
    SwitchPinDeltaEffect(r.req, ClearPinCtrl);
  }

  // ---- the negative charge pump ----

  function NcpStateDelta(state: int): Delta
  {
    Delta(NcpStateMask, ToWord(state) << NcpStateShift, 0, 0)
  }

  /** `ncp_enable`. */
  function NcpEnable(c: Config, r: Rail, reply: int): Outcome
  {
    VregSet(c, r, NcpStateDelta(StateOn), 2, reply)
  }

  /** `ncp_disable`. */
  function NcpDisable(c: Config, r: Rail, reply: int): Outcome
  {
    VregSet(c, r, NcpStateDelta(StateOff), 2, reply)
  }

  /** `ncp_is_enabled`. */
  function NcpIsEnabled(r: Rail): bool
  {
    NcpStateField(r.req.w0) == ToWord(StateOn)
  }

  /** `ncp_set_voltage`: unlike the LDO and SMPS calls it never touches `save_uV`. */
  function NcpSetVoltage(c: Config, r: Rail, uV: int, reply: int): (o: Outcome)
    ensures o.rail.saveUV == r.saveUV
  {
    VregSet(c, r, Delta(NcpVoltageMask, ToWord(MicroToMilli(uV)), 0, 0), 2, reply)
  }

  /** `ncp_get_voltage`: the voltage field in microvolts. */
  function NcpGetVoltage(r: Rail): (uV: int)
    ensures uV % 1000 == 0 && 0 <= uV < 4096 * 1000
  {
    (NcpVoltageField(r.req.w0) as int) * 1000
  }

  /** The charge pump is on after an enable that succeeds; its voltage is untouched. */
  lemma {:induction false} NcpEnableTurnsOn(c: Config, r: Rail, reply: int)
    requires IsNcp(c.id)
    ensures var o := NcpEnable(c, r, reply);
      o.rc == 0 ==> NcpIsEnabled(o.rail) && NcpVoltageField(o.rail.req.w0) == NcpVoltageField(r.req.w0)
  {
    assert ToWord(StateOn) == 1;
    NcpStateWrite(r.req.w0, 1);
  }

  /** The charge pump is off after a disable that succeeds; its voltage is untouched. */
  lemma {:induction false} NcpDisableTurnsOff(c: Config, r: Rail, reply: int)
    requires IsNcp(c.id)
    ensures var o := NcpDisable(c, r, reply);
      o.rc == 0 ==> !NcpIsEnabled(o.rail) && NcpVoltageField(o.rail.req.w0) == NcpVoltageField(r.req.w0)
  {
    assert ToWord(StateOff) == 0;
    NcpStateWrite(r.req.w0, 0);
  }

  /**
   * After a charge-pump voltage request that succeeds, get_voltage returns
   * the requested millivolts' field in microvolts and the on/off state is kept.
   */
  lemma {:induction false} NcpVoltageReadsBack(c: Config, r: Rail, uV: int, reply: int)
    requires IsNcp(c.id) && 0 <= MicroToMilli(uV) < 4096
    ensures var o := NcpSetVoltage(c, r, uV, reply);
      o.rc == 0 ==>
        NcpVoltageField(o.rail.req.w0) == ToWord(MicroToMilli(uV))
        && NcpGetVoltage(o.rail) == (ToWord(MicroToMilli(uV)) as int) * 1000
        && NcpIsEnabled(o.rail) == NcpIsEnabled(r)
  {
    ToWordBelow4096(MicroToMilli(uV));
    NcpVoltageWrite(r.req.w0, ToWord(MicroToMilli(uV)));
  }

  lemma NcpStateWrite(w0: Word, s: Word)
    requires s < 2
    ensures NcpStateField(Merge(w0, NcpStateMask, s << NcpStateShift)) == s
    ensures NcpVoltageField(Merge(w0, NcpStateMask, s << NcpStateShift)) == NcpVoltageField(w0)
  {
  }

  lemma NcpVoltageWrite(w0: Word, v: Word)
    requires v < 4096
    ensures NcpVoltageField(Merge(w0, NcpVoltageMask, v)) == v
    ensures NcpStateField(Merge(w0, NcpVoltageMask, v)) == NcpStateField(w0)
  {
  }

  // ---- the operation tables ----

  /** The `regulator_ops` table each entry of the `vregs` descriptor table names. */
  datatype OpsTable = LdoOps | SmpsOps | Smps8901Ops | SwitchOps | NcpOps

  /** The table a rail id is registered with. */
  function OpsOf(id: int): (t: Option<OpsTable>)
    ensures t == None <==> FamilyOf(id) == None
    ensures t == Some(LdoOps) <==> IsLdo(id)
    ensures t == Some(SmpsOps) <==> IsSmps(id) && !Is8901Smps(id)
    ensures t == Some(Smps8901Ops) <==> Is8901Smps(id)
    ensures t == Some(SwitchOps) <==> IsSwitch(id)
    ensures t == Some(NcpOps) <==> IsNcp(id)
  {
    match FamilyOf(id)
    case None => None
    case Some(Ldo) => Some(LdoOps)
    case Some(Smps) => if Is8901Smps(id) then Some(Smps8901Ops) else Some(SmpsOps)
    case Some(Ncp) => Some(NcpOps)
    case Some(Switch) => Some(SwitchOps)
  }

  /**
   * `.enable` of the rail's table. The 8901 SMPS table shares `smps_enable`
   * with the other SMPS rails, so its enable goes through the unscaled
   * voltage request.
   */
  function OpEnable(c: Config, r: Rail, reply: int): (o: Option<Outcome>)
    ensures o == None <==> OpsOf(c.id) == None
    ensures IsLdo(c.id) || IsSmps(c.id) ==> o == Some(Enable(c, r, reply))
    ensures IsSwitch(c.id) ==> o == Some(SwitchEnable(c, r, reply))
    ensures IsNcp(c.id) ==> o == Some(NcpEnable(c, r, reply))
  {
    match OpsOf(c.id)
    case None => None
    case Some(SwitchOps) => Some(SwitchEnable(c, r, reply))
    case Some(NcpOps) => Some(NcpEnable(c, r, reply))
    case Some(_) => Some(Enable(c, r, reply))
  }

  /** `.disable` of the rail's table. */
  function OpDisable(c: Config, r: Rail, reply: int): (o: Option<Outcome>)
    ensures o == None <==> OpsOf(c.id) == None
    ensures IsLdo(c.id) || IsSmps(c.id) ==> o == Some(Disable(c, r, reply))
    ensures IsSwitch(c.id) ==> o == Some(SwitchDisable(c, r, reply))
    ensures IsNcp(c.id) ==> o == Some(NcpDisable(c, r, reply))
  {
    match OpsOf(c.id)
    case None => None
    case Some(SwitchOps) => Some(SwitchDisable(c, r, reply))
    case Some(NcpOps) => Some(NcpDisable(c, r, reply))
    case Some(_) => Some(Disable(c, r, reply))
  }

  /** `.is_enabled` of the rail's table. */
  function OpIsEnabled(c: Config, r: Rail): (on: Option<bool>)
    ensures on == None <==> OpsOf(c.id) == None
    ensures IsLdo(c.id) || IsSmps(c.id) ==> on == Some(IsEnabled(r))
    ensures IsSwitch(c.id) ==> on == Some(SwitchIsEnabled(r))
    ensures IsNcp(c.id) ==> on == Some(NcpIsEnabled(r))
  {
    match OpsOf(c.id)
    case None => None
    case Some(SwitchOps) => Some(SwitchIsEnabled(r))
    case Some(NcpOps) => Some(NcpIsEnabled(r))
    case Some(_) => Some(IsEnabled(r))
  }

  /**
   * `.set_voltage` of the rail's table: switches have none, and only the
   * 8901 SMPS table scales for the PMIC revision.
   */
  function OpSetVoltage(c: Config, r: Rail, uV: int, rev: Pm8901Revision, reply: int): (o: Option<Outcome>)
    ensures o == None <==> OpsOf(c.id) == None || IsSwitch(c.id)
    ensures IsLdo(c.id) || (IsSmps(c.id) && !Is8901Smps(c.id)) ==> o == Some(SetVoltage(c, r, uV, reply))
    ensures Is8901Smps(c.id) ==> o == Some(Smps8901SetVoltage(c, r, uV, rev, reply))
    ensures IsNcp(c.id) ==> o == Some(NcpSetVoltage(c, r, uV, reply))
  {
    match OpsOf(c.id)
    case None => None
    case Some(SwitchOps) => None
    case Some(NcpOps) => Some(NcpSetVoltage(c, r, uV, reply))
    case Some(Smps8901Ops) => Some(Smps8901SetVoltage(c, r, uV, rev, reply))
    case Some(_) => Some(SetVoltage(c, r, uV, reply))
  }

  /** `.get_voltage` of the rail's table: switches have none. */
  function OpGetVoltage(c: Config, r: Rail): (uV: Option<int>)
    ensures uV == None <==> OpsOf(c.id) == None || IsSwitch(c.id)
    ensures IsLdo(c.id) || IsSmps(c.id) ==> uV == Some(GetVoltage(r))
    ensures IsNcp(c.id) ==> uV == Some(NcpGetVoltage(r))
  {
    match OpsOf(c.id)
    case None => None
    case Some(SwitchOps) => None
    case Some(NcpOps) => Some(NcpGetVoltage(r))
    case Some(_) => Some(GetVoltage(r))
  }

  /** `.set_mode` of the rail's table: the charge pump has none. */
  function OpSetMode(c: Config, r: Rail, mode: U32, reply: int): (o: Option<Outcome>)
    ensures o == None <==> OpsOf(c.id) == None || IsNcp(c.id)
    ensures IsLdo(c.id) || IsSmps(c.id) ==> o == Some(SetMode(c, r, mode, reply))
    ensures IsSwitch(c.id) ==> o == Some(SwitchSetMode(c, r, mode, reply))
  {
    match OpsOf(c.id)
    case None => None
    case Some(NcpOps) => None
    case Some(SwitchOps) => Some(SwitchSetMode(c, r, mode, reply))
    case Some(_) => Some(SetMode(c, r, mode, reply))
  }

  /** `.get_mode` of the rail's table: the charge pump has none. */
  function OpGetMode(c: Config, r: Rail): (m: Option<U32>)
    ensures m == None <==> OpsOf(c.id) == None || IsNcp(c.id)
    ensures IsLdo(c.id) || IsSmps(c.id) ==> m == Some(GetMode(ModeOf(r)))
    ensures IsSwitch(c.id) ==> m == Some(SwitchGetMode(r.pcVote))
  {
    match OpsOf(c.id)
    case None => None
    case Some(NcpOps) => None
    case Some(SwitchOps) => Some(SwitchGetMode(r.pcVote))
    case Some(_) => Some(GetMode(ModeOf(r)))
  }

  /** `.get_optimum_mode` of the rail's table: only LDO and SMPS rails have one. */
  function OpGetOptimumMode(c: Config, r: Rail, loadUA: int): (res: Option<OptimumResult>)
    ensures res.Some? <==> IsLdo(c.id) || IsSmps(c.id)
    ensures res.Some? ==> res.value == GetOptimumMode(c, r, loadUA)
  {
    match OpsOf(c.id)
    case Some(LdoOps) => Some(GetOptimumMode(c, r, loadUA))
    case Some(SmpsOps) => Some(GetOptimumMode(c, r, loadUA))
    case Some(Smps8901Ops) => Some(GetOptimumMode(c, r, loadUA))
    case _ => None
  }

  /**
   * Whatever its family, a rail other than S1 reads as off through its own
   * table after a disable through that table succeeds.
   */
  lemma {:induction false} OpDisableTurnsOff(c: Config, r: Rail, reply: int)
    requires OpsOf(c.id).Some? && c.id != PM8058_S1
    requires OpDisable(c, r, reply).value.rc == 0
    ensures OpIsEnabled(c, OpDisable(c, r, reply).value.rail) == Some(false)
  {
    if IsSwitch(c.id) {
      SwitchDisableTurnsOff(c, r, reply);
    } else if IsNcp(c.id) {
      NcpDisableTurnsOff(c, r, reply);
    } else {
      SetVoltageTakesEffect(c, r, 0, reply);
    }
  }

  /**
   * Whatever its family, a rail other than S1 reads as on through its own
   * table after an enable through that table succeeds, provided an LDO or
   * SMPS rail has a saved voltage of at least 1 mV that its field can hold
   * (with less, `enable` succeeds without a request).
   */
  lemma {:induction false} OpEnableTurnsOn(c: Config, r: Rail, reply: int)
    requires OpsOf(c.id).Some? && c.id != PM8058_S1
    requires IsLdo(c.id) || IsSmps(c.id) ==> 0 < MicroToMilli(r.saveUV) < 4096
    requires OpEnable(c, r, reply).value.rc == 0
    ensures OpIsEnabled(c, OpEnable(c, r, reply).value.rail) == Some(true)
  {
    if IsSwitch(c.id) {
      SwitchEnableTurnsOn(c, r, reply);
    } else if IsNcp(c.id) {
      NcpEnableTurnsOn(c, r, reply);
    } else {
      SetVoltageTakesEffect(c, r, r.saveUV, reply);
    }
  }

  /**
   * An 8901 SMPS enable re-requests `save_uV` unscaled, whatever the PMIC
   * revision: the scaling lives only in the table's `set_voltage`.
   */
  lemma {:induction false} Smps8901EnableUnscaled(c: Config, r: Rail, reply: int)
    requires Is8901Smps(c.id) && 0 < MicroToMilli(r.saveUV) < 4096
    requires OpEnable(c, r, reply).value.sent != []
    ensures VoltageField(OpEnable(c, r, reply).value.sent[0].req.w0) == ToWord(MicroToMilli(r.saveUV))
  {
    VoltageDeltaReadsBack(r.req, r.saveUV);
  }

  // ---- vreg_init ----

  /**
   * `vreg_init`: `save_uV`, `optimum` and `mode_initialized` are set for
   * every rail, then the family's encoder writes the request words; an id of
   * no family returns -EINVAL after the first three writes.
   */
  function Init(c: Config, r: Rail): (o: Outcome)
    ensures o.rail.saveUV == 1 && !o.rail.modeInitialized
    ensures o.rail.optimum == (if c.pdata.peakUA > c.lpmMaxLoad then ModeFast else ModeStandby)
    ensures o.rail.prevReq == r.prevReq && o.rail.pcVote == r.pcVote && o.rail.votes == r.votes
    ensures o.sent == []
    ensures o.rc == EInval <==> FamilyOf(c.id) == None
    ensures o.rc != EInval ==> o.rc == 0
    ensures FamilyOf(c.id) == None ==> o.rail.req == r.req
    ensures FamilyOf(c.id) == Some(Ldo) ==> o.rail.req == LdoInitWords(c.pdata)
    ensures FamilyOf(c.id) == Some(Smps) ==> o.rail.req == SmpsInitWords(c.pdata)
    ensures FamilyOf(c.id) == Some(Ncp) ==> o.rail.req == Words2(NcpInitWord(c.pdata), r.req.w1)
    ensures FamilyOf(c.id) == Some(Switch) ==> o.rail.req == Words2(SwitchInitWord(c.pdata), r.req.w1)
  {
    var base := r.(saveUV := 1, optimum := if c.pdata.peakUA > c.lpmMaxLoad then ModeFast else ModeStandby,
                   modeInitialized := false);
    if IsLdo(c.id) then Outcome(base.(req := LdoInitWords(c.pdata)), 0, [])
    else if IsSmps(c.id) then Outcome(base.(req := SmpsInitWords(c.pdata)), 0, [])
    else if IsNcp(c.id) then Outcome(base.(req := Words2(NcpInitWord(c.pdata), r.req.w1)), 0, [])
    else if IsSwitch(c.id) then Outcome(base.(req := Words2(SwitchInitWord(c.pdata), r.req.w1)), 0, [])
    else Outcome(base, EInval, [])
  }

  /**
   * After `vreg_init` on a rail with no pin-control vote, get_mode reports
   * FAST exactly when the board's peak load exceeds `lpm_max_load`, and an
   * LDO or SMPS rail is on exactly when its default voltage is at least 1 mV.
   */
  lemma {:induction false} InitModeAndState(c: Config, r: Rail)
    requires r.pcVote == 0
    ensures var o := Init(c, r);
      GetMode(ModeOf(o.rail)) == (if c.pdata.peakUA > c.lpmMaxLoad then ModeFast else ModeStandby)
    ensures (IsLdo(c.id) || IsSmps(c.id)) && FitsCurrentRail(c.pdata) && (IsSmps(c.id) ==> 0 <= c.pdata.freq < 256) ==>
      (IsEnabled(Init(c, r).rail) <==> MicroToMilli(c.pdata.defaultUV) != 0)
  {
    if (IsLdo(c.id) || IsSmps(c.id)) && FitsCurrentRail(c.pdata) {
      assert 0 <= MicroToMilli(c.pdata.defaultUV) < 4096;
      ToWordZero(MicroToMilli(c.pdata.defaultUV));
    }
  }
}
