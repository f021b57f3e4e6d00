/**
 * The mode logic of the RPM regulator driver as pure functions
 * (arch/arm/mach-msm/rpm-regulator.c): what `ldo_set_mode`/`smps_set_mode`
 * and `switch_set_mode` decide for a requested mode, the pin-control vote
 * counting, `*_get_mode` and `*_get_optimum_mode`'s choice.
 *
 * A decision is either a rejection, a settled change of the bookkeeping
 * only (the `goto done` paths), or a request to program the RPM followed by
 * the bookkeeping to commit when the request succeeds. The request is a
 * structured value; RequestDelta turns it into the mask/value pair the
 * driver hands to `vreg_set`.
 */
module RpmModes {
  import opened Words
  import opened RpmRequest

  /** What a mode change does to the peak- and average-current fields. */
  datatype CurrentVote = KeepCurrent | WriteCurrent(mA: int)

  /** What a mode change does to the pin-control field (it always writes it). */
  datatype PinVote = ClearPinCtrl | SetPinCtrl(pinCtrl: int)

  datatype ModeRequest = ModeRequest(current: CurrentVote, pin: PinVote)

  /** `optimum`, `pc_vote` and `mode_initialized` of a rail. */
  datatype ModeState = ModeState(optimum: U32, pcVote: U32, modeInitialized: bool)

  datatype SetModeStep =
    | Rejected
    | Settled(next: ModeState)
    | Program(request: ModeRequest, next: ModeState)

  predicate KnownMode(mode: U32)
  {
    mode == ModeFast || mode == ModeNormal || mode == ModeIdle || mode == ModeStandby
  }

  /** `pc_vote++` on an `unsigned`. */
  function IncrementVote(v: U32): (r: U32)
    ensures v < Two32 - 1 ==> r == v + 1
    ensures v == Two32 - 1 ==> r == 0
  {
    (v + 1) % Two32
  }

  /** `--pc_vote` on an `unsigned`. */
  function DecrementVote(v: U32): (r: U32)
    ensures v > 0 ==> r == v - 1
    ensures v == 0 ==> r == Two32 - 1
  {
    (v - 1) % Two32
  }

  /** The mask/value pair `ldo_set_mode`/`smps_set_mode` pass to `vreg_set`. */
  function RequestDelta(r: ModeRequest): Delta
  {
    var cur := match r.current
      case KeepCurrent => Delta(0, 0, 0, 0)
      case WriteCurrent(mA) => CurrentDelta(ToWord(mA));
    Delta(cur.mask0 | PinCtrlMask, cur.val0 | PinBits(r.pin), cur.mask1, cur.val1)
  }

  /** The pin-control field a request leaves in word 0 (four bits of `pin_ctrl`). */
  function PinValue(p: PinVote): Word
  {
    match p
    case ClearPinCtrl => 0
    case SetPinCtrl(pc) => ToWord(pc) & 0xF
  }

  /**
   * The effect of a mode request on the request words: the pin-control field
   * becomes the voted value, the current fields are rewritten only when the
   * request says so, and the voltage field is never touched.
   */
  lemma {:induction false} RequestDeltaEffect(w: Words2, r: ModeRequest)
    requires r.current.WriteCurrent? ==> 0 <= r.current.mA < 4096
    ensures PinCtrlField(Apply(w, RequestDelta(r)).w0) == PinValue(r.pin)
    ensures VoltageField(Apply(w, RequestDelta(r)).w0) == VoltageField(w.w0)
    ensures r.current.WriteCurrent? ==>
      PeakField(Apply(w, RequestDelta(r)).w0) == ToWord(r.current.mA)
      && AvgField(Apply(w, RequestDelta(r)).w1) == ToWord(r.current.mA)
    ensures r.current.KeepCurrent? ==>
      PeakField(Apply(w, RequestDelta(r)).w0) == PeakField(w.w0)
      && Apply(w, RequestDelta(r)).w1 == w.w1
  {
    var pinVal := PinBits(r.pin);
    PinBitsFacts(r.pin);
    match r.current
    case KeepCurrent =>
      KeepRequestWord0(w, r, pinVal);
      KeepPin(w.w0, pinVal);
      KeepVoltage(w.w0, pinVal);
      KeepPeak(w.w0, pinVal);
      MergeNothing(w.w1, 0);
    case WriteCurrent(mA) =>
      ToWordBelow4096(mA);
      var f := ToWord(mA);
      WriteRequestWords(w, r, f, pinVal);
      WritePin(w.w0, f, pinVal);
      WriteVoltage(w.w0, f, pinVal);
      WritePeak(w.w0, f, pinVal);
      CurrentDeltaReadsBack(w, f);
  }

  /** The value `ldo_set_mode`/`smps_set_mode` OR into word 0 for a pin vote. */
  function PinBits(p: PinVote): Word
  {
    match p
    case ClearPinCtrl => 0
    case SetPinCtrl(pc) => ToWord(pc) << PinCtrlShift
  }

  lemma {:induction false} PinBitsFacts(p: PinVote)
    ensures PinCtrlField(PinBits(p)) == PinValue(p)
    ensures PinBits(p) & 0x03FF_FFFF == 0
  {
    match p
    case ClearPinCtrl =>
    case SetPinCtrl(pc) =>
      PinShiftReadsBack(ToWord(pc));
      PinShiftLowBits(ToWord(pc));
  }

  lemma PinShiftLowBits(x: Word)
    ensures (x << PinCtrlShift) & 0x03FF_FFFF == 0
  {
  }

  lemma KeepRequestWord0(w: Words2, r: ModeRequest, pinVal: Word)
    requires r.current.KeepCurrent? && pinVal == PinBits(r.pin)
    ensures Apply(w, RequestDelta(r)).w0 == Merge(w.w0, PinCtrlMask, pinVal)
  {
  }

  lemma WriteRequestWords(w: Words2, r: ModeRequest, f: Word, pinVal: Word)
    requires r.current.WriteCurrent? && f == ToWord(r.current.mA) && pinVal == PinBits(r.pin)
    ensures Apply(w, RequestDelta(r)).w0
      == Merge(w.w0, PeakCurrentMask | PinCtrlMask, ((f << PeakCurrentShift) & PeakCurrentMask) | pinVal)
    ensures Apply(w, RequestDelta(r)).w1 == Apply(w, CurrentDelta(f)).w1
  {
  }

  lemma PinShiftReadsBack(x: Word)
    ensures PinCtrlField(x << PinCtrlShift) == x & 0xF
  {
  }

  // Word 0 after a mode request that keeps the currents: only pin control is merged.

  lemma KeepPin(w0: Word, pinVal: Word)
    ensures PinCtrlField(Merge(w0, PinCtrlMask, pinVal)) == PinCtrlField(pinVal)
  {
  }

  lemma KeepVoltage(w0: Word, pinVal: Word)
    ensures VoltageField(Merge(w0, PinCtrlMask, pinVal)) == VoltageField(w0)
  {
  }

  lemma KeepPeak(w0: Word, pinVal: Word)
    ensures PeakField(Merge(w0, PinCtrlMask, pinVal)) == PeakField(w0)
  {
  }

  // Word 0 after a mode request that writes the currents: peak and pin control are merged.

  lemma WritePin(w0: Word, f: Word, pinVal: Word)
    requires pinVal & 0x03FF_FFFF == 0
    ensures PinCtrlField(Merge(w0, PeakCurrentMask | PinCtrlMask,
      ((f << PeakCurrentShift) & PeakCurrentMask) | pinVal)) == PinCtrlField(pinVal)
  {
  }

  lemma WriteVoltage(w0: Word, f: Word, pinVal: Word)
    requires pinVal & 0x03FF_FFFF == 0
    ensures VoltageField(Merge(w0, PeakCurrentMask | PinCtrlMask,
      ((f << PeakCurrentShift) & PeakCurrentMask) | pinVal)) == VoltageField(w0)
  {
  }

  lemma WritePeak(w0: Word, f: Word, pinVal: Word)
    requires f < 4096 && pinVal & 0x03FF_FFFF == 0
    ensures PeakField(Merge(w0, PeakCurrentMask | PinCtrlMask,
      ((f << PeakCurrentShift) & PeakCurrentMask) | pinVal)) == f
  {
  }

  // ---- hysteresis ----

  /**
   * FAST's adjustment: when the peak current is below `vreg_hpm_min_uA`, both
   * current fields are raised to it (in mA, truncated); otherwise they stay.
   */
  function RaiseToHpm(peakUA: int, lpmMaxLoad: int): (c: CurrentVote)
    ensures c.KeepCurrent? <==> peakUA >= HpmMinMicroamps(lpmMaxLoad)
    ensures c.WriteCurrent? ==> c.mA == MicroToMilli(HpmMinMicroamps(lpmMaxLoad))
  {
    if peakUA < HpmMinMicroamps(lpmMaxLoad) then WriteCurrent(MicroToMilli(HpmMinMicroamps(lpmMaxLoad)))
    else KeepCurrent
  }

  /**
   * STANDBY's adjustment: when the peak current is above `vreg_lpm_max_uA`,
   * both current fields are lowered to it; otherwise they stay.
   */
  function LowerToLpm(peakUA: int, lpmMaxLoad: int): (c: CurrentVote)
    ensures c.KeepCurrent? <==> peakUA <= LpmMaxMicroamps(lpmMaxLoad)
    ensures c.WriteCurrent? ==> c.mA == MicroToMilli(LpmMaxMicroamps(lpmMaxLoad))
  {
    if peakUA > LpmMaxMicroamps(lpmMaxLoad) then WriteCurrent(MicroToMilli(LpmMaxMicroamps(lpmMaxLoad)))
    else KeepCurrent
  }

  /** The peak current, in uA, after a current vote. */
  function PeakAfter(peakUA: int, c: CurrentVote): int
  {
    match c
    case KeepCurrent => peakUA
    case WriteCurrent(mA) => mA * 1000
  }

  /**
   * With a load limit on a milliamp boundary, FAST leaves the peak at
   * `max(peak, lpm_max_load + 1000)` and STANDBY at `min(peak, lpm_max_load - 1000)`:
   * the two modes are 2000 uA apart, and repeating either changes nothing.
   */
  lemma {:induction false} HysteresisBand(peakUA: int, lpmMaxLoad: int)
    requires lpmMaxLoad >= LoadThresholdStep && lpmMaxLoad % 1000 == 0
    ensures PeakAfter(peakUA, RaiseToHpm(peakUA, lpmMaxLoad))
      == if peakUA < lpmMaxLoad + 1000 then lpmMaxLoad + 1000 else peakUA
    ensures PeakAfter(peakUA, LowerToLpm(peakUA, lpmMaxLoad))
      == if peakUA > lpmMaxLoad - 1000 then lpmMaxLoad - 1000 else peakUA
    ensures RaiseToHpm(PeakAfter(peakUA, RaiseToHpm(peakUA, lpmMaxLoad)), lpmMaxLoad) == KeepCurrent
    ensures LowerToLpm(PeakAfter(peakUA, LowerToLpm(peakUA, lpmMaxLoad)), lpmMaxLoad) == KeepCurrent
  {
    var k := lpmMaxLoad / 1000;
    assert lpmMaxLoad == k * 1000;
    assert MicroToMilli(HpmMinMicroamps(lpmMaxLoad)) == k + 1;
    assert MicroToMilli(LpmMaxMicroamps(lpmMaxLoad)) == k - 1;
  }

  // ---- ldo_set_mode / smps_set_mode ----

  /**
   * The decision of `ldo_set_mode` / `smps_set_mode` for `mode`, given the
   * rail's bookkeeping, the peak current currently requested (`peak_uA`),
   * its `lpm_max_load` and the board's `pin_ctrl` value.
   */
  function CurrentRailSetMode(st: ModeState, peakUA: int, lpmMaxLoad: int, pinCtrl: int, mode: U32)
    : (s: SetModeStep)
    // an unknown mode is rejected, a known one never is
    ensures s.Rejected? <==> !KnownMode(mode)
    // FAST: raise the currents to the HPM threshold if below it, clear pin control
    ensures mode == ModeFast ==>
      s.Program? && s.request == ModeRequest(RaiseToHpm(peakUA, lpmMaxLoad), ClearPinCtrl)
      && s.next == st.(optimum := ModeFast, modeInitialized := true)
    // STANDBY: lower the currents to the LPM threshold if above it; pin control iff votes are held
    ensures mode == ModeStandby ==>
      s.Program? && s.request.current == LowerToLpm(peakUA, lpmMaxLoad)
      && (st.pcVote > 0 ==> s.request.pin == SetPinCtrl(pinCtrl))
      && (st.pcVote == 0 ==> s.request.pin == ClearPinCtrl)
      && s.next == st.(optimum := ModeStandby, modeInitialized := true)
    // IDLE: only the first vote programs the RPM; every vote is counted
    ensures mode == ModeIdle && st.pcVote > 0 ==> s == Settled(st.(pcVote := IncrementVote(st.pcVote)))
    ensures mode == ModeIdle && st.pcVote == 0 ==>
      s.Program? && s.next == st.(pcVote := 1)
      && (st.modeInitialized && st.optimum == ModeFast ==>
            s.request == ModeRequest(RaiseToHpm(peakUA, lpmMaxLoad), ClearPinCtrl))
      && (!(st.modeInitialized && st.optimum == ModeFast) ==>
            s.request == ModeRequest(KeepCurrent, SetPinCtrl(pinCtrl)))
    // NORMAL: only the last release programs the RPM, and it clears pin control
    ensures mode == ModeNormal && st.pcVote > 1 ==> s == Settled(st.(pcVote := st.pcVote - 1))
    ensures mode == ModeNormal && st.pcVote <= 1 ==>
      s.Program? && s.next == st.(pcVote := 0) && s.request.pin == ClearPinCtrl
      && s.request.current == (if st.optimum == ModeStandby then LowerToLpm(peakUA, lpmMaxLoad)
                               else RaiseToHpm(peakUA, lpmMaxLoad))
  {
    if mode == ModeFast then
      Program(ModeRequest(RaiseToHpm(peakUA, lpmMaxLoad), ClearPinCtrl),
              st.(optimum := mode, modeInitialized := true))
    else if mode == ModeStandby then
      var pin := if st.pcVote != 0 then SetPinCtrl(pinCtrl) else ClearPinCtrl;
      Program(ModeRequest(LowerToLpm(peakUA, lpmMaxLoad), pin),
              st.(optimum := mode, modeInitialized := true))
    else if mode == ModeIdle then
      var next := st.(pcVote := IncrementVote(st.pcVote));
      if st.pcVote != 0 then Settled(next)
      else if st.modeInitialized && st.optimum == ModeFast then
        Program(ModeRequest(RaiseToHpm(peakUA, lpmMaxLoad), ClearPinCtrl), next)
      else
        Program(ModeRequest(KeepCurrent, SetPinCtrl(pinCtrl)), next)
    else if mode == ModeNormal then
      if st.pcVote != 0 && st.pcVote - 1 != 0 then Settled(st.(pcVote := st.pcVote - 1))
      else
        var current := if st.optimum == ModeStandby then LowerToLpm(peakUA, lpmMaxLoad)
                       else RaiseToHpm(peakUA, lpmMaxLoad);
        Program(ModeRequest(current, ClearPinCtrl), st.(pcVote := 0))
    else
      Rejected
  }

  /** `ldo_get_mode` / `smps_get_mode`. */
  function GetMode(st: ModeState): (m: U32)
    ensures m == ModeFast || m == ModeIdle || m == ModeStandby
    ensures m == ModeIdle <==> st.optimum != ModeFast && st.pcVote != 0
    ensures m == ModeStandby <==> st.optimum == ModeStandby && st.pcVote == 0
  {
    if st.optimum == ModeFast then ModeFast
    else if st.pcVote != 0 then ModeIdle
    else if st.optimum == ModeStandby then ModeStandby
    else ModeFast
  }

  /** The mode reported after a mode change that was committed. */
  lemma GetModeAfterSetMode(st: ModeState, peakUA: int, lpmMaxLoad: int, pinCtrl: int, mode: U32)
    requires KnownMode(mode)
    ensures var s := CurrentRailSetMode(st, peakUA, lpmMaxLoad, pinCtrl, mode);
      && (mode == ModeFast ==> GetMode(s.next) == ModeFast)
      && (mode == ModeStandby ==> GetMode(s.next) == (if st.pcVote != 0 then ModeIdle else ModeStandby))
      && (mode == ModeIdle && st.optimum != ModeFast && st.pcVote < Two32 - 1 ==> GetMode(s.next) == ModeIdle)
      && (mode == ModeNormal && st.pcVote <= 1 ==>
            GetMode(s.next) == (if st.optimum == ModeStandby then ModeStandby else ModeFast))
  {
  }

  /**
   * `*_get_optimum_mode`'s answer: once a load is known (at least 1 mA) the
   * mode is FAST exactly when the load exceeds `lpm_max_load`, and otherwise
   * STANDBY; before that, the current mode.
   */
  function OptimumMode(st: ModeState, lpmMaxLoad: int, loadUA: int): (m: U32)
    ensures loadUA < 1000 ==> m == GetMode(st)
    ensures loadUA >= 1000 ==> (m == ModeFast <==> loadUA > lpmMaxLoad)
    ensures loadUA >= 1000 ==> (m == ModeStandby <==> loadUA <= lpmMaxLoad)
  {
    if MicroToMilli(loadUA) > 0 then
      if loadUA > lpmMaxLoad then ModeFast else ModeStandby
    else
      GetMode(st)
  }

  // ---- several mode changes in a row ----

  /** The bookkeeping and request words of a rail with current fields. */
  datatype ModeRail = ModeRail(st: ModeState, req: Words2)

  /**
   * A sequence of `set_mode` calls on a rail whose requests all succeed:
   * the final rail and the number of calls that handed a request to
   * `vreg_set` (which may still drop one equal to the acknowledged words).
   */
  function RunModes(rail: ModeRail, lpmMaxLoad: int, pinCtrl: int, modes: seq<U32>): (ModeRail, nat)
    decreases |modes|
  {
    if |modes| == 0 then (rail, 0)
    else
      var s := CurrentRailSetMode(rail.st, PeakMicroamps(rail.req.w0), lpmMaxLoad, pinCtrl, modes[0]);
      match s
      case Rejected => RunModes(rail, lpmMaxLoad, pinCtrl, modes[1..])
      case Settled(next) => RunModes(rail.(st := next), lpmMaxLoad, pinCtrl, modes[1..])
      case Program(r, next) =>
        var (end, n) := RunModes(ModeRail(next, Apply(rail.req, RequestDelta(r))), lpmMaxLoad, pinCtrl, modes[1..]);
        (end, n + 1)
  }

  function Repeat(mode: U32, n: nat): (s: seq<U32>)
    ensures |s| == n && forall i :: 0 <= i < n ==> s[i] == mode
  {
    seq(n, _ => mode)
  }

  /** n further IDLE votes on a rail holding k votes settle without a request to `vreg_set`. */
  lemma {:induction false} IdleVotesSettle(rail: ModeRail, lpmMaxLoad: int, pinCtrl: int, n: nat)
    requires rail.st.pcVote > 0 && rail.st.pcVote + n < Two32
    ensures RunModes(rail, lpmMaxLoad, pinCtrl, Repeat(ModeIdle, n))
      == (rail.(st := rail.st.(pcVote := rail.st.pcVote + n)), 0)
    decreases n
  {
    if n > 0 {
      var next := rail.(st := rail.st.(pcVote := rail.st.pcVote + 1));
      assert Repeat(ModeIdle, n)[1..] == Repeat(ModeIdle, n - 1);
      IdleVotesSettle(next, lpmMaxLoad, pinCtrl, n - 1);
    }
  }

  /** n NORMAL releases on a rail holding n + k votes (k >= 1) settle without a request to `vreg_set`. */
  lemma {:induction false} NormalReleasesSettle(rail: ModeRail, lpmMaxLoad: int, pinCtrl: int, n: nat)
    requires rail.st.pcVote > n
    ensures RunModes(rail, lpmMaxLoad, pinCtrl, Repeat(ModeNormal, n))
      == (rail.(st := rail.st.(pcVote := rail.st.pcVote - n)), 0)
    decreases n
  {
    if n > 0 {
      var next := rail.(st := rail.st.(pcVote := rail.st.pcVote - 1));
      assert Repeat(ModeNormal, n)[1..] == Repeat(ModeNormal, n - 1);
      NormalReleasesSettle(next, lpmMaxLoad, pinCtrl, n - 1);
    }
  }

  lemma {:induction false} RunModesAppend(rail: ModeRail, lpmMaxLoad: int, pinCtrl: int, a: seq<U32>, b: seq<U32>)
    ensures RunModes(rail, lpmMaxLoad, pinCtrl, a + b)
      == var (mid, n) := RunModes(rail, lpmMaxLoad, pinCtrl, a);
         var (end, m) := RunModes(mid, lpmMaxLoad, pinCtrl, b);
         (end, n + m)
    decreases |a|
  {
    if |a| > 0 {
      assert (a + b)[1..] == a[1..] + b;
      assert (a + b)[0] == a[0];
      var s := CurrentRailSetMode(rail.st, PeakMicroamps(rail.req.w0), lpmMaxLoad, pinCtrl, a[0]);
      match s
      case Rejected => RunModesAppend(rail, lpmMaxLoad, pinCtrl, a[1..], b);
      case Settled(next) => RunModesAppend(rail.(st := next), lpmMaxLoad, pinCtrl, a[1..], b);
      case Program(r, next) =>
        RunModesAppend(ModeRail(next, Apply(rail.req, RequestDelta(r))), lpmMaxLoad, pinCtrl, a[1..], b);
    } else {
      assert a + b == b;
    }
  }

  /**
   * Pin-control votes are reference counted: starting with no votes, n IDLE
   * votes followed by n NORMAL releases hand exactly two requests to
   * `vreg_set` (the first acquire and the last release) and leave no vote
   * held.
   */
  lemma {:induction false} PinVotesBalance(rail: ModeRail, lpmMaxLoad: int, pinCtrl: int, n: nat)
    requires rail.st.pcVote == 0 && 1 <= n < Two32 - 1
    ensures var (end, calls) := RunModes(rail, lpmMaxLoad, pinCtrl, Repeat(ModeIdle, n) + Repeat(ModeNormal, n));
      calls == 2 && end.st.pcVote == 0 && end.st.optimum == rail.st.optimum
  {
    RunModesAppend(rail, lpmMaxLoad, pinCtrl, Repeat(ModeIdle, n), Repeat(ModeNormal, n));
    // the first IDLE programs the rail and takes the count to 1
    var s := CurrentRailSetMode(rail.st, PeakMicroamps(rail.req.w0), lpmMaxLoad, pinCtrl, ModeIdle);
    assert s.Program?;
    var first := ModeRail(s.next, Apply(rail.req, RequestDelta(s.request)));
    assert Repeat(ModeIdle, n)[1..] == Repeat(ModeIdle, n - 1);
    IdleVotesSettle(first, lpmMaxLoad, pinCtrl, n - 1);
    var held := first.(st := first.st.(pcVote := n));
    assert RunModes(rail, lpmMaxLoad, pinCtrl, Repeat(ModeIdle, n)) == (held, 1);
    // n - 1 releases settle, and the last one programs the rail
    RunModesAppend(held, lpmMaxLoad, pinCtrl, Repeat(ModeNormal, n - 1), [ModeNormal]);
    assert Repeat(ModeNormal, n - 1) + [ModeNormal] == Repeat(ModeNormal, n);
    NormalReleasesSettle(held, lpmMaxLoad, pinCtrl, n - 1);
    var last := held.(st := held.st.(pcVote := 1));
    var t := CurrentRailSetMode(last.st, PeakMicroamps(last.req.w0), lpmMaxLoad, pinCtrl, ModeNormal);
    assert t.Program? && t.next.pcVote == 0;
    assert RunModes(last, lpmMaxLoad, pinCtrl, [ModeNormal])
      == (ModeRail(t.next, Apply(last.req, RequestDelta(t.request))), 1);
  }

  // ---- switch_set_mode / switch_get_mode ----

  datatype SwitchStep =
    | SwitchRejected
    | SwitchSettled(pcVote: U32)
    | SwitchProgram(pin: PinVote, pcVote: U32)

  /**
   * `switch_set_mode`: IDLE votes for pin control, NORMAL releases a vote;
   * only the first vote and the release reaching zero program the RPM. The
   * release decrements without a guard, so a release with no vote held wraps
   * the counter to 2^32 - 1 and settles.
   */
  function SwitchModeStep(pcVote: U32, pinCtrl: int, mode: U32): (s: SwitchStep)
    ensures s.SwitchRejected? <==> mode != ModeIdle && mode != ModeNormal
    ensures mode == ModeIdle && pcVote > 0 ==> s == SwitchSettled(IncrementVote(pcVote))
    ensures mode == ModeIdle && pcVote == 0 ==> s == SwitchProgram(SetPinCtrl(pinCtrl), 1)
    ensures mode == ModeNormal && pcVote != 1 ==> s == SwitchSettled(DecrementVote(pcVote))
    ensures mode == ModeNormal && pcVote == 1 ==> s == SwitchProgram(ClearPinCtrl, 0)
  {
    if mode == ModeIdle then
      if pcVote != 0 then SwitchSettled(IncrementVote(pcVote))
      else SwitchProgram(SetPinCtrl(pinCtrl), IncrementVote(pcVote))
    else if mode == ModeNormal then
      var v := DecrementVote(pcVote);
      if v != 0 then SwitchSettled(v) else SwitchProgram(ClearPinCtrl, v)
    else
      SwitchRejected
  }

  /** The mask/value pair `switch_set_mode` passes to `vreg_set`. */
  function SwitchPinDelta(p: PinVote): Delta
  {
    Delta(SwitchPinCtrlMask, SwitchPinArg(p) << SwitchPinCtrlShift, 0, 0)
  }

  /** The switch's pin-control field reads back the vote; nothing else in either word changes. */
  lemma {:induction false} SwitchPinDeltaEffect(w: Words2, p: PinVote)
    ensures SwitchPinCtrlField(Apply(w, SwitchPinDelta(p)).w0) == PinValue(p)
    ensures SwitchStateField(Apply(w, SwitchPinDelta(p)).w0) == SwitchStateField(w.w0)
    ensures Apply(w, SwitchPinDelta(p)).w1 == w.w1
  {
    var x := SwitchPinArg(p);
    SwitchRequestWord0(w, p);
    SwitchPinWrite(w.w0, x);
    MergeNothing(w.w1, 0);
  }

  /** The `pin_ctrl` value a switch pin vote shifts into place. */
  function SwitchPinArg(p: PinVote): (x: Word)
    ensures x & 0xF == PinValue(p)
  {
    match p
    case ClearPinCtrl => ToWord(PinCtrlNone)
    case SetPinCtrl(pc) => ToWord(pc)
  }

  lemma SwitchRequestWord0(w: Words2, p: PinVote)
    ensures Apply(w, SwitchPinDelta(p)).w0 == Merge(w.w0, SwitchPinCtrlMask, SwitchPinArg(p) << SwitchPinCtrlShift)
  {
  }

  lemma SwitchPinWrite(w0: Word, x: Word)
    ensures SwitchPinCtrlField(Merge(w0, SwitchPinCtrlMask, x << SwitchPinCtrlShift)) == x & 0xF
    ensures SwitchStateField(Merge(w0, SwitchPinCtrlMask, x << SwitchPinCtrlShift)) == SwitchStateField(w0)
  {
  }

  /** `switch_get_mode`: IDLE while a pin-control vote is held, else NORMAL. */
  function SwitchGetMode(pcVote: U32): (m: U32)
    ensures m == ModeIdle <==> pcVote != 0
    ensures m == ModeNormal <==> pcVote == 0
  {
    if pcVote != 0 then ModeIdle else ModeNormal
  }

  /**
   * A switch release with no vote held settles with the counter wrapped, so
   * the switch then reports IDLE, and the next acquire settles without a request.
   */
  lemma SwitchReleaseWithoutVote(pinCtrl: int)
    ensures SwitchModeStep(0, pinCtrl, ModeNormal) == SwitchSettled(Two32 - 1)
    ensures SwitchGetMode(Two32 - 1) == ModeIdle
    ensures SwitchModeStep(Two32 - 1, pinCtrl, ModeIdle) == SwitchSettled(0)
  {
  }

  // ---- several switch mode changes in a row ----

  /**
   * A sequence of `switch_set_mode` calls whose requests all succeed: the
   * final vote count and the number of calls that handed a request to
   * `vreg_set`.
   */
  function RunSwitchModes(pcVote: U32, pinCtrl: int, modes: seq<U32>): (U32, nat)
    decreases |modes|
  {
    if |modes| == 0 then (pcVote, 0)
    else
      match SwitchModeStep(pcVote, pinCtrl, modes[0])
      case SwitchRejected => RunSwitchModes(pcVote, pinCtrl, modes[1..])
      case SwitchSettled(v) => RunSwitchModes(v, pinCtrl, modes[1..])
      case SwitchProgram(_, v) =>
        var (end, n) := RunSwitchModes(v, pinCtrl, modes[1..]);
        (end, n + 1)
  }

  lemma {:induction false} RunSwitchModesAppend(pcVote: U32, pinCtrl: int, a: seq<U32>, b: seq<U32>)
    ensures RunSwitchModes(pcVote, pinCtrl, a + b)
      == var (mid, n) := RunSwitchModes(pcVote, pinCtrl, a);
         var (end, m) := RunSwitchModes(mid, pinCtrl, b);
         (end, n + m)
    decreases |a|
  {
    if |a| > 0 {
      assert (a + b)[1..] == a[1..] + b;
      assert (a + b)[0] == a[0];
      match SwitchModeStep(pcVote, pinCtrl, a[0])
      case SwitchRejected => RunSwitchModesAppend(pcVote, pinCtrl, a[1..], b);
      case SwitchSettled(v) => RunSwitchModesAppend(v, pinCtrl, a[1..], b);
      case SwitchProgram(_, v) => RunSwitchModesAppend(v, pinCtrl, a[1..], b);
    } else {
      assert a + b == b;
    }
  }

  /** n further IDLE votes on a switch holding a vote only count up. */
  lemma {:induction false} SwitchIdleVotesSettle(pcVote: U32, pinCtrl: int, n: nat)
    requires pcVote > 0 && pcVote + n < Two32
    ensures RunSwitchModes(pcVote, pinCtrl, Repeat(ModeIdle, n)) == (pcVote + n, 0)
    decreases n
  {
    if n > 0 {
      assert Repeat(ModeIdle, n)[1..] == Repeat(ModeIdle, n - 1);
      SwitchIdleVotesSettle(pcVote + 1, pinCtrl, n - 1);
    }
  }

  /** n NORMAL releases on a switch holding more than n votes only count down. */
  lemma {:induction false} SwitchReleasesSettle(pcVote: U32, pinCtrl: int, n: nat)
    requires pcVote > n
    ensures RunSwitchModes(pcVote, pinCtrl, Repeat(ModeNormal, n)) == (pcVote - n, 0)
    decreases n
  {
    if n > 0 {
      assert Repeat(ModeNormal, n)[1..] == Repeat(ModeNormal, n - 1);
      SwitchReleasesSettle(pcVote - 1, pinCtrl, n - 1);
    }
  }

  /**
   * Switch pin-control votes are reference counted as well: starting with no
   * votes, n IDLE votes followed by n NORMAL releases hand exactly two
   * requests to `vreg_set` and leave no vote held.
   */
  lemma {:induction false} SwitchVotesBalance(pinCtrl: int, n: nat)
    requires 1 <= n < Two32 - 1
    ensures RunSwitchModes(0, pinCtrl, Repeat(ModeIdle, n) + Repeat(ModeNormal, n)) == (0, 2)
  {
    RunSwitchModesAppend(0, pinCtrl, Repeat(ModeIdle, n), Repeat(ModeNormal, n));
    // the first IDLE programs the switch and takes the count to 1
    assert Repeat(ModeIdle, n)[1..] == Repeat(ModeIdle, n - 1);
    SwitchIdleVotesSettle(1, pinCtrl, n - 1);
    assert RunSwitchModes(0, pinCtrl, Repeat(ModeIdle, n)) == (n, 1);
    // n - 1 releases settle, and the last one programs the switch
    RunSwitchModesAppend(n, pinCtrl, Repeat(ModeNormal, n - 1), [ModeNormal]);
    assert Repeat(ModeNormal, n - 1) + [ModeNormal] == Repeat(ModeNormal, n);
    SwitchReleasesSettle(n, pinCtrl, n - 1);
    assert RunSwitchModes(1, pinCtrl, [ModeNormal]) == (0, 1);
  }
}
