/**
 * Layout of the RPM regulator request words, the rail identifiers and their
 * families, and the encoders that build a rail's initial request words from
 * its platform data (arch/arm/mach-msm/rpm-regulator.c).
 *
 * The LDO and SMPS layouts of word 0 and of the low bits of word 1 are
 * identical (same masks, same shifts), so one set of constants serves both.
 * Every bit-level fact is proved once, in a small lemma about one field.
 */
module RpmRequest {
  import opened Words

  // ---- word 0 of an LDO or SMPS rail ----
  const VoltageMask: Word := 0x0000_0FFF
  const PeakCurrentMask: Word := 0x00FF_F000
  const PeakCurrentShift: bv32 := 12
  const ModeMask: Word := 0x0300_0000
  const ModeShift: bv32 := 24
  const PinCtrlMask: Word := 0x3C00_0000
  const PinCtrlShift: bv32 := 26
  const PinFnMask: Word := 0xC000_0000
  const PinFnShift: bv32 := 30

  // ---- word 1 of an LDO or SMPS rail ----
  const PullDownMask: Word := 0x0000_0001
  const AvgCurrentMask: Word := 0x0000_1FFE
  const AvgCurrentShift: bv32 := 1
  const SmpsFreqMask: Word := 0x001F_E000
  const SmpsFreqShift: bv32 := 13
  const SmpsClkSrcMask: Word := 0x0060_0000

  // ---- word 0 of a switch ----
  const SwitchStateMask: Word := 0x0001
  const SwitchPullDownMask: Word := 0x0002
  const SwitchPullDownShift: bv32 := 1
  const SwitchPinCtrlMask: Word := 0x003C
  const SwitchPinCtrlShift: bv32 := 2
  const SwitchPinFnMask: Word := 0x00C0
  const SwitchPinFnShift: bv32 := 6

  // ---- word 0 of the negative charge pump ----
  const NcpVoltageMask: Word := 0x0FFF
  const NcpStateMask: Word := 0x1000
  const NcpStateShift: bv32 := 12

  /** Hysteresis step around a rail's low-power-mode load limit, in uA. */
  const LoadThresholdStep: int := 1000
  /** The largest load the RPM can represent, in uA (0xFFF mA). */
  const MaxPossibleLoad: int := 4095000

  /** RPM_VREG_STATE_OFF / RPM_VREG_STATE_ON. */
  const StateOff: int := 0
  const StateOn: int := 1
  /** RPM_VREG_PIN_CTRL_NONE. */
  const PinCtrlNone: int := 0

  /** Regulator modes of the Linux regulator framework. */
  const ModeFast: U32 := 0x1
  const ModeNormal: U32 := 0x2
  const ModeIdle: U32 := 0x4
  const ModeStandby: U32 := 0x8

  /** Negated Linux error number returned for a bad argument. */
  const EInval: int := -22

  /** The two request words of a rail (`req[0].value`, `req[1].value`). */
  datatype Words2 = Words2(w0: Word, w1: Word)

  /** The `mask0, val0, mask1, val1` arguments of a request. */
  datatype Delta = Delta(mask0: Word, val0: Word, mask1: Word, val1: Word)

  /** Merge a mask/value pair into both words (see Merge for its meaning). */
  function Apply(w: Words2, d: Delta): Words2
  {
    Words2(Merge(w.w0, d.mask0, d.val0), Merge(w.w1, d.mask1, d.val1))
  }

  // ---- field readers ----

  function VoltageField(w0: Word): Word { w0 & VoltageMask }
  function PeakField(w0: Word): Word { (w0 & PeakCurrentMask) >> PeakCurrentShift }
  function ModeField(w0: Word): Word { (w0 & ModeMask) >> ModeShift }
  function PinCtrlField(w0: Word): Word { (w0 & PinCtrlMask) >> PinCtrlShift }
  function PinFnField(w0: Word): Word { (w0 & PinFnMask) >> PinFnShift }
  function PullDownField(w1: Word): Word { w1 & PullDownMask }
  function AvgField(w1: Word): Word { (w1 & AvgCurrentMask) >> AvgCurrentShift }
  function FreqField(w1: Word): Word { (w1 & SmpsFreqMask) >> SmpsFreqShift }
  function SwitchStateField(w0: Word): Word { w0 & SwitchStateMask }
  function SwitchPullDownField(w0: Word): Word { (w0 & SwitchPullDownMask) >> SwitchPullDownShift }
  function SwitchPinCtrlField(w0: Word): Word { (w0 & SwitchPinCtrlMask) >> SwitchPinCtrlShift }
  function SwitchPinFnField(w0: Word): Word { (w0 & SwitchPinFnMask) >> SwitchPinFnShift }
  function NcpVoltageField(w0: Word): Word { w0 & NcpVoltageMask }
  function NcpStateField(w0: Word): Word { (w0 & NcpStateMask) >> NcpStateShift }

  /** `MILLI_TO_MICRO` of the peak-current field, as `set_mode` computes `peak_uA`. */
  function PeakMicroamps(w0: Word): (uA: int)
    ensures 0 <= uA <= MaxPossibleLoad
    ensures uA % 1000 == 0
  {
    var f := PeakField(w0);
    assert f <= 0xFFF;
    (f as int) * 1000
  }

  /** `vreg_hpm_min_uA`: the least peak current that counts as high-power mode (helper of RaiseToHpm). */
  function HpmMinMicroamps(lpmMaxLoad: int): (uA: int)
    ensures uA - LoadThresholdStep == lpmMaxLoad
  {
    lpmMaxLoad + LoadThresholdStep
  }

  /** `vreg_lpm_max_uA`: the greatest peak current that counts as low-power mode (helper of LowerToLpm). */
  function LpmMaxMicroamps(lpmMaxLoad: int): (uA: int)
    ensures uA + LoadThresholdStep == lpmMaxLoad
  {
    lpmMaxLoad - LoadThresholdStep
  }

  /** `saturate_load`: the load clipped to what the RPM can represent. */
  function SaturateLoad(loadUA: U32): (r: U32)
    ensures r <= loadUA && r <= MaxPossibleLoad
    ensures r == loadUA || r == MaxPossibleLoad
  {
    if loadUA > MaxPossibleLoad then MaxPossibleLoad else loadUA
  }

  /** `MICRO_TO_MILLI(saturate_load(x))` for a C `int` passed as `unsigned`. */
  function SaturatedMilliamps(uA: int): (mA: int)
    ensures 0 <= mA <= 4095
    ensures 0 <= uA <= MaxPossibleLoad ==> mA * 1000 <= uA < mA * 1000 + 1000
    ensures MaxPossibleLoad <= uA < Two32 ==> mA == 4095
  {
    SaturateLoad(Unsigned(uA)) / 1000
  }

  // ---- mask/value pairs ----

  /**
   * Writes the milliamp value `mA` into the peak-current field of word 0 and
   * the average-current field of word 1 (`(mA << shift) & mask` for each).
   */
  function CurrentDelta(mA: Word): Delta
  {
    Delta(PeakCurrentMask, (mA << PeakCurrentShift) & PeakCurrentMask,
          AvgCurrentMask, (mA << AvgCurrentShift) & AvgCurrentMask)
  }

  /** The voltage argument of `ldo_set_voltage` / `smps_set_voltage` (`MICRO_TO_MILLI(min_uV)`). */
  function VoltageDelta(uV: int): Delta
  {
    Delta(VoltageMask, ToWord(MicroToMilli(uV)), 0, 0)
  }

  /**
   * Merging the current fields reads back the written milliamps; by Merge's
   * contract no bit outside the two fields changes.
   */
  lemma CurrentDeltaReadsBack(w: Words2, mA: Word)
    requires mA < 4096
    ensures PeakField(Apply(w, CurrentDelta(mA)).w0) == mA
    ensures AvgField(Apply(w, CurrentDelta(mA)).w1) == mA
  {
  }

  /** Merging a current keeps every bit outside the peak field of word 0 and the average field of word 1. */
  lemma CurrentDeltaKeepsRest(w: Words2, mA: Word)
    ensures SameOutside(Apply(w, CurrentDelta(mA)).w0, w.w0, PeakCurrentMask)
    ensures SameOutside(Apply(w, CurrentDelta(mA)).w1, w.w1, AvgCurrentMask)
  {
  }

  /** Merging the voltage reads back the written millivolts and keeps word 1. */
  lemma {:induction false} VoltageDeltaReadsBack(w: Words2, uV: int)
    requires 0 <= MicroToMilli(uV) < 4096
    ensures VoltageField(Apply(w, VoltageDelta(uV)).w0) == ToWord(MicroToMilli(uV))
    ensures Apply(w, VoltageDelta(uV)).w1 == w.w1
  {
    ToWordBelow4096(MicroToMilli(uV));
    VoltageWrite(w.w0, ToWord(MicroToMilli(uV)));
    MergeNothing(w.w1, 0);
  }

  lemma VoltageWrite(w0: Word, f: Word)
    requires f < 4096
    ensures VoltageField(Merge(w0, VoltageMask, f)) == f
  {
  }

  /** An empty mask leaves the word as it is. */
  lemma MergeNothing(w: Word, val: Word)
    ensures Merge(w, 0, val) == w
  {
  }

  // ---- rail identifiers (enum rpm_vreg_id, in the order of the vregs table) ----

  const PM8058_L0: int := 0
  const PM8058_L25: int := 25
  const PM8058_S0: int := 26
  const PM8058_S1: int := 27
  const PM8058_S4: int := 30
  const PM8058_LVS0: int := 31
  const PM8058_LVS1: int := 32
  const PM8058_NCP: int := 33
  const PM8901_L0: int := 34
  const PM8901_L6: int := 40
  const PM8901_S0: int := 41
  const PM8901_S4: int := 45
  const PM8901_LVS0: int := 46
  const PM8901_LVS3: int := 49
  const PM8901_MVS0: int := 50
  const RailIdMax: int := 51

  datatype Family = Ldo | Smps | Ncp | Switch

  predicate IsLdo(id: int) { PM8058_L0 <= id <= PM8058_L25 || PM8901_L0 <= id <= PM8901_L6 }
  predicate IsSmps(id: int) { PM8058_S0 <= id <= PM8058_S4 || PM8901_S0 <= id <= PM8901_S4 }
  predicate IsSwitch(id: int)
  {
    PM8058_LVS0 <= id <= PM8058_LVS1 || PM8901_LVS0 <= id <= PM8901_LVS3 || id == PM8901_MVS0
  }
  predicate IsNcp(id: int) { id == PM8058_NCP }

  /** The PMIC 8901 switch-mode supplies, which use the 8901 voltage compensation. */
  predicate Is8901Smps(id: int) { PM8901_S0 <= id <= PM8901_S4 }

  /** The family `vreg_init` dispatches on, tried in the order LDO, SMPS, NCP, switch. */
  function FamilyOf(id: int): (f: Option<Family>)
    ensures f == None <==> !IsLdo(id) && !IsSmps(id) && !IsNcp(id) && !IsSwitch(id)
    ensures f == Some(Ldo) <==> IsLdo(id)
    ensures f == Some(Smps) <==> IsSmps(id)
    ensures f == Some(Ncp) <==> IsNcp(id)
    ensures f == Some(Switch) <==> IsSwitch(id)
  {
    if IsLdo(id) then Some(Ldo)
    else if IsSmps(id) then Some(Smps)
    else if IsNcp(id) then Some(Ncp)
    else if IsSwitch(id) then Some(Switch)
    else None
  }

  /** The `lpm_max_load` column of the vregs table (every LDO and SMPS limit is 50000 uA). */
  function LpmMaxLoadOf(id: int): (load: int)
    ensures IsLdo(id) || IsSmps(id) ==> load == 50000
    ensures !IsLdo(id) && !IsSmps(id) ==> load == 0
  {
    if IsLdo(id) || IsSmps(id) then 50000 else 0
  }

  // ---- initial request words (the *_init functions) ----

  /** `struct rpm_vreg_pdata`: the board's static configuration of one rail. */
  datatype PlatformData = PlatformData(
    defaultUV: int, peakUA: int, avgUA: int, pullDownEnable: int,
    pinCtrl: int, pinFn: int, mode: int, state: int, freq: int)

  /** Word 0 of `ldo_init` / `smps_init`. */
  function CurrentRailWord0(mV: Word, peak: Word, mode: Word, pinFn: Word): Word
  {
    mV | (peak << PeakCurrentShift) | (mode << ModeShift) | (pinFn << PinFnShift)
  }

  /** Word 1 of `ldo_init`; `smps_init` adds the frequency. */
  function CurrentRailWord1(pullDown: Word, avg: Word, freq: Word): Word
  {
    pullDown | (avg << AvgCurrentShift) | (freq << SmpsFreqShift)
  }

  lemma Word0Voltage(mV: Word, peak: Word, mode: Word, pinFn: Word)
    requires mV < 4096 && peak < 4096 && mode < 4 && pinFn < 4
    ensures VoltageField(CurrentRailWord0(mV, peak, mode, pinFn)) == mV
  {
  }

  lemma Word0Peak(mV: Word, peak: Word, mode: Word, pinFn: Word)
    requires mV < 4096 && peak < 4096 && mode < 4 && pinFn < 4
    ensures PeakField(CurrentRailWord0(mV, peak, mode, pinFn)) == peak
  {
  }

  lemma Word0Mode(mV: Word, peak: Word, mode: Word, pinFn: Word)
    requires mV < 4096 && peak < 4096 && mode < 4 && pinFn < 4
    ensures ModeField(CurrentRailWord0(mV, peak, mode, pinFn)) == mode
  {
  }

  lemma Word0PinCtrl(mV: Word, peak: Word, mode: Word, pinFn: Word)
    requires mV < 4096 && peak < 4096 && mode < 4 && pinFn < 4
    ensures PinCtrlField(CurrentRailWord0(mV, peak, mode, pinFn)) == 0
  {
  }

  lemma Word0PinFn(mV: Word, peak: Word, mode: Word, pinFn: Word)
    requires mV < 4096 && peak < 4096 && mode < 4 && pinFn < 4
    ensures PinFnField(CurrentRailWord0(mV, peak, mode, pinFn)) == pinFn
  {
  }

  lemma Word1PullDown(pullDown: Word, avg: Word, freq: Word)
    requires pullDown < 2 && avg < 4096 && freq < 256
    ensures PullDownField(CurrentRailWord1(pullDown, avg, freq)) == pullDown
  {
  }

  lemma Word1Avg(pullDown: Word, avg: Word, freq: Word)
    requires pullDown < 2 && avg < 4096 && freq < 256
    ensures AvgField(CurrentRailWord1(pullDown, avg, freq)) == avg
  {
  }

  lemma Word1Freq(pullDown: Word, avg: Word, freq: Word)
    requires pullDown < 2 && avg < 4096 && freq < 256
    ensures FreqField(CurrentRailWord1(pullDown, avg, freq)) == freq
  {
  }

  /** The platform values that fit the widths of their LDO/SMPS fields. */
  predicate FitsCurrentRail(p: PlatformData)
  {
    0 <= MicroToMilli(p.defaultUV) < 4096 && 0 <= p.mode < 4 && 0 <= p.pinFn < 4
    && 0 <= p.pullDownEnable < 2
  }

  /** The field values of `ldo_init`/`smps_init` are below their field widths. */
  lemma {:induction false} InitFieldsBelow(p: PlatformData)
    requires FitsCurrentRail(p)
    ensures ToWord(MicroToMilli(p.defaultUV)) < 4096
    ensures ToWord(SaturatedMilliamps(p.peakUA)) < 4096
    ensures ToWord(SaturatedMilliamps(p.avgUA)) < 4096
    ensures ToWord(p.mode) < 4 && ToWord(p.pinFn) < 4 && ToWord(p.pullDownEnable) < 2
  {
    ToWordBelow4096(SaturatedMilliamps(p.peakUA));
    ToWordBelow4096(SaturatedMilliamps(p.avgUA));
    ToWordBelow4096(MicroToMilli(p.defaultUV));
    assert ToWord(p.mode) < 4 && ToWord(p.pinFn) < 4 && ToWord(p.pullDownEnable) < 2;
  }

  /**
   * `ldo_init` (with frequency 0) and `smps_init`: the two initial words of a
   * rail with current fields. Each field that fits its width reads back as
   * given, the currents clipped to what the RPM can represent, and pin
   * control is off.
   */
  function CurrentRailInitWords(p: PlatformData, freq: int): (r: Words2)
    ensures FitsCurrentRail(p) ==> VoltageField(r.w0) == ToWord(MicroToMilli(p.defaultUV))
    ensures FitsCurrentRail(p) ==> PeakField(r.w0) == ToWord(SaturatedMilliamps(p.peakUA))
    ensures FitsCurrentRail(p) ==> ModeField(r.w0) == ToWord(p.mode)
    ensures FitsCurrentRail(p) ==> PinCtrlField(r.w0) == 0
    ensures FitsCurrentRail(p) ==> PinFnField(r.w0) == ToWord(p.pinFn)
    ensures FitsCurrentRail(p) && 0 <= freq < 256 ==> PullDownField(r.w1) == ToWord(p.pullDownEnable)
    ensures FitsCurrentRail(p) && 0 <= freq < 256 ==> AvgField(r.w1) == ToWord(SaturatedMilliamps(p.avgUA))
    ensures FitsCurrentRail(p) && 0 <= freq < 256 ==> FreqField(r.w1) == ToWord(freq)
  {
    var r := Words2(InitWord0(p), InitWord1(p, freq));
    assert FitsCurrentRail(p) ==> InitWord0Fields(p) by {
      if FitsCurrentRail(p) { InitWord0Correct(p); }
    }
    assert FitsCurrentRail(p) && 0 <= freq < 256 ==> InitWord1Fields(p, freq) by {
      if FitsCurrentRail(p) && 0 <= freq < 256 { InitWord1Correct(p, freq); }
    }
    r
  }

  /** Word 0 as `ldo_init`/`smps_init` compute it. */
  function InitWord0(p: PlatformData): Word
  {
    CurrentRailWord0(ToWord(MicroToMilli(p.defaultUV)), ToWord(SaturatedMilliamps(p.peakUA)),
                     ToWord(p.mode), ToWord(p.pinFn))
  }

  /** Word 1 as `ldo_init`/`smps_init` compute it. */
  function InitWord1(p: PlatformData, freq: int): Word
  {
    CurrentRailWord1(ToWord(p.pullDownEnable), ToWord(SaturatedMilliamps(p.avgUA)), ToWord(freq))
  }

  predicate InitWord0Fields(p: PlatformData)
  {
    VoltageField(InitWord0(p)) == ToWord(MicroToMilli(p.defaultUV))
    && PeakField(InitWord0(p)) == ToWord(SaturatedMilliamps(p.peakUA))
    && ModeField(InitWord0(p)) == ToWord(p.mode)
    && PinCtrlField(InitWord0(p)) == 0
    && PinFnField(InitWord0(p)) == ToWord(p.pinFn)
  }

  predicate InitWord1Fields(p: PlatformData, freq: int)
  {
    PullDownField(InitWord1(p, freq)) == ToWord(p.pullDownEnable)
    && AvgField(InitWord1(p, freq)) == ToWord(SaturatedMilliamps(p.avgUA))
    && FreqField(InitWord1(p, freq)) == ToWord(freq)
  }

  lemma {:induction false} InitWord0Correct(p: PlatformData)
    requires FitsCurrentRail(p)
    ensures InitWord0Fields(p)
  {
    InitFieldsBelow(p);
    var mV := ToWord(MicroToMilli(p.defaultUV));
    var peak := ToWord(SaturatedMilliamps(p.peakUA));
    var mode := ToWord(p.mode);
    var pinFn := ToWord(p.pinFn);
    Word0Voltage(mV, peak, mode, pinFn);
    Word0Peak(mV, peak, mode, pinFn);
    Word0Mode(mV, peak, mode, pinFn);
    Word0PinCtrl(mV, peak, mode, pinFn);
    Word0PinFn(mV, peak, mode, pinFn);
  }

  lemma {:induction false} InitWord1Correct(p: PlatformData, freq: int)
    requires FitsCurrentRail(p) && 0 <= freq < 256
    ensures InitWord1Fields(p, freq)
  {
    InitFieldsBelow(p);
    var f := ToWord(freq);
    assert f < 256;
    Word1PullDown(ToWord(p.pullDownEnable), ToWord(SaturatedMilliamps(p.avgUA)), f);
    Word1Avg(ToWord(p.pullDownEnable), ToWord(SaturatedMilliamps(p.avgUA)), f);
    Word1Freq(ToWord(p.pullDownEnable), ToWord(SaturatedMilliamps(p.avgUA)), f);
  }

  /**
   * `ldo_init`: as `smps_init` with no frequency. Each field that fits its
   * width reads back as the board gives it, and word 1 has nothing above the
   * average current.
   */
  function LdoInitWords(p: PlatformData): (r: Words2)
    ensures FitsCurrentRail(p) ==>
      && VoltageField(r.w0) == ToWord(MicroToMilli(p.defaultUV))
      && PeakField(r.w0) == ToWord(SaturatedMilliamps(p.peakUA))
      && PinCtrlField(r.w0) == 0
      && AvgField(r.w1) == ToWord(SaturatedMilliamps(p.avgUA))
      && FreqField(r.w1) == 0
  {
    var r := CurrentRailInitWords(p, 0);
    assert ToWord(0) == 0;
    r
  }

  /**
   * `smps_init`: the same word 0 as `ldo_init`; word 1 agrees with the LDO's
   * in every field but the frequency, which carries the board's value.
   */
  function SmpsInitWords(p: PlatformData): (r: Words2)
    ensures r.w0 == LdoInitWords(p).w0
    ensures FitsCurrentRail(p) && 0 <= p.freq < 256 ==>
      && PullDownField(r.w1) == PullDownField(LdoInitWords(p).w1)
      && AvgField(r.w1) == AvgField(LdoInitWords(p).w1)
      && FreqField(r.w1) == ToWord(p.freq)
      && FreqField(LdoInitWords(p).w1) == 0
  {
    var r := CurrentRailInitWords(p, p.freq);
    assert ToWord(0) == 0;
    r
  }

  /** `ncp_init`: word 0 of the charge pump. */
  function NcpInitWord(p: PlatformData): (w0: Word)
    ensures 0 <= MicroToMilli(p.defaultUV) < 4096 && 0 <= p.state < 2 ==>
      NcpVoltageField(w0) == ToWord(MicroToMilli(p.defaultUV))
    ensures 0 <= MicroToMilli(p.defaultUV) < 4096 && 0 <= p.state < 2 ==>
      NcpStateField(w0) == ToWord(p.state)
  {
    var mV := ToWord(MicroToMilli(p.defaultUV));
    var st := ToWord(p.state);
    assert 0 <= p.state < 2 ==> st < 2;
    assert 0 <= MicroToMilli(p.defaultUV) < 4096 ==> mV < 4096 by {
      if 0 <= MicroToMilli(p.defaultUV) < 4096 { ToWordBelow4096(MicroToMilli(p.defaultUV)); }
    }
    mV | (st << NcpStateShift)
  }

  /** `switch_init`: word 0 of a switch; pin control is off. */
  function SwitchInitWord(p: PlatformData): (w0: Word)
    ensures 0 <= p.state < 2 && 0 <= p.pullDownEnable < 2 && 0 <= p.pinFn < 4 ==>
      SwitchStateField(w0) == ToWord(p.state)
    ensures 0 <= p.state < 2 && 0 <= p.pullDownEnable < 2 && 0 <= p.pinFn < 4 ==>
      SwitchPullDownField(w0) == ToWord(p.pullDownEnable)
    ensures 0 <= p.state < 2 && 0 <= p.pullDownEnable < 2 && 0 <= p.pinFn < 4 ==>
      SwitchPinCtrlField(w0) == 0
    ensures 0 <= p.state < 2 && 0 <= p.pullDownEnable < 2 && 0 <= p.pinFn < 4 ==>
      SwitchPinFnField(w0) == ToWord(p.pinFn)
  {
    var st := ToWord(p.state);
    var pd := ToWord(p.pullDownEnable);
    var fn := ToWord(p.pinFn);
    assert 0 <= p.state < 2 && 0 <= p.pullDownEnable < 2 && 0 <= p.pinFn < 4 ==>
      st < 2 && pd < 2 && fn < 4;
    st | (pd << SwitchPullDownShift) | (fn << SwitchPinFnShift)
  }
}
