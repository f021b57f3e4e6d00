# MSM regulator, XOADC and GPIO-registry cores in Dafny

This project models three pieces of the Acer Salsa (Qualcomm MSM) kernel and
proves properties about the models.

- **RPM regulator arbitration** (`arch/arm/mach-msm/rpm-regulator.c`). Each
  rail keeps two 32-bit request words, the last words the RPM acknowledged,
  `save_uV`, a pin-control vote count, the optimum mode and a
  mode-initialised flag.
  - Every request goes through the gate (`vreg_set`). The gate merges a
    mask/value pair into the words, drops duplicates of the acknowledged
    words, and rolls back when the transport fails.
  - The shared PM8058 S1 rail programs the highest millivolt vote of its
    voters.
  - On top of the gate sit the LDO/SMPS mode state machine, the switch and
    charge-pump variants, the getters, the initial word encoders and the per-family operation tables.
  - Files: `words.dfy` (32-bit words, C conversions), `rpm_request.dfy`
    (word layout, load thresholds, init encoders), `rpm_modes.dfy` (mode
    decisions), `rpm_gate.dfy` (the gate and the S1 vote as functions of a
    rail's state), `rpm_ops.dfy` (every regulator operation as a function)
    and `rpm_regulator.dfy`.
  - In `rpm_regulator.dfy`, class `Vreg` holds the mutable rail and an
    `array` of S1 votes. Class `Transport` records every request handed to
    the RPM. Each method is proved to leave exactly the state, return code
    and transmissions of its function in `rpm_ops.dfy`.
- **PM8058 XOADC slot pool and conversion queue**
  (`drivers/misc/pmic8058-xoadc.c`), in `xoadc.dfy`.
  - Class `Xoadc` holds the free-slot pool (a LIFO list), the conversion
    queue (a FIFO list), the pending-conversion count, and a log of the
    hardware configurations started.
  - Pure functions give the channel-path table, the clock table, the
    register writes of a configuration and the sign extension of a reading.
- **GPIO chip registry** (`arch/arm/mach-msm/board-salsa-gpio.c`), in
  `gpio_registry.dfy`.
  - Class `Registry` holds the chip list, which is kept sorted and disjoint,
    and the bucket array indexed by `gpio >> 5`.
  - Registration grows the array, inserts in order, refuses overlaps and
    repoints buckets. Lookup walks the list from the GPIO's bucket.

LDO and SMPS code paths are textually the same in the source, with the same
masks and shifts. They are modelled once, and each row below cites the LDO
copy. The SMPS copies are `smps_set_voltage` 359-375, `smps_enable`/`disable`
421-436, `smps_set_mode` 458-569, `smps_get_mode` 571-582 and
`smps_get_optimum_mode` 584-608.

Where the code and its documentation differ, the model follows the code:
- `save_uV` is recorded only when the gate FAILS. The set-voltage functions
  return early on success.
- A switch release with no vote held wraps the unsigned counter to 2^32-1.
- A refused registration keeps the bucket array it has just grown.
- `ldo_get_voltage`/`smps_get_voltage` return `save_uV`. Because of the first point, after a successful voltage change they report the last failed or initial voltage, not the new one.

## Model

| member | source | states |
|---|---|---|
| Words.Merge | arch/arm/mach-msm/rpm-regulator.c:331-337 | the merged word carries `val` under the mask and the old word elsewhere |
| Words.MergeUnique | arch/arm/mach-msm/rpm-regulator.c:331-337 | those two conditions determine the merged word |
| Words.MicroToMilli | arch/arm/mach-msm/rpm-regulator.c:286-287 | C's truncating division by 1000, bounds for both signs |
| Words.Unsigned | arch/arm/mach-msm/rpm-regulator.c:315-318 | an `int` passed as `unsigned` is congruent modulo 2^32 and unchanged when it fits |
| Words.Pm8901V1ScaleTruncates | arch/arm/mach-msm/rpm-regulator.c:303 | the 8901 v1 scaling is (uV-62100)*23/25 rounded toward zero |
| RpmRequest.SaturateLoad | arch/arm/mach-msm/rpm-regulator.c:315-318 | the load is clipped to `MAX_POSSIBLE_LOAD`: at most both, and one of the two |
| RpmRequest.SaturatedMilliamps | arch/arm/mach-msm/rpm-regulator.c:589-595 | the saturated load in mA fits 12 bits and is the truncated load, 4095 when saturated |
| RpmRequest.PeakMicroamps | arch/arm/mach-msm/rpm-regulator.c:681-682 | the peak current read back from word 0 is a whole number of mA within the maximum load |
| RpmRequest.CurrentDeltaReadsBack | arch/arm/mach-msm/rpm-regulator.c:590-595 | writing a current leaves it in both the peak field and the average field |
| RpmRequest.CurrentDeltaKeepsRest | arch/arm/mach-msm/rpm-regulator.c:803-808 | writing a current changes no bit outside the peak field of word 0 and the average field of word 1 |
| RpmRequest.VoltageDeltaReadsBack | arch/arm/mach-msm/rpm-regulator.c:610-616 | writing a voltage reads it back in mV and leaves word 1 alone |
| RpmRequest.FamilyOf | arch/arm/mach-msm/rpm-regulator.c:1103-1127 | the family `vreg_init` picks; none exactly for ids in no family |
| RpmRequest.LpmMaxLoadOf | arch/arm/mach-msm/rpm-regulator.c:149-208 | every LDO and SMPS rail has an LPM limit of 50000 uA |
| RpmRequest.CurrentRailInitWords | arch/arm/mach-msm/rpm-regulator.c:1053-1085 | each init field reads back the platform value (voltage, peak, mode, pin function, pull-down, average, frequency) and pin control is 0 |
| RpmRequest.InitWord0Correct | arch/arm/mach-msm/rpm-regulator.c:1053-1060 | word 0 of `ldo_init`/`smps_init` holds every field as written |
| RpmRequest.InitWord1Correct | arch/arm/mach-msm/rpm-regulator.c:1061-1066 | word 1 holds every field as written |
| RpmRequest.LdoInitWords | arch/arm/mach-msm/rpm-regulator.c:1053-1067 | voltage, peak, pin control 0 and average read back, and the frequency field is 0 |
| RpmRequest.SmpsInitWords | arch/arm/mach-msm/rpm-regulator.c:1053-1085 | the SMPS words equal the LDO words in word 0 and in word 1 outside the frequency, which holds the board's value where the LDO has 0 |
| RpmRequest.NcpInitWord | arch/arm/mach-msm/rpm-regulator.c:1087-1092 | the charge pump's voltage and state fields read back the platform values |
| RpmRequest.SwitchInitWord | arch/arm/mach-msm/rpm-regulator.c:1094-1101 | a switch's state, pull-down and pin function read back, and pin control is 0 |
| RpmModes.IncrementVote | arch/arm/mach-msm/rpm-regulator.c:721 | `pc_vote++` on an unsigned wraps at 2^32 |
| RpmModes.DecrementVote | arch/arm/mach-msm/rpm-regulator.c:868 | `--pc_vote` on an unsigned wraps at 0 |
| RpmModes.RequestDeltaEffect | arch/arm/mach-msm/rpm-regulator.c:685-772 | a mode request always sets the pin-control field, keeps the voltage, and writes both currents or neither |
| RpmModes.RaiseToHpm | arch/arm/mach-msm/rpm-regulator.c:685-698 | FAST rewrites the currents, to the HPM threshold, exactly when the peak is below it |
| RpmModes.LowerToLpm | arch/arm/mach-msm/rpm-regulator.c:700-718 | STANDBY rewrites the currents, to the LPM threshold, exactly when the peak is above it |
| RpmModes.HysteresisBand | arch/arm/mach-msm/rpm-regulator.c:685-718 | after FAST the peak is at least `lpm_max_load+1000` and after STANDBY at most `lpm_max_load-1000`, and a repeat leaves it |
| RpmModes.CurrentRailSetMode | arch/arm/mach-msm/rpm-regulator.c:671-782 | unknown modes are rejected; FAST/STANDBY program with the hysteresis; STANDBY sets pin control iff votes are held; only the first IDLE and the last NORMAL program, and that NORMAL clears pin control |
| RpmModes.GetMode | arch/arm/mach-msm/rpm-regulator.c:784-795 | FAST if optimum is FAST, else IDLE while votes are held, else STANDBY if optimum is STANDBY, else FAST |
| RpmModes.GetModeAfterSetMode | arch/arm/mach-msm/rpm-regulator.c:671-795 | the mode reported after each committed mode change |
| RpmModes.OptimumMode | arch/arm/mach-msm/rpm-regulator.c:797-821 | below 1 mA the current mode; otherwise FAST iff the load exceeds `lpm_max_load`, else STANDBY |
| RpmModes.IdleVotesSettle | arch/arm/mach-msm/rpm-regulator.c:720-722 | further IDLE votes only count and hand nothing to `vreg_set` |
| RpmModes.NormalReleasesSettle | arch/arm/mach-msm/rpm-regulator.c:741-743 | releases that leave a vote held only count down |
| RpmModes.RunModesAppend | arch/arm/mach-msm/rpm-regulator.c:671-782 | running two sequences of mode calls is running their concatenation |
| RpmModes.PinVotesBalance | arch/arm/mach-msm/rpm-regulator.c:720-766 | n IDLE votes then n releases hand exactly two requests to `vreg_set` and return the count to 0 |
| RpmModes.SwitchModeStep | arch/arm/mach-msm/rpm-regulator.c:851-886 | switch modes other than IDLE/NORMAL are rejected; only the first vote and the release at count 1 program; other releases decrement, wrapping at 0 |
| RpmModes.SwitchPinDeltaEffect | arch/arm/mach-msm/rpm-regulator.c:863-879 | the switch's pin-control field reads back the vote, and the state and word 1 are kept |
| RpmModes.SwitchGetMode | arch/arm/mach-msm/rpm-regulator.c:888-895 | IDLE exactly while a vote is held, else NORMAL |
| RpmModes.SwitchReleaseWithoutVote | arch/arm/mach-msm/rpm-regulator.c:867-869 | a release with no vote wraps the count to 2^32-1, which then reads as IDLE |
| RpmModes.RunSwitchModesAppend | arch/arm/mach-msm/rpm-regulator.c:851-886 | running two sequences of switch mode calls is running their concatenation |
| RpmModes.SwitchIdleVotesSettle | arch/arm/mach-msm/rpm-regulator.c:859-861 | further IDLE votes on a switch only count up and hand nothing to `vreg_set` |
| RpmModes.SwitchReleasesSettle | arch/arm/mach-msm/rpm-regulator.c:867-869 | switch releases that leave a vote held only count down |
| RpmModes.SwitchVotesBalance | arch/arm/mach-msm/rpm-regulator.c:851-886 | on a switch, n IDLE votes then n releases hand exactly two requests to `vreg_set` and return the count to 0, for all n |
| RpmGate.Commit | arch/arm/mach-msm/rpm-regulator.c:339-356 | duplicates are not sent and succeed; otherwise the reply is returned, and success acknowledges while failure rolls back |
| RpmGate.MaxVote | arch/arm/mach-msm/rpm-regulator.c:241-243 | the accumulated maximum bounds every vote and is 0 or one of them |
| RpmGate.S1Vote | arch/arm/mach-msm/rpm-regulator.c:224-263 | an unknown voter gets -EINVAL with no change; otherwise only the voter's entry changes, to its merged voltage, and the maximum goes to the gate |
| RpmGate.S1VoteWritesMax | arch/arm/mach-msm/rpm-regulator.c:237-246 | the programmed voltage field is the highest vote, every other bit is the merge, and the table does not depend on the reply |
| RpmGate.VregSetS1 | arch/arm/mach-msm/rpm-regulator.c:213-269 | only the words and the votes change; at most one no-IRQ request; success acknowledges, failure rolls the words back |
| RpmGate.VregSet | arch/arm/mach-msm/rpm-regulator.c:320-357 | S1 routes to the framework voter; elsewhere the merge is sent unless it repeats the acknowledged words, with rollback on failure |
| RpmGate.RepeatedRequestSuppressed | arch/arm/mach-msm/rpm-regulator.c:339-342 | repeating a successful request sends nothing and succeeds |
| RpmGate.MergeIdempotent | arch/arm/mach-msm/rpm-regulator.c:331-337 | merging the same pair twice is merging it once |
| RpmOps.SetVoltage | arch/arm/mach-msm/rpm-regulator.c:610-626 | the voltage goes through the gate; `save_uV` changes only on failure with a nonzero voltage |
| RpmOps.SetVoltageTakesEffect | arch/arm/mach-msm/rpm-regulator.c:610-655 | after success the field reads the new mV, it is acknowledged, and the rail is enabled iff the voltage is nonzero |
| RpmOps.IsEnabled | arch/arm/mach-msm/rpm-regulator.c:651-655 | on iff the voltage field is nonzero; SetVoltageTakesEffect and OpEnableTurnsOn state when it reads on |
| RpmOps.GetVoltage | arch/arm/mach-msm/rpm-regulator.c:628-632 | `save_uV` itself, not the voltage field; DisableEnableRestores states what it reads after a disable and enable |
| RpmOps.Enable | arch/arm/mach-msm/rpm-regulator.c:634-643 | re-sends `save_uV` only when its mV is positive, and never changes it |
| RpmOps.Disable | arch/arm/mach-msm/rpm-regulator.c:645-649 | sends voltage 0, changes only the request and votes, never `save_uV` |
| RpmOps.DisableEnableRestores | arch/arm/mach-msm/rpm-regulator.c:628-655 | disable then enable turns the rail off then on at the saved voltage |
| RpmOps.S1DisableKeepsOtherVotes | arch/arm/mach-msm/rpm-regulator.c:224-263 | disabling S1 zeroes only the framework's vote; S1 stays on iff another voter holds a vote |
| RpmOps.S1DisableWritesMax | arch/arm/mach-msm/rpm-regulator.c:237-246 | after disabling S1 the field is the highest remaining vote |
| RpmOps.MaxVoteWithout | arch/arm/mach-msm/rpm-regulator.c:241-243 | the maximum without one voter is nonzero iff another vote is |
| RpmOps.Smps8901SetVoltage | arch/arm/mach-msm/rpm-regulator.c:382-413 | on v1 with nonzero voltage the scaled value goes to the gate, otherwise the plain SMPS path; the caller's voltage is saved on failure |
| RpmOps.Smps8901SendsScaled | arch/arm/mach-msm/rpm-regulator.c:399-404 | the transmitted field is the scaled millivolts |
| RpmOps.S1SetMinUvNoirq | arch/arm/mach-msm/rpm-regulator.c:282-297 | the vote goes through the S1 gate; an unknown voter still saves a nonzero voltage; the voter's entry becomes its millivolts |
| RpmOps.SetMode | arch/arm/mach-msm/rpm-regulator.c:671-782 | unknown modes change nothing; the bookkeeping commits only on success or a settled step; a programming step is one gate request |
| RpmOps.SetModeFields | arch/arm/mach-msm/rpm-regulator.c:685-772 | after a successful programming step, pin control is the vote, the voltage is kept and the peak follows the hysteresis |
| RpmOps.ThresholdsFit | arch/arm/mach-msm/rpm-regulator.c:685-718 | the hysteresis currents fit the 12-bit field |
| RpmOps.WithLoad | arch/arm/mach-msm/rpm-regulator.c:803-808 | both current fields read back the load, and every other bit of the two request words is kept |
| RpmOps.GetOptimumMode | arch/arm/mach-msm/rpm-regulator.c:797-821 | returns OptimumMode; at 1 mA or more writes the saturated mA into peak and average and keeps every other bit of both words; sends nothing and changes nothing outside the request words |
| RpmOps.SwitchEnableTurnsOn | arch/arm/mach-msm/rpm-regulator.c:823-843 | after success the switch reads as on, and pin control is kept |
| RpmOps.SwitchDisableTurnsOff | arch/arm/mach-msm/rpm-regulator.c:829-843 | after success the switch reads as off, and pin control is kept |
| RpmOps.SwitchEnable | arch/arm/mach-msm/rpm-regulator.c:823-827 | one word with state ON through the gate; SwitchEnableTurnsOn states its effect |
| RpmOps.SwitchDisable | arch/arm/mach-msm/rpm-regulator.c:829-833 | one word with state OFF through the gate; SwitchDisableTurnsOff states its effect |
| RpmOps.SwitchIsEnabled | arch/arm/mach-msm/rpm-regulator.c:835-843 | on iff the state field is ON; the two lemmas above state when it reads on and off |
| RpmOps.SwitchSetMode | arch/arm/mach-msm/rpm-regulator.c:851-886 | rejects other modes; a settled step only counts; a programming step goes through the gate and commits the count only on success |
| RpmOps.SwitchPinCtrlFollowsVotes | arch/arm/mach-msm/rpm-regulator.c:858-880 | the first vote programs `pin_ctrl` with count 1, and the last release clears it with count 0 |
| RpmOps.NcpSetVoltage | arch/arm/mach-msm/rpm-regulator.c:919-924 | the charge pump never records `save_uV` |
| RpmOps.NcpEnableTurnsOn | arch/arm/mach-msm/rpm-regulator.c:897-917 | after success the pump reads as on, and its voltage is kept |
| RpmOps.NcpDisableTurnsOff | arch/arm/mach-msm/rpm-regulator.c:903-917 | after success the pump reads as off, and its voltage is kept |
| RpmOps.NcpVoltageReadsBack | arch/arm/mach-msm/rpm-regulator.c:919-932 | after success the voltage reads back in uV and the on/off state is kept |
| RpmOps.NcpEnable | arch/arm/mach-msm/rpm-regulator.c:897-901 | state ON through the gate, two words; NcpEnableTurnsOn states its effect |
| RpmOps.NcpDisable | arch/arm/mach-msm/rpm-regulator.c:903-907 | state OFF through the gate, two words; NcpDisableTurnsOff states its effect |
| RpmOps.NcpIsEnabled | arch/arm/mach-msm/rpm-regulator.c:909-917 | on iff the state field is ON; the two lemmas above state when it reads on and off |
| RpmOps.NcpGetVoltage | arch/arm/mach-msm/rpm-regulator.c:926-932 | the voltage field in uV: a whole number of mV below 4096 mV |
| RpmOps.OpsOf | arch/arm/mach-msm/rpm-regulator.c:993-1050 | LDO ids use `ldo_ops`, 8058 SMPS ids `smps_ops`, 8901 SMPS ids `smps_8901_ops`, switch ids `switch_ops`, the pump `ncp_ops`; no table exactly for ids in no family |
| RpmOps.OpEnable | arch/arm/mach-msm/rpm-regulator.c:934-981 | every table has `.enable`; all SMPS tables, 8901 included, use the unscaled `smps_enable` |
| RpmOps.OpDisable | arch/arm/mach-msm/rpm-regulator.c:934-981 | every table has `.disable`, the family's own |
| RpmOps.OpIsEnabled | arch/arm/mach-msm/rpm-regulator.c:934-981 | every table has `.is_enabled`, the family's own |
| RpmOps.OpSetVoltage | arch/arm/mach-msm/rpm-regulator.c:934-981 | no `.set_voltage` for switches; the 8901 table scales, the other SMPS and LDO tables do not |
| RpmOps.OpGetVoltage | arch/arm/mach-msm/rpm-regulator.c:934-981 | no `.get_voltage` for switches; the pump reads its field, the others `save_uV` |
| RpmOps.OpSetMode | arch/arm/mach-msm/rpm-regulator.c:934-981 | no `.set_mode` for the pump; switches use their own vote counting |
| RpmOps.OpGetMode | arch/arm/mach-msm/rpm-regulator.c:934-981 | no `.get_mode` for the pump; switches report by their vote count |
| RpmOps.OpGetOptimumMode | arch/arm/mach-msm/rpm-regulator.c:934-981 | `.get_optimum_mode` exists exactly for LDO and SMPS rails |
| RpmOps.OpDisableTurnsOff | arch/arm/mach-msm/rpm-regulator.c:934-981 | for every family, a rail other than S1 reads off through its table after a successful disable through it |
| RpmOps.OpEnableTurnsOn | arch/arm/mach-msm/rpm-regulator.c:934-981 | for every family, a rail other than S1 reads on after a successful enable, given a saved voltage of 1..4095 mV for LDO and SMPS |
| RpmOps.Smps8901EnableUnscaled | arch/arm/mach-msm/rpm-regulator.c:421-430 | an 8901 SMPS enable sends `save_uV` in mV unscaled, whatever the PMIC revision |
| RpmOps.Init | arch/arm/mach-msm/rpm-regulator.c:1103-1127 | `save_uV = 1`, not initialised, FAST iff the platform peak exceeds `lpm_max_load`; -EINVAL exactly for an id in no family; the family's words otherwise |
| RpmOps.InitModeAndState | arch/arm/mach-msm/rpm-regulator.c:1103-1127 | the initial mode reads as FAST or STANDBY by the platform peak, and an LDO/SMPS rail starts enabled iff its default voltage is nonzero |
| RpmRegulator.Vreg.constructor | arch/arm/mach-msm/rpm-regulator.c:120-130 | a zeroed rail with its LPM limit and one zero vote per voter |
| RpmRegulator.Vreg.HighestVote | arch/arm/mach-msm/rpm-regulator.c:241-243 | the loop's maximum is MaxVote of the table and bounds every vote |
| RpmRegulator.Vreg.Transmit | arch/arm/mach-msm/rpm-regulator.c:339-356 | the commit step in place, plus the transport call it makes |
| RpmRegulator.Vreg.SetS1 | arch/arm/mach-msm/rpm-regulator.c:213-269 | the S1 vote in place: new state, rc and transmissions are VregSetS1's |
| RpmRegulator.Vreg.Set | arch/arm/mach-msm/rpm-regulator.c:320-357 | the gate in place: new state, rc and transmissions are VregSet's |
| RpmRegulator.Vreg.SetDirect | arch/arm/mach-msm/rpm-regulator.c:331-356 | the non-S1 gate in place |
| RpmRegulator.Vreg.S1SetMinUvNoirq | arch/arm/mach-msm/rpm-regulator.c:282-297 | as RpmOps.S1SetMinUvNoirq, in place |
| RpmRegulator.Vreg.SetVoltage | arch/arm/mach-msm/rpm-regulator.c:610-626 | as RpmOps.SetVoltage, in place |
| RpmRegulator.Vreg.Smps8901SetVoltage | arch/arm/mach-msm/rpm-regulator.c:382-413 | as RpmOps.Smps8901SetVoltage, in place |
| RpmRegulator.Vreg.Enable | arch/arm/mach-msm/rpm-regulator.c:634-643 | as RpmOps.Enable, in place |
| RpmRegulator.Vreg.Disable | arch/arm/mach-msm/rpm-regulator.c:645-649 | as RpmOps.Disable, in place |
| RpmRegulator.Vreg.SetMode | arch/arm/mach-msm/rpm-regulator.c:671-782 | as RpmOps.SetMode, in place |
| RpmRegulator.Vreg.GetOptimumMode | arch/arm/mach-msm/rpm-regulator.c:797-821 | as RpmOps.GetOptimumMode, in place, with no transport call |
| RpmRegulator.Vreg.SwitchEnable | arch/arm/mach-msm/rpm-regulator.c:823-827 | as RpmOps.SwitchEnable, in place |
| RpmRegulator.Vreg.SwitchDisable | arch/arm/mach-msm/rpm-regulator.c:829-833 | as RpmOps.SwitchDisable, in place |
| RpmRegulator.Vreg.SwitchSetMode | arch/arm/mach-msm/rpm-regulator.c:851-886 | as RpmOps.SwitchSetMode, in place |
| RpmRegulator.Vreg.NcpEnable | arch/arm/mach-msm/rpm-regulator.c:897-901 | as RpmOps.NcpEnable, in place |
| RpmRegulator.Vreg.NcpDisable | arch/arm/mach-msm/rpm-regulator.c:903-907 | as RpmOps.NcpDisable, in place |
| RpmRegulator.Vreg.NcpSetVoltage | arch/arm/mach-msm/rpm-regulator.c:919-924 | as RpmOps.NcpSetVoltage, in place |
| RpmRegulator.Vreg.Init | arch/arm/mach-msm/rpm-regulator.c:1103-1127 | as RpmOps.Init, in place |
| RpmRegulator.Transport.Send | arch/arm/mach-msm/rpm-regulator.c:344 | the transport records the request and answers the given reply |
| Xoadc.PathSetup | drivers/misc/pmic8058-xoadc.c:128-257 | gain numerator 1, denominator 1, 2, 3 or 10; rsv 0x10 for NONE and TYPE15, else 0x20 |
| Xoadc.PathSetupRoutesDistinctInputs | drivers/misc/pmic8058-xoadc.c:128-257 | distinct paths select distinct multiplexer inputs (by construction of the channel names; nothing about the header's numeric values) |
| Xoadc.ClockSetup | drivers/misc/pmic8058-xoadc.c:273-291 | both configs use ana_param 0xFE then 0xFF and arb 0xF1, and differ only in dig_param (0x23/0x03) |
| Xoadc.ConfigureWrites | drivers/misc/pmic8058-xoadc.c:103-322 | eight writes: arbiter enabled twice first, path input and reference next, and only the last starts the conversion |
| Xoadc.Raw | drivers/misc/pmic8058-xoadc.c:382 | the 16-bit reading has the LSB low and the MSB high |
| Xoadc.HighFillIsAboveLowBits | drivers/misc/pmic8058-xoadc.c:385-388 | the fill is every bit at or above the resolution |
| Xoadc.SignExtend | drivers/misc/pmic8058-xoadc.c:384-388 | above the midpoint every fill bit is set and the rest kept; otherwise the reading is unchanged |
| Xoadc.SignExtendNegative | drivers/misc/pmic8058-xoadc.c:365-388 | an underflow reading becomes negative as an `int32_t` |
| Xoadc.SignExtendWideResolution | drivers/misc/pmic8058-xoadc.c:365-388 | with 16 or more bits of resolution no reading is extended |
| Xoadc.Xoadc.constructor | drivers/misc/pmic8058-xoadc.c:62-64 | uninitialised, empty pool and queue, count 0 |
| Xoadc.Xoadc.Probe | drivers/misc/pmic8058-xoadc.c:443-551 | the error order EFAULT, EINVAL, ENOMEM, EINVAL, ENOMEM, ENXIO, irq rc; on success 21 free slots with `idx` 20 down to 0 and an idle queue |
| Xoadc.Xoadc.SlotRequest | drivers/misc/pmic8058-xoadc.c:84-100 | an empty pool yields nothing and is unchanged; otherwise the head is removed and returned |
| Xoadc.Xoadc.RestoreSlot | drivers/misc/pmic8058-xoadc.c:72-81 | the slot goes to the head of the pool |
| Xoadc.Xoadc.RestoreThenRequest | drivers/misc/pmic8058-xoadc.c:72-100 | a restored slot is the next one handed out, and the pool is as before (LIFO) |
| Xoadc.Xoadc.SelectChanAndStartConv | drivers/misc/pmic8058-xoadc.c:324-341 | -ENODEV with no change when uninitialised; otherwise appends, counts up by 1 and configures iff the queue was idle |
| Xoadc.Xoadc.DequeueSlotRequest | drivers/misc/pmic8058-xoadc.c:344-357 | removes and returns the head of the queue |
| Xoadc.Xoadc.StartThenDequeue | drivers/misc/pmic8058-xoadc.c:324-357 | the queue is FIFO: the head comes out first and the new request goes last |
| Xoadc.Xoadc.ReadAdcCode | drivers/misc/pmic8058-xoadc.c:359-400 | -ENODEV or a read failure changes nothing; otherwise the sign-extended reading, the count down by 1, and the head reconfigured iff conversions remain |
| GpioRegistry.BucketOf | arch/arm/mach-msm/board-salsa-gpio.c:24 | `gpio >> 5` is the bucket b with 32b <= gpio < 32(b+1) |
| GpioRegistry.Find | arch/arm/mach-msm/board-salsa-gpio.c:96-114 | the reference lookup: a registered chip containing the GPIO, or nothing exactly when no chip does |
| GpioRegistry.FindUnique | arch/arm/mach-msm/board-salsa-gpio.c:70-83 | in a sorted, disjoint list the containing chip is unique |
| GpioRegistry.FirstIn | arch/arm/mach-msm/board-salsa-gpio.c:85-88 | the first chip touching a bucket, or nothing exactly when none does |
| GpioRegistry.FirstInIsLowest | arch/arm/mach-msm/board-salsa-gpio.c:85-88 | a bucket's chip has the lowest start of those touching it, and every earlier chip ends in an earlier bucket |
| GpioRegistry.FindNoneBetween | arch/arm/mach-msm/board-salsa-gpio.c:107-108 | a GPIO below the next chip's start and above every earlier end is in no chip |
| GpioRegistry.FindNoneOutside | arch/arm/mach-msm/board-salsa-gpio.c:100-105 | a GPIO whose bucket no chip touches is in no chip |
| GpioRegistry.SortedInsert | arch/arm/mach-msm/board-salsa-gpio.c:70-83 | the list after registration has one more entry |
| GpioRegistry.SortedInsertAdds | arch/arm/mach-msm/board-salsa-gpio.c:70-83 | the insert is a permutation of the old list plus the chip |
| GpioRegistry.SortedInsertOrdered | arch/arm/mach-msm/board-salsa-gpio.c:70-83 | a chip that overlaps none keeps the list sorted and disjoint |
| GpioRegistry.FirstInAfterInsert | arch/arm/mach-msm/board-salsa-gpio.c:85-88 | after the insert a touched bucket's first chip is the new one iff the bucket was empty or started higher; other buckets keep theirs |
| GpioRegistry.InsertAtStop | arch/arm/mach-msm/board-salsa-gpio.c:70-74 | the chip goes before the first chip starting after its end |
| GpioRegistry.BucketsAfterInsert | arch/arm/mach-msm/board-salsa-gpio.c:85-88 | the bucket loop restores "every bucket holds its first touching chip" |
| GpioRegistry.Registry.constructor | arch/arm/mach-msm/board-salsa-gpio.c:31-34 | an empty list and an empty array |
| GpioRegistry.Registry.Lookup | arch/arm/mach-msm/board-salsa-gpio.c:96-114 | the walk from the bucket returns Find: the containing chip, or nothing, including beyond the array |
| GpioRegistry.Registry.Grow | arch/arm/mach-msm/board-salsa-gpio.c:56-66 | a new array of the new size with old entries copied and new ones empty |
| GpioRegistry.Registry.Reserve | arch/arm/mach-msm/board-salsa-gpio.c:53-69 | the array reaches the chip's last bucket (size `end>>5 + 1`) unless the allocation fails; old entries are kept and new ones empty |
| GpioRegistry.Registry.InsertPosition | arch/arm/mach-msm/board-salsa-gpio.c:70-82 | busy exactly on overlap; otherwise the position where the sorted insert puts the chip |
| GpioRegistry.Registry.PointBuckets | arch/arm/mach-msm/board-salsa-gpio.c:85-88 | each touched bucket points at the chip unless it holds one starting lower; others are untouched |
| GpioRegistry.Registry.Register | arch/arm/mach-msm/board-salsa-gpio.c:36-94 | -ENOMEM changes nothing; -EBUSY iff overlap, keeping the list and old entries; success inserts in order; the list stays sorted and disjoint, with every bucket on its first chip |
| GpioRegistry.Registry.Configure | arch/arm/mach-msm/board-salsa-gpio.c:116-129 | the callback's answer when the found chip has one, else -ENOTSUPP |
| GpioRegistry.Registry.ReadDetectStatus | arch/arm/mach-msm/board-salsa-gpio.c:131-144 | the callback's answer when the found chip has one, else -ENOTSUPP |
| GpioRegistry.Registry.ClearDetectStatus | arch/arm/mach-msm/board-salsa-gpio.c:146-159 | the callback's answer when the found chip has one, else -ENOTSUPP |

## Left out

- Locks, IRQ context and the interrupt handler. The model is sequential. The no-IRQ transport is a flag on each recorded request.
- The RPM transport (`msm_rpm_set`, `msm_rpm_set_noirq`) is an oracle. Each operation takes the reply it would give, and `Transport` records what was sent.
- The PM8901 revision lookup. The revision is a parameter. Only the integer scaling formula is modelled.
- Words.Pm8901V1ScaleTruncates: the product `(uV-62100)*23` is taken on unbounded integers. C's `int` overflow for voltages above about 93 V is not modelled.
- C integer overflow elsewhere is not modelled: the millivolt and milliamp arithmetic on `int`. The request words and `pc_vote` are 32-bit and wrap explicitly.
- Headers that are not part of this model (`rpm-regulator.h`, the 8901 and ADC headers) are filled in as follows.
  - Rail ids are numbered in the order of the `vregs` table.
  - The S1 voter count and the framework voter's index are construction parameters.
  - `REGULATOR_MODE_*` are 1, 2, 4 and 8.
  - `RPM_VREG_STATE_OFF`/`ON` are 0 and 1, and `RPM_VREG_PIN_CTRL_NONE` is 0.
  - `XOADC_PMIC_0` is 0, the multiplexer channel codes are opaque names, and `ENOTSUPP` is 524.
- Regulator-framework and platform plumbing: probe/remove and `regulator_register`. The ops tables and the descriptor table are modelled by `RpmOps.OpsOf` and the `Op*` dispatch functions; what the framework does when a table has no such callback is not modelled (the dispatch returns `None`).
- `pm8058_write`/`pm8058_read` are abstracted. A configuration is a recorded event with its eight register writes, and a read is a byte plus a return code. A failing write inside `pm8058_xoadc_configure` returns early in the source, but every caller ignores that code, so the model records the full sequence.
- Xoadc.Xoadc.DequeueSlotRequest: requires a non-empty queue. The source takes the first entry of an empty list without a check, which has no defined result.
- Xoadc.Xoadc.ReadAdcCode: requires a queued slot whenever conversions are still pending after the decrement, for the same reason. The resolution is limited to 1..30 bits, where the C shift is defined.
- The `adc_instance` argument is dropped: only instance `XOADC_PMIC_0` exists. The slot's channel properties are carried in the conversion request.
- The probe's `adc_graph` calibration loop, `xoadc_mpp_config`/`xoadc_setup`, work items, completions and wakeup are left out. The allocations are flags.
- GpioRegistry.Registry.Register: requires `start <= end`. The source sizes the state allocation from `end + 1 - start` and does not handle an inverted range. That allocation is the `stateAllocFails` flag.
- The chip callbacks are outside this model. Each dispatch takes the callback's return code as a parameter.
- Calls made before the XOADC probe dereference a missing instance in the source. The model treats the instance as present and uses the `initialized` flag.
