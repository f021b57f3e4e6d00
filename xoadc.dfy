/**
 * The PM8058 XO ADC driver's request machinery: a pool of free conversion
 * slots, a FIFO queue of conversions with a pending counter, the register
 * values written to start a conversion, and the sign extension of a reading.
 * The PMIC's registers are not modelled: starting a conversion is recorded as
 * an event holding the request and the register writes it makes, and the two
 * result bytes of a reading are inputs.
 */
module Xoadc {
  import opened Words

  type Byte = bv8

  const MaxQueueLength: int := 0x15

  const ENXIO: int := -6
  const EInval: int := -22
  const ENOMEM: int := -12
  const EFAULT: int := -14
  const ENODEV: int := -19

  /** The index of the only PMIC's XO ADC (`XOADC_PMIC_0`). */
  const XoadcPmic0: int := 0

  // ---- the register values of a conversion (`pm8058_xoadc_configure`) ----

  /** The channel paths a conversion can be routed through. */
  datatype ChanPath =
    | PathType1 | PathType2 | PathType3 | PathType4 | PathType5 | PathType6 | PathType7
    | PathType8 | PathType9 | PathType10 | PathType11 | PathType12 | PathType13 | PathType14
    | PathTypeNone | PathType15

  /** The analog multiplexer inputs; their numeric codes are board header constants. */
  datatype AmuxChannel =
    | Vcoin | Vbat | Vchg | ChgMonitor | VphPwr | Mpp5 | Mpp6 | Mpp7 | Mpp8 | Mpp9
    | UsbVbus | DieTemp | Channel125V | Internal2 | MuxOff | Internal

  /** The two clock configurations of the converter. */
  datatype AdcConfig = AdcConfigType1 | AdcConfigType2

  /** What a channel path selects: the multiplexer input, the RSV byte and the scaling of the reading. */
  datatype PathSelection = PathSelection(amux: AmuxChannel, rsv: Byte, gainNumerator: int, gainDenominator: int)

  function PathSetup(p: ChanPath): (s: PathSelection)
    // the reading is always divided, never multiplied
    ensures s.gainNumerator == 1
    ensures s.gainDenominator in {1, 2, 3, 10}
    // the multiplexer-off and internal paths use the other reference
    ensures s.rsv == if p == PathTypeNone || p == PathType15 then 0x10 else 0x20
  {
    match p
    case PathType1 => PathSelection(Vcoin, 0x20, 1, 2)
    case PathType2 => PathSelection(Vbat, 0x20, 1, 3)
    case PathType3 => PathSelection(Vchg, 0x20, 1, 10)
    case PathType4 => PathSelection(ChgMonitor, 0x20, 1, 1)
    case PathType5 => PathSelection(VphPwr, 0x20, 1, 3)
    case PathType6 => PathSelection(Mpp5, 0x20, 1, 1)
    case PathType7 => PathSelection(Mpp6, 0x20, 1, 1)
    case PathType8 => PathSelection(Mpp7, 0x20, 1, 2)
    case PathType9 => PathSelection(Mpp8, 0x20, 1, 2)
    case PathType10 => PathSelection(Mpp9, 0x20, 1, 3)
    case PathType11 => PathSelection(UsbVbus, 0x20, 1, 3)
    case PathType12 => PathSelection(DieTemp, 0x20, 1, 1)
    case PathType13 => PathSelection(Channel125V, 0x20, 1, 1)
    case PathType14 => PathSelection(Internal2, 0x20, 1, 1)
    case PathTypeNone => PathSelection(MuxOff, 0x10, 1, 1)
    case PathType15 => PathSelection(Internal, 0x10, 1, 1)
  }

  /**
   * Each channel path routes a different multiplexer input. This holds by
   * construction of the AmuxChannel datatype, whose constructors stand for the
   * `CHANNEL_*` values of a header that is not part of this model; it says
   * nothing about those numeric values.
   */
  lemma {:induction false} PathSetupRoutesDistinctInputs(p: ChanPath, q: ChanPath)
    requires p != q
    ensures PathSetup(p).amux != PathSetup(q).amux
  {
    match p
    case PathType1 =>
    case PathType2 =>
    case PathType3 =>
    case PathType4 =>
    case PathType5 =>
    case PathType6 =>
    case PathType7 =>
    case PathType8 =>
    case PathType9 =>
    case PathType10 =>
    case PathType11 =>
    case PathType12 =>
    case PathType13 =>
    case PathType14 =>
    case PathTypeNone =>
    case PathType15 =>
  }

  /** The analog, digital and arbiter bytes of a clock configuration. */
  datatype ClockSelection = ClockSelection(anaParam: Byte, digParam: Byte, anaParam2: Byte, arbCntrl: Byte)

  function ClockSetup(c: AdcConfig): (s: ClockSelection)
    // both configurations share the analog parameters and the start command
    ensures s.anaParam == 0xFE && s.anaParam2 == 0xFF && s.arbCntrl == 0xF1
    // and differ only in the digital parameter
    ensures s.digParam == if c == AdcConfigType1 then 0x23 else 0x03
  {
    match c
    case AdcConfigType1 => ClockSelection(0xFE, 0x23, 0xFF, 0xF1)
    case AdcConfigType2 => ClockSelection(0xFE, 0x03, 0xFF, 0xF1)
  }

  // the arbiter's registers
  const ArbCntrl: int := 0x197
  const ArbAmuxCntrl: int := 0x198
  const ArbAnaParam: int := 0x199
  const ArbDigParam: int := 0x19A
  const ArbRsv: int := 0x19B

  /** A byte written to a register; the multiplexer select byte is `channel << 4`. */
  datatype RegData = Literal(b: Byte) | AmuxSelect(ch: AmuxChannel)
  datatype RegWrite = RegWrite(reg: int, data: RegData)

  /** A conversion request: the slot's index and the path and configuration its owner chose. */
  datatype ConvRequest = ConvRequest(idx: int, path: ChanPath, config: AdcConfig)

  /** The register writes of `pm8058_xoadc_configure`, in order, when every write succeeds. */
  function ConfigureWrites(r: ConvRequest): (w: seq<RegWrite>)
    // the arbiter is enabled twice before anything else
    ensures |w| == 8 && w[0] == w[1] == RegWrite(ArbCntrl, Literal(0x71))
    // the conversion is started by the last write and by no other
    ensures w[7] == RegWrite(ArbCntrl, Literal(0xF1))
    ensures forall i :: 0 <= i < 7 ==> w[i] != RegWrite(ArbCntrl, Literal(0xF1))
    // the path's multiplexer input and reference are selected before the clock parameters
    ensures w[2] == RegWrite(ArbAmuxCntrl, AmuxSelect(PathSetup(r.path).amux))
    ensures w[3] == RegWrite(ArbRsv, Literal(PathSetup(r.path).rsv))
    // the analog parameter register ends up holding its second byte
    ensures w[4].reg == w[6].reg == ArbAnaParam && w[6].data == Literal(0xFF)
  {
    var p := PathSetup(r.path);
    var c := ClockSetup(r.config);
    [RegWrite(ArbCntrl, Literal(0x71)), RegWrite(ArbCntrl, Literal(0x71)),
     RegWrite(ArbAmuxCntrl, AmuxSelect(p.amux)), RegWrite(ArbRsv, Literal(p.rsv)),
     RegWrite(ArbAnaParam, Literal(c.anaParam)), RegWrite(ArbDigParam, Literal(c.digParam)),
     RegWrite(ArbAnaParam, Literal(c.anaParam2)), RegWrite(ArbCntrl, Literal(c.arbCntrl))]
  }

  /** The hardware was programmed for a conversion: the request and its register writes. */
  datatype Configured = Configured(request: ConvRequest, writes: seq<RegWrite>)

  function Configure(r: ConvRequest): (e: Configured)
    ensures e.request == r && e.writes == ConfigureWrites(r)
  {
    Configured(r, ConfigureWrites(r))
  }

  // ---- sign extension of a reading (`pm8058_xoadc_read_adc_code`) ----

  /** The two result bytes as one 16-bit reading. */
  function Raw(msb: Byte, lsb: Byte): (raw: Word)
    ensures raw < 0x1_0000
    ensures raw & 0xFF == lsb as Word && raw >> 8 == msb as Word
  {
    ((msb as Word) << 8) | (lsb as Word)
  }

  /** Bits 0 .. b-1. */
  function LowBits(b: nat): Word
    requires b < 32
  {
    ((1 as Word) << b) - 1
  }

  /** The fill the driver ORs into an underflowing reading: bits b .. 31. */
  function HighFill(b: nat): Word
    requires 1 <= b <= 30
  {
    (((1 as Word) << (32 - b)) - 1) << b
  }

  /** The fill is exactly the bits above the low `b` ones. */
  lemma HighFillIsAboveLowBits(b: nat)
    requires 1 <= b <= 30
    ensures HighFill(b) == !LowBits(b)
  {
  }

  /** The fill includes the sign bit of a 32-bit reading. */
  lemma HighFillSign(b: nat)
    requires 1 <= b <= 30
    ensures HighFill(b) & 0x8000_0000 != 0
  {
  }

  /** The midpoint of the range above the ideal maximum `1 << bits`. */
  function Midpoint(bits: nat): Word
    requires bits <= 30
  {
    ((1 as Word) << bits) + (((1 as Word) << bits) >> 1)
  }

  lemma SetBits(x: Word, fill: Word)
    ensures (x | fill) & fill == fill
    ensures (x | fill) & !fill == x & !fill
  {
  }

  /**
   * A reading above `midpoint` is an underflow, and `fill` is ORed into it;
   * `pm8058_xoadc_read_adc_code` uses `Midpoint(bits)` and `HighFill(bits)`.
   */
  function SignExtend(raw: Word, midpoint: Word, fill: Word): (data: Word)
    // an underflow sets every bit of the fill and keeps every other bit
    ensures raw > midpoint ==> data & fill == fill
    ensures raw > midpoint ==> data & !fill == raw & !fill
    // any other reading is returned as read
    ensures raw <= midpoint ==> data == raw
  {
    if raw > midpoint then
      SetBits(raw, fill);
      raw | fill
    else raw
  }

  /** At a resolution of `bits` bits, an underflow comes out as a negative 32-bit reading. */
  lemma {:induction false} SignExtendNegative(raw: Word, bits: nat)
    requires 1 <= bits <= 30 && raw > Midpoint(bits)
    ensures SignExtend(raw, Midpoint(bits), HighFill(bits)) & 0x8000_0000 != 0
  {
    HighFillSign(bits);
    SetBits(raw, HighFill(bits));
  }

  /** At 16 or more bits of resolution no 16-bit reading is above the midpoint. */
  lemma SignExtendWideResolution(msb: Byte, lsb: Byte, bits: nat)
    requires 16 <= bits <= 30
    ensures SignExtend(Raw(msb, lsb), Midpoint(bits), HighFill(bits)) == Raw(msb, lsb)
  {
  }

  // ---- the driver instance ----

  /**
   * One XO ADC instance (`struct pmic8058_adc`) and the driver's
   * `xoadc_initialized` flag. The free-slot list (`conv_slot_request`) and the
   * conversion list (`conv_queue_list`) hold slot indices, head first.
   */
  class Xoadc {
    var initialized: bool
    var pool: seq<int>
    var queue: seq<ConvRequest>
    var queueCount: int
    /** Every time the hardware was programmed, in order. */
    var configured: seq<Configured>

    /** Before the driver is probed. */
    constructor ()
      ensures !initialized && pool == [] && queue == [] && queueCount == 0 && configured == []
    {
      initialized := false;
      pool := [];
      queue := [];
      queueCount := 0;
      configured := [];
    }

    /**
     * `pm8058_xoadc_probe`, with the outcome of each platform call as an
     * input: the parent chip and the platform data are present, the two
     * allocations succeed, and the interrupt line and its handler are obtained.
     */
    method Probe(hasChip: bool, hasPdata: bool, allocFails: bool, xoadcNum: int,
                 graphAllocFails: bool, irq: int, irqRc: int) returns (rc: int)
      modifies this
      ensures !hasChip ==> rc == EFAULT && unchanged(this)
      ensures hasChip && !hasPdata ==> rc == EInval && unchanged(this)
      ensures hasChip && hasPdata && allocFails ==> rc == ENOMEM && unchanged(this)
      // the remaining failures tear the instance down again
      ensures hasChip && hasPdata && !allocFails && rc != 0 ==>
        !initialized && pool == old(pool) && queue == old(queue) && queueCount == old(queueCount)
        && configured == old(configured)
      ensures hasChip && hasPdata && !allocFails ==>
        rc == (if xoadcNum > XoadcPmic0 then EInval
               else if graphAllocFails then ENOMEM
               else if irq < 0 then ENXIO
               else irqRc)
      // success: every slot is free, the last one set up first, and nothing is queued
      ensures rc == 0 ==>
        initialized && queue == [] && queueCount == 0 && configured == old(configured)
        && |pool| == MaxQueueLength
        && (forall i :: 0 <= i < MaxQueueLength ==> pool[i] == MaxQueueLength - 1 - i)
    {
      if !hasChip {
        return EFAULT;
      }
      if !hasPdata {
        return EInval;
      }
      if allocFails {
        return ENOMEM;
      }
      if xoadcNum > XoadcPmic0 {
        initialized := false;
        return EInval;
      }
      if graphAllocFails {
        initialized := false;
        return ENOMEM;
      }

      // tie each slot into the free list
      var slots: seq<int> := [];
      var i := 0;
      while i < MaxQueueLength
        invariant 0 <= i <= MaxQueueLength
        invariant |slots| == i
        invariant forall k :: 0 <= k < i ==> slots[k] == i - 1 - k
      {
        slots := [i] + slots;
        i := i + 1;
      }

      if irq < 0 {
        initialized := false;
        return ENXIO;
      }
      if irqRc != 0 {
        initialized := false;
        return irqRc;
      }
      pool, queue, queueCount := slots, [], 0;
      initialized := true;
      return 0;
    }

    /** `pm8058_xoadc_slot_request`: take the first free slot, if any. */
    method SlotRequest() returns (slot: Option<int>)
      modifies this
      ensures old(pool) == [] ==> slot == None && pool == old(pool)
      ensures old(pool) != [] ==> slot == Some(old(pool)[0]) && pool == old(pool)[1..]
      ensures initialized == old(initialized) && queue == old(queue)
      ensures queueCount == old(queueCount) && configured == old(configured)
    {
      if pool != [] {
        slot := Some(pool[0]);
        pool := pool[1..];
      } else {
        slot := None;
      }
    }

    /** `pm8058_xoadc_restore_slot`: give a slot back at the head of the free list. */
    method RestoreSlot(idx: int)
      modifies this
      ensures pool == [idx] + old(pool)
      ensures initialized == old(initialized) && queue == old(queue)
      ensures queueCount == old(queueCount) && configured == old(configured)
    {
      pool := [idx] + pool;
    }

    /** A slot given back is the next one handed out, and the free list is as before. */
    method RestoreThenRequest(idx: int) returns (slot: Option<int>)
      modifies this
      ensures slot == Some(idx) && pool == old(pool)
      ensures initialized == old(initialized) && queue == old(queue)
      ensures queueCount == old(queueCount) && configured == old(configured)
    {
      RestoreSlot(idx);
      slot := SlotRequest();
    }

    /**
     * `pm8058_xoadc_select_chan_and_start_conv`: queue the request at the tail
     * and count it; the hardware is programmed only if nothing was pending.
     */
    method SelectChanAndStartConv(r: ConvRequest) returns (rc: int)
      modifies this
      ensures !old(initialized) ==> rc == ENODEV && unchanged(this)
      ensures old(initialized) ==>
        rc == 0 && queue == old(queue) + [r] && queueCount == old(queueCount) + 1
        && configured == old(configured) + (if old(queueCount) == 0 then [Configure(r)] else [])
      ensures initialized == old(initialized) && pool == old(pool)
    {
      if !initialized {
        return ENODEV;
      }
      queue := queue + [r];
      if queueCount == 0 {
        configured := configured + [Configure(r)];
      }
      queueCount := queueCount + 1;
      return 0;
    }

    /** `pm8058_xoadc_dequeue_slot_request`: the interrupt takes the oldest request off the queue. */
    method DequeueSlotRequest() returns (r: ConvRequest)
      requires queue != []
      modifies this
      ensures r == old(queue)[0] && queue == old(queue)[1..]
      ensures initialized == old(initialized) && pool == old(pool)
      ensures queueCount == old(queueCount) && configured == old(configured)
    {
      r := queue[0];
      queue := queue[1..];
    }

    /** Requests leave the queue in the order they entered it. */
    method StartThenDequeue(r: ConvRequest) returns (rc: int, first: ConvRequest)
      requires initialized && queue != []
      modifies this
      ensures rc == 0 && first == old(queue)[0] && queue == old(queue)[1..] + [r]
      ensures queueCount == old(queueCount) + 1
    {
      rc := SelectChanAndStartConv(r);
      first := DequeueSlotRequest();
    }

    /**
     * `pm8058_xoadc_read_adc_code`: read the two result bytes (`lsbRc` and
     * `msbRc` are the answers of the two register reads), sign-extend the
     * reading, and count the conversion as done; if more are pending, start
     * the one at the head of the queue.
     */
    method ReadAdcCode(bits: nat, lsbRc: int, lsb: Byte, msbRc: int, msb: Byte)
      returns (rc: int, data: Option<Word>)
      requires 1 <= bits <= 30
      // the source reads the head of the queue whenever conversions are still pending
      requires initialized && lsbRc >= 0 && msbRc >= 0 && queueCount != 1 ==> queue != []
      modifies this
      ensures !old(initialized) ==> rc == ENODEV && data == None && unchanged(this)
      ensures old(initialized) && lsbRc < 0 ==> rc == lsbRc && data == None && unchanged(this)
      ensures old(initialized) && lsbRc >= 0 && msbRc < 0 ==> rc == msbRc && data == None && unchanged(this)
      ensures old(initialized) && lsbRc >= 0 && msbRc >= 0 ==>
        rc == 0 && data == Some(SignExtend(Raw(msb, lsb), Midpoint(bits), HighFill(bits)))
        && queueCount == old(queueCount) - 1
        && configured == old(configured) + (if queueCount != 0 then [Configure(old(queue)[0])] else [])
      ensures initialized == old(initialized) && pool == old(pool) && queue == old(queue)
    {
      if !initialized {
        return ENODEV, None;
      }
      if lsbRc < 0 {
        return lsbRc, None;
      }
      if msbRc < 0 {
        return msbRc, None;
      }
      data := Some(SignExtend(Raw(msb, lsb), Midpoint(bits), HighFill(bits)));
      queueCount := queueCount - 1;
      if queueCount != 0 {
        configured := configured + [Configure(queue[0])];
      }
      rc := 0;
    }
  }
}
