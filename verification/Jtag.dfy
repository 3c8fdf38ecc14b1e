/** The JTAG driver's pin waveforms against the TAP controller of section 6.1 of
IEEE Std 1149.1-2001. */
module Jtag {

  // --- the device ---

  datatype TapState =
    | TestLogicReset | RunTestIdle
    | SelectDr | CaptureDr | ShiftDr | Exit1Dr | PauseDr | Exit2Dr | UpdateDr
    | SelectIr | CaptureIr | ShiftIr | Exit1Ir | PauseIr | Exit2Ir | UpdateIr

  function Next(s: TapState, tms: bool): TapState {
    match s
    case TestLogicReset => if tms then TestLogicReset else RunTestIdle
    case RunTestIdle => if tms then SelectDr else RunTestIdle
    case SelectDr => if tms then SelectIr else CaptureDr
    case CaptureDr => if tms then Exit1Dr else ShiftDr
    case ShiftDr => if tms then Exit1Dr else ShiftDr
    case Exit1Dr => if tms then UpdateDr else PauseDr
    case PauseDr => if tms then Exit2Dr else PauseDr
    case Exit2Dr => if tms then UpdateDr else ShiftDr
    case UpdateDr => if tms then SelectDr else RunTestIdle
    case SelectIr => if tms then TestLogicReset else CaptureIr
    case CaptureIr => if tms then Exit1Ir else ShiftIr
    case ShiftIr => if tms then Exit1Ir else ShiftIr
    case Exit1Ir => if tms then UpdateIr else PauseIr
    case PauseIr => if tms then Exit2Ir else PauseIr
    case Exit2Ir => if tms then UpdateIr else ShiftIr
    case UpdateIr => if tms then SelectDr else RunTestIdle
  }

  type Bits = seq<bool>

  /** What the chip loads: the data register that an instruction selects, with the
      value it captures; the instruction register's capture value; and the
      instruction in force after a reset. */
  datatype Device = Device(captures: Bits -> Bits, irCapture: Bits, resetInstruction: Bits)

  datatype Pins = Pins(tdi: bool, tms: bool, tck: bool)

  /** dr and ir are the shift registers, least significant bit (next to TDO) first;
      output is what Update-DR last latched, instruction what Update-IR last latched. */
  datatype Tap = Tap(state: TapState, tck: bool, tdo: bool, dr: Bits, output: Bits, ir: Bits, instruction: Bits)

  /** On a rising edge of TCK the present state's register acts, then the state changes. */
  function Rise(d: Device, t: Tap, tdi: bool, tms: bool): Tap {
    var acted :=
      match t.state
      case CaptureDr => t.(dr := d.captures(t.instruction))
      case ShiftDr => if t.dr == [] then t else t.(dr := t.dr[1..] + [tdi])
      case CaptureIr => t.(ir := d.irCapture)
      case ShiftIr => if t.ir == [] then t else t.(ir := t.ir[1..] + [tdi])
      case _ => t;
    acted.(state := Next(t.state, tms), tck := true)
  }

  /** On a falling edge TDO and the latched outputs change. */
  function Fall(d: Device, t: Tap): Tap {
    var acted :=
      match t.state
      case ShiftDr => if t.dr == [] then t else t.(tdo := t.dr[0])
      case ShiftIr => if t.ir == [] then t else t.(tdo := t.ir[0])
      case UpdateDr => t.(output := t.dr)
      case UpdateIr => t.(instruction := t.ir)
      case TestLogicReset => t.(instruction := d.resetInstruction)
      case _ => t;
    acted.(tck := false)
  }

  function Step(d: Device, t: Tap, p: Pins): Tap {
    if p.tck && !t.tck then Rise(d, t, p.tdi, p.tms)
    else if !p.tck && t.tck then Fall(d, t)
    else t
  }

  function Run(d: Device, t: Tap, ps: seq<Pins>): Tap {
    if ps == [] then t else Step(d, Run(d, t, ps[..|ps|-1]), ps[|ps|-1])
  }

  lemma {:induction false} RunAppend(d: Device, t: Tap, ps: seq<Pins>, qs: seq<Pins>)
    ensures Run(d, t, ps + qs) == Run(d, Run(d, t, ps), qs)
  {
    if qs == [] {
      assert ps + qs == ps;
    } else {
      RunAppend(d, t, ps, qs[..|qs|-1]);
      assert (ps + qs)[..|ps + qs|-1] == ps + qs[..|qs|-1];
    }
  }

  // --- the waveforms ---

  /** One clock: TCK low, then high, with TDI and TMS held. */
  function Clock(tdi: bool, tms: bool): seq<Pins> {
    [Pins(tdi, tms, false), Pins(tdi, tms, true)]
  }

  /** One clock for each TMS level, with TDI high. */
  function Moves(tms: Bits): seq<Pins> {
    if tms == [] then [] else Moves(tms[..|tms|-1]) + Clock(true, tms[|tms|-1])
  }

  /** One clock for each TDI level, with TMS low. */
  function Shifts(tdi: Bits): seq<Pins> {
    if tdi == [] then [] else Shifts(tdi[..|tdi|-1]) + Clock(tdi[|tdi|-1], false)
  }

  /** The effect of one clock. */
  lemma Tick(d: Device, t: Tap, ps: seq<Pins>, tdi: bool, tms: bool)
    ensures Run(d, t, ps + Clock(tdi, tms)) ==
      var low := if Run(d, t, ps).tck then Fall(d, Run(d, t, ps)) else Run(d, t, ps);
      Rise(d, low, tdi, tms)
  {
    var qs := ps + [Pins(tdi, tms, false)];
    assert qs[..|qs|-1] == ps;
    assert (ps + Clock(tdi, tms))[..|qs|] == qs;
  }

  /** The bits of a C string: '1' is high, everything else low.  The empty
      string's terminator is shifted as one low bit. */
  function Written(wr: string): (bits: Bits)
    ensures bits != []
  {
    if wr == "" then [false] else seq(|wr|, i requires 0 <= i < |wr| => wr[i] == '1')
  }

  datatype Path = Dr | Ir

  /** TMS on the way from Run-Test/Idle to the shift state. */
  function ToShift(p: Path): Bits {
    if p.Dr? then [true, false, false] else [true, true, false, false]
  }

  const TO_IDLE: Bits := [true, false]

  /** The waveform of a scan: to the shift state, all bits but the last, the last
      one on the way out, back to Run-Test/Idle. */
  function Scan(p: Path, bits: Bits): seq<Pins>
    requires bits != []
  {
    Moves(ToShift(p)) + Shifts(bits[..|bits|-1]) + Clock(bits[|bits|-1], true) + Moves(TO_IDLE)
  }

  lemma MovesIs(tms: Bits, b: bool)
    ensures Moves(tms + [b]) == Moves(tms) + Clock(true, b)
  {
    assert (tms + [b])[..|tms|] == tms;
  }

  lemma ShiftsIs(tdi: Bits, b: bool)
    ensures Shifts(tdi + [b]) == Shifts(tdi) + Clock(b, false)
  {
    assert (tdi + [b])[..|tdi|] == tdi;
  }

  /** A scan takes one clock a bit and five or six more: three or four to the shift state,
      and two back from it. */
  lemma ScanClocks(p: Path, bits: Bits)
    requires bits != []
    ensures |Scan(p, bits)| == 2 * (|bits| + if p.Dr? then 5 else 6)
  {
    MovesLength(ToShift(p));
    MovesLength(TO_IDLE);
    ShiftsLength(bits[..|bits|-1]);
  }

  lemma {:induction false} MovesLength(tms: Bits)
    ensures |Moves(tms)| == 2 * |tms|
  {
    if tms != [] {
      MovesLength(tms[..|tms|-1]);
    }
  }

  lemma {:induction false} ShiftsLength(tdi: Bits)
    ensures |Shifts(tdi)| == 2 * |tdi|
  {
    if tdi != [] {
      ShiftsLength(tdi[..|tdi|-1]);
    }
  }

  // --- reset ---

  lemma FallKeeps(d: Device, t: Tap)
    ensures Fall(d, t).state == t.state && !Fall(d, t).tck
    ensures t.state == TestLogicReset ==> Fall(d, t).instruction == d.resetInstruction
    ensures t.state != UpdateIr && t.state != TestLogicReset ==> Fall(d, t).instruction == t.instruction
    ensures Fall(d, t).dr == t.dr && Fall(d, t).ir == t.ir
  {
  }

  lemma RiseMoves(d: Device, t: Tap, tdi: bool, tms: bool)
    ensures Rise(d, t, tdi, tms).state == Next(t.state, tms) && Rise(d, t, tdi, tms).tck
    ensures Rise(d, t, tdi, tms).instruction == t.instruction
    ensures Rise(d, t, tdi, tms).output == t.output && Rise(d, t, tdi, tms).tdo == t.tdo
  {
  }

  /** The number of clocks with TMS high that still leads to Test-Logic-Reset. */
  function ToReset(s: TapState): (n: nat)
    ensures n <= 5 && (n == 0 <==> s == TestLogicReset)
  {
    match s
    case TestLogicReset => 0
    case SelectIr => 1
    case SelectDr => 2
    case RunTestIdle => 3
    case UpdateDr => 3
    case UpdateIr => 3
    case Exit1Dr => 4
    case Exit2Dr => 4
    case Exit1Ir => 4
    case Exit2Ir => 4
    case _ => 5
  }

  lemma HighCountsDown(s: TapState)
    ensures ToReset(Next(s, true)) == if s == TestLogicReset then 0 else ToReset(s) - 1
  {
  }

  /** n clocks with TMS high */
  function Highs(n: nat): (r: Bits)
    ensures |r| == n
  {
    if n == 0 then [] else Highs(n - 1) + [true]
  }

  lemma {:induction false} Resetting(d: Device, t: Tap, n: nat)
    ensures n > 0 ==> Run(d, t, Moves(Highs(n))).tck
    ensures ToReset(Run(d, t, Moves(Highs(n))).state) + n <= 5 || Run(d, t, Moves(Highs(n))).state == TestLogicReset
    ensures n > 5 ==> Run(d, t, Moves(Highs(n))).instruction == d.resetInstruction
  {
    if n > 0 {
      hide Rise, Fall, Next, Run, ToReset;
      Resetting(d, t, n - 1);
      var u := Run(d, t, Moves(Highs(n - 1)));
      MovesIs(Highs(n - 1), true);
      Tick(d, t, Moves(Highs(n - 1)), true, true);
      FallKeeps(d, u);
      RiseMoves(d, if u.tck then Fall(d, u) else u, true, true);
      HighCountsDown(u.state);
    }
  }

  /** Six clocks with TMS high and three with TMS low. */
  function ToIdlePins(): seq<Pins> {
    Moves(Highs(6)) + Moves([false, false, false])
  }

  /** From any state of the controller the reset waveform reaches Run-Test/Idle
      with the reset instruction in force. */
  lemma IdleFromAnywhere(d: Device, t: Tap)
    ensures var u := Run(d, t, ToIdlePins());
      u.state == RunTestIdle && u.tck && u.instruction == d.resetInstruction
  {
    hide Rise, Fall, Run, Highs;
    Resetting(d, t, 6);
    RunAppend(d, t, Moves(Highs(6)), Moves([false, false, false]));
    var u := Run(d, t, Moves(Highs(6)));
    assert u.state == TestLogicReset;
    IdleMoves(d, u);
  }

  lemma IdleMoves(d: Device, t: Tap)
    requires t.tck && t.state == TestLogicReset && t.instruction == d.resetInstruction
    ensures var u := Run(d, t, Moves([false, false, false]));
      u.state == RunTestIdle && u.tck && u.instruction == d.resetInstruction
  {
    RunNothing(d, t);
    hide Rise, Fall, Run;
    assert Moves([]) == [];
    assert [] + [false] == [false] && [false] + [false] == [false, false];
    assert [false, false] + [false] == [false, false, false];
    OneMove(d, t, [], false);
    OneMove(d, t, [false], false);
    OneMove(d, t, [false, false], false);
  }

  lemma RunNothing(d: Device, t: Tap)
    ensures Run(d, t, []) == t
  {
  }

  /** One more move, outside the states where the registers act. */
  lemma OneMove(d: Device, t: Tap, tms: Bits, b: bool)
    requires Run(d, t, Moves(tms)).tck
    ensures var u, v := Run(d, t, Moves(tms)), Run(d, t, Moves(tms + [b]));
      && v.tck && v.state == Next(u.state, b) && v == Rise(d, Fall(d, u), true, b)
      && (u.state == TestLogicReset ==> v.instruction == d.resetInstruction)
      && (u.state != UpdateIr && u.state != TestLogicReset ==> v.instruction == u.instruction)
  {
    hide Rise, Fall, Run;
    var u := Run(d, t, Moves(tms));
    MovesIs(tms, b);
    Tick(d, t, Moves(tms), true, b);
    FallKeeps(d, u);
    RiseMoves(d, Fall(d, u), true, b);
  }

  // --- scans ---

  function ShiftState(p: Path): TapState { if p.Dr? then ShiftDr else ShiftIr }

  function Exit1(p: Path): TapState { if p.Dr? then Exit1Dr else Exit1Ir }

  function Register(t: Tap, p: Path): Bits { if p.Dr? then t.dr else t.ir }

  function Latch(t: Tap, p: Path): Bits { if p.Dr? then t.output else t.instruction }

  function Captured(d: Device, t: Tap, p: Path): Bits { if p.Dr? then d.captures(t.instruction) else d.irCapture }

  /** The register is a delay line of |Captured| bits: what comes out, followed by
      what stays in it, is what was captured followed by what was written. */
  function Line(d: Device, t: Tap, p: Path, bits: Bits): (line: Bits)
    ensures |line| >= |bits|
  {
    Captured(d, t, p) + bits
  }

  lemma ScanStarts(d: Device, t: Tap, p: Path)
    requires t.state == RunTestIdle && t.tck
    ensures var u := Run(d, t, Moves(ToShift(p)));
      && u.state == ShiftState(p) && u.tck && Register(u, p) == Captured(d, t, p)
      && (p.Dr? ==> u.instruction == t.instruction)
  {
    RunNothing(d, t);
    assert Moves([]) == [];
    NextStates();
    hide Rise, Fall, Run, Moves, Next;
    assert [] + [true] == [true];
    OneMove(d, t, [], true);
    if p.Dr? {
      EntersDr(d, t);
    } else {
      EntersIr(d, t);
    }
  }

  /** The states a scan goes through. */
  lemma NextStates()
    ensures Next(RunTestIdle, true) == SelectDr && Next(SelectDr, true) == SelectIr
    ensures Next(SelectDr, false) == CaptureDr && Next(CaptureDr, false) == ShiftDr
    ensures Next(SelectIr, false) == CaptureIr && Next(CaptureIr, false) == ShiftIr
  {
  }

  lemma EntersDr(d: Device, t: Tap)
    requires var u := Run(d, t, Moves([true])); u.tck && u.state == SelectDr && u.instruction == t.instruction
    ensures var u := Run(d, t, Moves([true, false, false]));
      u.state == ShiftDr && u.tck && u.dr == Captured(d, t, Dr) && u.instruction == t.instruction
  {
    NextStates();
    hide Rise, Fall, Run, Moves, Next;
    assert [true] + [false] == [true, false] && [true, false] + [false] == [true, false, false];
    OneMove(d, t, [true], false);
    OneMove(d, t, [true, false], false);
    CaptureLoads(d, Run(d, t, Moves([true, false])), Dr);
  }

  lemma EntersIr(d: Device, t: Tap)
    requires var u := Run(d, t, Moves([true])); u.tck && u.state == SelectDr
    ensures var u := Run(d, t, Moves([true, true, false, false]));
      u.state == ShiftIr && u.tck && u.ir == Captured(d, t, Ir)
  {
    NextStates();
    hide Rise, Fall, Run, Moves, Next;
    assert [true] + [true] == [true, true] && [true, true] + [false] == [true, true, false];
    assert [true, true, false] + [false] == [true, true, false, false];
    OneMove(d, t, [true], true);
    OneMove(d, t, [true, true], false);
    OneMove(d, t, [true, true, false], false);
    CaptureLoads(d, Run(d, t, Moves([true, true, false])), Ir);
  }

  lemma CaptureLoads(d: Device, t: Tap, p: Path)
    requires t.state == if p.Dr? then CaptureDr else CaptureIr
    ensures Register(Rise(d, Fall(d, t), true, false), p) == Captured(d, t, p)
  {
  }

  /** One clock in the shift state moves the register by one bit. */
  lemma ShiftsOne(d: Device, t: Tap, ps: seq<Pins>, p: Path, tdi: bool, tms: bool)
    requires var u := Run(d, t, ps); u.tck && u.state == ShiftState(p) && Register(u, p) != []
    ensures var u, v := Run(d, t, ps), Run(d, t, ps + Clock(tdi, tms));
      && v.tck && v.state == (if tms then Exit1(p) else ShiftState(p))
      && v.tdo == Register(u, p)[0] && Register(v, p) == Register(u, p)[1..] + [tdi]
      && v.instruction == u.instruction
  {
    hide Run;
    Tick(d, t, ps, tdi, tms);
  }

  /** After k of the bits: the register is a window on the line, and TDO shows the
      bit that left it last. */
  ghost predicate InShift(d: Device, t: Tap, p: Path, line: Bits, k: nat, u: Tap) {
    var n := |Captured(d, t, p)|;
    && u.state == ShiftState(p) && u.tck && (p.Dr? ==> u.instruction == t.instruction)
    && k + n <= |line| && Register(u, p) == line[k..k+n]
    && (k > 0 ==> u.tdo == line[k-1])
  }

  lemma ShiftingStarts(d: Device, t: Tap, p: Path, bits: Bits)
    requires t.state == RunTestIdle && t.tck
    ensures InShift(d, t, p, Line(d, t, p, bits), 0, Run(d, t, Moves(ToShift(p)) + []))
  {
    hide Run, Moves, ToShift, Captured;
    ScanStarts(d, t, p);
    assert Moves(ToShift(p)) + [] == Moves(ToShift(p));
    assert Line(d, t, p, bits)[0..|Captured(d, t, p)|] == Captured(d, t, p);
  }

  /** The waveform up to the k-th bit. */
  function Entered(p: Path, bits: Bits, k: nat): seq<Pins>
    requires k <= |bits|
  {
    Moves(ToShift(p)) + Shifts(bits[..k])
  }

  lemma EnteredIs(p: Path, bits: Bits, k: nat)
    requires k <= |bits|
    ensures Entered(p, bits, 0) == Moves(ToShift(p)) + []
    ensures k > 0 ==> Entered(p, bits, k) == Entered(p, bits, k - 1) + Clock(bits[k-1], false)
  {
    hide Moves, ToShift, Clock;
    if k > 0 {
      ShiftsIs(bits[..k-1], bits[k-1]);
      assert bits[..k-1] + [bits[k-1]] == bits[..k];
    }
  }

  lemma EnteredAtOnce(p: Path, bits: Bits)
    requires bits != []
    ensures Entered(p, bits, 0) ==
      if p.Dr? then Clock(true, true) + Clock(true, false) + Clock(true, false)
      else Clock(true, true) + Clock(true, true) + Clock(true, false) + Clock(true, false)
  {
    hide Clock, Moves;
    EnteredIs(p, bits, 0);
    if p.Dr? {
      MovesInOrder(true, false, false);
    } else {
      MovesInOrder(true, true, false);
      MovesIs([true, true, false], false);
      assert [true, true, false] + [false] == ToShift(p);
    }
  }

  lemma ScanIs(before: seq<Pins>, p: Path, bits: Bits, i: nat)
    requires i + 1 == |bits|
    ensures before + Scan(p, bits) ==
      before + Entered(p, bits, i) + Clock(bits[i], true) + Clock(true, true) + Clock(true, false)
  {
    hide Clock, Moves;
    MovesInOrder(true, false, false);
  }

  lemma {:induction false} Shifting(d: Device, t: Tap, p: Path, bits: Bits, k: nat)
    requires t.state == RunTestIdle && t.tck && Captured(d, t, p) != [] && k <= |bits|
    ensures InShift(d, t, p, Line(d, t, p, bits), k, Run(d, t, Entered(p, bits, k)))
  {
    EnteredIs(p, bits, k);
    hide InShift, Run, Moves, Shifts, Clock, ToShift, Captured, Entered;
    if k == 0 {
      ShiftingStarts(d, t, p, bits);
    } else {
      Shifting(d, t, p, bits, k - 1);
      ShiftsOneMore(d, t, p, bits, k - 1, Entered(p, bits, k - 1));
    }
  }

  lemma ShiftsOneMore(d: Device, t: Tap, p: Path, bits: Bits, k: nat, ps: seq<Pins>)
    requires k < |bits| && Captured(d, t, p) != []
    requires InShift(d, t, p, Line(d, t, p, bits), k, Run(d, t, ps))
    ensures InShift(d, t, p, Line(d, t, p, bits), k + 1, Run(d, t, ps + Clock(bits[k], false)))
  {
    hide Run, Clock, Register, Captured;
    ShiftsOne(d, t, ps, p, bits[k], false);
    WindowMoves(Line(d, t, p, bits), |Captured(d, t, p)|, k);
    assert bits[k] == Line(d, t, p, bits)[k + |Captured(d, t, p)|];
  }

  lemma WindowMoves(line: Bits, n: nat, k: nat)
    requires n > 0 && k + n < |line|
    ensures line[k..k+n][1..] + [line[k+n]] == line[k+1..k+1+n]
  {
  }

  /** Leaving the shift state: the last bit enters the register on the way out. */
  lemma ScanLeaves(d: Device, t: Tap, p: Path, bits: Bits)
    requires t.state == RunTestIdle && t.tck && Captured(d, t, p) != [] && bits != []
    ensures var m, line := |bits|, Line(d, t, p, bits);
      var u := Run(d, t, Entered(p, bits, m - 1) + Clock(bits[m-1], true));
      && u.state == Exit1(p) && u.tck && (p.Dr? ==> u.instruction == t.instruction)
      && Register(u, p) == line[m..] && u.tdo == line[m-1]
  {
    hide Run, Moves, Shifts, Clock, ToShift, Register;
    var m := |bits|;
    Shifting(d, t, p, bits, m - 1);
    ShiftsOne(d, t, Entered(p, bits, m - 1), p, bits[m-1], true);
    WindowMoves(Line(d, t, p, bits), |Captured(d, t, p)|, m - 1);
    assert Line(d, t, p, bits)[m..m + |Captured(d, t, p)|] == Line(d, t, p, bits)[m..];
  }

  lemma UpdateLatches(d: Device, t: Tap, p: Path)
    requires t.state == Exit1(p) && t.tck
    ensures var u := Run(d, t, Moves(TO_IDLE));
      && u.state == RunTestIdle && u.tck && (p.Dr? ==> u.instruction == t.instruction)
      && Register(u, p) == Register(t, p) && Latch(u, p) == Register(t, p)
  {
    RunNothing(d, t);
    assert Moves([]) == [];
    assert [] + [true] == [true] && [true] + [false] == TO_IDLE;
    Leaving(d, t, p);
    hide Run, Moves, Rise, Fall, Next;
    OneMove(d, t, [], true);
    OneMove(d, t, [true], false);
  }

  /** The clock into the update state and the clock out of it. */
  lemma Leaving(d: Device, t: Tap, p: Path)
    requires t.state == Exit1(p) && t.tck
    ensures var u := Rise(d, Fall(d, t), true, true);
      var v := Rise(d, Fall(d, u), true, false);
      && v.state == RunTestIdle && v.tck && (p.Dr? ==> v.instruction == t.instruction)
      && Register(v, p) == Register(t, p) && Latch(v, p) == Register(t, p)
  {
  }

  /** A scan from Run-Test/Idle returns there; the register, and what Update
      latches, is the end of what was captured followed by what was written. */
  lemma ScanDelays(d: Device, t: Tap, p: Path, bits: Bits)
    requires t.state == RunTestIdle && t.tck && Captured(d, t, p) != [] && bits != []
    ensures var u := Run(d, t, Scan(p, bits));
      && u.state == RunTestIdle && u.tck && (p.Dr? ==> u.instruction == t.instruction)
      && Register(u, p) == Line(d, t, p, bits)[|bits|..] && Latch(u, p) == Line(d, t, p, bits)[|bits|..]
  {
    hide Run, Rise, Fall;
    var ps := Entered(p, bits, |bits| - 1) + Clock(bits[|bits|-1], true);
    ScanLeaves(d, t, p, bits);
    UpdateLatches(d, Run(d, t, ps), p);
    RunAppend(d, t, ps, Moves(TO_IDLE));
  }

  /** A scan at least as long as the register leaves only written bits in it. */
  lemma LongScanWrites(d: Device, t: Tap, p: Path, bits: Bits)
    requires t.state == RunTestIdle && t.tck && 0 < |Captured(d, t, p)| <= |bits|
    ensures Latch(Run(d, t, Scan(p, bits)), p) == bits[|bits| - |Captured(d, t, p)|..]
  {
    hide Run;
    ScanDelays(d, t, p, bits);
  }

  // --- the driver ---

  const LOW := '0'
  const HIGH := '1'

  /** wr[i] of a C string: the terminator follows its characters. */
  function At(wr: string, i: nat): char
    requires i <= |wr|
  {
    if i < |wr| then wr[i] else '\0'
  }

  lemma Written0(wr: string, k: nat)
    requires k < |Written(wr)|
    ensures k <= |wr| && |Written(wr)| == if wr == "" then 1 else |wr|
    ensures Written(wr)[k] == (At(wr, k) == HIGH)
  {
  }

  /** The moves of a waveform as they are made. */
  lemma MovesInOrder(a: bool, b: bool, c: bool)
    ensures Moves([a]) == Clock(true, a)
    ensures Moves([a, b]) == Clock(true, a) + Clock(true, b)
    ensures Moves([a, b, c]) == Clock(true, a) + Clock(true, b) + Clock(true, c)
  {
    assert Moves([]) == [];
    hide Moves;
    assert [] + [a] == [a] && [a] + [b] == [a, b] && [a, b] + [c] == [a, b, c];
    MovesIs([], a);
    MovesIs([a], b);
    MovesIs([a, b], c);
  }

  /** The first k characters of the buffer are the first k bits of the line; the
      others are as they were. */
  ghost predicate ReadSoFar(rd: string, was: string, line: Bits, k: nat) {
    && |rd| == |was| && k <= |rd| && k <= |line|
    && (forall i :: 0 <= i < k ==> rd[i] == if line[i] then '1' else '0')
    && (forall i :: k <= i < |rd| ==> rd[i] == was[i])
  }

  lemma NothingRead(rd: string, line: Bits)
    ensures ReadSoFar(rd, rd, line, 0)
  {
  }

  /** The parallel port with the chip behind it. */
  class Port {
    const device: Device
    ghost const initial: Tap
    var tap: Tap
    ghost var trace: seq<Pins>

    constructor (device: Device, tap: Tap)
      ensures this.device == device && this.tap == tap && Valid() && trace == []
    {
      this.device := device;
      this.initial := tap;
      this.tap := tap;
      trace := [];
    }

    /** The chip is where everything driven so far has taken it. */
    ghost predicate Valid()
      reads this
    {
      tap == Run(device, initial, trace)
    }

    /** JTAG_SET */
    method Set(tdi: bool, tms: bool, tck: bool)
      requires Valid()
      modifies this
      ensures Valid() && trace == old(trace) + [Pins(tdi, tms, tck)]
    {
      hide Step;
      tap := Step(device, tap, Pins(tdi, tms, tck));
      trace := trace + [Pins(tdi, tms, tck)];
      assert trace[..|trace|-1] == old(trace);
    }

    /** JTAG_GET_TDO */
    method GetTdo() returns (c: char)
      ensures c == if tap.tdo then HIGH else LOW
    {
      c := if tap.tdo then HIGH else LOW;
    }

    /** The two settings of one clock. */
    method Cycle(tdi: bool, tms: bool)
      requires Valid()
      modifies this
      ensures Valid() && trace == old(trace) + Clock(tdi, tms)
    {
      hide Valid;
      Set(tdi, tms, false);
      Set(tdi, tms, true);
    }

    /** Driving from a known state. */
    lemma Since(t: Tap, before: seq<Pins>, ps: seq<Pins>)
      requires Valid() && t == Run(device, initial, before) && trace == before + ps
      ensures tap == Run(device, t, ps)
    {
      RunAppend(device, initial, before, ps);
    }

    /** JTAG_Reset */
    method Reset()
      requires Valid()
      modifies this
      ensures Valid() && trace == old(trace) + Moves(Highs(6))
    {
      hide Valid, Clock;
      Cycle(true, true);
      Cycle(true, true);
      Cycle(true, true);
      Cycle(true, true);
      Cycle(true, true);
      Cycle(true, true);
      SixHighs();
    }

    /** JTAG_RunTestldleState: from any state of the controller. */
    method RunTestIdleState()
      requires Valid()
      modifies this
      ensures Valid() && trace == old(trace) + ToIdlePins()
      ensures tap.state == RunTestIdle && tap.tck && tap.instruction == device.resetInstruction
    {
      hide Valid, Clock, Moves, Highs;
      ghost var t, before := tap, trace;
      assert t == Run(device, initial, before) by { Known(); }
      Reset();
      Cycle(true, false);
      Cycle(true, false);
      Cycle(true, false);
      MovesInOrder(false, false, false);
      Since(t, before, ToIdlePins());
      IdleFromAnywhere(device, t);
    }

    /** The clocks of a scan before its first bit. */
    method EnterShift(p: Path, ghost bits: Bits)
      requires Valid() && bits != []
      modifies this
      ensures Valid() && trace == old(trace) + Entered(p, bits, 0)
    {
      hide Valid, Clock, Entered;
      EnteredAtOnce(p, bits);
      Cycle(true, true);     // Select-DR-Scan
      if p.Ir? {
        Cycle(true, true);   // Select-IR-Scan
      }
      Cycle(true, false);    // Capture
      Cycle(true, false);    // Shift
    }

    /** The clocks of a scan after its last bit. */
    method LeaveShift(ghost p: Path, ghost bits: Bits, ghost t: Tap, ghost before: seq<Pins>)
      requires Valid() && bits != [] && t == Run(device, initial, before)
      requires trace == before + Entered(p, bits, |bits| - 1) + Clock(bits[|bits|-1], true)
      requires t.state == RunTestIdle && t.tck && Captured(device, t, p) != []
      modifies this
      ensures Valid() && trace == before + Scan(p, bits)
      ensures tap.state == RunTestIdle && tap.tck && (p.Dr? ==> tap.instruction == t.instruction)
      ensures Register(tap, p) == Line(device, t, p, bits)[|bits|..] &&
        Latch(tap, p) == Line(device, t, p, bits)[|bits|..]
    {
      hide Valid, Run, Clock, Entered, Scan, Line, Captured;
      Cycle(true, true);   // Update
      Cycle(true, false);  // Run-Test/Idle
      ScanIs(before, p, bits, |bits| - 1);
      Since(t, before, Scan(p, bits));
      ScanDelays(device, t, p, bits);
    }

    /** The loop over all bits but the last. */
    method ShiftBits(wr: string, ghost p: Path, ghost before: seq<Pins>) returns (i: nat)
      requires Valid() && trace == before + Entered(p, Written(wr), 0)
      modifies this
      ensures i + 1 == |Written(wr)| && Valid() && trace == before + Entered(p, Written(wr), i)
    {
      hide Valid, Clock, Entered, Written;
      var size := |wr|;
      i := 0;
      Written0(wr, 0);
      while i < size - 1
        invariant 0 <= i < |Written(wr)| && Valid() && trace == before + Entered(p, Written(wr), i)
      {
        Written0(wr, i);
        EnteredIs(p, Written(wr), i + 1);
        var tdi := At(wr, i) == HIGH;
        Cycle(tdi, false);
        i := i + 1;
      }
    }

    /** JTAG_ShiftIRState */
    method ShiftIRState(wr: string)
      requires Valid() && tap.state == RunTestIdle && tap.tck && Captured(device, tap, Ir) != []
      modifies this
      ensures Valid() && trace == old(trace) + Scan(Ir, Written(wr))
      ensures tap.state == RunTestIdle && tap.tck
      ensures tap.instruction == Line(device, old(tap), Ir, Written(wr))[|Written(wr)|..]
    {
      hide Valid, Run, Clock, Written, Entered, Scan, Line, Captured;
      ghost var t, before, bits := tap, trace, Written(wr);
      assert t == Run(device, initial, before) by { Known(); }
      EnterShift(Ir, bits);
      var i := ShiftBits(wr, Ir, before);
      Written0(wr, i);
      var tdi := At(wr, i) == HIGH;
      Cycle(tdi, true);    // Exit1-IR
      LeaveShift(Ir, bits, t, before);
    }

    /** JTAG_ShiftDRStateNoTdo */
    method ShiftDRStateNoTdo(wr: string)
      requires Valid() && tap.state == RunTestIdle && tap.tck && Captured(device, tap, Dr) != []
      modifies this
      ensures Valid() && trace == old(trace) + Scan(Dr, Written(wr))
      ensures tap.state == RunTestIdle && tap.tck && tap.instruction == old(tap.instruction)
      ensures tap.dr == tap.output == Line(device, old(tap), Dr, Written(wr))[|Written(wr)|..]
    {
      hide Valid, Run, Clock, Written, Entered, Scan, Line, Captured;
      ghost var t, before, bits := tap, trace, Written(wr);
      assert t == Run(device, initial, before) by { Known(); }
      EnterShift(Dr, bits);
      var i := ShiftBits(wr, Dr, before);
      Written0(wr, i);
      var tdi := At(wr, i) == HIGH;
      Cycle(tdi, true);    // Exit1-DR
      LeaveShift(Dr, bits, t, before);
    }

    /** JTAG_ShiftDRState: reads the first bits of what was captured followed by
        what was written. */
    method ShiftDRState(wr: string, rd: array<char>)
      requires Valid() && tap.state == RunTestIdle && tap.tck && Captured(device, tap, Dr) != []
      requires |Written(wr)| <= rd.Length
      modifies this, rd
      ensures Valid() && trace == old(trace) + Scan(Dr, Written(wr))
      ensures tap.state == RunTestIdle && tap.tck && tap.instruction == old(tap.instruction)
      ensures tap.dr == tap.output == Line(device, old(tap), Dr, Written(wr))[|Written(wr)|..]
      ensures ReadSoFar(rd[..], old(rd[..]), Line(device, old(tap), Dr, Written(wr)), |Written(wr)|)
    {
      hide Valid, Run, Clock, Written, Entered, Scan, Line, Captured, ReadSoFar;
      ghost var t, before, bits := tap, trace, Written(wr);
      ghost var line := Line(device, t, Dr, bits);
      assert t == Run(device, initial, before) by { Known(); }
      NothingRead(rd[..], line);
      EnterShift(Dr, bits);
      var size := |wr|;
      var i := 0;
      while i < size - 1
        invariant 0 <= i < |bits| && (size > 0 ==> i < size)
        invariant Valid() && trace == before + Entered(Dr, bits, i)
        invariant ReadSoFar(rd[..], old(rd[..]), line, i)
      {
        Written0(wr, i);
        EnteredIs(Dr, bits, i + 1);
        var tdi := At(wr, i) == HIGH;
        Cycle(tdi, false);
        i := i + 1;
        ShowsBit(t, before, bits, i);
        rd[i-1] := ReadTdo(rd, line, old(rd[..]), i - 1);
      }
      Written0(wr, i);
      var tdi := At(wr, i) == HIGH;
      Cycle(tdi, true);    // Exit1-DR
      ShowsLastBit(t, before, bits);
      rd[i] := ReadTdo(rd, line, old(rd[..]), i);
      LeaveShift(Dr, bits, t, before);
    }

    /** JTAG_GET_TDO, for the k-th character of the buffer. */
    method ReadTdo(ghost rd: array<char>, ghost line: Bits, ghost was: string, ghost k: nat) returns (c: char)
      requires ReadSoFar(rd[..], was, line, k) && k < rd.Length && k < |line| && tap.tdo == line[k]
      ensures ReadSoFar(rd[..][k := c], was, line, k + 1)
    {
      c := GetTdo();
    }

    /** TDO shows the bits of the line one after the other. */
    lemma ShowsBit(t: Tap, before: seq<Pins>, bits: Bits, i: nat)
      requires Valid() && t == Run(device, initial, before) && 0 < i <= |bits|
      requires trace == before + Entered(Dr, bits, i)
      requires t.state == RunTestIdle && t.tck && Captured(device, t, Dr) != []
      ensures tap.tdo == Line(device, t, Dr, bits)[i-1]
    {
      hide Run, Entered;
      Since(t, before, Entered(Dr, bits, i));
      Shifting(device, t, Dr, bits, i);
    }

    lemma ShowsLastBit(t: Tap, before: seq<Pins>, bits: Bits)
      requires Valid() && t == Run(device, initial, before) && bits != []
      requires trace == before + Entered(Dr, bits, |bits| - 1) + Clock(bits[|bits|-1], true)
      requires t.state == RunTestIdle && t.tck && Captured(device, t, Dr) != []
      ensures tap.tdo == Line(device, t, Dr, bits)[|bits|-1]
    {
      hide Run, Entered, Clock;
      Since(t, before, Entered(Dr, bits, |bits| - 1) + Clock(bits[|bits|-1], true));
      ScanLeaves(device, t, Dr, bits);
    }

    lemma Known()
      requires Valid()
      ensures tap == Run(device, initial, trace)
    {
    }
  }

  lemma SixHighs()
    ensures var c := Clock(true, true); Moves(Highs(6)) == c + c + c + c + c + c
  {
    hide Clock, Moves;
    MovesInOrder(true, true, true);
    var h := Highs(3);
    assert h == [true, true, true] by { assert Highs(0) == [] && Highs(1) == [true] && Highs(2) == [true, true]; }
    MovesIs(h, true);
    MovesIs(h + [true], true);
    MovesIs(h + [true] + [true], true);
  }
}
