/** Programming an AM29F800 (bottom boot, word mode): the command sequences of
the driver against a model of the chip, whose programming only clears bits. */
module Flash {

  // --- the chip ---

  const BYTES := 0x10_0000
  const WORDS := 0x8_0000
  const BLANK: bv16 := 0xffff

  /** Where the sector of byte address b starts. */
  function SectorStart(b: nat): (s: nat)
    ensures s <= b
  {
    if b < 0x4000 then 0
    else if b < 0x6000 then 0x4000
    else if b < 0x8000 then 0x6000
    else if b < 0x1_0000 then 0x8000
    else b / 0x1_0000 * 0x1_0000
  }

  /** Where it ends. */
  function SectorEnd(b: nat): (e: nat)
    ensures b < e
  {
    if b < 0x4000 then 0x4000
    else if b < 0x6000 then 0x6000
    else if b < 0x8000 then 0x8000
    else if b < 0x1_0000 then 0x1_0000
    else b / 0x1_0000 * 0x1_0000 + 0x1_0000
  }

  predicate IsSectorStart(b: nat) {
    SectorStart(b) == b
  }

  /** How far the chip has got in a command sequence. */
  datatype Mode =
    | Read | Unlocking | Unlocked | Autoselect | Program
    | EraseSetup | EraseUnlocking | EraseUnlocked

  datatype Chip = Chip(cells: seq<bv16>, mode: Mode, manufacturer: bv16, device: bv16)

  datatype Event = Erase(start: nat) | Store(addr: nat, data: bv16)

  function Low(data: bv16): bv16 {
    data & 0xff
  }

  /** The chip decodes eleven address lines of a command, and the low data byte. */
  predicate Command(addr: nat, data: bv16, at: nat, code: bv16) {
    addr % 0x800 == at && Low(data) == code
  }

  function EraseCells(cells: seq<bv16>, lo: nat, hi: nat): (r: seq<bv16>)
    ensures |r| == |cells|
  {
    seq(|cells|, i requires 0 <= i < |cells| => if lo <= 2 * i < hi then BLANK else cells[i])
  }

  /** A bus write. */
  function Write(c: Chip, addr: nat, data: bv16): Chip
    requires addr < |c.cells|
  {
    if c.mode == Program then c.(cells := c.cells[addr := c.cells[addr] & data], mode := Read)
    else if Low(data) == 0xf0 then c.(mode := Read)
    else
      match c.mode
      case Autoselect => c
      case Read => c.(mode := if Command(addr, data, 0x555, 0xaa) then Unlocking else Read)
      case Unlocking => c.(mode := if Command(addr, data, 0x2aa, 0x55) then Unlocked else Read)
      case Unlocked =>
        c.(mode :=
          if Command(addr, data, 0x555, 0x90) then Autoselect
          else if Command(addr, data, 0x555, 0xa0) then Program
          else if Command(addr, data, 0x555, 0x80) then EraseSetup
          else Read)
      case EraseSetup => c.(mode := if Command(addr, data, 0x555, 0xaa) then EraseUnlocking else Read)
      case EraseUnlocking => c.(mode := if Command(addr, data, 0x2aa, 0x55) then EraseUnlocked else Read)
      case EraseUnlocked =>
        if Low(data) == 0x30 then
          c.(cells := EraseCells(c.cells, SectorStart(2 * addr), SectorEnd(2 * addr)), mode := Read)
        else if Command(addr, data, 0x555, 0x10) then
          c.(cells := EraseCells(c.cells, 0, 2 * |c.cells|), mode := Read)
        else c.(mode := Read)
  }

  /** What a write does to the cells. */
  function Effect(c: Chip, addr: nat, data: bv16): seq<Event> {
    if c.mode == Program then [Store(addr, data)]
    else if c.mode == EraseUnlocked && Low(data) == 0x30 then [Erase(SectorStart(2 * addr))]
    else []
  }

  /** A bus read. */
  function Fetch(c: Chip, addr: nat): bv16
    requires addr < |c.cells|
  {
    if c.mode == Autoselect && addr % 0x100 == 0 then c.manufacturer
    else if c.mode == Autoselect && addr % 0x100 == 1 then c.device
    else c.cells[addr]
  }

  // --- what a run leaves ---

  /** The cells when the image's first k words are stored from byte offset off on
      and the sectors up to hi are erased. */
  function Stored(was: seq<bv16>, off: nat, words: seq<bv16>, k: nat, hi: nat): (r: seq<bv16>)
    requires k <= |words|
    ensures |r| == |was|
  {
    seq(|was|, i requires 0 <= i < |was| =>
      if off <= 2 * i < off + 2 * k then words[(2 * i - off) / 2]
      else if off <= 2 * i < hi then BLANK
      else was[i])
  }

  /** Where the last sector that n words from off on touch ends. */
  function TouchedEnd(off: nat, n: nat): nat {
    if n == 0 then off else SectorEnd(off + 2 * (n - 1))
  }

  lemma SectorsFollow(b: nat)
    ensures IsSectorStart(SectorStart(b)) && IsSectorStart(SectorEnd(b)) && (b < BYTES ==> SectorEnd(b) <= BYTES)
    ensures SectorStart(b) % 2 == 0 && SectorEnd(b) % 2 == 0
    ensures forall c: nat :: SectorStart(b) <= c < SectorEnd(b) ==>
      SectorStart(c) == SectorStart(b) && SectorEnd(c) == SectorEnd(b)
  {
  }

  /** The nineteen sectors: 16, 8, 8 and 32 kilobytes, and then fifteen of 64. */
  lemma SectorLayout(b: nat)
    requires b < BYTES
    ensures IsSectorStart(b) <==> b in {0, 0x4000, 0x6000, 0x8000} || exists k :: 1 <= k <= 15 && b == k * 0x1_0000
    ensures
      var size := if b == 0 then 0x4000 else if b < 0x8000 then 0x2000 else if b == 0x8000 then 0x8000 else 0x1_0000;
      IsSectorStart(b) ==> SectorEnd(b) == b + size
  {
    if IsSectorStart(b) && b >= 0x1_0000 {
      assert b == b / 0x1_0000 * 0x1_0000;
    }
  }

  lemma SectorBounds(b: nat)
    ensures IsSectorStart(SectorEnd(b)) && (b < BYTES ==> SectorEnd(b) <= BYTES)
    ensures SectorEnd(b) % 2 == 0 && (IsSectorStart(b) ==> b % 2 == 0)
  {
    hide SectorStart, SectorEnd;
    SectorsFollow(b);
  }

  /** Exactly the cells of the sectors that the image touches differ from before. */
  lemma TouchedSectors(was: seq<bv16>, off: nat, words: seq<bv16>, a: nat)
    requires |was| == WORDS && IsSectorStart(off) && off + 2 * |words| <= BYTES && a < WORDS
    ensures
      var s := SectorStart(2 * a);
      var r := Stored(was, off, words, |words|, TouchedEnd(off, |words|));
      && (off <= 2 * a < off + 2 * |words| ==> r[a] == words[(2 * a - off) / 2])
      && (!(off <= 2 * a < off + 2 * |words|) && off <= s < off + 2 * |words| ==> r[a] == BLANK)
      && (!(off <= s < off + 2 * |words|) ==> r[a] == was[a])
  {
    hide SectorStart, SectorEnd;
    if |words| > 0 {
      var last := off + 2 * (|words| - 1);
      SectorsFollow(off);
      SectorsFollow(last);
      SectorsFollow(2 * a);
      if off <= 2 * a { SectorsInOrder(off, 2 * a); }
      if 2 * a <= last { SectorsInOrder(2 * a, last); }
      if SectorStart(2 * a) <= last { SectorsInOrder(SectorStart(2 * a), last); }
    }
  }

  lemma SectorsInOrder(b: nat, c: nat)
    requires b <= c
    ensures SectorStart(b) <= SectorStart(c) && SectorEnd(b) <= SectorEnd(c)
  {
  }

  /** Storing into a blank cell leaves exactly the data there. */
  lemma BlankTakesAll(data: bv16)
    ensures BLANK & data == data
  {
  }

  lemma EraseNext(was: seq<bv16>, off: nat, words: seq<bv16>, k: nat, hi: nat, end: nat)
    requires k <= |words| && off % 2 == 0 && off + 2 * k <= hi <= end
    ensures EraseCells(Stored(was, off, words, k, hi), hi, end) == Stored(was, off, words, k, end)
  {
  }

  lemma StoreNext(was: seq<bv16>, off: nat, words: seq<bv16>, k: nat, hi: nat)
    requires k < |words| && off % 2 == 0 && off + 2 * k < hi && off / 2 + k < |was|
    ensures
      var r := Stored(was, off, words, k, hi);
      var a := off / 2 + k;
      r[a] == BLANK && r[a := words[k]] == Stored(was, off, words, k + 1, hi)
  {
  }

  // --- the order of events ---

  /** The sectors of off..hi are erased once each, in order, and every store comes
      after the erasure of its sector; no cell is stored twice. */
  ghost predicate Orderly(log: seq<Event>, off: nat, hi: nat) {
    && (forall s: nat :: Erase(s) in log <==> IsSectorStart(s) && off <= s < hi)
    && (forall i, j :: 0 <= i < j < |log| && log[i].Erase? && log[j].Erase? ==> log[i].start < log[j].start)
    && (forall i, j :: 0 <= i < j < |log| && log[i].Store? && log[j].Store? ==> log[i].addr < log[j].addr)
    && (forall j :: 0 <= j < |log| && log[j].Store? ==> Erase(SectorStart(2 * log[j].addr)) in log[..j])
  }

  /** Every store of the log lies below this word address. */
  predicate StoresBelow(log: seq<Event>, bound: nat) {
    forall j :: 0 <= j < |log| && log[j].Store? ==> log[j].addr < bound
  }

  lemma OrderlyErase(log: seq<Event>, off: nat, hi: nat)
    requires Orderly(log, off, hi) && off <= hi < BYTES && IsSectorStart(hi)
    ensures Orderly(log + [Erase(hi)], off, SectorEnd(hi))
  {
    hide SectorStart, SectorEnd;
    var longer := log + [Erase(hi)];
    SectorsFollow(hi);
    forall s: nat ensures Erase(s) in longer <==> IsSectorStart(s) && off <= s < SectorEnd(hi) {
      assert Erase(s) in longer <==> Erase(s) in log || s == hi;
    }
    forall j | 0 <= j < |longer| && longer[j].Erase? ensures longer[j] in log || j == |log| {
    }
    forall i, j | 0 <= i < j < |longer| && longer[i].Erase? && longer[j].Erase?
      ensures longer[i].start < longer[j].start
    {
      if j == |log| {
        assert log[i] in log && log[i] == Erase(log[i].start);
      }
    }
    forall j | 0 <= j < |longer| && longer[j].Store? ensures Erase(SectorStart(2 * longer[j].addr)) in longer[..j] {
      assert longer[..j] == log[..j];
    }
  }

  lemma OrderlyStore(log: seq<Event>, off: nat, hi: nat, addr: nat, data: bv16)
    requires Orderly(log, off, hi) && IsSectorStart(off) && off <= 2 * addr < hi && 2 * addr < BYTES
    requires StoresBelow(log, addr)
    ensures Orderly(log + [Store(addr, data)], off, hi) && StoresBelow(log + [Store(addr, data)], addr + 1)
  {
    hide SectorStart, SectorEnd;
    var longer := log + [Store(addr, data)];
    assert Erase(SectorStart(2 * addr)) in log by {
      SectorsFollow(2 * addr);
      SectorsInOrder(off, 2 * addr);
    }
    forall s: nat ensures Erase(s) in longer <==> Erase(s) in log {
    }
    forall j | 0 <= j < |longer| && longer[j].Store? ensures Erase(SectorStart(2 * longer[j].addr)) in longer[..j] {
      if j < |log| {
        assert longer[..j] == log[..j];
      } else {
        assert longer[..j] == log;
      }
    }
  }

  // --- the driver ---

  /** The image as LoadImageFile leaves it: size bytes and four more of padding. */
  datatype Image = Image(bytes: seq<bv8>, size: nat) {
    ghost predicate Valid() {
      |bytes| == size + 4
    }

    /** The number of half words written: the last one of an odd image takes a padding byte. */
    function Count(): nat {
      (size + 1) / 2
    }

    /** The half word at byte offset i, low byte first. */
    function HalfWord(i: nat): bv16
      requires i + 1 < |bytes|
    {
      (bytes[i+1] as bv16 << 8) | bytes[i] as bv16
    }

    function Words(): (words: seq<bv16>)
      requires Valid()
      ensures |words| == Count()
      ensures forall k :: 0 <= k < Count() ==> words[k] == HalfWord(2 * k)
    {
      seq(Count(), k requires 0 <= k < Count() => HalfWord(2 * k))
    }
  }

  /** Both bytes can be had back from a half word. */
  lemma HalfWordKeepsBytes(m: Image, i: nat)
    requires i + 1 < |m.bytes|
    ensures Low(m.HalfWord(i)) == m.bytes[i] as bv16 && m.HalfWord(i) >> 8 == m.bytes[i+1] as bv16
  {
  }

  /** The half words are just enough to hold every byte of the image: the even ones low,
      the odd ones high. */
  lemma WordsHoldTheImage(m: Image, i: nat)
    requires m.Valid() && i < m.size
    ensures 2 * |m.Words()| <= m.size + 1 && i / 2 < |m.Words()|
    ensures m.bytes[i] as bv16 == if i % 2 == 0 then Low(m.Words()[i/2]) else m.Words()[i/2] >> 8
  {
    HalfWordKeepsBytes(m, i / 2 * 2);
  }

  /** The low bytes of the words that the driver sends as commands. */
  lemma Codes()
    ensures Low(0xaaaa) == 0xaa && Low(0x5555) == 0x55 && Low(0x9090) == 0x90 && Low(0xa0a0) == 0xa0
    ensures Low(0x8080) == 0x80 && Low(0x3030) == 0x30 && Low(0xf0f0) == 0xf0
  {
  }

  class Programmer {
    var chip: Chip
    ghost var log: seq<Event>
    var srcOffset: nat
    var sectorOffset: nat
    var sectorSize: nat
    var totalSize: nat

    constructor (chip: Chip)
      requires |chip.cells| == WORDS
      ensures this.chip == chip && log == []
    {
      this.chip := chip;
      log := [];
      srcOffset, sectorOffset, sectorSize, totalSize := 0, 0, 0, 0;
    }

    /** _WR */
    method Wr(addr: nat, data: bv16)
      requires addr < |chip.cells|
      modifies `chip, `log
      ensures chip == Write(old(chip), addr, data) && log == old(log) + Effect(old(chip), addr, data)
    {
      log := log + Effect(chip, addr, data);
      chip := Write(chip, addr, data);
    }

    /** _RD */
    method Rd(addr: nat) returns (data: bv16)
      requires addr < |chip.cells|
      ensures data == Fetch(chip, addr)
    {
      data := Fetch(chip, addr);
    }

    /** _RESET */
    method Reset()
      requires |chip.cells| == WORDS && chip.mode != Program
      modifies `chip, `log
      ensures chip == old(chip).(mode := Read) && log == old(log)
    {
      Codes();
      Wr(0x0, 0xf0f0);
    }

    /** The two writes that open a command. */
    method Unlock()
      requires |chip.cells| == WORDS && chip.mode in {Read, EraseSetup}
      modifies `chip, `log
      ensures chip == old(chip).(mode := if old(chip).mode == Read then Unlocked else EraseUnlocked) && log == old(log)
    {
      Codes();
      hide Low;
      Wr(0x555, 0xaaaa);
      Wr(0x2aa, 0x5555);
    }

    /** The command word after them. */
    method Order(data: bv16)
      requires |chip.cells| == WORDS && chip.mode == Unlocked && data in {0x9090, 0xa0a0, 0x8080}
      modifies `chip, `log
      ensures chip == old(chip).(
        mode := if data == 0x9090 then Autoselect else if data == 0xa0a0 then Program else EraseSetup)
      ensures log == old(log)
    {
      Codes();
      hide Low;
      Wr(0x555, data);
    }

    /** AM29F800_CheckId */
    method CheckId() returns (ok: bool)
      requires |chip.cells| == WORDS && chip.mode != Program
      modifies `chip, `log
      ensures chip == old(chip).(mode := Read) && log == old(log)
      ensures ok <==> chip.manufacturer == 0x0001 && chip.device == 0x225b
    {
      Reset();
      Unlock();
      Order(0x9090);
      var manId := Rd(0x0);
      Reset();
      Unlock();
      Order(0x9090);
      var devId := Rd(0x1);
      Reset();
      ok := manId == 0x0001 && devId == 0x225b;
    }

    /** GetSectorSize: adding it reaches the end of the sector exactly from its start. */
    method GetSectorSize()
      modifies `sectorSize
      ensures IsSectorStart(sectorOffset) <==> sectorOffset + sectorSize == SectorEnd(sectorOffset)
    {
      if sectorOffset < 0x4000 {
        sectorSize := 0x4000;
      } else if sectorOffset < 0x6000 {
        sectorSize := 0x2000;
      } else if sectorOffset < 0x8000 {
        sectorSize := 0x2000;
      } else if sectorOffset < 0x1_0000 {
        sectorSize := 0x8000;
      } else {
        sectorSize := 0x1_0000;
      }
    }

    /** AM29F800_EraseSector, with the wait for the end of the erasure taken as over. */
    method EraseSector(targetAddr: nat)
      requires |chip.cells| == WORDS && chip.mode != Program && targetAddr < BYTES
      modifies `chip, `log
      ensures chip == old(chip).(
        cells := EraseCells(old(chip).cells, SectorStart(targetAddr), SectorEnd(targetAddr)), mode := Read)
      ensures log == old(log) + [Erase(SectorStart(targetAddr))]
    {
      Codes();
      hide Low, SectorStart, SectorEnd, EraseCells;
      Reset();
      Unlock();
      Order(0x8080);
      Unlock();
      Wr(targetAddr / 2, 0x3030);
      EvenByte(targetAddr);
      Reset();
    }

    /** AM29F800_ProgFlash */
    method ProgFlash(realAddr: nat, data: bv16)
      requires |chip.cells| == WORDS && chip.mode == Read && realAddr < BYTES
      modifies `chip, `log
      ensures chip == old(chip).(
        cells := old(chip).cells[realAddr / 2 := old(chip).cells[realAddr / 2] & data])
      ensures log == old(log) + [Store(realAddr / 2, data)]
    {
      Unlock();
      Order(0xa0a0);
      Wr(realAddr / 2, data);
    }

    /** Where the writing stands: the first k words are stored and the sectors
        from off to hi are erased, each once and before its first word. */
    ghost predicate Progress(was: seq<bv16>, before: seq<Event>, off: nat, words: seq<bv16>, k: nat, hi: nat)
      reads `chip, `log
    {
      && |was| == WORDS && k <= |words| && chip.mode == Read
      && chip.cells == Stored(was, off, words, k, hi)
      && |before| <= |log| && log[..|before|] == before
      && Orderly(log[|before|..], off, hi) && StoresBelow(log[|before|..], off / 2 + k)
    }

    /** The next sector is erased. */
    method EraseNextSector(ghost was: seq<bv16>, ghost before: seq<Event>, ghost off: nat,
                           ghost words: seq<bv16>, ghost k: nat)
      requires IsSectorStart(sectorOffset) && sectorOffset < BYTES && off % 2 == 0
      requires Progress(was, before, off, words, k, sectorOffset) && off + 2 * k <= sectorOffset
      modifies `chip, `log
      ensures Progress(was, before, off, words, k, SectorEnd(sectorOffset))
      ensures chip == old(chip).(cells := chip.cells)
    {
      hide SectorStart, SectorEnd, Orderly, Stored, EraseCells, StoresBelow;
      EraseSector(sectorOffset);
      SectorsFollow(sectorOffset);
      EraseNext(was, off, words, k, sectorOffset, SectorEnd(sectorOffset));
      ghost var events := old(log)[|before|..];
      assert log[|before|..] == events + [Erase(sectorOffset)];
      OrderlyErase(events, off, sectorOffset);
      ErasesAreNoStores(events, sectorOffset, off / 2 + k);
    }

    /** The next half word is stored. */
    method StoreNextWord(ghost was: seq<bv16>, ghost before: seq<Event>, ghost off: nat,
                         ghost words: seq<bv16>, ghost k: nat, ghost hi: nat, addr: nat, data: bv16)
      requires Progress(was, before, off, words, k, hi) && k < |words| && data == words[k]
      requires IsSectorStart(off) && off % 2 == 0 && addr == off + 2 * k < hi && addr < BYTES
      modifies `chip, `log
      ensures Progress(was, before, off, words, k + 1, hi)
      ensures chip == old(chip).(cells := chip.cells)
    {
      hide SectorStart, SectorEnd, Orderly, Stored, StoresBelow;
      ProgFlash(addr, data);
      StoreNext(was, off, words, k, hi);
      BlankTakesAll(data);
      ghost var events := old(log)[|before|..];
      assert log[|before|..] == events + [Store(addr / 2, data)];
      OrderlyStore(events, off, hi, addr / 2, data);
    }

    /** The loop over the half words of one sector; stored counts them all. */
    method WriteSector(image: Image, ghost was: seq<bv16>, ghost before: seq<Event>, ghost off: nat, ghost k: nat)
        returns (ghost stored: nat)
      requires image.Valid() && off + 2 * image.Count() <= BYTES && IsSectorStart(off)
      requires IsSectorStart(sectorOffset) && sectorOffset + sectorSize == SectorEnd(sectorOffset)
      requires sectorOffset == off + srcOffset && totalSize == srcOffset == 2 * k < image.size
      requires Progress(was, before, off, image.Words(), k, SectorEnd(sectorOffset))
      modifies `chip, `log, `totalSize
      ensures totalSize == 2 * stored && k < stored <= image.Count()
      ensures totalSize < image.size ==> totalSize == srcOffset + sectorSize
      ensures Progress(was, before, off, image.Words(), stored, SectorEnd(sectorOffset))
      ensures TouchedEnd(off, stored) == SectorEnd(sectorOffset)
    {
      hide SectorStart, SectorEnd, Progress, TouchedEnd, Image.HalfWord, IsSectorStart;
      ghost var words, end := image.Words(), SectorEnd(sectorOffset);
      SectorBounds(sectorOffset);
      SectorBounds(off);
      stored := k;
      var i := 0;
      ghost var half := sectorSize / 2;
      assert sectorSize == 2 * half;
      while i < sectorSize
        invariant k <= stored <= k + half && i == 2 * (stored - k)
        invariant totalSize == 2 * stored < image.size
        invariant Progress(was, before, off, words, stored, end)
      {
        ProgressMeans(was, before, off, words, stored, end);
        StoreNextWord(was, before, off, words, stored, end, sectorOffset + i, image.HalfWord(srcOffset + i));
        totalSize := totalSize + 2;
        stored := stored + 1;
        if totalSize >= image.size {
          break;
        }
        i := i + 2;
      }
      TouchedAt(off, stored, sectorOffset);
    }

    /** ProgramAM29F800, for a sector-aligned offset from which the image fits:
        the image's words are stored, the rest of the sectors they touch is blank
        and nothing else changes. */
    method ProgramAM29F800(image: Image, targetOffset: nat) returns (ok: bool)
      requires |chip.cells| == WORDS && chip.mode != Program && image.Valid()
      requires IsSectorStart(targetOffset) && targetOffset + 2 * image.Count() <= BYTES
      modifies this
      ensures ok <==> old(chip).manufacturer == 0x0001 && old(chip).device == 0x225b
      ensures !ok ==> chip.cells == old(chip).cells && log == old(log)
      ensures ok ==>
        var hi := TouchedEnd(targetOffset, image.Count());
        && chip.cells == Stored(old(chip).cells, targetOffset, image.Words(), image.Count(), hi)
        && old(log) <= log && Orderly(log[|old(log)|..], targetOffset, hi)
    {
      hide SectorStart, SectorEnd, Orderly, Stored, StoresBelow, Progress, TouchedEnd;
      ok := CheckId();
      if !ok {
        return;
      }
      hide IsSectorStart, Image.Words, Image.HalfWord;
      ghost var was, before, words, off := chip.cells, log, image.Words(), targetOffset;
      ghost var k := 0;
      srcOffset := 0;
      totalSize := 0;
      sectorOffset := targetOffset;
      SectorBounds(off);
      ProgressStarts(words, off);
      NothingTouched(off);
      while totalSize < image.size
        invariant totalSize == 2 * k && k <= image.Count()
        invariant sectorOffset == off + srcOffset == TouchedEnd(off, k) && IsSectorStart(sectorOffset)
        invariant totalSize < image.size ==> totalSize == srcOffset
        invariant Progress(was, before, off, words, k, sectorOffset)
        decreases image.Count() - k
      {
        GetSectorSize();
        SectorBounds(sectorOffset);
        EraseNextSector(was, before, off, words, k);
        ghost var end := SectorEnd(sectorOffset);
        k := WriteSector(image, was, before, off, k);
        ProgressMeans(was, before, off, words, k, end);
        Reset();
        sectorOffset := sectorOffset + sectorSize;
        assert sectorOffset == end;
        srcOffset := srcOffset + sectorSize;
      }
      ProgressMeans(was, before, off, words, k, sectorOffset);
    }

    lemma ProgressStarts(words: seq<bv16>, off: nat)
      requires |chip.cells| == WORDS && chip.mode == Read
      ensures Progress(chip.cells, log, off, words, 0, off)
    {
      assert log[|log|..] == [];
      assert Stored(chip.cells, off, words, 0, off) == chip.cells;
    }

    lemma ProgressMeans(was: seq<bv16>, before: seq<Event>, off: nat, words: seq<bv16>, k: nat, hi: nat)
      requires Progress(was, before, off, words, k, hi)
      ensures k <= |words| && chip.mode == Read && chip.cells == Stored(was, off, words, k, hi) && |chip.cells| == WORDS
      ensures before <= log && Orderly(log[|before|..], off, hi)
    {
    }
  }

  lemma NothingTouched(off: nat)
    ensures TouchedEnd(off, 0) == off
  {
  }

  lemma TouchedAt(off: nat, k: nat, s: nat)
    requires k > 0 && s < BYTES && IsSectorStart(s) && s <= off + 2 * (k - 1) < SectorEnd(s)
    ensures TouchedEnd(off, k) == SectorEnd(s)
  {
    SectorsFollow(s);
  }

  lemma ErasesAreNoStores(log: seq<Event>, s: nat, bound: nat)
    requires StoresBelow(log, bound)
    ensures StoresBelow(log + [Erase(s)], bound)
  {
  }

  lemma EvenByte(b: nat)
    ensures SectorStart(2 * (b / 2)) == SectorStart(b) && SectorEnd(2 * (b / 2)) == SectorEnd(b)
  {
  }
}
