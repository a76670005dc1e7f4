/**
 * Persistent settings store (support/settings_store.c): an append-only log
 * of fixed-size records in one flash page. A record carries a magic number,
 * a version, the payload length, a sequence number, the settings payload and
 * a CRC-32 over every byte before the CRC field. Loading picks the valid
 * record with the greatest sequence number; saving appends the next sequence
 * number in the first erased slot, erasing the page first when it is full.
 *
 * The flash page is a sequence of 64 slots, each erased or holding a record;
 * a slot index stands for the address BASE + 32 * index, and the index
 * `|slots|` stands for the end of the page. The flash driver's outcome
 * (unlock, erase, program, read-back verify) is a parameter.
 */
module SettingsStore {
  import opened Wrap
  import opened Settings
  import opened Crc

  const RECORD_MAGIC: u32 := 0x5341_4450
  const RECORD_VERSION: u16 := 1
  /** sizeof(app_settings_t): six fields at offsets 0, 1, 2, 4, 6, 8 and one byte of padding. */
  const PAYLOAD_LEN: u16 := 10
  /** offsetof(settings_record_t, crc32): the CRC covers this many leading bytes. */
  const CRC_OFFSET: nat := 24
  /** sizeof(settings_record_t) */
  const RECORD_SIZE: nat := 32
  const PAGE_SIZE: nat := 0x800
  /** Number of whole records in the page. */
  const SLOT_COUNT: nat := 64
  const RESERVED_FILL: u32 := 0xFFFF_FFFF

  /** settings_record_t */
  datatype Record = Record(
    magic: u32,
    version: u16,
    payloadLen: u16,
    seqNo: u32,
    payload: Settings,
    crc32: bv32,
    reserved: u32)

  /** A slot of the page: all 0xFF bytes, or programmed with a record image. */
  datatype Slot = Erased | Programmed(rec: Record)

  /** settings_store_status_t */
  datatype Status =
    | Ok
    | NullPtr
    | InvalidCfg
    | NoValidRecord
    | FlashUnlockFail
    | FlashEraseFail
    | FlashProgramFail
    | VerifyFail
    | CrcFail

  /** What programming the record did to its slot. */
  datatype WriteOutcome =
    | Written
    | ProgramFailed(partial: Slot)
    | VerifyFailed(readBack: Slot)

  /** The flash driver's answers during one save. */
  datatype FlashHal = FlashHal(unlockOk: bool, eraseOk: bool, write: WriteOutcome)

  // ---------------------------------------------------------------------
  // Range check

  predicate StepsNonZero(st: Steps)
  {
    st.awayTimeoutS > 0 && st.staleTimeoutS > 0 && st.preoffDimS > 0 && st.returnBandCm > 0
  }

  /** settings_is_in_range: flags are 0/1, every number is in range and on its step grid. */
  predicate InRange(c: Settings, st: Steps)
    requires StepsNonZero(st)
  {
    && c.awayModeEnabled <= 1
    && c.flatModeEnabled <= 1
    && OnGrid(c.awayTimeoutS, AWAY_TIMEOUT_S_MIN, AWAY_TIMEOUT_S_MAX, st.awayTimeoutS)
    && OnGrid(c.staleTimeoutS, STALE_TIMEOUT_S_MIN, STALE_TIMEOUT_S_MAX, st.staleTimeoutS)
    && OnGrid(c.preoffDimS, PREOFF_DIM_S_MIN, PREOFF_DIM_S_MAX, st.preoffDimS)
    && OnGrid(c.returnBandCm, RETURN_BAND_CM_MIN, RETURN_BAND_CM_MAX, st.returnBandCm)
  }

  /** An in-range configuration is a fixed point of validation. */
  lemma InRangeIsValidated(c: Settings, st: Steps)
    requires StepsNonZero(st) && InRange(c, st)
    ensures Validate(c, st) == c
  {
    ValidateFixesOnGrid(c, st);
  }

  /** When every range is a whole number of steps, validation always yields a configuration the store accepts. */
  lemma ValidatedIsInRange(c: Settings, st: Steps)
    requires StepsNonZero(st)
    requires (AWAY_TIMEOUT_S_MAX - AWAY_TIMEOUT_S_MIN) % st.awayTimeoutS == 0
    requires (STALE_TIMEOUT_S_MAX - STALE_TIMEOUT_S_MIN) % st.staleTimeoutS == 0
    requires (PREOFF_DIM_S_MAX - PREOFF_DIM_S_MIN) % st.preoffDimS == 0
    requires (RETURN_BAND_CM_MAX - RETURN_BAND_CM_MIN) % st.returnBandCm == 0
    ensures InRange(Validate(c, st), st)
  {
    ValidateOnGrid(c, st, Validate(c, st));
  }

  // ---------------------------------------------------------------------
  // Record image and validity

  /** A little-endian field of the record image: `width` bytes holding `value`. */
  datatype Field = Field(value: nat, width: nat)

  /** The `width` low-order bytes of `value`, least significant first. */
  function LeBytes(value: nat, width: nat): (b: seq<bv8>)
    ensures |b| == width
  {
    if width == 0 then [] else [(value % 0x100) as bv8] + LeBytes(value / 0x100, width - 1)
  }

  /** The fields laid out one after the other. */
  function Serialize(fields: seq<Field>): seq<bv8>
  {
    if fields == [] then [] else LeBytes(fields[0].value, fields[0].width) + Serialize(fields[1..])
  }

  /**
   * The bytes of a record before its crc32 field, as laid out by the ARM EABI:
   * magic, version, payload_len, seq, then app_settings_t (two flags, three
   * uint16_t at offsets 2, 4, 6, return_band_cm, one padding byte), then two
   * padding bytes that align crc32 to offset 24. Padding is zero because the
   * record is memset before it is filled in.
   */
  function CoveredFields(r: Record): seq<Field>
  {
    [ Field(r.magic, 4), Field(r.version, 2), Field(r.payloadLen, 2), Field(r.seqNo, 4),
      Field(r.payload.awayModeEnabled, 1), Field(r.payload.flatModeEnabled, 1),
      Field(r.payload.awayTimeoutS, 2), Field(r.payload.staleTimeoutS, 2), Field(r.payload.preoffDimS, 2),
      Field(r.payload.returnBandCm, 1), Field(0, 1),
      Field(0, 2) ]
  }

  function CoveredBytes(r: Record): seq<bv8>
  {
    Serialize(CoveredFields(r))
  }

  /** settings_record_is_valid */
  predicate RecordIsValid(r: Record)
  {
    && r.magic == RECORD_MAGIC
    && r.version == RECORD_VERSION
    && r.payloadLen == PAYLOAD_LEN
    && Crc32Of(CoveredBytes(r)) == r.crc32
  }

  /** The record settings_store_save builds for `cfg` with sequence number `seqNo`. */
  function MakeRecord(cfg: Settings, seqNo: u32): (r: Record)
    ensures RecordIsValid(r) && r.seqNo == seqNo && r.payload == cfg && r.reserved == RESERVED_FILL
  {
    var header := Record(RECORD_MAGIC, RECORD_VERSION, PAYLOAD_LEN, seqNo, cfg, 0, RESERVED_FILL);
    assert CoveredBytes(header.(crc32 := Crc32Of(CoveredBytes(header)))) == CoveredBytes(header);
    header.(crc32 := Crc32Of(CoveredBytes(header)))
  }

  // ---------------------------------------------------------------------
  // Log scan

  /** settings_scan_result_t; `nextWrite` is a slot index. */
  datatype ScanResult = ScanResult(
    hasValid: bool,
    hasEmptySlot: bool,
    maxSeq: u32,
    nextWrite: nat,
    latest: Record)

  const ZeroRecord: Record := Record(0, 0, 0, 0, Settings(0, 0, 0, 0, 0, 0), 0, 0)

  /** The scan result after the memset and `next_write_addr = BASE`. */
  const ScanStart: ScanResult := ScanResult(false, false, 0, 0, ZeroRecord)

  /**
   * Slot `k` holds a record that `valid` accepts. The scan is written for any
   * record check `valid`, so that its properties are proved without looking
   * inside the checksum; the store itself uses RecordIsValid.
   */
  predicate ValidAt(valid: Record -> bool, slots: seq<Slot>, k: int)
    requires 0 <= k < |slots|
  {
    slots[k].Programmed? && valid(slots[k].rec)
  }

  /** One iteration of the scan loop over slot `k`. */
  function ScanStep(valid: Record -> bool, acc: ScanResult, k: nat, s: Slot): ScanResult
  {
    match s
    case Erased =>
      if !acc.hasEmptySlot then acc.(hasEmptySlot := true, nextWrite := k) else acc
    case Programmed(r) =>
      if valid(r) && (!acc.hasValid || r.seqNo > acc.maxSeq) then
        acc.(hasValid := true, maxSeq := r.seqNo, latest := r)
      else
        acc
  }

  /** The accumulated result after the first `n` slots. */
  function ScanUpTo(valid: Record -> bool, slots: seq<Slot>, n: nat): ScanResult
    requires n <= |slots|
  {
    if n == 0 then ScanStart else ScanStep(valid, ScanUpTo(valid, slots, n - 1), n - 1, slots[n - 1])
  }

  /** The loop, then END when no slot was erased. */
  function ScanWith(valid: Record -> bool, slots: seq<Slot>): ScanResult
  {
    var a := ScanUpTo(valid, slots, |slots|);
    if !a.hasEmptySlot then a.(nextWrite := |slots|) else a
  }

  /** settings_scan_records */
  function ScanOf(slots: seq<Slot>): ScanResult
  {
    ScanWith(RecordIsValid, slots)
  }

  /** What the accumulated result says about the valid records among the first `n` slots. */
  ghost predicate ValidFacts(valid: Record -> bool, slots: seq<Slot>, n: nat, a: ScanResult)
    requires n <= |slots|
  {
    && (a.hasValid <==> exists k :: 0 <= k < n && ValidAt(valid, slots, k))
    && (a.hasValid ==>
          exists k :: (0 <= k < n && ValidAt(valid, slots, k) && slots[k].rec == a.latest
            && (forall j :: 0 <= j < k && ValidAt(valid, slots, j) ==> slots[j].rec.seqNo < a.maxSeq)))
    && (a.hasValid ==> a.latest.seqNo == a.maxSeq)
    && (a.hasValid ==> forall j :: 0 <= j < n && ValidAt(valid, slots, j) ==> slots[j].rec.seqNo <= a.maxSeq)
  }

  /** What the accumulated result says about the erased slots among the first `n`. */
  ghost predicate ErasedFacts(slots: seq<Slot>, n: nat, a: ScanResult)
    requires n <= |slots|
  {
    && (a.hasEmptySlot <==> exists k :: 0 <= k < n && slots[k] == Erased)
    && (a.hasEmptySlot ==> a.nextWrite < n && slots[a.nextWrite] == Erased)
    && (a.hasEmptySlot ==> forall j :: 0 <= j < a.nextWrite ==> slots[j] != Erased)
  }

  lemma {:induction false} ScanUpToValidFacts(valid: Record -> bool, slots: seq<Slot>, n: nat)
    requires n <= |slots|
    ensures ValidFacts(valid, slots, n, ScanUpTo(valid, slots, n))
  {
    if n > 0 {
      ScanUpToValidFacts(valid, slots, n - 1);
      var a := ScanUpTo(valid, slots, n - 1);
      var b := ScanUpTo(valid, slots, n);
      var k := n - 1;
      if ValidAt(valid, slots, k) && (!a.hasValid || slots[k].rec.seqNo > a.maxSeq) {
        assert b.hasValid && b.latest == slots[k].rec;
        assert forall j :: 0 <= j < k && ValidAt(valid, slots, j) ==> slots[j].rec.seqNo < b.maxSeq;
      } else {
        assert b.hasValid == a.hasValid && b.maxSeq == a.maxSeq && b.latest == a.latest;
        if ValidAt(valid, slots, k) {
          assert a.hasValid && slots[k].rec.seqNo <= a.maxSeq;
        }
      }
    }
  }

  lemma {:induction false} ScanUpToErasedFacts(valid: Record -> bool, slots: seq<Slot>, n: nat)
    requires n <= |slots|
    ensures ErasedFacts(slots, n, ScanUpTo(valid, slots, n))
  {
    if n > 0 {
      ScanUpToErasedFacts(valid, slots, n - 1);
      var a := ScanUpTo(valid, slots, n - 1);
      var k := n - 1;
      if slots[k] == Erased && !a.hasEmptySlot {
        assert ScanUpTo(valid, slots, n).nextWrite == k;
      } else {
        assert ScanUpTo(valid, slots, n).hasEmptySlot == a.hasEmptySlot;
        assert ScanUpTo(valid, slots, n).nextWrite == a.nextWrite;
      }
    }
  }

  /**
   * The whole scan: `hasValid` iff some slot holds an accepted record; `latest`
   * is the first accepted record with the greatest sequence number; `nextWrite`
   * is the first erased slot, or the end of the page when there is none.
   */
  lemma ScanWithCharacterized(valid: Record -> bool, slots: seq<Slot>)
    ensures var r := ScanWith(valid, slots);
      && (r.hasValid <==> exists k :: 0 <= k < |slots| && ValidAt(valid, slots, k))
      && (r.hasValid ==>
            exists k :: (0 <= k < |slots| && ValidAt(valid, slots, k) && slots[k].rec == r.latest
              && (forall j :: 0 <= j < k && ValidAt(valid, slots, j) ==> slots[j].rec.seqNo < r.maxSeq)))
      && (r.hasValid ==> r.latest.seqNo == r.maxSeq)
      && (r.hasValid ==> forall j :: 0 <= j < |slots| && ValidAt(valid, slots, j) ==> slots[j].rec.seqNo <= r.maxSeq)
      && r.nextWrite <= |slots|
      && (r.hasEmptySlot <==> r.nextWrite < |slots|)
      && (r.nextWrite < |slots| ==> slots[r.nextWrite] == Erased)
      && (forall j :: 0 <= j < r.nextWrite ==> slots[j] != Erased)
  {
    ScanUpToValidFacts(valid, slots, |slots|);
    ScanUpToErasedFacts(valid, slots, |slots|);
  }

  /** An accepted record whose sequence number beats every other accepted record is the one the scan picks. */
  lemma ScanPicksUniqueMax(valid: Record -> bool, slots: seq<Slot>, k: nat)
    requires k < |slots| && ValidAt(valid, slots, k)
    requires forall j :: 0 <= j < |slots| && j != k && ValidAt(valid, slots, j) ==> slots[j].rec.seqNo < slots[k].rec.seqNo
    ensures ScanWith(valid, slots).hasValid && ScanWith(valid, slots).latest == slots[k].rec
  {
    ScanWithCharacterized(valid, slots);
    var r := ScanWith(valid, slots);
    var k' :| 0 <= k' < |slots| && ValidAt(valid, slots, k') && slots[k'].rec == r.latest
      && (forall j :: 0 <= j < k' && ValidAt(valid, slots, j) ==> slots[j].rec.seqNo < r.maxSeq);
    assert k' == k;
  }

  // ---------------------------------------------------------------------
  // Load and save as functions of the page

  datatype LoadResult = LoadResult(status: Status, cfg: Settings, usedDefaults: bool)
  datatype SaveResult = SaveResult(status: Status, slots: seq<Slot>)

  function ErasedPage(n: nat): (p: seq<Slot>)
    ensures |p| == n && forall j :: 0 <= j < n ==> p[j] == Erased
  {
    seq(n, _ => Erased)
  }

  /** settings_store_load */
  function LoadOf(slots: seq<Slot>, st: Steps): LoadResult
  {
    var scan := ScanOf(slots);
    if !scan.hasValid then LoadResult(NoValidRecord, Defaults(), true)
    else LoadResult(Ok, Validate(scan.latest.payload, st), false)
  }

  /** The sequence number the next save uses (uint32_t, so it wraps). */
  function NextSeq(scan: ScanResult): u32
  {
    if scan.hasValid then Add32(scan.maxSeq, 1) else 1
  }

  /** settings_store_save */
  function SaveOf(slots: seq<Slot>, cfg: Settings, st: Steps, hal: FlashHal): (r: SaveResult)
    requires |slots| == SLOT_COUNT && StepsNonZero(st)
    ensures |r.slots| == SLOT_COUNT
    ensures !InRange(cfg, st) ==> r == SaveResult(InvalidCfg, slots)
    ensures r.status != Ok && r.status != FlashProgramFail && r.status != VerifyFail ==> r.slots == slots
  {
    if !InRange(cfg, st) then SaveResult(InvalidCfg, slots)
    else
      var scan := ScanOf(slots);
      ScanWithCharacterized(RecordIsValid, slots);
      if !hal.unlockOk then SaveResult(FlashUnlockFail, slots)
      else if scan.nextWrite + 1 > |slots| && !hal.eraseOk then SaveResult(FlashEraseFail, slots)
      else
        var base := if scan.nextWrite + 1 > |slots| then ErasedPage(|slots|) else slots;
        var target := if scan.nextWrite + 1 > |slots| then 0 else scan.nextWrite;
        var rec := MakeRecord(cfg, NextSeq(scan));
        match hal.write
        case Written => SaveResult(Ok, base[target := Programmed(rec)])
        case ProgramFailed(partial) => SaveResult(FlashProgramFail, base[target := partial])
        case VerifyFailed(readBack) => SaveResult(VerifyFail, base[target := readBack])
  }

  /**
   * A successful save appends: with an erased slot left it programs the first
   * one with a valid record carrying the next sequence number and leaves every
   * other slot alone; with none it erases the page and writes slot 0.
   */
  lemma SaveAppends(slots: seq<Slot>, cfg: Settings, st: Steps, hal: FlashHal)
    requires |slots| == SLOT_COUNT && StepsNonZero(st)
    requires SaveOf(slots, cfg, st, hal).status == Ok
    ensures var scan := ScanOf(slots);
      var after := SaveOf(slots, cfg, st, hal).slots;
      && InRange(cfg, st)
      && (scan.hasEmptySlot ==>
            && scan.nextWrite < |slots|
            && slots[scan.nextWrite] == Erased
            && after == slots[scan.nextWrite := Programmed(MakeRecord(cfg, NextSeq(scan)))])
      && (!scan.hasEmptySlot ==>
            after == ErasedPage(SLOT_COUNT)[0 := Programmed(MakeRecord(cfg, NextSeq(scan)))])
  {
    ScanWithCharacterized(RecordIsValid, slots);
  }

  /**
   * Save then load gives back the configuration: after a successful save the
   * new record is the valid record with the greatest sequence number, and an
   * in-range payload passes validation unchanged. The sequence counter must
   * not be about to wrap.
   */
  lemma SaveThenLoad(slots: seq<Slot>, cfg: Settings, st: Steps, hal: FlashHal)
    requires |slots| == SLOT_COUNT && StepsNonZero(st)
    requires SaveOf(slots, cfg, st, hal).status == Ok
    requires forall j :: 0 <= j < |slots| && ValidAt(RecordIsValid, slots, j) ==> slots[j].rec.seqNo < 0xFFFF_FFFF
    ensures LoadOf(SaveOf(slots, cfg, st, hal).slots, st) == LoadResult(Ok, cfg, false)
  {
    var scan := ScanOf(slots);
    ScanWithCharacterized(RecordIsValid, slots);
    SaveAppends(slots, cfg, st, hal);
    var after := SaveOf(slots, cfg, st, hal).slots;
    var rec := MakeRecord(cfg, NextSeq(scan));
    var target := if scan.hasEmptySlot then scan.nextWrite else 0;
    assert after[target] == Programmed(rec);
    assert ValidAt(RecordIsValid, after, target);
    forall j | 0 <= j < |after| && j != target && ValidAt(RecordIsValid, after, j)
      ensures after[j].rec.seqNo < rec.seqNo
    {
      if scan.hasEmptySlot {
        assert after[j] == slots[j] && ValidAt(RecordIsValid, slots, j);
      }
    }
    ScanPicksUniqueMax(RecordIsValid, after, target);
    InRangeIsValidated(cfg, st);
  }

  /** Loading with no valid record falls back to the defaults and says so. */
  lemma LoadWithoutRecord(slots: seq<Slot>, st: Steps)
    requires forall j :: 0 <= j < |slots| ==> !ValidAt(RecordIsValid, slots, j)
    ensures LoadOf(slots, st) == LoadResult(NoValidRecord, Defaults(), true)
  {
    ScanWithCharacterized(RecordIsValid, slots);
    assert !ScanOf(slots).hasValid;
  }

  // ---------------------------------------------------------------------
  // The flash page as mutable state

  class Flash {
    var slots: seq<Slot>

    ghost predicate Valid()
      reads this
    {
      |slots| == SLOT_COUNT
    }

    constructor (initial: seq<Slot>)
      requires |initial| == SLOT_COUNT
      ensures Valid() && slots == initial
    {
      slots := initial;
    }

    /** settings_scan_records */
    method Scan() returns (r: ScanResult)
      ensures r == ScanOf(slots)
    {
      r := ScanStart;
      var k := 0;
      while k < |slots|
        invariant 0 <= k <= |slots|
        invariant r == ScanUpTo(RecordIsValid, slots, k)
      {
        r := ScanSlot(r, k, slots[k]);
        k := k + 1;
      }
      if !r.hasEmptySlot {
        r := r.(nextWrite := |slots|);
      }
    }

    /** The body of the scan loop for slot `k`. */
    static method ScanSlot(acc: ScanResult, k: nat, s: Slot) returns (r: ScanResult)
      ensures r == ScanStep(RecordIsValid, acc, k, s)
    {
      r := acc;
      match s {
        case Erased =>
          if !r.hasEmptySlot {
            r := r.(hasEmptySlot := true, nextWrite := k);
          }
        case Programmed(rec) =>
          var valid := RecordIsValid(rec);
          if valid && (!r.hasValid || rec.seqNo > r.maxSeq) {
            r := r.(hasValid := true, maxSeq := rec.seqNo, latest := rec);
          }
      }
    }

    /** settings_store_load */
    method Load(st: Steps) returns (result: LoadResult)
      ensures result == LoadOf(slots, st)
    {
      var scan := Scan();
      if !scan.hasValid {
        return LoadResult(NoValidRecord, Defaults(), true);
      }
      result := LoadResult(Ok, Validate(scan.latest.payload, st), false);
    }

    /** settings_store_save */
    method Save(cfg: Settings, st: Steps, hal: FlashHal) returns (status: Status)
      requires Valid() && StepsNonZero(st)
      modifies this
      ensures Valid()
      ensures SaveResult(status, slots) == SaveOf(old(slots), cfg, st, hal)
    {
      if !InRange(cfg, st) {
        return InvalidCfg;
      }
      var scan := Scan();
      var nextSeq: u32 := 1;
      if scan.hasValid {
        nextSeq := Add32(scan.maxSeq, 1);
      }
      var target := scan.nextWrite;
      if !hal.unlockOk {
        return FlashUnlockFail;
      }
      if target + 1 > |slots| {
        if !hal.eraseOk {
          return FlashEraseFail;
        }
        slots := ErasedPage(|slots|);
        target := 0;
      }
      var header := Record(RECORD_MAGIC, RECORD_VERSION, PAYLOAD_LEN, nextSeq, cfg, 0, RESERVED_FILL);
      var crc := Crc32(CoveredBytes(header));
      var rec := header.(crc32 := crc);
      match hal.write
      case Written =>
        slots := slots[target := Programmed(rec)];
        status := Ok;
      case ProgramFailed(partial) =>
        slots := slots[target := partial];
        status := FlashProgramFail;
      case VerifyFailed(readBack) =>
        slots := slots[target := readBack];
        status := VerifyFail;
    }
  }
}
