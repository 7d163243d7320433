/**
 * Level selection in the encoder interfaces: a walk through a table of limits, after section A.3 (Table A-1)
 * of ITU-T H.264 and section A.4 of ITU-T H.265.
 */
module LevelTables {

  datatype Limit<L> = Limit(level: L, rate: real, size: nat, bitrate: nat)

  /** What is to be encoded: macroblocks or samples per second and per picture, and bits per second. */
  datatype Load = Load(rate: real, size: nat, bitrate: nat)

  predicate Covers<L>(limit: Limit<L>, load: Load) {
    load.size <= limit.size && load.rate <= limit.rate && load.bitrate <= limit.bitrate
  }

  /** From row to row no limit goes down. */
  ghost predicate Rising<L>(table: seq<Limit<L>>) {
    forall i :: 0 < i < |table| ==>
      && table[i - 1].rate <= table[i].rate && table[i - 1].size <= table[i].size
      && table[i - 1].bitrate <= table[i].bitrate
  }

  ghost predicate DistinctLevels<L>(table: seq<Limit<L>>) {
    forall i, j :: 0 <= i < j < |table| ==> table[i].level != table[j].level
  }

  /** The lowest row from `i` on that covers the load, or the end of the table. */
  function LowestFrom<L>(table: seq<Limit<L>>, load: Load, i: nat): (k: nat)
    requires i <= |table|
    ensures i <= k <= |table|
    ensures forall j :: i <= j < k ==> !Covers(table[j], load)
    ensures k < |table| ==> Covers(table[k], load)
    decreases |table| - i
  {
    if i == |table| || Covers(table[i], load) then i else LowestFrom(table, load, i + 1)
  }

  function Lowest<L>(table: seq<Limit<L>>, load: Load): nat {
    LowestFrom(table, load, 0)
  }

  /** In a rising table every row above one that covers covers too. */
  lemma {:induction false} CoversUpward<L>(table: seq<Limit<L>>, load: Load, i: nat, j: nat)
    requires Rising(table) && i <= j < |table| && Covers(table[i], load)
    ensures Covers(table[j], load)
    decreases j
  {
    if i < j {
      CoversUpward(table, load, i, j - 1);
    }
  }

  /** What the walk makes of the supplied level. */
  function Selected<L(==)>(table: seq<Limit<L>>, load: Load, supplied: L, change: bool, fallback: L): L {
    var k := Lowest(table, load);
    if k == |table| then fallback
    else if change || Below(table, supplied, k) then table[k].level
    else supplied
  }

  /** The supplied level is in a row before `k`. */
  predicate Below<L(==)>(table: seq<Limit<L>>, supplied: L, k: nat)
    requires k <= |table|
  {
    exists i :: 0 <= i < k && table[i].level == supplied
  }

  /** The loop of AvcProfileLevelSetter and of HevcProfileLevelSetter. */
  method SelectLevel<L(==)>(table: seq<Limit<L>>, load: Load, supplied: L, change: bool, fallback: L) returns (level: L)
    ensures level == Selected(table, load, supplied, change, fallback)
  {
    level := supplied;
    var found, needsUpdate := false, change;
    var i := 0;
    while i < |table| && !found
      invariant i <= |table|
      invariant found ==>
        Lowest(table, load) < |table| && level == if needsUpdate then table[Lowest(table, load)].level else supplied
      invariant !found ==> level == supplied && Lowest(table, load) == LowestFrom(table, load, i)
      invariant needsUpdate <==> change || Below(table, supplied, if found then Lowest(table, load) else i)
      decreases |table| - i, !found
    {
      if Covers(table[i], load) {
        if needsUpdate {
          level := table[i].level;
        }
        found := true;
      } else {
        if supplied == table[i].level {
          needsUpdate := true;
        }
        i := i + 1;
      }
    }
    if !found {
      level := fallback;
    }
  }

  /** The loop of the HCodec setter: no look at the supplied level. */
  method SelectLowest<L>(table: seq<Limit<L>>, load: Load, supplied: L, fallback: L) returns (level: L)
    ensures level == if Lowest(table, load) < |table| then table[Lowest(table, load)].level else fallback
  {
    level := supplied;
    var found := false;
    var i := 0;
    while i < |table| && !found
      invariant i <= |table|
      invariant found ==> Lowest(table, load) < |table| && level == table[Lowest(table, load)].level
      invariant !found ==> Lowest(table, load) == LowestFrom(table, load, i)
      decreases |table| - i, !found
    {
      if Covers(table[i], load) {
        level := table[i].level;
        found := true;
      } else {
        i := i + 1;
      }
    }
    if !found {
      level := fallback;
    }
  }

  /**
   * For a load some level covers, a supplied level in row `s` of the table is kept exactly if it covers the
   * load; otherwise the lowest covering level takes its place.
   */
  lemma KeptIfItCovers<L>(table: seq<Limit<L>>, load: Load, s: nat, fallback: L)
    requires Rising(table) && DistinctLevels(table) && s < |table| && Lowest(table, load) < |table|
    ensures var k := Lowest(table, load);
      Selected(table, load, table[s].level, false, fallback) == if Covers(table[s], load) then table[s].level else table[k].level
  {
    var k := Lowest(table, load);
    if k <= s {
      CoversUpward(table, load, k, s);
    } else {
      assert table[s].level == table[s].level && Below(table, table[s].level, k);
    }
  }

  /** A second run changes nothing. */
  lemma SelectingTwice<L>(table: seq<Limit<L>>, load: Load, supplied: L, fallback: L)
    requires DistinctLevels(table)
    ensures var once := Selected(table, load, supplied, false, fallback);
      Selected(table, load, once, false, fallback) == once
  {
  }
}

/** The level setters of the interfaces. */
module Levels {
  import opened LevelTables

  datatype AvcLevel = A1 | A1b | A1_1 | A1_2 | A1_3 | A2 | A2_1 | A2_2 | A3 | A3_1 | A3_2 | A4 | A4_1 | A4_2 | A5
                    | OtherAvc(code: int)

  datatype HevcLevel = H1 | H2 | H2_1 | H3 | H3_1 | H4 | H4_1 | H5 | H5_1 | H5_2 | H6 | H6_1 | H6_2
                     | OtherHevc(code: int)

  const AVC_LIMITS: seq<Limit<AvcLevel>> := [
    Limit(A1, 1485.0, 99, 64000),
    Limit(A1_1, 3000.0, 396, 192000),
    Limit(A1_2, 6000.0, 396, 384000),
    Limit(A1_3, 11880.0, 396, 768000),
    Limit(A2, 11880.0, 396, 2000000),
    Limit(A2_1, 19800.0, 792, 4000000),
    Limit(A2_2, 20250.0, 1620, 4000000),
    Limit(A3, 40500.0, 1620, 10000000),
    Limit(A3_1, 108000.0, 3600, 14000000),
    Limit(A3_2, 216000.0, 5120, 20000000),
    Limit(A4, 245760.0, 8192, 20000000),
    Limit(A4_1, 245760.0, 8192, 50000000),
    Limit(A4_2, 522240.0, 8704, 50000000),
    Limit(A5, 589824.0, 22080, 135000000)]

  const HEVC_LIMITS: seq<Limit<HevcLevel>> := [
    Limit(H1, 552960.0, 36864, 128000),
    Limit(H2, 3686400.0, 122880, 1500000),
    Limit(H2_1, 7372800.0, 245760, 3000000),
    Limit(H3, 16588800.0, 552960, 6000000),
    Limit(H3_1, 33177600.0, 983040, 10000000),
    Limit(H4, 66846720.0, 2228224, 12000000),
    Limit(H4_1, 133693440.0, 2228224, 20000000),
    Limit(H5, 267386880.0, 8912896, 25000000),
    Limit(H5_1, 534773760.0, 8912896, 40000000),
    Limit(H5_2, 1069547520.0, 8912896, 60000000),
    Limit(H6, 1069547520.0, 35651584, 60000000),
    Limit(H6_1, 2139095040.0, 35651584, 120000000),
    Limit(H6_2, 4278190080.0, 35651584, 240000000)]

  type uint32 = i: int | 0 <= i < 0x1_0000_0000

  /** Macroblocks along one side, in uint32_t. */
  function Macroblocks(side: uint32): nat {
    (side + 15) % 0x1_0000_0000 / 16
  }

  function AvcLoad(width: uint32, height: uint32, frameRate: real, bitrate: uint32): Load {
    var mbs := Macroblocks(width) * Macroblocks(height);
    Load(mbs as real * frameRate, mbs, bitrate)
  }

  /** Samples are counted in uint32_t, and so are samples per second. */
  function HevcLoad(width: uint32, height: uint32, frameRate: real, bitrate: uint32): Load {
    var samples := width * height % 0x1_0000_0000;
    Load((samples as real * frameRate).Floor as real, samples, bitrate)
  }

  /** Where a level stands in the AVC table, counting from 0. */
  function AvcRow(level: AvcLevel): int {
    match level
    case A1 => 0 case A1_1 => 1 case A1_2 => 2 case A1_3 => 3 case A2 => 4 case A2_1 => 5 case A2_2 => 6
    case A3 => 7 case A3_1 => 8 case A3_2 => 9 case A4 => 10 case A4_1 => 11 case A4_2 => 12 case A5 => 13
    case A1b => -1
    case OtherAvc(_) => -1
  }

  function HevcRow(level: HevcLevel): int {
    match level
    case H1 => 0 case H2 => 1 case H2_1 => 2 case H3 => 3 case H3_1 => 4 case H4 => 5 case H4_1 => 6 case H5 => 7
    case H5_1 => 8 case H5_2 => 9 case H6 => 10 case H6_1 => 11 case H6_2 => 12
    case OtherHevc(_) => -1
  }

  lemma AvcRows()
    ensures |AVC_LIMITS| == 14 && forall i :: 0 <= i < 14 ==> AvcRow(AVC_LIMITS[i].level) == i
  {
  }

  lemma AvcRowsInverse(level: AvcLevel)
    requires AvcRow(level) >= 0
    ensures |AVC_LIMITS| == 14 && AvcRow(level) < 14 && AVC_LIMITS[AvcRow(level)].level == level
  {
  }

  lemma AvcRates()
    ensures |AVC_LIMITS| == 14 && forall i :: 0 < i < 14 ==> AVC_LIMITS[i - 1].rate <= AVC_LIMITS[i].rate
  {
  }

  lemma AvcSizes()
    ensures |AVC_LIMITS| == 14 && forall i :: 0 < i < 14 ==> AVC_LIMITS[i - 1].size <= AVC_LIMITS[i].size
  {
  }

  lemma AvcBitrates()
    ensures |AVC_LIMITS| == 14 && forall i :: 0 < i < 14 ==> AVC_LIMITS[i - 1].bitrate <= AVC_LIMITS[i].bitrate
  {
  }

  /** No limit of the table goes down from row to row, and no level stands in it twice. */
  lemma AvcTable()
    ensures |AVC_LIMITS| == 14 && Rising(AVC_LIMITS) && DistinctLevels(AVC_LIMITS)
  {
    AvcRows();
    AvcRates();
    AvcSizes();
    AvcBitrates();
    forall i, j | 0 <= i < j < |AVC_LIMITS| ensures AVC_LIMITS[i].level != AVC_LIMITS[j].level {
      assert AvcRow(AVC_LIMITS[i].level) == i && AvcRow(AVC_LIMITS[j].level) == j;
    }
  }

  lemma HevcRows()
    ensures |HEVC_LIMITS| == 13 && forall i :: 0 <= i < 13 ==> HevcRow(HEVC_LIMITS[i].level) == i
  {
  }

  lemma HevcRowsInverse(level: HevcLevel)
    requires HevcRow(level) >= 0
    ensures |HEVC_LIMITS| == 13 && HevcRow(level) < 13 && HEVC_LIMITS[HevcRow(level)].level == level
  {
  }

  lemma HevcRates()
    ensures |HEVC_LIMITS| == 13 && forall i :: 0 < i < 13 ==> HEVC_LIMITS[i - 1].rate <= HEVC_LIMITS[i].rate
  {
  }

  lemma HevcSizes()
    ensures |HEVC_LIMITS| == 13 && forall i :: 0 < i < 13 ==> HEVC_LIMITS[i - 1].size <= HEVC_LIMITS[i].size
  {
  }

  lemma HevcBitrates()
    ensures |HEVC_LIMITS| == 13 && forall i :: 0 < i < 13 ==> HEVC_LIMITS[i - 1].bitrate <= HEVC_LIMITS[i].bitrate
  {
  }

  /** No limit of the table goes down from row to row, and no level stands in it twice. */
  lemma HevcTable()
    ensures |HEVC_LIMITS| == 13 && Rising(HEVC_LIMITS) && DistinctLevels(HEVC_LIMITS)
  {
    HevcRows();
    HevcRates();
    HevcSizes();
    HevcBitrates();
    forall i, j | 0 <= i < j < |HEVC_LIMITS| ensures HEVC_LIMITS[i].level != HEVC_LIMITS[j].level {
      assert HevcRow(HEVC_LIMITS[i].level) == i && HevcRow(HEVC_LIMITS[j].level) == j;
    }
  }

  function AvcLevelFor(load: Load, supplied: AvcLevel): AvcLevel {
    Selected(AVC_LIMITS, load, supplied, supplied == A1b, A5)
  }

  function HevcLevelFor(load: Load, supplied: HevcLevel): HevcLevel {
    Selected(HEVC_LIMITS, load, supplied, false, H5_2)
  }

  function HCodecLevelFor(load: Load): AvcLevel {
    if Lowest(AVC_LIMITS, load) < |AVC_LIMITS| then AVC_LIMITS[Lowest(AVC_LIMITS, load)].level else A5
  }

  method AvcProfileLevelSetter(supplied: AvcLevel, width: uint32, height: uint32, frameRate: real, bitrate: uint32)
      returns (level: AvcLevel)
    ensures level == AvcLevelFor(AvcLoad(width, height, frameRate, bitrate), supplied)
  {
    level := SelectLevel(AVC_LIMITS, AvcLoad(width, height, frameRate, bitrate), supplied, supplied == A1b, A5);
  }

  method HevcProfileLevelSetter(supplied: HevcLevel, width: uint32, height: uint32, frameRate: real, bitrate: uint32)
      returns (level: HevcLevel)
    requires 0.0 <= (width * height % 0x1_0000_0000) as real * frameRate < 4294967296.0
    ensures level == HevcLevelFor(HevcLoad(width, height, frameRate, bitrate), supplied)
  {
    level := SelectLevel(HEVC_LIMITS, HevcLoad(width, height, frameRate, bitrate), supplied, false, H5_2);
  }

  method HCodecProfileLevelSetter(supplied: AvcLevel, width: uint32, height: uint32, frameRate: real, bitrate: uint32)
      returns (level: AvcLevel)
    ensures level == HCodecLevelFor(AvcLoad(width, height, frameRate, bitrate))
  {
    level := SelectLowest(AVC_LIMITS, AvcLoad(width, height, frameRate, bitrate), supplied, A5);
  }

  // ---------------------------------------------------------------- what they promise

  /** The level covers the load, and no level of a lower row does. */
  ghost predicate LowestAvc(level: AvcLevel, load: Load) {
    AvcRow(level) >= 0 && Covers(AVC_LIMITS[AvcRow(level)], load)
    && forall i :: 0 <= i < AvcRow(level) ==> !Covers(AVC_LIMITS[i], load)
  }

  ghost predicate LowestHevc(level: HevcLevel, load: Load) {
    HevcRow(level) >= 0 && Covers(HEVC_LIMITS[HevcRow(level)], load)
    && forall i :: 0 <= i < HevcRow(level) ==> !Covers(HEVC_LIMITS[i], load)
  }

  /**
   * For a load some level covers: a supplied level of the table is kept if it covers the load, and is replaced
   * by the lowest covering level if not; level 1b is always replaced by the lowest covering level; a level
   * that is not in the table is kept.
   */
  lemma AvcSelection(load: Load, supplied: AvcLevel, any: nat)
    requires any < |AVC_LIMITS| && Covers(AVC_LIMITS[any], load)
    ensures var level, row := AvcLevelFor(load, supplied), AvcRow(supplied);
      if supplied.A1b? then LowestAvc(level, load)
      else if row >= 0 && !Covers(AVC_LIMITS[row], load) then LowestAvc(level, load)
      else level == supplied
  {
    AvcLowestRow(load);
    if AvcRow(supplied) >= 0 {
      AvcListed(load, supplied);
    } else {
      AvcNotBelow(supplied, Lowest(AVC_LIMITS, load));
    }
  }

  lemma AvcListed(load: Load, supplied: AvcLevel)
    requires Lowest(AVC_LIMITS, load) < |AVC_LIMITS| && AvcRow(supplied) >= 0
    ensures AvcRow(supplied) < |AVC_LIMITS|
    ensures AvcLevelFor(load, supplied)
         == if Covers(AVC_LIMITS[AvcRow(supplied)], load) then supplied else AVC_LIMITS[Lowest(AVC_LIMITS, load)].level
  {
    AvcTable();
    AvcRowsInverse(supplied);
    KeptIfItCovers(AVC_LIMITS, load, AvcRow(supplied), A5);
  }

  lemma AvcNotBelow(supplied: AvcLevel, k: nat)
    requires AvcRow(supplied) < 0 && k <= |AVC_LIMITS|
    ensures !Below(AVC_LIMITS, supplied, k)
  {
    AvcRows();
    forall i | 0 <= i < k ensures AVC_LIMITS[i].level != supplied {
      assert AvcRow(AVC_LIMITS[i].level) == i;
    }
  }

  lemma AvcLowestRow(load: Load)
    requires Lowest(AVC_LIMITS, load) < |AVC_LIMITS|
    ensures LowestAvc(AVC_LIMITS[Lowest(AVC_LIMITS, load)].level, load)
  {
    AvcRows();
    var k := Lowest(AVC_LIMITS, load);
    assert AvcRow(AVC_LIMITS[k].level) == k;
  }

  /** The same for HEVC, which has no level that is always replaced. */
  lemma HevcSelection(load: Load, supplied: HevcLevel, any: nat)
    requires any < |HEVC_LIMITS| && Covers(HEVC_LIMITS[any], load)
    ensures var level, row := HevcLevelFor(load, supplied), HevcRow(supplied);
      if row >= 0 && !Covers(HEVC_LIMITS[row], load) then LowestHevc(level, load) else level == supplied
  {
    HevcLowestRow(load);
    if HevcRow(supplied) >= 0 {
      HevcListed(load, supplied);
    } else {
      HevcNotBelow(supplied, Lowest(HEVC_LIMITS, load));
    }
  }

  lemma HevcListed(load: Load, supplied: HevcLevel)
    requires Lowest(HEVC_LIMITS, load) < |HEVC_LIMITS| && HevcRow(supplied) >= 0
    ensures HevcRow(supplied) < |HEVC_LIMITS|
    ensures HevcLevelFor(load, supplied)
         == if Covers(HEVC_LIMITS[HevcRow(supplied)], load) then supplied else HEVC_LIMITS[Lowest(HEVC_LIMITS, load)].level
  {
    HevcTable();
    HevcRowsInverse(supplied);
    KeptIfItCovers(HEVC_LIMITS, load, HevcRow(supplied), H5_2);
  }

  lemma HevcLowestRow(load: Load)
    requires Lowest(HEVC_LIMITS, load) < |HEVC_LIMITS|
    ensures LowestHevc(HEVC_LIMITS[Lowest(HEVC_LIMITS, load)].level, load)
  {
    HevcRows();
    var k := Lowest(HEVC_LIMITS, load);
    assert HevcRow(HEVC_LIMITS[k].level) == k;
  }

  lemma HevcNotBelow(supplied: HevcLevel, k: nat)
    requires HevcRow(supplied) < 0 && k <= |HEVC_LIMITS|
    ensures !Below(HEVC_LIMITS, supplied, k)
  {
    HevcRows();
    forall i | 0 <= i < k ensures HEVC_LIMITS[i].level != supplied {
      assert HevcRow(HEVC_LIMITS[i].level) == i;
    }
  }

  /**
   * For a load no level covers the AVC setter chooses the last row, as its comment says; the HEVC setter
   * chooses level 5.2, which its comment calls the highest, and which stands three rows below the last.
   */
  lemma BeyondTheTable(load: Load, avc: AvcLevel, hevc: HevcLevel)
    ensures Lowest(AVC_LIMITS, load) == |AVC_LIMITS| ==>
      AvcLevelFor(load, avc) == HCodecLevelFor(load) == A5 && AvcRow(A5) == |AVC_LIMITS| - 1
    ensures Lowest(HEVC_LIMITS, load) == |HEVC_LIMITS| ==>
      HevcLevelFor(load, hevc) == H5_2 && HevcRow(H5_2) == |HEVC_LIMITS| - 4
  {
    AvcRows();
    HevcRows();
  }

  /** There are such loads. */
  lemma ALoadBeyondTheTables()
    ensures var load := Load(1.0, 1, 240000001);
      Lowest(AVC_LIMITS, load) == |AVC_LIMITS| && Lowest(HEVC_LIMITS, load) == |HEVC_LIMITS|
  {
    var load := Load(1.0, 1, 240000001);
    AvcBitrates();
    HevcBitrates();
    assert forall i :: 0 <= i < 14 ==> AVC_LIMITS[i].bitrate <= 135000000;
    assert forall i :: 0 <= i < 13 ==> HEVC_LIMITS[i].bitrate <= 240000000;
  }

  /** Running a setter on its own result changes nothing, for every load and every supplied level. */
  lemma SettersAreIdempotent(load: Load, avc: AvcLevel, hevc: HevcLevel)
    ensures AvcLevelFor(load, AvcLevelFor(load, avc)) == AvcLevelFor(load, avc)
    ensures HevcLevelFor(load, HevcLevelFor(load, hevc)) == HevcLevelFor(load, hevc)
  {
    AvcTwice(load, avc);
    HevcTable();
    SelectingTwice(HEVC_LIMITS, load, hevc, H5_2);
  }

  lemma AvcTwice(load: Load, avc: AvcLevel)
    ensures AvcLevelFor(load, AvcLevelFor(load, avc)) == AvcLevelFor(load, avc)
  {
    AvcTable();
    if avc.A1b? {
      LowestTwice(load);
    } else {
      SelectingTwice(AVC_LIMITS, load, avc, A5);
    }
  }

  lemma LowestTwice(load: Load)
    ensures AvcLevelFor(load, AvcLevelFor(load, A1b)) == AvcLevelFor(load, A1b)
  {
    var k := Lowest(AVC_LIMITS, load);
    if k < |AVC_LIMITS| {
      AvcTable();
      AvcRows();
      var once := AVC_LIMITS[k].level;
      assert AvcRow(once) == k;
      assert !Below(AVC_LIMITS, once, k);
    }
  }

  /** The HCodec setter never chooses a higher level than the AVC setter. */
  lemma HCodecIsNeverHigher(load: Load, supplied: AvcLevel)
    requires AvcRow(supplied) >= 0 || supplied.A1b?
    ensures AvcRow(HCodecLevelFor(load)) <= AvcRow(AvcLevelFor(load, supplied))
    ensures Lowest(AVC_LIMITS, load) < |AVC_LIMITS| ==> LowestAvc(HCodecLevelFor(load), load)
  {
    AvcTable();
    var k := Lowest(AVC_LIMITS, load);
    if k < |AVC_LIMITS| {
      AvcLowestRow(load);
      AvcSelection(load, supplied, k);
    }
  }
}
