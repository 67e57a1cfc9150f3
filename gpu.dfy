/** The video device: 0x2000 bytes of video RAM and a cache of 384 tiles
    of 8x8 pixels derived from its first 0x1800 bytes. A tile row is two
    consecutive bytes, the even one holding the low bitplane and the odd
    one the high bitplane, most significant bit first. */
module Gpu {

  const VRAM_BEGIN: nat := 0x8000
  const VRAM_END: nat := 0x9FFF
  const VRAM_SIZE: nat := VRAM_END - VRAM_BEGIN + 1
  const TILE_COUNT: nat := 384
  /** Offsets above this one do not touch the tile cache. */
  const TILE_SET_LIMIT: nat := 0x1800

  datatype TilePixelValue = Zero | One | Two | Three

  // ---------------------------------------------------------------------
  // Addressing

  /** `addr & 0xFFFE`: the even offset of the row's byte pair. */
  function NormIndex(addr: nat): nat {
    addr - addr % 2
  }

  function TileIndex(addr: nat): nat {
    addr / 16
  }

  function RowIndex(addr: nat): nat {
    (addr % 16) / 2
  }

  /** `addr ^ 1`: the other byte of the same pair. */
  function PairedOffset(addr: nat): nat {
    if addr % 2 == 0 then addr + 1 else addr - 1
  }

  /** Both bytes of a pair name the same tile and row. */
  lemma PairedOffsetsShareRow(addr: nat)
    ensures TileIndex(PairedOffset(addr)) == TileIndex(addr)
    ensures RowIndex(PairedOffset(addr)) == RowIndex(addr)
    ensures NormIndex(PairedOffset(addr)) == NormIndex(addr)
  {
    var q, rem := addr / 16, addr % 16;
    assert addr == 16 * q + rem;
    if addr % 2 == 0 {
      assert PairedOffset(addr) == 16 * q + (rem + 1);
    } else {
      assert PairedOffset(addr) == 16 * q + (rem - 1);
    }
  }

  /** The row's bytes sit at `16 * tile + 2 * row` and the offset after
      it; the offsets below the limit name tiles 0..383 only, while the
      limit itself names tile 384, one past the end of the cache. */
  lemma RowAddress(addr: nat)
    ensures NormIndex(addr) == 16 * TileIndex(addr) + 2 * RowIndex(addr)
    ensures RowIndex(addr) < 8
    ensures addr < TILE_SET_LIMIT <==> TileIndex(addr) < TILE_COUNT
    ensures TileIndex(TILE_SET_LIMIT) == TILE_COUNT
  {
    var q, rem := addr / 16, addr % 16;
    assert addr == 16 * q + rem;
    assert addr % 2 == rem % 2;
  }

  /** The only offsets whose row is `(tile, row)` are the two bytes of
      that row. */
  lemma OffsetOfRow(addr: nat, tile: nat, row: nat)
    requires row < 8
    ensures (TileIndex(addr) == tile && RowIndex(addr) == row)
            <==> (addr == 16 * tile + 2 * row || addr == 16 * tile + 2 * row + 1)
  {
    RowAddress(addr);
  }

  // ---------------------------------------------------------------------
  // Pixel derivation

  predicate BitAt(b: bv8, position: nat)
    requires position < 8
  {
    (b >> position) & 1 == 1
  }

  /** The pixel rule as the emulator writes it: `lsb` is the low byte's
      bit under the mask and `msb` the high byte's, but the high bit is
      tested with `msb != 1`. For pixels 0..6 the mask is at least 2, so
      that test always holds and the pixel is Three or Two; for pixel 7
      the mask is 1 and the test holds when bit 0 of the high byte is
      clear. */
  function PixelValue(byte1: bv8, byte2: bv8, pixelIndex: nat): (v: TilePixelValue)
    requires pixelIndex < 8
    ensures pixelIndex < 7 ==> v == if BitAt(byte1, 7 - pixelIndex) then Three else Two
    ensures pixelIndex == 7 ==>
      v == if BitAt(byte1, 0) then (if BitAt(byte2, 0) then One else Three)
           else (if BitAt(byte2, 0) then Zero else Two)
  {
    var mask: bv8 := 1 << (7 - pixelIndex);
    var lsb := byte1 & mask;
    var msb := byte2 & mask;
    match (lsb != 0, msb != 1)
    case (true, true) => Three
    case (false, true) => Two
    case (true, false) => One
    case (false, false) => Zero
  }

  /** The bitplane rule of the tile format: with `l` the low-plane bit and
      `h` the high-plane bit of a pixel, (1,1) is Three, (0,1) Two, (1,0)
      One and (0,0) Zero. */
  function BitplanePixel(low: bv8, high: bv8, pixelIndex: nat): TilePixelValue
    requires pixelIndex < 8
  {
    match (BitAt(low, 7 - pixelIndex), BitAt(high, 7 - pixelIndex))
    case (true, true) => Three
    case (false, true) => Two
    case (true, false) => One
    case (false, false) => Zero
  }

  /** Where the emulator's rule and the bitplane rule agree: on pixels
      0..6 exactly when the high-plane bit is set, and on pixel 7 never
      (the high bit's test is inverted there). */
  lemma PixelRuleAgainstBitplanes(low: bv8, high: bv8, pixelIndex: nat)
    requires pixelIndex < 8
    ensures pixelIndex < 7 ==>
      (PixelValue(low, high, pixelIndex) == BitplanePixel(low, high, pixelIndex) <==> BitAt(high, 7 - pixelIndex))
    ensures pixelIndex == 7 ==> PixelValue(low, high, pixelIndex) != BitplanePixel(low, high, pixelIndex)
  {
  }

  /** A row of zero bytes decodes to Two everywhere, although a fresh tile
      set holds Zero: the cache starts out of step with the zeroed RAM. */
  lemma ZeroRowDecodesToTwo(pixelIndex: nat)
    requires pixelIndex < 8
    ensures PixelValue(0, 0, pixelIndex) == Two
  {
  }

  /** 0xFF in the low plane and 0x00 in the high plane decode to Three in
      all eight pixels. */
  lemma FullLowPlaneDecodesToThree(pixelIndex: nat)
    requires pixelIndex < 8
    ensures PixelValue(0xFF, 0x00, pixelIndex) == Three
  {
  }

  // ---------------------------------------------------------------------
  // The device

  class Gpu {
    var vram: array<bv8>
    var tileSet: array3<TilePixelValue>

    ghost predicate Valid()
      reads this
    {
      vram.Length == VRAM_SIZE
      && tileSet.Length0 == TILE_COUNT && tileSet.Length1 == 8 && tileSet.Length2 == 8
    }

    /** Row `row` of tile `tile` holds what its two bytes decode to. */
    ghost predicate RowDerived(tile: nat, row: nat)
      requires Valid() && tile < TILE_COUNT && row < 8
      reads this, vram, tileSet
    {
      forall p :: 0 <= p < 8 ==>
        tileSet[tile, row, p] == PixelValue(vram[16 * tile + 2 * row], vram[16 * tile + 2 * row + 1], p)
    }

    /** Zeroed video RAM and a tile set of all-Zero pixels. */
    constructor ()
      ensures Valid() && fresh(vram) && fresh(tileSet)
      ensures forall i :: 0 <= i < VRAM_SIZE ==> vram[i] == 0
      ensures forall t, r, p :: 0 <= t < TILE_COUNT && 0 <= r < 8 && 0 <= p < 8 ==> tileSet[t, r, p] == Zero
    {
      vram := new bv8[VRAM_SIZE](_ => 0);
      tileSet := new TilePixelValue[TILE_COUNT, 8, 8]((_, _, _) => Zero);
    }

    /** The raw byte at `addr`, with no derivation. */
    method ReadVram(addr: nat) returns (v: bv8)
      requires Valid() && addr < VRAM_SIZE
      ensures v == vram[addr]
    {
      v := vram[addr];
    }

    /** The pixel loop of a write: rewrites row `rowIdx` of tile `tileIdx`
      from the row's two bytes, one pixel at a time, and nothing else. */
    method SetTileRow(tileIdx: nat, rowIdx: nat, byte1: bv8, byte2: bv8)
      requires Valid() && tileIdx < TILE_COUNT && rowIdx < 8
      modifies tileSet
      ensures forall t, r, p :: 0 <= t < TILE_COUNT && 0 <= r < 8 && 0 <= p < 8 ==>
        tileSet[t, r, p] ==
          if t == tileIdx && r == rowIdx then PixelValue(byte1, byte2, p) else old(tileSet[t, r, p])
    {
      for pixelIdx := 0 to 8
        invariant forall t, r, p :: 0 <= t < TILE_COUNT && 0 <= r < 8 && 0 <= p < 8 ==>
          tileSet[t, r, p] ==
            if t == tileIdx && r == rowIdx && p < pixelIdx then PixelValue(byte1, byte2, p)
            else old(tileSet[t, r, p])
      {
        var value := PixelValue(byte1, byte2, pixelIdx);
        tileSet[tileIdx, rowIdx, pixelIdx] := value;
      }
    }

    /** The tile-cache half of a write: at or below the limit, rewrites
      the row that offset `addr` belongs to from the row's two bytes as
      they now stand. At `addr == 0x1800` the guard lets the offset
      through to tile 384, which does not exist: the tile set is left
      alone and `ok` is false. */
    method RefreshRow(addr: nat) returns (ok: bool)
      requires Valid() && addr < VRAM_SIZE
      modifies tileSet
      ensures ok <==> addr != TILE_SET_LIMIT
      ensures forall t, r, p :: 0 <= t < TILE_COUNT && 0 <= r < 8 && 0 <= p < 8 ==>
        tileSet[t, r, p] ==
          if addr < TILE_SET_LIMIT && t == TileIndex(addr) && r == RowIndex(addr)
          then PixelValue(vram[NormIndex(addr)], vram[NormIndex(addr) + 1], p)
          else old(tileSet[t, r, p])
    {
      ok := true;
      if addr <= TILE_SET_LIMIT {
        var normIdx := NormIndex(addr);
        var byte1 := vram[normIdx];
        var byte2 := vram[normIdx + 1];

        var tileIdx := TileIndex(addr);
        var rowIdx := RowIndex(addr);
        RowAddress(addr);
        if tileIdx >= TILE_COUNT {
          // indexing the tile set at 384 fails before any pixel is written
          ok := false;
        } else {
          SetTileRow(tileIdx, rowIdx, byte1, byte2);
        }
      }
    }

    /** Stores `value` at `addr` and refreshes the one tile row that byte
      belongs to; every row that was derived stays derived, and the
      refreshed row becomes derived. */
    method WriteVram(addr: nat, value: bv8) returns (ok: bool)
      requires Valid() && addr < VRAM_SIZE
      modifies vram, tileSet
      ensures Valid()
      ensures ok <==> addr != TILE_SET_LIMIT
      ensures vram[..] == old(vram[..])[addr := value]
      ensures forall t, r, p :: 0 <= t < TILE_COUNT && 0 <= r < 8 && 0 <= p < 8 ==>
        tileSet[t, r, p] ==
          if addr < TILE_SET_LIMIT && t == TileIndex(addr) && r == RowIndex(addr)
          then PixelValue(vram[NormIndex(addr)], vram[NormIndex(addr) + 1], p)
          else old(tileSet[t, r, p])
      ensures forall t, r :: 0 <= t < TILE_COUNT && 0 <= r < 8 && old(RowDerived(t, r)) ==> RowDerived(t, r)
      ensures addr < TILE_SET_LIMIT ==> RowDerived(TileIndex(addr), RowIndex(addr))
    {
      vram[addr] := value;
      ok := RefreshRow(addr);

      forall t, r | 0 <= t < TILE_COUNT && 0 <= r < 8 && old(RowDerived(t, r))
        ensures RowDerived(t, r)
      {
        OffsetOfRow(addr, t, r);
      }
      if addr < TILE_SET_LIMIT {
        RowAddress(addr);
      }
    }
  }

  /** Writing 0xFF at offset 0 and 0x00 at offset 1 of a fresh device
      leaves row 0 of tile 0 all Three. */
  method FirstRowScenario() returns (row: seq<TilePixelValue>)
    ensures row == [Three, Three, Three, Three, Three, Three, Three, Three]
  {
    var gpu := new Gpu();
    var ok := gpu.WriteVram(0, 0xFF);
    ok := gpu.WriteVram(1, 0x00);
    forall p | 0 <= p < 8
      ensures gpu.tileSet[0, 0, p] == Three
    {
      FullLowPlaneDecodesToThree(p);
    }
    row := [gpu.tileSet[0, 0, 0], gpu.tileSet[0, 0, 1], gpu.tileSet[0, 0, 2], gpu.tileSet[0, 0, 3],
            gpu.tileSet[0, 0, 4], gpu.tileSet[0, 0, 5], gpu.tileSet[0, 0, 6], gpu.tileSet[0, 0, 7]];
  }
}
