/**
 * `convert_image_to_luma` of rxing-wasm/src/lib.rs: RGBA pixels, four bytes each, become one
 * luminance byte each, computed with integer weights that approximate 0.299 R + 0.587 G + 0.114 B.
 */
module Luma {

  newtype u8 = x: int | 0 <= x < 256

  const U64Bound: int := 0x1_0000_0000_0000_0000

  /** `306 * R + 601 * G + 117 * B + 0x200`, computed in u64: the weights sum to 1024, so the sum
      is at most 1024 * 255 + 512 = 261,632 and the u64 arithmetic never wraps. */
  function WeightedSum(red: u8, green: u8, blue: u8): (sum: int)
    ensures 0x200 <= sum <= 1024 * 255 + 0x200
    ensures sum < U64Bound
  {
    306 * (red as int) + 601 * (green as int) + 117 * (blue as int) + 0x200
  }

  /** `WeightedSum >> 10` (a shift of a non-negative value): it never exceeds 255. */
  function WeightedLuma(red: u8, green: u8, blue: u8): (wide: int)
    ensures 0 <= wide <= 255
  {
    WeightedSum(red, green, blue) / 1024
  }

  /** The `as u8` cast: keeps the low eight bits. */
  function TruncateToU8(x: int): (r: u8)
    requires 0 <= x
    ensures x < 256 ==> r as int == x
  {
    (x % 256) as u8
  }

  /** The luminance byte of one pixel. */
  function PixelLuma(red: u8, green: u8, blue: u8, alpha: u8): (luma: u8)
    ensures alpha == 0 ==> luma == 0xFF
    ensures alpha != 0 ==> luma as int == WeightedLuma(red, green, blue)
  {
    if alpha == 0 then 0xFF else TruncateToU8(WeightedLuma(red, green, blue))
  }

  /** A grey pixel keeps its level. */
  lemma GreyPixelKeepsLevel(v: u8, alpha: u8)
    requires alpha != 0
    ensures PixelLuma(v, v, v, alpha) == v
  {
    var sum := 306 * (v as int) + 601 * (v as int) + 117 * (v as int) + 0x200;
    assert sum == 1024 * (v as int) + 512;
  }

  /** Brighter channels never give a darker pixel. */
  lemma PixelLumaMonotone(r1: u8, g1: u8, b1: u8, r2: u8, g2: u8, b2: u8, alpha: u8)
    requires alpha != 0 && r1 <= r2 && g1 <= g2 && b1 <= b2
    ensures PixelLuma(r1, g1, b1, alpha) <= PixelLuma(r2, g2, b2, alpha)
  {
    var s1 := 306 * (r1 as int) + 601 * (g1 as int) + 117 * (b1 as int) + 0x200;
    var s2 := 306 * (r2 as int) + 601 * (g2 as int) + 117 * (b2 as int) + 0x200;
    assert s1 <= s2;
    assert s1 / 1024 <= s2 / 1024;
  }

  /** The luminance of a whole buffer, chunk by chunk (`chunks_exact(4)`). */
  function Luma(data: seq<u8>): (r: seq<u8>)
    ensures |r| == |data| / 4
    decreases |data|
  {
    if |data| < 4 then []
    else [PixelLuma(data[0], data[1], data[2], data[3])] + Luma(data[4..])
  }

  /** One output byte per whole pixel, computed from that pixel's four bytes only. */
  lemma {:induction false} LumaAt(data: seq<u8>, i: nat)
    ensures |Luma(data)| == |data| / 4
    ensures i < |data| / 4 ==>
      Luma(data)[i] == PixelLuma(data[4 * i], data[4 * i + 1], data[4 * i + 2], data[4 * i + 3])
    decreases |data|
  {
    if |data| >= 4 {
      LumaAt(data[4..], if i > 0 then i - 1 else 0);
    }
  }

  /** Bytes after the last whole pixel are ignored. */
  lemma LumaIgnoresTrailingBytes(data: seq<u8>, extra: seq<u8>)
    requires |data| % 4 == 0 && |extra| < 4
    ensures Luma(data + extra) == Luma(data)
  {
    LumaAt(data, 0);
    LumaAt(data + extra, 0);
    forall i | 0 <= i < |data| / 4 ensures Luma(data + extra)[i] == Luma(data)[i] {
      LumaAt(data, i);
      LumaAt(data + extra, i);
    }
  }

  /** `convert_image_to_luma`: walks the whole pixels and pushes one byte for each. */
  method ConvertImageToLuma(data: seq<u8>) returns (lumaData: seq<u8>)
    ensures lumaData == Luma(data)
    ensures |lumaData| == |data| / 4
  {
    lumaData := [];
    var i := 0;
    while i < |data| / 4
      invariant 0 <= i <= |data| / 4
      invariant |lumaData| == i
      invariant forall j :: 0 <= j < i ==>
        lumaData[j] == PixelLuma(data[4 * j], data[4 * j + 1], data[4 * j + 2], data[4 * j + 3])
    {
      var red, green, blue, alpha := data[4 * i], data[4 * i + 1], data[4 * i + 2], data[4 * i + 3];
      var pixel := if alpha == 0 then 0xFF else TruncateToU8(WeightedLuma(red, green, blue));
      lumaData := lumaData + [pixel];
      i := i + 1;
    }
    LumaAt(data, 0);
    forall j | 0 <= j < |data| / 4 ensures lumaData[j] == Luma(data)[j] {
      LumaAt(data, j);
    }
  }
}
