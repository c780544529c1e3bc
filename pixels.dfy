/** The two per-pixel compositors: the fog blend of `generate_fog` and the
    integer cast chain of `_apply_diff`. Images are rows of columns of
    channel values, as numpy holds an 8-bit image read by OpenCV. */
module Pixels {
  import opened Base

  type Image = seq<seq<seq<Byte>>>

  /** Chromaticity of the atmosphere (`LInf`), equal on the three channels. */
  const Airlight: int := 200

  function Min(a: int, b: int): int { if a <= b then a else b }
  function Max(a: int, b: int): int { if a <= b then b else a }

  // ---------------------------------------------------------------------
  // Fog
  // ---------------------------------------------------------------------

  /** One channel of `clean * T + LInf * (1 - T)` with `T = t / 255`, cast
      to uint8 (truncation, the value being non-negative), computed exactly. */
  function FogChannel(c: Byte, t: Byte): (r: Byte)
    ensures (r as real) <= (c as real) * ((t as real) / 255.0) + (Airlight as real) * (1.0 - (t as real) / 255.0)
    ensures (c as real) * ((t as real) / 255.0) + (Airlight as real) * (1.0 - (t as real) / 255.0) < (r as real) + 1.0
    ensures Min(c as int, Airlight) <= r as int <= Max(c as int, Airlight)
  {
    var n := (c as int) * (t as int) + Airlight * (255 - t as int);
    FogBlendBounds(c as int, t as int);
    var q := n / 255;
    assert (n as real) / 255.0 == (c as real) * ((t as real) / 255.0) + (Airlight as real) * (1.0 - (t as real) / 255.0);
    assert 255 * q <= n < 255 * (q + 1);
    assert (q as real) <= (n as real) / 255.0 < (q as real) + 1.0;
    q as Byte
  }

  /** The blend, scaled by 255, lies between the two blended values. */
  lemma FogBlendBounds(c: int, t: int)
    requires 0 <= c < 256 && 0 <= t < 256
    ensures var n := c * t + Airlight * (255 - t);
      255 * Min(c, Airlight) <= n <= 255 * Max(c, Airlight)
      && Min(c, Airlight) <= n / 255 <= Max(c, Airlight)
  {
    var n := c * t + Airlight * (255 - t);
    var lo, hi := Min(c, Airlight), Max(c, Airlight);
    assert n == c * t + Airlight * (255 - t);
    assert lo * t <= c * t <= hi * t by {
      MulMonotone(lo, c, t);
      MulMonotone(c, hi, t);
    }
    assert lo * (255 - t) <= Airlight * (255 - t) <= hi * (255 - t) by {
      MulMonotone(lo, Airlight, 255 - t);
      MulMonotone(Airlight, hi, 255 - t);
    }
    assert lo * t + lo * (255 - t) == 255 * lo;
    assert hi * t + hi * (255 - t) == 255 * hi;
  }

  lemma MulMonotone(a: int, b: int, k: int)
    requires a <= b && 0 <= k
    ensures a * k <= b * k
  {
    assert b * k - a * k == (b - a) * k;
  }

  /** Full transmittance leaves the clean value. */
  lemma FogClear(c: Byte)
    ensures FogChannel(c, 255) == c
  {
  }

  /** Zero transmittance gives pure airlight. */
  lemma FogOpaque(c: Byte)
    ensures FogChannel(c, 0) as int == Airlight
  {
  }

  // ---------------------------------------------------------------------
  // Rain: the numpy cast chain of _apply_diff
  // ---------------------------------------------------------------------

  /** A value stored into uint16 (`astype(np.uint16)`, uint16 arithmetic). */
  function ToUint16(x: int): (r: int)
    ensures 0 <= r < 65536 && (x - r) % 65536 == 0
  {
    x % 65536
  }

  /** A value stored into int16 (`astype(np.int16)`, two's complement). */
  function ToInt16(x: int): (r: int)
    ensures -32768 <= r < 32768 && (x - r) % 65536 == 0
  {
    var u := x % 65536;
    if u >= 32768 then u - 65536 else u
  }

  /** A value stored into int32, the type of int16 + uint16. */
  function ToInt32(x: int): (r: int)
    ensures -0x8000_0000 <= r < 0x8000_0000 && (x - r) % 0x1_0000_0000 == 0
  {
    var u := x % 0x1_0000_0000;
    if u >= 0x8000_0000 then u - 0x1_0000_0000 else u
  }

  /** A value stored into uint8 (`astype(np.uint8)`: wraps, does not clamp). */
  function ToUint8(x: int): (r: Byte)
    ensures (x - r as int) % 256 == 0
  {
    (x % 256) as Byte
  }

  /** `((diff.astype(uint16) - 255).astype(int16) + clean.astype(uint16)).astype(uint8)`
      on one channel: the clean value shifted by `diff - 255`, modulo 256. */
  function RainChannel(clean: Byte, diff: Byte): (r: Byte)
    ensures r as int == (clean as int + diff as int - 255) % 256
  {
    var c16 := ToUint16(clean as int);
    var d16 := ToUint16(diff as int);
    WrapSmall(clean as int, 65536);
    WrapSmall(diff as int, 65536);
    var shifted := ToUint16(d16 - 255);
    WrapSmall(diff as int - 255, 65536);
    var signed := ToInt16(shifted);
    WrapSmall(shifted, 65536);
    assert signed == diff as int - 255;
    var sum := ToInt32(signed + c16);
    WrapSmall(signed + c16, 0x1_0000_0000);
    assert sum == clean as int + diff as int - 255;
    ToUint8(sum)
  }

  /** Reduction modulo `m` of a value within one period of zero. */
  lemma WrapSmall(x: int, m: int)
    requires m > 0 && -m <= x < m
    ensures x % m == if x < 0 then x + m else x
  {
    if x < 0 {
      assert x + m == x - (-1) * m;
      assert 0 <= x + m < m;
    }
  }

  /** A diff at the neutral value 255 reproduces the clean value. */
  lemma RainNeutral(clean: Byte)
    ensures RainChannel(clean, 255) == clean
  {
    WrapSmall(clean as int, 256);
  }

  /** The sum is not clamped: it is exact when it stays in range and wraps
      round to the top of the range when it goes below zero. */
  lemma RainWraps(clean: Byte, diff: Byte)
    ensures clean as int + diff as int >= 255 ==> RainChannel(clean, diff) as int == clean as int + diff as int - 255
    ensures clean as int + diff as int < 255 ==> RainChannel(clean, diff) as int == clean as int + diff as int + 1
  {
    WrapSmall(clean as int + diff as int - 255, 256);
  }

  // ---------------------------------------------------------------------
  // Whole images
  // ---------------------------------------------------------------------

  /** Two images have the same numbers of rows, columns and channels. */
  predicate SameShape(a: Image, b: Image)
  {
    |a| == |b|
    && (forall i :: 0 <= i < |a| ==> |a[i]| == |b[i]|)
    && (forall i, j :: 0 <= i < |a| && 0 <= j < |a[i]| ==> |a[i][j]| == |b[i][j]|)
  }

  /** Every channel of the image has value `v`. */
  predicate Uniform(img: Image, v: Byte)
  {
    forall i, j, k :: 0 <= i < |img| && 0 <= j < |img[i]| && 0 <= k < |img[i][j]| ==> img[i][j][k] == v
  }

  /** The foggy image: the blend applied channel by channel. */
  function FogImage(clean: Image, t: Image): (r: Image)
    requires SameShape(clean, t)
    ensures SameShape(r, clean)
    ensures forall i, j, k :: 0 <= i < |r| && 0 <= j < |r[i]| && 0 <= k < |r[i][j]| ==>
      r[i][j][k] == FogChannel(clean[i][j][k], t[i][j][k])
  {
    seq(|clean|, i requires 0 <= i < |clean| =>
      seq(|clean[i]|, j requires 0 <= j < |clean[i]| =>
        seq(|clean[i][j]|, k requires 0 <= k < |clean[i][j]| => FogChannel(clean[i][j][k], t[i][j][k]))))
  }

  /** The rainy image: the cast chain applied channel by channel. */
  function RainImage(clean: Image, diff: Image): (r: Image)
    requires SameShape(clean, diff)
    ensures SameShape(r, clean)
    ensures forall i, j, k :: 0 <= i < |r| && 0 <= j < |r[i]| && 0 <= k < |r[i][j]| ==>
      r[i][j][k] == RainChannel(clean[i][j][k], diff[i][j][k])
  {
    seq(|clean|, i requires 0 <= i < |clean| =>
      seq(|clean[i]|, j requires 0 <= j < |clean[i]| =>
        seq(|clean[i][j]|, k requires 0 <= k < |clean[i][j]| => RainChannel(clean[i][j][k], diff[i][j][k]))))
  }

  lemma SameShapeEqual(a: Image, b: Image)
    requires SameShape(a, b)
    requires forall i, j, k :: 0 <= i < |a| && 0 <= j < |a[i]| && 0 <= k < |a[i][j]| ==> a[i][j][k] == b[i][j][k]
    ensures a == b
  {
    forall i | 0 <= i < |a| ensures a[i] == b[i] {
      forall j | 0 <= j < |a[i]| ensures a[i][j] == b[i][j] {
      }
    }
  }

  /** A transmittance map that is 255 everywhere leaves the image clean. */
  lemma FogImageClear(clean: Image, t: Image)
    requires SameShape(clean, t) && Uniform(t, 255)
    ensures FogImage(clean, t) == clean
  {
    var r := FogImage(clean, t);
    forall i, j, k | 0 <= i < |r| && 0 <= j < |r[i]| && 0 <= k < |r[i][j]| ensures r[i][j][k] == clean[i][j][k] {
      FogClear(clean[i][j][k]);
    }
    SameShapeEqual(r, clean);
  }

  /** A transmittance map that is 0 everywhere gives pure airlight. */
  lemma FogImageOpaque(clean: Image, t: Image)
    requires SameShape(clean, t) && Uniform(t, 0)
    ensures Uniform(FogImage(clean, t), Airlight as Byte)
  {
    var r := FogImage(clean, t);
    forall i, j, k | 0 <= i < |r| && 0 <= j < |r[i]| && 0 <= k < |r[i][j]| ensures r[i][j][k] == Airlight as Byte {
      FogOpaque(clean[i][j][k]);
    }
  }

  /** A diff layer that is 255 everywhere reproduces the clean image. */
  lemma RainImageNeutral(clean: Image, diff: Image)
    requires SameShape(clean, diff) && Uniform(diff, 255)
    ensures RainImage(clean, diff) == clean
  {
    var r := RainImage(clean, diff);
    forall i, j, k | 0 <= i < |r| && 0 <= j < |r[i]| && 0 <= k < |r[i][j]| ensures r[i][j][k] == clean[i][j][k] {
      RainNeutral(clean[i][j][k]);
    }
    SameShapeEqual(r, clean);
  }
}
