/** The two table builders: each fills a 64-entry table with one period of
    a waveform, pushing one entry per loop step. */
module WaveTables {
  import opened RustNumeric

  /** The number of entries both builders produce (`wave_table_size`). */
  const WaveTableSize: nat := 64

  /** `std::f32::consts::PI`, the `f32` nearest to pi, written out exactly. */
  const Pi: real := 3.1415927410125732421875

  // ---------------------------------------------------------------------------
  // Square wave

  /** Entry `n` of a square table of `size` entries: the low level up to and
      INCLUDING the midpoint `size / 2`, the high level after it. */
  function SquareEntry(n: nat, size: nat): (level: real)
  {
    if n > size / 2 then 1.0 else -1.0
  }

  /** The square table of `size` entries, as a value. */
  function SquareWaveTable(size: nat): (t: seq<real>)
    ensures |t| == size
    ensures forall n :: 0 <= n < size ==> t[n] == SquareEntry(n, size)
  {
    seq(size, n requires 0 <= n => SquareEntry(n, size))
  }

  /** `square_wave`: builds the 64-entry square table by pushing entries in order. */
  method SquareWave() returns (waveTable: seq<real>)
    ensures waveTable == SquareWaveTable(WaveTableSize)
  {
    waveTable := [];
    for n := 0 to WaveTableSize
      invariant |waveTable| == n
      invariant forall k :: 0 <= k < n ==> waveTable[k] == SquareEntry(k, WaveTableSize)
    {
      if n > WaveTableSize / 2 {
        waveTable := waveTable + [1.0];
      } else {
        waveTable := waveTable + [-1.0];
      }
    }
  }

  /** Every square entry is exactly one of the two levels, and it is the low
      level exactly when its position is at most `size / 2`. */
  lemma SquareWaveLevels(size: nat, n: nat)
    requires n < size
    ensures SquareWaveTable(size)[n] == -1.0 <==> n <= size / 2
    ensures SquareWaveTable(size)[n] == 1.0 <==> n > size / 2
    ensures SquareWaveTable(size)[n] == -1.0 || SquareWaveTable(size)[n] == 1.0
  {
  }

  /** How many entries of `s` equal `v`. */
  function Count(s: seq<real>, v: real): (c: nat)
    ensures c <= |s|
  {
    if s == [] then 0
    else Count(s[..|s| - 1], v) + (if s[|s| - 1] == v then 1 else 0)
  }

  /** Counting the levels in the first `k` entries of a square table. */
  lemma {:induction false} SquareWavePrefixCount(size: nat, k: nat)
    requires k <= size
    ensures Count(SquareWaveTable(size)[..k], -1.0) == if k <= size / 2 + 1 then k else size / 2 + 1
    ensures Count(SquareWaveTable(size)[..k], 1.0) == if k <= size / 2 + 1 then 0 else k - (size / 2 + 1)
  {
    var t := SquareWaveTable(size);
    if k > 0 {
      SquareWavePrefixCount(size, k - 1);
      assert t[..k][..k - 1] == t[..k - 1];
      assert t[..k][k - 1] == SquareEntry(k - 1, size);
    }
  }

  /** The low level takes `size / 2 + 1` entries and the high level the rest:
      the midpoint belongs to the low half, so for an even size the low half
      is two entries longer than the high one. */
  lemma SquareWaveDutyCycle(size: nat)
    requires 0 < size
    ensures Count(SquareWaveTable(size), -1.0) == size / 2 + 1
    ensures Count(SquareWaveTable(size), 1.0) == size - (size / 2 + 1)
  {
    SquareWavePrefixCount(size, size);
    assert SquareWaveTable(size)[..size] == SquareWaveTable(size);
  }

  /** For the table `square_wave` builds: 33 low entries (0 through 32) and 31 high ones. */
  lemma SquareWaveOf64()
    ensures SquareWaveTable(WaveTableSize)[32] == -1.0
    ensures SquareWaveTable(WaveTableSize)[33] == 1.0
    ensures Count(SquareWaveTable(WaveTableSize), -1.0) == 33
    ensures Count(SquareWaveTable(WaveTableSize), 1.0) == 31
  {
    SquareWaveDutyCycle(WaveTableSize);
  }

  // ---------------------------------------------------------------------------
  // Sine wave

  /** The angle at which entry `n` of a sine table of `size` entries samples
      the sine: `2 * PI * n / size`. */
  function SineAngle(n: nat, size: nat): (angle: real)
    requires 0 < size
  {
    2.0 * Pi * (n as real) / (size as real)
  }

  /** The sine table of `size` entries, as a value. The sine itself is a
      floating-point library function and is a parameter here. */
  function SineWaveTable(sin: real -> real, size: nat): (t: seq<real>)
    requires 0 < size
    ensures |t| == size
    ensures forall n :: 0 <= n < size ==> t[n] == sin(SineAngle(n, size))
  {
    seq(size, n requires 0 <= n => sin(SineAngle(n, size)))
  }

  /** `sine_wave`: builds the 64-entry sine table by pushing entries in order. */
  method SineWave(sin: real -> real) returns (waveTable: seq<real>)
    ensures waveTable == SineWaveTable(sin, WaveTableSize)
  {
    waveTable := [];
    for n := 0 to WaveTableSize
      invariant |waveTable| == n
      invariant forall k :: 0 <= k < n ==> waveTable[k] == sin(SineAngle(k, WaveTableSize))
    {
      waveTable := waveTable + [sin(2.0 * Pi * (n as real) / (WaveTableSize as real))];
    }
  }

  /** The sine table samples exactly one period, uniformly: the angles start at
      0, are spaced `2 * PI / size` apart, and stay below `2 * PI`. */
  lemma SineAnglesSpanOnePeriod(size: nat, n: nat)
    requires n < size
    ensures SineAngle(0, size) == 0.0
    ensures 0.0 <= SineAngle(n, size) < 2.0 * Pi
    ensures SineAngle(n + 1, size) - SineAngle(n, size) == 2.0 * Pi / (size as real)
  {
    var s := size as real;
    var a := SineAngle(n, size);
    var step := 2.0 * Pi / s;
    assert a == (n as real) * step;
    assert SineAngle(n + 1, size) == (n as real + 1.0) * step;
    assert 0.0 < step;
    var ns := (n as real) * step;
    var sts := s * step;
    assert sts == 2.0 * Pi;
    MulNonNegative(n as real, step);
    MulLess(n as real, s, step);
    assert ns < sts;
  }

  /** With a sine that vanishes at 0, the sine table starts at 0. */
  lemma SineWaveStartsAtZero(sin: real -> real, size: nat)
    requires 0 < size && sin(0.0) == 0.0
    ensures SineWaveTable(sin, size)[0] == 0.0
  {
  }
}
