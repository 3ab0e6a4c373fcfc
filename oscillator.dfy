/** The wavetable oscillator: a sample rate, an owned table holding one period
    of a waveform, and a fractional phase (`index`) that advances by
    `indexIncrement` table positions per produced sample and wraps around the
    table length. Samples between table entries are linearly interpolated.

    `f32` is modelled as `real`. */
module Oscillator {
  import opened RustNumeric

  /** Rust's `Option`. */
  datatype Option<T> = None | Some(value: T)

  /** The sub-second part of a `Duration`: below one second. */
  newtype Nanos = x: int | 0 <= x < 1_000_000_000

  /** Rust's `std::time::Duration`. Only its absence is ever reported here,
      so the type is a placeholder for `total_duration`'s result. */
  datatype Duration = Duration(secs: nat, nanos: Nanos)

  /** The table position after the truncated one, wrapping to 0 after the last:
      `(truncated_index + 1) % len` on `usize`. */
  function NextIndex(i: nat, len: nat): (j: nat)
    requires 0 < len
    ensures j < len
    ensures i + 1 < len ==> j == i + 1
    ensures i + 1 == len ==> j == 0
  {
    (i + 1) % len
  }

  /** `lerp`: the table value at the fractional position `index`, blending the
      entry at the truncated position with its (wrapping) successor in
      proportion to the fractional part. `lerp` indexes the table at the
      truncated position, which panics unless `index < len`; for a negative
      `index` the truncation saturates at 0 and the successor weight is
      negative. */
  function Lerp(table: seq<real>, index: real): (r: real)
    requires 0 < |table|
    requires index < |table| as real
    ensures 0.0 <= index ==>
              var i0 := TruncToUsize(index);
              var i1 := NextIndex(i0, |table|);
              (table[i0] <= r <= table[i1]) || (table[i1] <= r <= table[i0])
  {
    var truncatedIndex := TruncToUsize(index);
    var nextIndex := NextIndex(truncatedIndex, |table|);
    var nextIndexWeight := index - truncatedIndex as real;
    var truncatedIndexWeight := 1.0 - nextIndexWeight;
    BlendBetween(table[truncatedIndex], table[nextIndex], nextIndexWeight);
    truncatedIndexWeight * table[truncatedIndex] + nextIndexWeight * table[nextIndex]
  }

  /** A blend `(1 - w) * a + w * b` with `w` in [0, 1] lies between `a` and `b`. */
  lemma BlendBetween(a: real, b: real, w: real)
    ensures 0.0 <= w <= 1.0 ==>
              var r := (1.0 - w) * a + w * b;
              (a <= r <= b) || (b <= r <= a)
  {
    if 0.0 <= w <= 1.0 {
      var d := b - a;
      var wd := w * d;
      assert (1.0 - w) * a + w * b == a + wd;
      if 0.0 <= d {
        MulNonNegative(w, d);
        MulNonNegative(1.0 - w, d);
        assert (1.0 - w) * d == d - wd;
      } else {
        MulNonNegative(w, -d);
        MulNonNegative(1.0 - w, -d);
        assert w * (-d) == -wd;
        assert (1.0 - w) * (-d) == wd - d;
      }
    }
  }

  /** For a phase in `[0, len)`, `lerp` reads two in-bounds positions: the
      truncated one and its wrapping successor. The successor weight is the
      fractional part, in `[0, 1)`; the truncated weight is its complement
      `1 - w`, so the two sum to 1 by definition. */
  lemma LerpReadsInBounds(table: seq<real>, index: real)
    requires 0 < |table| && 0.0 <= index < |table| as real
    ensures TruncToUsize(index) < |table|
    ensures NextIndex(TruncToUsize(index), |table|) < |table|
    ensures 0.0 <= index - TruncToUsize(index) as real < 1.0
  {
  }

  /** At a whole-number phase interpolation is exact lookup. */
  lemma LerpAtWholeIndex(table: seq<real>, k: nat)
    requires k < |table|
    ensures Lerp(table, k as real) == table[k]
  {
    assert TruncToUsize(k as real) == k;
  }

  /** Halfway between the first two entries `lerp` returns their mean. */
  lemma LerpMidpoint(table: seq<real>)
    requires 2 <= |table|
    ensures Lerp(table, 0.5) == (table[0] + table[1]) / 2.0
  {
    assert TruncToUsize(0.5) == 0;
  }

  /** For a non-negative phase, `lerp` stays within any bounds that hold for
      every table entry: interpolation does not overshoot. */
  lemma LerpWithinLevels(table: seq<real>, index: real, lo: real, hi: real)
    requires 0 < |table| && 0.0 <= index < |table| as real
    requires forall i :: 0 <= i < |table| ==> lo <= table[i] <= hi
    ensures lo <= Lerp(table, index) <= hi
  {
    var i0 := TruncToUsize(index);
    var i1 := NextIndex(i0, |table|);
    assert lo <= table[i0] <= hi && lo <= table[i1] <= hi;
  }

  /** The phase update of `get_sample`: `index += index_increment` followed by
      `index %= len` with Rust's truncated float remainder. */
  function Advance(index: real, increment: real, len: nat): (next: real)
    requires 0 < len
    ensures -(len as real) < next < len as real
    ensures 0.0 <= index + increment ==> 0.0 <= next
    ensures index + increment <= 0.0 ==> next <= 0.0
    ensures -(len as real) < index + increment < len as real ==> next == index + increment
    ensures index + increment == len as real ==> next == 0.0
  {
    FRem(index + increment, len as real)
  }

  /** The increment `set_frequency` computes: `frequency * len / sample_rate`.
      Its meaning is that one second of output (`sampleRate` samples) moves the
      phase through `frequency` whole tables, i.e. `frequency` periods. */
  function IndexIncrement(frequency: real, len: nat, sampleRate: U32): (inc: real)
    requires 0 < sampleRate
    ensures inc * (sampleRate as real) == frequency * (len as real)
    ensures 0.0 <= frequency ==> 0.0 <= inc
    ensures frequency < 0.0 && 0 < len ==> inc < 0.0
  {
    QuotientBounds(frequency * (len as real), sampleRate as real);
    if 0.0 <= frequency then
      MulNonNegative(frequency, len as real);
      frequency * (len as real) / (sampleRate as real)
    else if 0 < len then
      MulLess(frequency, 0.0, len as real);
      frequency * (len as real) / (sampleRate as real)
    else
      frequency * (len as real) / (sampleRate as real)
  }

  class WaveTableOscillator {
    var sampleRate: U32
    var waveTable: seq<real>
    var index: real
    var indexIncrement: real

    /** The states in which `lerp` cannot panic: a non-empty table and a phase
        below the table length. `new` establishes it for any non-empty table
        and every `get_sample` keeps it, whatever the increment. */
    ghost predicate Ready()
      reads this
    {
      0 < |waveTable| && index < |waveTable| as real
    }

    /** The forward-playback phase range `[0, len)`. */
    ghost predicate PhaseInRange()
      reads this
    {
      0 < |waveTable| && 0.0 <= index < |waveTable| as real
    }

    /** `new`: takes the table as it is, at phase 0 and increment 0. */
    constructor (sampleRate: U32, waveTable: seq<real>)
      ensures this.sampleRate == sampleRate && this.waveTable == waveTable
      ensures index == 0.0 && indexIncrement == 0.0
      ensures 0 < |waveTable| ==> Ready() && PhaseInRange()
    {
      this.sampleRate := sampleRate;
      this.waveTable := waveTable;
      index := 0.0;
      indexIncrement := 0.0;
    }

    /** `set_frequency`: recomputes the increment, and nothing else. A zero
        sample rate would divide by zero and is excluded. */
    method SetFrequency(frequency: real)
      requires 0 < sampleRate
      modifies this`indexIncrement
      ensures indexIncrement == IndexIncrement(frequency, |waveTable|, sampleRate)
      ensures index == old(index) && waveTable == old(waveTable) && sampleRate == old(sampleRate)
    {
      indexIncrement := frequency * (|waveTable| as real) / (sampleRate as real);
    }

    /** `get_sample`: interpolates at the current phase, then advances and
        wraps the phase; the sample returned is the one at the phase BEFORE
        the step. Only `index` changes. */
    method GetSample() returns (sample: real)
      requires Ready()
      modifies this`index
      ensures sample == Lerp(waveTable, old(index))
      ensures index == Advance(old(index), indexIncrement, |waveTable|)
      ensures indexIncrement == old(indexIncrement) && waveTable == old(waveTable) && sampleRate == old(sampleRate)
      ensures Ready() && -(|waveTable| as real) < index
      ensures old(PhaseInRange()) && 0.0 <= indexIncrement ==> PhaseInRange()
    {
      sample := Lerp(waveTable, index);
      index := index + indexIncrement;
      index := FRem(index, |waveTable| as real);
    }

    /** `Iterator::next`: the stream never ends; every call yields `Some` of
        the next sample. */
    method Next() returns (item: Option<real>)
      requires Ready()
      modifies this`index
      ensures item == Some(Lerp(waveTable, old(index)))
      ensures index == Advance(old(index), indexIncrement, |waveTable|)
      ensures indexIncrement == old(indexIncrement) && waveTable == old(waveTable) && sampleRate == old(sampleRate)
      ensures Ready() && -(|waveTable| as real) < index
      ensures old(PhaseInRange()) && 0.0 <= indexIncrement ==> PhaseInRange()
    {
      var sample := GetSample();
      item := Some(sample);
    }

    /** `Source::current_frame_len`: the oscillator does not batch samples. */
    function CurrentFrameLen(): (frameLen: Option<nat>)
      ensures frameLen == None
    {
      None
    }

    /** `Source::channels`: the output is mono. */
    function Channels(): (channels: U16)
      ensures channels == 1
    {
      1
    }

    /** `Source::sample_rate`: the rate given to `new`. */
    function SampleRate(): (rate: U32)
      reads this
      ensures rate == sampleRate
    {
      sampleRate
    }

    /** `Source::total_duration`: the stream is open-ended. */
    function TotalDuration(): (duration: Option<Duration>)
      ensures duration == None
    {
      None
    }
  }
}
