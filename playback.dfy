/** What a consumer sees when it pulls samples from the oscillator again and
    again. `GetSample` returns `Lerp` at the current phase and moves the phase
    by `Advance`; `PhaseAfter` and `Samples` are those two steps iterated, so
    the lemmas here are statements about any number of successive pulls. */
module Playback {
  import opened RustNumeric
  import opened WaveTables
  import opened Oscillator

  /** The phase after `n` pulls that start at phase `index`. After at least one
      pull the phase lies strictly between `-len` and `len`, whatever the
      increment, so `lerp` never reads outside the table. */
  function PhaseAfter(index: real, increment: real, len: nat, n: nat): (phase: real)
    requires 0 < len
    ensures n == 0 ==> phase == index
    ensures 0 < n ==> -(len as real) < phase < len as real
    decreases n
  {
    if n == 0 then index
    else PhaseAfter(Advance(index, increment, len), increment, len, n - 1)
  }

  /** The first `n` samples pulled from an oscillator with table `table`,
      phase `index` and increment `increment`. */
  function Samples(table: seq<real>, index: real, increment: real, n: nat): (samples: seq<real>)
    requires 0 < |table| && index < |table| as real
    ensures |samples| == n
    decreases n
  {
    if n == 0 then []
    else [Lerp(table, index)] + Samples(table, Advance(index, increment, |table|), increment, n - 1)
  }

  /** Forward playback keeps the phase in `[0, len)` across any number of pulls. */
  lemma {:induction false} ForwardPhaseInvariant(index: real, increment: real, len: nat, n: nat)
    requires 0 < len && 0.0 <= index < len as real && 0.0 <= increment
    ensures 0.0 <= PhaseAfter(index, increment, len, n) < len as real
    decreases n
  {
    if 0 < n {
      ForwardPhaseInvariant(Advance(index, increment, len), increment, len, n - 1);
    }
  }

  /** Reverse playback: once the phase is in `(-len, 0]` (from phase 0, where
      `new` leaves it, at once), a non-positive increment keeps it there across
      any number of pulls, since the truncated `%` takes the dividend's sign. */
  lemma {:induction false} ReversePhaseInvariant(index: real, increment: real, len: nat, n: nat)
    requires 0 < len && -(len as real) < index <= 0.0 && increment <= 0.0
    ensures -(len as real) < PhaseAfter(index, increment, len, n) <= 0.0
    decreases n
  {
    if 0 < n {
      ReversePhaseInvariant(Advance(index, increment, len), increment, len, n - 1);
    }
  }

  /** Pull `k` returns the interpolation at the phase reached after `k` pulls. */
  lemma {:induction false} SamplesAt(table: seq<real>, index: real, increment: real, n: nat, k: nat)
    requires 0 < |table| && index < |table| as real && k < n
    ensures PhaseAfter(index, increment, |table|, k) < |table| as real
    ensures Samples(table, index, increment, n)[k] == Lerp(table, PhaseAfter(index, increment, |table|, k))
    decreases k
  {
    if 0 < k {
      SamplesAt(table, Advance(index, increment, |table|), increment, n - 1, k - 1);
    }
  }

  /** `a + b` pulls move the phase as `a` pulls followed by `b` pulls. */
  lemma {:induction false} PhaseAfterSplit(index: real, increment: real, len: nat, a: nat, b: nat)
    requires 0 < len
    ensures PhaseAfter(index, increment, len, a + b)
            == PhaseAfter(PhaseAfter(index, increment, len, a), increment, len, b)
    decreases a
  {
    if 0 < a {
      PhaseAfterSplit(Advance(index, increment, len), increment, len, a - 1, b);
    }
  }

  /** `a + b` pulls return the `a` first samples followed by the `b` samples
      pulled from the phase those `a` pulls reached. */
  lemma {:induction false} SamplesSplit(table: seq<real>, index: real, increment: real, a: nat, b: nat)
    requires 0 < |table| && index < |table| as real
    ensures PhaseAfter(index, increment, |table|, a) < |table| as real
    ensures Samples(table, index, increment, a + b)
            == Samples(table, index, increment, a)
               + Samples(table, PhaseAfter(index, increment, |table|, a), increment, b)
    decreases a
  {
    if 0 < a {
      var next := Advance(index, increment, |table|);
      SamplesSplit(table, next, increment, a - 1, b);
      assert Samples(table, index, increment, a + b)
             == [Lerp(table, index)] + Samples(table, next, increment, a - 1 + b);
    }
  }

  /** When `p` pulls bring the phase back to where it started, the stream
      repeats with period `p`. */
  lemma SamplesPeriodic(table: seq<real>, index: real, increment: real, p: nat, n: nat)
    requires 0 < |table| && index < |table| as real
    requires PhaseAfter(index, increment, |table|, p) == index
    ensures Samples(table, index, increment, p + n)
            == Samples(table, index, increment, p) + Samples(table, index, increment, n)
  {
    SamplesSplit(table, index, increment, p, n);
  }

  /** With increment 0 the phase never moves and every pull returns the same
      value. */
  lemma {:induction false} FrozenPhase(table: seq<real>, index: real, n: nat)
    requires 0 < |table| && -(|table| as real) < index < |table| as real
    ensures PhaseAfter(index, 0.0, |table|, n) == index
    ensures forall k :: 0 <= k < n ==> Samples(table, index, 0.0, n)[k] == Lerp(table, index)
    decreases n
  {
    if 0 < n {
      assert Advance(index, 0.0, |table|) == index;
      FrozenPhase(table, index, n - 1);
    }
  }

  /** With a whole-number increment from a whole-number phase, and before the
      phase wraps, the phase stays a whole number: `start + k * step`. */
  lemma {:induction false} WholeStepPhase(len: nat, start: nat, step: nat, k: nat)
    requires start + k * step < len
    ensures PhaseAfter(start as real, step as real, len, k) == (start + k * step) as real
    decreases k
  {
    if 0 < k {
      var ks := k * step;
      var km := (k - 1) * step;
      assert ks == km + step;
      assert Advance(start as real, step as real, len) == (start + step) as real;
      WholeStepPhase(len, start + step, step, k - 1);
    }
  }

  /** The product of two naturals is a natural, stated for the solver. */
  lemma NatProduct(a: nat, b: nat)
    ensures 0 <= a * b
  {
  }

  /** A pull made at a whole-number phase `position` returns exactly
      `table[position]`. */
  lemma SampleAtWholePhase(table: seq<real>, index: real, increment: real, n: nat, k: nat, position: nat)
    requires index < |table| as real && k < n && position < |table|
    requires PhaseAfter(index, increment, |table|, k) == position as real
    ensures Samples(table, index, increment, n)[k] == table[position]
  {
    SamplesAt(table, index, increment, n, k);
    LerpAtWholeIndex(table, position);
  }

  /** Whole-number stepping degenerates to exact table lookup: pull `k` returns
      the entry at `start + k * step`, with no interpolation error. */
  lemma {:induction false} WholeStepReadsTable(table: seq<real>, start: nat, step: nat, n: nat, k: nat)
    requires k < n && start + k * step < |table|
    ensures Samples(table, start as real, step as real, n)[k] == table[start + k * step]
  {
    var position := start + k * step;
    assert start <= position by { NatProduct(k, step); }
    WholeStepPhase(|table|, start, step, k);
    SampleAtWholePhase(table, start as real, step as real, n, k, position);
  }

  /** When `m` whole steps of size `step` make up exactly one table length, the
      phase returns to 0 after `m` pulls. */
  lemma WholeStepWrapsToStart(len: nat, step: nat, m: nat)
    requires 0 < len && m * step == len
    ensures PhaseAfter(0.0, step as real, len, m) == 0.0
  {
    assert 0 < m;
    var km := (m - 1) * step;
    assert km + step == len;
    WholeStepPhase(len, 0, step, m - 1);
    PhaseAfterSplit(0.0, step as real, len, m - 1, 1);
    assert PhaseAfter(0.0, step as real, len, m - 1) == (len - step) as real;
    assert Advance((len - step) as real, step as real, len) == 0.0;
  }

  /** When `m` whole steps of size `step` make up exactly one table length,
      the stream from phase 0 repeats with period `m`: whole-number steps that
      divide the length keep reproducing the same entries. */
  lemma WholeStepRepeats(table: seq<real>, step: nat, m: nat, n: nat)
    requires 0 < |table| && m * step == |table|
    ensures Samples(table, 0.0, step as real, m + n)
            == Samples(table, 0.0, step as real, m) + Samples(table, 0.0, step as real, n)
  {
    WholeStepWrapsToStart(|table|, step, m);
    SamplesPeriodic(table, 0.0, step as real, m, n);
  }

  /** With increment 1.0 from phase 0 the phase is back at 0 after one table
      length of pulls. */
  lemma UnitStepWraps(len: nat)
    requires 0 < len
    ensures PhaseAfter(0.0, 1.0, len, len) == 0.0
  {
    assert len * 1 == len;
    WholeStepWrapsToStart(len, 1, len);
  }

  /** With increment 1.0 from phase 0, the stream is the table in order and
      then the stream again from the start: it repeats the table forever. */
  lemma UnitStepRepeatsTable(table: seq<real>, n: nat)
    requires 0 < |table|
    ensures Samples(table, 0.0, 1.0, |table| + n) == table + Samples(table, 0.0, 1.0, n)
  {
    UnitStepWraps(|table|);
    UnitStepReadsTable(table);
    SamplesPeriodic(table, 0.0, 1.0, |table|, n);
  }

  /** With increment 1.0 from phase 0, one table length of pulls returns the
      table in order. */
  lemma UnitStepReadsTable(table: seq<real>)
    requires 0 < |table|
    ensures Samples(table, 0.0, 1.0, |table|) == table
  {
    var len := |table|;
    var samples := Samples(table, 0.0, 1.0, len);
    forall k | 0 <= k < len
      ensures samples[k] == table[k]
    {
      WholeStepReadsTable(table, 0, 1, len, k);
    }
  }

  /** The first pull after `new` returns the first table entry, whatever
      frequency has been set. */
  lemma FirstSampleIsTableStart(table: seq<real>, increment: real)
    requires 0 < |table|
    ensures Samples(table, 0.0, increment, 1) == [table[0]]
  {
    LerpAtWholeIndex(table, 0);
  }

  /** Forward playback of a table whose entries lie in `[lo, hi]` never leaves
      `[lo, hi]`. */
  lemma ForwardSamplesWithinLevels(table: seq<real>, index: real, increment: real, n: nat, lo: real, hi: real)
    requires 0 < |table| && 0.0 <= index < |table| as real && 0.0 <= increment
    requires forall i :: 0 <= i < |table| ==> lo <= table[i] <= hi
    ensures forall k :: 0 <= k < n ==> lo <= Samples(table, index, increment, n)[k] <= hi
  {
    forall k | 0 <= k < n
      ensures lo <= Samples(table, index, increment, n)[k] <= hi
    {
      SamplesAt(table, index, increment, n, k);
      ForwardPhaseInvariant(index, increment, |table|, k);
      LerpWithinLevels(table, PhaseAfter(index, increment, |table|, k), lo, hi);
    }
  }

  /** The reference set-up: the 64-entry square table at 44100 samples per
      second and 220 Hz. The increment is 220 * 64 / 44100, the first pull
      returns the low level, and the phase moves by that increment per pull
      without wrapping for the first pulls. */
  lemma ReferenceScenario()
    ensures IndexIncrement(220.0, WaveTableSize, 44100) == 14080.0 / 44100.0
    ensures Samples(SquareWaveTable(WaveTableSize), 0.0, IndexIncrement(220.0, WaveTableSize, 44100), 1) == [-1.0]
    ensures PhaseAfter(0.0, IndexIncrement(220.0, WaveTableSize, 44100), WaveTableSize, 3)
            == 3.0 * IndexIncrement(220.0, WaveTableSize, 44100)
  {
    var inc := IndexIncrement(220.0, WaveTableSize, 44100);
    assert inc == 14080.0 / 44100.0;
    FirstSampleIsTableStart(SquareWaveTable(WaveTableSize), inc);
    assert Advance(0.0, inc, WaveTableSize) == inc;
    assert Advance(inc, inc, WaveTableSize) == 2.0 * inc;
    assert Advance(2.0 * inc, inc, WaveTableSize) == 3.0 * inc;
  }

  /** Reverse playback as the Rust code does it: the truncated remainder leaves a
      negative phase, the truncation to `usize` saturates at 0, and the
      successor weight turns negative, so the output leaves the range of the
      table. With table [0.0, 1.0], increment -0.5 and phase 0.0 the second
      pull returns -0.5. */
  lemma ReversePlaybackExtrapolates()
    ensures PhaseAfter(0.0, -0.5, 2, 1) == -0.5
    ensures Samples([0.0, 1.0], 0.0, -0.5, 2) == [0.0, -0.5]
  {
    assert Advance(0.0, -0.5, 2) == -0.5;
    assert Lerp([0.0, 1.0], -0.5) == -0.5;
    LerpAtWholeIndex([0.0, 1.0], 0);
  }

  /** Pulls `n` samples from the object, one `GetSample` at a time. The
      samples and the final phase are those `Samples` and `PhaseAfter` give, so
      every lemma above holds of the object for any number of pulls. */
  method Pull(o: WaveTableOscillator, n: nat) returns (s: seq<real>)
    requires o.Ready()
    modifies o`index
    ensures s == Samples(o.waveTable, old(o.index), o.indexIncrement, n)
    ensures o.index == PhaseAfter(old(o.index), o.indexIncrement, |o.waveTable|, n)
    ensures o.Ready()
    ensures o.indexIncrement == old(o.indexIncrement) && o.waveTable == old(o.waveTable)
    ensures o.sampleRate == old(o.sampleRate)
  {
    ghost var start := o.index;
    s := [];
    var i := 0;
    while i < n
      invariant 0 <= i <= n
      invariant o.Ready()
      invariant o.indexIncrement == old(o.indexIncrement) && o.waveTable == old(o.waveTable)
      invariant o.sampleRate == old(o.sampleRate)
      invariant o.index == PhaseAfter(start, o.indexIncrement, |o.waveTable|, i)
      invariant s == Samples(o.waveTable, start, o.indexIncrement, i)
    {
      SamplesSplit(o.waveTable, start, o.indexIncrement, i, 1);
      PhaseAfterSplit(start, o.indexIncrement, |o.waveTable|, i, 1);
      var sample := o.GetSample();
      s := s + [sample];
      i := i + 1;
    }
  }

  /** Reverse playback of the square table stays at the low level: a negative
      phase reads entries 0 and 1, which are both -1.0, so the negative
      successor weight changes nothing. */
  lemma ReverseSquarePlaybackStaysLow(index: real)
    requires -(WaveTableSize as real) < index <= 0.0
    ensures Lerp(SquareWaveTable(WaveTableSize), index) == -1.0
  {
    var table := SquareWaveTable(WaveTableSize);
    assert TruncToUsize(index) == 0;
    assert table[0] == -1.0 && table[1] == -1.0;
  }

  /** The oscillator object driven as the program's entry point sets it up
      (square table, 44100 samples per second, 220 Hz), pulled three times:
      the samples are the first three of `Samples`, the first is the low level,
      and the object ends at the phase `PhaseAfter` predicts. */
  method ReferenceOscillator() returns (first: real, second: real, third: real, phase: real)
    ensures [first, second, third]
            == Samples(SquareWaveTable(WaveTableSize), 0.0, IndexIncrement(220.0, WaveTableSize, 44100), 3)
    ensures first == -1.0
    ensures phase == PhaseAfter(0.0, IndexIncrement(220.0, WaveTableSize, 44100), WaveTableSize, 3)
  {
    var table := SquareWave();
    var oscillator := new WaveTableOscillator(44100, table);
    oscillator.SetFrequency(220.0);
    ghost var inc := oscillator.indexIncrement;
    ghost var p1 := Advance(0.0, inc, WaveTableSize);
    ghost var p2 := Advance(p1, inc, WaveTableSize);
    first := oscillator.GetSample();
    second := oscillator.GetSample();
    third := oscillator.GetSample();
    phase := oscillator.index;
    assert Samples(table, p2, inc, 1) == [third];
    assert Samples(table, p1, inc, 2) == [second, third];
    assert PhaseAfter(p2, inc, WaveTableSize, 1) == phase;
    assert PhaseAfter(p1, inc, WaveTableSize, 2) == phase;
    FirstSampleIsTableStart(table, inc);
  }
}
