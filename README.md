# Wavetable oscillator (wt_synth) in Dafny

This project models the synthesis core of `wt_synth`, a toy audio player.
Two builders each fill a 64-entry table with one period of a waveform: a
square wave and a sine wave. A `WaveTableOscillator` then reads through such
a table. It keeps a fractional phase `index`, which moves by
`index_increment` table positions per sample and wraps around the table
length by Rust's float `%`. Each sample is linearly interpolated between
the entry at the truncated phase and the next entry. The oscillator is an
endless `Iterator` and an audio `Source` with constant metadata.

Modules, one per concern of `src/main.rs`:

- `RustNumeric` (`rust_numeric.dfy`): the Rust primitives the code depends
  on. These are `u16` and `u32`, the saturating cast `f32 as usize`, and
  the float remainder `%`. The remainder is defined through rounding toward
  zero (`Trunc`) as `x - trunc(x / y) * y`, and takes the sign of `x`.
- `WaveTables` (`wave_tables.dfy`): `square_wave` and `sine_wave` as loop
  methods. Each is proved equal to a table-valued function, and the
  table's properties are proved about that function.
- `Oscillator` (`oscillator.dfy`): `lerp`, the phase step, the increment
  formula, and the class `WaveTableOscillator`. Its fields are the
  struct's four fields. Each method's `modifies` frame names the one field
  that method changes.
- `Playback` (`playback.dfy`): the phase and the samples after any number
  of pulls (`PhaseAfter`, `Samples`), and the lemmas about long runs:
  the phase invariant, periodicity, frozen phase, exact lookup for
  whole-number steps, and the reference set-up. The method `Pull` drives
  the object itself for any number of pulls and is proved to match them.

`f32` values are `real`, so every result is the exact mathematical value;
no rounding is modelled. The sine function is a parameter `sin: real -> real`
of `SineWave`. PI is the exact value of `std::f32::consts::PI`.

Two consequences of the code that a reader might not expect:

- The phase stays in `[0, len)` only for a non-negative increment. With a
  negative one, once the sum reaches 0 or below (at once from phase 0,
  where `new` leaves it) the truncated `%` keeps the phase in `(-len, 0]`
  (`Playback.ReversePhaseInvariant`). A frequency made negative mid-stream
  leaves a positive phase positive until the sum first reaches 0. The
  model proves `(-len, len)` for every increment.
- `as usize` sends a negative phase to 0, so the successor weight
  `index - truncated_index` goes negative. The sample can then leave the
  range of the table when entries 0 and 1 differ
  (`Playback.ReversePlaybackExtrapolates`). For the square table both are
  -1.0, and the sample stays -1.0
  (`Playback.ReverseSquarePlaybackStaysLow`).

## Model

| member | source | states |
|---|---|---|
| `RustNumeric.Trunc` | src/main.rs:28 | rounding toward zero: for `x >= 0` the result is the largest whole number at or below `x`; for `x < 0` the smallest at or above it; 0 on `(-1, 1)` |
| `RustNumeric.TruncToUsize` | src/main.rs:33 | `f32 as usize`: negative values saturate to 0; for `x >= 0` the result `n` satisfies `n <= x < n + 1` |
| `RustNumeric.FRem` | src/main.rs:28 | float `%` for a positive divisor: a non-negative dividend gives a result in `[0, y)` equal to the floor-based remainder; a non-positive one gives `(-y, 0]`; a dividend in `(-y, y)` is returned unchanged; `y % y == 0` |
| `RustNumeric.FRemBounds` | src/main.rs:28 | the remainder `x - trunc(x/y)*y` lies less than one divisor from 0, on the side of the dividend's sign |
| `WaveTables.SquareWave` | src/main.rs:90-101 | the builder loop returns exactly the 64-entry square table `SquareWaveTable(64)` |
| `WaveTables.SquareWaveTable` | src/main.rs:93-99 | the square table has `size` entries, entry `n` being the level `SquareEntry(n, size)` |
| `WaveTables.SquareWaveLevels` | src/main.rs:94-98 | every entry is exactly -1.0 or 1.0; it is -1.0 iff `n <= size / 2`, and 1.0 iff `n > size / 2` |
| `WaveTables.SquareWavePrefixCount` | src/main.rs:93-99 | the first `k` entries hold `min(k, size/2 + 1)` low entries and the rest high ones |
| `WaveTables.SquareWaveDutyCycle` | src/main.rs:94 | the low level takes `size/2 + 1` entries and the high level `size - size/2 - 1`; the midpoint belongs to the low half |
| `WaveTables.SquareWaveOf64` | src/main.rs:91-99 | in the 64-entry table, entry 32 is -1.0 and entry 33 is 1.0; there are 33 low and 31 high entries |
| `WaveTables.SineWave` | src/main.rs:81-88 | the builder loop returns exactly the 64-entry sine table `SineWaveTable(sin, 64)` |
| `WaveTables.SineWaveTable` | src/main.rs:84-86 | the sine table has `size` entries, entry `n` being `sin(2*PI*n/size)` |
| `WaveTables.SineAnglesSpanOnePeriod` | src/main.rs:85 | the sampled angles start at 0, are `2*PI/size` apart and stay below `2*PI`: one period, sampled uniformly |
| `WaveTables.SineWaveStartsAtZero` | src/main.rs:85 | for a sine with `sin(0) == 0`, the first entry is 0 |
| `Oscillator.NextIndex` | src/main.rs:34 | the neighbour position is in bounds; it is `i + 1` unless `i` is the last position, in which case it wraps to 0 |
| `Oscillator.Lerp` | src/main.rs:32-41 | callable exactly when `lerp` does not panic (non-empty table, phase below its length); for a non-negative phase the sample lies between the two neighbouring entries |
| `Oscillator.LerpReadsInBounds` | src/main.rs:33-37 | for a phase in `[0, len)`: the truncated position and its wrapping successor are below `len`, and the successor weight is in `[0, 1)` |
| `Oscillator.LerpAtWholeIndex` | src/main.rs:36-40 | at a whole-number phase `k` interpolation returns exactly `table[k]` |
| `Oscillator.LerpMidpoint` | src/main.rs:36-40 | at phase 0.5 the sample is `(table[0] + table[1]) / 2` |
| `Oscillator.LerpWithinLevels` | src/main.rs:36-40 | for a non-negative phase, bounds that hold for every entry hold for the sample: no overshoot |
| `Oscillator.Advance` | src/main.rs:27-28 | the stepped and wrapped phase lies in `(-len, len)` for any increment; it is non-negative when the unwrapped sum is; it equals the sum when that is already inside `(-len, len)`; reaching `len` exactly wraps to 0 |
| `Oscillator.IndexIncrement` | src/main.rs:22 | `increment * sample_rate == frequency * len`, so one second of samples moves the phase through `frequency` tables; a non-negative frequency gives a non-negative increment, and for a non-empty table a negative one gives a negative increment |
| `Oscillator.WaveTableOscillator.constructor` | src/main.rs:13-20 | the rate and the table are kept as passed; phase and increment start at 0; with a non-empty table the phase is in range |
| `Oscillator.WaveTableOscillator.SetFrequency` | src/main.rs:21-23 | sets the increment to `IndexIncrement(frequency, len, sample_rate)`; phase, table and rate unchanged; only that field is in the frame |
| `Oscillator.WaveTableOscillator.GetSample` | src/main.rs:25-30 | returns `Lerp` at the phase before the call; the new phase is `Advance` of the old one; increment, table and rate unchanged; the no-panic state is kept for any increment; `[0, len)` is kept when the increment is non-negative |
| `Oscillator.WaveTableOscillator.Next` | src/main.rs:47-49 | always `Some` of the sample `GetSample` yields, with the same state change: the no-panic state is kept, and `[0, len)` is kept for a non-negative increment |
| `Oscillator.WaveTableOscillator.CurrentFrameLen` | src/main.rs:53-55 | no frame length: `None` |
| `Oscillator.WaveTableOscillator.Channels` | src/main.rs:57-59 | one channel |
| `Oscillator.WaveTableOscillator.SampleRate` | src/main.rs:61-63 | echoes the stored sample rate |
| `Oscillator.WaveTableOscillator.TotalDuration` | src/main.rs:65-67 | no total duration: `None` |
| `Playback.PhaseAfter` | src/main.rs:27-28 | after at least one pull the phase lies in `(-len, len)` whatever the increment, so repeated pulls never make `lerp` read out of bounds |
| `Playback.Samples` | src/main.rs:25-30 | `n` pulls yield `n` samples |
| `Playback.ForwardPhaseInvariant` | src/main.rs:27-28 | from a phase in `[0, len)` with a non-negative increment, the phase stays in `[0, len)` after any number of pulls |
| `Playback.ReversePhaseInvariant` | src/main.rs:27-28 | from a phase in `(-len, 0]` with a non-positive increment, the phase stays in `(-len, 0]` after any number of pulls |
| `Playback.SamplesAt` | src/main.rs:26-28 | pull `k` returns the interpolation at the phase reached after `k` pulls |
| `Playback.PhaseAfterSplit` | src/main.rs:27-28 | `a + b` pulls move the phase as `a` pulls followed by `b` pulls |
| `Playback.SamplesSplit` | src/main.rs:25-30 | the samples of `a + b` pulls are those of `a` pulls followed by those of `b` pulls from the phase reached |
| `Playback.SamplesPeriodic` | src/main.rs:25-30 | if `p` pulls return the phase to its start, the stream repeats with period `p` |
| `Playback.FrozenPhase` | src/main.rs:26-28 | with increment 0 the phase never moves and every pull returns the same value |
| `Playback.WholeStepPhase` | src/main.rs:27-28 | with a whole-number phase and increment, before wrapping, the phase after `k` pulls is `start + k * step` |
| `Playback.SampleAtWholePhase` | src/main.rs:32-40 | a pull made at a whole-number phase `p` returns exactly `table[p]` |
| `Playback.WholeStepReadsTable` | src/main.rs:26-40 | with a whole-number phase and increment, pull `k` returns exactly `table[start + k * step]`, with no interpolation error |
| `Playback.WholeStepWrapsToStart` | src/main.rs:27-28 | when `m` whole steps make up exactly one table length, the phase is back at 0 after `m` pulls |
| `Playback.WholeStepRepeats` | src/main.rs:25-30 | when `m` whole steps make up exactly one table length, the stream from phase 0 repeats with period `m` |
| `Playback.UnitStepReadsTable` | src/main.rs:25-40 | with increment 1.0 from phase 0, one table length of pulls returns the table in order |
| `Playback.UnitStepWraps` | src/main.rs:27-28 | with increment 1.0 from phase 0 the phase is back at exactly 0 after `len` pulls |
| `Playback.UnitStepRepeatsTable` | src/main.rs:25-30 | with increment 1.0 from phase 0, `len + n` pulls return the whole table followed by the first `n` samples again: the stream repeats the table |
| `Playback.FirstSampleIsTableStart` | src/main.rs:17 | from phase 0, as `new` leaves it, the first pull returns `table[0]` whatever the increment |
| `Playback.ForwardSamplesWithinLevels` | src/main.rs:25-40 | in forward playback every sample stays within bounds that hold for all table entries |
| `Playback.ReferenceScenario` | src/main.rs:71-73 | for the square table at 44100 Hz and 220 Hz the increment is `220*64/44100`, the first sample is -1.0, and after 3 pulls the phase is 3 increments |
| `Playback.ReversePlaybackExtrapolates` | src/main.rs:28-37 | for table [0, 1] with increment -0.5 from phase 0, the phase becomes -0.5 and the samples are [0, -0.5], outside the table's range |
| `Playback.ReverseSquarePlaybackStaysLow` | src/main.rs:33-40 | for the square table at any phase in `(-len, 0]` the sample is exactly -1.0: reverse playback does not leave its range |
| `Playback.ReferenceOscillator` | src/main.rs:71-73 | the object set up as the entry point sets it up, pulled three times, returns the first three `Samples` (the first one -1.0) and ends at the phase `PhaseAfter` gives |
| `Playback.Pull` | src/main.rs:25-30 | `n` successive `get_sample` calls on the object return `Samples` of its phase and increment and leave it at `PhaseAfter`; only the phase changes and the no-panic state is kept |

## Left out

- `main` (src/main.rs:70-79) opens an audio device, plays the stream,
  sleeps and prints. That is device I/O and calls into the `rodio`
  crate. Only its set-up (table, rate, frequency) appears, in
  `Playback.ReferenceScenario` and `Playback.ReferenceOscillator`.
- IEEE-754 `f32` rounding. Every value is a `real`. Rounding effects do
  not appear: an inexact `frequency * len / sample_rate`, phase drift
  over many pulls, and the `u32` to `f32` conversion of a large rate.
- The value of `sin` (src/main.rs:85). It is a floating-point library
  function and is a parameter here. Only the table's length, its order
  and the angles sampled are proved.
- NaN and infinities. A `real` is never NaN or infinite. In the Rust
  code, three inputs make the increment NaN or infinite: a zero sample
  rate (`x / 0.0`), a NaN or infinite frequency, and a frequency large
  enough that `frequency * len` overflows `f32`. The next float `%` then
  makes the phase NaN, and every later sample is NaN. The model has none
  of these states, and `SetFrequency` requires a positive rate. An empty
  table makes `lerp`'s `usize` `%` panic before the float `%` is reached,
  so `GetSample`, `Next` and `Lerp` require a non-empty table.
- RustNumeric.TruncToUsize: does not model the saturation at
  `usize::MAX`, because every phase it is applied to is below the table
  length.
- Oscillator.WaveTableOscillator.GetSample: promises `[0, len)` only for a
  non-negative increment. For a negative one it promises only
  `(-len, len)`, which is what the code does.
- `Vec::with_capacity` and the `Iterator`/`Source` methods the traits
  provide by default (`convert_samples` and the adaptors). These are
  library code, not part of this program.
