/**
 * Spectrum parameter packing (`FFTOcean_Script.FillSpectrumStruct` and `SetSpectrumBuffers`):
 * the eight statistical parameter sets configured on the ocean (two per cascade, four
 * cascades) are converted into the eight records the spectrum compute kernel reads.
 *
 * The empirical JONSWAP fits `JonswapAlpha` and `JonswapPeakFrequency` raise a float to a
 * non-integer power; they are taken here as given functions of `(fetch, windSpeed)`.
 */
module Spectrum {
  import opened Numerics

  /** `JONSWAP_DisplaySettings`: one parameter set as configured. */
  datatype DisplaySettings = DisplaySettings(
    scale: real,
    windSpeed: real,
    windDirection: real,
    fetch: real,
    spreadBlend: real,
    swell: real,
    peakEnhancement: real,
    shortWavesFade: real)

  /** `JONSWAP_ComputeSettings`: one parameter set as the compute kernel reads it. */
  datatype ComputeSettings = ComputeSettings(
    scale: real,
    angle: real,
    spreadBlend: real,
    swell: real,
    alpha: real,
    peakOmega: real,
    gamma: real,
    shortWavesFade: real)

  /** The two fetch-limited fits, each applied to `(fetch, windSpeed)` at the configured gravity. */
  datatype Fits = Fits(alpha: (real, real) -> real, peakOmega: (real, real) -> real)

  /** Number of parameter sets and of slots in the compute buffer. */
  const SlotCount: nat := 8

  /** `Mathf.PI`, the single-precision value nearest to pi. */
  const Pi: real := 3.14159274

  /** The range `swell` is clamped into. */
  const MinSwell: real := 0.01
  const MaxSwell: real := 1.0

  /** Wind direction in degrees to the kernel's angle in radians: `windDirection / 180 * PI`. */
  function WindAngle(degrees: real): (radians: real)
    ensures 0.0 <= degrees <= 360.0 ==> 0.0 <= radians <= 2.0 * Pi
    ensures degrees == 0.0 ==> radians == 0.0
    ensures degrees == 180.0 ==> radians == Pi
  {
    degrees / 180.0 * Pi
  }

  /** Radians back to degrees; the inverse of `WindAngle`. */
  function WindDegrees(radians: real): real {
    radians / Pi * 180.0
  }

  /** No direction information is lost: the angle determines the configured direction. */
  lemma WindAngleRoundTrip(degrees: real)
    ensures WindDegrees(WindAngle(degrees)) == degrees
  {
    var t := degrees / 180.0;
    assert t * Pi / Pi == t;
  }

  /** `FillSpectrumStruct`: every field of the compute record is overwritten; `scale`,
      `spreadBlend`, `peakEnhancement` (as `gamma`) and `shortWavesFade` are copied, `swell`
      is clamped into `[0.01, 1]`, the direction becomes an angle, and alpha and peak
      frequency come from the fits. */
  function FillSpectrumStruct(d: DisplaySettings, fits: Fits): (c: ComputeSettings)
    ensures c.scale == d.scale && c.spreadBlend == d.spreadBlend
    ensures c.gamma == d.peakEnhancement && c.shortWavesFade == d.shortWavesFade
    ensures MinSwell <= c.swell <= MaxSwell
    ensures MinSwell <= d.swell <= MaxSwell ==> c.swell == d.swell
    ensures d.swell < MinSwell ==> c.swell == MinSwell
    ensures MaxSwell < d.swell ==> c.swell == MaxSwell
    ensures WindDegrees(c.angle) == d.windDirection
    ensures c.alpha == fits.alpha(d.fetch, d.windSpeed)
    ensures c.peakOmega == fits.peakOmega(d.fetch, d.windSpeed)
  {
    WindAngleRoundTrip(d.windDirection);
    ComputeSettings(
      scale := d.scale,
      angle := WindAngle(d.windDirection),
      spreadBlend := d.spreadBlend,
      swell := Clamp(d.swell, MinSwell, MaxSwell),
      alpha := fits.alpha(d.fetch, d.windSpeed),
      peakOmega := fits.peakOmega(d.fetch, d.windSpeed),
      gamma := d.peakEnhancement,
      shortWavesFade := d.shortWavesFade)
  }

  /** The display settings a compute record was filled from, given the fetch and wind speed
      that only the fits consumed. */
  function RecoverDisplay(c: ComputeSettings, fetch: real, windSpeed: real): DisplaySettings {
    DisplaySettings(
      scale := c.scale,
      windSpeed := windSpeed,
      windDirection := WindDegrees(c.angle),
      fetch := fetch,
      spreadBlend := c.spreadBlend,
      swell := c.swell,
      peakEnhancement := c.gamma,
      shortWavesFade := c.shortWavesFade)
  }

  /** Packing loses nothing but an out-of-range `swell`: for a swell inside `[0.01, 1]` the
      display settings are recovered exactly, otherwise they are recovered with the swell
      clamped. */
  lemma FillSpectrumStructRoundTrip(d: DisplaySettings, fits: Fits)
    ensures MinSwell <= d.swell <= MaxSwell ==>
      RecoverDisplay(FillSpectrumStruct(d, fits), d.fetch, d.windSpeed) == d
    ensures RecoverDisplay(FillSpectrumStruct(d, fits), d.fetch, d.windSpeed)
      == d.(swell := Clamp(d.swell, MinSwell, MaxSwell))
  {
  }

  /** One `FillSpectrumStruct(DisplaySpectrum<i>, ref ComputeSpectrums[i])` call: slot `i`
      is replaced and no other slot changes. */
  function FillSlot(slots: seq<ComputeSettings>, i: nat, d: DisplaySettings, fits: Fits): (r: seq<ComputeSettings>)
    requires i < |slots|
    ensures |r| == |slots|
    ensures r[i] == FillSpectrumStruct(d, fits)
    ensures forall j :: 0 <= j < |slots| && j != i ==> r[j] == slots[j]
  {
    slots[i := FillSpectrumStruct(d, fits)]
  }

  /** `SetSpectrumBuffers`: the eight calls, slot `i` from parameter set `i`. Whatever the
      buffer held before, afterwards slot `i` is determined by parameter set `i` alone. */
  method SetSpectrumBuffers(display: seq<DisplaySettings>, slots: seq<ComputeSettings>, fits: Fits)
    returns (r: seq<ComputeSettings>)
    requires |display| == SlotCount && |slots| == SlotCount
    ensures |r| == SlotCount
    ensures forall i :: 0 <= i < SlotCount ==> r[i] == FillSpectrumStruct(display[i], fits)
  {
    r := slots;
    for i := 0 to SlotCount
      invariant |r| == SlotCount
      invariant forall j :: 0 <= j < i ==> r[j] == FillSpectrumStruct(display[j], fits)
    {
      r := FillSlot(r, i, display[i], fits);
    }
  }
}
