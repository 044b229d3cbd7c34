/** The significance filter (`filter_and_prepare_linelist`).

    A resolved line is kept when its observed wavelength lies in the closed wavelength range
    and it is significant: its local signal-to-noise ratio reaches the external threshold,
    or its peak flux exceeds three times that threshold. The local noise comes from two side
    windows of the continuum spectrum, just outside [observed - 2*sigma, observed + 2*sigma].
    A kept line carries the bound hints later used to build its parameter row.

    The per-window mean and standard deviation (numpy's `np.mean` / `np.std`, which need a
    square root) are the parameter `stats`; `None` stands for the NaN numpy returns for an
    empty window or a window holding a NaN. */
module SignificanceFilter {
  import opened SpectralTypes

  type NonNegReal = r: real | r >= 0.0

  /** Mean and standard deviation of a window's flux. */
  datatype Stats = Stats(mean: real, std: NonNegReal)

  /** A line that passed the filter, with its bound hints and its SNR. */
  datatype FilteredLine = FilteredLine(name: string, wavelength: real, sigma: real,
                                       minLoc: real, maxLoc: real, minSd: real, maxSd: real,
                                       maxFlux: real, snr: real)

  /** Default width of each side window. */
  const DefaultSideWindow: real := 10.0

  /** Sigma of a line: its FWHM over 2*sqrt(2*ln 2). */
  function SigmaOf(l: LineResult): real
  {
    l.fwhm / GaussSigmaDivisor
  }

  /** The flux of the continuum samples whose wavelength lies in [lo, hi], in order. */
  function WindowFlux(spec: seq<Sample>, lo: real, hi: real): seq<Flux>
  {
    var waves := seq(|spec|, i requires 0 <= i < |spec| => spec[i].wave);
    var fluxes := seq(|spec|, i requires 0 <= i < |spec| => spec[i].flux);
    Gather(fluxes, WindowIndices(waves, lo, hi))
  }

  /** The mean of two per-window statistics: NaN (None) as soon as either is NaN. */
  function PairMean(a: Option<Stats>, b: Option<Stats>): (r: Option<Stats>)
    ensures r.Some? <==> a.Some? && b.Some?
    ensures r.Some? ==> (r.value.std == 0.0 <==> a.value.std == 0.0 && b.value.std == 0.0)
  {
    if a.Some? && b.Some? then
      Some(Stats((a.value.mean + b.value.mean) / 2.0, (a.value.std + b.value.std) / 2.0))
    else None
  }

  /** The local statistics of a line: the average over its left window
      [minLoc - width, minLoc] and its right window [maxLoc, maxLoc + width]. */
  function LocalStats(l: LineResult, spec: seq<Sample>, width: real,
                      stats: seq<Flux> -> Option<Stats>): Option<Stats>
  {
    var sigma := SigmaOf(l);
    var minLoc := l.observed - 2.0 * sigma;
    var maxLoc := l.observed + 2.0 * sigma;
    PairMean(stats(WindowFlux(spec, minLoc - width, minLoc)),
             stats(WindowFlux(spec, maxLoc, maxLoc + width)))
  }

  /** `(peak - mean) / std` when the local std is > 0; the external threshold otherwise
      (a NaN or zero std fails `> 0`). */
  function Snr(peakFlux: real, local: Option<Stats>, snrExt: real): real
  {
    if local.Some? && local.value.std > 0.0 then (peakFlux - local.value.mean) / local.value.std
    else snrExt
  }

  predicate Significant(snr: real, peakFlux: real, snrExt: real)
  {
    snr >= snrExt || peakFlux > 3.0 * snrExt
  }

  /** The record kept for a line. */
  function Prepare(l: LineResult, snr: real): FilteredLine
  {
    var sigma := SigmaOf(l);
    FilteredLine(l.name, l.observed, sigma, l.observed - 2.0 * sigma, l.observed + 2.0 * sigma,
                 2.0, 1.5 * sigma, l.peakFlux, snr)
  }

  /** One iteration of the filter loop. */
  function Examine(l: LineResult, spec: seq<Sample>, lo: real, hi: real, snrExt: real, width: real,
                   stats: seq<Flux> -> Option<Stats>): (r: Option<FilteredLine>)
    ensures r.Some? <==>
      lo <= l.observed <= hi && Significant(Snr(l.peakFlux, LocalStats(l, spec, width, stats), snrExt), l.peakFlux, snrExt)
    ensures r.Some? ==> r.value.name == l.name && r.value.wavelength == l.observed && r.value.maxFlux == l.peakFlux
    ensures r.Some? && l.fwhm >= 0.0 ==>
      r.value.minLoc <= r.value.wavelength <= r.value.maxLoc && r.value.maxSd >= 0.0
  {
    if lo <= l.observed <= hi then
      var snr := Snr(l.peakFlux, LocalStats(l, spec, width, stats), snrExt);
      if Significant(snr, l.peakFlux, snrExt) then Some(Prepare(l, snr)) else None
    else None
  }

  /** `filter_and_prepare_linelist` over the closed wavelength range [lo, hi]. */
  function FilterLines(lines: seq<LineResult>, spec: seq<Sample>, lo: real, hi: real, snrExt: real,
                       width: real, stats: seq<Flux> -> Option<Stats>): seq<FilteredLine>
  {
    FilterMap(lines, l => Examine(l, spec, lo, hi, snrExt, width, stats))
  }

  /** The filter keeps exactly the in-range significant lines, in input order, each turned
      into its prepared record: `idx` lists the kept positions, increasing. */
  lemma FilterKeepsSignificantInOrder(lines: seq<LineResult>, spec: seq<Sample>, lo: real, hi: real,
                                      snrExt: real, width: real, stats: seq<Flux> -> Option<Stats>)
    returns (idx: seq<nat>)
    ensures var out := FilterLines(lines, spec, lo, hi, snrExt, width, stats);
      |idx| == |out| &&
      (forall j, k :: 0 <= j < k < |idx| ==> idx[j] < idx[k]) &&
      (forall j :: 0 <= j < |idx| ==>
         idx[j] < |lines| &&
         out[j] == Prepare(lines[idx[j]], Snr(lines[idx[j]].peakFlux, LocalStats(lines[idx[j]], spec, width, stats), snrExt))) &&
      (forall i :: 0 <= i < |lines| ==>
         (i in idx <==>
            lo <= lines[i].observed <= hi &&
            Significant(Snr(lines[i].peakFlux, LocalStats(lines[i], spec, width, stats), snrExt), lines[i].peakFlux, snrExt)))
  {
    var f := l => Examine(l, spec, lo, hi, snrExt, width, stats);
    idx := FilterMapSelects(lines, f);
  }

  /** Every kept line carries the bound hints of its sigma: location within +-2 sigma,
      width between 2.0 and 1.5 sigma, amplitude up to the peak flux; its wavelength is in
      range and, when its FWHM is not negative, between its location bounds. */
  lemma FilteredLinesCarryHints(lines: seq<LineResult>, spec: seq<Sample>, lo: real, hi: real,
                                snrExt: real, width: real, stats: seq<Flux> -> Option<Stats>)
    requires forall i :: 0 <= i < |lines| ==> lines[i].fwhm >= 0.0
    ensures forall f :: f in FilterLines(lines, spec, lo, hi, snrExt, width, stats) ==>
      lo <= f.wavelength <= hi &&
      f.minLoc == f.wavelength - 2.0 * f.sigma && f.maxLoc == f.wavelength + 2.0 * f.sigma &&
      f.minSd == 2.0 && f.maxSd == 1.5 * f.sigma && f.sigma >= 0.0 &&
      f.minLoc <= f.wavelength <= f.maxLoc
  {
    var idx := FilterKeepsSignificantInOrder(lines, spec, lo, hi, snrExt, width, stats);
    var out := FilterLines(lines, spec, lo, hi, snrExt, width, stats);
    forall f | f in out
      ensures lo <= f.wavelength <= hi
      ensures f.minLoc == f.wavelength - 2.0 * f.sigma && f.maxLoc == f.wavelength + 2.0 * f.sigma
      ensures f.minSd == 2.0 && f.maxSd == 1.5 * f.sigma && f.sigma >= 0.0
      ensures f.minLoc <= f.wavelength <= f.maxLoc
    {
      var j :| 0 <= j < |out| && out[j] == f;
      var i := idx[j];
      assert i in idx;
      assert lines[i].fwhm >= 0.0;
    }
  }

  /** A line in range whose local standard deviation is NaN or zero always passes, with the
      external threshold as its SNR: the fallback never drops a line. */
  lemma FlatBackgroundPasses(l: LineResult, spec: seq<Sample>, lo: real, hi: real, snrExt: real,
                             width: real, stats: seq<Flux> -> Option<Stats>)
    requires lo <= l.observed <= hi
    requires var local := LocalStats(l, spec, width, stats); local.None? || local.value.std == 0.0
    ensures var r := Examine(l, spec, lo, hi, snrExt, width, stats);
      r.Some? && r.value.snr == snrExt
  {
  }
}
