/** Emission-line detection and continuum masking (`analyze_emission_lines`).

    For every catalog entry with a rest wavelength, the samples inside the closed window
    [rest - window, rest + window] are examined; among the peaks the peak finder reports
    in that window, the one whose wavelength is closest to the rest wavelength is matched,
    the earliest winning ties. Each matched line then blanks the samples within
    fwhm/2 + 3*sigma of its observed wavelength: their continuum-mask bits are cleared and
    their flux is replaced by a substitute value.

    The peak finder, the width finder and the random substitute values are parameters:
    - `findPeaks` maps a window's flux to the positions of its peaks (scipy's find_peaks);
    - `fwhmAt` maps a peak's position in the full spectrum to its FWHM in wavelength units
      (peak_widths followed by the interpolation back to wavelengths);
    - `draw(j, i)` is the normal deviate substituted at sample i while masking the j-th
      matched line. */
module LineDetection {
  import opened SpectralTypes

  /** A catalog entry matched to a peak of the spectrum. */
  datatype Match = Match(name: string, rest: real, observed: real, peakFlux: real, peakIdx: nat)

  /** Default half-width of the search window around a rest wavelength. */
  const DefaultWindow: real := 20.0

  function Dist(a: real, b: real): real
  {
    if a < b then b - a else a - b
  }

  /** What the model relies on from the peak finder: every reported peak is a position of
      the window, and a NaN sample is never a peak (a NaN compares false with its neighbours). */
  ghost predicate PeakFinder(findPeaks: seq<Flux> -> seq<nat>)
  {
    forall w: seq<Flux> ::
      forall k :: 0 <= k < |findPeaks(w)| ==> findPeaks(w)[k] < |w| && w[findPeaks(w)[k]].Value?
  }

  // ---------------------------------------------------------------------------------------
  // Closest-peak selection
  // ---------------------------------------------------------------------------------------

  /** The peak the scan selects: the running minimum of the distance to `rest`, replaced
      only on a strictly smaller distance. */
  function ClosestPeak(ww: seq<real>, rest: real, peaks: seq<nat>): (r: Option<nat>)
    requires forall k :: 0 <= k < |peaks| ==> peaks[k] < |ww|
    ensures r.None? <==> peaks == []
    ensures r.Some? ==> r.value in peaks && r.value < |ww|
  {
    if peaks == [] then None
    else
      var n := |peaks| - 1;
      var prev := ClosestPeak(ww, rest, peaks[..n]);
      var p := peaks[n];
      if prev.None? || Dist(ww[p], rest) < Dist(ww[prev.value], rest) then Some(p) else prev
  }

  /** The selected peak is nearest to `rest` among all peaks, and every peak listed before
      it is strictly farther: ties go to the earliest peak. */
  lemma {:induction false} ClosestPeakIsNearest(ww: seq<real>, rest: real, peaks: seq<nat>)
    requires forall k :: 0 <= k < |peaks| ==> peaks[k] < |ww|
    ensures var r := ClosestPeak(ww, rest, peaks);
      r.Some? ==>
        (forall j :: 0 <= j < |peaks| ==> Dist(ww[r.value], rest) <= Dist(ww[peaks[j]], rest)) &&
        exists k :: 0 <= k < |peaks| && peaks[k] == r.value &&
          forall j :: 0 <= j < k ==> Dist(ww[r.value], rest) < Dist(ww[peaks[j]], rest)
  {
    if peaks != [] {
      var n := |peaks| - 1;
      var pre := peaks[..n];
      ClosestPeakIsNearest(ww, rest, pre);
      var prev := ClosestPeak(ww, rest, pre);
      var p := peaks[n];
      var r := ClosestPeak(ww, rest, peaks).value;
      var d := Dist(ww[r], rest);
      if prev.None? || Dist(ww[p], rest) < Dist(ww[prev.value], rest) {
        assert r == p;
        forall j | 0 <= j < |peaks|
          ensures d <= Dist(ww[peaks[j]], rest)
        {
          if j < n {
            assert pre[j] == peaks[j];
          }
        }
        forall j | 0 <= j < n
          ensures d < Dist(ww[peaks[j]], rest)
        {
          assert pre[j] == peaks[j];
        }
      } else {
        assert r == prev.value;
        forall j | 0 <= j < |peaks|
          ensures d <= Dist(ww[peaks[j]], rest)
        {
          if j < n {
            assert pre[j] == peaks[j];
          }
        }
        var k :| 0 <= k < |pre| && pre[k] == r &&
          forall j :: 0 <= j < k ==> d < Dist(ww[pre[j]], rest);
        forall j | 0 <= j < k
          ensures d < Dist(ww[peaks[j]], rest)
        {
          assert pre[j] == peaks[j];
        }
        assert peaks[k] == r;
      }
    }
  }


  /** The `min_diff` / `closest_peak_idx` scan over the peaks of one window. */
  method ScanClosestPeak(ww: seq<real>, rest: real, peaks: seq<nat>) returns (best: Option<nat>)
    requires forall k :: 0 <= k < |peaks| ==> peaks[k] < |ww|
    ensures best == ClosestPeak(ww, rest, peaks)
  {
    best := None;
    var minDiff: Option<real> := None;  // None stands for the initial float('inf')
    var i := 0;
    while i < |peaks|
      invariant 0 <= i <= |peaks|
      invariant best == ClosestPeak(ww, rest, peaks[..i])
      invariant best.Some? ==> best.value < |ww|
      invariant minDiff == if best.None? then None else Some(Dist(ww[best.value], rest))
    {
      assert peaks[..i + 1][..i] == peaks[..i];
      var p := peaks[i];
      var diff := Dist(ww[p], rest);
      if minDiff.None? || diff < minDiff.value {
        minDiff := Some(diff);
        best := Some(p);
      }
      i := i + 1;
    }
    assert peaks[..|peaks|] == peaks;
  }

  // ---------------------------------------------------------------------------------------
  // Matching the catalog
  // ---------------------------------------------------------------------------------------

  /** The peak selected in a window is nearest to `rest` among the spectrum samples the
      window's peaks stand for. */
  lemma NearestInWindow(x: seq<real>, idx: seq<nat>, ww: seq<real>, rest: real, peaks: seq<nat>)
    requires forall k :: 0 <= k < |idx| ==> idx[k] < |x|
    requires ww == Gather(x, idx)
    requires forall k :: 0 <= k < |peaks| ==> peaks[k] < |idx|
    requires ClosestPeak(ww, rest, peaks).Some?
    ensures forall k :: 0 <= k < |peaks| ==>
      Dist(ww[ClosestPeak(ww, rest, peaks).value], rest) <= Dist(x[idx[peaks[k]]], rest)
  {
    ClosestPeakIsNearest(ww, rest, peaks);
    forall k | 0 <= k < |peaks|
      ensures Dist(ww[ClosestPeak(ww, rest, peaks).value], rest) <= Dist(x[idx[peaks[k]]], rest)
    {
      assert ww[peaks[k]] == x[idx[peaks[k]]];
    }
  }

  /** The match one catalog entry yields, if any. */
  function MatchEntry(x: seq<real>, y: seq<Flux>, e: CatalogEntry, window: real,
                      findPeaks: seq<Flux> -> seq<nat>): (r: Option<Match>)
    requires |x| == |y| && PeakFinder(findPeaks)
    ensures e.rest.None? ==> r.None?
    ensures e.rest.Some? && WindowIndices(x, e.rest.value - window, e.rest.value + window) == [] ==> r.None?
    ensures r.Some? ==>
      e.rest == Some(r.value.rest) && r.value.name == e.name &&
      r.value.rest - window <= r.value.observed <= r.value.rest + window &&
      r.value.peakIdx < |x| && x[r.value.peakIdx] == r.value.observed &&
      forall i :: 0 <= i < r.value.peakIdx ==> x[i] != r.value.observed
    ensures e.rest.Some? ==>
      var idx := WindowIndices(x, e.rest.value - window, e.rest.value + window);
      var peaks := findPeaks(Gather(y, idx));
      idx != [] ==>
        (r.Some? <==> peaks != []) &&
        (r.Some? ==>
          var p := ClosestPeak(Gather(x, idx), e.rest.value, peaks);
          p.Some? && p.value < |idx| &&
          r.value.observed == x[idx[p.value]] && y[idx[p.value]] == Value(r.value.peakFlux)) &&
        (r.Some? ==> forall k :: 0 <= k < |peaks| ==>
          peaks[k] < |idx| && Dist(r.value.observed, r.value.rest) <= Dist(x[idx[peaks[k]]], r.value.rest))
  {
    match e.rest
    case None => None
    case Some(rest) =>
      var idx := WindowIndices(x, rest - window, rest + window);
      if |idx| == 0 then None
      else
        var ww := Gather(x, idx);
        var wf := Gather(y, idx);
        var peaks := findPeaks(wf);
        match ClosestPeak(ww, rest, peaks)
        case None => None
        case Some(p) =>
          assert x[idx[p]] == ww[p] && y[idx[p]] == wf[p];
          NearestInWindow(x, idx, ww, rest, peaks);
          Some(Match(e.name, rest, ww[p], wf[p].v, FirstIndex(x, ww[p])))
  }

  /** The matched lines, one per catalog entry at most, in catalog order. */
  function MatchAll(x: seq<real>, y: seq<Flux>, catalog: seq<CatalogEntry>, window: real,
                    findPeaks: seq<Flux> -> seq<nat>): seq<Match>
    requires |x| == |y| && PeakFinder(findPeaks)
  {
    FilterMap(catalog, e => MatchEntry(x, y, e, window, findPeaks))
  }

  /** Each matched line comes from its own catalog entry, entries are visited in catalog
      order, and an entry that yields no match contributes nothing. */
  lemma MatchesFollowCatalog(x: seq<real>, y: seq<Flux>, catalog: seq<CatalogEntry>, window: real,
                             findPeaks: seq<Flux> -> seq<nat>) returns (idx: seq<nat>)
    requires |x| == |y| && PeakFinder(findPeaks)
    ensures var ms := MatchAll(x, y, catalog, window, findPeaks);
      |idx| == |ms| &&
      (forall j :: 0 <= j < |idx| ==>
         idx[j] < |catalog| && MatchEntry(x, y, catalog[idx[j]], window, findPeaks) == Some(ms[j])) &&
      (forall j, k :: 0 <= j < k < |idx| ==> idx[j] < idx[k]) &&
      (forall i :: 0 <= i < |catalog| ==>
         (MatchEntry(x, y, catalog[i], window, findPeaks).Some? <==> i in idx))
  {
    idx := FilterMapSelects(catalog, e => MatchEntry(x, y, e, window, findPeaks));
  }

  /** Extending the catalog by one entry appends that entry's match, if any. */
  lemma MatchAllStep(x: seq<real>, y: seq<Flux>, catalog: seq<CatalogEntry>, window: real,
                     findPeaks: seq<Flux> -> seq<nat>, k: nat)
    requires |x| == |y| && PeakFinder(findPeaks) && k < |catalog|
    ensures MatchAll(x, y, catalog[..k + 1], window, findPeaks) ==
      MatchAll(x, y, catalog[..k], window, findPeaks) +
      match MatchEntry(x, y, catalog[k], window, findPeaks)
      case None => []
      case Some(m) => [m]
  {
    assert catalog[..k + 1][..k] == catalog[..k];
  }

  /** One iteration of the catalog loop: the window, the peak scan and the match record. */
  method MatchOne(x: seq<real>, y: seq<Flux>, e: CatalogEntry, window: real,
                  findPeaks: seq<Flux> -> seq<nat>) returns (found: Option<Match>)
    requires |x| == |y| && PeakFinder(findPeaks)
    ensures found == MatchEntry(x, y, e, window, findPeaks)
  {
    found := None;
    if e.rest.Some? {
      var rest := e.rest.value;
      var idx := WindowIndices(x, rest - window, rest + window);
      if |idx| > 0 {
        var ww := Gather(x, idx);
        var wf := Gather(y, idx);
        var peaks := findPeaks(wf);
        var best := ScanClosestPeak(ww, rest, peaks);
        if best.Some? {
          var p := best.value;
          assert x[idx[p]] == ww[p];
          found := Some(Match(e.name, rest, ww[p], wf[p].v, FirstIndex(x, ww[p])));
        }
      }
    }
  }

  /** The loop over the catalog that builds `matched_lines`. */
  method MatchCatalog(x: seq<real>, y: seq<Flux>, catalog: seq<CatalogEntry>, window: real,
                      findPeaks: seq<Flux> -> seq<nat>) returns (matched: seq<Match>)
    requires |x| == |y| && PeakFinder(findPeaks)
    ensures matched == MatchAll(x, y, catalog, window, findPeaks)
  {
    matched := [];
    for k := 0 to |catalog|
      invariant matched == MatchAll(x, y, catalog[..k], window, findPeaks)
    {
      var found := MatchOne(x, y, catalog[k], window, findPeaks);
      MatchAllStep(x, y, catalog, window, findPeaks, k);
      if found.Some? {
        matched := matched + [found.value];
      }
    }
    assert catalog[..|catalog|] == catalog;
  }

  // ---------------------------------------------------------------------------------------
  // Continuum masking
  // ---------------------------------------------------------------------------------------

  /** A matched line with its FWHM attached (the `results` entries). */
  function Resolve(m: Match, fwhmAt: nat -> real): LineResult
  {
    LineResult(m.name, m.rest, m.observed, fwhmAt(m.peakIdx), m.peakFlux)
  }

  function ResolveAll(ms: seq<Match>, fwhmAt: nat -> real): seq<LineResult>
  {
    seq(|ms|, i requires 0 <= i < |ms| => Resolve(ms[i], fwhmAt))
  }

  /** Lower edge of a line's blanked window: observed - fwhm/2 - 3*sigma, sigma = fwhm/2.355. */
  function MaskLo(r: LineResult): real
  {
    r.observed - r.fwhm / 2.0 - 3.0 * (r.fwhm / PeakSigmaDivisor)
  }

  /** Upper edge of a line's blanked window: observed + fwhm/2 + 3*sigma. */
  function MaskHi(r: LineResult): real
  {
    r.observed + r.fwhm / 2.0 + 3.0 * (r.fwhm / PeakSigmaDivisor)
  }

  predicate InLineWindow(xv: real, r: LineResult)
  {
    MaskLo(r) <= xv <= MaskHi(r)
  }

  /** Whether wavelength `xv` lies in the blanked window of some line of `rs`. */
  predicate Covered(xv: real, rs: seq<LineResult>)
  {
    exists j :: 0 <= j < |rs| && InLineWindow(xv, rs[j])
  }

  predicate AllNaN(y: seq<Flux>)
  {
    forall i :: 0 <= i < |y| ==> y[i].NaN?
  }

  /** The copy of the flux the masking starts from: zeros when every sample is NaN. */
  function InitialSynthetic(y: seq<Flux>): seq<Flux>
  {
    if AllNaN(y) then seq(|y|, _ => Value(0.0)) else y
  }

  /** Whether some sample outside the line's window has a number (not NaN) as flux. */
  predicate HasValidOutside(x: seq<real>, y: seq<Flux>, r: LineResult)
    requires |x| == |y|
  {
    exists i :: 0 <= i < |x| && !InLineWindow(x[i], r) && y[i].Value?
  }

  /** The flux written at sample `i` while blanking the `j`-th line: a draw when valid flux
      remains outside the window, otherwise zero. */
  function Substitute(x: seq<real>, y: seq<Flux>, r: LineResult, j: nat,
                      draw: (nat, nat) -> real, i: nat): Flux
    requires |x| == |y|
  {
    if HasValidOutside(x, y, r) then Value(draw(j, i)) else Value(0.0)
  }

  /** `continuum_mask &= ~mask` for one line. */
  function MaskLine(m: seq<bool>, x: seq<real>, r: LineResult): seq<bool>
    requires |m| == |x|
  {
    seq(|m|, i requires 0 <= i < |m| => m[i] && !InLineWindow(x[i], r))
  }

  /** `synthetic_flux[mask] = ...` for the `j`-th line. */
  function BlankLine(s: seq<Flux>, x: seq<real>, y: seq<Flux>, r: LineResult, j: nat,
                     draw: (nat, nat) -> real): seq<Flux>
    requires |s| == |x| == |y|
  {
    seq(|s|, i requires 0 <= i < |s| => if InLineWindow(x[i], r) then Substitute(x, y, r, j, draw, i) else s[i])
  }

  /** The mask after every line of `rs` has been applied, in order. */
  function MaskAll(m: seq<bool>, x: seq<real>, rs: seq<LineResult>): (r: seq<bool>)
    requires |m| == |x|
    ensures |r| == |m|
  {
    if rs == [] then m
    else
      var n := |rs| - 1;
      MaskLine(MaskAll(m, x, rs[..n]), x, rs[n])
  }

  /** The substitute flux after every line of `rs` has been blanked, in order. */
  function BlankAll(s: seq<Flux>, x: seq<real>, y: seq<Flux>, rs: seq<LineResult>,
                    draw: (nat, nat) -> real): (r: seq<Flux>)
    requires |s| == |x| == |y|
    ensures |r| == |s|
  {
    if rs == [] then s
    else
      var n := |rs| - 1;
      BlankLine(BlankAll(s, x, y, rs[..n], draw), x, y, rs[n], n, draw)
  }

  /** A mask bit survives exactly when it was set before and no line's window covers the
      sample; in particular a cleared bit is never set again. */
  lemma {:induction false} MaskAllClearsWindows(m: seq<bool>, x: seq<real>, rs: seq<LineResult>, i: nat)
    requires |m| == |x| && i < |m|
    ensures MaskAll(m, x, rs)[i] == (m[i] && !Covered(x[i], rs))
  {
    if rs != [] {
      var n := |rs| - 1;
      MaskAllClearsWindows(m, x, rs[..n], i);
      assert forall j :: 0 <= j < n ==> rs[..n][j] == rs[j];
      if Covered(x[i], rs) && !InLineWindow(x[i], rs[n]) {
        var j :| 0 <= j < |rs| && InLineWindow(x[i], rs[j]);
        assert Covered(x[i], rs[..n]);
      }
    }
  }

  /** Blanking leaves every sample outside all windows untouched, and leaves a number
      (never NaN) at every sample inside some window. */
  lemma {:induction false} BlankAllOutsideWindows(s: seq<Flux>, x: seq<real>, y: seq<Flux>,
                                                  rs: seq<LineResult>, draw: (nat, nat) -> real, i: nat)
    requires |s| == |x| == |y| && i < |s|
    ensures !Covered(x[i], rs) ==> BlankAll(s, x, y, rs, draw)[i] == s[i]
    ensures Covered(x[i], rs) ==> BlankAll(s, x, y, rs, draw)[i].Value?
  {
    if rs != [] {
      var n := |rs| - 1;
      BlankAllOutsideWindows(s, x, y, rs[..n], draw, i);
      assert forall j :: 0 <= j < n ==> rs[..n][j] == rs[j];
      if Covered(x[i], rs) && !InLineWindow(x[i], rs[n]) {
        var j :| 0 <= j < |rs| && InLineWindow(x[i], rs[j]);
        assert Covered(x[i], rs[..n]);
      }
      if !Covered(x[i], rs) {
        assert !InLineWindow(x[i], rs[n]);
        assert !Covered(x[i], rs[..n]);
      }
    }
  }

  /** Clears the mask bits and overwrites the substitute flux of the samples in the
      `j`-th line's window, in place. */
  method BlankWindow(synthetic: array<Flux>, mask: array<bool>, x: seq<real>, y: seq<Flux>,
                     r: LineResult, j: nat, draw: (nat, nat) -> real)
    requires synthetic.Length == mask.Length == |x| == |y|
    modifies synthetic, mask
    ensures mask[..] == MaskLine(old(mask[..]), x, r)
    ensures synthetic[..] == BlankLine(old(synthetic[..]), x, y, r, j, draw)
  {
    var valid := HasValidOutside(x, y, r);
    var k := 0;
    while k < |x|
      invariant 0 <= k <= |x|
      invariant forall i :: 0 <= i < k ==> mask[i] == (old(mask[i]) && !InLineWindow(x[i], r))
      invariant forall i :: k <= i < |x| ==> mask[i] == old(mask[i])
      invariant forall i :: 0 <= i < k ==>
        synthetic[i] == if InLineWindow(x[i], r) then Substitute(x, y, r, j, draw, i) else old(synthetic[i])
      invariant forall i :: k <= i < |x| ==> synthetic[i] == old(synthetic[i])
    {
      if InLineWindow(x[k], r) {
        mask[k] := false;
        synthetic[k] := if valid then Value(draw(j, k)) else Value(0.0);
      }
      k := k + 1;
    }
  }

  /** `analyze_emission_lines`: the resolved lines in catalog order, the continuum spectrum
      (wavelength and substitute flux), and the continuum mask. */
  method AnalyzeEmissionLines(x: seq<real>, y: seq<Flux>, catalog: seq<CatalogEntry>, window: real,
                              findPeaks: seq<Flux> -> seq<nat>, fwhmAt: nat -> real,
                              draw: (nat, nat) -> real)
    returns (results: seq<LineResult>, continuum: seq<Sample>, continuumMask: seq<bool>)
    requires |x| == |y| && PeakFinder(findPeaks)
    ensures results == ResolveAll(MatchAll(x, y, catalog, window, findPeaks), fwhmAt)
    ensures continuumMask == MaskAll(seq(|x|, _ => true), x, results)
    ensures |continuum| == |x|
    ensures forall i :: 0 <= i < |x| ==>
      continuum[i] == Sample(x[i], BlankAll(InitialSynthetic(y), x, y, results, draw)[i])
    ensures forall i :: 0 <= i < |x| ==> continuumMask[i] == !Covered(x[i], results)
    ensures forall i :: 0 <= i < |x| && !Covered(x[i], results) ==>
      continuum[i].flux == InitialSynthetic(y)[i]
  {
    var matched := MatchCatalog(x, y, catalog, window, findPeaks);
    var init := InitialSynthetic(y);
    var synthetic := new Flux[|y|](i requires 0 <= i < |y| => init[i]);
    var mask := new bool[|y|](_ => true);
    ghost var ones := seq(|x|, _ => true);
    assert mask[..] == ones;
    assert synthetic[..] == init;
    results := [];
    var j := 0;
    while j < |matched|
      invariant 0 <= j <= |matched|
      invariant results == ResolveAll(matched[..j], fwhmAt)
      invariant mask[..] == MaskAll(ones, x, results)
      invariant synthetic[..] == BlankAll(init, x, y, results, draw)
    {
      var r := Resolve(matched[j], fwhmAt);
      ghost var before := results;
      results := results + [r];
      assert results[..j] == before;
      BlankWindow(synthetic, mask, x, y, r, j, draw);
      j := j + 1;
    }
    assert results == ResolveAll(matched, fwhmAt) by {
      assert matched[..|matched|] == matched;
    }
    continuumMask := mask[..];
    var flux := synthetic[..];
    assert flux == BlankAll(init, x, y, results, draw);
    continuum := seq(|x|, i requires 0 <= i < |x| => Sample(x[i], flux[i]));
    forall i | 0 <= i < |x|
      ensures continuumMask[i] == !Covered(x[i], results)
      ensures !Covered(x[i], results) ==> continuum[i].flux == init[i]
    {
      MaskAllClearsWindows(ones, x, results, i);
      BlankAllOutsideWindows(init, x, y, results, draw, i);
    }
  }
}
