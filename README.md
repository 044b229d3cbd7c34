# Fitting setup for emission-line spectra, modelled in Dafny

This project models the setup stage of the emission-line fitter: the code that turns an
observed spectrum and a catalog of emission lines into the parameter table the fitter
starts from. The code lives in `fitting_scripts/sps_fitsetup.py`. Five steps are modelled:

- **Line detection** (`analyze_emission_lines`, module `LineDetection`).
  - For every catalog line with a rest wavelength, the samples within ±20 Å of that
    wavelength are searched. The peak closest to the rest wavelength is matched, and the
    earliest peak wins a tie.
  - Each matched line then gets its FWHM. The samples within `fwhm/2 + 3*sigma` of its
    observed wavelength (with `sigma = fwhm/2.355`) are cleared from the continuum mask.
  - Their flux is replaced by a random draw, or by 0 when no valid flux lies outside that
    window.
  - The catalog loop, the closest-peak scan and the in-place masking are methods over
    sequences and arrays. Each one is proved equal to a specification function, and the
    lemmas are proved about those functions.
- **Significance filter** (`filter_and_prepare_linelist`, module `SignificanceFilter`).
  - A detected line is kept when its observed wavelength lies in the closed fitting range
    and it is significant. Significant means its local SNR reaches the external threshold,
    or its peak flux exceeds three times that threshold.
  - The local SNR is measured on two side windows just outside ±2 sigma, with
    `sigma = fwhm / (2*sqrt(2*ln 2))`.
  - A kept line carries its bound hints:
    - location within ±2 sigma;
    - width between 2.0 and 1.5 sigma;
    - amplitude ceiling at the peak flux (the floor 0 is added when the table is built).
- **Initial parameter table** (`initial_dataframe`, module `ParameterTable`).
  - One row per kept line, with component 1 and the line's catalog model (Gaussian,
    Lorentzian or Voigt), in filtered order.
  - A continuum row follows when continuum parameters are given.
- **Bound rule** (`minmaxlim`, module `ParameterTable`).
  - Every row's bounds are recomputed from its own parameters.
  - The amplitude ceiling is scaled by a factor that depends on the component number and
    on whether the line has other rows.
- **Component expansion** (`update_components`, module `ComponentExpansion`).
  - For each requested addition whose line is in the table, a row is spliced in right
    after the line's last row. It gets the next component number and half the amplitude.
  - Then every row's bounds are recomputed.

Module `SpectralTypes` holds the shared vocabulary and the helpers every step uses:
- flux that may be NaN, model kinds, bounds (finite or ±∞);
- the closed-window selection `(x >= lo) & (x <= hi)`;
- the order-preserving filter behind the source's accumulate-if loops.

Some quirks of the source are stated and proved as they are:
- A Lorentzian row's width is already 1.11 sigma. The bound rule scales it by 1.11 again
  and widens its location window to ±2.22 sigma (`RecomputeRescalesLorentzWidth`).
- A row whose sigma is below the fixed width floor 2.0 starts outside its own bounds
  (`LineRowBoxedIff`).
- A Voigt component added by the expansion gets three parameters but four bounds
  (`AddedVoigtOutOfShape`).

## Model

| member | source | states |
|---|---|---|
| SpectralTypes.WindowIndicesExact | fitting_scripts/sps_fitsetup.py:46 | a sample is selected by a window exactly when its wavelength lies in the closed interval [lo, hi] |
| SpectralTypes.FirstIndex | fitting_scripts/sps_fitsetup.py:84 | the peak index recorded for a match is a position holding the observed wavelength, and no earlier position holds it |
| SpectralTypes.ParseModelNames | fitting_scripts/sps_fitsetup.py:319-333 | each of the four model kinds is selected by exactly its own model string, and any other string selects none |
| LineDetection.ClosestPeak | fitting_scripts/sps_fitsetup.py:62-76 | a peak is selected exactly when the peak finder reports at least one, and the selected one is among the reported peaks |
| LineDetection.ClosestPeakIsNearest | fitting_scripts/sps_fitsetup.py:62-74 | the selected peak is at least as close to the rest wavelength as every reported peak, and every peak reported before it is strictly farther (ties go to the earliest) |
| LineDetection.ScanClosestPeak | fitting_scripts/sps_fitsetup.py:62-74 | the `min_diff` scan with its strict `<` update selects exactly the nearest, earliest peak |
| LineDetection.MatchEntry | fitting_scripts/sps_fitsetup.py:42-85 | an entry without a rest wavelength or with an empty window gives no match; with a non-empty window, an entry is matched exactly when the peak finder reports a peak there; the match is the sample of the peak the closest-peak scan selects (nearest, earliest on a tie), its peak flux is that sample's flux, and it is no farther from the rest wavelength than any reported peak; a match keeps the entry's name and rest wavelength, lies within ±window of it, and records the first position holding its observed wavelength |
| LineDetection.NearestInWindow | fitting_scripts/sps_fitsetup.py:62-82 | the peak selected in a window is no farther from the rest wavelength than the spectrum sample behind any reported peak |
| LineDetection.MatchesFollowCatalog | fitting_scripts/sps_fitsetup.py:41-85 | the matched lines are exactly the catalog entries that yield a match, one each, in catalog order |
| LineDetection.MatchOne | fitting_scripts/sps_fitsetup.py:42-85 | one pass of the catalog loop yields exactly the entry's match |
| LineDetection.MatchCatalog | fitting_scripts/sps_fitsetup.py:41-85 | the catalog loop builds exactly the list of matches in catalog order |
| LineDetection.MaskAllClearsWindows | fitting_scripts/sps_fitsetup.py:88-108 | after all lines, a mask bit is set exactly when it was set before and no matched line's window covers the sample |
| LineDetection.BlankAllOutsideWindows | fitting_scripts/sps_fitsetup.py:107-116 | samples outside every line window keep their flux, and every sample inside some window ends up with a number, never NaN |
| LineDetection.BlankWindow | fitting_scripts/sps_fitsetup.py:107-116 | the in-place update clears exactly the window's mask bits and writes the substitute flux (a draw, or 0 without valid flux outside) only inside the window |
| LineDetection.AnalyzeEmissionLines | fitting_scripts/sps_fitsetup.py:21-121 | returns the resolved matches in catalog order and the continuum spectrum; a sample's mask bit is set exactly when no line window covers it, and such a sample keeps its initial flux (zeros when the whole flux is NaN) |
| SignificanceFilter.PairMean | fitting_scripts/sps_fitsetup.py:149-150 | the mean of the two side-window statistics is NaN as soon as either side is NaN, and its std is 0 exactly when both sides' are |
| SignificanceFilter.Examine | fitting_scripts/sps_fitsetup.py:132-168 | a line is kept exactly when it is in the closed range and its SNR reaches the threshold or its peak flux exceeds three times it; a kept line keeps its name, wavelength and peak flux, and (for a non-negative FWHM) lies between its location bounds |
| SignificanceFilter.FilterKeepsSignificantInOrder | fitting_scripts/sps_fitsetup.py:124-169 | the filtered list is exactly the in-range significant lines, in input order, each with its prepared record |
| SignificanceFilter.FilteredLinesCarryHints | fitting_scripts/sps_fitsetup.py:137-165 | every kept line is in range and carries location bounds ±2 sigma, width bounds 2.0 and 1.5 sigma, with sigma ≥ 0 |
| SignificanceFilter.FlatBackgroundPasses | fitting_scripts/sps_fitsetup.py:149-156 | a line in range whose local std is NaN or zero always passes, with the external threshold as its SNR |
| ParameterTable.LookupModel | fitting_scripts/sps_fitsetup.py:205 | the model string comes from a catalog entry of that name, and a miss means no entry has the name |
| ParameterTable.LineModelNames | fitting_scripts/sps_fitsetup.py:207-220 | exactly the model strings Gaussian, Lorentzian and Voigt have a row-building branch |
| ParameterTable.LineRow | fitting_scripts/sps_fitsetup.py:207-220 | a line row has component 1, the line's name, as many parameters and bounds as its model needs, location and amplitude from the line, amplitude bounds 0 and the peak flux, location bounds from the line's hints, and width sigma with the line's width bounds, each scaled by 1.11 for a Lorentzian; a Voigt row adds a second width 1.11 sigma with bounds 1.11 times the width bounds |
| ParameterTable.BuildLinesRows | fitting_scripts/sps_fitsetup.py:202-227 | rows are built exactly when every line is in the catalog with a known model, each row being its line's row, in order; otherwise the error is that of the first failing line |
| ParameterTable.InitialTable | fitting_scripts/sps_fitsetup.py:188-250 | the table is built exactly when every kept line can be; row i is then line i's built row (component 1, the line's catalog model), in order, followed, when continuum parameters are given, by the row named Continuum, component 0, holding those parameters with bounds [0, 0, 0] and [inf, inf, inf] |
| ParameterTable.ContinuumOnlyTable | fitting_scripts/sps_fitsetup.py:238-248 | with no kept lines the table is the continuum row alone, bounded below by 0 and above by +inf |
| ParameterTable.LineRowBoxedIff | fitting_scripts/sps_fitsetup.py:207-220 | for a line carrying its hints, the initial parameters lie inside the initial bounds exactly when sigma ≥ 2.0 and the peak flux is not negative |
| ParameterTable.Limits | fitting_scripts/sps_fitsetup.py:289-335 | a line row gets location bounds p0 ∓ 2·p2, amplitude bounds 0 and p1 times the amplitude factor, and width bounds 2.0 and 1.5·p2 (scaled by 1.11 for a Lorentzian width and for the Voigt second width); a Voigt row gets four bounds and every other row three; a continuum row gets [-inf, 0, -inf] and [inf, inf, inf] |
| ParameterTable.MinMaxLim | fitting_scripts/sps_fitsetup.py:285-342 | one pair of bound vectors per row, in row order, each sized for the row's model |
| ParameterTable.AmplitudeFactorSchedule | fitting_scripts/sps_fitsetup.py:304-318 | the amplitude factor is 2^(component-1) from component 2 on, never below 1, and 1 exactly for a first component alone in its line |
| ParameterTable.SharedAmplitudeCeiling | fitting_scripts/sps_fitsetup.py:304-328 | a second component, or a first component whose line has other rows, gets twice its amplitude as ceiling |
| ParameterTable.AmplitudeCeiling | fitting_scripts/sps_fitsetup.py:302-330 | a line row's amplitude ceiling is p1·2^(component-1) from component 2 on, and for component 1 twice p1 when the line has other rows and p1 otherwise |
| ParameterTable.InitialTableWellFormed | fitting_scripts/sps_fitsetup.py:188-250 | every row of a built table has the three leading parameters the bound rule reads exactly when the continuum parameters, if given, have at least three entries |
| ParameterTable.RecomputedBoundsContainParams | fitting_scripts/sps_fitsetup.py:289-335 | recomputed bounds contain a row's parameters when its amplitude is not negative and its widths reach the width floors |
| ParameterTable.RecomputeAgreesWithInitial | fitting_scripts/sps_fitsetup.py:289-330 | for a Gaussian or Voigt line alone in its table, recomputing gives back the initial bounds |
| ParameterTable.RecomputeRescalesLorentzWidth | fitting_scripts/sps_fitsetup.py:325-327 | for a Lorentzian line, recomputing widens the location window to ±2.22 sigma and scales the width ceiling by 1.11 again |
| ComponentExpansion.LastIndexOf | fitting_scripts/sps_fitsetup.py:368 | the position found holds the line, and no later row does |
| ComponentExpansion.AddComponentOutcome | fitting_scripts/sps_fitsetup.py:363-380 | an addition for a line the table lacks changes nothing; for a present line it fails exactly when its model string is unknown |
| ComponentExpansion.AddComponentSplices | fitting_scripts/sps_fitsetup.py:368-377 | one row is inserted right after the line's last row, with every other row unchanged; it carries the next component number, the requested model, the same location and width and half the amplitude, and becomes the line's last row |
| ComponentExpansion.AddComponentCounts | fitting_scripts/sps_fitsetup.py:368-377 | an addition raises its own line's row count by one and leaves every other count and the set of line names unchanged |
| ComponentExpansion.AddAllNames | fitting_scripts/sps_fitsetup.py:362-380 | all additions succeed unless an addition for a present line has an unknown model, and they keep the set of line names |
| ComponentExpansion.AddAllEmbeds | fitting_scripts/sps_fitsetup.py:362-380 | every original row survives, in order, and the table grows by one row per addition whose line is present |
| ComponentExpansion.AddAllErrorPersists | fitting_scripts/sps_fitsetup.py:362-380 | a failed addition makes the whole run fail with that error |
| ComponentExpansion.WithLimits | fitting_scripts/sps_fitsetup.py:384-387 | the bound columns are replaced by the bound rule's vectors, and names, models, components and parameters are unchanged |
| ComponentExpansion.UpdateComponents | fitting_scripts/sps_fitsetup.py:344-391 | the splicing loop followed by the bound rule gives exactly the additions applied in order, then recomputed bounds |
| ComponentExpansion.SplitLineDoublesCeiling | fitting_scripts/sps_fitsetup.py:304-312 | splitting a single-row line gives the original row a ceiling of twice its amplitude, and the new row a ceiling equal to the original amplitude |
| ComponentExpansion.AddedVoigtOutOfShape | fitting_scripts/sps_fitsetup.py:371-376 | an added Voigt component keeps three parameters while getting four bounds, so its parameters never lie inside its bounds |

## Left out

- scipy's `find_peaks`, `peak_widths` with `np.interp`, and `np.random.normal` are function parameters (`findPeaks`, `fwhmAt`, `draw`). The model assumes only that reported peaks are positions of the window holding a number (`LineDetection.PeakFinder`). The prominence 0.5, the half-height rule and the normal distribution are not modelled.
- `np.mean` and `np.std` of a side window form the parameter `stats` of the filter; they need a square root. `None` stands for the NaN they return on an empty window or a window containing NaN.
- LineDetection.AnalyzeEmissionLines: does not return `std_cont` (line 120), the `np.nanstd` of the substitute flux, because it needs a square root. It does return the continuum mask, which the source keeps local, so that the masking can be stated.
- Floating point is modelled as real arithmetic. `2*sqrt(2*ln 2)` is the constant `GaussSigmaDivisor`, the double it evaluates to, kept distinct from the literal 2.355 of the masking step. NaN appears only as the `NaN` flux value.
- ParameterTable.RowFor: a catalog model other than Gaussian, Lorentzian or Voigt is the error `UnknownModel`. The source instead reuses the previous line's vectors, or raises NameError on the first line. A line missing from the catalog (a KeyError) is `UnknownLine`.
- ComponentExpansion.AddComponent: an unknown model string in an addition is the error `UnknownModel`. The source splices the row in, and its bound rule prints a message and reuses the previous row's bounds (or fails on the first row).
- ComponentExpansion.UpdateComponents: requires every row to have at least three parameters. On a shorter row the source raises IndexError at `row['Parameters'][2]` (line 293), which is not modelled. `ParameterTable.InitialTableWellFormed` states when a built table meets this.
- `update_components` drops the "Parameter Errors" column (line 358). The modelled table has no such column, and the KeyError the source raises when the column is missing is not modelled.
- An addition carries the first model of its component list. An empty list, which makes the source raise IndexError, is not modelled. The additions are a sequence in dictionary order, which may repeat a line, unlike a dictionary.
- The catalog is a sequence in dictionary order, with names assumed unique as dictionary keys. Of each entry, only the first rest wavelength and the model string are modelled.
- Table index labels are row positions, as `ignore_index=True` keeps them in the source. The continuum row's float component 0.0 is the natural number 0.
- `initial_dataframe` divides the amplitude by the number of components, which is always 1 there; the division is not written out.
- `continuum_init`, `init_setup`, the curve fitting, plotting, file output and every `print` message are not part of this model.
