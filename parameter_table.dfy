/** The parameter table (`initial_dataframe`) and the bound rule (`minmaxlim`).

    The table is an ordered sequence of rows; a row's position is its place in the flat
    parameter vector handed to the optimizer, so row order is part of the contract. The
    initial table has one row per filtered line, component 1, in filtered order, followed
    by one continuum row (component 0) when continuum parameters are given. The bound rule
    recomputes every row's bounds from its own parameters, scaling the amplitude ceiling by
    a factor that depends on the component number and on how many rows share its line. */
module ParameterTable {
  import opened SpectralTypes
  import opened SignificanceFilter

  /** One row: line name, model, component number, parameter vector, min and max bounds. */
  datatype Row = Row(name: string, model: ModelKind, component: nat, params: seq<real>,
                     minB: seq<Bound>, maxB: seq<Bound>)

  /** KeyError on a line missing from the catalog; a model string no branch handles. */
  datatype TableError = UnknownLine(name: string) | UnknownModel(name: string, model: string)

  // ---------------------------------------------------------------------------------------
  // Initial table
  // ---------------------------------------------------------------------------------------

  /** `emlines_dict[name]['components']`: the model string of the catalog entry with that
      name (catalog names are dictionary keys, hence unique). */
  function LookupModel(catalog: seq<CatalogEntry>, name: string): (r: Option<string>)
    ensures r.Some? ==> exists i :: 0 <= i < |catalog| && catalog[i].name == name && catalog[i].model == r.value
    ensures r.None? ==> forall i :: 0 <= i < |catalog| ==> catalog[i].name != name
  {
    if catalog == [] then None
    else if catalog[0].name == name then Some(catalog[0].model)
    else LookupModel(catalog[1..], name)
  }

  /** The models `initial_dataframe` has a branch for. */
  function LineModel(s: string): (k: Option<ModelKind>)
    ensures k.Some? ==> ParseModel(s) == k && k.value != Continuum
  {
    match ParseModel(s)
    case Some(k) => if k == Continuum then None else Some(k)
    case None => None
  }

  /** Exactly the strings "Gaussian", "Lorentzian" and "Voigt" select a row-building branch. */
  lemma LineModelNames(s: string)
    ensures LineModel(s).Some? <==> s == "Gaussian" || s == "Lorentzian" || s == "Voigt"
  {
    ParseModelNames(s);
  }

  /** The bound hints the filter attaches to a kept line. */
  predicate Hinted(f: FilteredLine)
  {
    f.minLoc == f.wavelength - 2.0 * f.sigma && f.maxLoc == f.wavelength + 2.0 * f.sigma &&
    f.minSd == 2.0 && f.maxSd == 1.5 * f.sigma
  }

  /** The component-1 row of a filtered line. The source divides the amplitude by the
      number of components, which is always 1 here. */
  function LineRow(f: FilteredLine, k: ModelKind): (r: Row)
    requires k != Continuum
    ensures r.name == f.name && r.model == k && r.component == 1
    ensures |r.params| == Arity(k) && |r.minB| == Arity(k) && |r.maxB| == Arity(k)
    ensures r.params[0] == f.wavelength && r.params[1] == f.maxFlux
    ensures r.minB[0] == Fin(f.minLoc) && r.maxB[0] == Fin(f.maxLoc)
    ensures r.minB[1] == Fin(0.0) && r.maxB[1] == Fin(f.maxFlux)
    ensures k == Gaussian ==>
      r.params[2] == f.sigma && r.minB[2] == Fin(f.minSd) && r.maxB[2] == Fin(f.maxSd)
    ensures k == Lorentzian ==>
      r.params[2] == LorentzWidthScale * f.sigma &&
      r.minB[2] == Fin(LorentzWidthScale * f.minSd) && r.maxB[2] == Fin(LorentzWidthScale * f.maxSd)
    ensures k == Voigt ==>
      r.params[2] == f.sigma && r.minB[2] == Fin(f.minSd) && r.maxB[2] == Fin(f.maxSd) &&
      r.params[3] == LorentzWidthScale * f.sigma &&
      r.minB[3] == Fin(LorentzWidthScale * f.minSd) && r.maxB[3] == Fin(LorentzWidthScale * f.maxSd)
  {
    var s := LorentzWidthScale;
    match k
    case Gaussian =>
      Row(f.name, Gaussian, 1, [f.wavelength, f.maxFlux, f.sigma],
          [Fin(f.minLoc), Fin(0.0), Fin(f.minSd)],
          [Fin(f.maxLoc), Fin(f.maxFlux), Fin(f.maxSd)])
    case Lorentzian =>
      Row(f.name, Lorentzian, 1, [f.wavelength, f.maxFlux, s * f.sigma],
          [Fin(f.minLoc), Fin(0.0), Fin(s * f.minSd)],
          [Fin(f.maxLoc), Fin(f.maxFlux), Fin(s * f.maxSd)])
    case Voigt =>
      Row(f.name, Voigt, 1, [f.wavelength, f.maxFlux, f.sigma, s * f.sigma],
          [Fin(f.minLoc), Fin(0.0), Fin(f.minSd), Fin(s * f.minSd)],
          [Fin(f.maxLoc), Fin(f.maxFlux), Fin(f.maxSd), Fin(s * f.maxSd)])
  }

  /** The row of one filtered line, or why it cannot be built. */
  function RowFor(catalog: seq<CatalogEntry>, f: FilteredLine): Result<Row, TableError>
  {
    match LookupModel(catalog, f.name)
    case None => Err(UnknownLine(f.name))
    case Some(s) =>
      match LineModel(s)
      case None => Err(UnknownModel(f.name, s))
      case Some(k) => Ok(LineRow(f, k))
  }

  /** The line rows in filtered order, or the error of the first line that fails. */
  function BuildLines(catalog: seq<CatalogEntry>, lines: seq<FilteredLine>): (r: Result<seq<Row>, TableError>)
    ensures r.Ok? ==> |r.value| == |lines|
  {
    MapAll(lines, l => RowFor(catalog, l))
  }

  /** Rows are built exactly when every line can be, each row being its line's row, in
      order; otherwise the error is that of the first line that cannot be built. */
  lemma BuildLinesRows(catalog: seq<CatalogEntry>, lines: seq<FilteredLine>)
    ensures var r := BuildLines(catalog, lines);
      (r.Ok? <==> forall i :: 0 <= i < |lines| ==> RowFor(catalog, lines[i]).Ok?) &&
      (r.Ok? ==> forall i :: 0 <= i < |lines| ==> Ok(r.value[i]) == RowFor(catalog, lines[i])) &&
      (r.Err? ==> exists i ::
         0 <= i < |lines| && RowFor(catalog, lines[i]) == Err(r.error) &&
         forall j :: 0 <= j < i ==> RowFor(catalog, lines[j]).Ok?)
  {
    MapAllResults(lines, l => RowFor(catalog, l));
  }

  /** The continuum row: component 0, bounds [0, inf) for each parameter. */
  function ContinuumRow(pars: seq<real>): Row
  {
    Row("Continuum", Continuum, 0, pars, [Fin(0.0), Fin(0.0), Fin(0.0)], [PosInf, PosInf, PosInf])
  }

  /** `initial_dataframe`: one component-1 row per filtered line, in filtered order, then
      the continuum row when continuum parameters are given. */
  function InitialTable(catalog: seq<CatalogEntry>, lines: seq<FilteredLine>,
                        continuumPars: Option<seq<real>>): (r: Result<seq<Row>, TableError>)
    ensures r.Ok? <==> forall i :: 0 <= i < |lines| ==> RowFor(catalog, lines[i]).Ok?
    ensures r.Ok? ==> |r.value| == |lines| + (if continuumPars.Some? then 1 else 0)
    ensures r.Ok? ==> forall i :: 0 <= i < |lines| ==>
      RowFor(catalog, lines[i]) == Ok(r.value[i]) &&
      r.value[i].name == lines[i].name && r.value[i].component == 1 &&
      r.value[i].model != Continuum && Some(r.value[i].model) == LineModel(LookupModel(catalog, lines[i].name).value)
    ensures r.Ok? && continuumPars.Some? ==>
      r.value[|lines|] == ContinuumRow(continuumPars.value) &&
      r.value[|lines|].name == "Continuum" && r.value[|lines|].model == Continuum &&
      r.value[|lines|].component == 0 && r.value[|lines|].params == continuumPars.value &&
      r.value[|lines|].minB == [Fin(0.0), Fin(0.0), Fin(0.0)] &&
      r.value[|lines|].maxB == [PosInf, PosInf, PosInf]
  {
    BuildLinesRows(catalog, lines);
    match BuildLines(catalog, lines)
    case Err(e) => Err(e)
    case Ok(rows) =>
      match continuumPars
      case None => Ok(rows)
      case Some(p) => Ok(rows + [ContinuumRow(p)])
  }

  /** A table built from continuum parameters alone is exactly the continuum row. */
  lemma ContinuumOnlyTable(catalog: seq<CatalogEntry>, pars: seq<real>)
    ensures InitialTable(catalog, [], Some(pars)) == Ok([ContinuumRow(pars)])
  {
    var rows: seq<Row> := [];
    assert BuildLines(catalog, []) == Ok(rows);
    assert rows + [ContinuumRow(pars)] == [ContinuumRow(pars)];
  }

  /** A line row starts inside its own bounds exactly when its sigma is at least the fixed
      width floor 2.0 and its peak flux is not negative; a narrower line starts below its
      width bound (and, under 4/3, with a width ceiling under the floor). */
  lemma LineRowBoxedIff(f: FilteredLine, k: ModelKind)
    requires k != Continuum && Hinted(f) && f.sigma >= 0.0
    ensures Boxed(LineRow(f, k).params, LineRow(f, k).minB, LineRow(f, k).maxB) <==>
      f.sigma >= 2.0 && f.maxFlux >= 0.0
  {
    var r := LineRow(f, k);
    if f.sigma >= 2.0 && f.maxFlux >= 0.0 {
      assert forall i :: 0 <= i < |r.params| ==> BelowOrAt(r.minB[i], r.params[i]) && AboveOrAt(r.maxB[i], r.params[i]) by {
        forall i | 0 <= i < |r.params|
          ensures BelowOrAt(r.minB[i], r.params[i]) && AboveOrAt(r.maxB[i], r.params[i])
        {
          if i == 3 {
            assert k == Voigt;
          }
        }
      }
    } else if f.maxFlux < 0.0 {
      assert !AboveOrAt(r.maxB[1], r.params[1]) || !BelowOrAt(r.minB[1], r.params[1]);
    } else {
      assert !BelowOrAt(r.minB[2], r.params[2]);
    }
  }

  // ---------------------------------------------------------------------------------------
  // Bound rule
  // ---------------------------------------------------------------------------------------

  /** The number of rows of line `name`. */
  function CountName(t: seq<Row>, name: string): (n: nat)
    ensures n <= |t|
  {
    if t == [] then 0
    else CountName(t[..|t| - 1], name) + (if t[|t| - 1].name == name then 1 else 0)
  }

  function Pow2(e: nat): real
  {
    if e == 0 then 1.0 else 2.0 * Pow2(e - 1)
  }

  /** The amplitude-ceiling factor: for component 1, 2 when other rows share its line and 1
      otherwise; 2 for component 2; `2**(component - 1)` for every other component (which
      makes it 1/2 for the continuum's component 0, where it is not used). */
  function AmplitudeFactor(t: seq<Row>, r: Row): real
  {
    if r.component == 1 then (if CountName(t, r.name) > 1 then 2.0 else 1.0)
    else if r.component == 2 then 2.0
    else if r.component == 0 then 0.5
    else Pow2(r.component - 1)
  }

  /** Every row has the three leading parameters the bound rule reads. */
  predicate WellFormed(t: seq<Row>)
  {
    forall i :: 0 <= i < |t| ==> |t[i].params| >= 3
  }

  /** The (min, max) bounds `minmaxlim` gives row `r` of table `t`. */
  function Limits(t: seq<Row>, r: Row): (b: (seq<Bound>, seq<Bound>))
    requires |r.params| >= 3
    ensures |b.0| == Arity(r.model) && |b.1| == Arity(r.model)
    ensures r.model != Continuum ==>
      b.0[0] == Fin(r.params[0] - 2.0 * r.params[2]) && b.1[0] == Fin(r.params[0] + 2.0 * r.params[2]) &&
      b.0[1] == Fin(0.0) && b.1[1] == Fin(r.params[1] * AmplitudeFactor(t, r))
    ensures r.model == Gaussian || r.model == Voigt ==>
      b.0[2] == Fin(2.0) && b.1[2] == Fin(1.5 * r.params[2])
    ensures r.model == Lorentzian ==>
      b.0[2] == Fin(LorentzWidthScale * 2.0) && b.1[2] == Fin(LorentzWidthScale * (1.5 * r.params[2]))
    ensures r.model == Voigt ==>
      b.0[3] == Fin(LorentzWidthScale * 2.0) && b.1[3] == Fin(LorentzWidthScale * (1.5 * r.params[2]))
    ensures r.model == Continuum ==>
      b.0 == [NegInf, Fin(0.0), NegInf] && b.1 == [PosInf, PosInf, PosInf]
  {
    var sigma := r.params[2];
    var minSig := 2.0;
    var maxSig := 1.5 * sigma;
    var lo := r.params[0] - 2.0 * sigma;
    var hi := r.params[0] + 2.0 * sigma;
    var amp := r.params[1] * AmplitudeFactor(t, r);
    var s := LorentzWidthScale;
    match r.model
    case Gaussian => ([Fin(lo), Fin(0.0), Fin(minSig)], [Fin(hi), Fin(amp), Fin(maxSig)])
    case Lorentzian => ([Fin(lo), Fin(0.0), Fin(s * minSig)], [Fin(hi), Fin(amp), Fin(s * maxSig)])
    case Voigt =>
      ([Fin(lo), Fin(0.0), Fin(minSig), Fin(s * minSig)], [Fin(hi), Fin(amp), Fin(maxSig), Fin(s * maxSig)])
    case Continuum => ([NegInf, Fin(0.0), NegInf], [PosInf, PosInf, PosInf])
  }

  /** A second component, and a first component whose line has other rows, may grow to
      twice its current amplitude. */
  lemma SharedAmplitudeCeiling(t: seq<Row>, r: Row)
    requires |r.params| >= 3 && r.model != Continuum
    requires r.component == 2 || (r.component == 1 && CountName(t, r.name) > 1)
    ensures Limits(t, r).1[1] == Fin(2.0 * r.params[1])
  {
    assert AmplitudeFactor(t, r) == 2.0;
  }

  /** `minmaxlim`: the min bounds and the max bounds of every row, in row order. */
  function MinMaxLim(t: seq<Row>): (r: (seq<seq<Bound>>, seq<seq<Bound>>))
    requires WellFormed(t)
    ensures |r.0| == |t| && |r.1| == |t|
    ensures forall i :: 0 <= i < |t| ==> |r.0[i]| == Arity(t[i].model) && |r.1[i]| == Arity(t[i].model)
    ensures forall i :: 0 <= i < |t| ==> (r.0[i], r.1[i]) == Limits(t, t[i])
  {
    (seq(|t|, i requires 0 <= i < |t| => Limits(t, t[i]).0),
     seq(|t|, i requires 0 <= i < |t| => Limits(t, t[i]).1))
  }

  lemma {:induction false} Pow2AtLeastTwo(e: nat)
    requires e >= 1
    ensures Pow2(e) >= 2.0
  {
    if e > 1 {
      Pow2AtLeastTwo(e - 1);
    }
  }

  /** The amplitude factor of a line row is `2**(component - 1)` from component 2 on, and
      for component 1 it is 2 exactly when the line has other rows, 1 otherwise; it is never
      below 1, so the recomputed ceiling never falls under a non-negative amplitude. */
  lemma AmplitudeFactorSchedule(t: seq<Row>, r: Row)
    requires r.component >= 1
    ensures AmplitudeFactor(t, r) >= 1.0
    ensures r.component >= 2 ==> AmplitudeFactor(t, r) == Pow2(r.component - 1)
    ensures AmplitudeFactor(t, r) == 1.0 <==> r.component == 1 && CountName(t, r.name) <= 1
  {
    if r.component >= 2 {
      Pow2AtLeastTwo(r.component - 1);
      if r.component == 2 {
        assert Pow2(1) == 2.0 * Pow2(0);
      }
    }
  }

  /** The amplitude ceiling of a line row: its amplitude times `2**(component - 1)` from
      component 2 on; for component 1, twice its amplitude when the line has other rows and
      its amplitude otherwise. */
  lemma AmplitudeCeiling(t: seq<Row>, r: Row)
    requires |r.params| >= 3 && r.model != Continuum && r.component >= 1
    ensures r.component >= 2 ==> Limits(t, r).1[1] == Fin(r.params[1] * Pow2(r.component - 1))
    ensures r.component == 1 ==>
      Limits(t, r).1[1] == Fin(if CountName(t, r.name) > 1 then 2.0 * r.params[1] else r.params[1])
  {
    AmplitudeFactorSchedule(t, r);
  }

  /** A table built by `initial_dataframe` has the three leading parameters the bound rule
      reads in every row exactly when its continuum row, if any, has at least three. */
  lemma InitialTableWellFormed(catalog: seq<CatalogEntry>, lines: seq<FilteredLine>,
                               continuumPars: Option<seq<real>>)
    requires InitialTable(catalog, lines, continuumPars).Ok?
    ensures WellFormed(InitialTable(catalog, lines, continuumPars).value) <==>
      (continuumPars.None? || |continuumPars.value| >= 3)
  {
    var t := InitialTable(catalog, lines, continuumPars).value;
    forall i | 0 <= i < |lines|
      ensures |t[i].params| >= 3
    {
      var k := t[i].model;
      assert RowFor(catalog, lines[i]) == Ok(t[i]);
      assert t[i] == LineRow(lines[i], k);
    }
    if continuumPars.Some? && |continuumPars.value| < 3 {
      assert |t[|lines|].params| < 3;
    }
  }

  /** The recomputed bounds contain a row's parameters whenever its amplitude is not
      negative and its widths are at least the width floors (2.0, or 2.22 for a Lorentzian
      width), the Voigt second width lying between 2.22 and 1.665 times the first; a
      continuum row only needs a non-negative second parameter. */
  lemma RecomputedBoundsContainParams(t: seq<Row>, r: Row)
    requires |r.params| == Arity(r.model)
    requires r.params[1] >= 0.0
    requires r.model != Continuum ==> r.component >= 1
    requires r.model == Gaussian || r.model == Voigt ==> r.params[2] >= 2.0
    requires r.model == Lorentzian ==> r.params[2] >= LorentzWidthScale * 2.0
    requires r.model == Voigt ==>
      LorentzWidthScale * 2.0 <= r.params[3] <= LorentzWidthScale * (1.5 * r.params[2])
    ensures Boxed(r.params, Limits(t, r).0, Limits(t, r).1)
  {
    var b := Limits(t, r);
    if r.model != Continuum {
      AmplitudeFactorSchedule(t, r);
      var f := AmplitudeFactor(t, r);
      assert r.params[1] <= r.params[1] * f by {
        assert r.params[1] * f - r.params[1] == r.params[1] * (f - 1.0);
      }
    }
    forall i | 0 <= i < |r.params|
      ensures BelowOrAt(b.0[i], r.params[i]) && AboveOrAt(b.1[i], r.params[i])
    {
    }
  }

  /** For a Gaussian or Voigt line that is alone in its table, recomputing the bounds gives
      back the bounds the initial table gave it. */
  lemma RecomputeAgreesWithInitial(t: seq<Row>, f: FilteredLine, k: ModelKind)
    requires k == Gaussian || k == Voigt
    requires Hinted(f) && CountName(t, f.name) == 1
    ensures var r := LineRow(f, k); Limits(t, r) == (r.minB, r.maxB)
  {
  }

  /** For a Lorentzian line the stored width is already 1.11 sigma, and the bound rule
      works from that stored width: the recomputed location window is +-2.22 sigma instead
      of +-2 sigma, and the width ceiling is 1.11 times the initial one; the amplitude
      bounds and the width floor are unchanged. */
  lemma RecomputeRescalesLorentzWidth(t: seq<Row>, f: FilteredLine)
    requires Hinted(f) && CountName(t, f.name) == 1
    ensures var r := LineRow(f, Lorentzian);
      var s := LorentzWidthScale;
      Limits(t, r).0 == [Fin(f.wavelength - s * 2.0 * f.sigma), r.minB[1], r.minB[2]] &&
      Limits(t, r).1 == [Fin(f.wavelength + s * 2.0 * f.sigma), r.maxB[1], Fin(s * r.maxB[2].v)]
  {
  }
}
