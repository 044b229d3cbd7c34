/** Vocabulary shared by the stages of the fitting setup: flux samples that may be NaN,
    model kinds, parameter bounds, catalog entries, per-line records, the FWHM-to-sigma
    constants, and the inclusive-window and filter helpers used by every stage. */
module SpectralTypes {

  datatype Option<T> = None | Some(value: T)

  datatype Result<T, E> = Ok(value: T) | Err(error: E)

  /** A double-precision flux value: a number, or NaN (missing data). */
  datatype Flux = Value(v: real) | NaN

  /** One row of a two-column spectrum: wavelength and flux. */
  datatype Sample = Sample(wave: real, flux: Flux)

  /** The model strings the fitting code understands. */
  datatype ModelKind = Gaussian | Lorentzian | Voigt | Continuum

  /** A parameter bound: a finite value, or numpy's +inf / -inf. */
  datatype Bound = Fin(v: real) | PosInf | NegInf

  /** A catalog entry: the line's name, the first element of its rest-wavelength list
      (None when that element is None), and its component model string. */
  datatype CatalogEntry = CatalogEntry(name: string, rest: Option<real>, model: string)

  /** A matched and resolved line, as handed from the detector to the significance filter. */
  datatype LineResult = LineResult(name: string, rest: real, observed: real, fwhm: real, peakFlux: real)

  /** FWHM-to-sigma divisor written as the literal 2.355 in the masking step. */
  const PeakSigmaDivisor: real := 2.355

  /** FWHM-to-sigma divisor 2*sqrt(2*ln 2) of the significance filter, as the double it evaluates to. */
  const GaussSigmaDivisor: real := 2.3548200450309493

  /** Scale applied to a Gaussian width to obtain a Lorentzian width. */
  const LorentzWidthScale: real := 1.11

  /** Maps the source's model strings to model kinds; any other string is unknown. */
  function ParseModel(s: string): Option<ModelKind>
  {
    if s == "Gaussian" then Some(Gaussian)
    else if s == "Lorentzian" then Some(Lorentzian)
    else if s == "Voigt" then Some(Voigt)
    else if s == "Continuum" then Some(Continuum)
    else None
  }

  /** Each model kind is named by exactly one string, and no other string names a kind. */
  lemma ParseModelNames(s: string)
    ensures ParseModel(s) == Some(Gaussian) <==> s == "Gaussian"
    ensures ParseModel(s) == Some(Lorentzian) <==> s == "Lorentzian"
    ensures ParseModel(s) == Some(Voigt) <==> s == "Voigt"
    ensures ParseModel(s) == Some(Continuum) <==> s == "Continuum"
  {
  }

  /** Number of parameters (and of bounds) a model kind carries. */
  function Arity(k: ModelKind): nat
  {
    if k == Voigt then 4 else 3
  }

  predicate BelowOrAt(b: Bound, x: real)
  {
    match b
    case Fin(v) => v <= x
    case NegInf => true
    case PosInf => false
  }

  predicate AboveOrAt(b: Bound, x: real)
  {
    match b
    case Fin(v) => x <= v
    case NegInf => false
    case PosInf => true
  }

  /** `lo <= params <= hi` elementwise, the three vectors having the same length. */
  predicate Boxed(params: seq<real>, lo: seq<Bound>, hi: seq<Bound>)
  {
    |lo| == |params| && |hi| == |params| &&
    forall i :: 0 <= i < |params| ==> BelowOrAt(lo[i], params[i]) && AboveOrAt(hi[i], params[i])
  }

  /** The positions of the samples whose wavelength lies in the closed interval [lo, hi],
      in increasing order: numpy's `(xs >= lo) & (xs <= hi)` boolean mask, as positions. */
  function WindowIndices(xs: seq<real>, lo: real, hi: real): (r: seq<nat>)
    ensures forall k :: 0 <= k < |r| ==> r[k] < |xs| && lo <= xs[r[k]] <= hi
    ensures forall j, k :: 0 <= j < k < |r| ==> r[j] < r[k]
  {
    if xs == [] then []
    else
      var n := |xs| - 1;
      WindowIndices(xs[..n], lo, hi) + (if lo <= xs[n] <= hi then [n] else [])
  }

  /** A sample is selected by the window exactly when its wavelength lies in [lo, hi]. */
  lemma {:induction false} WindowIndicesExact(xs: seq<real>, lo: real, hi: real, i: nat)
    requires i < |xs|
    ensures i in WindowIndices(xs, lo, hi) <==> lo <= xs[i] <= hi
  {
    var n := |xs| - 1;
    if i < n {
      WindowIndicesExact(xs[..n], lo, hi, i);
      assert xs[..n][i] == xs[i];
    }
  }

  /** `s[idx]`: the elements of `s` at the given positions. */
  function Gather<T>(s: seq<T>, idx: seq<nat>): (r: seq<T>)
    requires forall k :: 0 <= k < |idx| ==> idx[k] < |s|
    ensures |r| == |idx|
  {
    seq(|idx|, k requires 0 <= k < |idx| => s[idx[k]])
  }

  /** `np.where(xs == v)[0][0]`: the first position holding `v`. */
  function FirstIndex(xs: seq<real>, v: real): (i: nat)
    requires v in xs
    ensures i < |xs| && xs[i] == v
    ensures forall j :: 0 <= j < i ==> xs[j] != v
  {
    if xs[0] == v then 0 else 1 + FirstIndex(xs[1..], v)
  }

  /** Keeps, in order, the images of the elements on which `f` answers `Some`:
      the accumulate-if loops of the source. */
  function FilterMap<A, B>(s: seq<A>, f: A -> Option<B>): (r: seq<B>)
    ensures |r| <= |s|
  {
    if s == [] then []
    else
      var n := |s| - 1;
      var init := FilterMap(s[..n], f);
      match f(s[n])
      case None => init
      case Some(b) => init + [b]
  }

  /** FilterMap's output is exactly the images of the selected elements, in input order:
      `idx` lists the selected positions, increasing, and a position is selected iff `f`
      answers `Some` there. */
  lemma {:induction false} FilterMapSelects<A, B>(s: seq<A>, f: A -> Option<B>) returns (idx: seq<nat>)
    ensures |idx| == |FilterMap(s, f)|
    ensures forall j :: 0 <= j < |idx| ==> idx[j] < |s| && f(s[idx[j]]) == Some(FilterMap(s, f)[j])
    ensures forall j, k :: 0 <= j < k < |idx| ==> idx[j] < idx[k]
    ensures forall i :: 0 <= i < |s| ==> (f(s[i]).Some? <==> i in idx)
  {
    if s == [] {
      idx := [];
    } else {
      var n := |s| - 1;
      var idx0 := FilterMapSelects(s[..n], f);
      assert forall i :: 0 <= i < n ==> s[..n][i] == s[i];
      var r0 := FilterMap(s[..n], f);
      if f(s[n]).Some? {
        idx := idx0 + [n];
        assert FilterMap(s, f) == r0 + [f(s[n]).value];
      } else {
        idx := idx0;
        assert FilterMap(s, f) == r0;
      }
    }
  }

  /** Applies `f` to every element, in order, stopping at the first error: the
      append-in-a-loop of the source where one element can fail. */
  function MapAll<A, B, E>(s: seq<A>, f: A -> Result<B, E>): (r: Result<seq<B>, E>)
    ensures r.Ok? ==> |r.value| == |s|
  {
    if s == [] then Ok([])
    else
      match f(s[0])
      case Err(e) => Err(e)
      case Ok(b) =>
        match MapAll(s[1..], f)
        case Err(e) => Err(e)
        case Ok(rest) => Ok([b] + rest)
  }

  /** MapAll succeeds exactly when `f` succeeds on every element, and then holds the
      images in order; otherwise its error is that of the first element `f` fails on. */
  lemma {:induction false} MapAllResults<A, B, E>(s: seq<A>, f: A -> Result<B, E>)
    ensures var r := MapAll(s, f);
      (r.Ok? <==> forall i :: 0 <= i < |s| ==> f(s[i]).Ok?) &&
      (r.Ok? ==> forall i :: 0 <= i < |s| ==> Ok(r.value[i]) == f(s[i])) &&
      (r.Err? ==> exists i ::
         0 <= i < |s| && f(s[i]) == Err(r.error) &&
         forall j :: 0 <= j < i ==> f(s[j]).Ok?)
  {
    if s != [] {
      var tail := s[1..];
      MapAllResults(tail, f);
      assert forall i :: 1 <= i < |s| ==> s[i] == tail[i - 1];
      var r := MapAll(s, f);
      if f(s[0]).Ok? && r.Err? {
        var k :| 0 <= k < |tail| && f(tail[k]) == Err(r.error) &&
          forall j :: 0 <= j < k ==> f(tail[j]).Ok?;
        assert f(s[k + 1]) == Err(r.error);
        assert forall j :: 1 <= j < k + 1 ==> f(s[j]).Ok?;
      }
    }
  }
}
