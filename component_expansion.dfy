/** Adding components to lines of an existing parameter table (`update_components`).

    For each requested addition whose line already has rows, a new row is spliced in right
    after the line's last row: same line name, the requested model, the next component
    number, and the last row's location, half its amplitude and its width. Additions for
    lines the table does not hold change nothing. Once every addition is in, the bounds of
    every row are recomputed by the bound rule. */
module ComponentExpansion {
  import opened SpectralTypes
  import opened ParameterTable

  /** One entry of the additions dictionary: the line and the first element of its list
      of component models. */
  datatype Addition = Addition(line: string, model: string)

  /** Some row of the table belongs to line `name`. */
  predicate HasName(t: seq<Row>, name: string)
  {
    exists i :: 0 <= i < |t| && t[i].name == name
  }

  /** `updated_df[updated_df['Line Name'] == name].index[-1]`. */
  function LastIndexOf(t: seq<Row>, name: string): (i: nat)
    requires HasName(t, name)
    ensures i < |t| && t[i].name == name
    ensures forall j :: i < j < |t| ==> t[j].name != name
  {
    var n := |t| - 1;
    if t[n].name == name then n
    else
      assert HasName(t[..n], name) by {
        var k :| 0 <= k < |t| && t[k].name == name;
        assert k < n && t[..n][k] == t[k];
      }
      LastIndexOf(t[..n], name)
  }

  /** The row added after `last`: next component number, amplitude halved, location and
      width kept; its bounds are filled in by the bound rule afterwards. */
  function NewComponent(last: Row, k: ModelKind): Row
    requires |last.params| >= 3
  {
    Row(last.name, k, last.component + 1,
        [last.params[0], last.params[1] / 2.0, last.params[2]], [], [])
  }

  /** `pd.concat([t[:i + 1], [row], t[i + 1:]])`: `row` inserted right after position `i`. */
  function Splice(t: seq<Row>, i: nat, row: Row): (u: seq<Row>)
    requires i < |t|
    ensures |u| == |t| + 1 && u[i + 1] == row
    ensures forall m {:trigger u[m]} :: 0 <= m <= i ==> u[m] == t[m]
    ensures forall m {:trigger u[m]} :: i + 1 < m < |u| ==> u[m] == t[m - 1]
  {
    t[..i + 1] + [row] + t[i + 1..]
  }

  /** One addition. A model string the bound rule has no branch for is an error. */
  function AddComponent(t: seq<Row>, a: Addition): (r: Result<seq<Row>, TableError>)
    requires WellFormed(t)
    ensures r.Ok? ==> WellFormed(r.value)
  {
    if !HasName(t, a.line) then Ok(t)
    else
      match ParseModel(a.model)
      case None => Err(UnknownModel(a.line, a.model))
      case Some(k) =>
        var i := LastIndexOf(t, a.line);
        Ok(Splice(t, i, NewComponent(t[i], k)))
  }

  /** All additions, in dictionary order; the first failing one is the error. */
  function AddAll(t: seq<Row>, adds: seq<Addition>): (r: Result<seq<Row>, TableError>)
    requires WellFormed(t)
    ensures r.Ok? ==> WellFormed(r.value)
  {
    if adds == [] then Ok(t)
    else
      var n := |adds| - 1;
      match AddAll(t, adds[..n])
      case Err(e) => Err(e)
      case Ok(u) => AddComponent(u, adds[n])
  }

  /** The table with every row's bounds replaced by the bound rule's. */
  function WithLimits(t: seq<Row>): (r: seq<Row>)
    requires WellFormed(t)
    ensures |r| == |t|
    ensures forall i :: 0 <= i < |t| ==>
      r[i].name == t[i].name && r[i].model == t[i].model && r[i].component == t[i].component &&
      r[i].params == t[i].params && r[i].minB == Limits(t, t[i]).0 && r[i].maxB == Limits(t, t[i]).1
  {
    var lims := MinMaxLim(t);
    seq(|t|, i requires 0 <= i < |t| => t[i].(minB := lims.0[i], maxB := lims.1[i]))
  }

  /** What `update_components` returns: all additions, then recomputed bounds. */
  function Expand(t: seq<Row>, adds: seq<Addition>): Result<seq<Row>, TableError>
    requires WellFormed(t)
  {
    match AddAll(t, adds)
    case Err(e) => Err(e)
    case Ok(u) => Ok(WithLimits(u))
  }

  /** The number of additions whose line the table holds. */
  function Present(t: seq<Row>, adds: seq<Addition>): (n: nat)
    ensures n <= |adds|
  {
    if adds == [] then 0
    else
      var k := |adds| - 1;
      Present(t, adds[..k]) + (if HasName(t, adds[k].line) then 1 else 0)
  }

  /** `update_components`: the loop rebinds the table once per addition, then the bounds
      are recomputed. */
  method UpdateComponents(table: seq<Row>, additions: seq<Addition>) returns (r: Result<seq<Row>, TableError>)
    requires WellFormed(table)
    ensures r == Expand(table, additions)
  {
    var updated := table;
    var i := 0;
    while i < |additions|
      invariant 0 <= i <= |additions|
      invariant WellFormed(updated)
      invariant AddAll(table, additions[..i]) == Ok(updated)
    {
      assert additions[..i + 1][..i] == additions[..i];
      var step := AddComponent(updated, additions[i]);
      if step.Err? {
        AddAllErrorPersists(table, additions, i + 1);
        return Err(step.error);
      }
      updated := step.value;
      i := i + 1;
    }
    assert additions[..i] == additions;
    r := Ok(WithLimits(updated));
  }

  /** Once an addition fails, every longer run of additions fails with the same error. */
  lemma {:induction false} AddAllErrorPersists(t: seq<Row>, adds: seq<Addition>, k: nat)
    requires WellFormed(t) && k <= |adds| && AddAll(t, adds[..k]).Err?
    ensures AddAll(t, adds) == AddAll(t, adds[..k])
    decreases |adds| - k
  {
    if k < |adds| {
      assert adds[..k + 1][..k] == adds[..k];
      AddAllErrorPersists(t, adds, k + 1);
    } else {
      assert adds[..k] == adds;
    }
  }

  lemma {:induction false} CountNameConcat(a: seq<Row>, b: seq<Row>, name: string)
    ensures CountName(a + b, name) == CountName(a, name) + CountName(b, name)
  {
    if b == [] {
      assert a + b == a;
    } else {
      var n := |b| - 1;
      CountNameConcat(a, b[..n], name);
      assert (a + b)[..|a + b| - 1] == a + b[..n];
    }
  }

  /** A line has rows exactly when its row count is positive. */
  lemma {:induction false} CountNamePositive(t: seq<Row>, name: string)
    ensures CountName(t, name) > 0 <==> HasName(t, name)
  {
    if t != [] {
      var n := |t| - 1;
      CountNamePositive(t[..n], name);
      if HasName(t[..n], name) {
        var k :| 0 <= k < n && t[..n][k].name == name;
        assert t[k].name == name;
      }
      if HasName(t, name) && t[n].name != name {
        var k :| 0 <= k < |t| && t[k].name == name;
        assert t[..n][k].name == name;
      }
    }
  }

  /** An addition for a line the table holds fails exactly when its model string is
      unknown; an addition for any other line changes nothing. */
  lemma AddComponentOutcome(t: seq<Row>, a: Addition)
    requires WellFormed(t)
    ensures !HasName(t, a.line) ==> AddComponent(t, a) == Ok(t)
    ensures HasName(t, a.line) ==> (AddComponent(t, a).Err? <==> ParseModel(a.model).None?)
  {
  }

  /** A successful addition for a line the table holds splices exactly one row in right
      after that line's last row, and the new row becomes the line's last row; taking it
      out again gives back the original table. */
  lemma AddComponentSplices(t: seq<Row>, a: Addition)
    requires WellFormed(t) && HasName(t, a.line) && ParseModel(a.model).Some?
    ensures AddComponent(t, a).Ok?
    ensures var i := LastIndexOf(t, a.line);
      var u := AddComponent(t, a).value;
      |u| == |t| + 1 &&
      (forall m {:trigger u[m]} :: 0 <= m <= i ==> u[m] == t[m]) &&
      (forall m {:trigger u[m]} :: i + 1 < m < |u| ==> u[m] == t[m - 1]) &&
      u[i + 1].name == a.line && Some(u[i + 1].model) == ParseModel(a.model) &&
      u[i + 1].component == t[i].component + 1 &&
      |u[i + 1].params| == 3 && u[i + 1].params[0] == t[i].params[0] &&
      2.0 * u[i + 1].params[1] == t[i].params[1] && u[i + 1].params[2] == t[i].params[2] &&
      HasName(u, a.line) && LastIndexOf(u, a.line) == i + 1
  {
    var i := LastIndexOf(t, a.line);
    var u := AddComponent(t, a).value;
    var row := NewComponent(t[i], ParseModel(a.model).value);
    assert u == Splice(t, i, row);
    assert u[i + 1] == row;
    assert row.params == [t[i].params[0], t[i].params[1] / 2.0, t[i].params[2]];
    LastIndexUnique(u, a.line, i + 1);
  }

  /** The last row of a line is the one after which no row of that line follows. */
  lemma LastIndexUnique(t: seq<Row>, name: string, i: nat)
    requires i < |t| && t[i].name == name
    requires forall j :: i < j < |t| ==> t[j].name != name
    ensures HasName(t, name) && LastIndexOf(t, name) == i
  {
    var l := LastIndexOf(t, name);
    assert !(l > i) && !(l < i);
  }

  /** An addition raises the row count of its own line by one when the table holds that
      line, and leaves every other line's count and the set of line names as they were. */
  lemma AddComponentCounts(t: seq<Row>, a: Addition, name: string)
    requires WellFormed(t) && AddComponent(t, a).Ok?
    ensures var u := AddComponent(t, a).value;
      CountName(u, name) == CountName(t, name) + (if name == a.line && HasName(t, a.line) then 1 else 0) &&
      (HasName(u, name) <==> HasName(t, name))
  {
    var u := AddComponent(t, a).value;
    if HasName(t, a.line) {
      var i := LastIndexOf(t, a.line);
      var nr := u[i + 1];
      assert u == t[..i + 1] + [nr] + t[i + 1..];
      CountNameConcat(t[..i + 1] + [nr], t[i + 1..], name);
      CountNameConcat(t[..i + 1], [nr], name);
      CountNameConcat(t[..i + 1], t[i + 1..], name);
      assert t[..i + 1] + t[i + 1..] == t;
      assert CountName([nr], name) == CountName([], name) + (if nr.name == name then 1 else 0);
      CountNamePositive(t, name);
      CountNamePositive(u, name);
    }
  }

  /** A successful run of additions keeps the set of line names, and fails exactly when
      some addition for a line the table holds names an unknown model. */
  lemma {:induction false} AddAllNames(t: seq<Row>, adds: seq<Addition>)
    requires WellFormed(t)
    ensures AddAll(t, adds).Err? <==>
      exists k :: 0 <= k < |adds| && HasName(t, adds[k].line) && ParseModel(adds[k].model).None?
    ensures AddAll(t, adds).Ok? ==> forall name :: HasName(AddAll(t, adds).value, name) <==> HasName(t, name)
  {
    if adds != [] {
      var n := |adds| - 1;
      var p := adds[..n];
      var a := adds[n];
      AddAllNames(t, p);
      match AddAll(t, p)
      case Err(_) =>
        var k :| 0 <= k < |p| && HasName(t, p[k].line) && ParseModel(p[k].model).None?;
        assert adds[k] == p[k];
      case Ok(u) =>
        assert AddAll(t, adds) == AddComponent(u, a);
        assert HasName(u, a.line) <==> HasName(t, a.line);
        AddComponentOutcome(u, a);
        if AddAll(t, adds).Err? {
          assert HasName(t, adds[n].line) && ParseModel(adds[n].model).None?;
        } else {
          forall k | 0 <= k < |adds|
            ensures !(HasName(t, adds[k].line) && ParseModel(adds[k].model).None?)
          {
            if k < n {
              assert p[k] == adds[k];
            }
          }
          forall name
            ensures HasName(AddAll(t, adds).value, name) <==> HasName(t, name)
          {
            AddComponentCounts(u, a, name);
          }
        }
    }
  }


  /** Rows that sit at increasing positions `idx0` of `u` sit at increasing positions of
      `v`, when `v` is `u` with one row inserted after position `i`. */
  lemma ShiftEmbedding(t: seq<Row>, u: seq<Row>, v: seq<Row>, idx0: seq<nat>, i: nat) returns (idx: seq<nat>)
    requires |idx0| == |t| && i < |u| && |v| == |u| + 1
    requires forall j :: 0 <= j < |t| ==> idx0[j] < |u| && u[idx0[j]] == t[j]
    requires forall j, k :: 0 <= j < k < |t| ==> idx0[j] < idx0[k]
    requires forall m {:trigger v[m]} :: 0 <= m <= i ==> v[m] == u[m]
    requires forall m {:trigger v[m]} :: i + 1 < m < |v| ==> v[m] == u[m - 1]
    ensures |idx| == |t|
    ensures forall j :: 0 <= j < |t| ==> idx[j] < |v| && v[idx[j]] == t[j]
    ensures forall j, k :: 0 <= j < k < |t| ==> idx[j] < idx[k]
  {
    idx := seq(|t|, j requires 0 <= j < |t| => if idx0[j] <= i then idx0[j] else idx0[j] + 1);
    forall j | 0 <= j < |t|
      ensures idx[j] < |v| && v[idx[j]] == t[j]
    {
      if idx0[j] > i {
        assert v[idx0[j] + 1] == u[idx0[j] + 1 - 1];
      }
    }
  }

  /** A successful run of additions keeps every original row, in order (`idx` says where
      each one ends up), and adds one row per addition whose line the table holds. */
  lemma {:induction false} AddAllEmbeds(t: seq<Row>, adds: seq<Addition>) returns (idx: seq<nat>)
    requires WellFormed(t) && AddAll(t, adds).Ok?
    ensures var u := AddAll(t, adds).value;
      |u| == |t| + Present(t, adds) && |idx| == |t| &&
      (forall j :: 0 <= j < |t| ==> idx[j] < |u| && u[idx[j]] == t[j]) &&
      (forall j, k :: 0 <= j < k < |t| ==> idx[j] < idx[k])
  {
    if adds == [] {
      assert AddAll(t, adds) == Ok(t);
      idx := seq(|t|, j requires 0 <= j < |t| => j);
    } else {
      var n := |adds| - 1;
      var p := adds[..n];
      var idx0 := AddAllEmbeds(t, p);
      var u := AddAll(t, p).value;
      AddAllNames(t, p);
      var a := adds[n];
      assert AddAll(t, adds) == AddComponent(u, a);
      assert Present(t, adds) == Present(t, p) + (if HasName(t, a.line) then 1 else 0);
      AddComponentOutcome(u, a);
      if HasName(u, a.line) {
        AddComponentSplices(u, a);
        var i := LastIndexOf(u, a.line);
        idx := ShiftEmbedding(t, u, AddComponent(u, a).value, idx0, i);
      } else {
        idx := idx0;
      }
    }
  }

  /** Splitting a single-row line into two components doubles the amplitude factor of the
      original row and gives the new row factor 2: after the bound rule the original row's
      amplitude ceiling is twice its amplitude and the new row's ceiling is the original
      amplitude (twice its own, halved, amplitude). */
  lemma SplitLineDoublesCeiling(t: seq<Row>, a: Addition)
    requires WellFormed(t) && CountName(t, a.line) == 1
    requires ParseModel(a.model).Some? && ParseModel(a.model) != Some(Continuum)
    requires HasName(t, a.line)
    requires var i := LastIndexOf(t, a.line); t[i].component == 1 && t[i].model != Continuum
    ensures AddComponent(t, a).Ok?
    ensures var i := LastIndexOf(t, a.line);
      var u := AddComponent(t, a).value;
      u[i] == t[i] && Limits(u, u[i]).1[1] == Fin(2.0 * t[i].params[1]) &&
      Limits(u, u[i + 1]).1[1] == Fin(t[i].params[1])
  {
    var i := LastIndexOf(t, a.line);
    AddComponentSplices(t, a);
    var u := AddComponent(t, a).value;
    var p := t[i].params[1];
    assert u[i] == t[i];
    AddComponentCounts(t, a, a.line);
    SharedAmplitudeCeiling(u, u[i]);
    SharedAmplitudeCeiling(u, u[i + 1]);
    assert 2.0 * u[i + 1].params[1] == p;
  }

  /** A Voigt component added to a line keeps three parameters while the bound rule gives it
      four bounds, so its parameters can never lie inside its bounds. */
  lemma AddedVoigtOutOfShape(t: seq<Row>, a: Addition)
    requires WellFormed(t) && HasName(t, a.line) && ParseModel(a.model) == Some(Voigt)
    ensures AddComponent(t, a).Ok?
    ensures var i := LastIndexOf(t, a.line);
      var w := WithLimits(AddComponent(t, a).value);
      |w[i + 1].params| == 3 && |w[i + 1].minB| == 4 && |w[i + 1].maxB| == 4 &&
      !Boxed(w[i + 1].params, w[i + 1].minB, w[i + 1].maxB)
  {
    AddComponentSplices(t, a);
  }
}
