/**
 * Comparison arithmetic of lnt/server/ui/regression_views.py: PrecomputedCR,
 * a comparison result derived from a field change's stored old and new
 * values, and calc_impact, the combined comparison of several field changes.
 */
module Comparison {
  import opened Wrappers

  /** The REGRESSED status of the analysis module; its other statuses are not part of this model. */
  datatype ValueStatus = Regressed

  datatype ComparisonResult = ComparisonResult(
    previous: real,
    current: real,
    delta: real,
    pctDelta: real,
    biggerIsBetter: bool)

  /** A detected change of one field of one test between two runs. */
  datatype FieldChange = FieldChange(oldValue: Option<real>, newValue: real, biggerIsBetter: bool)

  /**
   * PrecomputedCR(old, new, bigger_is_better): the delta and its ratio to the
   * old value. The constructor never stores its third argument, so the flag
   * keeps the class default, false. A zero old value raises ZeroDivisionError.
   */
  function Precomputed(oldValue: real, newValue: real, biggerIsBetter: bool): (r: Result<ComparisonResult>)
    ensures r.Err? <==> oldValue == 0.0
    ensures r.Err? ==> r.error == ZeroDivisionError
    ensures r.Ok? ==>
      && r.value.previous == oldValue
      && r.value.current == newValue
      && r.value.previous + r.value.delta == r.value.current
      && r.value.pctDelta * oldValue == r.value.delta
      && !r.value.biggerIsBetter
  {
    if oldValue == 0.0 then Err(ZeroDivisionError)
    else Ok(ComparisonResult(oldValue, newValue, newValue - oldValue, (newValue - oldValue) / oldValue, false))
  }

  /** PrecomputedCR.get_test_status. */
  function TestStatus(c: ComparisonResult): bool {
    true
  }

  /** PrecomputedCR.get_value_status. */
  function GetValueStatus(c: ComparisonResult): ValueStatus {
    Regressed
  }

  /** A precomputed comparison scales the old value by 1 + pct_delta into the new one, and always reads as a regression. */
  lemma PrecomputedScales(oldValue: real, newValue: real, biggerIsBetter: bool)
    requires oldValue != 0.0
    ensures Precomputed(oldValue, newValue, biggerIsBetter).Ok?
    ensures var c := Precomputed(oldValue, newValue, biggerIsBetter).value;
      && newValue == oldValue * (1.0 + c.pctDelta)
      && TestStatus(c) && GetValueStatus(c) == Regressed
  {
    var c := Precomputed(oldValue, newValue, biggerIsBetter).value;
    calc {
      oldValue * (1.0 + c.pctDelta);
      oldValue + c.pctDelta * oldValue;
      oldValue + c.delta;
      newValue;
    }
  }

  /**
   * The comparison of one field change: PrecomputedCR of its stored values,
   * or, when it has no old value, the live comparison `live` computes.
   */
  function CompareOne(fc: FieldChange, live: FieldChange -> ComparisonResult): Result<ComparisonResult> {
    match fc.oldValue
    case None => Ok(live(fc))
    case Some(v) => Precomputed(v, fc.newValue, fc.biggerIsBetter)
  }

  /** Lines 128-136: the comparisons of the present entries, in order; the first failure stops it. */
  function Compared(fcs: seq<Option<FieldChange>>, live: FieldChange -> ComparisonResult): (r: Result<seq<ComparisonResult>>)
    ensures r.Err? ==> r.error == ZeroDivisionError
    ensures r.Ok? ==> |r.value| <= |fcs|
  {
    if fcs == [] then Ok([])
    else
      var n := |fcs| - 1;
      match Compared(fcs[..n], live)
      case Err(e) => Err(e)
      case Ok(crs) =>
        match fcs[n]
        case None => Ok(crs)
        case Some(fc) =>
          match CompareOne(fc, live)
          case Err(e) => Err(e)
          case Ok(c) => Ok(crs + [c])
  }

  function SumPrevious(crs: seq<ComparisonResult>): real {
    if crs == [] then 0.0 else SumPrevious(crs[..|crs| - 1]) + crs[|crs| - 1].previous
  }

  function SumCurrent(crs: seq<ComparisonResult>): real {
    if crs == [] then 0.0 else SumCurrent(crs[..|crs| - 1]) + crs[|crs| - 1].current
  }

  /** Lines 137-143: what calc_impact returns. */
  function Impact(fcs: seq<Option<FieldChange>>, live: FieldChange -> ComparisonResult): Result<ComparisonResult> {
    match Compared(fcs, live)
    case Err(e) => Err(e)
    case Ok(crs) =>
      if crs != [] then Precomputed(SumPrevious(crs), SumCurrent(crs), crs[0].biggerIsBetter)
      else Precomputed(1.0, 1.0, true)
  }

  /** calc_impact: collects the comparisons in a loop, then combines their sums. */
  method CalcImpact(fcs: seq<Option<FieldChange>>, live: FieldChange -> ComparisonResult) returns (r: Result<ComparisonResult>)
    ensures r == Impact(fcs, live)
  {
    var crs: seq<ComparisonResult> := [];
    for i := 0 to |fcs|
      invariant Compared(fcs[..i], live) == Ok(crs)
    {
      assert fcs[..i + 1][..i] == fcs[..i];
      if fcs[i].None? {
        continue;
      }
      var cr := CompareOne(fcs[i].value, live);
      if cr.Err? {
        assert Compared(fcs[..i + 1], live) == Err(cr.error);
        ComparedErrSticks(fcs[..i + 1], fcs[i + 1..], live);
        assert fcs[..i + 1] + fcs[i + 1..] == fcs;
        return Err(cr.error);
      }
      crs := crs + [cr.value];
    }
    assert fcs[..|fcs|] == fcs;
    if crs != [] {
      r := Precomputed(SumPrevious(crs), SumCurrent(crs), crs[0].biggerIsBetter);
    } else {
      r := Precomputed(1.0, 1.0, true);
    }
  }

  /** A failure is never undone by later entries. */
  lemma {:induction false} ComparedErrSticks(a: seq<Option<FieldChange>>, b: seq<Option<FieldChange>>, live: FieldChange -> ComparisonResult)
    requires Compared(a, live).Err?
    ensures Compared(a + b, live) == Compared(a, live)
  {
    if b == [] {
      assert a + b == a;
    } else {
      var n := |b| - 1;
      assert (a + b)[..|a| + n] == a + b[..n];
      ComparedErrSticks(a, b[..n], live);
    }
  }

  /** The comparisons of a concatenation are those of its parts, concatenated; it fails when either part does. */
  lemma {:induction false} ComparedConcat(a: seq<Option<FieldChange>>, b: seq<Option<FieldChange>>, live: FieldChange -> ComparisonResult)
    ensures Compared(a + b, live).Err? <==> Compared(a, live).Err? || Compared(b, live).Err?
    ensures Compared(a + b, live).Ok? ==> Compared(a + b, live).value == Compared(a, live).value + Compared(b, live).value
  {
    if b == [] {
      assert a + b == a;
    } else {
      var n := |b| - 1;
      assert (a + b)[..|a| + n] == a + b[..n];
      assert (a + b)[|a| + n] == b[n];
      ComparedConcat(a, b[..n], live);
      if Compared(a, live).Err? {
        ComparedErrSticks(a, b, live);
      }
    }
  }

  lemma {:induction false} SumsConcat(x: seq<ComparisonResult>, y: seq<ComparisonResult>)
    ensures SumPrevious(x + y) == SumPrevious(x) + SumPrevious(y)
    ensures SumCurrent(x + y) == SumCurrent(x) + SumCurrent(y)
  {
    if y == [] {
      assert x + y == x;
    } else {
      var n := |y| - 1;
      assert (x + y)[..|x| + n] == x + y[..n];
      SumsConcat(x, y[..n]);
    }
  }

  /** The impact does not depend on the order of the field changes: two halves can be swapped. */
  lemma ImpactOrderIrrelevant(a: seq<Option<FieldChange>>, b: seq<Option<FieldChange>>, live: FieldChange -> ComparisonResult)
    ensures Impact(a + b, live) == Impact(b + a, live)
  {
    ComparedConcat(a, b, live);
    ComparedConcat(b, a, live);
    if Compared(a + b, live).Ok? {
      var ca, cb := Compared(a, live).value, Compared(b, live).value;
      SumsConcat(ca, cb);
      SumsConcat(cb, ca);
    }
  }

  /** calc_impact skips missing field changes. */
  lemma ImpactSkipsMissing(a: seq<Option<FieldChange>>, b: seq<Option<FieldChange>>, live: FieldChange -> ComparisonResult)
    ensures Impact(a + [None] + b, live) == Impact(a + b, live)
  {
    assert Compared([None], live) == Ok([]) by {
      var one: seq<Option<FieldChange>> := [None];
      assert one[..0] == [];
    }
    ComparedConcat(a, [None], live);
    ComparedConcat(a + [None], b, live);
    ComparedConcat(a, b, live);
  }

  /** Without any present field change the impact is the neutral (1, 1, 0, 0). */
  lemma {:induction false} ImpactOfNothing(fcs: seq<Option<FieldChange>>, live: FieldChange -> ComparisonResult)
    requires forall i :: 0 <= i < |fcs| ==> fcs[i] == None
    ensures Compared(fcs, live) == Ok([])
    ensures Impact(fcs, live) == Ok(ComparisonResult(1.0, 1.0, 0.0, 0.0, false))
  {
    if fcs != [] {
      ImpactOfNothing(fcs[..|fcs| - 1], live);
    }
  }

  /** The impact of a single precomputed field change is that change's own comparison. */
  lemma ImpactOfOne(fc: FieldChange, live: FieldChange -> ComparisonResult)
    requires fc.oldValue.Some?
    ensures Impact([Some(fc)], live) == Precomputed(fc.oldValue.value, fc.newValue, fc.biggerIsBetter)
  {
    assert [Some(fc)][..0] == [];
    var crs := Compared([Some(fc)], live);
    if crs.Ok? {
      var c := Precomputed(fc.oldValue.value, fc.newValue, fc.biggerIsBetter).value;
      assert crs.value == [c];
      assert [c][..0] == [];
      assert SumPrevious([c]) == c.previous && SumCurrent([c]) == c.current;
    } else {
      var none: seq<Option<FieldChange>> := [];
      assert Compared(none, live) == Ok([]);
      assert [Some(fc)][..0] == none;
      assert CompareOne(fc, live).Err?;
    }
  }

  /** With some comparison collected, the impact compares the summed old values with the summed new ones. */
  lemma ImpactIsSumOfParts(a: seq<Option<FieldChange>>, b: seq<Option<FieldChange>>, live: FieldChange -> ComparisonResult)
    requires Impact(a, live).Ok? && Impact(b, live).Ok?
    requires Compared(a, live).value != [] && Compared(b, live).value != []
    requires Impact(a, live).value.previous + Impact(b, live).value.previous != 0.0
    ensures Impact(a + b, live).Ok?
    ensures Impact(a + b, live).value.previous == Impact(a, live).value.previous + Impact(b, live).value.previous
    ensures Impact(a + b, live).value.current == Impact(a, live).value.current + Impact(b, live).value.current
  {
    ComparedConcat(a, b, live);
    SumsConcat(Compared(a, live).value, Compared(b, live).value);
  }
}
