/**
 * The logic of the multi-asset view (src/views/multi_assets.rs) that is not rendering:
 * the scan of a frame's schema for numeric columns, the choice of the `_mean` factor
 * columns to display, the PCA and K-means effect on the grouped matrix, and the
 * signals the factor buttons update.
 */
module MultiAssets {
  import opened Wrappers
  import opened Strs
  import opened Matrices
  import opened MultiTypeMat
  import opened Pca
  import opened KMeans

  // ---- the numeric columns of the schema ----

  datatype DType = Float64 | Float32 | Int64 | Int32 | Int16 | Int8
                 | UInt64 | UInt32 | UInt16 | UInt8 | OtherType

  /** The polars types the grouped mean is taken over. */
  predicate IsNumeric(t: DType)
  {
    !t.OtherType?
  }

  /** The names, in schema order, of the numeric columns that are not grouping keys. */
  function NumericNames(schema: seq<(string, DType)>, groupCols: seq<string>): (r: seq<string>)
    ensures |r| <= |schema|
  {
    if |schema| == 0 then []
    else
      var last := schema[|schema| - 1];
      NumericNames(schema[..|schema| - 1], groupCols) +
        (if last.0 !in groupCols && IsNumeric(last.1) then [last.0] else [])
  }

  /** A name is listed exactly when some schema entry of that name is numeric and not a grouping key. */
  lemma {:induction false} NumericNamesMembers(schema: seq<(string, DType)>, groupCols: seq<string>, x: string)
    ensures x in NumericNames(schema, groupCols) <==>
      x !in groupCols && exists k :: 0 <= k < |schema| && schema[k].0 == x && IsNumeric(schema[k].1)
  {
    if |schema| > 0 {
      var init := schema[..|schema| - 1];
      NumericNamesMembers(init, groupCols, x);
      if exists k :: 0 <= k < |init| && init[k].0 == x && IsNumeric(init[k].1) {
        var k :| 0 <= k < |init| && init[k].0 == x && IsNumeric(init[k].1);
        assert schema[k] == init[k];
      }
      if exists k :: 0 <= k < |schema| && schema[k].0 == x && IsNumeric(schema[k].1) {
        var k :| 0 <= k < |schema| && schema[k].0 == x && IsNumeric(schema[k].1);
        if k < |init| {
          assert init[k] == schema[k];
        }
      }
    }
  }

  /** The `for tup in schm.iter()` loop that pushes into `nms`. */
  method NumericColumns(schema: seq<(string, DType)>, groupCols: seq<string>) returns (nms: seq<string>)
    ensures nms == NumericNames(schema, groupCols)
  {
    nms := [];
    var k := 0;
    while k < |schema|
      invariant 0 <= k <= |schema|
      invariant nms == NumericNames(schema[..k], groupCols)
    {
      assert schema[..k + 1][..k] == schema[..k];
      var (name, dtype) := schema[k];
      if name in groupCols {
        k := k + 1;
        continue;
      }
      if IsNumeric(dtype) {
        nms := nms + [name];
      }
      k := k + 1;
    }
    assert schema[..k] == schema;
  }

  // ---- the factor columns to display ----

  const MEAN_SUFFIX: string := "_mean"

  /** `format!("{name}_mean")`: the grouped matrix's name for a factor. */
  function MeanName(name: string): (r: string)
    ensures |r| == |name| + |MEAN_SUFFIX| && r[..|name|] == name && EndsWith(r, MEAN_SUFFIX)
  {
    name + MEAN_SUFFIX
  }

  /** `mat.find_index_f64(name).is_some()`. */
  predicate Resolves(names: Option<seq<(nat, string)>>, name: string)
  {
    FindIndex(names, name).Some?
  }

  /** `selected_mean`: each factor's mean name, kept when the grouped matrix has that column. */
  function SelectedMean(factors: seq<string>, names: Option<seq<(nat, string)>>): (r: seq<string>)
    ensures |r| <= |factors|
    ensures forall t :: 0 <= t < |r| ==> EndsWith(r[t], MEAN_SUFFIX) && Resolves(names, r[t])
  {
    if |factors| == 0 then []
    else
      var m := MeanName(factors[0]);
      (if Resolves(names, m) then [m] else []) + SelectedMean(factors[1..], names)
  }

  /** A name is selected exactly when it is the mean name of a listed factor and resolves. */
  lemma {:induction false} SelectedMeanMembers(factors: seq<string>, names: Option<seq<(nat, string)>>, x: string)
    ensures x in SelectedMean(factors, names) <==>
      Resolves(names, x) && exists k :: 0 <= k < |factors| && x == MeanName(factors[k])
  {
    if |factors| > 0 {
      SelectedMeanMembers(factors[1..], names, x);
      if exists k :: 0 <= k < |factors| && x == MeanName(factors[k]) {
        var k :| 0 <= k < |factors| && x == MeanName(factors[k]);
        if k > 0 {
          assert factors[1..][k - 1] == factors[k];
        }
      }
      if exists k :: 0 <= k < |factors[1..]| && x == MeanName(factors[1..][k]) {
        var k :| 0 <= k < |factors[1..]| && x == MeanName(factors[1..][k]);
        assert factors[k + 1] == factors[1..][k];
      }
    }
  }

  /** When every mean name resolves, nothing is filtered out and the factor order is kept. */
  lemma {:induction false} SelectedMeanKeepsOrder(factors: seq<string>, names: Option<seq<(nat, string)>>)
    requires forall k :: 0 <= k < |factors| ==> Resolves(names, MeanName(factors[k]))
    ensures SelectedMean(factors, names) == seq(|factors|, k requires 0 <= k < |factors| => MeanName(factors[k]))
  {
    if |factors| > 0 {
      var rest := factors[1..];
      assert forall k :: 0 <= k < |rest| ==> rest[k] == factors[k + 1];
      SelectedMeanKeepsOrder(rest, names);
      assert Resolves(names, MeanName(factors[0]));
      assert SelectedMean(factors, names) == [MeanName(factors[0])] + SelectedMean(rest, names);
    }
  }

  /** The factors listed in a category, in factor order. */
  function InCategory(factors: seq<string>, category: seq<string>): (r: seq<string>)
    ensures forall t :: 0 <= t < |r| ==> r[t] in category && r[t] in factors
  {
    if |factors| == 0 then []
    else (if factors[0] in category then [factors[0]] else []) + InCategory(factors[1..], category)
  }

  /** `cross_factors` / `idiosyn_factors` before the fallback: the category's factors, mapped and resolved. */
  function CategoryFactors(factors: seq<string>, category: seq<string>, names: Option<seq<(nat, string)>>): seq<string>
  {
    SelectedMean(InCategory(factors, category), names)
  }

  lemma {:induction false} InCategoryMembers(factors: seq<string>, category: seq<string>, f: string)
    ensures f in InCategory(factors, category) <==> f in factors && f in category
  {
    if |factors| > 0 {
      InCategoryMembers(factors[1..], category, f);
      assert f in factors <==> f == factors[0] || f in factors[1..];
    }
  }

  /** A category list holds exactly the resolving mean names of the listed factors in that category. */
  lemma CategoryFactorsMembers(factors: seq<string>, category: seq<string>, names: Option<seq<(nat, string)>>, x: string)
    ensures x in CategoryFactors(factors, category, names) <==>
      Resolves(names, x) && exists f :: f in factors && f in category && x == MeanName(f)
  {
    var inCat := InCategory(factors, category);
    SelectedMeanMembers(inCat, names, x);
    if exists k :: 0 <= k < |inCat| && x == MeanName(inCat[k]) {
      var k :| 0 <= k < |inCat| && x == MeanName(inCat[k]);
      assert inCat[k] in factors && inCat[k] in category;
    }
    if exists f :: f in factors && f in category && x == MeanName(f) {
      var f :| f in factors && f in category && x == MeanName(f);
      InCategoryMembers(factors, category, f);
      var k :| 0 <= k < |inCat| && inCat[k] == f;
    }
  }

  /** Every labelled numeric column whose name ends in "_mean", in label order. */
  function MeanColumnsIn(entries: seq<(nat, string)>): (r: seq<string>)
    ensures forall t :: 0 <= t < |r| ==> EndsWith(r[t], MEAN_SUFFIX)
  {
    if |entries| == 0 then []
    else (if EndsWith(entries[0].1, MEAN_SUFFIX) then [entries[0].1] else []) + MeanColumnsIn(entries[1..])
  }

  /** The last fallback: the "_mean" columns of the grouped matrix, none without labels. */
  function MeanColumns(names: Option<seq<(nat, string)>>): seq<string>
  {
    if names.Some? then MeanColumnsIn(names.value) else []
  }

  lemma {:induction false} MeanColumnsInMembers(entries: seq<(nat, string)>, x: string)
    ensures x in MeanColumnsIn(entries) <==>
      EndsWith(x, MEAN_SUFFIX) && exists k :: 0 <= k < |entries| && entries[k].1 == x
  {
    if |entries| > 0 {
      MeanColumnsInMembers(entries[1..], x);
      if exists k :: 0 <= k < |entries| && entries[k].1 == x {
        var k :| 0 <= k < |entries| && entries[k].1 == x;
        if k > 0 {
          assert entries[1..][k - 1] == entries[k];
        }
      }
      if exists k :: 0 <= k < |entries[1..]| && entries[1..][k].1 == x {
        var k :| 0 <= k < |entries[1..]| && entries[1..][k].1 == x;
        assert entries[k + 1] == entries[1..][k];
      }
    }
  }

  /** The fallback holds exactly the labelled columns ending in "_mean", and each resolves. */
  lemma MeanColumnsMembers(names: Option<seq<(nat, string)>>, x: string)
    ensures x in MeanColumns(names) <==> EndsWith(x, MEAN_SUFFIX) && Resolves(names, x)
  {
    if names.Some? {
      MeanColumnsInMembers(names.value, x);
    }
  }

  /**
   * `(cross_factors, idiosyn_factors)`: when both category lists come out empty,
   * the cross-sectional list falls back to `selected_mean`, or, when that is empty
   * too, to every "_mean" column of the grouped matrix.
   */
  function FactorGroups(factors: seq<string>, crossCategory: seq<string>, idioCategory: seq<string>,
                        names: Option<seq<(nat, string)>>): (seq<string>, seq<string>)
  {
    var selected := SelectedMean(factors, names);
    var cross := CategoryFactors(factors, crossCategory, names);
    var idio := CategoryFactors(factors, idioCategory, names);
    if |cross| == 0 && |idio| == 0 then
      (if |selected| > 0 then selected else MeanColumns(names), idio)
    else (cross, idio)
  }

  /**
   * Every displayed factor is a "_mean" column the grouped matrix has; the category
   * lists are used as they are unless both are empty; the fallback prefers the
   * selected factors and otherwise lists every "_mean" column.
   */
  lemma FactorGroupsShown(factors: seq<string>, crossCategory: seq<string>, idioCategory: seq<string>,
                          names: Option<seq<(nat, string)>>)
    ensures var (cross, idio) := FactorGroups(factors, crossCategory, idioCategory, names);
      (forall x :: x in cross + idio ==> EndsWith(x, MEAN_SUFFIX) && Resolves(names, x)) &&
      idio == CategoryFactors(factors, idioCategory, names) &&
      (|CategoryFactors(factors, crossCategory, names)| > 0 || |idio| > 0 ==>
        cross == CategoryFactors(factors, crossCategory, names)) &&
      (|CategoryFactors(factors, crossCategory, names)| == 0 && |idio| == 0 ==>
        (|SelectedMean(factors, names)| > 0 ==> cross == SelectedMean(factors, names)) &&
        (|SelectedMean(factors, names)| == 0 ==> cross == MeanColumns(names)))
  {
    var (cross, idio) := FactorGroups(factors, crossCategory, idioCategory, names);
    forall x | x in cross + idio
      ensures EndsWith(x, MEAN_SUFFIX) && Resolves(names, x)
    {
      MeanColumnsMembers(names, x);
    }
  }

  // ---- the PCA and K-means effect ----

  /** `NmsPca`: what the clustering chart is given. */
  datatype NmsPca = NmsPca(components: Mat<real>, records: Mat<real>, labels: Option<Mat<real>>, nms: seq<string>)

  /** The PCA keeps two components and drops columns 0, 1 and 2. */
  const PCA_K: nat := 2
  const PCA_DROP: seq<nat> := [0, 1, 2]

  /** What the effect leaves in `pca_nms` for the grouped matrix `gp`. */
  ghost function EffectResult(gp: Option<Mat<F64>>,
                              fit: (Mat<real>, nat) -> Result<(Mat<F64>, Mat<F64>), string>,
                              sqrt: real -> F64,
                              kfit: (Mat<real>, nat) -> Result<seq<nat>, string>): Option<NmsPca>
    requires gp.Some? ==> Valid(gp.value)
    requires FitShapes(fit)
  {
    if gp.None? || gp.value.nrows < 2 || gp.value.ncols < 2 then None
    else
      var p := PcaResult(gp.value, PCA_K, Some(PCA_DROP), fit);
      if p.Ok? && (p.value.0.nrows == 0 || p.value.0.ncols < 2) then None
      else if p.Err? then None
      else
        var labels := KMeansResult(gp.value, sqrt, kfit);
        Some(NmsPca(p.value.1, p.value.0, if labels.Ok? then Some(labels.value) else None, []))
  }

  /** No grouped matrix, or one with fewer than two rows or columns, leaves `pca_nms` None. */
  lemma EffectSkipsSmall(gp: Option<Mat<F64>>, fit: (Mat<real>, nat) -> Result<(Mat<F64>, Mat<F64>), string>,
                         sqrt: real -> F64, kfit: (Mat<real>, nat) -> Result<seq<nat>, string>)
    requires gp.Some? ==> Valid(gp.value)
    requires FitShapes(fit)
    requires gp.None? || gp.value.nrows < 2 || gp.value.ncols < 2
    ensures EffectResult(gp, fit, sqrt, kfit).None?
  {
  }

  /**
   * `pca_nms` is set exactly when the PCA succeeds with a non-empty score matrix of at
   * least two columns; it then holds those scores and loadings, and it carries labels
   * exactly when the K-means step succeeds as well.
   */
  lemma EffectOutcome(gp: Option<Mat<F64>>, fit: (Mat<real>, nat) -> Result<(Mat<F64>, Mat<F64>), string>,
                      sqrt: real -> F64, kfit: (Mat<real>, nat) -> Result<seq<nat>, string>)
    requires gp.Some? && Valid(gp.value) && gp.value.nrows >= 2 && gp.value.ncols >= 2
    requires FitShapes(fit)
    ensures var p := PcaResult(gp.value, PCA_K, Some(PCA_DROP), fit);
      var r := EffectResult(gp, fit, sqrt, kfit);
      (r.Some? <==> p.Ok? && p.value.0.nrows > 0 && p.value.0.ncols >= 2) &&
      (r.Some? ==> (r.value.records == p.value.0 && r.value.components == p.value.1 &&
        (r.value.labels.Some? <==> KMeansResult(gp.value, sqrt, kfit).Ok?)))
  {
  }

  /**
   * A chart is only ever produced from at least three firms and at least two
   * non-key columns with variance: with fewer the PCA scores have fewer than two columns.
   */
  lemma EffectNeedsTwoVaryingColumns(gp: Option<Mat<F64>>, fit: (Mat<real>, nat) -> Result<(Mat<F64>, Mat<F64>), string>,
                                     sqrt: real -> F64, kfit: (Mat<real>, nat) -> Result<seq<nat>, string>)
    requires gp.Some? ==> Valid(gp.value)
    requires FitShapes(fit)
    requires EffectResult(gp, fit, sqrt, kfit).Some?
    ensures gp.Some? && gp.value.nrows >= 3 && |Kept(Records(gp.value, Some(PCA_DROP)))| >= 2
  {
    var x := gp.value;
    var records := Records(x, Some(PCA_DROP));
    var keep := Kept(records);
    var p := PcaResult(x, PCA_K, Some(PCA_DROP), fit);
    assert records.nrows >= 2 && records.ncols > 0;
    assert |keep| > 0;
    KMaxPositive(|keep|, x.nrows);
    var kk := ClampK(PCA_K, KMax(|keep|, x.nrows));
    PcaFitted(x, PCA_K, Some(PCA_DROP), fit);
    assert p.value.0.ncols == kk;
  }

  // ---- the view's signals ----

  /** The identifying columns every factor list starts with. */
  const ID_FACTORS: seq<string> := ["date", "gvkey", "iid", "excntry"]

  const INITIAL_FACTORS: seq<string> :=
    ID_FACTORS + ["dolvol", "rvolhl_21d", "ret_60_12", "ret_3_1", "inv_gr1", "debt_gr3", "sale_gr3", "capx_gr3"]

  /** The grouping keys the grouped matrix is built over. */
  const GROUP_COLS: seq<string> := ["gvkey", "iid", "excntry"]

  /** The signals of the `MultiAsset` component that its handlers and effect update. */
  class MultiAssetView {
    var selected: string
    var factor: string
    var factorList: seq<string>
    var submitCount: nat
    var pcaNms: Option<NmsPca>

    /** The factor list always starts with the identifying columns. */
    predicate Valid()
      reads this
    {
      |factorList| >= |ID_FACTORS| && factorList[..|ID_FACTORS|] == ID_FACTORS
    }

    constructor ()
      ensures Valid()
      ensures selected == "TUR" && factor == "Price" && factorList == INITIAL_FACTORS
      ensures submitCount == 0 && pcaNms.None?
    {
      selected := "TUR";
      factor := "Price";
      factorList := INITIAL_FACTORS;
      submitCount := 0;
      pcaNms := None;
    }

    /** Choosing a factor in the dropdown shows it and appends it to the list. */
    method ChooseFactor(val: string)
      requires Valid()
      modifies this
      ensures Valid()
      ensures factor == val && factorList == old(factorList) + [val]
      ensures selected == old(selected) && submitCount == old(submitCount) && pcaNms == old(pcaNms)
    {
      factor := val;
      factorList := factorList + [val];
      assert factorList[..|ID_FACTORS|] == old(factorList)[..|ID_FACTORS|];
    }

    /** "Clear Factors" resets the list to the identifying columns. */
    method ClearFactors()
      modifies this
      ensures Valid() && factorList == ID_FACTORS
      ensures selected == old(selected) && factor == old(factor) && submitCount == old(submitCount) && pcaNms == old(pcaNms)
    {
      factorList := ID_FACTORS;
    }

    /** "submit" bumps the counter the data fetch reruns on. */
    method Submit()
      modifies this
      ensures submitCount == old(submitCount) + 1
      ensures selected == old(selected) && factor == old(factor) && factorList == old(factorList) && pcaNms == old(pcaNms)
    {
      submitCount := submitCount + 1;
    }

    /** The effect that runs the PCA and then the K-means step on the grouped matrix. */
    method RunPcaEffect(gp: Option<Mat<F64>>, fit: (Mat<real>, nat) -> Result<(Mat<F64>, Mat<F64>), string>,
                        sqrt: real -> F64, kfit: (Mat<real>, nat) -> Result<seq<nat>, string>)
      requires gp.Some? ==> Matrices.Valid(gp.value)
      requires FitShapes(fit)
      modifies this
      ensures pcaNms == EffectResult(gp, fit, sqrt, kfit)
      ensures selected == old(selected) && factor == old(factor) && factorList == old(factorList) && submitCount == old(submitCount)
    {
      if gp.None? {
        pcaNms := None;
        return;
      }
      var arr := gp.value;
      if arr.nrows < 2 || arr.ncols < 2 {
        pcaNms := None;
        return;
      }
      var p := PcaFitTransform(arr, PCA_K, Some(PCA_DROP), fit);
      match p {
        case Ok((records, components)) =>
          if records.nrows == 0 || records.ncols < 2 {
            pcaNms := None;
            return;
          }
          pcaNms := Some(NmsPca(components, records, None, []));
        case Err(_) =>
          pcaNms := None;
      }
      var labs := KMeansClusters(arr, sqrt, kfit);
      if labs.Ok? && pcaNms.Some? {
        pcaNms := Some(pcaNms.value.(labels := Some(labs.value)));
      }
    }
  }
}
