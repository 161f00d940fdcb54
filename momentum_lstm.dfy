/**
 * `build_request` for the momentum model (src/model_request/momentum_lstm.rs):
 * the training request carries its whole job description as JSON in the query;
 * the backtest request carries five percent-encoded query parameters. The JSON
 * text and the percent-encoding are not part of this model: they are the
 * `render` and `encode` parameters.
 */
module MomentumLstm {
  import opened Wrappers
  import Json
  import Strs
  import InstrumentIds
  import opened ModelRequest

  datatype TrainSpec = TrainSpec(
    trainerPath: string,
    trainerClass: string,
    timeSteps: nat,
    inputDim: nat,
    valSplit: real,
    testSplit: real,
    epochs: nat,
    batchSize: Option<nat>,
    verbose: nat,
    shuffleBeforeSplit: bool,
    seed: nat,
    saveEveryEpoch: bool,
    saveWeightsOnly: bool,
    monitor: string,
    saveBestOnly: bool,
    featureNames: Json.Value,
    featureSpec: Json.Value,
    tfrecordOut: string,
    writerPath: string,
    readerPath: string,
    sequenceLength: nat,
    horizon: nat,
    stride: nat,
    groupCol: string,
    returnCol: string,
    sigmaCol: string,
    costCol: string,
    includeCost: bool,
    gzip: bool,
    shuffle: bool)

  datatype BacktestSpec = BacktestSpec(feats: string, modelPath: string, outCsv: string)

  type Action = ModelAction<TrainSpec, BacktestSpec>

  const ACCEPT_JSON: (string, string) := ("Accept", "application/json")
  const CONTENT_TYPE_JSON: (string, string) := ("Content-Type", "application/json")

  /** A JSON array of strings. */
  function StrArr(xs: seq<string>): (v: Json.Value)
    ensures v.Arr? && |v.items| == |xs|
  {
    Json.Arr(seq(|xs|, i requires 0 <= i < |xs| => Json.Str(xs[i])))
  }

  /** A JSON array of integers. */
  function IntArr(xs: seq<int>): (v: Json.Value)
    ensures v.Arr? && |v.items| == |xs|
  {
    Json.Arr(seq(|xs|, i requires 0 <= i < |xs| => Json.Int(xs[i])))
  }

  /** The "write" section: how the backend writes the training records. */
  function WriteJson(p: UiParams, spec: TrainSpec): Json.Value
  {
    Json.Obj(map[
      "column_set" := StrArr(["instrument_id", "bin", "t0", "t1", "mean_price", "ret"]),
      "srt" := StrArr(["instrument_id", "bin"]),
      "exclude_cols" := StrArr(["instrument_id", "bin", "t0", "t1", "ret", "sigma", "cost"]),
      "query_params" := Json.Arr([Json.Str(p.binSize), IntArr(p.instrumentIds)]),
      "out_path" := Json.Str(spec.tfrecordOut),
      "attr" := Json.Str("write_timeseries_tfrecord_for_sharpe_from_polars"),
      "writer_path" := Json.Str(spec.writerPath),
      "feature_names" := spec.featureNames,
      "target_col" := Json.Null,
      "time_col" := Json.Null,
      "sequence_length" := Json.Int(spec.sequenceLength),
      "horizon" := Json.Int(spec.horizon),
      "stride" := Json.Int(spec.stride),
      "group_col" := Json.Str(spec.groupCol),
      "compress" := Json.Bool(true),
      "return_col" := Json.Str(spec.returnCol),
      "sigma_col" := Json.Str(spec.sigmaCol),
      "cost_col" := Json.Str(spec.costCol)])
  }

  /** The "load" section: how the backend reads the records back; the batch size defaults to 5. */
  function LoadJson(spec: TrainSpec): Json.Value
  {
    Json.Obj(map[
      "reader_py_path" := Json.Str(spec.readerPath),
      "tfrecord_paths" := StrArr([spec.tfrecordOut]),
      "attr" := Json.Str("load_sharpe_timeseries_dataset"),
      "feature_spec" := spec.featureSpec,
      "label" := Json.Null,
      "label_dtype" := Json.Null,
      "batch_size" := Json.Int(if spec.batchSize.Some? then spec.batchSize.value else 5),
      "shuffle" := Json.Bool(spec.shuffle),
      "gzip" := Json.Bool(spec.gzip),
      "include_cost" := Json.Bool(spec.includeCost)])
  }

  /** The "train" section; the batch size stays `null` when unset and the run is named "run" by default. */
  function TrainJson(p: UiParams, spec: TrainSpec): Json.Value
  {
    Json.Obj(map[
      "trainer_path" := Json.Str(spec.trainerPath),
      "class" := Json.Str(spec.trainerClass),
      "attr" := Json.Str("train"),
      "time_steps" := Json.Int(spec.timeSteps),
      "input_dim" := Json.Int(spec.inputDim),
      "val_split" := Json.Num(spec.valSplit),
      "test_split" := Json.Num(spec.testSplit),
      "epochs" := Json.Int(spec.epochs),
      "batch_size" := Json.OptInt(if spec.batchSize.Some? then Some(spec.batchSize.value as int) else None),
      "verbose" := Json.Int(spec.verbose),
      "shuffle_before_split" := Json.Bool(spec.shuffleBeforeSplit),
      "seed" := Json.Int(spec.seed),
      "save_every_epoch" := Json.Bool(spec.saveEveryEpoch),
      "save_weights_only" := Json.Bool(spec.saveWeightsOnly),
      "monitor" := Json.Str(spec.monitor),
      "save_best_only" := Json.Bool(spec.saveBestOnly),
      "run_name" := Json.Str(p.runName.UnwrapOr("run"))])
  }

  /** The database section, then the three job sections (`req_json`). */
  function ReqJson(p: UiParams, spec: TrainSpec): Json.Value
  {
    Json.Obj(map[
      "db" := Json.Obj(map[
        "url" := Json.Str(p.db.url),
        "user" := Json.Str(p.db.user),
        "pass" := Json.Str(p.db.pass),
        "ns" := Json.Str(p.db.ns),
        "dbname" := Json.Str(p.db.db)]),
      "write" := WriteJson(p, spec),
      "load" := LoadJson(spec),
      "train" := TrainJson(p, spec)])
  }

  /** `db.url.trim_end_matches('/')`: the server address without trailing slashes. */
  function Base(p: UiParams): (base: string)
    ensures Strs.StartsWith(p.db.url, base)
    ensures |base| > 0 ==> base[|base| - 1] != '/'
    ensures forall i :: |base| <= i < |p.db.url| ==> p.db.url[i] == '/'
  {
    Strs.TrimEndMatches(p.db.url, '/')
  }

  /** The five `key=value` pairs of the backtest query, in the order they are written. */
  function BacktestPairs(p: UiParams, spec: BacktestSpec, encode: string -> string): seq<string>
  {
    ["inst_ids=" + encode(InstrumentIds.JoinIds(p.instrumentIds)),
     "bin_size=" + encode(p.binSize),
     "model_path=" + encode(spec.modelPath),
     "feats=" + encode(spec.feats),
     "out_csv=" + encode(spec.outCsv)]
  }

  /** `build_request`: both actions are GETs without a body; only the headers and the URL differ. */
  function BuildRequest(p: UiParams, action: Action, render: Json.Value -> string, encode: string -> string)
    : (r: RequestSpec)
    ensures r.verb == Get && r.bodyJson.None?
    ensures Strs.StartsWith(r.url, Base(p))
    ensures action.MomBacktest? ==>
      r.url == Base(p) + "/tsmomnn/backtest?" + Strs.Join(BacktestPairs(p, action.backtest, encode), "&")
    ensures action.MomTrain? ==> r.headers == [ACCEPT_JSON, CONTENT_TYPE_JSON]
    ensures action.MomBacktest? ==> r.headers == [ACCEPT_JSON]
  {
    match action
    case MomTrain(spec) =>
      var url := Base(p) + "/tsmomnn/train?req_json=" + render(ReqJson(p, spec));
      RequestSpec(Get, url, None, [ACCEPT_JSON, CONTENT_TYPE_JSON])
    case MomBacktest(spec) =>
      var url := Base(p) + "/tsmomnn/backtest?" + Strs.Join(BacktestPairs(p, spec, encode), "&");
      RequestSpec(Get, url, None, [ACCEPT_JSON])
  }

  /**
   * The training URL ends in the JSON text itself, not encoded, and that JSON names
   * the run "run" when no name was given, loads in batches of 5 when no batch size
   * was given, and leaves the training batch size `null` then.
   */
  lemma TrainRequestContents(p: UiParams, spec: TrainSpec, render: Json.Value -> string, encode: string -> string)
    ensures BuildRequest(p, MomTrain(spec), render, encode).url
      == Base(p) + "/tsmomnn/train?req_json=" + render(ReqJson(p, spec))
    ensures Json.Get(Json.Get(ReqJson(p, spec), "train").value, "run_name")
      == Some(Json.Str(if p.runName.None? then "run" else p.runName.value))
    ensures spec.batchSize.None? ==>
      Json.Get(Json.Get(ReqJson(p, spec), "load").value, "batch_size") == Some(Json.Int(5))
      && Json.Get(Json.Get(ReqJson(p, spec), "train").value, "batch_size") == Some(Json.Null)
    ensures spec.batchSize.Some? ==>
      Json.Get(Json.Get(ReqJson(p, spec), "load").value, "batch_size") == Some(Json.Int(spec.batchSize.value))
      && Json.Get(Json.Get(ReqJson(p, spec), "train").value, "batch_size") == Some(Json.Int(spec.batchSize.value))
    ensures Json.Get(Json.Get(ReqJson(p, spec), "db").value, "url") == Some(Json.Str(p.db.url))
  {
    ReqJsonSections(p, spec);
    TrainJsonFields(p, spec);
    LoadJsonBatch(spec);
  }

  lemma ReqJsonSections(p: UiParams, spec: TrainSpec)
    ensures Json.Get(ReqJson(p, spec), "train") == Some(TrainJson(p, spec))
    ensures Json.Get(ReqJson(p, spec), "load") == Some(LoadJson(spec))
    ensures Json.Get(Json.Get(ReqJson(p, spec), "db").value, "url") == Some(Json.Str(p.db.url))
  {
  }

  lemma TrainJsonFields(p: UiParams, spec: TrainSpec)
    ensures Json.Get(TrainJson(p, spec), "run_name") == Some(Json.Str(if p.runName.None? then "run" else p.runName.value))
    ensures Json.Get(TrainJson(p, spec), "batch_size")
      == Some(if spec.batchSize.None? then Json.Null else Json.Int(spec.batchSize.value))
  {
  }

  lemma LoadJsonBatch(spec: TrainSpec)
    ensures Json.Get(LoadJson(spec), "batch_size") == Some(Json.Int(if spec.batchSize.None? then 5 else spec.batchSize.value))
  {
  }

  /**
   * The backtest query is the five pairs with '&' between them, in the order
   * inst_ids, bin_size, model_path, feats, out_csv. Since percent-encoding emits no
   * '&', splitting the query on '&' gives the pairs back; and the id value, before
   * encoding, reads back as the instrument ids.
   */
  lemma BacktestQuery(p: UiParams, spec: BacktestSpec, render: Json.Value -> string, encode: string -> string)
    requires Strs.PercentEncoder(encode)
    requires forall i :: 0 <= i < |p.instrumentIds| ==> InstrumentIds.IsI64(p.instrumentIds[i])
    ensures var ps := BacktestPairs(p, spec, encode);
      Strs.Join(ps, "&") == ps[0] + "&" + ps[1] + "&" + ps[2] + "&" + ps[3] + "&" + ps[4]
    ensures Strs.Split(Strs.Join(BacktestPairs(p, spec, encode), "&"), '&') == BacktestPairs(p, spec, encode)
    ensures InstrumentIds.ParseIds(InstrumentIds.JoinIds(p.instrumentIds)) == p.instrumentIds
  {
    var ps := BacktestPairs(p, spec, encode);
    JoinFive(ps);
    PairsLackAmpersand(p, spec, encode);
    Strs.SplitJoin(ps, '&');
    InstrumentIds.ParseJoinIds(p.instrumentIds);
  }

  lemma JoinFive(ps: seq<string>)
    requires |ps| == 5
    ensures Strs.Join(ps, "&") == ps[0] + "&" + ps[1] + "&" + ps[2] + "&" + ps[3] + "&" + ps[4]
  {
    assert Strs.Join(ps[4..], "&") == ps[4];
    assert Strs.Join(ps[3..], "&") == ps[3] + "&" + ps[4];
    assert Strs.Join(ps[2..], "&") == ps[2] + "&" + ps[3] + "&" + ps[4];
    assert Strs.Join(ps[1..], "&") == ps[1] + "&" + ps[2] + "&" + ps[3] + "&" + ps[4];
  }

  lemma PairsLackAmpersand(p: UiParams, spec: BacktestSpec, encode: string -> string)
    requires Strs.PercentEncoder(encode)
    ensures forall i :: 0 <= i < 5 ==> '&' !in BacktestPairs(p, spec, encode)[i]
  {
    PairLacks("inst_ids=", encode, InstrumentIds.JoinIds(p.instrumentIds));
    PairLacks("bin_size=", encode, p.binSize);
    PairLacks("model_path=", encode, spec.modelPath);
    PairLacks("feats=", encode, spec.feats);
    PairLacks("out_csv=", encode, spec.outCsv);
  }

  lemma PairLacks(key: string, encode: string -> string, value: string)
    requires Strs.PercentEncoder(encode) && '&' !in key
    ensures '&' !in key + encode(value)
  {
    Strs.EncodedLacks(encode, value, '&');
  }
}
