/**
 * Request descriptions and their execution rules (src/model_request/mod.rs): the
 * `RequestSpec` record, the 2xx success rule, the headers a request is sent with,
 * `first_line` and the choice of model action by name. Sending over the network is
 * not part of this model; the status code and body it produces are inputs.
 */
module ModelRequest {
  import opened Wrappers
  import Json
  import Strs

  datatype HttpMethod = Get | Post

  datatype RequestSpec = RequestSpec(
    verb: HttpMethod,
    url: string,
    bodyJson: Option<Json.Value>,
    headers: seq<(string, string)>)

  datatype RunStatus = Idle | Running | Success(msg: string) | Error(msg: string)

  datatype DbParams = DbParams(url: string, user: string, pass: string, ns: string, db: string)

  /** The form values a model request is built from (`UiParams`). */
  datatype UiParams = UiParams(
    startDate: Option<string>,
    endDate: Option<string>,
    instrumentIds: seq<int>,
    binSize: string,
    db: DbParams,
    feats: Option<string>,
    modelPath: Option<string>,
    outCsv: Option<string>,
    runName: Option<string>)

  /** The reactive form state shared through the context (`UiCtx`): one field per signal. */
  class UiCtx {
    var startDate: Option<string>
    var endDate: Option<string>
    var instrumentIds: seq<int>
    var binSize: string
    var url: string
    var user: string
    var pass: string
    var ns: string
    var db: string
    var feats: Option<string>
    var modelPath: Option<string>
    var outCsv: Option<string>
    var runName: Option<string>

    /** The signals `UiProvider` creates, with their initial values. */
    constructor ()
      ensures startDate.None? && endDate.None?
      ensures instrumentIds == [8147, 11667] && binSize == "5m"
      ensures url == "http://127.0.0.1:8080" && user == "root" && pass == "root"
      ensures ns == "equities" && db == "historical"
      ensures feats == Some("mom") && modelPath == Some("../ml-project/models/saved/test/final_model.onnx")
      ensures outCsv == Some("../tmp_data/my_bt.csv") && runName == Some("test")
    {
      startDate, endDate := None, None;
      instrumentIds, binSize := [8147, 11667], "5m";
      url, user, pass, ns, db := "http://127.0.0.1:8080", "root", "root", "equities", "historical";
      feats, modelPath := Some("mom"), Some("../ml-project/models/saved/test/final_model.onnx");
      outCsv, runName := Some("../tmp_data/my_bt.csv"), Some("test");
    }

    /** `Snapshot for UiCtx`: the current value of every signal, the database ones grouped. */
    function Snapshot(): (p: UiParams)
      reads this
      ensures p.instrumentIds == instrumentIds && p.binSize == binSize && p.runName == runName
      ensures p.db == DbParams(url, user, pass, ns, db)
      ensures p.startDate == startDate && p.endDate == endDate
      ensures p.feats == feats && p.modelPath == modelPath && p.outCsv == outCsv
    {
      UiParams(startDate, endDate, instrumentIds, binSize, DbParams(url, user, pass, ns, db),
               feats, modelPath, outCsv, runName)
    }
  }

  /** `(200..300).contains(&status)`: the only statuses `execute_request` treats as success. */
  predicate IsSuccess(status: nat)
  {
    200 <= status < 300
  }

  /** What `execute_request` returns once a response arrived, for GET and POST alike. */
  function ResponseResult(status: nat, text: string): (r: Result<string, string>)
    ensures r.Ok? <==> IsSuccess(status)
    ensures r.Ok? ==> r.value == text
    ensures r.Err? ==> r.error == Strs.NatToString(status)
  {
    if IsSuccess(status) then Ok(text) else Err(Strs.NatToString(status))
  }

  /** True when some header key is "content-type" in any ASCII case. */
  predicate HasContentType(headers: seq<(string, string)>)
  {
    exists i :: 0 <= i < |headers| && Strs.EqIgnoreAsciiCase(headers[i].0, "content-type")
  }

  /**
   * The headers `execute_request` attaches: the supplied ones in order, and for a POST
   * a trailing `Content-Type: application/json` unless one was supplied.
   */
  method SentHeaders(spec: RequestSpec) returns (sent: seq<(string, string)>)
    ensures spec.verb == Get ==> sent == spec.headers
    ensures spec.verb == Post ==>
      sent == spec.headers + (if HasContentType(spec.headers) then [] else [("Content-Type", "application/json")])
  {
    sent := [];
    var hasCt := false;
    var k := 0;
    while k < |spec.headers|
      invariant 0 <= k <= |spec.headers|
      invariant sent == spec.headers[..k]
      invariant hasCt <==> spec.verb == Post && exists i :: 0 <= i < k && Strs.EqIgnoreAsciiCase(spec.headers[i].0, "content-type")
    {
      var (key, value) := spec.headers[k];
      if spec.verb == Post && Strs.EqIgnoreAsciiCase(key, "content-type") {
        hasCt := true;
      }
      sent := sent + [(key, value)];
      k := k + 1;
    }
    assert spec.headers[..k] == spec.headers;
    if spec.verb == Post && !hasCt {
      sent := sent + [("Content-Type", "application/json")];
    }
  }

  /** The body a POST sends: the JSON rendered to text, or empty when there is none. */
  function PostBody(spec: RequestSpec, render: Json.Value -> string): (body: string)
    ensures spec.bodyJson.None? ==> body == ""
  {
    if spec.bodyJson.Some? then render(spec.bodyJson.value) else ""
  }

  // ---- first_line ----

  /** Index of the first '\n' in `s`, or `|s|` when there is none. */
  function LineEnd(s: string): (k: nat)
    ensures k <= |s|
    ensures forall i :: 0 <= i < k ==> s[i] != '\n'
    ensures k < |s| ==> s[k] == '\n'
  {
    if |s| == 0 || s[0] == '\n' then 0 else 1 + LineEnd(s[1..])
  }

  /**
   * `s.lines().next().unwrap_or("")`: the text before the first '\n', without a '\r'
   * right before that '\n'; the whole string when there is no '\n' (a trailing '\r'
   * of a last line stays).
   */
  function FirstRawLine(s: string): string
  {
    var k := LineEnd(s);
    if k < |s| && k > 0 && s[k - 1] == '\r' then s[..k - 1] else s[..k]
  }

  /** `first_line`: the first line, cut to its first 160 characters. */
  function FirstLine(s: string): (r: string)
    ensures |r| <= 160
    ensures Strs.StartsWith(s, r)
    ensures '\n' !in r
    ensures s == "" ==> r == ""
  {
    var line := FirstRawLine(s);
    if |line| <= 160 then line else line[..160]
  }

  /** A single short line without line breaks comes back unchanged. */
  lemma FirstLineOfOneLine(s: string)
    requires '\n' !in s && |s| <= 160
    ensures FirstLine(s) == s
  {
    LineEndAfterPlain(s, "");
    assert s + "" == s;
  }

  /** The first line stops before the first '\n', and before a '\r' that ends it. */
  lemma {:induction false} FirstLineStopsAtNewline(a: string, b: string)
    requires '\n' !in a && |a| <= 160
    ensures FirstLine(a + "\n" + b) == if |a| > 0 && a[|a| - 1] == '\r' then a[..|a| - 1] else a
  {
    var s := a + "\n" + b;
    LineEndAfterPlain(a, "\n" + b);
    assert s[..|a|] == a;
  }

  lemma {:induction false} LineEndAfterPlain(a: string, t: string)
    requires '\n' !in a && (|t| == 0 || t[0] == '\n')
    ensures LineEnd(a + t) == |a|
  {
    if |a| > 0 {
      assert a[0] in a;
      assert (a + t)[1..] == a[1..] + t;
      LineEndAfterPlain(a[1..], t);
    } else {
      assert a + t == t;
    }
  }

  // ---- choosing an action ----

  /** `ModelAction`, generic in the two payloads `momentum_lstm` defines. */
  datatype ModelAction<T, B> = MomTrain(train: T) | MomBacktest(backtest: B)

  /** `ModelAction::from_str_with_specs`: "train" trains; every other name backtests. */
  function FromStrWithSpecs<T, B>(s: string, trn: T, bt: B): (r: Option<ModelAction<T, B>>)
    ensures r.Some?
    ensures r.value.MomTrain? <==> s == "train"
    ensures r.value.MomTrain? ==> r.value.train == trn
    ensures r.value.MomBacktest? ==> r.value.backtest == bt
  {
    match s
    case "train" => Some(MomTrain(trn))
    case "backtest" => Some(MomBacktest(bt))
    case _ => Some(MomBacktest(bt))
  }
}
