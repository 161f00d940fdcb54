/**
 * The state handling of the single-asset view (src/views/single_assets.rs): the
 * asset-search field, the instrument-id text field of the parameters form, and the
 * `ModelBlock` tile with its train/backtest toggle and run status. Rendering, the
 * data fetches and the request execution are not part of this model: the outcome
 * of a request is an input.
 */
module SingleAssets {
  import opened Wrappers
  import Strs
  import opened InstrumentIds
  import opened ModelRequest
  import opened MomentumLstm

  // ---- the asset-search field ----

  /** The `SingleAsset` signal the asset-search field writes. */
  class AssetSearch {
    var instrument: int

    /** The signal starts at instrument 8147. */
    constructor ()
      ensures instrument == 8147
    {
      instrument := 8147;
    }

    /** `oninput`: the instrument changes only to a value the whole input parses to as an `i64`. */
    method OnInput(text: string)
      modifies this
      ensures Strs.ParseI64(text).Some? ==> instrument == Strs.ParseI64(text).value
      ensures Strs.ParseI64(text).None? ==> instrument == old(instrument)
    {
      var parsed := Strs.ParseI64(text);
      if parsed.Some? {
        instrument := parsed.value;
      }
    }
  }

  // ---- the instrument-id text field ----

  /** `ParamsForm`'s local `inst_text` signal next to the shared id list. */
  class IdsField {
    var instText: string
    var instrumentIds: seq<int>

    /** The text starts as the ids joined by ','. */
    constructor (ids: seq<int>)
      ensures instrumentIds == ids && instText == JoinIds(ids)
      ensures (forall i :: 0 <= i < |ids| ==> IsI64(ids[i])) ==> InSync()
    {
      instrumentIds := ids;
      instText := JoinIds(ids);
      if forall i :: 0 <= i < |ids| ==> IsI64(ids[i]) {
        ParseJoinIds(ids);
      }
    }

    /** `oninput`: the text is kept as typed and the ids become those it parses to. */
    method OnInput(s: string)
      modifies this
      ensures instText == s && instrumentIds == ParseIds(s) && InSync()
    {
      instText := s;
      instrumentIds := ParseIds(s);
    }

    /** The text and the ids agree: the ids are what the text parses to. */
    predicate InSync()
      reads this
    {
      ParseIds(instText) == instrumentIds
    }
  }

  // ---- the model tile ----

  /** Every `ModelBlock` is given its actions in this order: backtest first, train second. */
  function TileActions(bt: BacktestSpec, trn: TrainSpec): seq<(string, Action)>
  {
    [("backtest", MomBacktest(bt)), ("train", MomTrain(trn))]
  }

  /** What a finished request reports to the two result handlers. */
  datatype Reports = Reports(toTrain: Option<string>, toBacktest: Option<string>)

  /** A `ModelBlock`: its train toggle and run status, and the actions its props hold. */
  class ModelBlock {
    var action: bool
    var status: RunStatus
    var wasTrain: bool
    const actions: seq<(string, Action)>

    /** The tile starts idle and in train mode. */
    constructor (actions: seq<(string, Action)>)
      ensures this.actions == actions && action && status == Idle
    {
      this.actions := actions;
      action := true;
      status := Idle;
      wasTrain := true;
    }

    /** The value shown in the select. */
    function Current(): (r: string)
      reads this
      ensures r == "train" <==> action
    {
      if action then "train" else "backtest"
    }

    /** The button is disabled while a request runs. */
    predicate Disabled()
      reads this
    {
      status.Running?
    }

    /** `oninput` on the select: train mode exactly when "train" is chosen. */
    method Select(v: string)
      modifies this
      ensures action <==> v == "train"
      ensures status == old(status) && wasTrain == old(wasTrain)
    {
      action := v == "train";
    }

    /** The action a click runs: the second one in train mode, the first otherwise. */
    function Chosen(): (a: Action)
      requires |actions| >= 2
      reads this
    {
      if action then actions[1].1 else actions[0].1
    }

    /**
     * The state half of a click: an enabled button marks the tile Running and yields
     * the action of the current mode; a disabled button ignores the click.
     */
    method Start() returns (chosen: Option<Action>)
      requires |actions| >= 2
      modifies this
      ensures old(status).Running? ==> chosen.None? && status == old(status) && wasTrain == old(wasTrain)
      ensures !old(status).Running? ==> chosen == Some(old(Chosen())) && status == Running && wasTrain == old(action)
      ensures action == old(action)
    {
      if status.Running? {
        return None;
      }
      chosen := Some(Chosen());
      status := Running;
      wasTrain := action;
    }

    /**
     * A click on an enabled button marks the tile Running and yields the request to
     * send, built from a snapshot of the form; a disabled button ignores the click.
     */
    method Click(ctx: UiCtx, render: Json.Value -> string, encode: string -> string)
      returns (spec: Option<RequestSpec>)
      requires |actions| >= 2
      modifies this
      ensures old(status).Running? ==> spec.None? && status == old(status) && wasTrain == old(wasTrain)
      ensures !old(status).Running? ==>
        spec == Some(BuildRequest(ctx.Snapshot(), old(Chosen()), render, encode)) &&
        status == Running && wasTrain == old(action)
      ensures action == old(action)
    {
      var chosen := Start();
      if chosen.None? {
        return None;
      }
      spec := Some(BuildRequest(ctx.Snapshot(), chosen.value, render, encode));
    }

    /**
     * The request finishes: a body is reported to the handler of the mode the click
     * was made in and the status shows its first line; an error is reported to both
     * handlers and shown.
     */
    method Complete(outcome: Result<string, string>) returns (reports: Reports)
      requires status.Running?
      modifies this
      ensures outcome.Ok? ==> status == Success(FirstLine(outcome.value))
      ensures outcome.Ok? && wasTrain ==> reports == Reports(Some(outcome.value), None)
      ensures outcome.Ok? && !wasTrain ==> reports == Reports(None, Some(outcome.value))
      ensures outcome.Err? ==> status == Error(outcome.error) && reports == Reports(Some(outcome.error), Some(outcome.error))
      ensures !Disabled() && action == old(action) && wasTrain == old(wasTrain)
    {
      match outcome {
        case Ok(body) =>
          if wasTrain {
            reports := Reports(Some(body), None);
          } else {
            reports := Reports(None, Some(body));
          }
          status := Success(FirstLine(body));
        case Err(msg) =>
          reports := Reports(Some(msg), Some(msg));
          status := Error(msg);
      }
    }
  }

  /**
   * With the tile's standard actions, train mode sends the training request (GET with
   * Accept and Content-Type) and backtest mode the backtest request (GET with Accept only).
   */
  lemma ChosenRequest(bt: BacktestSpec, trn: TrainSpec, isTrain: bool, p: UiParams,
                      render: Json.Value -> string, encode: string -> string)
    ensures var a := if isTrain then TileActions(bt, trn)[1].1 else TileActions(bt, trn)[0].1;
      var spec := BuildRequest(p, a, render, encode);
      (isTrain ==> a == MomTrain(trn) && spec.headers == [ACCEPT_JSON, CONTENT_TYPE_JSON]) &&
      (!isTrain ==> a == MomBacktest(bt) && spec.headers == [ACCEPT_JSON]) &&
      spec.verb == Get && spec.bodyJson.None?
  {
  }
}
