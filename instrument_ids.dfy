/**
 * The text form of an instrument-id list (src/views/single_assets.rs, the
 * `inst_text` adapter, and src/model_request/momentum_lstm.rs, the backtest
 * `inst_ids` value): ids are written in decimal and joined by ','; reading splits
 * on ',', trims each token and keeps, in order, the tokens that parse as `i64`.
 */
module InstrumentIds {
  import opened Wrappers
  import Strs

  predicate IsI64(x: int)
  {
    Strs.I64_MIN <= x <= Strs.I64_MAX
  }

  /** Each id in decimal, in order. */
  function IdStrings(ids: seq<int>): (r: seq<string>)
    ensures |r| == |ids|
    ensures forall i :: 0 <= i < |ids| ==> r[i] == Strs.I64ToString(ids[i])
  {
    if |ids| == 0 then [] else [Strs.I64ToString(ids[0])] + IdStrings(ids[1..])
  }

  /** `ids.iter().map(|x| x.to_string()).collect::<Vec<_>>().join(",")`. */
  function JoinIds(ids: seq<int>): (s: string)
    ensures |ids| == 0 <==> s == ""
  {
    var r := Strs.Join(IdStrings(ids), ",");
    assert |ids| > 0 ==> |r| >= |IdStrings(ids)[0]| by {
      if |ids| > 1 {
        assert r == IdStrings(ids)[0] + "," + Strs.Join(IdStrings(ids)[1..], ",");
      }
    }
    r
  }

  /** `filter_map(|t| t.trim().parse::<i64>().ok())` over the tokens. */
  function ParseTokens(tokens: seq<string>): (r: seq<int>)
    ensures |r| <= |tokens|
    ensures forall i :: 0 <= i < |r| ==> IsI64(r[i])
  {
    if |tokens| == 0 then []
    else
      var head := Strs.ParseI64(Strs.Trim(tokens[0]));
      (if head.Some? then [head.value] else []) + ParseTokens(tokens[1..])
  }

  /** `s.split(',').filter_map(|t| t.trim().parse::<i64>().ok()).collect()`. */
  function ParseIds(s: string): (r: seq<int>)
    ensures forall i :: 0 <= i < |r| ==> IsI64(r[i])
  {
    ParseTokens(Strs.Split(s, ','))
  }

  /** An empty field gives no ids. */
  lemma ParseEmpty()
    ensures ParseIds("") == []
  {
    assert Strs.Split("", ',') == [""];
    assert Strs.Trim("") == "";
  }

  /** A formatted id needs no trimming and parses back to itself. */
  lemma ParseFormattedToken(x: int)
    requires IsI64(x)
    ensures Strs.ParseI64(Strs.Trim(Strs.I64ToString(x))) == Some(x)
  {
    Strs.TrimNoWhitespace(Strs.I64ToString(x));
    Strs.ParseFormatted(x);
  }

  /** Tokens that are formatted ids parse back to those ids. */
  lemma {:induction false} ParseFormattedTokens(ids: seq<int>)
    requires forall i :: 0 <= i < |ids| ==> IsI64(ids[i])
    ensures ParseTokens(IdStrings(ids)) == ids
  {
    if |ids| > 0 {
      ParseFormattedToken(ids[0]);
      ParseFormattedTokens(ids[1..]);
      var t := IdStrings(ids);
      assert t == [Strs.I64ToString(ids[0])] + IdStrings(ids[1..]);
      assert t[1..] == IdStrings(ids[1..]);
    }
  }

  /** Round trip: reading the id text back gives exactly the ids, in order. */
  lemma ParseJoinIds(ids: seq<int>)
    requires forall i :: 0 <= i < |ids| ==> IsI64(ids[i])
    ensures ParseIds(JoinIds(ids)) == ids
  {
    if |ids| == 0 {
      ParseEmpty();
    } else {
      var t := IdStrings(ids);
      Strs.SplitJoin(t, ',');
      ParseFormattedTokens(ids);
    }
  }
}
