/**
 * `extract_output_text` (src/prompting/chatgpt_ops.rs): the text blocks of an
 * OpenAI "responses" reply, gathered item by item and block by block.
 */
module ChatgptOps {
  import opened Wrappers
  import opened Json
  import Strs

  /** The text a content block contributes: its string "text" when its "type" is "output_text". */
  function BlockText(block: Value): Option<string>
  {
    if AsStr(Get(block, "type")) == Some("output_text") then AsStr(Get(block, "text")) else None
  }

  /** The contributed texts of a list of blocks, in order. */
  function BlocksTexts(blocks: seq<Value>): seq<string>
  {
    if |blocks| == 0 then []
    else
      var t := BlockText(blocks[|blocks| - 1]);
      BlocksTexts(blocks[..|blocks| - 1]) + (if t.Some? then [t.value] else [])
  }

  /** The contributed texts of one output item; an item without a "content" array gives none. */
  function ItemTexts(item: Value): seq<string>
  {
    var content := AsArray(Get(item, "content"));
    if content.Some? then BlocksTexts(content.value) else []
  }

  function ItemsTexts(items: seq<Value>): seq<string>
  {
    if |items| == 0 then [] else ItemsTexts(items[..|items| - 1]) + ItemTexts(items[|items| - 1])
  }

  /** Every contributed text of a reply, item by item then block by block. */
  function Texts(resp: Value): seq<string>
  {
    var items := AsArray(Get(resp, "output"));
    if items.Some? then ItemsTexts(items.value) else []
  }

  /** One append step: a newline goes in first exactly when the output so far is non-empty. */
  function Push(out: string, text: string): string
  {
    if out != "" then out + "\n" + text else out + text
  }

  /** The output after appending `texts` one by one to an empty string. */
  function Accumulate(texts: seq<string>): string
  {
    if |texts| == 0 then "" else Push(Accumulate(texts[..|texts| - 1]), texts[|texts| - 1])
  }

  /** `texts` without its leading empty strings. */
  function DropLeadingEmpty(texts: seq<string>): (r: seq<string>)
    ensures |r| > 0 ==> r[0] != ""
  {
    if |texts| > 0 && texts[0] == "" then DropLeadingEmpty(texts[1..]) else texts
  }

  /** The source, with nested loops appending to `out`. */
  method ExtractOutputText(resp: Value) returns (out: string)
    ensures out == Accumulate(Texts(resp))
    ensures AsArray(Get(resp, "output")).None? ==> out == ""
  {
    out := "";
    var items := AsArray(Get(resp, "output"));
    if items.Some? {
      var all := items.value;
      var i := 0;
      while i < |all|
        invariant 0 <= i <= |all|
        invariant out == Accumulate(ItemsTexts(all[..i]))
      {
        var item := all[i];
        var content := AsArray(Get(item, "content"));
        if content.Some? {
          out := AppendBlocks(out, content.value, ItemsTexts(all[..i]));
          assert ItemTexts(item) == BlocksTexts(content.value);
        } else {
          assert ItemsTexts(all[..i]) + ItemTexts(item) == ItemsTexts(all[..i]);
        }
        assert out == Accumulate(ItemsTexts(all[..i]) + ItemTexts(item));
        assert all[..i + 1][..i] == all[..i];
        assert ItemsTexts(all[..i + 1]) == ItemsTexts(all[..i]) + ItemTexts(item);
        i := i + 1;
      }
      assert all[..i] == all;
    }
  }

  /** The inner loop of the source: the blocks of one item appended to `out`. */
  method AppendBlocks(out0: string, blocks: seq<Value>, ghost prior: seq<string>) returns (out: string)
    requires out0 == Accumulate(prior)
    ensures out == Accumulate(prior + BlocksTexts(blocks))
  {
    out := out0;
    var j := 0;
    assert prior + BlocksTexts(blocks[..0]) == prior;
    while j < |blocks|
      invariant 0 <= j <= |blocks|
      invariant out == Accumulate(prior + BlocksTexts(blocks[..j]))
    {
      var block := blocks[j];
      if AsStr(Get(block, "type")) == Some("output_text") {
        var text := AsStr(Get(block, "text"));
        if text.Some? {
          if out != "" {
            out := out + "\n";
          }
          out := out + text.value;
        }
      }
      BlockStep(prior, blocks, j);
      j := j + 1;
    }
    assert blocks[..j] == blocks;
  }

  /** One more block pushes its text, if it contributes one, onto the output so far. */
  lemma BlockStep(prior: seq<string>, blocks: seq<Value>, j: nat)
    requires j < |blocks|
    ensures var before := Accumulate(prior + BlocksTexts(blocks[..j]));
      Accumulate(prior + BlocksTexts(blocks[..j + 1])) ==
        if BlockText(blocks[j]).Some? then Push(before, BlockText(blocks[j]).value) else before
  {
    assert blocks[..j + 1][..j] == blocks[..j];
    ghost var before := prior + BlocksTexts(blocks[..j]);
    if BlockText(blocks[j]).Some? {
      assert prior + BlocksTexts(blocks[..j + 1]) == before + [BlockText(blocks[j]).value];
      assert (before + [BlockText(blocks[j]).value])[..|before|] == before;
    } else {
      assert prior + BlocksTexts(blocks[..j + 1]) == before;
    }
  }

  /** Joining one more text onto a non-empty list puts exactly one separator before it. */
  lemma {:induction false} JoinSnoc(xs: seq<string>, t: string, sep: string)
    requires |xs| > 0
    ensures Strs.Join(xs + [t], sep) == Strs.Join(xs, sep) + sep + t
  {
    if |xs| == 1 {
      assert xs + [t] == [xs[0], t];
    } else {
      assert (xs + [t])[1..] == xs[1..] + [t];
      JoinSnoc(xs[1..], t, sep);
    }
  }

  lemma {:induction false} JoinNonEmpty(xs: seq<string>, sep: string)
    requires |xs| > 0 && xs[0] != ""
    ensures Strs.Join(xs, sep) != ""
  {
    if |xs| > 1 {
      assert |Strs.Join(xs, sep)| >= |xs[0]|;
    }
  }

  /** Dropping leading empties commutes with appending, except onto an all-empty list. */
  lemma {:induction false} DropLeadingEmptySnoc(xs: seq<string>, t: string)
    ensures DropLeadingEmpty(xs + [t]) ==
      if DropLeadingEmpty(xs) == [] then (if t == "" then [] else [t]) else DropLeadingEmpty(xs) + [t]
  {
    if |xs| > 0 {
      assert (xs + [t])[1..] == xs[1..] + [t];
      if xs[0] == "" {
        DropLeadingEmptySnoc(xs[1..], t);
      }
    } else {
      assert xs + [t] == [t];
      if t == "" {
        assert [t][1..] == [];
      }
    }
  }

  /**
   * The reference meaning of the accumulation: the texts joined with newlines, where
   * empty texts that arrive while the output is still empty vanish.
   */
  lemma {:induction false} AccumulateIsJoin(texts: seq<string>)
    ensures Accumulate(texts) == Strs.Join(DropLeadingEmpty(texts), "\n")
  {
    if |texts| > 0 {
      var xs, t := texts[..|texts| - 1], texts[|texts| - 1];
      assert texts == xs + [t];
      AccumulateIsJoin(xs);
      DropLeadingEmptySnoc(xs, t);
      var d := DropLeadingEmpty(xs);
      if d == [] {
        assert Accumulate(xs) == "";
      } else {
        JoinNonEmpty(d, "\n");
        JoinSnoc(d, t, "\n");
      }
    }
  }

  /** So a reply whose first contributed text is non-empty never starts with an inserted newline. */
  lemma ExtractStartsWithFirstText(resp: Value)
    requires |Texts(resp)| > 0 && Texts(resp)[0] != ""
    ensures Strs.StartsWith(Accumulate(Texts(resp)), Texts(resp)[0])
  {
    var ts := Texts(resp);
    AccumulateIsJoin(ts);
    if |ts| > 1 {
      assert Strs.Join(ts, "\n") == ts[0] + "\n" + Strs.Join(ts[1..], "\n");
    }
  }
}
