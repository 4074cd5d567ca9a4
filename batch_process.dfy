/**
 * The batch runner (part3/batch_process.py): the non-blank lines of the
 * prompts file, stripped, are sent one by one to the model with fixed
 * settings, and the file written holds one `Prompt:`/`Response:` block per
 * prompt, in order. Reading the lines and writing the file are the input
 * and the output of the model; the timing and the progress messages are
 * not modelled. A generation error is not caught: the run stops and no
 * file is written.
 */
module BatchProcess {
  import opened Wrappers
  import opened Text
  import opened SimpleChat

  const PromptLabel: string := "Prompt: "
  const ResponseLabel: string := "\nResponse: "
  const BlockEnd: string := "\n\n"

  /** The fixed settings of lines 30-34. */
  const BatchConfig := GenConfig(300, 0.5, 0.9)

  /** A prompt as line 13 keeps it: not empty, and no whitespace at either end. */
  predicate IsPrompt(p: string) {
    p != [] && !IsSpace(p[0]) && !IsSpace(p[|p| - 1])
  }

  /** What one line of the file contributes: its stripped text, unless that is empty. */
  function Kept(line: string): (ps: seq<string>)
    ensures |ps| <= 1
    ensures forall k :: 0 <= k < |ps| ==> IsPrompt(ps[k])
  {
    var p := Strip(line);
    if p != [] then
      assert IsPrompt(p);
      [p]
    else []
  }

  /** `[line.strip() for line in f if line.strip()]` (line 13). */
  function Prompts(lines: seq<string>): (ps: seq<string>)
    ensures |ps| <= |lines|
    ensures forall k :: 0 <= k < |ps| ==> IsPrompt(ps[k])
  {
    if lines == [] then []
    else
      var init := lines[..|lines| - 1];
      var ps := Prompts(init) + Kept(lines[|lines| - 1]);
      assert forall k :: 0 <= k < |ps| ==> ps[k] in Prompts(init) || ps[k] in Kept(lines[|lines| - 1]);
      ps
  }

  /** The filter keeps the file's order: the prompts of two pieces of the file are the pieces' prompts one after the other. */
  lemma {:induction false} PromptsAppend(a: seq<string>, b: seq<string>)
    ensures Prompts(a + b) == Prompts(a) + Prompts(b)
    decreases |b|
  {
    if b != [] {
      var init := b[..|b| - 1];
      assert (a + b)[..|a + b| - 1] == a + init;
      PromptsAppend(a, init);
    } else {
      assert a + b == a;
    }
  }

  /** A blank line gives no prompt; any other line gives its stripped text. */
  lemma PromptsOne(line: string)
    ensures Prompts([line]) == if AllSpace(line) then [] else [Strip(line)]
  {
    assert [line][..0] == [];
    assert Prompts([line]) == Kept(line);
  }

  /** The block appended for one prompt (line 41). */
  function Block(prompt: string, response: string): string {
    PromptLabel + prompt + ResponseLabel + response + BlockEnd
  }

  /**
   * The responses to `prompts`, in order, or the first error: the loop of
   * lines 26-41 stops at the first prompt whose generation raises.
   */
  function Responses(m: LanguageModel, prompts: seq<string>): (r: Result<seq<string>>)
    ensures r.Ok? <==> forall k :: 0 <= k < |prompts| ==> Reply(m, prompts[k], BatchConfig).Ok?
    ensures r.Ok? ==> |r.value| == |prompts|
    ensures r.Ok? ==> forall k :: 0 <= k < |prompts| ==> r.value[k] == Reply(m, prompts[k], BatchConfig).value
    ensures r.Err? ==> exists k :: FirstFailure(m, prompts, k) && r.error == Reply(m, prompts[k], BatchConfig).error
  {
    if prompts == [] then Ok([])
    else
      var init, last := prompts[..|prompts| - 1], prompts[|prompts| - 1];
      assert forall k :: 0 <= k < |init| ==> init[k] == prompts[k];
      match Responses(m, init)
      case Err(e) =>
        assert forall k :: FirstFailure(m, init, k) ==> FirstFailure(m, prompts, k);
        Err(e)
      case Ok(rs) =>
        match Reply(m, last, BatchConfig)
        case Err(e) =>
          assert FirstFailure(m, prompts, |prompts| - 1);
          Err(e)
        case Ok(response) => Ok(rs + [response])
  }

  /** Generation fails for the prompt at `k` and for none before it. */
  predicate FirstFailure(m: LanguageModel, prompts: seq<string>, k: int) {
    && 0 <= k < |prompts|
    && Reply(m, prompts[k], BatchConfig).Err?
    && forall j :: 0 <= j < k ==> Reply(m, prompts[j], BatchConfig).Ok?
  }

  /** The blocks for prompts and their responses, paired position by position. */
  function Blocks(prompts: seq<string>, responses: seq<string>): (bs: seq<string>)
    requires |prompts| == |responses|
    ensures |bs| == |prompts|
    ensures forall k :: 0 <= k < |bs| ==> bs[k] == Block(prompts[k], responses[k])
  {
    seq(|prompts|, k requires 0 <= k < |prompts| => Block(prompts[k], responses[k]))
  }

  /**
   * `batch_process` (lines 9-45): the text written to the output file, or
   * the error that stopped the run before anything was written.
   */
  method BatchProcess(m: LanguageModel, lines: seq<string>) returns (r: Result<string>)
    ensures var rs := Responses(m, Prompts(lines));
      && (r.Ok? <==> rs.Ok?)
      && (rs.Ok? ==> r.value == Concat(Blocks(Prompts(lines), rs.value)))
      && (rs.Err? ==> r == Err(rs.error))
  {
    var prompts := Prompts(lines);
    r := ProcessPrompts(m, prompts);
  }

  /** The generation loop of lines 26-41 and the join of line 45. */
  method ProcessPrompts(m: LanguageModel, prompts: seq<string>) returns (r: Result<string>)
    ensures var rs := Responses(m, prompts);
      && (r.Ok? <==> rs.Ok?)
      && (rs.Ok? ==> r.value == Concat(Blocks(prompts, rs.value)))
      && (rs.Err? ==> r == Err(rs.error))
  {
    var results: seq<string> := [];
    ghost var responses: seq<string> := [];
    for i := 0 to |prompts|
      invariant Responses(m, prompts[..i]) == Ok(responses)
      invariant |responses| == i
      invariant results == Blocks(prompts[..i], responses)
    {
      assert prompts[..i + 1][..i] == prompts[..i];
      var response := Reply(m, prompts[i], BatchConfig);
      if response.Err? {
        ResponsesStop(m, prompts, i);
        return Err(response.error);
      }
      ResponsesStep(m, prompts[..i + 1]);
      responses := responses + [response.value];
      results := results + [Block(prompts[i], response.value)];
      assert results == Blocks(prompts[..i + 1], responses);
    }
    assert prompts[..|prompts|] == prompts;
    r := Ok(Concat(results));
  }

  lemma ResponsesStep(m: LanguageModel, prompts: seq<string>)
    requires prompts != [] && Responses(m, prompts[..|prompts| - 1]).Ok?
    requires Reply(m, prompts[|prompts| - 1], BatchConfig).Ok?
    ensures Responses(m, prompts) ==
      Ok(Responses(m, prompts[..|prompts| - 1]).value + [Reply(m, prompts[|prompts| - 1], BatchConfig).value])
  {
  }

  /** Once the prompt at `i` fails, so does the whole batch, with that prompt's error. */
  lemma {:induction false} ResponsesStop(m: LanguageModel, prompts: seq<string>, i: nat)
    requires i < |prompts| && Responses(m, prompts[..i]).Ok?
    requires Reply(m, prompts[i], BatchConfig).Err?
    ensures Responses(m, prompts) == Err(Reply(m, prompts[i], BatchConfig).error)
    decreases |prompts|
  {
    if i == |prompts| - 1 {
      assert prompts[..|prompts| - 1] == prompts[..i];
    } else {
      var init := prompts[..|prompts| - 1];
      assert init[..i] == prompts[..i];
      ResponsesStop(m, init, i);
    }
  }

  /** Each block opens with its prompt after the label and closes with a blank line. */
  lemma BlockShape(prompt: string, response: string)
    ensures StartsWith(Block(prompt, response), PromptLabel + prompt + ResponseLabel)
    ensures EndsWith(Block(prompt, response), BlockEnd)
    ensures |Block(prompt, response)| == |prompt| + |response| + 21
  {
    var b := Block(prompt, response);
    var head := PromptLabel + prompt + ResponseLabel;
    assert b == head + (response + BlockEnd);
    assert b[..|head|] == head;
    assert b[|b| - 2..] == BlockEnd;
  }

  /** The output of a batch is the output of its first part followed by that of its second: nothing separates the blocks. */
  lemma OutputSplits(pa: seq<string>, ra: seq<string>, pb: seq<string>, rb: seq<string>)
    requires |pa| == |ra| && |pb| == |rb|
    ensures Concat(Blocks(pa + pb, ra + rb)) == Concat(Blocks(pa, ra)) + Concat(Blocks(pb, rb))
  {
    assert Blocks(pa + pb, ra + rb) == Blocks(pa, ra) + Blocks(pb, rb);
    ConcatAppend(Blocks(pa, ra), Blocks(pb, rb));
  }
}
