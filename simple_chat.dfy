/**
 * The conversation state of the simple chat loop (part3/simple_chat.py).
 * The conversation is one growing prompt string: it starts as the system
 * message, each user turn appends a Human/Assistant frame and the reply,
 * `clear` and any generation error reset it. The tokenizer and the
 * generator are given as functions; reading input and printing are not
 * modelled, and the loop ends when the inputs run out.
 */
module SimpleChat {
  import opened Wrappers
  import opened Text

  const SystemMessage: string := "You are a helpful, accurate, and friendly assistant."
  const Exit: string := "exit"
  const Quit: string := "quit"
  const Clear: string := "clear"
  const HumanLabel: string := "Human: "
  const AssistantLabel: string := "\nAssistant: "
  const NotIds: string := "Tokenizer returned a string instead of token IDs"

  /** `user_input.lower() in ['exit', 'quit']` (line 43). */
  predicate IsExit(input: string) {
    Lower(input) == Exit || Lower(input) == Quit
  }

  /** `user_input.lower() == 'clear'` (line 46). */
  predicate IsClear(input: string) {
    Lower(input) == Clear
  }

  /** What `tokenizer.encode` gave back: token ids, or (wrongly) a string. */
  datatype Encoded = Ids(ids: seq<nat>) | Chars(text: string)

  function EncodedLength(e: Encoded): nat {
    match e
    case Ids(ids) => |ids|
    case Chars(t) => |t|
  }

  /** The sampling settings passed to `generate`. */
  datatype GenConfig = GenConfig(maxTokens: int, temperature: real, topP: real)

  /** The fixed settings of lines 67-71. */
  const SimpleConfig := GenConfig(500, 0.7, 0.9)

  /**
   * The loaded model and tokenizer: `generate` returns the prompt's tokens
   * followed by the new ones, or raises; `decode` may raise as well.
   */
  datatype LanguageModel = LanguageModel(
    encode: string -> Encoded,
    generate: (Encoded, GenConfig) -> Result<seq<nat>>,
    decode: seq<nat> -> Result<string>)

  /** `generated[len(tokens):]` with Python's slicing: empty when the output is shorter than the prompt. */
  function NewTokens(generated: seq<nat>, promptLength: nat): (r: seq<nat>)
    ensures |generated| >= promptLength ==> generated == generated[..promptLength] + r
    ensures |generated| < promptLength ==> r == []
  {
    if |generated| >= promptLength then generated[promptLength..] else []
  }

  /** The frame appended for a user turn (lines 58-61): the empty-conversation form starts without a newline. */
  function TurnPrompt(conversation: string, input: string): (c: string)
    ensures conversation != "" ==> c == conversation + "\n" + HumanLabel + input + AssistantLabel
  {
    if conversation != "" then conversation + "\n" + HumanLabel + input + AssistantLabel
    else HumanLabel + input + AssistantLabel
  }

  /** Encode, generate, and decode only the new tokens; an error from any of them is passed on. */
  function Reply(m: LanguageModel, prompt: string, config: GenConfig): (r: Result<string>)
    ensures m.generate(m.encode(prompt), config).Err? ==> r == Err(m.generate(m.encode(prompt), config).error)
  {
    var tokens := m.encode(prompt);
    match m.generate(tokens, config)
    case Err(e) => Err(e)
    case Ok(generated) => m.decode(NewTokens(generated, EncodedLength(tokens)))
  }

  /** The guarded generation of lines 75-85: a string from the tokenizer raises `TypeError` before generating. */
  function Respond(m: LanguageModel, conversation: string): (r: Result<string>)
    ensures m.encode(conversation).Chars? ==> r == Err(TypeError(NotIds))
    ensures m.encode(conversation).Ids? ==> r == Reply(m, conversation, SimpleConfig)
  {
    if m.encode(conversation).Chars? then Err(TypeError(NotIds))
    else Reply(m, conversation, SimpleConfig)
  }

  /** One pass of the loop body: `None` when the loop stops, otherwise the next conversation. */
  function Step(m: LanguageModel, conversation: string, input: string): (next: Option<string>)
    ensures next.None? <==> IsExit(input)
    ensures !IsExit(input) && IsClear(input) ==> next == Some(SystemMessage)
  {
    if IsExit(input) then None
    else if IsClear(input) then Some(SystemMessage)
    else
      var prompt := TurnPrompt(conversation, input);
      match Respond(m, prompt)
      case Ok(response) => Some(prompt + response)
      case Err(_) => Some(SystemMessage)
  }

  /** The conversation after feeding `inputs` to the loop from `conversation`. */
  function Run(m: LanguageModel, conversation: string, inputs: seq<string>): string
    decreases |inputs|
  {
    if inputs == [] then conversation
    else
      match Step(m, conversation, inputs[0])
      case None => conversation
      case Some(next) => Run(m, next, inputs[1..])
  }

  /** `chat_with_model`'s loop (lines 32-102) over a finite list of user inputs. */
  method ChatWithModel(m: LanguageModel, inputs: seq<string>) returns (conversation: string)
    ensures conversation == Run(m, SystemMessage, inputs)
    ensures conversation != ""
  {
    conversation := SystemMessage;
    var i := 0;
    while i < |inputs|
      invariant 0 <= i <= |inputs|
      invariant conversation != ""
      invariant Run(m, conversation, inputs[i..]) == Run(m, SystemMessage, inputs)
    {
      assert inputs[i..][1..] == inputs[i + 1..];
      var input := inputs[i];
      if IsExit(input) {
        break;
      } else if IsClear(input) {
        conversation := SystemMessage;
        i := i + 1;
        continue;
      }
      conversation := TurnPrompt(conversation, input);
      var response := Respond(m, conversation);
      if response.Err? {
        conversation := SystemMessage;
      } else {
        conversation := conversation + response.value;
      }
      i := i + 1;
    }
    assert i == |inputs| ==> inputs[i..] == [];
  }

  /** A successful turn only extends the conversation; a failed one resets it. */
  lemma TurnExtends(m: LanguageModel, conversation: string, input: string)
    requires conversation != "" && !IsExit(input) && !IsClear(input)
    ensures var prompt := conversation + "\n" + HumanLabel + input + AssistantLabel;
      Step(m, conversation, input) ==
        if Respond(m, prompt).Ok? then Some(prompt + Respond(m, prompt).value) else Some(SystemMessage)
    ensures Respond(m, TurnPrompt(conversation, input)).Ok? ==> StartsWith(Step(m, conversation, input).value, conversation)
  {
    var prompt := TurnPrompt(conversation, input);
    if Respond(m, prompt).Ok? {
      var next := prompt + Respond(m, prompt).value;
      assert next[..|conversation|] == conversation;
    }
  }

  /**
   * The conversation is never empty, so the `else` branch of line 60 is
   * never taken: every prompt extends the current conversation.
   */
  lemma {:induction false} RunNeverEmpty(m: LanguageModel, conversation: string, inputs: seq<string>)
    requires conversation != ""
    ensures Run(m, conversation, inputs) != ""
    decreases |inputs|
  {
    if inputs != [] {
      var next := Step(m, conversation, inputs[0]);
      if next.Some? {
        assert next.value != "" by {
          if !IsClear(inputs[0]) {
            var prompt := TurnPrompt(conversation, inputs[0]);
            assert |prompt| > 0;
          }
        }
        RunNeverEmpty(m, next.value, inputs[1..]);
      }
    }
  }

  /** A tokenizer that returns a string makes the turn fail and the conversation restart. */
  lemma StringTokensReset(m: LanguageModel, conversation: string, input: string)
    requires !IsExit(input) && !IsClear(input)
    requires m.encode(TurnPrompt(conversation, input)).Chars?
    ensures Respond(m, TurnPrompt(conversation, input)) == Err(TypeError(NotIds))
    ensures Step(m, conversation, input) == Some(SystemMessage)
  {
  }
}
