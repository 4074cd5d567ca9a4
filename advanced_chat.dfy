/**
 * The command dispatch and conversation state of the advanced chat loop
 * (part3/advanced_chat.py). On top of the simple chat's exit, clear and
 * turn handling it lets the user change the temperature, the token limit
 * and top-p with `/temp`, `/max` and `/top_p`. A generation error is not
 * caught inside the loop: it ends the chat.
 */
module AdvancedChat {
  import opened Wrappers
  import opened Text
  import opened SimpleChat

  const TempPrefix: string := "/temp "
  const MaxPrefix: string := "/max "
  const TopPPrefix: string := "/top_p "

  /** What one line of user input asks for, in the order lines 47-87 test it. */
  datatype Command =
    | Stop
    | Reset
    | SetTemperature(arg: string)
    | SetMaxTokens(arg: string)
    | SetTopP(arg: string)
    | Say(text: string)

  /** `user_input.split(' ')[1]`: the text between the first and the second space. */
  function SecondField(s: string): (r: string)
    requires ' ' in s
    ensures ' ' !in r
  {
    var parts := SplitOn(s, ' ');
    assert |parts| >= 2;
    assert forall i :: 0 <= i < |parts[1]| ==> parts[1][i] != ' ';
    parts[1]
  }

  lemma PrefixHasSpace(s: string, prefix: string)
    requires StartsWith(s, prefix) && prefix != [] && prefix[|prefix| - 1] == ' '
    ensures ' ' in s
  {
    assert s[|prefix| - 1] == ' ';
  }

  /** The dispatch of lines 47-87: exit and quit first, then clear (both ignoring case), then the case-sensitive setting prefixes. */
  function Classify(input: string): (c: Command)
    ensures c == Stop <==> IsExit(input)
    ensures c == Reset <==> !IsExit(input) && IsClear(input)
    ensures c.Say? ==> c.text == input
    ensures c.Say? <==> !IsExit(input) && !IsClear(input) && !StartsWith(input, TempPrefix)
                        && !StartsWith(input, MaxPrefix) && !StartsWith(input, TopPPrefix)
  {
    if IsExit(input) then Stop
    else if IsClear(input) then Reset
    else if StartsWith(input, TempPrefix) then
      PrefixHasSpace(input, TempPrefix);
      SetTemperature(SecondField(input))
    else if StartsWith(input, MaxPrefix) then
      PrefixHasSpace(input, MaxPrefix);
      SetMaxTokens(SecondField(input))
    else if StartsWith(input, TopPPrefix) then
      PrefixHasSpace(input, TopPPrefix);
      SetTopP(SecondField(input))
    else Say(input)
  }

  /** Python's `int(s)` on a string: optional surrounding whitespace, an optional sign, decimal digits. */
  function ParseInt(s: string): (r: Option<int>)
    ensures AllSpace(s) ==> r.None?
    ensures r.Some? && r.value < 0 ==> Strip(s)[0] == '-'
  {
    var t := Strip(s);
    if t == [] then None
    else if t[0] == '+' || t[0] == '-' then
      if |t| > 1 && AllDigits(t[1..]) then
        Some(if t[0] == '-' then -(DigitsValue(t[1..]) as int) else DigitsValue(t[1..]))
      else None
    else if AllDigits(t) then Some(DigitsValue(t))
    else None
  }

  /** `t` is an optional sign followed by a non-empty run of digits. */
  predicate SignedDigits(t: string, sign: string, digits: string) {
    && (sign == "" || sign == "+" || sign == "-")
    && digits != [] && AllDigits(digits)
    && t == sign + digits
  }

  /** The value of a signed digit run. */
  function SignedValue(sign: string, digits: string): int
    requires AllDigits(digits)
  {
    if sign == "-" then -(DigitsValue(digits) as int) else DigitsValue(digits)
  }

  /**
   * What `int()` accepts: after stripping, an optional sign and a non-empty
   * digit run, read as their signed value; anything else (`"abc"`, `"3.5"`,
   * `"1e3"`, a lone sign) is rejected.
   */
  lemma ParseIntExactly(s: string)
    ensures ParseInt(s).Some? <==> exists sign, digits :: SignedDigits(Strip(s), sign, digits)
    ensures forall sign, digits :: SignedDigits(Strip(s), sign, digits) ==> ParseInt(s) == Some(SignedValue(sign, digits))
  {
    var t := Strip(s);
    if ParseInt(s).Some? {
      if t[0] == '+' || t[0] == '-' {
        assert SignedDigits(t, [t[0]], t[1..]);
      } else {
        assert SignedDigits(t, "", t);
      }
    }
    forall sign, digits | SignedDigits(t, sign, digits)
      ensures ParseInt(s) == Some(SignedValue(sign, digits))
    {
      if sign == "" {
        assert t == digits && IsDigit(t[0]);
      } else {
        assert t[0] == sign[0] && t[1..] == digits;
      }
    }
  }

  /** Digits with nothing around them parse to their value, with or without a minus sign. */
  lemma ParseIntDigits(d: string, value: nat)
    requires d != [] && AllDigits(d) && DigitsValue(d) == value
    ensures ParseInt(d) == Some(value)
    ensures ParseInt(['-'] + d) == Some(-(value as int))
  {
    assert IsDigit(d[0]) && IsDigit(d[|d| - 1]);
    assert Strip(d) == d by {
      StripLeftNoop(d);
      StripRightNoop(d);
    }
    var m := ['-'] + d;
    assert m[1..] == d && m[|m| - 1] == d[|d| - 1];
    assert Strip(m) == m by {
      StripLeftNoop(m);
      StripRightNoop(m);
    }
  }

  /** A rendered number parses back, and so does its negation. */
  lemma ParseIntRendered(n: nat)
    ensures ParseInt(NatToString(n)) == Some(n)
    ensures ParseInt(['-'] + NatToString(n)) == Some(-(n as int))
  {
    NatToStringRoundTrip(n);
    ParseIntDigits(NatToString(n), n);
  }

  /** The loop's variables: the conversation and the three generation settings. */
  datatype ChatState = ChatState(conversation: string, settings: GenConfig)

  /** After one input the loop either goes on or has ended (exit, or an error from generation). */
  datatype Outcome = Next(state: ChatState) | Ended(state: ChatState)

  /**
   * One pass of the loop body (lines 41-114); `parseFloat` stands for
   * Python's `float()`. Generation (lines 106-108) has no string check
   * here, and its errors end the chat.
   */
  function Step(m: LanguageModel, parseFloat: string -> Option<real>, s: ChatState, input: string): Outcome {
    match Classify(input)
    case Stop => Ended(s)
    case Reset => Next(s.(conversation := SystemMessage))
    case SetTemperature(arg) =>
      if parseFloat(arg).Some? then Next(s.(settings := s.settings.(temperature := parseFloat(arg).value))) else Next(s)
    case SetMaxTokens(arg) =>
      if ParseInt(arg).Some? then Next(s.(settings := s.settings.(maxTokens := ParseInt(arg).value))) else Next(s)
    case SetTopP(arg) =>
      if parseFloat(arg).Some? then Next(s.(settings := s.settings.(topP := parseFloat(arg).value))) else Next(s)
    case Say(text) =>
      var prompt := TurnPrompt(s.conversation, text);
      match Reply(m, prompt, s.settings)
      case Ok(response) => Next(s.(conversation := prompt + response))
      case Err(_) => Ended(s.(conversation := prompt))
  }

  /** The state after feeding `inputs` to the loop from `s`. */
  function Run(m: LanguageModel, parseFloat: string -> Option<real>, s: ChatState, inputs: seq<string>): ChatState
    decreases |inputs|
  {
    if inputs == [] then s
    else
      match Step(m, parseFloat, s, inputs[0])
      case Ended(t) => t
      case Next(t) => Run(m, parseFloat, t, inputs[1..])
  }

  /** `chat_with_model`'s loop (lines 35-114) over a finite list of user inputs. */
  method ChatWithModel(m: LanguageModel, parseFloat: string -> Option<real>, inputs: seq<string>,
                       temperature: real, maxTokens: int, topP: real) returns (final: ChatState)
    ensures final == Run(m, parseFloat, ChatState(SystemMessage, GenConfig(maxTokens, temperature, topP)), inputs)
  {
    var conversation := SystemMessage;
    var settings := GenConfig(maxTokens, temperature, topP);
    ghost var start := ChatState(conversation, settings);
    var i := 0;
    while i < |inputs|
      invariant 0 <= i <= |inputs|
      invariant Run(m, parseFloat, ChatState(conversation, settings), inputs[i..]) == Run(m, parseFloat, start, inputs)
    {
      assert inputs[i..][1..] == inputs[i + 1..];
      var command := Classify(inputs[i]);
      match command {
        case Stop =>
          break;
        case Reset =>
          conversation := SystemMessage;
        case SetTemperature(arg) =>
          var t := parseFloat(arg);
          if t.Some? {
            settings := settings.(temperature := t.value);
          }
        case SetMaxTokens(arg) =>
          var n := ParseInt(arg);
          if n.Some? {
            settings := settings.(maxTokens := n.value);
          }
        case SetTopP(arg) =>
          var p := parseFloat(arg);
          if p.Some? {
            settings := settings.(topP := p.value);
          }
        case Say(text) =>
          conversation := TurnPrompt(conversation, text);
          var response := Reply(m, conversation, settings);
          if response.Err? {
            break;
          }
          conversation := conversation + response.value;
      }
      i := i + 1;
    }
    assert i == |inputs| ==> inputs[i..] == [];
    final := ChatState(conversation, settings);
  }

  /** No setting command touches the conversation, and `/max` with a value `int()` rejects changes nothing. */
  lemma CommandsKeepConversation(m: LanguageModel, parseFloat: string -> Option<real>, s: ChatState, input: string)
    requires !Classify(input).Say? && !Classify(input).Reset?
    ensures Step(m, parseFloat, s, input).state.conversation == s.conversation
    ensures Classify(input).SetMaxTokens? && ParseInt(Classify(input).arg).None? ==> Step(m, parseFloat, s, input) == Next(s)
    ensures Classify(input).Stop? <==> Step(m, parseFloat, s, input).Ended?
  {
  }

  /** `clear`, in any case, restores the system message and keeps the settings. */
  lemma ClearRestarts(m: LanguageModel, parseFloat: string -> Option<real>, s: ChatState, input: string)
    requires Lower(input) == Clear
    ensures Step(m, parseFloat, s, input) == Next(ChatState(SystemMessage, s.settings))
  {
    assert Lower(input) != Exit by { assert Lower(input)[0] != Exit[0]; }
    assert Lower(input) != Quit by { assert Lower(input)[0] != Quit[0]; }
  }

  /** Any step but `clear` keeps the conversation as a prefix of the new one. */
  lemma StepExtends(m: LanguageModel, parseFloat: string -> Option<real>, s: ChatState, input: string)
    requires !IsClear(input)
    ensures StartsWith(Step(m, parseFloat, s, input).state.conversation, s.conversation)
  {
    if Classify(input).Say? {
      var prompt := TurnPrompt(s.conversation, input);
      assert prompt[..|s.conversation|] == s.conversation;
      var r := Reply(m, prompt, s.settings);
      if r.Ok? {
        assert (prompt + r.value)[..|s.conversation|] == s.conversation;
      }
    }
  }

  /** Between clears the conversation only grows: each step keeps the old text as a prefix. */
  lemma {:induction false} RunExtends(m: LanguageModel, parseFloat: string -> Option<real>, s: ChatState, inputs: seq<string>)
    requires forall k :: 0 <= k < |inputs| ==> !IsClear(inputs[k])
    ensures StartsWith(Run(m, parseFloat, s, inputs).conversation, s.conversation)
    decreases |inputs|
  {
    if inputs != [] {
      var next := Step(m, parseFloat, s, inputs[0]);
      StepExtends(m, parseFloat, s, inputs[0]);
      if next.Next? {
        RunExtends(m, parseFloat, next.state, inputs[1..]);
        var final := Run(m, parseFloat, next.state, inputs[1..]).conversation;
        assert final[..|s.conversation|] == next.state.conversation[..|s.conversation|];
      }
    }
  }
}
