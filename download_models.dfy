/**
 * The model download script (scripts/download_models.py): the choice of
 * Hugging Face repository and quantisation for each supported model name,
 * and the commands `main` runs in turn, from the `mlx_lm.convert` call with
 * the current option name through its older spelling to the direct
 * download. Each command's return code is given by the input function
 * `run`; the messages printed are not modelled.
 */
module DownloadModels {
  import opened Wrappers
  import opened Text

  /** The names the `--model` option accepts (lines 13-23). */
  const ModelChoices: seq<string> := [
    "gemma-2b-it-4bit", "gemma-7b-it-4bit", "gemma-7b-it-8bit",
    "mistral-7b-instruct-4bit", "mistral-7b-instruct-8bit", "phi-3-mini-4bit",
    "llama-3-8b-instruct-4bit", "llama-3-8b-instruct-8bit", "llama-3-70b-instruct-4bit"]

  const Bits4: string := "-4bit"
  const Bits8: string := "-8bit"
  const ModelsPrefix: string := "models/"
  const Quant4Flag: string := "-q"
  const Quant8Flag: string := "-q8"
  const MlxPathFlag: string := "--mlx-path"
  const OutPathFlag: string := "--out-path"

  /** Where a model comes from and how many bits its weights are quantised to. */
  datatype ModelSpec = ModelSpec(hfPath: string, quant: nat)

  /** The settings chosen by lines 39-68; `None` for a name the chain does not know. */
  function Settings(name: string): (s: Option<ModelSpec>)
    ensures s.Some? <==> name in ModelChoices
    ensures s.Some? ==> s.value.quant == 4 || s.value.quant == 8
  {
    if name == "gemma-2b-it-4bit" then Some(ModelSpec("google/gemma-2b-it", 4))
    else if name == "gemma-7b-it-4bit" then Some(ModelSpec("google/gemma-7b-it", 4))
    else if name == "gemma-7b-it-8bit" then Some(ModelSpec("google/gemma-7b-it", 8))
    else if name == "mistral-7b-instruct-4bit" then Some(ModelSpec("mistralai/Mistral-7B-Instruct-v0.2", 4))
    else if name == "mistral-7b-instruct-8bit" then Some(ModelSpec("mistralai/Mistral-7B-Instruct-v0.2", 8))
    else if name == "phi-3-mini-4bit" then Some(ModelSpec("microsoft/Phi-3-mini-4k-instruct", 4))
    else if name == "llama-3-8b-instruct-4bit" then Some(ModelSpec("meta-llama/Meta-Llama-3-8B-Instruct", 4))
    else if name == "llama-3-8b-instruct-8bit" then Some(ModelSpec("meta-llama/Meta-Llama-3-8B-Instruct", 8))
    else if name == "llama-3-70b-instruct-4bit" then Some(ModelSpec("meta-llama/Meta-Llama-3-70B-Instruct", 4))
    else None
  }

  /** The quantisation a name asks for is the one its suffix names. */
  lemma QuantMatchesSuffix(name: string)
    requires name in ModelChoices
    ensures Settings(name).value.quant == 8 <==> EndsWith(name, Bits8)
    ensures Settings(name).value.quant == 4 <==> EndsWith(name, Bits4)
  {
  }

  /** `output_path` (line 71). */
  function OutputPath(name: string): string {
    ModelsPrefix + name
  }

  const LoginCommand: seq<string> := ["huggingface-cli", "login"]
  const InstallCommand: seq<string> := ["pip", "install", "--upgrade", "huggingface_hub"]
  const Python: string := "python"
  const ConvertCommand: seq<string> := [Python, "-m", "mlx_lm.convert", "--hf-path"]
  const DownloadCodeStart: string :=
    "from huggingface_hub import snapshot_download; print('Downloaded to:', snapshot_download(repo_id='"
  const DownloadCodeEnd: string := "'))"

  /** The `python -c` snapshot download of lines 110-114. */
  function DownloadCommand(hfPath: string): seq<string> {
    [Python, "-c", DownloadCodeStart + hfPath + DownloadCodeEnd]
  }

  /** The flag of lines 82-85: `-q` for 4 bits, `-q8` for 8 bits, nothing otherwise. */
  function QuantFlag(quant: nat): seq<string> {
    if quant == 4 then [Quant4Flag] else if quant == 8 then [Quant8Flag] else []
  }

  /** The command `cmd` of lines 79-85, before an output option is added. */
  function BaseCommand(spec: ModelSpec): (cmd: seq<string>)
    ensures |cmd| == |ConvertCommand| + 1 + |QuantFlag(spec.quant)|
  {
    ConvertCommand + [spec.hfPath] + QuantFlag(spec.quant)
  }

  /** How the script ends. */
  datatype Outcome = UnknownModel | Saved | Failed

  /** The commands run, in order, and how the script ends. */
  datatype Trace = Trace(executed: seq<seq<string>>, outcome: Outcome)

  /**
   * `main` after the option is parsed (lines 27-128): the login command
   * unless already logged in (`login_huggingface`, lines 135-156), then
   * for a known name the conversion with `--mlx-path`, after a failure the
   * conversion with `--out-path`, and after a second failure the install
   * and the direct download, which still counts as a failure.
   */
  function Script(name: string, loggedIn: bool, run: seq<string> -> int): Trace {
    var login := if loggedIn then [] else [LoginCommand];
    match Settings(name)
    case None => Trace(login, UnknownModel)
    case Some(spec) =>
      var base := BaseCommand(spec);
      var first := base + [MlxPathFlag, OutputPath(name)];
      var second := base + [OutPathFlag, OutputPath(name)];
      if run(first) == 0 then Trace(login + [first], Saved)
      else if run(second) == 0 then Trace(login + [first, second], Saved)
      else Trace(login + [first, second, InstallCommand, DownloadCommand(spec.hfPath)], Failed)
  }

  /** The body of `main` as it runs, building each attempt from a copy of `cmd`. */
  method RunMain(name: string, loggedIn: bool, run: seq<string> -> int) returns (executed: seq<seq<string>>, outcome: Outcome)
    ensures Trace(executed, outcome) == Script(name, loggedIn, run)
  {
    executed := [];
    if !loggedIn {
      executed := executed + [LoginCommand];
    }
    var settings := Settings(name);
    if settings.None? {
      return executed, UnknownModel;
    }
    var hfPath, quant := settings.value.hfPath, settings.value.quant;
    var outputPath := ModelsPrefix + name;
    var cmd := ConvertCommand + [hfPath];
    if quant == 4 {
      cmd := cmd + [Quant4Flag];
    } else if quant == 8 {
      cmd := cmd + [Quant8Flag];
    }
    assert cmd == BaseCommand(settings.value);
    ghost var login := executed;
    var outCmd := cmd + [MlxPathFlag, outputPath];
    ghost var first := outCmd;
    executed := executed + [outCmd];
    var returnCode := run(outCmd);
    if returnCode != 0 {
      outCmd := cmd + [OutPathFlag, outputPath];
      executed := executed + [outCmd];
      assert executed == login + [first, outCmd];
      returnCode := run(outCmd);
    }
    if returnCode != 0 {
      executed := executed + [InstallCommand, DownloadCommand(hfPath)];
      assert executed == login + [first, outCmd, InstallCommand, DownloadCommand(hfPath)];
      returnCode := 1;
    }
    outcome := if returnCode == 0 then Saved else Failed;
  }

  /** An unknown name runs nothing but the login. */
  lemma UnknownRunsNoConversion(name: string, loggedIn: bool, run: seq<string> -> int)
    requires name !in ModelChoices
    ensures Script(name, loggedIn, run).outcome == UnknownModel
    ensures forall k :: 0 <= k < |Script(name, loggedIn, run).executed| ==> Script(name, loggedIn, run).executed[k] == LoginCommand
    ensures |Script(name, loggedIn, run).executed| == if loggedIn then 0 else 1
  {
  }

  /**
   * For a known name both conversion attempts are the same base command
   * with a different output option; the second runs only after the first
   * fails, and the model is saved exactly when one of them succeeds.
   */
  lemma Attempts(name: string, loggedIn: bool, run: seq<string> -> int)
    requires name in ModelChoices
    ensures var t := Script(name, loggedIn, run);
      var login := if loggedIn then 0 else 1;
      var base := BaseCommand(Settings(name).value);
      && |t.executed| > login
      && t.executed[login] == base + [MlxPathFlag, OutputPath(name)]
      && (run(t.executed[login]) != 0 <==> |t.executed| > login + 1)
      && (|t.executed| > login + 1 ==> t.executed[login + 1] == base + [OutPathFlag, OutputPath(name)])
      && (t.outcome == Saved <==> run(base + [MlxPathFlag, OutputPath(name)]) == 0 || run(base + [OutPathFlag, OutputPath(name)]) == 0)
      && (t.outcome == Saved || t.outcome == Failed)
  {
  }

  /** Reaching the direct download always ends in failure, whatever the download does. */
  lemma DirectDownloadFails(name: string, loggedIn: bool, run: seq<string> -> int)
    requires name in ModelChoices
    requires InstallCommand in Script(name, loggedIn, run).executed
    ensures Script(name, loggedIn, run).outcome == Failed
  {
  }

  /** The base command ends in the flag of the name's quantisation. */
  lemma BaseCommandFlag(name: string)
    requires name in ModelChoices
    ensures var cmd := BaseCommand(Settings(name).value);
      && |cmd| == 6 && cmd[..4] == ConvertCommand && cmd[4] == Settings(name).value.hfPath
      && (cmd[5] == "-q8" <==> EndsWith(name, Bits8))
  {
    QuantMatchesSuffix(name);
  }
}
