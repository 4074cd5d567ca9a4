# AI with Mac: a verified model of the tutorial scripts' core logic

This project models, in Dafny, the logic of the "AI with Mac" tutorial
repository. The scripts run local language models on Apple Silicon with MLX.
Around the model calls sits ordinary sequence and string logic, and that is
what is modelled:

- **Retrieval Q&A** (`part5/document_qa_mlx.py`, module `SemanticQA`):
  - the heading/paragraph section split;
  - the greedy packing of stripped sections into chunks under a soft size budget;
  - the bag-of-tokens count embedding;
  - the top-k ranking by similarity;
  - the `EnhancedDocumentQA` session, which keeps the chunk list and the embedding list side by side.
- **Simple document Q&A** (`part3/document_qa.py`, `WordChunkQA`): overlapping word windows, the relevance digit rating, and the best-answer scan.
- **Semantic versions** (`part5/ml_versioning.py`, `Versioning`):
  - parse, format and increment;
  - the version chosen and the metadata written by `update_model_version`;
  - the git tag.
- **Model/dataset registry index** (`part5/model_registry.py`, `Registry`): registration, lookup, listing and generated versions.
- **Hardware readiness** (`part1/examples/hardware_check.py`, `Hardware`): the score, its band and the recommendation.
- **Time-series data handling** (`part5/timeseries_mlx.py`, `TimeSeries`): input windows and targets, and the batch index arithmetic of training.
- **The two chat loops** (`part3/simple_chat.py`, `SimpleChat`; `part3/advanced_chat.py`, `AdvancedChat`): transcript state, command dispatch and error handling.
- **Smaller scripts**:
  - requirements generation and the installed/missing split (`Requirements`);
  - the batch prompt runner (`BatchProcess`);
  - the model download script (`DownloadModels`).
- **Shared modules**:
  - `Text`: the Python string operations used (`strip`, `split`, `join`, `lower`, `in`, `int()` on digits, `str()` of naturals);
  - `Wrappers`: `Option` and `Result` for `None` returns and raised exceptions;
  - `JsonValue`: metadata dictionary values and their truthiness.

Inputs that come from outside the program are parameters of the model:

- The tokenizer, the generator and `float()` are functions.
- The file system's answer about a path is a `PathInfo` value.
- The clock is a value.
- Each epoch's shuffle is a sequence.
- The return code of each shell command is a function of the command.

Behaviour worth noting:

- Text extraction that yields an empty string makes `load_document` return
  False. Text that is only whitespace loads successfully with zero chunks,
  and `answer_question` then returns `None`.
- A failed load leaves the previous document's chunks and embeddings in
  place. It does not reset the session.
- The ranking uses `np.argsort`, which is not stable. Equal scores have no
  fixed order, so the model proves only what holds for every order.
- The generator parameter is assumed to return the prompt's tokens followed
  by the new ones, since the code decodes `generated[len(tokens):]`. Nothing
  in the model checks that assumption.
- The section split is the exact regular expression
  `(?=\n\s*[A-Z][^a-z]*\n)|(?=\n\n)`.
- The chunk list and the embedding list stay two parallel lists. The class
  invariant `Valid` keeps them aligned.

## Model

| member | source | states |
|---|---|---|
| SemanticQA.SemanticChunks | part5/document_qa_mlx.py:96-125 | The chunks the section split and greedy packing produce. Their meaning is stated by `SemanticChunksNonEmpty`, `SemanticChunksLossless`, `SemanticChunksSizeBound` and `SemanticChunksEmptyIffBlank`. |
| SemanticQA.SplitFrom | part5/document_qa_mlx.py:99 | The pieces from a start position are never empty as a list and concatenate back to the text from that position. |
| SemanticQA.Sections | part5/document_qa_mlx.py:99 | The zero-width split loses nothing: the sections concatenate back to the original text. |
| SemanticQA.Kept | part5/document_qa_mlx.py:104-108 | Every section kept after stripping is non-empty. |
| SemanticQA.PackCloseInv | part5/document_qa_mlx.py:111-114 | Closing the current chunk and starting a new one with the section keeps the packing invariant. The invariant covers: groups non-empty; flattened groups equal the sections; size bound; each closed group overflows with the next section. |
| SemanticQA.PackExtendInv | part5/document_qa_mlx.py:115-119 | Appending a section that fits to the current chunk keeps the packing invariant. |
| SemanticQA.PackAllInv | part5/document_qa_mlx.py:104-119 | The invariant holds after the whole loop over non-empty sections. |
| SemanticQA.GroupsPartition | part5/document_qa_mlx.py:104-123 | The chunk groups flatten back to the kept sections, in order, and no group is empty. |
| SemanticQA.GroupsGreedy | part5/document_qa_mlx.py:111-123 | No group is empty. A group of two or more sections joins to at most `maxChunkSize + 2` characters. Each chunk plus the first section of the next exceeds the budget. |
| SemanticQA.ClosedGreedy | part5/document_qa_mlx.py:121-123 | Emitting the last open chunk keeps the size rule and the closing rule for every group. |
| SemanticQA.SemanticChunksNonEmpty | part5/document_qa_mlx.py:106-123 | Every chunk returned is non-empty. |
| SemanticQA.SemanticChunksLossless | part5/document_qa_mlx.py:104-123 | The chunks joined by a blank line equal the kept stripped sections joined by a blank line: nothing is lost, duplicated or reordered. |
| SemanticQA.SemanticChunksSizeBound | part5/document_qa_mlx.py:111-119 | A chunk longer than `maxChunkSize + 2` is one kept section, itself longer than the budget. |
| SemanticQA.SemanticChunksEmptyIffBlank | part5/document_qa_mlx.py:99-125 | The chunk list is empty exactly when the text is all whitespace. |
| SemanticQA.CountVector | part5/document_qa_mlx.py:145-154 | The reference embedding has `vocabSize` slots, and slot `t` holds the number of occurrences of id `t`. |
| SemanticQA.Unique | part5/document_qa_mlx.py:151 | `np.unique`'s ids: strictly ascending, and exactly the ids that occur. |
| SemanticQA.EmbedCounts | part5/document_qa_mlx.py:145-154 | The slot-by-slot writes over the unique ids produce the reference count vector. |
| SemanticQA.CountVectorAllZeroIff | part5/document_qa_mlx.py:152-159 | The vector is all zero (and so left unnormalised) exactly when no id is below the vocabulary size. |
| SemanticQA.CountVectorIgnoresOutOfRange | part5/document_qa_mlx.py:153 | An id at or past the vocabulary size does not change the vector. |
| SemanticQA.CountVectorTotal | part5/document_qa_mlx.py:151-154 | The counts sum to the number of in-range ids: no occurrence is dropped or counted twice. |
| SemanticQA.DotZeroIff | part5/document_qa_mlx.py:168 | The dot product is zero exactly when no slot is non-zero in both vectors. |
| SemanticQA.DisjointTokensScoreZero | part5/document_qa_mlx.py:166-169 | Texts with no token in common score 0. |
| SemanticQA.Similarity | part5/document_qa_mlx.py:166-169 | The score of a stored chunk is never negative. `DisjointTokensScoreZero` states when it is zero. |
| SemanticQA.Similarities | part5/document_qa_mlx.py:166-169 | There is one score per stored embedding. |
| SemanticQA.ArgMaxIn | part5/document_qa_mlx.py:172 | The position returned holds a largest score of the pool. |
| SemanticQA.TopK | part5/document_qa_mlx.py:172 | The result is min(`topK`, n) distinct in-range indices (all n when `topK` is 0). Scores do not increase along the list. No index left out scores above one kept. |
| SemanticQA.IsTopK | part5/document_qa_mlx.py:172 | What every valid `np.argsort(sims)[-topK:][::-1]` result satisfies. `TopK` produces one. |
| SemanticQA.AnswerPrompt | part5/document_qa_mlx.py:61-68 | The answer prompt around the joined context and the question. `AnswerQuestion` states its use. |
| SemanticQA.Pick | part5/document_qa_mlx.py:58 | The context pieces are the chunks at the ranked indices, in ranked order. |
| SemanticQA.SplitIntoSemanticChunks | part5/document_qa_mlx.py:96-125 | The method returns exactly the specified chunks of the text. |
| SemanticQA.PackLoopStep | part5/document_qa_mlx.py:110-119 | One loop iteration on `chunks`/`current_chunk` matches one packing step on groups, in both the overflow case and the append case. |
| SemanticQA.PackSections | part5/document_qa_mlx.py:101-125 | The loop over the sections yields the joined groups of the kept sections. |
| SemanticQA.EnhancedDocumentQA.constructor | part5/document_qa_mlx.py:24-25 | A new session has no chunks and no embeddings. |
| SemanticQA.EnhancedDocumentQA.LoadDocument | part5/document_qa_mlx.py:27-43 | The result is True exactly when extraction gave a non-empty string. The chunks are then the semantic chunks of that text, with embeddings aligned. Otherwise nothing changes. |
| SemanticQA.EnhancedDocumentQA.CreateEmbeddings | part5/document_qa_mlx.py:127-136 | Afterwards there is one embedding per chunk, and entry `i` is the count vector of chunk `i`. |
| SemanticQA.EnhancedDocumentQA.FindRelevantChunks | part5/document_qa_mlx.py:163-172 | The scores are the similarities to the stored embeddings, and the result is a valid top-k of them. |
| SemanticQA.EnhancedDocumentQA.AnswerQuestion | part5/document_qa_mlx.py:45-81 | `None` exactly when there are no chunks. Otherwise the prompt holds the top-3 chunks joined by a blank line, and the answer is the stripped decoding of the tokens after the prompt. |
| WordChunkQA.SliceStop | part3/document_qa.py:30 | Python's normalised slice stop never passes the end. |
| WordChunkQA.WindowCountBound | part3/document_qa.py:29 | `range(0, n, step)` has ceil(n/step) values, each below n. |
| WordChunkQA.SplitIntoChunksSpec | part3/document_qa.py:24-34 | What `split_into_chunks` returns or raises. `SplitIntoChunksWindows` and `BlankTextNoChunks` state its meaning. |
| WordChunkQA.SplitIntoChunks | part3/document_qa.py:24-34 | The stepped loop returns the specified chunks. A zero step raises ValueError and a negative step gives `[]`. |
| WordChunkQA.WindowAt | part3/document_qa.py:29-31 | Window `k` starts inside the word list and holds between 1 and `chunkSize` words. Its join is non-empty. |
| WordChunkQA.ChunksAreWindows | part3/document_qa.py:29-32 | The first k iterations give exactly k chunks. Chunk j is window j joined by single spaces. |
| WordChunkQA.SplitIntoChunksWindows | part3/document_qa.py:24-34 | With chunk size > overlap there are ceil(n/step) chunks, each the space-join of `words[j*step : j*step+chunkSize]`, with 1 to `chunkSize` words. |
| WordChunkQA.BlankTextNoChunks | part3/document_qa.py:26-34 | Empty or whitespace-only text gives no chunks. |
| WordChunkQA.WindowsCover | part3/document_qa.py:29-30 | Every word index lies in window `w / step`. |
| WordChunkQA.WindowsOverlap | part3/document_qa.py:29-30 | Window k minus its first `step` words is a prefix of window k+1, of at most `overlap` words. |
| WordChunkQA.Take | part3/document_qa.py:85 | `s[:n]` is a prefix of at most n characters. |
| WordChunkQA.DigitsOf | part3/document_qa.py:85 | The filter keeps only digits and never lengthens the text. |
| WordChunkQA.ParseRelevance | part3/document_qa.py:84-85 | The parse fails (the chunk is skipped) exactly when the first ten characters hold no digit. |
| WordChunkQA.RelevanceIgnoresTail | part3/document_qa.py:85 | Text after the first ten characters never changes the rating. |
| WordChunkQA.RelevancePrompt | part3/document_qa.py:69-72 | The rating prompt, showing at most the first 1000 characters of the chunk (`Take`). |
| WordChunkQA.AnswerPrompt | part3/document_qa.py:88-93 | The answer prompt around the chunk and the question. `SelectBestAnswer` states its use. |
| WordChunkQA.Ratings | part3/document_qa.py:67-85 | There is one rating per chunk. |
| WordChunkQA.SelectBestAnswer | part3/document_qa.py:64-116 | No answer exactly when the rating is 0. An answer comes from the first chunk with the final rating, and earlier ratings are lower and below 8. Below 8, no chunk was rated higher. An answer is printed exactly when some chunk was rated above 0 and the answer generated for the chosen chunk is not empty. |
| WordChunkQA.Reported | part3/document_qa.py:113-116 | The printing test of the scan's result. `SelectBestAnswer` states when it holds in terms of the chunk ratings. |
| Versioning.LeadingNumber | part5/ml_versioning.py:25 | A matched digit run consumes at least one character. |
| Versioning.ParseVersion | part5/ml_versioning.py:23-30 | A failure is ValueError with the input in the message. A success starts with `v` or a digit. |
| Versioning.MatchTripleOf | part5/ml_versioning.py:25 | Three dotted digit runs, followed by text that does not continue the last run, match with their values. |
| Versioning.ParseVersionOf | part5/ml_versioning.py:25-30 | An optional `v` plus three dotted digit runs parses to their values, whatever non-digit suffix follows. |
| Versioning.ParseVersionSplit | part5/ml_versioning.py:25 | A text that parses splits into an optional `v`, three dotted digit runs and a rest that does not start with a digit. |
| Versioning.ParseVersionExactly | part5/ml_versioning.py:23-30 | Parsing succeeds exactly when the text starts with `v?\d+\.\d+\.\d+`. It then yields the values of the three digit runs. Any other text raises ValueError. |
| Versioning.ParseFormatRoundTrip | part5/ml_versioning.py:23-35 | Parsing a formatted version, with any suffix not starting with a digit, gives the version back. |
| Versioning.LeadingZeroIgnored | part5/ml_versioning.py:29 | A leading zero does not change a component's value. |
| Versioning.FormatVersion | part5/ml_versioning.py:33-35 | `v` and the three components joined by dots. `ParseFormat` and `ParseFormatRoundTrip` state that parsing gives it back. |
| Versioning.ParseFormat | part5/ml_versioning.py:23-35 | `parse_version(format_version(v)) == v`. |
| Versioning.Bump | part5/ml_versioning.py:51-58 | The level is accepted exactly when it is major, minor or patch. The result is then strictly newer. |
| Versioning.IncrementVersion | part5/ml_versioning.py:38-58 | A malformed version raises its parse error before the level is examined. An unknown level then raises ValueError. |
| Versioning.IncrementIsNewer | part5/ml_versioning.py:49-56 | A successful increment reads back as the bump of the old version, strictly newer. |
| Versioning.FirstVersion | part5/ml_versioning.py:83-89 | The version of a model with no metadata file. `FirstVersionIsBumpOfZero` relates it to `Bump`. |
| Versioning.FirstVersionIsBumpOfZero | part5/ml_versioning.py:83-89 | For the three known levels, a new model's version is the bump of 0.0.0. |
| Versioning.WrittenMetadata | part5/ml_versioning.py:93-99 | The written keys are the stored keys plus `version`, `last_updated` and the caller's keys. Caller values win. Otherwise the new version and time are set, and other stored values are kept. |
| Versioning.UpdateModelVersion | part5/ml_versioning.py:61-105 | No file: the first version and fresh metadata. With a file: the stored version (default `v0.0.0`) is incremented or its error raised, and a non-string version raises TypeError. |
| Versioning.CallerVersionWins | part5/ml_versioning.py:94-99 | A caller `version` key overwrites the stored version that is returned. |
| Versioning.Basename | part5/ml_versioning.py:121 | The basename is the suffix after the last `/` and holds no `/`. |
| Versioning.TagName | part5/ml_versioning.py:139 | The tag is `model-`, the basename, `-`, then the version. |
| Versioning.TagNameInjective | part5/ml_versioning.py:139 | Different versions of one directory get different tags. |
| Versioning.TagCommand | part5/ml_versioning.py:142-143 | The `git tag -a` command for the tag name, with the message `Model <name> version <version>`. |
| Versioning.TagModelVersion | part5/ml_versioning.py:108-150 | A given non-empty version is tagged. Otherwise a tag exists exactly when the metadata file has a truthy version. |
| Registry.PathJoinParts | part5/model_registry.py:79 | The joined path ends with the last component and keeps the first as a prefix unless the last is absolute. |
| Registry.GenerateVersion | part5/model_registry.py:303-311 | The date-and-time version. `GeneratedVersionParses` states that it reads back as year.month.day. |
| Registry.Pad2Value | part5/model_registry.py:311 | A zero-padded field reads back as its number. |
| Registry.GeneratedVersionParses | part5/model_registry.py:303-311 | A generated version parses, as a semantic version, to year.month.day. |
| Registry.ModelMetadata | part5/model_registry.py:96-115 | The metadata stored for a model version. `ModelMetadataKeys` states its keys and values. |
| Registry.DatasetMetadata | part5/model_registry.py:185-203 | The metadata stored for a dataset version. `DatasetMetadataKeys` states its keys and values. |
| Registry.ModelMetadataKeys | part5/model_registry.py:96-115 | Stored model metadata gains `registered_at`, `original_path`, `registry_path` and the size, plus the hash for a file. Other caller keys are kept unchanged. |
| Registry.DatasetMetadataKeys | part5/model_registry.py:185-203 | Dataset metadata gains the standard keys and `is_reference_only`. There is no size or hash of its own when the dataset is above 1,000,000,000 bytes, and a size otherwise. |
| Registry.AddVersion | part5/model_registry.py:70-119 | After registration the version holds the metadata and is the latest. Other versions and other names are untouched. A new name gets a fresh entry, listed last. |
| Registry.AddVersionKeepsTableOk | part5/model_registry.py:70-119 | Registration keeps the index well formed. |
| Registry.GetFrom | part5/model_registry.py:224-239 | `None` for an unknown name or version. `latest` resolves to the latest version. The result is a copy with `name` and `version` added. |
| Registry.RegisterThenGetLatest | part5/model_registry.py:118-119 | After registering, the latest lookup returns the new metadata, even if an older registration sorts higher. |
| Registry.RegisterLeavesOthers | part5/model_registry.py:71-119 | Registering one name changes no lookup of another. |
| Registry.Listing | part5/model_registry.py:276-284 | One lookup per name whose latest version is truthy, in index order. `ListingComplete`, `ListingNames` and `Listed` state its meaning. |
| Registry.ListingComplete | part5/model_registry.py:276-284 | Every listed lookup succeeds and names its entry. |
| Registry.ListingNames | part5/model_registry.py:276-284 | The listing is the lookups of the names with a truthy latest version, in index order. |
| Registry.Listed | part5/model_registry.py:278-280 | Listed names are in the index and have a non-empty latest version. |
| Registry.ModelRegistry.constructor | part5/model_registry.py:35-41 | A new registry has empty model and dataset tables. |
| Registry.ModelRegistry.RegisterModel | part5/model_registry.py:49-123 | A missing path raises FileNotFoundError with no change. Otherwise the given or generated version is stored as latest, with the model metadata. Datasets are untouched. |
| Registry.ModelRegistry.RegisterDataset | part5/model_registry.py:125-211 | The same as for models, for datasets. Models are untouched. |
| Registry.ModelRegistry.GetModel | part5/model_registry.py:213-239 | `get_model` on the model table. `GetFrom`, `RegisterThenGetLatest` and `RegisterLeavesOthers` state its results. |
| Registry.ModelRegistry.GetDataset | part5/model_registry.py:241-267 | `get_dataset` on the dataset table, with the same meaning as `GetModel`. |
| Registry.ModelRegistry.ListModels | part5/model_registry.py:269-284 | The method returns the model listing. |
| Registry.ModelRegistry.ListDatasets | part5/model_registry.py:286-301 | The method returns the dataset listing. |
| Registry.Store | part5/model_registry.py:71-119 | The in-place index updates equal `AddVersion` and keep the index well formed. |
| Hardware.IsAppleSilicon | part1/examples/hardware_check.py:25-27 | The Apple Silicon test. `ArmMachineIsAppleSilicon` and `MachineCaseIgnored` state its meaning. |
| Hardware.MachineCaseIgnored | part1/examples/hardware_check.py:27 | Only the machine name is compared without regard to case. |
| Hardware.ArmMachineIsAppleSilicon | part1/examples/hardware_check.py:27 | Apple Silicon exactly when the processor is `arm` or three consecutive characters of the machine name spell `arm` in any case. |
| Hardware.ReadinessScore | part1/examples/hardware_check.py:47-69 | Without Apple Silicon the score is 0. With it the score is 50 to 100, always one of {0,50,60,70,80,90,100}. |
| Hardware.MemoryTier | part1/examples/hardware_check.py:58-67 | The memory part of the score. `ScoreThresholds` and `ScoreMonotone` state its tiers. |
| Hardware.ScoreMonotone | part1/examples/hardware_check.py:58-67 | More memory never lowers the score. |
| Hardware.ScoreThresholds | part1/examples/hardware_check.py:58-67 | Each tier is reached exactly at 8, 16, 32, 64 and 128 GB. |
| Hardware.BandOf | part1/examples/hardware_check.py:92-109 | The band is Incompatible exactly for a score of 0 or below. |
| Hardware.BandOfReadiness | part1/examples/hardware_check.py:89-109 | The Moderate and Limited bands are unreachable. Below 8 GB, Apple Silicon rates Good. |
| Hardware.Recommend | part1/examples/hardware_check.py:114-122 | The recommendation printed. `RecommendFollowsScore` relates it to the score. |
| Hardware.RecommendFollowsScore | part1/examples/hardware_check.py:114-122 | The recommendation is decided by the score alone. |
| TimeSeries.Windows | part5/timeseries_mlx.py:57-58 | There are max(0, n−seq) windows, and window i is `data[i:i+seq]`. |
| TimeSeries.Targets | part5/timeseries_mlx.py:57-59 | There is one target per window, and target i is `data[i+seq]`. |
| TimeSeries.PrepareTimeseriesData | part5/timeseries_mlx.py:54-59 | The loop builds exactly those windows and targets. |
| TimeSeries.WindowShift | part5/timeseries_mlx.py:58-59 | Window i+1 is window i without its first value, followed by target i. |
| TimeSeries.TargetsCoverTail | part5/timeseries_mlx.py:57-59 | The targets are the data after the first window. |
| TimeSeries.BatchCountFits | part5/timeseries_mlx.py:80 | The batches fit in the samples, `n mod bs` are left over, and there are no batches exactly when n < bs. |
| TimeSeries.Batch | part5/timeseries_mlx.py:101 | Each batch has exactly `batch_size` indices. |
| TimeSeries.TrainModel | part5/timeseries_mlx.py:76-114 | A zero batch size raises ZeroDivisionError, and so do fewer samples than one batch when there is an epoch. Otherwise there is one loss per epoch: the batch loss sum over the batch count. |
| TimeSeries.LossSum | part5/timeseries_mlx.py:101-106 | The summed loss of the first batches. `SumBatchLosses` and `TrainModel` state its use. |
| TimeSeries.SumBatchLosses | part5/timeseries_mlx.py:98-106 | The inner loop sums the losses of the first `num_batches` batches. |
| TimeSeries.BatchPosition | part5/timeseries_mlx.py:100-101 | Shuffle position p is item `p mod bs` of batch `p / bs`. |
| TimeSeries.BatchesDisjoint | part5/timeseries_mlx.py:97-101 | Two batches of one epoch share no sample. |
| TimeSeries.TailSkipped | part5/timeseries_mlx.py:80-101 | The last `n mod bs` shuffled samples are in no batch. |
| AdvancedChat.SecondField | part3/advanced_chat.py:66 | The second space-separated field holds no space. |
| AdvancedChat.Classify | part3/advanced_chat.py:47-87 | `exit`/`quit` in any case come first, then `clear`. The case-sensitive prefixes follow. Anything else is said as typed. |
| AdvancedChat.ParseInt | part3/advanced_chat.py:74 | Whitespace-only input fails, and a negative result has a minus sign. |
| AdvancedChat.ParseIntExactly | part3/advanced_chat.py:74 | `int()` succeeds exactly when the stripped text is an optional sign followed by ASCII digits, and then gives their signed value. |
| AdvancedChat.ParseIntDigits | part3/advanced_chat.py:74 | A digit string parses to its value, with or without a leading minus. |
| AdvancedChat.ParseIntRendered | part3/advanced_chat.py:74 | A rendered number and its negation parse back. |
| AdvancedChat.Step | part3/advanced_chat.py:41-114 | One pass of the loop body. `CommandsKeepConversation`, `ClearRestarts` and `StepExtends` state what it does. |
| AdvancedChat.Run | part3/advanced_chat.py:35-114 | The loop over a list of inputs. `ChatWithModel` and `RunExtends` state its meaning. |
| AdvancedChat.ChatWithModel | part3/advanced_chat.py:35-114 | The loop's final conversation and settings are those of the step function over the inputs. |
| AdvancedChat.CommandsKeepConversation | part3/advanced_chat.py:50-87 | No setting command touches the conversation. `/max` with a bad value changes nothing. Only exit ends the loop. |
| AdvancedChat.ClearRestarts | part3/advanced_chat.py:50-51 | `clear` in any case restores the system message and keeps the settings. |
| AdvancedChat.StepExtends | part3/advanced_chat.py:89-114 | A step other than `clear` keeps the conversation as a prefix. |
| AdvancedChat.RunExtends | part3/advanced_chat.py:89-114 | Between clears the conversation only grows. |
| SimpleChat.NewTokens | part3/simple_chat.py:85 | The slice after the prompt is the rest of the output, or empty when the output is shorter. |
| SimpleChat.TurnPrompt | part3/simple_chat.py:58-61 | A non-empty conversation gains `\nHuman: …\nAssistant: `. |
| SimpleChat.Reply | part3/simple_chat.py:75-85 | A generation error is passed on. |
| SimpleChat.Respond | part3/simple_chat.py:73-85 | A string from the tokenizer raises TypeError before generating. Otherwise the result is the reply. |
| SimpleChat.Step | part3/simple_chat.py:43-102 | The loop stops exactly on exit. `clear` resets to the system message. |
| SimpleChat.Run | part3/simple_chat.py:31-102 | The loop over a list of inputs. `ChatWithModel` and `RunNeverEmpty` state its meaning. |
| SimpleChat.ChatWithModel | part3/simple_chat.py:31-102 | The loop's final conversation is that of the step function, and it is never empty. |
| SimpleChat.TurnExtends | part3/simple_chat.py:57-102 | A successful turn extends the conversation, and a failed one resets it. |
| SimpleChat.RunNeverEmpty | part3/simple_chat.py:58-61 | The conversation is never empty, so the `else` of line 60 is never taken. |
| SimpleChat.StringTokensReset | part3/simple_chat.py:78-101 | A string from the tokenizer resets the conversation. |
| Requirements.KeptNames | part2/examples/requirements_example.py:49-53 | There are no more names than lines, and no name holds `==`. |
| Requirements.KeptNamesAppend | part2/examples/requirements_example.py:49-53 | Filtering keeps line order across any split of the lines. |
| Requirements.KeptNamesOne | part2/examples/requirements_example.py:51-52 | A line gives the text before its first `==`, or nothing. |
| Requirements.StripVersions | part2/examples/requirements_example.py:48-53 | The loop yields the kept names. |
| Requirements.PackageList | part2/examples/requirements_example.py:47-56 | The stripped `pip freeze` output, or the bare names one per line. `StripVersions` and `KeptNames` state the bare-name case. |
| Requirements.Header | part2/examples/requirements_example.py:59-60 | The timestamp comment, the project comment and a blank line. `ContentLines` states the line layout. |
| Requirements.GenerateRequirements | part2/examples/requirements_example.py:26-69 | A pip failure gives False. Otherwise the content starts with the header. |
| Requirements.ContentLines | part2/examples/requirements_example.py:59-64 | The file reads as two comment lines, a blank line, then the package lines. |
| Requirements.CheckEssentialPackages | part2/examples/requirements_example.py:71-95 | The keys are exactly the ten distinct packages, one entry each, and each value is the probe's answer. |
| Requirements.Select | part2/examples/requirements_example.py:110-117 | The selected names are exactly those with the wanted status. |
| Requirements.Partition | part2/examples/requirements_example.py:107-117 | The loop yields the installed and missing selections in dictionary order. |
| Requirements.PartitionSplits | part2/examples/requirements_example.py:107-117 | Each package is in exactly one list, and the counts add up. |
| BatchProcess.Kept | part3/batch_process.py:13 | A line contributes at most one prompt, with no whitespace at either end. |
| BatchProcess.Prompts | part3/batch_process.py:13 | There are no more prompts than lines, and each is non-empty and stripped. |
| BatchProcess.PromptsAppend | part3/batch_process.py:13 | The filter keeps file order. |
| BatchProcess.PromptsOne | part3/batch_process.py:13 | A blank line gives nothing. Any other line gives its stripped text. |
| BatchProcess.Responses | part3/batch_process.py:26-41 | Ok exactly when every prompt generates, and then the responses are in order. An error is the first failing prompt's. |
| BatchProcess.Blocks | part3/batch_process.py:41 | There is one block per prompt, paired by position. |
| BatchProcess.BatchProcess | part3/batch_process.py:9-45 | The written text is the concatenated blocks. Otherwise the run stops with the first error and writes nothing. |
| BatchProcess.ProcessPrompts | part3/batch_process.py:24-45 | The loop yields the blocks, or stops at the first error. |
| BatchProcess.ResponsesStop | part3/batch_process.py:26-39 | Once prompt i fails, the batch fails with its error. |
| BatchProcess.BlockShape | part3/batch_process.py:41 | A block starts with `Prompt: …\nResponse: ` and ends with a blank line. |
| BatchProcess.OutputSplits | part3/batch_process.py:45 | Nothing separates the blocks: the output of two parts is their outputs in sequence. |
| DownloadModels.Settings | scripts/download_models.py:39-68 | A name is known exactly when it is one of the nine choices. The quantisation is 4 or 8. |
| DownloadModels.QuantMatchesSuffix | scripts/download_models.py:13-65 | The quantisation is the one the name's suffix says. |
| DownloadModels.OutputPath | scripts/download_models.py:71 | The output directory `models/<name>`, used by both conversion attempts. |
| DownloadModels.QuantFlag | scripts/download_models.py:82-85 | `-q` for 4 bits, `-q8` for 8 bits. `BaseCommandFlag` states which names get `-q8`. |
| DownloadModels.DownloadCommand | scripts/download_models.py:110-114 | The `python -c` snapshot download of the model's repository. `DirectDownloadFails` states its outcome. |
| DownloadModels.BaseCommand | scripts/download_models.py:79-85 | The command is the convert call, the path and at most one flag. |
| DownloadModels.BaseCommandFlag | scripts/download_models.py:79-85 | The base command ends in `-q8` exactly for an `-8bit` name. |
| DownloadModels.Script | scripts/download_models.py:27-128 | The commands run and the outcome. `RunMain`, `Attempts` and `UnknownRunsNoConversion` state its meaning. |
| DownloadModels.RunMain | scripts/download_models.py:11-128 | The commands run, in order, and the outcome match `Script`: the login unless already logged in, up to two conversion attempts, then the install and the direct download. |
| DownloadModels.UnknownRunsNoConversion | scripts/download_models.py:66-68 | An unknown name runs at most the login. |
| DownloadModels.Attempts | scripts/download_models.py:87-100 | The second attempt runs only after the first fails, with `--out-path`. Saved exactly when one attempt succeeds. |
| DownloadModels.DirectDownloadFails | scripts/download_models.py:102-120 | Reaching the direct download always ends in failure. |
| Text.Strip | part3/batch_process.py:13 | The stripped text has no whitespace at either end, and is empty exactly for all-whitespace input. |
| Text.StripSlice | part3/batch_process.py:13 | `strip` removes only whitespace and keeps a slice. |
| Text.StripIdempotent | part3/batch_process.py:13 | Stripping twice is stripping once. |
| Text.Words | part3/document_qa.py:26 | `split()` gives non-empty words without whitespace, and no words exactly for blank text. |
| Text.SplitOn | part2/examples/requirements_example.py:50 | The pieces hold no separator and rejoin to the text. |
| Text.BeforeFirst | part2/examples/requirements_example.py:52 | The result is the prefix before the first occurrence of the separator. |
| Text.BeforeFirstHasNoSep | part2/examples/requirements_example.py:51-52 | That prefix holds no separator, and it is shorter exactly when the separator occurs. |
| Text.Lower | part3/simple_chat.py:43 | `lower()` maps character by character. |
| Text.NatToString | part5/ml_versioning.py:35 | `str(n)` is digits with no leading zero. |
| Text.NatToStringRoundTrip | part5/ml_versioning.py:29-35 | Reading a rendered number gives it back. |
| Text.Pad2 | part5/model_registry.py:311 | `{:02d}` gives at least two digits. |
| Text.TakeDigits | part5/ml_versioning.py:25 | `\d+` takes the longest ASCII digit prefix. |

## Left out

- PDF extraction, model loading, the MLX calls, console input and output, and every `print` are left out. Extracted text, tokenizer, generator and user inputs are parameters.
- The L2 normalisation of `_embed_text` and float arithmetic in general are left out.
  - The embedding is the integer count vector.
  - Similarity is the squared cosine as an exact rational. It orders the same way because counts are never negative.
- SemanticQA.TopK: tie order is not fixed, matching the unstable `np.argsort`. Only what every order satisfies is proved.
- Registry.ModelRegistry.constructor: loading an existing index file is not modelled. A registry always starts empty.
- File copying, directory creation, `dataset_reference.txt`, hashing, size sums and `_save_index`'s JSON write are not modelled. Their results are the `PathInfo` input.
- Registry.ModelRegistry.RegisterModel: the caller's metadata dictionary is modified in place in the source. This aliasing is not modelled.
- Registry.ModelRegistry.RegisterDataset: the same aliasing of the caller's metadata dictionary is not modelled.
- Registry.ModelRegistry.RegisterModel: the two clock reads of one registration (`created` and `registered_at`) are one `now` value.
- Registry.ModelRegistry.RegisterDataset: the two clock reads of one registration (`created` at part5/model_registry.py:151 and `registered_at` at line 191) are one `now` value.
- Versioning.UpdateModelVersion: reading and writing `metadata.json`, and malformed JSON, are not modelled. The stored dictionary is an input.
- Versioning.TagModelVersion: the exit status of `git tag` is ignored, as in the source. The command is not run.
- JSON values hold strings, integers, booleans and null exactly. Floats, lists and objects are kept only as their `str()` text and truthiness.
- Text.Lower: ASCII letters only. Python's `lower()` also maps non-ASCII letters.
- Versioning.ParseVersion: `\d` is ASCII 0-9 here. Python's `\d` in a `str` pattern also matches other Unicode decimal digits, which `int()` converts, so `v١.٢.٣` parses in Python and fails here.
- AdvancedChat.ParseInt: ASCII digits only. Python's `int()` also accepts underscores between digits and non-ASCII decimal digits.
- WordChunkQA.DigitsOf: ASCII digits only. Python's `str.isdigit` also accepts other Unicode digits, which `int()` can then reject.
- The semantic chunker's callers always use `max_chunk_size=1500`. The lemmas hold for any budget.
- WordChunkQA.SelectBestAnswer: an exception from generating the answer text would also be swallowed by the bare `except`. Here the completion function is total.
- The question loops of both Q&A scripts (reading questions until `exit`) are not modelled. The per-question logic is.
- Hardware: `get_mac_model` and `get_total_memory` are not modelled. The processor string, machine string and memory are inputs.
- TimeSeries: CSV reading, the MLX normalisation, the LSTM, the optimiser and plotting are left out. The loss of a batch is an input function, and the shuffle of each epoch is an input sequence.
- SimpleChat.ChatWithModel: `KeyboardInterrupt` and end of input both end the loop, as the inputs running out.
- AdvancedChat.ChatWithModel: Python's `float()` is a parameter.
- Requirements: running `pip` and probing imports with `find_spec` are inputs. A failing `pip` is `None`. The timestamp is text.
- Requirements.GenerateRequirements: the file write is not modelled. The function returns the text written.
- BatchProcess: reading the prompts file is input, as its lines. Writing the output file is the result text. Timing is left out.
- DownloadModels.RunMain: `mkdir`, the printed hints and troubleshooting text are left out. Each command's return code is an input function of the command.
- DownloadModels.RunMain: an exception from `subprocess.run` (for example a missing executable) is not modelled.
- DownloadModels.RunMain: the `whoami()` check is the `loggedIn` input.
- DownloadModels.UnknownRunsNoConversion: `argparse` `choices` already rejects unknown names. The unknown-model branch is unreachable from the command line but modelled as written.
