/**
 * The simple document Q&A system (part3/document_qa.py): overlapping
 * word-window chunks, the relevance rating read from a model response, and
 * the scan that keeps the answer from the best-rated chunk.
 */
module WordChunkQA {
  import opened Wrappers
  import opened Text

  // ===========================================================================
  // split_into_chunks (lines 24-34)

  /** Python's normalisation of a slice stop `j` for a sequence of length `n`. */
  function SliceStop(j: int, n: nat): (r: nat)
    ensures r <= n
  {
    if j < 0 then (if j + n < 0 then 0 else j + n) else if j > n then n else j
  }

  /** `words[i:i + chunkSize]` for a start `i` inside the list. */
  function Window(words: seq<string>, i: nat, chunkSize: int): (w: seq<string>)
    requires i <= |words|
  {
    var stop := SliceStop(i + chunkSize, |words|);
    if stop <= i then [] else words[i..stop]
  }

  /** How many values `range(0, n, step)` produces for a positive step: ceil(n / step). */
  function WindowCount(n: nat, step: nat): nat
    requires step > 0
  {
    (n + step - 1) / step
  }

  /** The chunks produced by the first `k` loop iterations, empty windows skipped (line 31). */
  function ChunksUpTo(words: seq<string>, chunkSize: int, step: nat, k: nat): seq<string>
    requires step > 0 && k <= WindowCount(|words|, step)
  {
    if k == 0 then []
    else
      var i := (k - 1) * step;
      assert i < |words| by {
        assert (k - 1) * step < WindowCount(|words|, step) * step;
        WindowCountBound(|words|, step);
      }
      var chunk := Join(" ", Window(words, i, chunkSize));
      ChunksUpTo(words, chunkSize, step, k - 1) + (if chunk != "" then [chunk] else [])
  }

  lemma WindowCountBound(n: nat, step: nat)
    requires step > 0
    ensures WindowCount(n, step) * step < n + step
    ensures WindowCount(n, step) * step >= n
    ensures forall k :: 0 <= k < WindowCount(n, step) ==> k * step < n
  {
    var c := WindowCount(n, step);
    var r := (n + step - 1) % step;
    assert c * step + r == n + step - 1 && 0 <= r < step;
    forall k | 0 <= k < c ensures k * step < n {
      MulMono(k + 1, c, step);
      StepMul(k, step);
    }
  }

  /** What `split_into_chunks(text, chunkSize, overlap)` returns or raises. */
  function SplitIntoChunksSpec(text: string, chunkSize: int, overlap: int): Result<seq<string>> {
    var words := Words(text);
    var step := chunkSize - overlap;
    if step == 0 then Err(ValueError("range() arg 3 must not be zero"))
    else if step < 0 then Ok([])
    else Ok(ChunksUpTo(words, chunkSize, step, WindowCount(|words|, step)))
  }

  /** The stepped loop of lines 29-32. */
  method SplitIntoChunks(text: string, chunkSize: int := 1500, overlap: int := 200) returns (r: Result<seq<string>>)
    ensures r == SplitIntoChunksSpec(text, chunkSize, overlap)
  {
    var words := Words(text);
    var step := chunkSize - overlap;
    if step == 0 {
      return Err(ValueError("range() arg 3 must not be zero"));
    }
    if step < 0 {
      return Ok([]);
    }
    WindowCountBound(|words|, step);
    var chunks: seq<string> := [];
    var i := 0;
    ghost var k: nat := 0;
    while i < |words|
      invariant k <= WindowCount(|words|, step)
      invariant i == k * step
      invariant k < WindowCount(|words|, step) ==> i < |words|
      invariant k == WindowCount(|words|, step) ==> i >= |words|
      invariant chunks == ChunksUpTo(words, chunkSize, step, k)
      decreases |words| - i
    {
      var chunk := Join(" ", Window(words, i, chunkSize));
      if chunk != "" {
        chunks := chunks + [chunk];
      }
      i := i + step;
      k := k + 1;
    }
    return Ok(chunks);
  }

  /** The words of window `k`: `words[k*step : k*step + chunkSize]` for a non-negative chunk size. */
  function WindowWords(words: seq<string>, chunkSize: nat, step: nat, k: nat): seq<string> {
    var i := k * step;
    if i > |words| then [] else words[i..if i + chunkSize <= |words| then i + chunkSize else |words|]
  }

  lemma StepMul(k: nat, step: nat)
    ensures (k + 1) * step == k * step + step
  {
  }

  /** Window `k` of the loop is `WindowWords(…, k)`, and it is not empty. */
  lemma WindowAt(words: seq<string>, chunkSize: nat, step: nat, k: nat)
    requires chunkSize > 0 && step > 0 && k < WindowCount(|words|, step)
    requires forall m :: 0 <= m < |words| ==> IsWord(words[m])
    ensures k * step < |words|
    ensures Window(words, k * step, chunkSize) == WindowWords(words, chunkSize, step, k)
    ensures 1 <= |WindowWords(words, chunkSize, step, k)| <= chunkSize
    ensures Join(" ", WindowWords(words, chunkSize, step, k)) != []
  {
    WindowCountBound(|words|, step);
    var i := k * step;
    var w := WindowWords(words, chunkSize, step, k);
    assert forall m :: 0 <= m < |w| ==> w[m] == words[i + m];
    JoinWordsNonEmpty(w);
  }

  lemma JoinWordsNonEmpty(ws: seq<string>)
    requires ws != [] && forall m :: 0 <= m < |ws| ==> IsWord(ws[m])
    ensures Join(" ", ws) != []
  {
    JoinNonEmpty(" ", ws);
  }

  /**
   * With a positive chunk size and a positive step, no window is empty, so
   * the first `k` iterations give exactly `k` chunks, chunk `j` being window
   * `j` joined by single spaces, holding between one and `chunkSize` words.
   */
  lemma {:induction false} ChunksAreWindows(words: seq<string>, chunkSize: nat, step: nat, k: nat)
    requires chunkSize > 0 && step > 0 && k <= WindowCount(|words|, step)
    requires forall m :: 0 <= m < |words| ==> IsWord(words[m])
    ensures var cs := ChunksUpTo(words, chunkSize, step, k);
      && |cs| == k
      && forall j :: 0 <= j < k ==>
           && 1 <= |WindowWords(words, chunkSize, step, j)| <= chunkSize
           && cs[j] == Join(" ", WindowWords(words, chunkSize, step, j))
  {
    if k > 0 {
      ChunksAreWindows(words, chunkSize, step, k - 1);
      WindowAt(words, chunkSize, step, k - 1);
    }
  }

  /**
   * `split_into_chunks` for a positive chunk size and step: ceil(n / step)
   * chunks, chunk `j` holding window `j` of between one and `chunkSize` words.
   */
  lemma SplitIntoChunksWindows(text: string, chunkSize: nat, overlap: int)
    requires chunkSize > overlap && chunkSize > 0
    ensures SplitIntoChunksSpec(text, chunkSize, overlap).Ok?
    ensures var cs := SplitIntoChunksSpec(text, chunkSize, overlap).value;
      && |cs| == WindowCount(|Words(text)|, chunkSize - overlap)
      && forall j :: 0 <= j < |cs| ==>
           && 1 <= |WindowWords(Words(text), chunkSize, chunkSize - overlap, j)| <= chunkSize
           && cs[j] == Join(" ", WindowWords(Words(text), chunkSize, chunkSize - overlap, j))
  {
    var words := Words(text);
    var step := chunkSize - overlap;
    ChunksAreWindows(words, chunkSize, step, WindowCount(|words|, step));
    assert SplitIntoChunksSpec(text, chunkSize, overlap) == Ok(ChunksUpTo(words, chunkSize, step, WindowCount(|words|, step)));
  }

  /** Empty or whitespace-only text gives no chunks, whatever the sizes. */
  lemma BlankTextNoChunks(text: string, chunkSize: int, overlap: int)
    requires AllSpace(text) && chunkSize != overlap
    ensures SplitIntoChunksSpec(text, chunkSize, overlap) == Ok([])
  {
  }

  /** Every word lies in some chunk when the overlap is not negative (no gaps between windows). */
  lemma WindowsCover(words: seq<string>, chunkSize: nat, overlap: nat, w: nat)
    requires chunkSize > overlap && w < |words|
    ensures var step := chunkSize - overlap;
      var k := w / step;
      && k < WindowCount(|words|, step)
      && k * step <= w < k * step + |WindowWords(words, chunkSize, step, k)|
  {
    var step := chunkSize - overlap;
    var k := w / step;
    assert k < WindowCount(|words|, step) && k * step <= w < k * step + step by {
      DivBounds(w, step);
      CountAbove(|words|, step, k, w);
    }
    WindowContains(words, chunkSize, step, k, w);
  }

  lemma WindowContains(words: seq<string>, chunkSize: nat, step: nat, k: nat, w: nat)
    requires 0 < step <= chunkSize && k * step <= w < k * step + step && w < |words|
    ensures w < k * step + |WindowWords(words, chunkSize, step, k)|
  {
    var i := k * step;
    var e := if i + chunkSize <= |words| then i + chunkSize else |words|;
    assert WindowWords(words, chunkSize, step, k) == words[i..e];
  }

  lemma DivBounds(w: nat, step: nat)
    requires step > 0
    ensures (w / step) * step <= w < (w / step) * step + step
  {
    assert (w / step) * step + w % step == w;
  }

  /** A window index whose start lies before the end is below the window count. */
  lemma CountAbove(n: nat, step: nat, k: nat, w: nat)
    requires step > 0 && k * step <= w < n
    ensures k < WindowCount(n, step)
  {
    WindowCountBound(n, step);
    if k >= WindowCount(n, step) {
      MulMono(WindowCount(n, step), k, step);
    }
  }

  lemma MulMono(a: nat, b: nat, step: nat)
    requires a <= b
    ensures a * step <= b * step
  {
  }

  /** Consecutive windows share words: window `k` after its first `step` words starts window `k + 1`, and that shared part has at most `overlap` words. */
  lemma WindowsOverlap(words: seq<string>, chunkSize: nat, overlap: nat, k: nat)
    requires chunkSize > overlap && (k + 1) * (chunkSize - overlap) < |words|
    ensures var step := chunkSize - overlap;
      var a := WindowWords(words, chunkSize, step, k);
      var b := WindowWords(words, chunkSize, step, k + 1);
      && step <= |a| && |a| - step <= |b| && |a| - step <= overlap
      && a[step..] == b[..|a| - step]
  {
    var step := chunkSize - overlap;
    var n := |words|;
    var i := k * step;
    StepMul(k, step);
    var e := if i + chunkSize <= n then i + chunkSize else n;
    var e2 := if i + step + chunkSize <= n then i + step + chunkSize else n;
    assert WindowWords(words, chunkSize, step, k) == words[i..e];
    assert WindowWords(words, chunkSize, step, k + 1) == words[i + step..e2];
    assert words[i..e][step..] == words[i + step..e];
    assert words[i + step..e2][..e - i - step] == words[i + step..e];
  }

  // ===========================================================================
  // The relevance rating (line 85)

  /** Python's `s[:n]`. */
  function Take(s: string, n: nat): (r: string)
    ensures |r| <= n && |r| <= |s| && r == s[..|r|]
  {
    if |s| <= n then s else s[..n]
  }

  /** `''.join(filter(str.isdigit, s))`. */
  function DigitsOf(s: string): (d: string)
    ensures AllDigits(d)
    ensures |d| <= |s|
  {
    if s == [] then []
    else (if IsDigit(s[0]) then [s[0]] else []) + DigitsOf(s[1..])
  }

  /** The rating of line 85, or `None` when `int('')` would raise and the chunk is skipped. */
  function ParseRelevance(response: string): (r: Option<nat>)
    ensures r.None? <==> forall i :: 0 <= i < |Take(response, 10)| ==> !IsDigit(response[i])
  {
    var d := DigitsOf(Take(response, 10));
    DigitsOfEmpty(Take(response, 10));
    if d == [] then None else Some(DigitsValue(d))
  }

  lemma {:induction false} DigitsOfEmpty(s: string)
    ensures DigitsOf(s) == [] <==> forall i :: 0 <= i < |s| ==> !IsDigit(s[i])
  {
    if s != [] {
      DigitsOfEmpty(s[1..]);
      assert forall i :: 1 <= i < |s| ==> s[i] == s[1..][i - 1];
    }
  }

  /** Only the first ten characters count: what follows them never changes the rating. */
  lemma RelevanceIgnoresTail(response: string, tail: string)
    requires |response| >= 10
    ensures ParseRelevance(response + tail) == ParseRelevance(response)
  {
    assert Take(response + tail, 10) == Take(response, 10);
  }

  // ===========================================================================
  // The best-answer scan (lines 64-116)

  datatype GenConfig = GenConfig(maxTokens: int, temperature: real)

  const RelevanceConfig := GenConfig(10, 0.1)
  const AnswerConfig := GenConfig(500, 0.2)

  const RelevanceHead: string := "Assess if this text contains information to answer the question.\nQuestion: "
  const RelevanceTail: string := "...\nRate relevance from 0-10 (where 10 is highest):"
  const AnswerHead: string := "Answer the question based ONLY on the following text:\nText: "

  /** The relevance prompt of lines 69-72, showing at most the first 1000 characters of the chunk. */
  function RelevancePrompt(question: string, chunk: string): string {
    RelevanceHead + question
    + "\nText: " + Take(chunk, 1000) + RelevanceTail
  }

  /** The answer prompt of lines 88-93. */
  function AnswerPrompt(question: string, chunk: string): string {
    AnswerHead + chunk
    + "\n\nQuestion: " + question + "\n\nAnswer:"
  }

  /** The rating the model gives each chunk; `complete` maps a prompt to the decoded continuation. */
  function Ratings(question: string, chunks: seq<string>, complete: (string, GenConfig) -> string): (rs: seq<Option<nat>>)
    ensures |rs| == |chunks|
  {
    seq(|chunks|, i requires 0 <= i < |chunks| => ParseRelevance(complete(RelevancePrompt(question, chunks[i]), RelevanceConfig)))
  }

  /** Rating `r` is below `bound`, or the chunk was skipped. */
  predicate Below(r: Option<nat>, bound: nat) {
    r.None? || r.value < bound
  }

  /**
   * The scan of lines 64-110. A chunk replaces the best answer only when
   * its rating is strictly greater; the scan stops after the first new best
   * rated 8 or more. The result is the answer from chunk `best`, the first
   * chunk reaching the final rating, with every earlier rating lower and
   * below 8; when the scan ran to the end, no chunk was rated higher.
   */
  method SelectBestAnswer(question: string, chunks: seq<string>, complete: (string, GenConfig) -> string)
    returns (bestAnswer: Option<string>, bestRelevance: nat, ghost best: nat)
    ensures var rs := Ratings(question, chunks, complete);
      && (bestAnswer.None? <==> bestRelevance == 0)
      && (bestAnswer.None? ==> forall j :: 0 <= j < |rs| ==> Below(rs[j], 1))
      && (bestAnswer.Some? ==>
            && best < |rs|
            && rs[best] == Some(bestRelevance)
            && bestAnswer.value == complete(AnswerPrompt(question, chunks[best]), AnswerConfig)
            && (forall j :: 0 <= j < best ==> Below(rs[j], bestRelevance) && Below(rs[j], 8)))
      && (bestRelevance < 8 ==> forall j :: 0 <= j < |rs| ==> Below(rs[j], bestRelevance + 1))
    // An answer is printed exactly when some chunk was rated above zero and
    // the answer generated for the chosen chunk is not empty.
    ensures var rs := Ratings(question, chunks, complete);
      Reported(bestAnswer, bestRelevance).Some? <==>
        && (exists j :: 0 <= j < |rs| && !Below(rs[j], 1))
        && best < |chunks|
        && complete(AnswerPrompt(question, chunks[best]), AnswerConfig) != ""
  {
    ghost var rs := Ratings(question, chunks, complete);
    bestAnswer := None;
    bestRelevance := 0;
    best := 0;
    var i := 0;
    while i < |chunks|
      invariant i <= |chunks|
      invariant bestAnswer.None? <==> bestRelevance == 0
      invariant bestAnswer.None? ==> forall j :: 0 <= j < i ==> Below(rs[j], 1)
      invariant bestAnswer.Some? ==>
        && best < i
        && rs[best] == Some(bestRelevance)
        && bestAnswer.value == complete(AnswerPrompt(question, chunks[best]), AnswerConfig)
        && (forall j :: 0 <= j < best ==> Below(rs[j], bestRelevance) && Below(rs[j], 8))
      invariant bestRelevance < 8
      invariant forall j :: 0 <= j < i ==> Below(rs[j], bestRelevance + 1)
    {
      var response := complete(RelevancePrompt(question, chunks[i]), RelevanceConfig);
      var relevance := ParseRelevance(response);
      assert relevance == rs[i];
      if relevance.Some? && relevance.value > bestRelevance {
        var answer := complete(AnswerPrompt(question, chunks[i]), AnswerConfig);
        bestAnswer := Some(answer);
        bestRelevance := relevance.value;
        best := i;
        if bestRelevance >= 8 {
          return;
        }
      }
      i := i + 1;
    }
  }

  /** Line 113: an answer is printed only when it is non-empty and its rating is positive. */
  function Reported(bestAnswer: Option<string>, bestRelevance: nat): (r: Option<string>)
    ensures r.Some? <==> bestAnswer.Some? && bestAnswer.value != "" && bestRelevance > 0
    ensures r.Some? ==> r == bestAnswer
  {
    if bestAnswer.Some? && bestAnswer.value != "" && bestRelevance > 0 then bestAnswer else None
  }
}
