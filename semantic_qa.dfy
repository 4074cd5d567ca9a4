/**
 * The retrieval pipeline of the enhanced document Q&A system
 * (part5/document_qa_mlx.py): the heading/paragraph section split, the
 * greedy packing of stripped sections into chunks under a soft character
 * budget, the bag-of-tokens count embedding, the top-k ranking by
 * similarity, and the session object that keeps the chunk list and the
 * embedding list side by side.
 */
module SemanticQA {
  import opened Wrappers
  import opened Text

  /** The separator placed between two sections of one chunk and between retrieved chunks. */
  const Sep: string := "\n\n"

  // ===========================================================================
  // The section split: re.split(r'(?=\n\s*[A-Z][^a-z]*\n)|(?=\n\n)', text)

  predicate IsAsciiUpper(c: char) { 'A' <= c <= 'Z' }

  predicate IsAsciiLower(c: char) { 'a' <= c <= 'z' }

  /** `\n\s*[A-Z][^a-z]*\n` matches `t[i..k+1]`, with the capital letter at `j`. */
  predicate HeadingShape(t: string, i: int, j: int, k: int)
    requires 0 <= i < j < k < |t|
  {
    && t[i] == '\n'
    && (forall m :: i < m < j ==> IsSpace(t[m]))
    && IsAsciiUpper(t[j])
    && (forall m :: j < m < k ==> !IsAsciiLower(t[m]))
    && t[k] == '\n'
  }

  /** The first lookahead alternative succeeds at position `i`. */
  predicate HeadingAhead(t: string, i: int) {
    0 <= i < |t| && exists j, k :: i < j < k < |t| && HeadingShape(t, i, j, k)
  }

  /** The second lookahead alternative, `(?=\n\n)`, succeeds at position `i`. */
  predicate ParagraphAhead(t: string, i: int) {
    0 <= i && i + 1 < |t| && t[i] == '\n' && t[i + 1] == '\n'
  }

  /** The split pattern matches (with an empty match) at position `i`. */
  predicate Boundary(t: string, i: int) {
    HeadingAhead(t, i) || ParagraphAhead(t, i)
  }

  /**
   * The pieces of `t[start..]`, the current piece having begun at `start`
   * and positions before `i` already examined. Every position where the
   * zero-width pattern matches starts a new piece; a match at position 0
   * gives an empty first piece, as Python's `re.split` does.
   */
  function SplitFrom(t: string, start: nat, i: nat): (pieces: seq<string>)
    requires start <= i <= |t|
    ensures pieces != []
    ensures Concat(pieces) == t[start..]
    decreases |t| - i
  {
    if i == |t| then
      [t[start..]]
    else if Boundary(t, i) then
      var rest := SplitFrom(t, i, i + 1);
      assert t[start..] == t[start..i] + t[i..];
      [t[start..i]] + rest
    else
      SplitFrom(t, start, i + 1)
  }

  /** The sections of line 99, which concatenate back to the text: nothing is lost. */
  function Sections(text: string): (sections: seq<string>)
    ensures Concat(sections) == text
  {
    assert text[0..] == text;
    SplitFrom(text, 0, 0)
  }

  // ===========================================================================
  // Greedy packing of sections into chunks (lines 96-125), as a specification

  /** The stripped sections that are not empty, in order (lines 106-108). */
  function Kept(sections: seq<string>): (kept: seq<string>)
    ensures forall k :: 0 <= k < |kept| ==> kept[k] != []
  {
    if sections == [] then []
    else
      var s := Strip(sections[|sections| - 1]);
      Kept(sections[..|sections| - 1]) + (if s == [] then [] else [s])
  }

  /**
   * The packing state after some sections: the groups already closed and
   * the group still open (the sections of `current_chunk`).
   */
  datatype PackState = PackState(closed: seq<seq<string>>, open: seq<string>)

  /** One iteration of the loop at lines 104-119, on groups of sections. */
  function PackStep(st: PackState, s: string, maxChunkSize: int): PackState {
    if |Join(Sep, st.open)| + |s| > maxChunkSize then
      PackState(if st.open != [] then st.closed + [st.open] else st.closed, [s])
    else
      PackState(st.closed, st.open + [s])
  }

  function PackAll(secs: seq<string>, maxChunkSize: int): PackState {
    if secs == [] then PackState([], [])
    else PackStep(PackAll(secs[..|secs| - 1], maxChunkSize), secs[|secs| - 1], maxChunkSize)
  }

  /** The groups of sections that become chunks, the open group closed at the end (lines 122-123). */
  function Groups(secs: seq<string>, maxChunkSize: int): seq<seq<string>> {
    var st := PackAll(secs, maxChunkSize);
    if st.open != [] then st.closed + [st.open] else st.closed
  }

  function JoinEach(gs: seq<seq<string>>): (r: seq<string>)
    ensures |r| == |gs| && forall k :: 0 <= k < |gs| ==> r[k] == Join(Sep, gs[k])
  {
    seq(|gs|, k requires 0 <= k < |gs| => Join(Sep, gs[k]))
  }

  /** What `_split_into_semantic_chunks(text, maxChunkSize)` returns. */
  function SemanticChunks(text: string, maxChunkSize: int): seq<string> {
    JoinEach(Groups(Kept(Sections(text)), maxChunkSize))
  }

  function Flatten(gs: seq<seq<string>>): seq<string> {
    if gs == [] then [] else Flatten(gs[..|gs| - 1]) + gs[|gs| - 1]
  }

  /** The invariant the packing loop keeps, for sections that are all non-empty. */
  ghost predicate PackInv(st: PackState, secs: seq<string>, maxChunkSize: int) {
    && (forall k :: 0 <= k < |st.closed| ==> st.closed[k] != [])
    && Flatten(st.closed) + st.open == secs
    && (forall k :: 0 <= k < |st.closed| && |st.closed[k]| >= 2 ==> |Join(Sep, st.closed[k])| <= maxChunkSize + 2)
    && (|st.open| >= 2 ==> |Join(Sep, st.open)| <= maxChunkSize + 2)
    && (forall k :: 0 <= k < |st.closed| - 1 ==> |Join(Sep, st.closed[k])| + |st.closed[k + 1][0]| > maxChunkSize)
    && (st.closed != [] ==> st.open != [] && |Join(Sep, st.closed[|st.closed| - 1])| + |st.open[0]| > maxChunkSize)
  }

  /** Closing the open group and starting a new one with `s` keeps the invariant. */
  lemma PackCloseInv(st: PackState, secs: seq<string>, s: string, maxChunkSize: int)
    requires PackInv(st, secs, maxChunkSize) && s != []
    requires |Join(Sep, st.open)| + |s| > maxChunkSize
    ensures PackInv(PackStep(st, s, maxChunkSize), secs + [s], maxChunkSize)
  {
    var st' := PackStep(st, s, maxChunkSize);
    if st.open != [] {
      assert st'.closed[..|st'.closed| - 1] == st.closed;
      assert Flatten(st'.closed) == Flatten(st.closed) + st.open;
    }
  }

  /** Adding `s` to the open group, when it fits, keeps the invariant. */
  lemma PackExtendInv(st: PackState, secs: seq<string>, s: string, maxChunkSize: int)
    requires PackInv(st, secs, maxChunkSize) && s != []
    requires |Join(Sep, st.open)| + |s| <= maxChunkSize
    ensures PackInv(PackStep(st, s, maxChunkSize), secs + [s], maxChunkSize)
  {
    var st' := PackStep(st, s, maxChunkSize);
    if st.open != [] {
      JoinSnoc(Sep, st.open, s);
    }
    assert Flatten(st.closed) + st'.open == (Flatten(st.closed) + st.open) + [s];
  }

  lemma {:induction false} PackAllInv(secs: seq<string>, maxChunkSize: int)
    requires forall k :: 0 <= k < |secs| ==> secs[k] != []
    ensures PackInv(PackAll(secs, maxChunkSize), secs, maxChunkSize)
  {
    if secs != [] {
      var init, s := secs[..|secs| - 1], secs[|secs| - 1];
      assert secs == init + [s];
      PackAllInv(init, maxChunkSize);
      var st := PackAll(init, maxChunkSize);
      if |Join(Sep, st.open)| + |s| > maxChunkSize {
        PackCloseInv(st, init, s, maxChunkSize);
      } else {
        PackExtendInv(st, init, s, maxChunkSize);
      }
    }
  }

  /** The groups partition the kept sections: nothing lost, duplicated or reordered; no group is empty. */
  lemma GroupsPartition(secs: seq<string>, maxChunkSize: int)
    requires forall k :: 0 <= k < |secs| ==> secs[k] != []
    ensures Flatten(Groups(secs, maxChunkSize)) == secs
    ensures forall k :: 0 <= k < |Groups(secs, maxChunkSize)| ==> Groups(secs, maxChunkSize)[k] != []
  {
    PackAllInv(secs, maxChunkSize);
    var st := PackAll(secs, maxChunkSize);
    if st.open != [] {
      assert (st.closed + [st.open])[..|st.closed|] == st.closed;
    }
  }

  /**
   * The size rule of line 111: a chunk of two or more sections stays within
   * the budget plus the two-character separator the check does not count,
   * and a chunk is closed only when its next section would not have fit.
   */
  lemma GroupsGreedy(secs: seq<string>, maxChunkSize: int)
    requires forall k :: 0 <= k < |secs| ==> secs[k] != []
    ensures var gs := Groups(secs, maxChunkSize);
      && (forall k :: 0 <= k < |gs| ==> gs[k] != [])
      && (forall k :: 0 <= k < |gs| && |gs[k]| >= 2 ==> |Join(Sep, gs[k])| <= maxChunkSize + 2)
      && (forall k :: 0 <= k < |gs| - 1 ==> |Join(Sep, gs[k])| + |gs[k + 1][0]| > maxChunkSize)
  {
    PackAllInv(secs, maxChunkSize);
    ClosedGreedy(PackAll(secs, maxChunkSize), secs, maxChunkSize);
  }

  /** Closing the open group of a state that keeps the invariant gives groups that obey the size rule. */
  lemma ClosedGreedy(st: PackState, secs: seq<string>, maxChunkSize: int)
    requires PackInv(st, secs, maxChunkSize)
    ensures var gs := if st.open != [] then st.closed + [st.open] else st.closed;
      && (forall k :: 0 <= k < |gs| ==> gs[k] != [])
      && (forall k :: 0 <= k < |gs| && |gs[k]| >= 2 ==> |Join(Sep, gs[k])| <= maxChunkSize + 2)
      && (forall k :: 0 <= k < |gs| - 1 ==> |Join(Sep, gs[k])| + |gs[k + 1][0]| > maxChunkSize)
  {
    if st.open != [] {
      var gs := st.closed + [st.open];
      assert forall k :: 0 <= k < |st.closed| ==> gs[k] == st.closed[k];
    }
  }

  lemma {:induction false} JoinFlatten(gs: seq<seq<string>>)
    requires forall k :: 0 <= k < |gs| ==> gs[k] != []
    ensures Join(Sep, JoinEach(gs)) == Join(Sep, Flatten(gs))
  {
    if |gs| > 1 {
      var init, last := gs[..|gs| - 1], gs[|gs| - 1];
      JoinFlatten(init);
      assert JoinEach(gs) == JoinEach(init) + [Join(Sep, last)];
      JoinSnoc(Sep, JoinEach(init), Join(Sep, last));
      FlattenNonEmpty(init);
      JoinAppend(Sep, Flatten(init), last);
    } else if |gs| == 1 {
      assert gs[..0] == [];
      assert Flatten(gs) == gs[0];
      assert JoinEach(gs) == [Join(Sep, gs[0])];
    }
  }

  lemma {:induction false} FlattenNonEmpty(gs: seq<seq<string>>)
    requires gs != [] && gs[|gs| - 1] != []
    ensures Flatten(gs) != []
  {
  }

  /** Every emitted chunk is non-empty (lines 112-113, 122-123). */
  lemma SemanticChunksNonEmpty(text: string, maxChunkSize: int)
    ensures forall k :: 0 <= k < |SemanticChunks(text, maxChunkSize)| ==> SemanticChunks(text, maxChunkSize)[k] != []
  {
    var secs := Kept(Sections(text));
    GroupsPartition(secs, maxChunkSize);
    var gs := Groups(secs, maxChunkSize);
    forall k | 0 <= k < |gs| ensures Join(Sep, gs[k]) != [] {
      assert forall m :: 0 <= m < |gs[k]| ==> gs[k][m] in secs by {
        FlattenMembers(gs, k);
      }
      JoinNonEmpty(Sep, gs[k]);
    }
  }

  lemma {:induction false} FlattenMembers(gs: seq<seq<string>>, k: nat)
    requires k < |gs|
    ensures forall m :: 0 <= m < |gs[k]| ==> gs[k][m] in Flatten(gs)
  {
    var init := gs[..|gs| - 1];
    if k < |gs| - 1 {
      FlattenMembers(init, k);
      assert init[k] == gs[k];
    }
  }

  /**
   * Joining the chunks with a blank line gives the non-empty stripped
   * sections joined with a blank line: nothing is lost, duplicated or
   * reordered (lines 104-123).
   */
  lemma SemanticChunksLossless(text: string, maxChunkSize: int)
    ensures Join(Sep, SemanticChunks(text, maxChunkSize)) == Join(Sep, Kept(Sections(text)))
  {
    var secs := Kept(Sections(text));
    GroupsPartition(secs, maxChunkSize);
    JoinFlatten(Groups(secs, maxChunkSize));
  }

  /**
   * A chunk longer than `maxChunkSize + 2` is one oversized section kept
   * whole (lines 111-119).
   */
  lemma SemanticChunksSizeBound(text: string, maxChunkSize: int, k: nat)
    requires k < |SemanticChunks(text, maxChunkSize)|
    ensures var c := SemanticChunks(text, maxChunkSize)[k];
      |c| <= maxChunkSize + 2 || (c in Kept(Sections(text)) && |c| > maxChunkSize)
  {
    var secs := Kept(Sections(text));
    GroupsPartition(secs, maxChunkSize);
    GroupsGreedy(secs, maxChunkSize);
    var gs := Groups(secs, maxChunkSize);
    if |gs[k]| == 1 {
      FlattenMembers(gs, k);
    }
  }

  lemma {:induction false} KeptEmptyIfAllSpace(sections: seq<string>)
    requires forall k :: 0 <= k < |sections| ==> AllSpace(sections[k])
    ensures Kept(sections) == []
  {
    if sections != [] {
      KeptEmptyIfAllSpace(sections[..|sections| - 1]);
    }
  }

  lemma {:induction false} ConcatAllSpace(parts: seq<string>)
    ensures AllSpace(Concat(parts)) <==> forall k :: 0 <= k < |parts| ==> AllSpace(parts[k])
  {
    if parts != [] {
      ConcatAllSpace(parts[1..]);
      var c := Concat(parts);
      assert c == parts[0] + Concat(parts[1..]);
      if AllSpace(c) {
        assert forall i :: 0 <= i < |parts[0]| ==> parts[0][i] == c[i];
        assert forall i :: 0 <= i < |Concat(parts[1..])| ==> Concat(parts[1..])[i] == c[|parts[0]| + i];
      }
      assert forall k :: 1 <= k < |parts| ==> parts[k] == parts[1..][k - 1];
    }
  }

  lemma {:induction false} KeptNonEmptyIfSomeText(sections: seq<string>, k: nat)
    requires k < |sections| && !AllSpace(sections[k])
    ensures Kept(sections) != []
  {
    if k < |sections| - 1 {
      KeptNonEmptyIfSomeText(sections[..|sections| - 1], k);
    }
  }

  /**
   * Whitespace-only text gives no chunks, and any other text at least one:
   * `load_document` then reports success with zero chunks (lines 32-43).
   */
  lemma SemanticChunksEmptyIffBlank(text: string, maxChunkSize: int)
    ensures SemanticChunks(text, maxChunkSize) == [] <==> AllSpace(text)
  {
    var sections := Sections(text);
    ConcatAllSpace(sections);
    if AllSpace(text) {
      KeptEmptyIfAllSpace(sections);
      assert PackAll([], maxChunkSize) == PackState([], []);
    } else {
      var k :| 0 <= k < |sections| && !AllSpace(sections[k]);
      KeptNonEmptyIfSomeText(sections, k);
      var secs := Kept(sections);
      GroupsPartition(secs, maxChunkSize);
      assert Groups(secs, maxChunkSize) != [];
    }
  }

  // ===========================================================================
  // Bag-of-tokens embedding (lines 138-161), before normalisation

  /** The reference embedding: slot `t` holds how often token id `t` occurs; ids at or past the vocabulary are ignored. */
  function CountVector(tokens: seq<nat>, vocabSize: nat): (v: seq<nat>)
    ensures |v| == vocabSize
    ensures forall t :: 0 <= t < vocabSize ==> v[t] == multiset(tokens)[t]
  {
    seq(vocabSize, t requires 0 <= t < vocabSize => multiset(tokens)[t])
  }

  function MaxId(tokens: seq<nat>): (m: nat)
    ensures forall k :: 0 <= k < |tokens| ==> tokens[k] <= m
  {
    if tokens == [] then 0
    else
      var m := MaxId(tokens[..|tokens| - 1]);
      if tokens[|tokens| - 1] > m then tokens[|tokens| - 1] else m
  }

  /** The ids below `n` that occur in `tokens`, ascending. */
  function DistinctBelow(tokens: seq<nat>, n: nat): (u: seq<nat>)
    ensures forall a :: 0 <= a < |u| ==> u[a] < n
    ensures forall a, b :: 0 <= a < b < |u| ==> u[a] < u[b]
    ensures forall x :: x in u <==> x in tokens && x < n
  {
    if n == 0 then []
    else
      var u := DistinctBelow(tokens, n - 1);
      if n - 1 in tokens then u + [n - 1] else u
  }

  /** The first result of `np.unique(tokens, return_counts=True)`: the distinct ids, ascending. */
  function Unique(tokens: seq<nat>): (u: seq<nat>)
    ensures forall a, b :: 0 <= a < b < |u| ==> u[a] < u[b]
    ensures forall x :: x in u <==> x in tokens
  {
    DistinctBelow(tokens, MaxId(tokens) + 1)
  }

  /** `_embed_text` up to line 154: the count vector written slot by slot. */
  method EmbedCounts(tokens: seq<nat>, vocabSize: nat) returns (embedding: seq<nat>)
    ensures embedding == CountVector(tokens, vocabSize)
  {
    var slots := new nat[vocabSize](_ => 0);
    var unique := Unique(tokens);
    for j := 0 to |unique|
      invariant forall t :: 0 <= t < vocabSize ==> slots[t] == if t in unique[..j] then multiset(tokens)[t] else 0
    {
      var token, count := unique[j], multiset(tokens)[unique[j]];
      if token < vocabSize {
        slots[token] := count;
      }
      assert unique[..j + 1] == unique[..j] + [token];
    }
    assert unique[..|unique|] == unique;
    embedding := slots[..];
  }

  /** Every token id in range is counted. */
  lemma {:induction false} CountVectorAllZeroIff(tokens: seq<nat>, vocabSize: nat)
    ensures (forall t :: 0 <= t < vocabSize ==> CountVector(tokens, vocabSize)[t] == 0)
        <==> (forall k :: 0 <= k < |tokens| ==> tokens[k] >= vocabSize)
  {
    var v := CountVector(tokens, vocabSize);
    forall k | 0 <= k < |tokens| && tokens[k] < vocabSize ensures v[tokens[k]] > 0 {
      assert tokens[k] in multiset(tokens);
    }
  }

  /** Ids at or past the vocabulary size are ignored. */
  lemma CountVectorIgnoresOutOfRange(tokens: seq<nat>, id: nat, vocabSize: nat)
    requires id >= vocabSize
    ensures CountVector(tokens + [id], vocabSize) == CountVector(tokens, vocabSize)
  {
  }

  function Sum(v: seq<nat>): nat {
    if v == [] then 0 else Sum(v[..|v| - 1]) + v[|v| - 1]
  }

  /** The number of ids in `tokens` that are below `vocabSize`. */
  function InRange(tokens: seq<nat>, vocabSize: nat): nat {
    if tokens == [] then 0
    else InRange(tokens[..|tokens| - 1], vocabSize) + (if tokens[|tokens| - 1] < vocabSize then 1 else 0)
  }

  lemma {:induction false} SumBump(v: seq<nat>, x: nat)
    requires x < |v|
    ensures Sum(v[x := v[x] + 1]) == Sum(v) + 1
  {
    var w := v[x := v[x] + 1];
    if x < |v| - 1 {
      assert w[..|w| - 1] == v[..|v| - 1][x := v[x] + 1];
      SumBump(v[..|v| - 1], x);
    } else {
      assert w[..|w| - 1] == v[..|v| - 1];
    }
  }

  /** The counts add up to the number of in-range ids: no occurrence is dropped or counted twice. */
  lemma {:induction false} CountVectorTotal(tokens: seq<nat>, vocabSize: nat)
    ensures Sum(CountVector(tokens, vocabSize)) == InRange(tokens, vocabSize)
  {
    if tokens == [] {
      SumZero(CountVector(tokens, vocabSize));
    } else {
      var init, x := tokens[..|tokens| - 1], tokens[|tokens| - 1];
      assert tokens == init + [x];
      CountVectorTotal(init, vocabSize);
      if x < vocabSize {
        var v := CountVector(init, vocabSize);
        assert CountVector(tokens, vocabSize) == v[x := v[x] + 1];
        SumBump(v, x);
      } else {
        CountVectorIgnoresOutOfRange(init, x, vocabSize);
      }
    }
  }

  lemma {:induction false} SumZero(v: seq<nat>)
    requires forall k :: 0 <= k < |v| ==> v[k] == 0
    ensures Sum(v) == 0
  {
    if v != [] {
      SumZero(v[..|v| - 1]);
    }
  }

  // ===========================================================================
  // Similarity and top-k ranking (lines 163-172)

  function Dot(a: seq<nat>, b: seq<nat>): nat
    requires |a| == |b|
  {
    if a == [] then 0 else Dot(a[..|a| - 1], b[..|b| - 1]) + a[|a| - 1] * b[|b| - 1]
  }

  /**
   * The square of the cosine of the angle between two count vectors, or 0
   * when either is all-zero (a zero vector is left unnormalised, so its dot
   * product is 0). Count vectors have no negative slots, so the cosine is
   * never negative and squaring it keeps the ranking order.
   */
  function Similarity(q: seq<nat>, c: seq<nat>): (r: real)
    requires |q| == |c|
    ensures r >= 0.0
  {
    var qq, cc, qc := Dot(q, q), Dot(c, c), Dot(q, c);
    if qq == 0 || cc == 0 then 0.0 else (qc * qc) as real / (qq * cc) as real
  }

  /** The dot product vanishes exactly when no token id occurs in both vectors. */
  lemma {:induction false} DotZeroIff(a: seq<nat>, b: seq<nat>)
    requires |a| == |b|
    ensures Dot(a, b) == 0 <==> forall t :: 0 <= t < |a| ==> a[t] == 0 || b[t] == 0
  {
    if a != [] {
      var n := |a| - 1;
      DotZeroIff(a[..n], b[..n]);
      assert forall t :: 0 <= t < n ==> a[..n][t] == a[t] && b[..n][t] == b[t];
    }
  }

  /** Texts with no token in common get similarity 0, however relevant they are to each other. */
  lemma DisjointTokensScoreZero(q: seq<nat>, c: seq<nat>)
    requires |q| == |c|
    requires forall t :: 0 <= t < |q| ==> q[t] == 0 || c[t] == 0
    ensures Similarity(q, c) == 0.0
  {
    DotZeroIff(q, c);
  }

  function Similarities(query: seq<nat>, embeddings: seq<seq<nat>>): (sims: seq<real>)
    requires forall i :: 0 <= i < |embeddings| ==> |embeddings[i]| == |query|
    ensures |sims| == |embeddings|
  {
    seq(|embeddings|, i requires 0 <= i < |embeddings| => Similarity(query, embeddings[i]))
  }

  predicate Distinct(s: seq<nat>) {
    forall a, b :: 0 <= a < b < |s| ==> s[a] != s[b]
  }

  /** How many indices `np.argsort(s)[-topK:]` keeps from `n`: all of them when `topK` is 0 or at least `n`. */
  function KeptCount(n: nat, topK: nat): nat {
    if topK == 0 || topK >= n then n else topK
  }

  /**
   * What every valid result of `np.argsort(sims)[-topK:][::-1]` has in
   * common: distinct in-range indices, scores non-increasing, and no index
   * left out scoring above one that was kept. The sort is not stable, so
   * the order among equal scores is not fixed.
   */
  ghost predicate IsTopK(sims: seq<real>, topK: nat, ranked: seq<nat>) {
    && |ranked| == KeptCount(|sims|, topK)
    && (forall a :: 0 <= a < |ranked| ==> ranked[a] < |sims|)
    && Distinct(ranked)
    && (forall a, b :: 0 <= a < b < |ranked| ==> sims[ranked[a]] >= sims[ranked[b]])
    && (forall j, a :: 0 <= j < |sims| && j !in ranked && 0 <= a < |ranked| ==> sims[j] <= sims[ranked[a]])
  }

  /** The position in `pool` of a largest score. */
  method ArgMaxIn(sims: seq<real>, pool: seq<nat>) returns (p: nat)
    requires pool != [] && forall q :: 0 <= q < |pool| ==> pool[q] < |sims|
    ensures p < |pool|
    ensures forall q :: 0 <= q < |pool| ==> sims[pool[q]] <= sims[pool[p]]
  {
    p := 0;
    for q := 1 to |pool|
      invariant p < |pool|
      invariant forall r :: 0 <= r < q ==> sims[pool[r]] <= sims[pool[p]]
    {
      if sims[pool[q]] > sims[pool[p]] {
        p := q;
      }
    }
  }

  /** Removing position `p` from a list without repeats removes exactly its element. */
  lemma RemoveAt(pool: seq<nat>, p: nat)
    requires p < |pool| && Distinct(pool)
    ensures Distinct(pool[..p] + pool[p + 1..])
    ensures forall x :: x in pool[..p] + pool[p + 1..] <==> x in pool && x != pool[p]
  {
    var r := pool[..p] + pool[p + 1..];
    assert forall i :: 0 <= i < |r| ==> r[i] == if i < p then pool[i] else pool[i + 1];
    forall x | x in pool && x != pool[p] ensures x in r {
      var i :| 0 <= i < |pool| && pool[i] == x;
      if i < p { assert r[i] == x; } else { assert r[i - 1] == x; }
    }
  }

  /** The top-k selection of line 172, one largest remaining score at a time. */
  method TopK(sims: seq<real>, topK: nat) returns (ranked: seq<nat>)
    ensures IsTopK(sims, topK, ranked)
  {
    var n := |sims|;
    var m := KeptCount(n, topK);
    var pool: seq<nat> := seq(n, j requires 0 <= j < n => j);
    forall j | 0 <= j < n ensures j in pool {
      assert pool[j] == j;
    }
    ranked := [];
    while |ranked| < m
      invariant |ranked| + |pool| == n && |ranked| <= m
      invariant forall q :: 0 <= q < |pool| ==> pool[q] < n
      invariant forall a :: 0 <= a < |ranked| ==> ranked[a] < n
      invariant forall j :: 0 <= j < n ==> (j in ranked <==> j !in pool)
      invariant Distinct(ranked) && Distinct(pool)
      invariant forall a, b :: 0 <= a < b < |ranked| ==> sims[ranked[a]] >= sims[ranked[b]]
      invariant forall q, a :: 0 <= q < |pool| && 0 <= a < |ranked| ==> sims[pool[q]] <= sims[ranked[a]]
    {
      var p := ArgMaxIn(sims, pool);
      var best := pool[p];
      ghost var before := pool;
      assert best !in ranked;
      RemoveAt(pool, p);
      ranked := ranked + [best];
      pool := pool[..p] + pool[p + 1..];
      assert forall q :: 0 <= q < |pool| ==> pool[q] in before;
    }
    forall j, a | 0 <= j < n && j !in ranked && 0 <= a < |ranked| ensures sims[j] <= sims[ranked[a]] {
      var q :| 0 <= q < |pool| && pool[q] == j;
    }
  }

  // ===========================================================================
  // The session (class EnhancedDocumentQA)

  /** The tokenizer capability: `encode`, `decode` and the vocabulary size. */
  datatype Tokenizer = Tokenizer(encode: string -> seq<nat>, decode: seq<nat> -> string, vocabSize: nat)

  datatype GenConfig = GenConfig(maxTokens: int, temperature: real, topP: real)

  /** The generation settings of lines 71-75. */
  const AnswerConfig := GenConfig(500, 0.2, 0.9)

  /** The number of chunks retrieved per question (line 55). */
  const TopChunks: nat := 3

  /** The chunk size budget used by `load_document` (line 96's default). */
  const MaxChunkSize: int := 1500

  /** The prompt of lines 61-68. */
  function AnswerPrompt(context: string, question: string): string {
    "Answer the question based ONLY on the following context:\n\nContext:\n" + context
    + "\n\nQuestion: " + question + "\n\nAnswer:"
  }

  /** Python's `xs[n:]`, empty when `n` is past the end. */
  function Drop(xs: seq<nat>, n: nat): seq<nat> {
    if n <= |xs| then xs[n..] else []
  }

  function Pick(chunks: seq<string>, ranked: seq<nat>): (r: seq<string>)
    requires forall a :: 0 <= a < |ranked| ==> ranked[a] < |chunks|
    ensures |r| == |ranked| && forall a :: 0 <= a < |ranked| ==> r[a] == chunks[ranked[a]]
  {
    seq(|ranked|, a requires 0 <= a < |ranked| => chunks[ranked[a]])
  }

  lemma KeptSnoc(sections: seq<string>, i: nat)
    requires i < |sections|
    ensures Kept(sections[..i + 1]) == Kept(sections[..i]) + (if Strip(sections[i]) == [] then [] else [Strip(sections[i])])
  {
    assert sections[..i + 1][..i] == sections[..i];
  }

  lemma PackAllSnoc(secs: seq<string>, s: string, maxChunkSize: int)
    ensures PackAll(secs + [s], maxChunkSize) == PackStep(PackAll(secs, maxChunkSize), s, maxChunkSize)
  {
    assert (secs + [s])[..|secs|] == secs;
  }

  lemma JoinEachSnoc(gs: seq<seq<string>>, g: seq<string>)
    ensures JoinEach(gs + [g]) == JoinEach(gs) + [Join(Sep, g)]
  {
  }

  /** `_split_into_semantic_chunks`: the greedy packing loop. */
  method SplitIntoSemanticChunks(text: string, maxChunkSize: int) returns (chunks: seq<string>)
    ensures chunks == SemanticChunks(text, maxChunkSize)
  {
    chunks := PackSections(Sections(text), maxChunkSize);
  }

  /** What one iteration of the packing loop does to the chunk list and the current chunk. */
  lemma PackLoopStep(closed: seq<seq<string>>, open: seq<string>, chunks: seq<string>, current: string,
                     section: string, maxChunkSize: int)
    requires chunks == JoinEach(closed) && current == Join(Sep, open)
    requires (forall k :: 0 <= k < |open| ==> open[k] != []) && (current == "" <==> open == [])
    requires section != ""
    ensures var next := PackStep(PackState(closed, open), section, maxChunkSize);
      && (forall k :: 0 <= k < |next.open| ==> next.open[k] != [])
      && (|current| + |section| > maxChunkSize ==>
            && JoinEach(next.closed) == (if current != "" then chunks + [current] else chunks)
            && Join(Sep, next.open) == section)
      && (|current| + |section| <= maxChunkSize ==>
            && JoinEach(next.closed) == chunks
            && Join(Sep, next.open) == (if current != "" then current + Sep + section else section))
      && (Join(Sep, next.open) == "" <==> next.open == [])
  {
    var next := PackStep(PackState(closed, open), section, maxChunkSize);
    if |current| + |section| > maxChunkSize {
      if current != "" {
        JoinEachSnoc(closed, open);
      }
    } else {
      assert forall k :: 0 <= k < |next.open| ==> next.open[k] == if k < |open| then open[k] else section;
      if current != "" {
        JoinSnoc(Sep, open, section);
      }
    }
    JoinNonEmpty(Sep, next.open);
  }

  /** The loop of lines 104-123 over the sections of the text. */
  method PackSections(sections: seq<string>, maxChunkSize: int) returns (chunks: seq<string>)
    ensures chunks == JoinEach(Groups(Kept(sections), maxChunkSize))
  {
    chunks := [];
    var current := "";
    ghost var kept: seq<string> := [];
    ghost var closed: seq<seq<string>> := [];
    ghost var open: seq<string> := [];
    assert sections[..0] == [];
    for i := 0 to |sections|
      invariant kept == Kept(sections[..i])
      invariant PackAll(kept, maxChunkSize) == PackState(closed, open)
      invariant chunks == JoinEach(closed)
      invariant current == Join(Sep, open)
      invariant forall k :: 0 <= k < |open| ==> open[k] != []
      invariant current == "" <==> open == []
    {
      KeptSnoc(sections, i);
      var section := Strip(sections[i]);
      if section != "" {
        PackAllSnoc(kept, section, maxChunkSize);
        PackLoopStep(closed, open, chunks, current, section, maxChunkSize);
        ghost var next := PackStep(PackState(closed, open), section, maxChunkSize);
        if |current| + |section| > maxChunkSize {
          if current != "" {
            chunks := chunks + [current];
          }
          current := section;
        } else {
          if current != "" {
            current := current + Sep + section;
          } else {
            current := section;
          }
        }
        closed, open := next.closed, next.open;
        kept := kept + [section];
      }
    }
    assert sections[..|sections|] == sections;
    if current != "" {
      JoinEachSnoc(closed, open);
      chunks := chunks + [current];
      closed := closed + [open];
    }
  }

  class EnhancedDocumentQA {
    const tokenizer: Tokenizer
    var documentChunks: seq<string>
    var chunkEmbeddings: seq<seq<nat>>

    /** The two parallel lists stay aligned: entry `i` is the embedding of chunk `i`. */
    ghost predicate Valid()
      reads this
    {
      && |chunkEmbeddings| == |documentChunks|
      && forall i :: 0 <= i < |documentChunks| ==>
           chunkEmbeddings[i] == CountVector(tokenizer.encode(documentChunks[i]), tokenizer.vocabSize)
    }

    constructor (tokenizer: Tokenizer)
      ensures this.tokenizer == tokenizer
      ensures documentChunks == [] && chunkEmbeddings == [] && Valid()
    {
      this.tokenizer := tokenizer;
      documentChunks := [];
      chunkEmbeddings := [];
    }

    /**
     * `load_document`, given what text extraction produced (`None` when it
     * failed). Extraction yielding nothing leaves the session as it was.
     */
    method LoadDocument(extracted: Option<string>) returns (loaded: bool)
      requires Valid()
      modifies this
      ensures Valid()
      ensures loaded <==> extracted.Some? && extracted.value != ""
      ensures loaded ==> documentChunks == SemanticChunks(extracted.value, MaxChunkSize)
      ensures !loaded ==> documentChunks == old(documentChunks) && chunkEmbeddings == old(chunkEmbeddings)
    {
      if extracted.None? || extracted.value == "" {
        return false;
      }
      documentChunks := SplitIntoSemanticChunks(extracted.value, MaxChunkSize);
      CreateEmbeddings();
      return true;
    }

    /** `_create_embeddings`: one embedding per chunk, in chunk order. */
    method CreateEmbeddings()
      modifies this`chunkEmbeddings
      ensures Valid()
    {
      chunkEmbeddings := [];
      for i := 0 to |documentChunks|
        invariant |chunkEmbeddings| == i
        invariant forall j :: 0 <= j < i ==>
          chunkEmbeddings[j] == CountVector(tokenizer.encode(documentChunks[j]), tokenizer.vocabSize)
      {
        var embedding := EmbedCounts(tokenizer.encode(documentChunks[i]), tokenizer.vocabSize);
        chunkEmbeddings := chunkEmbeddings + [embedding];
      }
    }

    /** `_find_relevant_chunks`: the similarity list built in a loop, then the top `topK`. */
    method FindRelevantChunks(queryEmbedding: seq<nat>, topK: nat) returns (ranked: seq<nat>, ghost sims: seq<real>)
      requires Valid() && |queryEmbedding| == tokenizer.vocabSize
      ensures sims == Similarities(queryEmbedding, chunkEmbeddings)
      ensures IsTopK(sims, topK, ranked)
    {
      var similarities: seq<real> := [];
      for i := 0 to |chunkEmbeddings|
        invariant |similarities| == i
        invariant forall j :: 0 <= j < i ==> similarities[j] == Similarity(queryEmbedding, chunkEmbeddings[j])
      {
        similarities := similarities + [Similarity(queryEmbedding, chunkEmbeddings[i])];
      }
      sims := similarities;
      ranked := TopK(similarities, topK);
    }

    /**
     * `answer_question`, with the generation capability as a parameter.
     * No chunks: `None`. Otherwise the prompt holds the three best-ranked
     * chunks joined by a blank line, and the answer is the stripped decoding
     * of what generation adds after the prompt.
     */
    method AnswerQuestion(question: string, generate: (seq<nat>, GenConfig) -> seq<nat>)
      returns (answer: Option<string>, ghost ranked: seq<nat>)
      requires Valid()
      ensures documentChunks == [] <==> answer.None?
      ensures answer.Some? ==>
        var query := CountVector(tokenizer.encode(question), tokenizer.vocabSize);
        && IsTopK(Similarities(query, chunkEmbeddings), TopChunks, ranked)
        && (forall a :: 0 <= a < |ranked| ==> ranked[a] < |documentChunks|)
        && var prompt := tokenizer.encode(AnswerPrompt(Join(Sep, Pick(documentChunks, ranked)), question));
           answer.value == Strip(tokenizer.decode(Drop(generate(prompt, AnswerConfig), |prompt|)))
    {
      if documentChunks == [] {
        return None, [];
      }
      var questionEmbedding := EmbedCounts(tokenizer.encode(question), tokenizer.vocabSize);
      var relevant, sims := FindRelevantChunks(questionEmbedding, TopChunks);
      ranked := relevant;
      var picked: seq<string> := [];
      for a := 0 to |relevant|
        invariant picked == Pick(documentChunks, relevant[..a])
      {
        picked := picked + [documentChunks[relevant[a]]];
      }
      assert relevant[..|relevant|] == relevant;
      var context := Join(Sep, picked);
      var tokens := tokenizer.encode(AnswerPrompt(context, question));
      var generated := generate(tokens, AnswerConfig);
      answer := Some(Strip(tokenizer.decode(Drop(generated, |tokens|))));
    }
  }
}
