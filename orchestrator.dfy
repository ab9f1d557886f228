/**
 * The batch orchestrator of `run_relation_extraction`: the windows are
 * grouped into consecutive batches; before each batch a cancellation flag is
 * polled; each batch is sent to the generation model, which returns a fixed
 * number of candidates per window in row-major order; every candidate is
 * parsed into triplets, which are tagged with the decoded text of the window
 * that produced them and appended to the result.
 *
 * The generation model, the tokenizer and the cancellation flag are outside
 * the model and enter as parameters:
 *   - `generate(w, q)` is the `q`-th candidate generated for window `w`, as
 *     the token stream the parser reads;
 *   - `decode(w)` is the decoded text of window `w`;
 *   - `isCancelled(j)` is the answer of the `j`-th poll of the flag.
 */
module Orchestrator {
  import opened Parser
  import opened Planner

  /** The number of candidates the source asks the model for, per window. */
  const NumReturnSequences: nat := 10

  type Candidate = seq<Token>

  /** A triplet with its provenance: `meta.information` is the window's text. */
  datatype Relation = Relation(head: string, relType: string, tail: string, information: string)

  /** The source returns either the relation list or a timeout error value. */
  datatype Outcome = Extracted(relations: seq<Relation>) | TimedOut

  // ---------------------------------------------------------------------
  // Batches
  // ---------------------------------------------------------------------

  /** `windows[b : min(b + batchSize, W)]` for b = 0, batchSize, 2 * batchSize, ... */
  function Batches(windows: seq<Span>, batchSize: nat): seq<seq<Span>>
    requires batchSize > 0
    decreases |windows|
  {
    if windows == [] then []
    else
      var end := Min(batchSize, |windows|);
      [windows[..end]] + Batches(windows[end..], batchSize)
  }

  function Concat(batches: seq<seq<Span>>): seq<Span>
    decreases |batches|
  {
    if batches == [] then [] else batches[0] + Concat(batches[1..])
  }

  /** The only multiple of `b` in `[a, a + b)` is `CeilDiv(a, b)` times `b`. */
  lemma CeilDivUnique(a: nat, b: nat, q: nat)
    requires b > 0 && a <= q * b < a + b
    ensures q == CeilDiv(a, b)
  {
    var c := CeilDiv(a, b);
    if q > c {
      assert (q - c) * b == q * b - c * b;
      SmallMultiple(q - c, b, q * b - c * b);
    } else if q < c {
      assert (c - q) * b == c * b - q * b;
      SmallMultiple(c - q, b, c * b - q * b);
    }
  }

  /** Laid end to end, the batches are the windows; each is non-empty and at most `batchSize` long. */
  lemma {:induction false} BatchesPartition(windows: seq<Span>, batchSize: nat)
    requires batchSize > 0
    ensures var bs := Batches(windows, batchSize);
      Concat(bs) == windows && forall j :: 0 <= j < |bs| ==> 0 < |bs[j]| <= batchSize
    decreases |windows|
  {
    var bs := Batches(windows, batchSize);
    if windows != [] {
      var end := Min(batchSize, |windows|);
      var rest := windows[end..];
      BatchesPartition(rest, batchSize);
      assert bs[1..] == Batches(rest, batchSize);
      assert windows == windows[..end] + rest;
    }
  }

  /** There are `ceil(W / batchSize)` batches. */
  lemma {:induction false} BatchCount(windows: seq<Span>, batchSize: nat)
    requires batchSize > 0
    ensures |Batches(windows, batchSize)| == CeilDiv(|windows|, batchSize)
    decreases |windows|
  {
    if windows == [] {
      CeilDivUnique(0, batchSize, 0);
    } else {
      var end := Min(batchSize, |windows|);
      var rest := windows[end..];
      BatchCount(rest, batchSize);
      var c := CeilDiv(|rest|, batchSize);
      assert |Batches(windows, batchSize)| == c + 1;
      assert (c + 1) * batchSize == c * batchSize + batchSize;
      CeilDivUnique(|windows|, batchSize, c + 1);
    }
  }

  /** Batch `j` is `windows[j * batchSize : min((j + 1) * batchSize, W)]`. */
  lemma {:induction false} BatchAt(windows: seq<Span>, batchSize: nat, j: nat)
    requires batchSize > 0
    ensures j < |Batches(windows, batchSize)| <==> j * batchSize < |windows|
    ensures j < |Batches(windows, batchSize)| ==>
      Batches(windows, batchSize)[j]
        == windows[j * batchSize .. Min((j + 1) * batchSize, |windows|)]
    decreases j
  {
    var bs := Batches(windows, batchSize);
    var lo := j * batchSize;
    StepProducts(j, batchSize);
    if j > 0 {
      StepProducts(j - 1, batchSize);
    }
    if windows != [] && j > 0 {
      var end := Min(batchSize, |windows|);
      var rest := windows[end..];
      var prev := (j - 1) * batchSize;
      BatchAt(rest, batchSize, j - 1);
      assert bs[1..] == Batches(rest, batchSize);
      if lo < |windows| {
        var hi := Min(lo + batchSize, |windows|);
        assert end == batchSize;
        assert Min(prev + batchSize, |rest|) == hi - batchSize;
        DropSlice(windows, batchSize, prev, hi - batchSize);
      }
    }
  }

  /** A slice of a suffix is a slice of the whole. */
  lemma DropSlice(s: seq<Span>, d: nat, a: nat, b: nat)
    requires d <= |s| && a <= b <= |s| - d
    ensures s[d..][a..b] == s[d + a..d + b]
  {
  }

  /** The products `BatchAt` steps through: consecutive multiples of `b` are `b` apart. */
  lemma StepProducts(j: nat, b: nat)
    ensures 0 <= j * b && (j + 1) * b == j * b + b
  {
  }

  /** Every window of every batch is one of the windows. */
  lemma {:induction false} ConcatMembers(batches: seq<seq<Span>>, j: nat, w: Span)
    requires j < |batches| && w in batches[j]
    ensures w in Concat(batches)
    decreases |batches|
  {
    if j > 0 {
      ConcatMembers(batches[1..], j - 1, w);
    }
  }

  /** A window of the concatenation lies in one of the batches. */
  lemma {:induction false} ConcatLocate(batches: seq<seq<Span>>, w: Span)
    requires w in Concat(batches)
    ensures exists j :: 0 <= j < |batches| && w in batches[j]
    decreases |batches|
  {
    if w !in batches[0] {
      ConcatLocate(batches[1..], w);
      var j :| 0 <= j < |batches[1..]| && w in batches[1..][j];
      assert w in batches[j + 1];
    }
  }

  /** Candidate `k` of batch `j` belongs to window `j * batchSize + k / 10` of the document. */
  lemma CandidateWindow(windows: seq<Span>, batchSize: nat, j: nat, k: nat)
    requires batchSize > 0 && j < |Batches(windows, batchSize)|
    requires k < |Batches(windows, batchSize)[j]| * NumReturnSequences
    ensures j * batchSize + k / NumReturnSequences < |windows|
    ensures Batches(windows, batchSize)[j][k / NumReturnSequences] == windows[j * batchSize + k / NumReturnSequences]
  {
    BatchAt(windows, batchSize, j);
  }

  // ---------------------------------------------------------------------
  // One batch
  // ---------------------------------------------------------------------

  /** What the model returns for a batch: 10 candidates per window, row-major. */
  function GenerateBatch(batch: seq<Span>, generate: (Span, nat) -> Candidate): (cands: seq<Candidate>)
    ensures |cands| == |batch| * NumReturnSequences
  {
    seq(|batch| * NumReturnSequences, k requires 0 <= k < |batch| * NumReturnSequences =>
      generate(batch[k / NumReturnSequences], k % NumReturnSequences))
  }

  /** The parsed triplets of one candidate, tagged with `information`. */
  function Annotate(ts: seq<Triplet>, information: string): (rs: seq<Relation>)
    ensures |rs| == |ts|
  {
    seq(|ts|, i requires 0 <= i < |ts| =>
      Relation(ts[i].head, ts[i].relType, ts[i].tail, information))
  }

  /**
   * The relations from the first `|cands|` candidates of a batch, in order;
   * candidate `k` belongs to window `k / 10` of the batch.
   */
  function BatchRelations(batch: seq<Span>, cands: seq<Candidate>, decode: Span -> string): seq<Relation>
    requires |cands| <= |batch| * NumReturnSequences
    decreases |cands|
  {
    if cands == [] then []
    else
      var k := |cands| - 1;
      BatchRelations(batch, cands[..k], decode) + Annotate(Parse(cands[k]), decode(batch[k / NumReturnSequences]))
  }

  /** The source's loop that attaches `meta.information` to each parsed relation. */
  method AttachMeta(ts: seq<Triplet>, information: string) returns (rs: seq<Relation>)
    ensures rs == Annotate(ts, information)
  {
    rs := [];
    for i := 0 to |ts|
      invariant rs == Annotate(ts[..i], information)
    {
      rs := rs + [Relation(ts[i].head, ts[i].relType, ts[i].tail, information)];
    }
    assert ts[..|ts|] == ts;
  }

  /**
   * One batch as the source processes it: the model is called on the batch,
   * then its loop over the candidates parses candidate `i` and tags it with the
   * text of window `i / 10` of the batch.
   */
  method ProcessBatch(batch: seq<Span>, generate: (Span, nat) -> Candidate, decode: Span -> string)
    returns (relations: seq<Relation>)
    ensures relations == BatchRelations(batch, GenerateBatch(batch, generate), decode)
  {
    var candidates := GenerateBatch(batch, generate);
    relations := [];
    for i := 0 to |candidates|
      invariant relations == BatchRelations(batch, candidates[..i], decode)
    {
      var spanText := decode(batch[i / NumReturnSequences]);
      var current := ExtractRelations(candidates[i]);
      var annotated := AttachMeta(current, spanText);
      relations := relations + annotated;
      assert candidates[..i + 1][..i] == candidates[..i];
    }
    assert candidates[..|candidates|] == candidates;
  }

  /** Relation `rel` is a triplet parsed from candidate `q` of window `w`, tagged with `w`'s text. */
  ghost predicate ProducedBy(rel: Relation, w: Span, q: nat, generate: (Span, nat) -> Candidate, decode: Span -> string) {
    rel.information == decode(w) &&
    Triplet(rel.head, rel.relType, rel.tail) in Parse(generate(w, q))
  }

  /** The relations of `Annotate` are exactly the triplets, each tagged with `information`. */
  lemma AnnotateMembers(ts: seq<Triplet>, information: string)
    ensures forall rel :: rel in Annotate(ts, information) ==>
      rel.information == information && Triplet(rel.head, rel.relType, rel.tail) in ts
    ensures forall t :: t in ts ==> Relation(t.head, t.relType, t.tail, information) in Annotate(ts, information)
  {
    var rs := Annotate(ts, information);
    forall rel | rel in rs
      ensures rel.information == information && Triplet(rel.head, rel.relType, rel.tail) in ts
    {
      var p :| 0 <= p < |rs| && rs[p] == rel;
      assert ts[p] == Triplet(rel.head, rel.relType, rel.tail);
    }
    forall t | t in ts
      ensures Relation(t.head, t.relType, t.tail, information) in rs
    {
      var p :| 0 <= p < |ts| && ts[p] == t;
      assert rs[p] == Relation(t.head, t.relType, t.tail, information);
    }
  }

  /** Relation `rel` is a triplet of candidate `k`, tagged with the text of window `k / 10` of the batch. */
  ghost predicate FromCandidate(rel: Relation, batch: seq<Span>, cands: seq<Candidate>, decode: Span -> string, k: int) {
    0 <= k < |cands| && k / NumReturnSequences < |batch| &&
    rel.information == decode(batch[k / NumReturnSequences]) && Triplet(rel.head, rel.relType, rel.tail) in Parse(cands[k])
  }

  /** Triplet `t` of candidate `k` is reported, tagged with the text of window `k / 10` of the batch. */
  ghost predicate Reported(t: Triplet, batch: seq<Span>, cands: seq<Candidate>, decode: Span -> string, k: int)
    requires |cands| <= |batch| * NumReturnSequences
  {
    0 <= k < |cands| &&
    Relation(t.head, t.relType, t.tail, decode(batch[k / NumReturnSequences])) in BatchRelations(batch, cands, decode)
  }

  /** Every relation of a batch is a triplet of some candidate `k`, tagged with window `k / 10`. */
  lemma {:induction false} AttributionForward(batch: seq<Span>, cands: seq<Candidate>, decode: Span -> string)
    requires |cands| <= |batch| * NumReturnSequences
    ensures forall rel :: rel in BatchRelations(batch, cands, decode) ==>
      exists k :: FromCandidate(rel, batch, cands, decode, k)
    decreases |cands|
  {
    if cands != [] {
      var n := |cands| - 1;
      var prefix := cands[..n];
      AttributionForward(batch, prefix, decode);
      AnnotateMembers(Parse(cands[n]), decode(batch[n / NumReturnSequences]));
      forall rel | rel in BatchRelations(batch, cands, decode)
        ensures exists k :: FromCandidate(rel, batch, cands, decode, k)
      {
        if rel in BatchRelations(batch, prefix, decode) {
          var k :| FromCandidate(rel, batch, prefix, decode, k);
          assert prefix[k] == cands[k];
          assert FromCandidate(rel, batch, cands, decode, k);
        } else {
          assert FromCandidate(rel, batch, cands, decode, n);
        }
      }
    }
  }

  /** Every triplet of every candidate `k` appears in the batch's relations, tagged with window `k / 10`. */
  lemma {:induction false} AttributionBackward(batch: seq<Span>, cands: seq<Candidate>, decode: Span -> string)
    requires |cands| <= |batch| * NumReturnSequences
    ensures forall k, t :: 0 <= k < |cands| && t in Parse(cands[k]) ==> Reported(t, batch, cands, decode, k)
    decreases |cands|
  {
    if cands != [] {
      var n := |cands| - 1;
      var prefix := cands[..n];
      AttributionBackward(batch, prefix, decode);
      AnnotateMembers(Parse(cands[n]), decode(batch[n / NumReturnSequences]));
      forall k, t | 0 <= k < |cands| && t in Parse(cands[k])
        ensures Reported(t, batch, cands, decode, k)
      {
        if k < n {
          assert prefix[k] == cands[k];
          assert Reported(t, batch, prefix, decode, k);
        }
      }
    }
  }

  /**
   * Attribution within a batch, both ways: every relation comes from some
   * candidate `q` of some window of the batch and carries that window's text,
   * and every triplet of every candidate appears, tagged with its window's text.
   */
  lemma Attribution(batch: seq<Span>, generate: (Span, nat) -> Candidate, decode: Span -> string)
    ensures forall rel :: rel in BatchRelations(batch, GenerateBatch(batch, generate), decode) ==>
      exists w, q :: w in batch && 0 <= q < NumReturnSequences && ProducedBy(rel, w, q, generate, decode)
    ensures forall i, q, t :: 0 <= i < |batch| && 0 <= q < NumReturnSequences && t in Parse(generate(batch[i], q)) ==>
      Relation(t.head, t.relType, t.tail, decode(batch[i])) in BatchRelations(batch, GenerateBatch(batch, generate), decode)
  {
    var cands := GenerateBatch(batch, generate);
    var rels := BatchRelations(batch, cands, decode);
    AttributionForward(batch, cands, decode);
    AttributionBackward(batch, cands, decode);
    forall rel | rel in rels
      ensures exists w, q :: w in batch && 0 <= q < NumReturnSequences && ProducedBy(rel, w, q, generate, decode)
    {
      var k :| FromCandidate(rel, batch, cands, decode, k);
      var i, q := k / NumReturnSequences, k % NumReturnSequences;
      assert k == i * NumReturnSequences + q;
      assert ProducedBy(rel, batch[i], q, generate, decode);
    }
    forall i, q, t | 0 <= i < |batch| && 0 <= q < NumReturnSequences && t in Parse(generate(batch[i], q))
      ensures Relation(t.head, t.relType, t.tail, decode(batch[i])) in rels
    {
      var k := i * NumReturnSequences + q;
      assert k / NumReturnSequences == i && k % NumReturnSequences == q;
      assert cands[k] == generate(batch[i], q);
      assert Reported(t, batch, cands, decode, k);
    }
  }

  // ---------------------------------------------------------------------
  // The whole run
  // ---------------------------------------------------------------------

  /**
   * How many polls answer "not cancelled" before the first that answers
   * "cancelled", out of `count` polls; `count` when none does.
   */
  function Polled(isCancelled: nat -> bool, count: nat): (p: nat)
    ensures p <= count
    ensures forall j :: 0 <= j < p ==> !isCancelled(j)
    ensures p < count ==> isCancelled(p)
  {
    if count == 0 then 0
    else
      var p := Polled(isCancelled, count - 1);
      if p < count - 1 || isCancelled(count - 1) then p else count
  }

  /** The relations of a list of batches, batch after batch. */
  function Accumulated(batches: seq<seq<Span>>, generate: (Span, nat) -> Candidate, decode: Span -> string): seq<Relation>
    decreases |batches|
  {
    if batches == [] then []
    else
      var last := batches[|batches| - 1];
      Accumulated(batches[..|batches| - 1], generate, decode)
        + BatchRelations(last, GenerateBatch(last, generate), decode)
  }

  /** The first poll that says cancelled, or `count` if there is none among the first `count`. */
  lemma FirstCancelledPoll(isCancelled: nat -> bool, count: nat, j: nat)
    requires j <= count && forall p :: 0 <= p < j ==> !isCancelled(p)
    requires j < count ==> isCancelled(j)
    ensures Polled(isCancelled, count) == j
  {
  }

  /** One more batch appends that batch's relations. */
  lemma AccumulatedAppend(batches: seq<seq<Span>>, batch: seq<Span>,
                          generate: (Span, nat) -> Candidate, decode: Span -> string)
    ensures Accumulated(batches + [batch], generate, decode)
         == Accumulated(batches, generate, decode) + BatchRelations(batch, GenerateBatch(batch, generate), decode)
  {
    assert (batches + [batch])[..|batches|] == batches;
  }

  /** The result of the run: the timeout value if a poll says cancelled, else every batch's relations. */
  function Extraction(windows: seq<Span>, batchSize: nat, generate: (Span, nat) -> Candidate,
                      decode: Span -> string, isCancelled: nat -> bool): Outcome
    requires batchSize > 0
  {
    var bs := Batches(windows, batchSize);
    if Polled(isCancelled, |bs|) < |bs| then TimedOut
    else Extracted(Accumulated(bs, generate, decode))
  }

  /** The batches passed to the model: those before the first cancelled poll. */
  function Generated(windows: seq<Span>, batchSize: nat, isCancelled: nat -> bool): seq<seq<Span>>
    requires batchSize > 0
  {
    var bs := Batches(windows, batchSize);
    bs[..Polled(isCancelled, |bs|)]
  }

  /** The batches from offset `start` on: the one starting there, then the rest. */
  lemma BatchesFrom(windows: seq<Span>, batchSize: nat, start: nat)
    requires batchSize > 0 && start < |windows|
    ensures var end := Min(start + batchSize, |windows|);
      Batches(windows[start..], batchSize) == [windows[start..end]] + Batches(windows[end..], batchSize)
  {
    var rest := windows[start..];
    var n := Min(batchSize, |rest|);
    assert rest[..n] == windows[start..start + n];
    assert rest[n..] == windows[start + n..];
  }

  /**
   * The polls and model calls of the batch loop, one pass at a time, from
   * offset `start` with the `poll`-th poll next and the batches in `sent`
   * already passed to the model: whether the loop runs to its end, and every
   * batch passed to the model.
   */
  function LoopFrom(windows: seq<Span>, batchSize: nat, start: nat, poll: nat, sent: seq<seq<Span>>,
                    isCancelled: nat -> bool): (bool, seq<seq<Span>>)
    requires batchSize > 0
    decreases |windows| - start
  {
    if start >= |windows| then (true, sent)
    else if isCancelled(poll) then (false, sent)
    else LoopFrom(windows, batchSize, start + batchSize, poll + 1,
                  sent + [windows[start..Min(start + batchSize, |windows|)]], isCancelled)
  }

  /** The same passes, over the list of batches still to go. */
  function LoopOver(batches: seq<seq<Span>>, poll: nat, sent: seq<seq<Span>>, isCancelled: nat -> bool): (bool, seq<seq<Span>>)
    decreases |batches|
  {
    if batches == [] then (true, sent)
    else if isCancelled(poll) then (false, sent)
    else LoopOver(batches[1..], poll + 1, sent + [batches[0]], isCancelled)
  }

  /** Stepping by `batchSize` from offset `start` visits the batches of the windows from `start` on. */
  lemma {:induction false} LoopFromBatches(windows: seq<Span>, batchSize: nat, start: nat, poll: nat,
                                           sent: seq<seq<Span>>, isCancelled: nat -> bool)
    requires batchSize > 0
    ensures LoopFrom(windows, batchSize, start, poll, sent, isCancelled)
         == LoopOver(Batches(windows[Min(start, |windows|)..], batchSize), poll, sent, isCancelled)
    decreases |windows| - start
  {
    if start >= |windows| {
      assert windows[Min(start, |windows|)..] == [];
    } else {
      var end := Min(start + batchSize, |windows|);
      var batch := windows[start..end];
      var bs := Batches(windows[start..], batchSize);
      BatchesFrom(windows, batchSize, start);
      assert bs[0] == batch && bs[1..] == Batches(windows[end..], batchSize);
      LoopFromBatches(windows, batchSize, start + batchSize, poll + 1, sent + [batch], isCancelled);
    }
  }

  /**
   * After `j` uncancelled passes over `bs`, the remaining passes run to the
   * end exactly when no poll says cancelled, and pass the model the batches
   * before the first poll that does.
   */
  lemma {:induction false} LoopOverPolled(bs: seq<seq<Span>>, j: nat, isCancelled: nat -> bool)
    requires j <= |bs| && forall p :: 0 <= p < j ==> !isCancelled(p)
    ensures var p := Polled(isCancelled, |bs|);
      LoopOver(bs[j..], j, bs[..j], isCancelled) == (p == |bs|, bs[..p])
    decreases |bs| - j
  {
    if j == |bs| {
      FirstCancelledPoll(isCancelled, |bs|, j);
      assert bs[j..] == [];
    } else if isCancelled(j) {
      FirstCancelledPoll(isCancelled, |bs|, j);
    } else {
      assert bs[j..][1..] == bs[j + 1..];
      assert bs[..j] + [bs[j]] == bs[..j + 1];
      LoopOverPolled(bs, j + 1, isCancelled);
    }
  }

  /** The loop, run from its start, finishes exactly when `Extraction` is not the timeout value, having sent `Generated`. */
  lemma LoopComputesExtraction(windows: seq<Span>, batchSize: nat, generate: (Span, nat) -> Candidate,
                               decode: Span -> string, isCancelled: nat -> bool)
    requires batchSize > 0
    ensures var (finished, sent) := LoopFrom(windows, batchSize, 0, 0, [], isCancelled);
      sent == Generated(windows, batchSize, isCancelled) &&
      (finished <==> Extraction(windows, batchSize, generate, decode, isCancelled).Extracted?) &&
      (finished ==> Extraction(windows, batchSize, generate, decode, isCancelled) == Extracted(Accumulated(sent, generate, decode)))
  {
    var bs := Batches(windows, batchSize);
    LoopFromBatches(windows, batchSize, 0, 0, [], isCancelled);
    assert windows[Min(0, |windows|)..] == windows;
    LoopOverPolled(bs, 0, isCancelled);
    assert bs[0..] == bs && bs[..0] == [] && bs[..|bs|] == bs;
  }

  /**
   * The batch loop as the source writes it. `generated` records the batch of
   * each call to the model, in order.
   */
  method RunBatches(windows: seq<Span>, batchSize: nat,
                    generate: (Span, nat) -> Candidate, decode: Span -> string, isCancelled: nat -> bool)
    returns (outcome: Outcome, generated: seq<seq<Span>>)
    requires batchSize > 0
    ensures outcome == Extraction(windows, batchSize, generate, decode, isCancelled)
    ensures generated == Generated(windows, batchSize, isCancelled)
  {
    LoopComputesExtraction(windows, batchSize, generate, decode, isCancelled);
    var relations: seq<Relation> := [];
    generated := [];
    var batchStart := 0;
    var polls := 0;
    while batchStart < |windows|
      invariant LoopFrom(windows, batchSize, batchStart, polls, generated, isCancelled)
             == LoopFrom(windows, batchSize, 0, 0, [], isCancelled)
      invariant relations == Accumulated(generated, generate, decode)
      decreases |windows| - batchStart
    {
      if isCancelled(polls) {
        return TimedOut, generated;
      }
      var batchEnd := Min(batchStart + batchSize, |windows|);
      var batch := windows[batchStart..batchEnd];
      var batchRelations := ProcessBatch(batch, generate, decode);
      AccumulatedAppend(generated, batch, generate, decode);
      relations := relations + batchRelations;
      generated := generated + [batch];
      polls := polls + 1;
      batchStart := batchStart + batchSize;
    }
    outcome := Extracted(relations);
  }

  /**
   * `run_relation_extraction` for a document of `numTokens` tokens: plan
   * windows of 256 tokens, then run the batch loop.
   */
  method RunRelationExtraction(numTokens: nat, batchSize: nat, generate: (Span, nat) -> Candidate,
                               decode: Span -> string, isCancelled: nat -> bool)
    returns (outcome: Outcome, generated: seq<seq<Span>>)
    requires numTokens > 0 && batchSize > 0
    ensures outcome == Extraction(Boundaries(numTokens, SpanLength), batchSize, generate, decode, isCancelled)
    ensures generated == Generated(Boundaries(numTokens, SpanLength), batchSize, isCancelled)
  {
    var spans := PlanSpans(numTokens, SpanLength);
    outcome, generated := RunBatches(spans, batchSize, generate, decode, isCancelled);
  }

  // ---------------------------------------------------------------------
  // Cancellation and provenance
  // ---------------------------------------------------------------------

  /** A poll that says cancelled before the first batch: no model call, timeout value. */
  lemma CancelledBeforeFirstBatch(windows: seq<Span>, batchSize: nat, generate: (Span, nat) -> Candidate,
                                  decode: Span -> string, isCancelled: nat -> bool)
    requires batchSize > 0 && windows != [] && isCancelled(0)
    ensures Extraction(windows, batchSize, generate, decode, isCancelled) == TimedOut
    ensures Generated(windows, batchSize, isCancelled) == []
  {
  }

  /**
   * Cancelled after the first batch: exactly one batch went to the model, and
   * the result is still the timeout value, not the relations found so far.
   */
  lemma CancelledAfterFirstBatch(windows: seq<Span>, batchSize: nat, generate: (Span, nat) -> Candidate,
                                 decode: Span -> string, isCancelled: nat -> bool)
    requires batchSize > 0 && |windows| > batchSize && !isCancelled(0) && isCancelled(1)
    ensures Extraction(windows, batchSize, generate, decode, isCancelled) == TimedOut
    ensures Generated(windows, batchSize, isCancelled) == [windows[..batchSize]]
  {
    var rest := windows[batchSize..];
    assert Batches(windows, batchSize) == [windows[..batchSize]] + Batches(rest, batchSize);
    assert |Batches(rest, batchSize)| > 0;
  }

  /** The result is the timeout value exactly when some poll before a batch says cancelled. */
  lemma TimedOutIff(windows: seq<Span>, batchSize: nat, generate: (Span, nat) -> Candidate,
                    decode: Span -> string, isCancelled: nat -> bool)
    requires batchSize > 0
    ensures Extraction(windows, batchSize, generate, decode, isCancelled) == TimedOut <==>
      exists j :: 0 <= j < CeilDiv(|windows|, batchSize) && isCancelled(j)
  {
    BatchCount(windows, batchSize);
  }

  /**
   * Never cancelled: the model is called once per batch, `ceil(W / batchSize)`
   * times, and the result is every batch's relations in order.
   */
  lemma NeverCancelled(windows: seq<Span>, batchSize: nat, generate: (Span, nat) -> Candidate,
                       decode: Span -> string, isCancelled: nat -> bool)
    requires batchSize > 0
    requires forall j :: 0 <= j < CeilDiv(|windows|, batchSize) ==> !isCancelled(j)
    ensures Generated(windows, batchSize, isCancelled) == Batches(windows, batchSize)
    ensures |Generated(windows, batchSize, isCancelled)| == CeilDiv(|windows|, batchSize)
    ensures Extraction(windows, batchSize, generate, decode, isCancelled)
         == Extracted(Accumulated(Batches(windows, batchSize), generate, decode))
  {
    BatchCount(windows, batchSize);
  }

  /** Relation `rel` was parsed from some candidate of one of `windows`, and carries that window's text. */
  ghost predicate FromWindows(rel: Relation, windows: seq<Span>, generate: (Span, nat) -> Candidate, decode: Span -> string) {
    exists w, q :: w in windows && 0 <= q < NumReturnSequences && ProducedBy(rel, w, q, generate, decode)
  }

  /** Every relation of the first `n` batches comes from a candidate of one of the windows. */
  lemma {:induction false} AccumulatedProvenance(windows: seq<Span>, batchSize: nat, n: nat,
                                                 generate: (Span, nat) -> Candidate, decode: Span -> string)
    requires batchSize > 0 && n <= |Batches(windows, batchSize)|
    ensures forall rel :: rel in Accumulated(Batches(windows, batchSize)[..n], generate, decode) ==>
      FromWindows(rel, windows, generate, decode)
    decreases n
  {
    var bs := Batches(windows, batchSize);
    if n > 0 {
      var batch := bs[n - 1];
      AccumulatedProvenance(windows, batchSize, n - 1, generate, decode);
      Attribution(batch, generate, decode);
      BatchesPartition(windows, batchSize);
      assert bs[..n] == bs[..n - 1] + [batch];
      AccumulatedAppend(bs[..n - 1], batch, generate, decode);
      forall rel | rel in BatchRelations(batch, GenerateBatch(batch, generate), decode)
        ensures FromWindows(rel, windows, generate, decode)
      {
        var w, q :| w in batch && 0 <= q < NumReturnSequences && ProducedBy(rel, w, q, generate, decode);
        ConcatMembers(bs, n - 1, w);
      }
    }
  }

  /**
   * Every relation of a complete result was parsed from a candidate of one
   * of the windows and carries that window's decoded text.
   */
  lemma ExtractedProvenance(windows: seq<Span>, batchSize: nat, generate: (Span, nat) -> Candidate,
                            decode: Span -> string, isCancelled: nat -> bool)
    requires batchSize > 0
    requires Extraction(windows, batchSize, generate, decode, isCancelled).Extracted?
    ensures forall rel :: rel in Extraction(windows, batchSize, generate, decode, isCancelled).relations ==>
      exists w, q :: w in windows && 0 <= q < NumReturnSequences && ProducedBy(rel, w, q, generate, decode)
  {
    var bs := Batches(windows, batchSize);
    assert bs[..|bs|] == bs;
    AccumulatedProvenance(windows, batchSize, |bs|, generate, decode);
  }

  /** The relations of any one batch are among the accumulated relations. */
  lemma {:induction false} AccumulatedContains(batches: seq<seq<Span>>, j: nat, rel: Relation,
                                               generate: (Span, nat) -> Candidate, decode: Span -> string)
    requires j < |batches|
    requires rel in BatchRelations(batches[j], GenerateBatch(batches[j], generate), decode)
    ensures rel in Accumulated(batches, generate, decode)
    decreases |batches|
  {
    var n := |batches| - 1;
    var last := batches[n];
    assert Accumulated(batches, generate, decode)
        == Accumulated(batches[..n], generate, decode) + BatchRelations(last, GenerateBatch(last, generate), decode);
    if j < n {
      assert batches[..n][j] == batches[j];
      AccumulatedContains(batches[..n], j, rel, generate, decode);
    }
  }

  /**
   * Conversely, a complete result holds every triplet of every candidate of
   * every window, tagged with that window's decoded text.
   */
  lemma ExtractedCompleteness(windows: seq<Span>, batchSize: nat, generate: (Span, nat) -> Candidate,
                              decode: Span -> string, isCancelled: nat -> bool)
    requires batchSize > 0
    requires Extraction(windows, batchSize, generate, decode, isCancelled).Extracted?
    ensures forall w, q, t :: w in windows && 0 <= q < NumReturnSequences && t in Parse(generate(w, q)) ==>
      Relation(t.head, t.relType, t.tail, decode(w)) in Extraction(windows, batchSize, generate, decode, isCancelled).relations
  {
    var bs := Batches(windows, batchSize);
    BatchesPartition(windows, batchSize);
    forall w, q, t | w in windows && 0 <= q < NumReturnSequences && t in Parse(generate(w, q))
      ensures Relation(t.head, t.relType, t.tail, decode(w)) in Extraction(windows, batchSize, generate, decode, isCancelled).relations
    {
      ConcatLocate(bs, w);
      var j :| 0 <= j < |bs| && w in bs[j];
      var i :| 0 <= i < |bs[j]| && bs[j][i] == w;
      Attribution(bs[j], generate, decode);
      AccumulatedContains(bs, j, Relation(t.head, t.relType, t.tail, decode(w)), generate, decode);
    }
  }

  /**
   * When every candidate is a well-formed token stream, every relation of a
   * complete result has a non-empty type; head and tail may still be empty.
   */
  lemma ExtractedTypesNonEmpty(windows: seq<Span>, batchSize: nat, generate: (Span, nat) -> Candidate,
                               decode: Span -> string, isCancelled: nat -> bool)
    requires batchSize > 0
    requires forall w, q :: WellFormed(generate(w, q))
    requires Extraction(windows, batchSize, generate, decode, isCancelled).Extracted?
    ensures forall rel :: rel in Extraction(windows, batchSize, generate, decode, isCancelled).relations ==>
      rel.relType != ""
  {
    ExtractedProvenance(windows, batchSize, generate, decode, isCancelled);
    forall rel | rel in Extraction(windows, batchSize, generate, decode, isCancelled).relations
      ensures rel.relType != ""
    {
      var w, q :| w in windows && 0 <= q < NumReturnSequences && ProducedBy(rel, w, q, generate, decode);
      var tokens := generate(w, q);
      TypeNeverEmpty(tokens);
      var p :| 0 <= p < |Parse(tokens)| && Parse(tokens)[p] == Triplet(rel.head, rel.relType, rel.tail);
    }
  }
}
