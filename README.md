# Relation extraction over long documents: a Dafny model

This project models the orchestration and parsing layer of a relation
extraction service. A sequence-to-sequence model reads a document and emits
(head, type, tail) triplets in a linear encoding marked by `<triplet>`,
`<subj>` and `<obj>`. The model reads at most 256 tokens per call, so long
documents are split into overlapping windows. Each window yields 10 candidate
outputs. Every candidate is parsed back into triplets tagged with the text of
its window.

Three modules, one per component of `relation_extraction.py`:

- `parser.dfy`, module `Parser`: `extract_relations_from_model_output`. It is
  a state machine over the tokens of one candidate. `Step`, `Run` and `Parse`
  specify it as functions. `ExtractRelations` is the source's loop, proved
  equal to `Parse`. A buffer (`subject`, `object_`, `relation`) is the
  sequence of tokens appended to it. It is empty exactly when the source's
  string is `""`, and `Join` gives its stripped text.
- `planner.dfy`, module `Planner`: the span boundaries computed inside
  `run_relation_extraction`. `Boundaries` is the closed form. `PlanSpans` is
  the source's loop that decrements `start` by `overlap`. `SliceLength` models
  the Python slices of lines 80-87.
- `orchestrator.dfy`, module `Orchestrator`: the batch loop with its
  cancellation polls. `Extraction` and `Generated` specify the run from the
  list of batches (`Batches`), the number of polls answered "not cancelled"
  (`Polled`) and the relations of each batch (`BatchRelations`). `LoopFrom`
  follows the loop's own offsets, one pass at a time. `RunBatches` is the
  source's loop; its invariant ties it to `LoopFrom`, and
  `LoopComputesExtraction` connects the two descriptions.
  `RunRelationExtraction` composes the loop with the planner, using 256-token
  windows. The number of candidates per window is the source's constant 10
  (`NumReturnSequences`).

Collaborators outside the model are parameters:

- `generate(w, q)` is the `q`-th candidate for window `w`, as a token stream.
  The model returns them row-major per batch (`GenerateBatch`).
- `decode(w)` is the decoded text of window `w`.
- `isCancelled(j)` is the answer of the `j`-th poll of the cancellation token.
- The returned `generated` list records the batch passed to each call of
  the model, in order.

Facts about the code worth stating plainly, since a reader might expect
otherwise:

- For 300 tokens the code gives the windows `[0, 256)` and `[44, 300)`
  (`ExampleThreeHundred`). No start is ever negative (`StartsNeverNegative`).
- An empty document gets no window at all (`PlanShape`).
- Relations can have an empty head or tail after a mid-stream flush
  (`ExampleEmptyHeadAndTail`). Only the type is always non-empty.
- The planned windows do not always cover the last tokens (see Findings).

## Model

| member | source | states |
|---|---|---|
| `Parser.ExtractRelations` | relation_extraction_model/src/utils/relation_extraction.py:11-55 | the token loop with its mode and three buffers returns exactly `Parse(tokens)`: every flush of the state machine plus the end-of-stream check |
| `Parser.Join` | relation_extraction_model/src/utils/relation_extraction.py:23-25 | for split tokens, the stripped buffer is empty exactly when no token was appended to it |
| `Parser.RunAppend` | relation_extraction_model/src/utils/relation_extraction.py:17-50 | consuming `a + b` is consuming `a`, then `b` from the state reached |
| `Parser.IdleIgnoresTokens` | relation_extraction_model/src/utils/relation_extraction.py:44-50 | while the mode is still "x", ordinary tokens change no buffer and emit nothing |
| `Parser.LeadingTokensDiscarded` | relation_extraction_model/src/utils/relation_extraction.py:15-50 | tokens before the first marker do not affect the result |
| `Parser.NoMarkersNoRelations` | relation_extraction_model/src/utils/relation_extraction.py:15-55 | a stream with no marker yields `[]`; the parser has no failure case |
| `Parser.OutputBound` | relation_extraction_model/src/utils/relation_extraction.py:18-54 | at most one triplet per `<triplet>` or `<subj>` token, plus one at the end |
| `Parser.TypeNeverEmpty` | relation_extraction_model/src/utils/relation_extraction.py:20-39 | for whitespace-split tokens every emitted triplet has a non-empty type: flushes need a set relation |
| `Parser.FinalFlush` | relation_extraction_model/src/utils/relation_extraction.py:51-54 | the end-of-stream check adds at most one triplet, and adds it iff all three buffers are set; that triplet has non-empty head, type and tail |
| `Parser.SubjKeepsRelation` | relation_extraction_model/src/utils/relation_extraction.py:30-40 | `<subj>` flushes the pending triplet if a relation is set, clears only the object, and keeps subject and relation |
| `Parser.OnlyObjClearsRelationSilently` | relation_extraction_model/src/utils/relation_extraction.py:18-50 | with a relation set, a token clears it without flushing iff it is `<obj>` |
| `Parser.ExampleSingleTriplet` | relation_extraction_model/src/utils/relation_extraction.py:17-54 | `<triplet> A B <subj> C <obj> D` parses to exactly `[{head: "A B", type: "D", tail: "C"}]` |
| `Parser.ExampleEmptyHeadAndTail` | relation_extraction_model/src/utils/relation_extraction.py:18-29 | `<obj> X <triplet>` parses to `[{head: "", type: "X", tail: ""}]` |
| `Parser.ExampleRelationReused` | relation_extraction_model/src/utils/relation_extraction.py:30-43 | `<triplet> a <subj> b <obj> r <subj> c <subj>` parses to `[{a, r, b}, {a, r, c}]`: the relation kept by `<subj>` is reused |
| `Planner.CeilDiv` | relation_extraction_model/src/utils/relation_extraction.py:65-66 | the result is the ceiling of `a / b`: `a <= q * b < a + b` |
| `Planner.NumSpans` | relation_extraction_model/src/utils/relation_extraction.py:65 | the fewest windows of width `spanLength` that reach `n` tokens: they reach `n`, and one window fewer would not |
| `Planner.Overlap` | relation_extraction_model/src/utils/relation_extraction.py:66 | `overlap` is `ceil((k*L - n) / max(k - 1, 1))` for `k = ceil(n / L)` windows: the excess `k*L - n` is at most `overlap * max(k - 1, 1)` and more than `(overlap - 1) * max(k - 1, 1)` |
| `Planner.PlanSpans` | relation_extraction_model/src/utils/relation_extraction.py:64-77 | the loop that appends `[start + L*i, start + L*(i+1)]` and decrements `start` by `overlap` returns `Boundaries(n, L)` |
| `Planner.BoundariesAsProgression` | relation_extraction_model/src/utils/relation_extraction.py:73-77 | window `i` is `[i*(L - overlap), i*(L - overlap) + L)` |
| `Planner.PlanShape` | relation_extraction_model/src/utils/relation_extraction.py:64-77 | there are `ceil(n / L)` windows, each exactly `L` wide, the first `[0, L)`, and none for an empty document |
| `Planner.ShortDocument` | relation_extraction_model/src/utils/relation_extraction.py:64-77 | for `0 < n <= L` the plan is exactly `[[0, L)]`, with `overlap == L - n` |
| `Planner.OverlapBelowWidth` | relation_extraction_model/src/utils/relation_extraction.py:65-66 | for `n > L` there are at least two windows and `overlap <= num_spans*L - n < L` |
| `Planner.StartsIncrease` | relation_extraction_model/src/utils/relation_extraction.py:66-77 | for `n > L`, `0 <= overlap < L`; starts are non-negative and strictly increasing; each window starts no later than the previous one ends |
| `Planner.LastEndShortfall` | relation_extraction_model/src/utils/relation_extraction.py:66-77 | the last window ends `overlap*(num_spans-1) - (num_spans*L - n)` tokens before the document's end |
| `Planner.CeilExact` | relation_extraction_model/src/utils/relation_extraction.py:66 | `ceil(d / m) * m == d` iff `m` divides `d` |
| `Planner.EndsWithinDocument` | relation_extraction_model/src/utils/relation_extraction.py:66-87 | for `n > L` no window ends past the document; the last ends exactly at `n` iff `(num_spans*L - n)` is divisible by `num_spans - 1` |
| `Planner.StartsNeverNegative` | relation_extraction_model/src/utils/relation_extraction.py:73-77 | no window of the plan starts before token 0 |
| `Planner.CoveredUpToLastEnd` | relation_extraction_model/src/utils/relation_extraction.py:73-77 | consecutive windows leave no gap: every token before the last end (and before `n`) is in some window |
| `Planner.SliceBound` | relation_extraction_model/src/utils/relation_extraction.py:80-87 | a Python slice bound, negative ones counted from the end, is clamped into `[0, n]` |
| `Planner.SlicesStackable` | relation_extraction_model/src/utils/relation_extraction.py:80-90 | every slice `ids[start:end]` has length `min(n, L)`, so the slices stack into one tensor |
| `Planner.ExampleThreeHundred` | relation_extraction_model/src/utils/relation_extraction.py:64-77 | 300 tokens give `[0, 256)` and `[44, 300)` |
| `Planner.ExampleLastTokenMissed` | relation_extraction_model/src/utils/relation_extraction.py:64-77 | 601 tokens give `[0, 256)`, `[172, 428)`, `[344, 600)`, and token 600 is in no window |
| `Planner.CoveringBoundariesCover` | relation_extraction_model/src/utils/relation_extraction.py:64-77 | the corrected plan keeps the count and width, stays inside the document, and covers every token |
| `Orchestrator.BatchesPartition` | relation_extraction_model/src/utils/relation_extraction.py:106-108 | batches are non-empty, at most `batch_size` long, and laid end to end they are the windows in order |
| `Orchestrator.BatchCount` | relation_extraction_model/src/utils/relation_extraction.py:106 | there are `ceil(W / batch_size)` batches |
| `Orchestrator.BatchAt` | relation_extraction_model/src/utils/relation_extraction.py:106-111 | batch `j` exists iff `j*batch_size < W`, and it is `windows[j*batch_size : min((j+1)*batch_size, W)]` |
| `Orchestrator.BatchesFrom` | relation_extraction_model/src/utils/relation_extraction.py:105-111 | the batch starting at offset `b` is `windows[b : min(b + batch_size, W)]`, and the batches of the rest follow it |
| `Orchestrator.CandidateWindow` | relation_extraction_model/src/utils/relation_extraction.py:129-132 | candidate `k` of batch `j` belongs to window `j*batch_size + k // num_return_sequences` of the document |
| `Orchestrator.GenerateBatch` | relation_extraction_model/src/utils/relation_extraction.py:110-121 | the model returns `num_return_sequences` candidates per window of the batch |
| `Orchestrator.Annotate` | relation_extraction_model/src/utils/relation_extraction.py:137-140 | one tagged relation per parsed triplet |
| `Orchestrator.AttachMeta` | relation_extraction_model/src/utils/relation_extraction.py:137-140 | the loop that sets `meta.information` returns `Annotate(ts, information)`: the same triplets in order, each tagged with the window's text |
| `Orchestrator.ProcessBatch` | relation_extraction_model/src/utils/relation_extraction.py:129-142 | the loop over a batch's candidates returns `BatchRelations`: candidate `i` is parsed and tagged with window `i / num_return_sequences` |
| `Orchestrator.AttributionForward` | relation_extraction_model/src/utils/relation_extraction.py:129-141 | every relation of a batch is a triplet parsed from some candidate `k` and carries the text of window `k // num_return_sequences` of the batch |
| `Orchestrator.AttributionBackward` | relation_extraction_model/src/utils/relation_extraction.py:129-142 | every triplet of every candidate `k` appears among the batch's relations, tagged with the text of window `k // num_return_sequences` |
| `Orchestrator.Attribution` | relation_extraction_model/src/utils/relation_extraction.py:110-142 | with the model's row-major output: every relation of a batch was parsed from some candidate `q` of some window `w` of the batch and carries `decode(w)`; conversely every triplet of every candidate of every window of the batch appears, tagged with that window's text |
| `Orchestrator.Polled` | relation_extraction_model/src/utils/relation_extraction.py:106-107 | the number of polls answered "not cancelled" before the first "cancelled" |
| `Orchestrator.FirstCancelledPoll` | relation_extraction_model/src/utils/relation_extraction.py:106-107 | the polls stop at the first that answers "cancelled" |
| `Orchestrator.AccumulatedAppend` | relation_extraction_model/src/utils/relation_extraction.py:142 | one more batch appends its relations after those of the batches before it |
| `Orchestrator.LoopFromBatches` | relation_extraction_model/src/utils/relation_extraction.py:104-111 | stepping `batch_start` by `batch_size` from offset `b` visits exactly the batches of the windows from `b` on, with the same polls |
| `Orchestrator.LoopOverPolled` | relation_extraction_model/src/utils/relation_extraction.py:104-145 | over a list of batches, the polls run to the end iff none answers "cancelled", and the model gets the batches before the first poll that does |
| `Orchestrator.LoopComputesExtraction` | relation_extraction_model/src/utils/relation_extraction.py:104-151 | the loop, run from its start, finishes iff `Extraction` is not the timeout value, sends exactly `Generated`, and then returns the relations of every batch in order |
| `Orchestrator.RunBatches` | relation_extraction_model/src/utils/relation_extraction.py:104-151 | the batch loop returns `Extraction(...)` and calls the model on exactly the batches of `Generated(...)`, in order |
| `Orchestrator.RunRelationExtraction` | relation_extraction_model/src/utils/relation_extraction.py:58-151 | the whole run on 256-token windows with 10 candidates per window returns the specified outcome and model calls |
| `Orchestrator.CancelledBeforeFirstBatch` | relation_extraction_model/src/utils/relation_extraction.py:106-107 | a cancellation seen at the first poll gives the timeout value with no model call |
| `Orchestrator.CancelledAfterFirstBatch` | relation_extraction_model/src/utils/relation_extraction.py:106-145 | cancelled after batch 1: exactly one batch went to the model, and the result is still the timeout value, not a partial list |
| `Orchestrator.TimedOutIff` | relation_extraction_model/src/utils/relation_extraction.py:106-107 | the result is the timeout value iff one of the `ceil(W / batch_size)` polls answers "cancelled" |
| `Orchestrator.NeverCancelled` | relation_extraction_model/src/utils/relation_extraction.py:106-151 | with no cancellation the model is called `ceil(W / batch_size)` times, once per batch, and the result is all batches' relations in order |
| `Orchestrator.AccumulatedProvenance` | relation_extraction_model/src/utils/relation_extraction.py:129-142 | every relation accumulated over the first `n` batches was parsed from a candidate of one of the document's windows and carries that window's text |
| `Orchestrator.AccumulatedContains` | relation_extraction_model/src/utils/relation_extraction.py:142 | the relations of any one batch are among the accumulated relations |
| `Orchestrator.ExtractedProvenance` | relation_extraction_model/src/utils/relation_extraction.py:129-151 | every relation of a complete result was parsed from a candidate of a window and carries `decode` of that window |
| `Orchestrator.ExtractedCompleteness` | relation_extraction_model/src/utils/relation_extraction.py:106-151 | conversely, a complete result holds every triplet of every candidate of every window, tagged with that window's text |
| `Orchestrator.ExtractedTypesNonEmpty` | relation_extraction_model/src/utils/relation_extraction.py:20-39 | when candidates are whitespace-split token streams, every relation of a complete result has a non-empty type |

## Left out

- The parser's front end (lines 14-17) is not part of this model. The source
  strips the text, removes `<s>`, `<pad>` and `</s>` everywhere (even inside
  other tokens) and splits on whitespace. The model starts from the resulting
  token sequence.
- Tokenization, `batch_decode`, `decode`, `model.generate`, `torch.stack`, the
  GPU transfers and `torch.no_grad` are foreign calls. They enter as the
  parameters `generate` and `decode`.
- Errors raised by the model or the tokenizer are not modelled. The source
  propagates them unchanged.
- The model always returns `num_return_sequences` candidates per window, in
  row-major order. With another count the source misbehaves in two ways,
  neither modelled. A count above `|batch| * 10` raises `IndexError` at line
  131. A smaller count silently tags candidates with the wrong window: 5
  candidates per window for a batch of 2 give 10 candidates, all tagged
  with window 0.
- The internals and thread safety of `CancellationToken` are left out. Only
  the answers of its polls are modelled. Configuration loading (`settings`) and
  logging are left out too; `batch_size` is a positive parameter.
- `math.ceil` of a floating-point quotient is modelled as exact integer
  ceiling division. The two agree while sizes stay below 2^53.
- An empty document makes `torch.stack([])` raise at line 90.
  `RunRelationExtraction` requires at least one token. The planner itself
  is modelled for `n = 0`.
- Setting `meta` on each dictionary in place is modelled by building new
  values. The dictionaries are fresh per parse and never shared, so nothing
  observes the difference.

## Findings

| source | as written | input that shows it | evidently intended | confidence | as-written member | corrected member |
|---|---|---|---|---|---|---|
| relation_extraction_model/src/utils/relation_extraction.py:66-77 | `overlap` is rounded up, so the stride can be too short; the last window can end up to `num_spans - 2` tokens before the document's end | 601 tokens, windows of 256: `[0, 256)`, `[172, 428)`, `[344, 600)`; token 600 is in no window | every token lies in some full-width window | medium; not executed | `Planner.ExampleLastTokenMissed` | `Planner.CoveringBoundariesCover` |

The corrected plan `CoveringBoundaries` rounds the overlap down and caps every
start at `n - 256`. It is proved to keep the count and width, to stay inside
the document and to cover every token. `RunBatches` takes any list of windows,
so it runs unchanged on either plan. `RunRelationExtraction` keeps the
source's plan.
