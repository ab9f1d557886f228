/**
 * The triplet parser: a lenient state machine that turns one decoded model
 * output (a stream of whitespace-separated tokens) into (head, type, tail)
 * triplets. The control markers `<triplet>`, `<subj>` and `<obj>` switch the
 * buffer being filled and flush pending triplets.
 *
 * A buffer of the source is a string grown by `" " + token`; here it is the
 * sequence of tokens appended to it. The source only ever asks whether a
 * buffer is empty (which holds exactly when no token was appended, since
 * `" " + token` is never empty) and strips it before emitting it, which for
 * tokens produced by a whitespace split is the tokens joined by single spaces.
 */
module Parser {

  type Token = string

  const TripletMarker: Token := "<triplet>"
  const SubjMarker: Token := "<subj>"
  const ObjMarker: Token := "<obj>"

  predicate IsMarker(t: Token) {
    t == TripletMarker || t == SubjMarker || t == ObjMarker
  }

  /**
   * Tokens as a whitespace split produces them are non-empty and contain no
   * whitespace. Only non-emptiness is stated here, as it is all the lemmas
   * need; on tokens that are also whitespace-free, `Join` is the source's
   * `strip()` of the buffer `" " + t1 + " " + t2 ...`.
   */
  predicate WellFormed(tokens: seq<Token>) {
    forall i :: 0 <= i < |tokens| ==> tokens[i] != ""
  }

  /** The buffer that ordinary tokens go to: the source's "x", "t", "s" and "o". */
  datatype Mode = Idle | CollectSubject | CollectObject | CollectRelation

  /** One emitted relation fragment: the dictionary {head, type, tail}. */
  datatype Triplet = Triplet(head: string, relType: string, tail: string)

  /** Everything the parser's loop updates. */
  datatype State = State(
    mode: Mode,
    subject: seq<Token>,
    obj: seq<Token>,
    relation: seq<Token>,
    out: seq<Triplet>)

  const Init: State := State(Idle, [], [], [], [])

  /** The stripped text of a buffer: its tokens separated by single spaces. */
  function Join(ts: seq<Token>): (s: string)
    ensures s == "" <==> ts == [] || (|ts| == 1 && ts[0] == "")
  {
    if ts == [] then ""
    else if |ts| == 1 then ts[0]
    else ts[0] + " " + Join(ts[1..])
  }

  /** The triplet flushed from a state's buffers. */
  function Pending(st: State): Triplet {
    Triplet(Join(st.subject), Join(st.relation), Join(st.obj))
  }

  /** The output after a flush that happens only when the relation buffer is set. */
  function FlushIfRelation(st: State): seq<Triplet> {
    if st.relation != [] then st.out + [Pending(st)] else st.out
  }

  /** One iteration of the token loop. */
  function Step(st: State, t: Token): State {
    if t == TripletMarker then
      State(CollectSubject, [], st.obj, [], FlushIfRelation(st))
    else if t == SubjMarker then
      State(CollectObject, st.subject, [], st.relation, FlushIfRelation(st))
    else if t == ObjMarker then
      st.(mode := CollectRelation, relation := [])
    else
      match st.mode
      case Idle => st
      case CollectSubject => st.(subject := st.subject + [t])
      case CollectObject => st.(obj := st.obj + [t])
      case CollectRelation => st.(relation := st.relation + [t])
  }

  /** The state after the whole loop has consumed `ts`, starting from `st`. */
  function Run(st: State, ts: seq<Token>): State
    decreases |ts|
  {
    if ts == [] then st else Run(Step(st, ts[0]), ts[1..])
  }

  /** The final check after the loop: flush only when all three buffers are set. */
  function Finish(st: State): seq<Triplet> {
    if st.subject != [] && st.relation != [] && st.obj != []
    then st.out + [Pending(st)]
    else st.out
  }

  /** The relations the source returns for a token stream. */
  function Parse(tokens: seq<Token>): seq<Triplet> {
    Finish(Run(Init, tokens))
  }

  /**
   * The parser loop as the source writes it: mode and buffers are updated
   * token by token and flushed triplets are appended to `relations`.
   */
  method ExtractRelations(tokens: seq<Token>) returns (relations: seq<Triplet>)
    ensures relations == Parse(tokens)
  {
    relations := [];
    var subject, obj, relation: seq<Token> := [], [], [];
    var current := Idle;
    var i := 0;
    while i < |tokens|
      invariant 0 <= i <= |tokens|
      invariant Run(State(current, subject, obj, relation, relations), tokens[i..]) == Run(Init, tokens)
    {
      var token := tokens[i];
      ghost var before := State(current, subject, obj, relation, relations);
      if token == TripletMarker {
        current := CollectSubject;
        if relation != [] {
          relations := relations + [Triplet(Join(subject), Join(relation), Join(obj))];
          relation := [];
        }
        subject := [];
      } else if token == SubjMarker {
        current := CollectObject;
        if relation != [] {
          relations := relations + [Triplet(Join(subject), Join(relation), Join(obj))];
        }
        obj := [];
      } else if token == ObjMarker {
        current := CollectRelation;
        relation := [];
      } else {
        if current == CollectSubject {
          subject := subject + [token];
        } else if current == CollectObject {
          obj := obj + [token];
        } else if current == CollectRelation {
          relation := relation + [token];
        }
      }
      assert State(current, subject, obj, relation, relations) == Step(before, token);
      assert tokens[i..][1..] == tokens[i + 1..];
      i := i + 1;
    }
    if subject != [] && relation != [] && obj != [] {
      relations := relations + [Triplet(Join(subject), Join(relation), Join(obj))];
    }
  }

  // ---------------------------------------------------------------------
  // Properties of the state machine
  // ---------------------------------------------------------------------

  /** Running over a concatenation is running over each part in turn. */
  lemma {:induction false} RunAppend(st: State, a: seq<Token>, b: seq<Token>)
    ensures Run(st, a + b) == Run(Run(st, a), b)
    decreases |a|
  {
    if a == [] {
      assert a + b == b;
    } else {
      assert (a + b)[0] == a[0];
      assert (a + b)[1..] == a[1..] + b;
      RunAppend(Step(st, a[0]), a[1..], b);
    }
  }

  /** In the idle mode, a run of ordinary tokens changes nothing. */
  lemma {:induction false} IdleIgnoresTokens(st: State, ts: seq<Token>)
    requires st.mode == Idle
    requires forall i :: 0 <= i < |ts| ==> !IsMarker(ts[i])
    ensures Run(st, ts) == st
    decreases |ts|
  {
    if ts != [] {
      IdleIgnoresTokens(Step(st, ts[0]), ts[1..]);
    }
  }

  /** Tokens before the first marker are discarded. */
  lemma LeadingTokensDiscarded(prefix: seq<Token>, rest: seq<Token>)
    requires forall i :: 0 <= i < |prefix| ==> !IsMarker(prefix[i])
    ensures Parse(prefix + rest) == Parse(rest)
  {
    RunAppend(Init, prefix, rest);
    IdleIgnoresTokens(Init, prefix);
  }

  /** A stream without markers yields no relation; the parser never fails. */
  lemma NoMarkersNoRelations(tokens: seq<Token>)
    requires forall i :: 0 <= i < |tokens| ==> !IsMarker(tokens[i])
    ensures Parse(tokens) == []
  {
    IdleIgnoresTokens(Init, tokens);
  }

  /** The number of tokens that can flush mid-stream: `<triplet>` and `<subj>`. */
  function FlushMarkers(ts: seq<Token>): (n: nat)
    ensures n <= |ts|
  {
    if ts == [] then 0
    else (if ts[0] == TripletMarker || ts[0] == SubjMarker then 1 else 0) + FlushMarkers(ts[1..])
  }

  lemma {:induction false} RunOutputBound(st: State, ts: seq<Token>)
    ensures |Run(st, ts).out| <= |st.out| + FlushMarkers(ts)
    ensures st.out <= Run(st, ts).out
    decreases |ts|
  {
    if ts != [] {
      RunOutputBound(Step(st, ts[0]), ts[1..]);
    }
  }

  /** At most one triplet per `<triplet>` or `<subj>`, plus the final one. */
  lemma OutputBound(tokens: seq<Token>)
    ensures |Parse(tokens)| <= FlushMarkers(tokens) + 1
  {
    RunOutputBound(Init, tokens);
  }

  /** Buffers hold only non-empty tokens and every emitted type is non-empty. */
  ghost predicate Sound(st: State) {
    (forall i :: 0 <= i < |st.subject| ==> st.subject[i] != "") &&
    (forall i :: 0 <= i < |st.obj| ==> st.obj[i] != "") &&
    (forall i :: 0 <= i < |st.relation| ==> st.relation[i] != "") &&
    (forall i :: 0 <= i < |st.out| ==> st.out[i].relType != "")
  }

  lemma {:induction false} RunSound(st: State, ts: seq<Token>)
    requires Sound(st) && WellFormed(ts)
    ensures Sound(Run(st, ts))
    decreases |ts|
  {
    if ts != [] {
      var next := Step(st, ts[0]);
      assert Sound(next);
      RunSound(next, ts[1..]);
    }
  }

  /** Every emitted triplet has a non-empty type: flushes need a relation. */
  lemma TypeNeverEmpty(tokens: seq<Token>)
    requires WellFormed(tokens)
    ensures forall i :: 0 <= i < |Parse(tokens)| ==> Parse(tokens)[i].relType != ""
  {
    RunSound(Init, tokens);
  }

  /**
   * The end-of-stream flush adds at most one triplet, and it fires exactly
   * when all three buffers are set, so that triplet has every field non-empty.
   */
  lemma FinalFlush(tokens: seq<Token>)
    requires WellFormed(tokens)
    ensures var st := Run(Init, tokens);
      st.out <= Parse(tokens) && |Parse(tokens)| <= |st.out| + 1
    ensures var st := Run(Init, tokens);
      |Parse(tokens)| == |st.out| + 1 <==> st.subject != [] && st.relation != [] && st.obj != []
    ensures var st := Run(Init, tokens);
      |Parse(tokens)| == |st.out| + 1 ==>
        var last := Parse(tokens)[|st.out|];
        last.head != "" && last.relType != "" && last.tail != ""
  {
    RunSound(Init, tokens);
  }

  /** `<subj>` flushes the pending triplet and clears only the object buffer. */
  lemma SubjKeepsRelation(st: State)
    ensures var next := Step(st, SubjMarker);
      next.relation == st.relation && next.subject == st.subject && next.obj == [] &&
      next.mode == CollectObject &&
      next.out == if st.relation != [] then st.out + [Pending(st)] else st.out
  {
  }

  /** `<obj>` is the only token that clears a set relation without flushing. */
  lemma OnlyObjClearsRelationSilently(st: State, t: Token)
    requires st.relation != []
    ensures var next := Step(st, t);
      (next.relation == [] && next.out == st.out) <==> t == ObjMarker
  {
  }

  // ---------------------------------------------------------------------
  // Worked examples
  // ---------------------------------------------------------------------

  /** `<triplet> A B <subj> C <obj> D` is one triplet: head "A B", type "D", tail "C". */
  lemma ExampleSingleTriplet()
    ensures Parse(["<triplet>", "A", "B", "<subj>", "C", "<obj>", "D"])
         == [Triplet("A B", "D", "C")]
  {
    var s0 := Step(Init, "<triplet>");
    var s1 := Step(s0, "A");
    var s2 := Step(s1, "B");
    var s3 := Step(s2, "<subj>");
    var s4 := Step(s3, "C");
    var s5 := Step(s4, "<obj>");
    var s6 := Step(s5, "D");
    assert s6 == State(CollectRelation, ["A", "B"], ["C"], ["D"], []);
    assert Run(Init, ["<triplet>", "A", "B", "<subj>", "C", "<obj>", "D"]) == s6;
    assert ["A", "B"][1..] == ["B"];
    assert Join(["A", "B"]) == "A B";
  }

  /** A mid-stream flush can emit an empty head and tail: `<obj> X <triplet>`. */
  lemma ExampleEmptyHeadAndTail()
    ensures Parse(["<obj>", "X", "<triplet>"]) == [Triplet("", "X", "")]
  {
    var s0 := Step(Init, "<obj>");
    var s1 := Step(s0, "X");
    var s2 := Step(s1, "<triplet>");
    assert Run(Init, ["<obj>", "X", "<triplet>"]) == s2;
  }

  /** The relation kept by `<subj>` is reused for the next object. */
  lemma ExampleRelationReused()
    ensures Parse(["<triplet>", "a", "<subj>", "b", "<obj>", "r", "<subj>", "c", "<subj>"])
         == [Triplet("a", "r", "b"), Triplet("a", "r", "c")]
  {
    var s0 := Step(Init, "<triplet>");
    var s1 := Step(s0, "a");
    var s2 := Step(s1, "<subj>");
    var s3 := Step(s2, "b");
    var s4 := Step(s3, "<obj>");
    var s5 := Step(s4, "r");
    var s6 := Step(s5, "<subj>");
    var s7 := Step(s6, "c");
    var s8 := Step(s7, "<subj>");
    assert s8.out == [Triplet("a", "r", "b"), Triplet("a", "r", "c")];
    assert s8.obj == [];
    assert Run(Init, ["<triplet>", "a", "<subj>", "b", "<obj>", "r", "<subj>", "c", "<subj>"]) == s8;
  }
}
