/**
 * The walk of one session as a state machine.  The source walks by mutual
 * recursion between `ask_question` and `check_answer`, passing the
 * consecutive-error count along; here each token read is one step between
 * explicit states, and the tree is the field of a Session object.
 */
module Traversal {
  import opened Wrappers
  import opened Tree
  import opened Answers

  datatype Outcome =
    | Graceful       // a new prompt was grafted (`end_restart()`)
    | TooManyErrors  // the third consecutive invalid token (`end_restart(1)`)
    | Unmatched      // `check_answer` matched neither vocabulary and simply returned

  datatype State =
    | Asking(p: nat, errcount: nat)
    | Grafting(p: nat, side: Side)
    | Finished(outcome: Outcome)

  /** The walk starts at the root with no errors. */
  const Start: State := Asking(0, 0)

  /** `ask_question` ends the session when an invalid token arrives with this count. */
  const LastStrike: nat := 2

  /**
   * What every reachable state satisfies: the tree is well formed, the
   * position being asked about is occupied, the count never passes the last
   * strike, and a pending graft targets an absent child of an occupied node.
   */
  predicate Consistent(t: Slots, s: State) {
    && WellFormed(t)
    && match s
       case Asking(p, e) => Occupied(t, p) && e <= LastStrike
       case Grafting(p, side) => Occupied(t, p) && !Occupied(t, Child(p, side))
       case Finished(_) => true
  }

  /** `check_answer` for a classified answer: descend if that child exists, otherwise graft there. */
  function Descend(t: Slots, p: nat, side: Side): (s: State)
    requires WellFormed(t) && Occupied(t, p)
    ensures Consistent(t, s)
    ensures s.Asking? <==> Occupied(t, Child(p, side))
    ensures s.Asking? ==> s.p == Child(p, side) && s.errcount == 0
    ensures s.Grafting? ==> s.p == p && s.side == side
    ensures !Occupied(t, Child(p, side)) ==> s == Grafting(p, side)
  {
    if Occupied(t, Child(p, side)) then Asking(Child(p, side), 0) else Grafting(p, side)
  }

  /**
   * One token read in state s.  Asking consumes an answer token;
   * Grafting consumes the free text of the new prompt (`create_node`).
   */
  function Step(v: Variant, t: Slots, s: State, input: string): (r: (Slots, State))
    requires Consistent(t, s) && !s.Finished?
    ensures Consistent(r.0, r.1)
    ensures s.Asking? ==> r.0 == t
    ensures s.Grafting? ==> r.1 == Finished(Graceful)
    ensures s.Grafting? ==> OccupiedSet(r.0) == OccupiedSet(t) + {Child(s.p, s.side)} && Extends(t, r.0)
    ensures s.Grafting? ==> ValueAt(r.0, Child(s.p, s.side)) == Some(input)
  {
    match s
    case Asking(p, e) =>
      if v != Prototype && !Accepted(v, input) then
        if e == LastStrike then (t, Finished(TooManyErrors)) else (t, Asking(p, e + 1))
      else
        (match Interpret(v, input)
         case Answered(side) => (t, Descend(t, p, side))
         case Invalid => (t, Finished(Unmatched)))
    case Grafting(p, side) =>
      GraftGrowsByOne(t, p, side, input);
      (Grafted(t, p, side, input), Finished(Graceful))
  }

  /** The walk over a whole input stream: it stops when it finishes or the input runs out. */
  function Run(v: Variant, t: Slots, s: State, inputs: seq<string>): (r: (Slots, State))
    requires Consistent(t, s)
    ensures Consistent(r.0, r.1)
    decreases |inputs|
  {
    if s.Finished? || |inputs| == 0 then (t, s)
    else
      var (t1, s1) := Step(v, t, s, inputs[0]);
      Run(v, t1, s1, inputs[1..])
  }

  /**
   * An accepted answer at p leads to the child 2p+1 (negative) or 2p+2
   * (positive) when that slot is occupied, with the error count back at 0;
   * otherwise to a graft on that side of p.
   */
  lemma AcceptedAnswerStep(v: Variant, t: Slots, p: nat, e: nat, token: string)
    requires Consistent(t, Asking(p, e)) && Accepted(v, token)
    ensures var side := if token in Positives(v) then Positive else Negative;
            Step(v, t, Asking(p, e), token)
              == (t, if Occupied(t, Child(p, side)) then Asking(Child(p, side), 0) else Grafting(p, side))
  {
  }

  /**
   * The retry bound of UAS.py and UAS_TUI.py: a run of invalid tokens at p
   * re-asks p with the count raised by one each time, and the token that
   * arrives with the count at 2 ends the session with TooManyErrors.
   */
  lemma {:induction false} InvalidStreak(v: Variant, t: Slots, p: nat, e: nat, inputs: seq<string>)
    requires v != Prototype && Consistent(t, Asking(p, e))
    requires forall i :: 0 <= i < |inputs| ==> !Accepted(v, inputs[i])
    ensures Run(v, t, Asking(p, e), inputs)
              == if e + |inputs| <= LastStrike then (t, Asking(p, e + |inputs|)) else (t, Finished(TooManyErrors))
    decreases |inputs|
  {
    if |inputs| > 0 && e < LastStrike {
      InvalidStreak(v, t, p, e + 1, inputs[1..]);
    }
  }

  /** From a fresh count, the session ends on exactly the third consecutive invalid token. */
  lemma ThirdInvalidTokenEnds(v: Variant, t: Slots, p: nat, a: string, b: string, c: string)
    requires v != Prototype && Consistent(t, Asking(p, 0))
    requires !Accepted(v, a) && !Accepted(v, b) && !Accepted(v, c)
    ensures Run(v, t, Asking(p, 0), [a, b]) == (t, Asking(p, 2))
    ensures Run(v, t, Asking(p, 0), [a, b, c]) == (t, Finished(TooManyErrors))
  {
    InvalidStreak(v, t, p, 0, [a, b]);
    InvalidStreak(v, t, p, 0, [a, b, c]);
  }

  /** main.py has no retry: an unmatched token ends the walk with the tree unchanged. */
  lemma PrototypeStopsOnUnmatched(t: Slots, p: nat, e: nat, token: string, rest: seq<string>)
    requires Consistent(t, Asking(p, e)) && !Accepted(Prototype, token)
    ensures Run(Prototype, t, Asking(p, e), [token] + rest) == (t, Finished(Unmatched))
  {
    assert ([token] + rest)[1..] == rest;
  }

  /**
   * Graft monotonicity: a walk keeps every prompt where it was, and it either
   * leaves the tree as it was or ends gracefully having added exactly one
   * occupied slot, a child of a slot that was already occupied.
   */
  lemma {:induction false} RunGrowsByAtMostOne(v: Variant, t: Slots, s: State, inputs: seq<string>)
    requires Consistent(t, s)
    ensures Extends(t, Run(v, t, s, inputs).0)
    ensures Run(v, t, s, inputs).0 != t ==>
              && Run(v, t, s, inputs).1 == Finished(Graceful)
              && |OccupiedSet(Run(v, t, s, inputs).0)| == |OccupiedSet(t)| + 1
              && forall c :: c in OccupiedSet(Run(v, t, s, inputs).0) - OccupiedSet(t) ==> c > 0 && Parent(c) in OccupiedSet(t)
    decreases |inputs|
  {
    if !s.Finished? && |inputs| > 0 {
      var (t1, s1) := Step(v, t, s, inputs[0]);
      if s.Asking? {
        RunGrowsByAtMostOne(v, t1, s1, inputs[1..]);
      } else {
        var c := Child(s.p, s.side);
        assert Run(v, t, s, inputs) == (t1, s1);
        assert OccupiedSet(t1) - OccupiedSet(t) == {c};
      }
    }
  }

  /** A walk that ends with too many errors, or unmatched, leaves the tree unchanged. */
  lemma UngracefulRunKeepsTree(v: Variant, t: Slots, s: State, inputs: seq<string>)
    requires Consistent(t, s) && !s.Finished?
    requires Run(v, t, s, inputs).1.Finished? && Run(v, t, s, inputs).1.outcome != Graceful
    ensures Run(v, t, s, inputs).0 == t
  {
    RunGrowsByAtMostOne(v, t, s, inputs);
  }

  /**
   * At most this many further tokens finish the walk: three per position
   * still below the end of the slot sequence, and one for the graft text.
   */
  function Budget(t: Slots, s: State): nat
    requires Consistent(t, s)
  {
    match s
    case Asking(p, e) => 3 * (|t| - p) - e + 1
    case Grafting(_, _) => 1
    case Finished(_) => 0
  }

  lemma StepSpendsBudget(v: Variant, t: Slots, s: State, input: string)
    requires Consistent(t, s) && !s.Finished?
    ensures Budget(Step(v, t, s, input).0, Step(v, t, s, input).1) < Budget(t, s)
  {
  }

  /** The three-strikes rule bounds every session: enough tokens always finish it. */
  lemma {:induction false} RunFinishes(v: Variant, t: Slots, s: State, inputs: seq<string>)
    requires Consistent(t, s) && |inputs| >= Budget(t, s)
    ensures Run(v, t, s, inputs).1.Finished?
    decreases |inputs|
  {
    if !s.Finished? {
      StepSpendsBudget(v, t, s, inputs[0]);
      var (t1, s1) := Step(v, t, s, inputs[0]);
      RunFinishes(v, t1, s1, inputs[1..]);
    }
  }

  /** A walk from the root with 3 * |t| + 1 tokens always finishes. */
  lemma SessionIsBounded(v: Variant, t: Slots, inputs: seq<string>)
    requires WellFormed(t) && |inputs| >= 3 * |t| + 1
    ensures Run(v, t, Start, inputs).1.Finished?
  {
    RunFinishes(v, t, Start, inputs);
  }

  /**
   * In UAS.py and UAS_TUI.py every accepted token is classified, so
   * `check_answer` never falls through: the Unmatched outcome is the prototype's alone.
   */
  lemma {:induction false} NoUnmatchedOutsidePrototype(v: Variant, t: Slots, s: State, inputs: seq<string>)
    requires v != Prototype && Consistent(t, s) && s != Finished(Unmatched)
    ensures Run(v, t, s, inputs).1 != Finished(Unmatched)
    decreases |inputs|
  {
    if !s.Finished? && |inputs| > 0 {
      var (t1, s1) := Step(v, t, s, inputs[0]);
      NoUnmatchedOutsidePrototype(v, t1, s1, inputs[1..]);
    }
  }

  // Question texts (the French tables; the English ones are not modelled).
  const CurrentPrefix: string := "Diriez-vous que "
  const CurrentSuffix: string := " vous rends unique?"
  const TerminalPrefix: string := "Dirais-tu que: "
  const TerminalSuffix: string := "?"

  function Prefix(v: Variant): string {
    match v
    case Current => CurrentPrefix
    case Terminal => TerminalPrefix
    case Prototype => ""
  }

  function Suffix(v: Variant): string {
    match v
    case Current => CurrentSuffix
    case Terminal => TerminalSuffix
    case Prototype => " "
  }

  /**
   * The text shown when asking at p: the root prompt verbatim in UAS.py and
   * UAS_TUI.py, any other prompt framed as a question; main.py shows every
   * prompt followed by a space (the `input` prompt).
   */
  function QuestionText(v: Variant, t: Slots, p: nat): (q: string)
    requires Occupied(t, p)
    ensures p == 0 && v != Prototype ==> q == ValueAt(t, 0).value
    ensures p != 0 || v == Prototype ==>
              && |q| == |Prefix(v)| + |ValueAt(t, p).value| + |Suffix(v)|
              && q[..|Prefix(v)|] == Prefix(v)
              && q[|Prefix(v)|..|q| - |Suffix(v)|] == ValueAt(t, p).value
              && q[|q| - |Suffix(v)|..] == Suffix(v)
  {
    var value := ValueAt(t, p).value;
    if p == 0 && v != Prototype then value else Prefix(v) + value + Suffix(v)
  }

  /** In UAS_TUI.py every non-root question ends with a question mark. */
  lemma TerminalQuestionsEndInQuestionMark(t: Slots, p: nat)
    requires Occupied(t, p) && p != 0
    ensures var q := QuestionText(Terminal, t, p); |q| > 0 && q[|q| - 1] == '?'
  {
    var q := QuestionText(Terminal, t, p);
    assert q[|q| - 1..] == TerminalSuffix;
  }

  /**
   * main.py's presence probe: it looks at p+1 / p+2 before descending to
   * 2p+1 / 2p+2.  The two agree only at the root.
   */
  function PrototypeProbe(p: nat, side: Side): (q: nat)
    ensures q == Child(p, side) <==> p == 0
  {
    match side
    case Negative => p + 1
    case Positive => p + 2
  }

  /**
   * main.py's `check_answer`/`create_node` as written.  It descends only if
   * the probed slot and the real child are both present: a missing probe
   * sends it to `create_node`, and a missing child makes the recursive
   * `ask_question` raise inside the same `try`, which also ends in
   * `create_node`.  `create_node` assigns the child whether or not one is there.
   */
  function PrototypeStepAsWritten(t: Slots, s: State, input: string): (r: (Slots, State))
    requires WellFormed(t) && (s.Asking? || s.Grafting?) && Occupied(t, s.p)
    ensures WellFormed(r.0) && (r.1.Asking? || r.1.Grafting? ==> Occupied(r.0, r.1.p))
  {
    match s
    case Asking(p, _) =>
      (match Classify(Prototype, input)
       case Invalid => (t, Finished(Unmatched))
       case Answered(side) =>
         if Occupied(t, PrototypeProbe(p, side)) && Occupied(t, Child(p, side)) then (t, Asking(Child(p, side), 0))
         else (t, Grafting(p, side)))
    case Grafting(p, side) => (ReplacedChild(t, p, side, input), Finished(Graceful))
  }

  /** The tree of the counterexample: root, its left child 1, and 1's right child 4. */
  function ProbeExampleTree(): (t: Slots)
    ensures WellFormed(t)
  {
    [Some("root"), Some("a"), None, None, Some("b")]
  }

  /**
   * main.py as written overwrites an occupied slot: answering "n" at the
   * root and "y" at position 1 probes the absent slot 3, so the typed text
   * replaces the prompt "b" at slot 4 instead of the walk asking about it.
   */
  lemma PrototypeProbeOverwrites()
    ensures var t := ProbeExampleTree();
            var (t1, s1) := PrototypeStepAsWritten(t, Start, "n");
            && s1 == Asking(1, 0)
            && var (t2, s2) := PrototypeStepAsWritten(t1, s1, "y");
               && s2 == Grafting(1, Positive)
               && var (t3, s3) := PrototypeStepAsWritten(t2, s2, "c");
                  && s3 == Finished(Graceful)
                  && ValueAt(t, 4) == Some("b")
                  && ValueAt(t3, 4) == Some("c")
  {
    var t := ProbeExampleTree();
    assert Occupied(t, 1) && !Occupied(t, 3) && Occupied(t, 4);
    assert Classify(Prototype, "n") == Answered(Negative);
    assert Classify(Prototype, "y") == Answered(Positive);
  }

  /** With the probe on the real child, the same answers reach slot 4 and ask about "b". */
  lemma CorrectedPrototypeDescends()
    ensures Run(Prototype, ProbeExampleTree(), Start, ["n", "y"]) == (ProbeExampleTree(), Asking(4, 0))
  {
    var t := ProbeExampleTree();
    assert Occupied(t, 1) && Occupied(t, 4);
    assert Classify(Prototype, "n") == Answered(Negative);
    assert Classify(Prototype, "y") == Answered(Positive);
    var (t1, s1) := Step(Prototype, t, Start, "n");
    assert s1 == Asking(1, 0);
    assert ["n", "y"][1..] == ["y"];
    assert Step(Prototype, t1, s1, "y") == (t, Asking(4, 0));
  }

  /**
   * Where the probe does not mislead, the as-written step is the corrected
   * one: at the root, and whenever the child slot is absent.
   */
  lemma AsWrittenAgreesAtRoot(t: Slots, token: string)
    requires WellFormed(t)
    ensures PrototypeStepAsWritten(t, Start, token) == Step(Prototype, t, Start, token)
  {
  }

  /** An as-written graft onto an absent child is a graft. */
  lemma AsWrittenGraftOnAbsentIsGraft(t: Slots, p: nat, side: Side, text: string)
    requires Consistent(t, Grafting(p, side))
    ensures PrototypeStepAsWritten(t, Grafting(p, side), text) == Step(Prototype, t, Grafting(p, side), text)
  {
    ReplacedChildOnAbsentIsGraft(t, p, side, text);
  }

  /**
   * One session's walk over the process-wide tree (`global TREE`): the tree
   * is a field the graft updates in place.
   */
  class Session {
    const variant: Variant
    var slots: Slots
    var state: State

    ghost predicate Valid()
      reads this
    {
      Consistent(slots, state)
    }

    /** `TREE = initialize()` followed by `ask_question(0)`. */
    constructor (v: Variant, loaded: Slots)
      requires WellFormed(loaded)
      ensures Valid()
      ensures variant == v && slots == loaded && state == Start
    {
      variant := v;
      slots := loaded;
      state := Start;
    }

    /** The text `ask_question` shows at the current position. */
    method Question() returns (q: string)
      requires Valid() && state.Asking?
      ensures q == QuestionText(variant, slots, state.p)
    {
      q := QuestionText(variant, slots, state.p);
    }

    /** `ask_question` reading one token, then `check_answer`. */
    method Answer(token: string)
      requires Valid() && state.Asking?
      modifies this
      ensures Valid()
      ensures (slots, state) == Step(variant, old(slots), old(state), token)
    {
      var p, e := state.p, state.errcount;
      if variant != Prototype && !Accepted(variant, token) {
        if e == LastStrike {
          state := Finished(TooManyErrors);
        } else {
          state := Asking(p, e + 1);
        }
      } else {
        var c := Interpret(variant, token);
        if c.Invalid? {
          state := Finished(Unmatched);
        } else {
          var child := Child(p, c.side);
          var next := ValueAt(slots, child);
          if next.Some? {
            state := Asking(child, 0);
          } else {
            state := Grafting(p, c.side);
          }
        }
      }
    }

    /** `create_node`: graft the typed text as the pending child, then finish. */
    method CreateNode(text: string)
      requires Valid() && state.Grafting?
      modifies this
      ensures Valid()
      ensures (slots, state) == Step(variant, old(slots), old(state), text)
    {
      var c := Child(state.p, state.side);
      if c < |slots| {
        slots := slots[c := Some(text)];
      } else {
        slots := slots + seq(c - |slots|, _ => None) + [Some(text)];
      }
      assert slots == Grafted(old(slots), old(state).p, old(state).side, text);
      state := Finished(Graceful);
    }

    /** The whole walk: one token per step until the session finishes or the input runs out. */
    method Traverse(inputs: seq<string>) returns (used: nat)
      requires Valid()
      modifies this
      ensures Valid()
      ensures (slots, state) == Run(variant, old(slots), old(state), inputs)
      ensures used <= |inputs| && (state.Finished? || used == |inputs|)
    {
      used := 0;
      while used < |inputs| && !state.Finished?
        invariant Valid()
        invariant used <= |inputs|
        invariant Run(variant, slots, state, inputs[used..]) == Run(variant, old(slots), old(state), inputs)
        decreases |inputs| - used
      {
        assert inputs[used..][1..] == inputs[used + 1..];
        if state.Asking? {
          Answer(inputs[used]);
        } else {
          CreateNode(inputs[used]);
        }
        used := used + 1;
      }
    }
  }
}
