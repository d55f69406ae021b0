/**
 * One session: load the latest snapshot, walk, then `end_restart` decides
 * whether to save and whether to start over.  The variants differ here:
 * UAS.py saves only after a graft, UAS_TUI.py saves on both finishes, and
 * main.py never saves and never restarts.
 */
module Controller {
  import opened Wrappers
  import opened Tree
  import opened Naming
  import opened Store
  import opened Answers
  import opened Traversal

  /** The closing message shown. */
  datatype Notice = Thanks | TooManyErrorsNotice | FinishedNotice | NoNotice

  /** What `end_restart` (or main.py's `create_node`) does after the walk. */
  datatype Closing = Closing(save: bool, restart: bool, notice: Notice)

  function EndPolicy(v: Variant, o: Outcome): (c: Closing)
    ensures c.restart <==> v != Prototype && o != Unmatched
    ensures c.save <==> (v == Current && o == Graceful) || (v == Terminal && o != Unmatched)
    ensures c.save ==> c.restart
    ensures c.notice == Thanks <==> v != Prototype && o == Graceful
  {
    match (v, o)
    case (Current, Graceful) => Closing(true, true, Thanks)
    case (Current, TooManyErrors) => Closing(false, true, TooManyErrorsNotice)
    case (Terminal, Graceful) => Closing(true, true, Thanks)
    case (Terminal, TooManyErrors) => Closing(true, true, TooManyErrorsNotice)
    case (Prototype, Graceful) => Closing(false, false, FinishedNotice)
    case (_, _) => Closing(false, false, NoNotice)  // check_answer returned without a class
  }

  datatype SessionEnd =
    | LoadFailed(error: LoadError)
    | Waiting(slots: Slots, state: State)   // the input ran out before the walk finished
    | Ended(outcome: Outcome, slots: Slots, dir: Directory, closing: Closing)

  /** A whole session over a directory, an input stream and the clock reading used by a save. */
  function SessionSpec(v: Variant, d: Directory, inputs: seq<string>, now: Timestamp): (r: SessionEnd)
    requires ValidStamp(now)
    ensures r.LoadFailed? <==> Load(d).Err?
    ensures r.Ended? ==> r.closing == EndPolicy(v, r.outcome) && WellFormed(r.slots)
    ensures r.Ended? ==> r.dir == if r.closing.save then Save(d, now, r.slots) else d
  {
    match Load(d)
    case Err(e) => LoadFailed(e)
    case Ok(t) =>
      var (t', s') := Run(v, t, Start, inputs);
      if !s'.Finished? then Waiting(t', s')
      else
        var c := EndPolicy(v, s'.outcome);
        Ended(s'.outcome, t', if c.save then Save(d, now, t') else d, c)
  }

  /** `main()`: load into the session object, walk, then close as the variant does. */
  method RunSession(v: Variant, d: Directory, inputs: seq<string>, now: Timestamp) returns (r: SessionEnd)
    requires ValidStamp(now)
    ensures r == SessionSpec(v, d, inputs, now)
  {
    var loaded := Load(d);
    if loaded.Err? {
      return LoadFailed(loaded.error);
    }
    var session := new Session(v, loaded.value);
    var _ := session.Traverse(inputs);
    if !session.state.Finished? {
      return Waiting(session.slots, session.state);
    }
    var closing := EndPolicy(v, session.state.outcome);
    var dir := if closing.save then Save(d, now, session.slots) else d;
    r := Ended(session.state.outcome, session.slots, dir, closing);
  }

  /**
   * UAS.py and UAS_TUI.py never lose a graft: a session that changed the
   * tree saves it, and one that saves nothing (UAS.py after three errors)
   * leaves both the tree and the directory as they were.
   */
  lemma NoGraftIsLost(v: Variant, d: Directory, inputs: seq<string>, now: Timestamp)
    requires v != Prototype && ValidStamp(now)
    requires SessionSpec(v, d, inputs, now).Ended?
    ensures var r := SessionSpec(v, d, inputs, now);
            && (r.slots != Load(d).value ==> r.closing.save && r.outcome == Graceful)
            && (!r.closing.save ==> r.slots == Load(d).value && r.dir == d)
  {
    var t := Load(d).value;
    RunGrowsByAtMostOne(v, t, Start, inputs);
  }

  /**
   * After a session of UAS.py or UAS_TUI.py that restarts, the next load
   * (with the clock past every listed save) yields the tree this session
   * ended with: the saved, grown tree after a graft, or the unchanged tree
   * after three errors.
   */
  lemma RestartResumesFromSessionTree(v: Variant, d: Directory, inputs: seq<string>, now: Timestamp)
    requires v != Prototype && ValidStamp(now)
    requires SessionSpec(v, d, inputs, now).Ended? && SessionSpec(v, d, inputs, now).closing.restart
    requires LatestKey(d.names).value < StampKey(now)
    ensures Load(SessionSpec(v, d, inputs, now).dir) == Ok(SessionSpec(v, d, inputs, now).slots)
  {
    var r := SessionSpec(v, d, inputs, now);
    NoGraftIsLost(v, d, inputs, now);
    if r.closing.save {
      LoadedListingPrecedes(d, now);
      SaveThenLoad(d, now, r.slots);
    }
  }

  /** UAS_TUI.py saves on both finishes; only the message differs. */
  lemma TerminalSavesBothOutcomes(d: Directory, inputs: seq<string>, now: Timestamp)
    requires ValidStamp(now)
    requires SessionSpec(Terminal, d, inputs, now).Ended?
    ensures var r := SessionSpec(Terminal, d, inputs, now);
            && r.closing.save && r.closing.restart
            && r.dir == Save(d, now, r.slots)
            && r.closing.notice == (if r.outcome == Graceful then Thanks else TooManyErrorsNotice)
  {
    var t := Load(d).value;
    NoUnmatchedOutsidePrototype(Terminal, t, Start, inputs);
    var r := SessionSpec(Terminal, d, inputs, now);
    assert r.outcome == Run(Terminal, t, Start, inputs).1.outcome;
    assert r.outcome != Unmatched;
  }

  /** UAS.py saves after a graft and not after three errors; it restarts after both. */
  lemma CurrentSavesOnlyAfterGraft(d: Directory, inputs: seq<string>, now: Timestamp)
    requires ValidStamp(now)
    requires SessionSpec(Current, d, inputs, now).Ended?
    ensures var r := SessionSpec(Current, d, inputs, now);
            && r.closing.restart
            && (r.closing.save <==> r.outcome == Graceful)
            && (r.outcome == TooManyErrors ==> r.dir == d)
  {
    var t := Load(d).value;
    NoUnmatchedOutsidePrototype(Current, t, Start, inputs);
    var r := SessionSpec(Current, d, inputs, now);
    assert r.outcome == Run(Current, t, Start, inputs).1.outcome;
    assert r.outcome != Unmatched;
  }

  /**
   * main.py keeps a graft only in memory: the walk that grafts grows the
   * tree, yet the directory is left as it was and nothing restarts.
   */
  lemma PrototypeDropsGraft(d: Directory, inputs: seq<string>, now: Timestamp)
    requires ValidStamp(now)
    requires SessionSpec(Prototype, d, inputs, now).Ended?
    ensures var r := SessionSpec(Prototype, d, inputs, now);
            && r.dir == d && !r.closing.restart
            && (r.outcome == Graceful ==> |OccupiedSet(r.slots)| == |OccupiedSet(Load(d).value)| + 1)
  {
    var t := Load(d).value;
    RunGrowsByAtMostOne(Prototype, t, Start, inputs);
    var (t', s') := Run(Prototype, t, Start, inputs);
    if s' == Finished(Graceful) && t' == t {
      GraftedRunChangesTree(Prototype, t, Start, inputs);
    }
  }

  /** A walk from the root that ends gracefully has changed the tree. */
  lemma {:induction false} GraftedRunChangesTree(v: Variant, t: Slots, s: State, inputs: seq<string>)
    requires Consistent(t, s) && !s.Finished?
    requires Run(v, t, s, inputs).1 == Finished(Graceful)
    ensures Run(v, t, s, inputs).0 != t
    decreases |inputs|
  {
    var (t1, s1) := Step(v, t, s, inputs[0]);
    if s.Asking? {
      GraftedRunChangesTree(v, t1, s1, inputs[1..]);
    } else {
      var c := Child(s.p, s.side);
      assert Run(v, t, s, inputs).0 == t1;
      assert c in OccupiedSet(t1) && c !in OccupiedSet(t);
    }
  }

  /**
   * The worked scenario: a tree holding only its root prompt, the answer
   * "y" at the root, and the new prompt "plays chess".  The walk grafts at
   * position 2, leaves position 1 absent, saves, and the next load reads
   * the grown tree back.
   */
  lemma FirstGraftScenario(d: Directory, now: Timestamp)
    requires ValidStamp(now)
    requires Load(d) == Ok([Some("root-prompt")]) && LatestKey(d.names).value < StampKey(now)
    ensures var grown := [Some("root-prompt"), None, Some("plays chess")];
            && SessionSpec(Current, d, ["y", "plays chess"], now)
                 == Ended(Graceful, grown, Save(d, now, grown), Closing(true, true, Thanks))
            && Load(Save(d, now, grown)) == Ok(grown)
  {
    var t: Slots := [Some("root-prompt")];
    var grown: Slots := [Some("root-prompt"), None, Some("plays chess")];
    assert Accepted(Current, "y") && "y" in Positives(Current);
    AcceptedAnswerStep(Current, t, 0, 0, "y");
    var (t1, s1) := Step(Current, t, Start, "y");
    assert s1 == Grafting(0, Positive);
    var (t2, s2) := Step(Current, t1, s1, "plays chess");
    assert t2 == grown by {
      assert |t2| == 3;
      assert ValueAt(t2, 0) == Some("root-prompt") && ValueAt(t2, 1) == None && ValueAt(t2, 2) == Some("plays chess");
    }
    var inputs := ["y", "plays chess"];
    assert inputs[1..] == ["plays chess"] && inputs[1..][1..] == [];
    assert Run(Current, t, Start, inputs) == (grown, Finished(Graceful));
    LoadedListingPrecedes(d, now);
    SaveThenLoad(d, now, grown);
  }
}
