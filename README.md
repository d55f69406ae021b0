# UAS — Uniqueness Assessment System, verified core

The Uniqueness Assessment System grows a yes/no decision tree one visitor at a time. Each session loads
the latest saved tree and asks the visitor the tree's questions from the root down. When an answer
leads to a child slot that is still empty, the system asks "what else makes you unique?". The typed
text becomes the new question in that slot, and the tree is saved under a timestamp name.

The repository has three versions of the same program. The model treats them as three configurations
(`Answers.Variant`) of one engine:

- `Current` is `UAS.py`, the current version.
- `Terminal` is `UAS_TUI.py`, an older terminal-only version.
- `Prototype` is `main.py`, the first prototype.

The model has nine modules:

- `Tree`: the implicit-array tree. Position 0 is the root. The negative child of `p` is at `2p+1`
  and the positive child at `2p+2`. A lookup may find nothing. There is one mutation, the graft.
  `ReplacedChild` is the prototype's child assignment, which also drops the subtree that hung there.
- `Decimal`: Python's `int(...)` and `str(...)` on the decimal text in file names.
- `Naming`: save names (`%Y%m%d%H%M%S` + `.UAS`) and the selection of the latest save.
- `SlotCodec`: the file contents. The model uses its own list-literal format with a real parser. It
  matches Python's `str` of a list on prompts of printable characters that hold no apostrophe, or
  that hold both kinds of quote. It differs in two ways:
  - for a prompt holding an apostrophe but no double quote, Python writes double quotes
    (`"j'aime"`), while this format writes `'j\'aime'`;
  - Python escapes control and non-printable characters (a tab as `\t`, ESC as `\x1b`), while this
    format writes them unchanged.
- `Store`: the snapshot directory as a value, with `Load` (`tree_load`) and `Save` (`tree_save`).
- `Answers`: the vocabularies, exact acceptance, and the lower-casing in `check_answer`.
- `Traversal`: the walk as a state machine with the states `Asking(p, errcount)`, `Grafting(p, side)`
  and `Finished(outcome)`. `Step` and `Run` specify it. The class `Session` holds the process-wide
  tree as a field and walks it with a `while` loop proved against `Run`. This module also holds the
  prototype's walk as written (see Findings).
- `Controller`: `end_restart`'s policy per variant, and one whole session (load, walk, save or not,
  restart or not) as `SessionSpec`. The method `RunSession` is proved against `SessionSpec`.
- `Wrappers`: `Option` and `Result`.

The walk takes its tokens from an input sequence. One token is read per question, and one token is
the free text of a graft. If the sequence runs out first, the session is left `Waiting`. The directory
listing, the file contents and the clock reading used by a save are inputs.

Where the program's stated intent and its code disagree, the model follows the code. The stated intent
is in its docstrings, such as `end_restart`'s (UAS.py:188-190), and in its prompt tables:

- **Answers.** A token is accepted only if it is exactly in a vocabulary, so answers are
  case-sensitive. The `.lower()` in `check_answer` changes nothing for a token that got that far.
- **Finishing.** `UAS.py` and `UAS_TUI.py` restart after a graceful finish as well as after three
  errors, because `end_restart` calls `main()` in both branches.
- **Saving.** `UAS.py` saves only after a graft. `UAS_TUI.py` saves on both kinds of finish.
  `main.py` never saves, because its `tree_save` call is commented out.
- **Overwriting.** Two saves within the same second share one name, so the second replaces the first.
- **Stray files.** A listed name without a `.` or with a non-numeric prefix makes the whole load
  fail; such files are not skipped.
- **Which file is opened.** The opened file is the largest key turned back into text plus `.UAS`.
  It is not the listed name itself, so a listing of only `007.UAS` looks for `7.UAS` and fails
  (`Store.PaddedNameIsNotOpened`).

## Model

| member | source | states |
|---|---|---|
| `Tree.Child` | UAS.py:104-109 | the child reached by a negative answer at p is 2p+1 and by a positive one 2p+2; it lies above p, its parent is p, and its parity gives the side |
| `Tree.ChildOfParent` | UAS.py:145-151 | every non-root position is the child of exactly one (parent, side) pair |
| `Tree.ValueAt` | UAS.py:145 | a lookup past the end of the slot sequence finds nothing |
| `Tree.OccupiedSet` | UAS.py:145-151 | the occupied positions are exactly those whose lookup finds a prompt |
| `Tree.Grafted` | UAS.py:165-168 | a graft puts the prompt in the previously absent child slot, changes no other position, adds exactly that position to the occupied set, and keeps every occupied slot's parent occupied |
| `Tree.GraftGrowsByOne` | UAS.py:165-168 | a graft keeps every old prompt and adds exactly one occupied slot |
| `Tree.SubtreeIsAbove` | main.py:87-89 | a position in the subtree of c is at least c |
| `Tree.AbsentSubtree` | main.py:87-89 | in a well-formed tree everything below an absent slot is absent |
| `Tree.ReplacedChild` | main.py:86-89 | assigning a child puts the prompt at the child slot, blanks the rest of the old subtree there, changes nothing outside it, and keeps the tree well formed |
| `Tree.ReplacedChildOnAbsentIsGraft` | main.py:86-89 | assigning an absent child is exactly a graft |
| `Decimal.NatDigits` | UAS.py:83 | `str` of a natural number is a non-empty run of digits without a leading zero |
| `Decimal.ParseDigits` | UAS.py:83 | the value of k digits is below 10^k |
| `Decimal.ParseInt` | UAS.py:83 | `int` succeeds exactly on an optional sign followed by at least one digit; unsigned digits give a non-negative value |
| `Decimal.DigitsRoundTrip` | UAS.py:83 | parsing the digits of n gives n |
| `Decimal.IntRoundTrip` | UAS.py:83 | parsing `str(n)` gives n back, for negative n too |
| `Decimal.IntToString` | UAS.py:83 | `str(n)` is non-empty and has no '.', is all digits exactly when n is non-negative, and is a minus sign followed by digits otherwise; `IntRoundTrip` shows that `int` inverts it |
| `Decimal.LeadingZero` | UAS.py:83 | a leading zero does not change the value of a digit string, as `int` ignores leading zeros |
| `Decimal.Pad` | UAS.py:42 | a zero-padded field has exactly its width in digits |
| `Decimal.DigitsOfShifted` | UAS.py:42 | the digits of a·10^k + b are those of a followed by b padded to k places |
| `Decimal.PadFullWidth` | UAS.py:42 | a number with exactly w significant digits is its own w-wide padding |
| `Naming.FormatStamp` | UAS.py:94-96 | a formatted timestamp is fourteen digits |
| `Naming.SaveName` | UAS.py:96 | a save name is fourteen digits followed by ".UAS"; `KeyOfSaveName` gives its key |
| `Naming.FirstIndex` | UAS.py:83 | `index('.')` fails exactly when there is no '.', and otherwise gives the first one |
| `Naming.KeyOf` | UAS.py:83 | a name has the NoDot error exactly when it holds no '.'; `KeyOfFirstDot` gives the rest |
| `Naming.KeyOfFirstDot` | UAS.py:83 | when the first '.' of a name is at i, the name has a key exactly when the text before i is an integer, and then the key is that integer; otherwise the error is NotInteger |
| `Naming.Keys` | UAS.py:83 | the keys of all listed names, in listing order, exist exactly when every name has one; otherwise the error is that of the first name without one |
| `Naming.MaxOf` | UAS.py:83 | `max` returns an element of the list that no element exceeds |
| `Naming.LatestKey` | UAS.py:83 | the selection succeeds exactly on a non-empty listing whose every name has a key, and then it is the largest listed key; an empty listing is its own error |
| `Naming.LatestName` | UAS.py:83 | a name is opened exactly when the selection succeeds; it is `str` of the largest key followed by ".UAS", and its own key is that key |
| `Naming.KeyOfRebuiltName` | UAS.py:83 | the key of `str(k) + ".UAS"` is k |
| `Naming.FirstDotAfter` | UAS.py:83 | the first '.' of a dot-free text followed by the extension is at the end of the text |
| `Naming.StampSpellsKey` | UAS.py:94-96 | the fourteen digits of a stamp are the decimal spelling of its key, so `str` of the key rebuilds the saved name |
| `Naming.KeyOfSaveName` | UAS.py:94-96 | the key of a save name is its stamp's key, and the name rebuilt from that key is the save name |
| `Naming.LaterIffLargerKey` | UAS.py:42 | a stamp is later than another exactly when its key is larger, and equal keys mean equal stamps |
| `Naming.KeyStep` | UAS.py:42 | appending a two-digit field keeps the order of the keys |
| `Naming.SelectsLargestKey` | UAS.py:83 | the listing with keys 7, 42, 100 and 3 selects `100.UAS` |
| `Naming.LatestOfListing` | UAS.py:83 | four names keyed 7, 42, 100 and 3 have latest key 100 |
| `Naming.KeySeven` | UAS.py:83 | `7.UAS` has key 7 |
| `Naming.KeyThree` | UAS.py:83 | `3.UAS` has key 3 |
| `Naming.KeyFortyTwo` | UAS.py:83 | `42.UAS` has key 42 |
| `Naming.KeyHundred` | UAS.py:83 | `100.UAS` has key 100 |
| `Naming.KeyOfPadded` | UAS.py:83 | `007.UAS` has key 7 |
| `Naming.LatestOfSingle` | UAS.py:83 | a one-name listing selects that name's key |
| `Naming.SpellOneDigit` | UAS.py:83 | `str` of 3 and 7 are the single digits |
| `Naming.SpellFortyTwo` | UAS.py:83 | `str(42)` is "42" |
| `Naming.SpellHundred` | UAS.py:83 | `str(100)` is "100" |
| `Naming.MalformedNamesFail` | UAS_TUI.py:71 | an empty listing, a name without '.', or a non-numeric prefix makes the selection fail |
| `Naming.KeyNoDot` | UAS.py:83 | a name without '.' has no key |
| `Naming.KeyNotInteger` | UAS.py:83 | a name whose prefix is not an integer has no key |
| `Naming.FirstBadNameWins` | main.py:26 | with two names, the error is that of the first one without a key |
| `SlotCodec.Encode` | UAS.py:99 | the written text is bracketed, and it is "[]" exactly for the empty list; `RoundTrip` shows that `Decode` inverts it |
| `SlotCodec.Decode` | UAS.py:84 | only bracketed text parses, and "[]" is exactly the text of the empty list; `RoundTrip` shows that it inverts `Encode` |
| `SlotCodec.EncodeSlot` | UAS.py:99 | every slot is written as at least two characters |
| `SlotCodec.ParseQuoted` | UAS.py:84 | reading a quoted prompt consumes input |
| `SlotCodec.ParseSlot` | UAS.py:84 | reading a slot consumes input |
| `SlotCodec.ParseItems` | UAS.py:84 | a parsed list of items is never empty |
| `SlotCodec.QuotedRoundTrip` | UAS.py:84-99 | an escaped prompt followed by its closing quote reads back as the prompt, leaving the input after it |
| `SlotCodec.SlotRoundTrip` | UAS.py:84-99 | a written slot reads back as the same slot, leaving the input after it |
| `SlotCodec.ItemsRoundTrip` | UAS.py:84-99 | a written non-empty slot list reads back as the same list |
| `SlotCodec.RoundTrip` | UAS.py:84-99 | reading back the text a save writes gives exactly the slot sequence that was saved |
| `Store.Load` | UAS.py:77-87 | a load succeeds exactly when the latest name exists in the directory, parses, and gives a well-formed tree, which it then returns |
| `Store.Write` | UAS.py:98-100 | writing a file gives it the new contents, leaves every other file alone, and lists it |
| `Store.Save` | UAS.py:89-100 | a save writes exactly one file, named by the save name, which joins the files and the listing if it is not already there; that file reads back as the saved tree, and every other file and listed name is unchanged |
| `Store.PaddedNameIsNotOpened` | UAS.py:83-84 | a listing of only `007.UAS` selects key 7, opens `7.UAS`, and fails with that file missing |
| `Store.SaveThenLoad` | UAS.py:89-100 | a save made later than every listed save is the one the next load selects, and it loads as the saved tree |
| `Store.LatestAfterLargerName` | UAS.py:83 | appending a name whose key beats every listed key makes that key the latest |
| `Store.LoadedListingPrecedes` | UAS.py:83 | after a successful load, a clock past the latest key is past every listed key |
| `Store.SameSecondSavesCollide` | UAS.py:94-98 | two saves within one second write one file, and the second's contents win |
| `Answers.Positives` | UAS.py:43 | the positive vocabulary holds "y" and "yes", and also "o" and "oui" outside main.py (main.py:12) |
| `Answers.Negatives` | UAS.py:44 | the negative vocabulary holds "n" and "no", and also "non" outside main.py (main.py:13) |
| `Answers.VocabulariesAreLowerCase` | UAS.py:43-44 | every vocabulary word is a non-empty run of lower-case ASCII letters |
| `Answers.Accepted` | UAS.py:128 | an accepted token is non-empty and is its own lower case |
| `Answers.VocabulariesDisjoint` | UAS.py:43-44 | no token is both a positive and a negative answer |
| `Answers.Classify` | UAS.py:143-154 | a token is classified exactly when it is in a vocabulary; positive exactly when it is in the positive vocabulary |
| `Answers.LowerChar` | UAS.py:143 | a capital A-Z becomes the lower-case letter the same distance from 'a', and every other character is unchanged |
| `Answers.Lower` | UAS.py:143 | lower-casing keeps the length and lower-cases each character on its own, so no capital remains and no other character changes |
| `Answers.LowerKeepsLowercase` | UAS.py:143 | a text without upper-case letters is its own lower case |
| `Answers.Interpret` | UAS.py:143-149 | main.py classifies the token as typed. For an accepted token, the class `check_answer` gives to its lower case is its exact class, never unclassified |
| `Answers.PrototypeIsCaseSensitive` | main.py:12-13 | main.py classifies "y" and "no" but not "Y" |
| `Answers.UpperCaseIsRejected` | UAS.py:128 | "Y" is not accepted, although its lower case "y" is |
| `Traversal.Descend` | UAS.py:143-154 | a classified answer descends to the child with a count of 0 exactly when the child is occupied, and otherwise grafts on that side of p |
| `Traversal.Step` | UAS.py:128-168 | one step keeps the reachable-state invariant. Asking never changes the tree. A graft step finishes gracefully, adds exactly the child position, and keeps every old prompt |
| `Traversal.Run` | UAS.py:110-168 | a walk over any input keeps the reachable-state invariant |
| `Traversal.AcceptedAnswerStep` | UAS.py:143-154 | an accepted positive (negative) answer at p descends to 2p+2 (2p+1) with the count reset to 0 when that slot is occupied, and otherwise moves to a graft on that side |
| `Traversal.InvalidStreak` | UAS.py:128-135 | a run of invalid tokens re-asks the same position with the count raised by one each time, and ends with TooManyErrors once a token arrives with the count at 2; the tree is unchanged |
| `Traversal.ThirdInvalidTokenEnds` | UAS_TUI.py:112-119 | from a fresh count, two invalid tokens leave the walk asking with count 2, and the third ends it with TooManyErrors |
| `Traversal.PrototypeStopsOnUnmatched` | main.py:61-78 | in main.py an unmatched token ends the walk at once, without retry, with the tree unchanged |
| `Traversal.RunGrowsByAtMostOne` | UAS.py:157-169 | a walk keeps every prompt where it was. It either leaves the tree as it was, or ends gracefully with exactly one new occupied slot, whose parent was occupied |
| `Traversal.UngracefulRunKeepsTree` | UAS.py:130-131 | a walk that finishes other than gracefully leaves the tree unchanged |
| `Traversal.StepSpendsBudget` | UAS.py:130-135 | every step lowers the bound on the tokens still needed |
| `Traversal.RunFinishes` | UAS.py:110-135 | a walk given at least its token bound always finishes |
| `Traversal.SessionIsBounded` | UAS.py:110-135 | a walk from the root finishes within 3·(slot count)+1 tokens |
| `Traversal.NoUnmatchedOutsidePrototype` | UAS.py:128-154 | in UAS.py and UAS_TUI.py `check_answer` never falls through without a class |
| `Traversal.QuestionText` | UAS_TUI.py:104-107 | the root prompt is shown verbatim. Any other prompt is shown between the variant's prefix and suffix ("?" in UAS_TUI.py). main.py shows every prompt with a trailing space |
| `Traversal.TerminalQuestionsEndInQuestionMark` | UAS_TUI.py:107 | every non-root question of UAS_TUI.py ends in "?" |
| `Traversal.PrototypeProbe` | main.py:69-75 | main.py's probe position equals the descent target exactly at the root |
| `Traversal.PrototypeStepAsWritten` | main.py:61-89 | main.py's step as written keeps the tree well formed and asks only about occupied positions |
| `Traversal.ProbeExampleTree` | main.py:69-76 | the counterexample tree (root, 1, and 1's right child 4) is well formed |
| `Traversal.PrototypeProbeOverwrites` | main.py:67-89 | as written, answering "n" then "y" on that tree grafts over the occupied slot 4, replacing "b" |
| `Traversal.CorrectedPrototypeDescends` | main.py:67-76 | with the probe on the real child, the same answers descend to slot 4 |
| `Traversal.AsWrittenAgreesAtRoot` | main.py:69-70 | at the root the as-written step and the corrected step coincide |
| `Traversal.AsWrittenGraftOnAbsentIsGraft` | main.py:86-89 | an as-written graft onto an absent child is the corrected graft |
| `Traversal.Session.constructor` | UAS.py:267-268 | a new session holds the loaded tree and starts asking at the root with no errors |
| `Traversal.Session.Question` | UAS.py:116-119 | the shown question is the question text for the current position |
| `Traversal.Session.Answer` | UAS.py:110-154 | reading one token moves the session state exactly as Step does, and leaves the tree unchanged |
| `Traversal.Session.CreateNode` | UAS.py:157-169 | the graft writes the typed text into the pending child slot in place and finishes gracefully, as Step does |
| `Traversal.Session.Traverse` | UAS.py:275 | the loop leaves the session's tree and state equal to Run of the old ones over the inputs; it stops only when finished or out of input |
| `Controller.EndPolicy` | UAS.py:187-212 | a session restarts exactly outside main.py after a finish other than an unmatched token. UAS.py saves exactly after a graft, UAS_TUI.py after both finishes (UAS_TUI.py:164-173), and main.py never (main.py:90). Every save is followed by a restart. The thank-you notice is shown exactly after a graft outside main.py |
| `Controller.SessionSpec` | UAS.py:262-275 | a session fails exactly when the load fails. When it ends, it closes as the variant's policy says, and the directory has the new save exactly when the policy saves |
| `Controller.RunSession` | UAS.py:262-275 | the imperative session (load, new Session, walk, close) gives exactly SessionSpec |
| `Controller.NoGraftIsLost` | UAS.py:187-212 | in UAS.py and UAS_TUI.py a session that changed the tree saves it; a session that saves nothing leaves both tree and directory as they were |
| `Controller.RestartResumesFromSessionTree` | UAS.py:187-212 | after a restarting session of UAS.py or UAS_TUI.py, the next load (clock past every save) yields the tree the session ended with |
| `Controller.TerminalSavesBothOutcomes` | UAS_TUI.py:164-173 | UAS_TUI.py saves and restarts on both finishes; only the notice differs |
| `Controller.CurrentSavesOnlyAfterGraft` | UAS.py:187-212 | UAS.py restarts after both finishes, saves exactly after a graft, and leaves the directory unchanged after three errors |
| `Controller.PrototypeDropsGraft` | main.py:85-103 | main.py never saves or restarts, even when its walk grafted a new slot |
| `Controller.GraftedRunChangesTree` | main.py:86-90 | a walk that ends gracefully has changed the tree |
| `Controller.FirstGraftScenario` | UAS.py:143-148 | from a root-only tree, "y" then "plays chess" grafts position 2, leaves position 1 absent, saves, and the next load reads the grown tree back |

## Findings

| source | as written | input that shows it | evidently intended | confidence | as-written member | corrected member |
|---|---|---|---|---|---|---|
| main.py:69-75 | `check_answer` probes `TREE[p+2]` / `TREE[p+1]` before it descends to 2p+2 / 2p+1. When the probed slot is absent, `create_node` assigns the child even if that child exists | tree `['root', 'a', None, None, 'b']`, answers "n", "y", then text "c": at position 1 the probe hits the absent slot 3, so "c" replaces "b" at slot 4 and drops its subtree | probe the descent target 2p+2 / 2p+1, as UAS.py:145,151 and UAS_TUI.py:129,135 do | high (not executed) | `Traversal.PrototypeProbeOverwrites` | `Traversal.RunGrowsByAtMostOne` |

`Traversal.PrototypeStepAsWritten` is the as-written step. `Traversal.Step` with the `Prototype`
variant is the corrected step, and the rest of the model uses it. `Traversal.CorrectedPrototypeDescends`
shows that the corrected step reaches slot 4 on the same answers. `Traversal.AsWrittenAgreesAtRoot` and
`Traversal.AsWrittenGraftOnAbsentIsGraft` show where the two steps agree.

## Left out

- Terminal presentation is not modelled: blessed/readchar input, colours, screen clearing, text
  wrapping, the splash screen, `time.sleep`, the `-t` tree print, the dev-mode messages, and the
  invalid-answer notice printed after each rejected token (UAS.py:133, UAS_TUI.py:117). This is UI.
- Flag parsing and the English string tables are not modelled. The French question texts are constants.
  `UAS.py` in English mode has no `QSUFFIX`. The resulting `NameError` at any non-root question is
  caught by `check_answer`'s bare `except`, which then grafts over the existing child. That
  exception-driven path is not modelled.
- Graphviz and SVG export (`render_tree`, `render_svg`) are not modelled. They are rendering and file
  output through a foreign library.
- `os.listdir`, `open`, `write` and `datetime.now` are not modelled. The listing, the file contents and
  the clock reading are inputs. The startup deletion of `.DS_Store` is not modelled, so a listing that
  still contains that file fails here with `NotInteger`.
- `eval`, `build` and `.values` are unseen library code and are not modelled. The model writes and
  reads its own list-literal text instead. `build`'s rejection of a node without a parent is the
  `WellFormed` check in `Load`. `WellFormed` also rejects an empty list and an absent root. `build` accepts
  both and returns no tree, so the program fails only later, at `TREE[0]` in `ask_question`.
- SlotCodec.Decode: accepts only the text Encode writes (backslash escapes for `\` and `'` only).
  Python's `eval` accepts any list literal, and `.values` drops trailing absent slots; neither is modelled.
- Decimal.ParseInt: rejects surrounding whitespace, underscores and non-ASCII digits, all of which
  Python's `int` accepts.
- Answers.Lower: lower-cases ASCII letters only. Python's `str.lower` is full Unicode. The two agree on
  every accepted token, since all vocabulary words are lower-case ASCII.
- Naming.ValidStamp: years are limited to 1000..9999, because `%Y` is not zero-padded below 1000 on
  common C libraries. Day-of-month is not checked against the month.
- In `UAS.py` and `UAS_TUI.py`, `check_answer`'s bare `except` also catches exceptions raised deeper in
  the recursion. Only the intended check-then-graft logic is modelled for these two versions.
- The unbounded restart by re-entering `main()` is not modelled. `SessionSpec` models one session, and
  its `closing.restart` says whether another would start. `RestartResumesFromSessionTree` states what
  that next session loads.
- Reading keystrokes versus whole lines is not modelled: every token is an arbitrary string. The prompt
  text for the new question ("what else makes you unique") is UI.
