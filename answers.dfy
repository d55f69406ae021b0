/**
 * Answer classification.  The three program variants share the walk but
 * differ in their vocabularies and in how a token is accepted:
 * UAS.py (Current) and UAS_TUI.py (Terminal) accept a token only if it is
 * exactly in a vocabulary and then classify its lower-cased form;
 * main.py (Prototype) classifies the token exactly and has no acceptance step.
 */
module Answers {
  import opened Tree

  datatype Variant = Current | Terminal | Prototype

  datatype Class = Answered(side: Side) | Invalid

  function Positives(v: Variant): (ws: seq<string>)
    ensures "y" in ws && "yes" in ws
    ensures v != Prototype ==> "o" in ws && "oui" in ws
  {
    if v == Prototype then ["y", "yes"] else ["y", "yes", "o", "oui"]
  }

  function Negatives(v: Variant): (ws: seq<string>)
    ensures "n" in ws && "no" in ws
    ensures v != Prototype ==> "non" in ws
  {
    if v == Prototype then ["n", "no"] else ["n", "no", "non"]
  }

  /** No token belongs to both vocabularies, so its class is unambiguous. */
  lemma VocabulariesDisjoint(v: Variant)
    ensures forall w :: w in Positives(v) ==> w !in Negatives(v)
  {
  }

  /** `answer in POSITIVEANSWERS or answer in NEGATIVEANSWERS` (exact membership). */
  predicate Accepted(v: Variant, token: string)
    ensures Accepted(v, token) ==> |token| > 0 && Lower(token) == token
  {
    assert token in Positives(v) + Negatives(v) ==> Lower(token) == token by {
      VocabulariesAreLowerCase(v);
      if token in Positives(v) + Negatives(v) { LowerKeepsLowercase(token); }
    }
    token in Positives(v) || token in Negatives(v)
  }

  /** The positive vocabulary is tried first, then the negative one. */
  function Classify(v: Variant, token: string): (c: Class)
    ensures c.Answered? <==> Accepted(v, token)
    ensures c == Answered(Positive) <==> token in Positives(v)
    ensures c == Answered(Negative) ==> token in Negatives(v)
  {
    if token in Positives(v) then Answered(Positive)
    else if token in Negatives(v) then Answered(Negative)
    else Invalid
  }

  predicate IsUpper(c: char) {
    'A' <= c <= 'Z'
  }

  function LowerChar(c: char): (r: char)
    ensures !IsUpper(r)
    ensures !IsUpper(c) ==> r == c
    ensures IsUpper(c) ==> 'a' <= r <= 'z' && r as int - c as int == 'a' as int - 'A' as int
  {
    if IsUpper(c) then (c as int - 'A' as int + 'a' as int) as char else c
  }

  /** `str.lower()` on the ASCII letters. */
  function Lower(s: string): (r: string)
    ensures |r| == |s|
    ensures forall i :: 0 <= i < |s| ==> !IsUpper(r[i]) && (!IsUpper(s[i]) ==> r[i] == s[i])
    ensures forall i :: 0 <= i < |s| ==> r[i] == LowerChar(s[i])
  {
    if |s| == 0 then "" else [LowerChar(s[0])] + Lower(s[1..])
  }

  /** Every vocabulary word is a non-empty run of lower-case ASCII letters. */
  lemma VocabulariesAreLowerCase(v: Variant)
    ensures forall w :: w in Positives(v) + Negatives(v) ==> |w| > 0 && forall i :: 0 <= i < |w| ==> 'a' <= w[i] <= 'z'
  {
  }

  /**
   * The class `check_answer` gives a token that reached it.  main.py matches
   * the token as typed; the other versions match its lower case, which for
   * an accepted token is the token itself, since every vocabulary word is
   * lower case.
   */
  function Interpret(v: Variant, token: string): (c: Class)
    ensures v == Prototype ==> c == Classify(v, token)
    ensures Accepted(v, token) ==> c == Classify(v, token) && c.Answered?
  {
    if v == Prototype then Classify(v, token)
    else Classify(v, Lower(token))
  }

  lemma LowerKeepsLowercase(s: string)
    requires forall i :: 0 <= i < |s| ==> !IsUpper(s[i])
    ensures Lower(s) == s
  {
  }

  /** main.py matches exactly: an upper-case "Y" is no answer there. */
  lemma PrototypeIsCaseSensitive()
    ensures Classify(Prototype, "Y") == Invalid
    ensures Classify(Prototype, "y") == Answered(Positive)
    ensures Classify(Prototype, "no") == Answered(Negative)
  {
  }

  /** UAS.py and UAS_TUI.py reject "Y" at the acceptance step, even though its lower case is "y". */
  lemma UpperCaseIsRejected(v: Variant)
    requires v != Prototype
    ensures !Accepted(v, "Y")
    ensures Lower("Y") == "y" && Accepted(v, "y")
  {
  }
}
