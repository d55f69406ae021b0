/**
 * The text a snapshot file holds, in this model's own list-literal format:
 * `['root', None, 'plays chess']`.  Every prompt is quoted with single
 * quotes, and a backslash or a quote inside it is preceded by a backslash.
 * This agrees with Python's `str` of a list on prompts of printable
 * characters that hold no apostrophe, or that hold both kinds of quote.
 * It differs in two ways: Python writes a prompt holding an apostrophe but
 * no double quote in double quotes (`"j'aime"`) where this format writes
 * `'j\'aime'`, and Python escapes control and non-printable characters
 * (a tab as `\t`, ESC as `\x1b`) where this format writes them as they are.
 * Decode is a structured parser for exactly this text.
 */
module SlotCodec {
  import opened Wrappers
  import opened Tree

  const Separator: string := ", "
  const AbsentMark: string := "None"

  function EscapeChar(c: char): string {
    if c == '\\' || c == '\'' then ['\\', c] else [c]
  }

  function Escape(s: string): string {
    if |s| == 0 then "" else EscapeChar(s[0]) + Escape(s[1..])
  }

  function EncodeSlot(x: Option<string>): (s: string)
    ensures |s| >= 2
  {
    match x
    case None => AbsentMark
    case Some(text) => "'" + Escape(text) + "'"
  }

  function EncodeItems(xs: Slots): string
    requires |xs| > 0
  {
    if |xs| == 1 then EncodeSlot(xs[0]) else EncodeSlot(xs[0]) + Separator + EncodeItems(xs[1..])
  }

  /** The whole file contents for a slot sequence. */
  function Encode(xs: Slots): (s: string)
    ensures |s| >= 2 && s[0] == '[' && s[|s| - 1] == ']'
    ensures s == "[]" <==> xs == []
  {
    if |xs| == 0 then "[]" else "[" + EncodeItems(xs) + "]"
  }

  /** The body of a quoted prompt up to its closing quote, and what follows it. */
  function ParseQuoted(s: string): (r: Option<(string, string)>)
    ensures r.Some? ==> |r.value.1| < |s|
  {
    if |s| == 0 then None
    else if s[0] == '\'' then Some(("", s[1..]))
    else if s[0] == '\\' then
      if |s| >= 2 && (s[1] == '\\' || s[1] == '\'') then
        match ParseQuoted(s[2..])
        case None => None
        case Some((body, rest)) => Some(([s[1]] + body, rest))
      else None
    else
      match ParseQuoted(s[1..])
      case None => None
      case Some((body, rest)) => Some(([s[0]] + body, rest))
  }

  /** One slot at the front of s, and what follows it. */
  function ParseSlot(s: string): (r: Option<(Option<string>, string)>)
    ensures r.Some? ==> |r.value.1| < |s|
  {
    if |s| >= 4 && s[..4] == AbsentMark then Some((None, s[4..]))
    else if |s| >= 1 && s[0] == '\'' then
      match ParseQuoted(s[1..])
      case None => None
      case Some((body, rest)) => Some((Some(body), rest))
    else None
  }

  /** A non-empty run of slots separated by ", " and closed by the final "]". */
  function ParseItems(s: string): (r: Option<Slots>)
    ensures r.Some? ==> |r.value| > 0
    decreases |s|
  {
    match ParseSlot(s)
    case None => None
    case Some((x, rest)) =>
      if rest == "]" then Some([x])
      else if |rest| >= 2 && rest[..2] == Separator then
        match ParseItems(rest[2..])
        case None => None
        case Some(xs) => Some([x] + xs)
      else None
  }

  /** The slot sequence written in s, or None when s is not such a text. */
  function Decode(s: string): (r: Option<Slots>)
    ensures r.Some? ==> |s| >= 2 && s[0] == '['
    ensures r == Some([]) <==> s == "[]"
  {
    if s == "[]" then Some([])
    else if |s| >= 1 && s[0] == '[' then ParseItems(s[1..])
    else None
  }

  lemma {:induction false} QuotedRoundTrip(text: string, rest: string)
    ensures ParseQuoted(Escape(text) + "'" + rest) == Some((text, rest))
    decreases |text|
  {
    var s := Escape(text) + "'" + rest;
    if |text| == 0 {
      assert s == "'" + rest;
    } else {
      var c := text[0];
      QuotedRoundTrip(text[1..], rest);
      assert [c] + text[1..] == text;
      if c == '\\' || c == '\'' {
        assert s == ['\\', c] + (Escape(text[1..]) + "'" + rest);
      } else {
        assert s == [c] + (Escape(text[1..]) + "'" + rest);
      }
    }
  }

  lemma SlotRoundTrip(x: Option<string>, rest: string)
    ensures ParseSlot(EncodeSlot(x) + rest) == Some((x, rest))
  {
    var s := EncodeSlot(x) + rest;
    match x
    case None =>
      assert s[..4] == AbsentMark && s[4..] == rest;
    case Some(text) =>
      assert s[0] == '\'';
      assert s[1..] == Escape(text) + "'" + rest;
      QuotedRoundTrip(text, rest);
  }

  lemma {:induction false} ItemsRoundTrip(xs: Slots)
    requires |xs| > 0
    ensures ParseItems(EncodeItems(xs) + "]") == Some(xs)
    decreases |xs|
  {
    if |xs| == 1 {
      SlotRoundTrip(xs[0], "]");
      assert xs == [xs[0]];
    } else {
      var tail := EncodeItems(xs[1..]) + "]";
      assert EncodeItems(xs) + "]" == EncodeSlot(xs[0]) + (Separator + tail);
      SlotRoundTrip(xs[0], Separator + tail);
      assert (Separator + tail)[..2] == Separator && (Separator + tail)[2..] == tail;
      ItemsRoundTrip(xs[1..]);
      assert [xs[0]] + xs[1..] == xs;
    }
  }

  /** Reading back what a save wrote gives the same slot sequence. */
  lemma RoundTrip(xs: Slots)
    ensures Decode(Encode(xs)) == Some(xs)
  {
    if |xs| > 0 {
      var s := Encode(xs);
      assert s[1..] == EncodeItems(xs) + "]";
      assert s != "[]" by {
        assert |s| >= 4;
      }
      ItemsRoundTrip(xs);
    }
  }
}
