/**
 * Snapshot names.  A save is named after the wall-clock time in the
 * `%Y%m%d%H%M%S` pattern plus the `.UAS` extension; the latest save is the
 * file whose prefix before the first '.' has the largest integer value.
 */
module Naming {
  import opened Wrappers
  import opened Decimal

  const SaveExtension: string := ".UAS"

  /** Why no tree could be loaded (in the source each is an uncaught exception). */
  datatype LoadError =
    | EmptyListing            // max() of an empty list
    | NoDot(name: string)     // str.index('.') finds nothing
    | NotInteger(name: string) // int() rejects the prefix
    | FileMissing(name: string) // open() of the reconstructed name fails
    | Corrupt(name: string)     // the contents are not a well-formed slot list

  /** The clock reading that names a save, to one-second resolution. */
  datatype Timestamp = Timestamp(year: nat, month: nat, day: nat, hour: nat, minute: nat, second: nat)

  predicate ValidStamp(ts: Timestamp) {
    && 1000 <= ts.year <= 9999
    && 1 <= ts.month <= 12
    && 1 <= ts.day <= 31
    && ts.hour < 24 && ts.minute < 60 && ts.second < 60
  }

  /** a is strictly later than b, field by field from the year down. */
  predicate Later(a: Timestamp, b: Timestamp) {
    || a.year > b.year
    || (a.year == b.year && a.month > b.month)
    || (a.year == b.year && a.month == b.month && a.day > b.day)
    || (a.year == b.year && a.month == b.month && a.day == b.day && a.hour > b.hour)
    || (a.year == b.year && a.month == b.month && a.day == b.day && a.hour == b.hour && a.minute > b.minute)
    || (a.year == b.year && a.month == b.month && a.day == b.day && a.hour == b.hour && a.minute == b.minute
        && a.second > b.second)
  }

  /** `strftime("%Y%m%d%H%M%S")`. */
  function FormatStamp(ts: Timestamp): (s: string)
    requires ValidStamp(ts)
    ensures |s| == 14 && AllDigits(s)
  {
    Pad(ts.year, 4) + Pad(ts.month, 2) + Pad(ts.day, 2) + Pad(ts.hour, 2) + Pad(ts.minute, 2) + Pad(ts.second, 2)
  }

  /** The integer the fourteen digits of a stamp spell. */
  function StampKey(ts: Timestamp): nat {
    ((((ts.year * 100 + ts.month) * 100 + ts.day) * 100 + ts.hour) * 100 + ts.minute) * 100 + ts.second
  }

  /** The file name `tree_save` writes. */
  function SaveName(ts: Timestamp): (n: string)
    requires ValidStamp(ts)
    ensures |n| == 14 + |SaveExtension| && AllDigits(n[..14]) && n[14..] == SaveExtension
  {
    FormatStamp(ts) + SaveExtension
  }

  /** Python's `s.index(c)` when it succeeds; None when it raises. */
  function FirstIndex(s: string, c: char): (r: Option<nat>)
    ensures r.None? <==> c !in s
    ensures r.Some? ==> r.value < |s| && s[r.value] == c && c !in s[..r.value]
  {
    if |s| == 0 then None
    else if s[0] == c then Some(0)
    else match FirstIndex(s[1..], c)
      case None => None
      case Some(i) => assert s[..i + 1] == [s[0]] + s[1..][..i]; Some(i + 1)
  }

  /** `int(f[:f.index('.')])` for one listed file name. */
  function KeyOf(name: string): (r: Result<int, LoadError>)
    ensures r == Err(NoDot(name)) <==> '.' !in name
  {
    match FirstIndex(name, '.')
    case None => Err(NoDot(name))
    case Some(i) =>
      match ParseInt(name[..i])
      case None => Err(NotInteger(name))
      case Some(k) => Ok(k)
  }

  /** When the first '.' of a name is at i, its key is the integer the text before i spells. */
  lemma KeyOfFirstDot(name: string, i: nat)
    requires i < |name| && name[i] == '.' && '.' !in name[..i]
    ensures KeyOf(name).Ok? <==> ParseInt(name[..i]).Some?
    ensures KeyOf(name).Ok? ==> ParseInt(name[..i]) == Some(KeyOf(name).value)
    ensures KeyOf(name).Err? ==> KeyOf(name) == Err(NotInteger(name))
  {
  }

  /**
   * The list comprehension over the directory listing: all keys in listing
   * order, or the error of the first name that has none.
   */
  function Keys(names: seq<string>): (r: Result<seq<int>, LoadError>)
    ensures r.Ok? <==> forall i :: 0 <= i < |names| ==> KeyOf(names[i]).Ok?
    ensures r.Ok? ==> |r.value| == |names| && forall i :: 0 <= i < |names| ==> KeyOf(names[i]) == Ok(r.value[i])
    ensures r.Err? ==> exists i :: 0 <= i < |names| && KeyOf(names[i]) == Err(r.error)
                                   && forall j :: 0 <= j < i ==> KeyOf(names[j]).Ok?
  {
    if |names| == 0 then Ok([])
    else match KeyOf(names[0])
      case Err(e) => Err(e)
      case Ok(k) =>
        match Keys(names[1..])
        case Err(e) =>
          ghost var i :| 0 <= i < |names[1..]| && KeyOf(names[1..][i]) == Err(e)
                         && forall j :: 0 <= j < i ==> KeyOf(names[1..][j]).Ok?;
          assert KeyOf(names[i + 1]) == Err(e);
          assert forall j :: 0 <= j < i + 1 ==> KeyOf(names[j]).Ok? by {
            forall j | 0 <= j < i + 1 ensures KeyOf(names[j]).Ok? {
              if j > 0 { assert names[j] == names[1..][j - 1]; }
            }
          }
          Err(e)
        case Ok(ks) =>
          assert forall i :: 0 < i < |names| ==> names[i] == names[1..][i - 1];
          Ok([k] + ks)
  }

  /** Python's `max` of a non-empty list of ints. */
  function MaxOf(ks: seq<int>): (m: int)
    requires |ks| > 0
    ensures m in ks
    ensures forall i :: 0 <= i < |ks| ==> ks[i] <= m
  {
    if |ks| == 1 then ks[0]
    else
      var rest := MaxOf(ks[1..]);
      assert forall i :: 1 <= i < |ks| ==> ks[i] == ks[1..][i - 1];
      if ks[0] >= rest then ks[0] else rest
  }

  /** The largest key among the listed names, as `tree_load` computes it. */
  function LatestKey(names: seq<string>): (r: Result<int, LoadError>)
    ensures r.Ok? <==> |names| > 0 && forall i :: 0 <= i < |names| ==> KeyOf(names[i]).Ok?
    ensures r.Ok? ==> exists i :: 0 <= i < |names| && KeyOf(names[i]) == Ok(r.value)
    ensures r.Ok? ==> forall i :: 0 <= i < |names| ==> KeyOf(names[i]).value <= r.value
    ensures |names| == 0 ==> r == Err(EmptyListing)
  {
    match Keys(names)
    case Err(e) => Err(e)
    case Ok(ks) =>
      if |ks| == 0 then Err(EmptyListing)
      else
        var m := MaxOf(ks);
        ghost var i :| 0 <= i < |ks| && ks[i] == m;
        assert KeyOf(names[i]) == Ok(m);
        Ok(m)
  }

  /**
   * The name `tree_load` opens: the largest key turned back into text, plus
   * the extension.  It is rebuilt from the key, not taken from the listing.
   */
  function LatestName(names: seq<string>): (r: Result<string, LoadError>)
    ensures r.Ok? <==> LatestKey(names).Ok?
    ensures r.Ok? ==> KeyOf(r.value) == LatestKey(names)
    ensures r.Ok? ==> r.value == IntToString(LatestKey(names).value) + SaveExtension
  {
    match LatestKey(names)
    case Err(e) => Err(e)
    case Ok(k) =>
      var name := IntToString(k) + SaveExtension;
      assert KeyOf(name) == Ok(k) by { KeyOfRebuiltName(k); }
      Ok(name)
  }

  lemma KeyOfRebuiltName(k: int)
    ensures KeyOf(IntToString(k) + SaveExtension) == Ok(k)
  {
    var s := IntToString(k);
    var name := s + SaveExtension;
    assert '.' !in s by {
      if k < 0 { assert s == "-" + NatDigits(-k); assert forall i :: 1 <= i < |s| ==> s[i] == NatDigits(-k)[i - 1]; }
    }
    FirstDotAfter(s, SaveExtension);
    assert name[..|s|] == s;
    IntRoundTrip(k);
  }

  lemma FirstDotAfter(s: string, ext: string)
    requires '.' !in s && |ext| > 0 && ext[0] == '.'
    ensures FirstIndex(s + ext, '.') == Some(|s|)
  {
    assert (s + ext)[|s|] == '.';
    assert (s + ext)[..|s|] == s;
  }

  /** The fourteen digits of a save name are the decimal spelling of its key. */
  lemma StampSpellsKey(ts: Timestamp)
    requires ValidStamp(ts)
    ensures IntToString(StampKey(ts)) == FormatStamp(ts)
  {
    assert Pow10(2) == 100;
    assert Pow10(3) == 1000 && Pow10(4) == 10000;
    PadFullWidth(ts.year, 4);
    var k1 := ts.year;
    var k2 := k1 * 100 + ts.month;
    var k3 := k2 * 100 + ts.day;
    var k4 := k3 * 100 + ts.hour;
    var k5 := k4 * 100 + ts.minute;
    DigitsOfShifted(k1, ts.month, 2);
    DigitsOfShifted(k2, ts.day, 2);
    DigitsOfShifted(k3, ts.hour, 2);
    DigitsOfShifted(k4, ts.minute, 2);
    DigitsOfShifted(k5, ts.second, 2);
  }

  /** Parsing the prefix of a save name gives back its stamp's key. */
  lemma KeyOfSaveName(ts: Timestamp)
    requires ValidStamp(ts)
    ensures KeyOf(SaveName(ts)) == Ok(StampKey(ts))
    ensures IntToString(StampKey(ts)) + SaveExtension == SaveName(ts)
  {
    StampSpellsKey(ts);
    KeyOfRebuiltName(StampKey(ts));
  }

  /** Save names order like the times they record, in both directions. */
  lemma LaterIffLargerKey(a: Timestamp, b: Timestamp)
    requires ValidStamp(a) && ValidStamp(b)
    ensures Later(a, b) <==> StampKey(a) > StampKey(b)
    ensures StampKey(a) == StampKey(b) <==> a == b
  {
    KeyStep(a.year, a.month, b.year, b.month);
    var a2, b2 := a.year * 100 + a.month, b.year * 100 + b.month;
    KeyStep(a2, a.day, b2, b.day);
    var a3, b3 := a2 * 100 + a.day, b2 * 100 + b.day;
    KeyStep(a3, a.hour, b3, b.hour);
    var a4, b4 := a3 * 100 + a.hour, b3 * 100 + b.hour;
    KeyStep(a4, a.minute, b4, b.minute);
    var a5, b5 := a4 * 100 + a.minute, b4 * 100 + b.minute;
    KeyStep(a5, a.second, b5, b.second);
  }

  lemma KeyStep(x1: nat, y1: nat, x2: nat, y2: nat)
    requires y1 < 100 && y2 < 100
    ensures x1 * 100 + y1 > x2 * 100 + y2 <==> x1 > x2 || (x1 == x2 && y1 > y2)
    ensures x1 * 100 + y1 == x2 * 100 + y2 <==> x1 == x2 && y1 == y2
  {
  }

  /** The four-file listing of keys 7, 42, 100 and 3 selects the save keyed 100. */
  lemma SelectsLargestKey()
    ensures LatestName(["7.UAS", "42.UAS", "100.UAS", "3.UAS"]) == Ok("100.UAS")
  {
    KeySeven(); KeyThree(); KeyFortyTwo(); KeyHundred(); SpellHundred();
    LatestOfListing("7.UAS", "42.UAS", "100.UAS", "3.UAS");
  }

  lemma LatestOfListing(a: string, b: string, c: string, d: string)
    requires KeyOf(a) == Ok(7) && KeyOf(b) == Ok(42) && KeyOf(c) == Ok(100) && KeyOf(d) == Ok(3)
    ensures LatestKey([a, b, c, d]) == Ok(100)
    ensures LatestName([a, b, c, d]) == Ok(IntToString(100) + SaveExtension)
  {
    var names := [a, b, c, d];
    assert KeyOf(names[0]) == Ok(7) && KeyOf(names[1]) == Ok(42);
    assert KeyOf(names[2]) == Ok(100) && KeyOf(names[3]) == Ok(3);
  }

  /** Decimal spellings used by the concrete listings below. */
  lemma KeySeven() ensures KeyOf("7.UAS") == Ok(7) { SpellOneDigit(7); KeyOfRebuiltName(7); }
  lemma KeyThree() ensures KeyOf("3.UAS") == Ok(3) { SpellOneDigit(3); KeyOfRebuiltName(3); }
  lemma KeyFortyTwo() ensures KeyOf("42.UAS") == Ok(42) { SpellFortyTwo(); KeyOfRebuiltName(42); }
  lemma KeyHundred() ensures KeyOf("100.UAS") == Ok(100) { SpellHundred(); KeyOfRebuiltName(100); }

  /** `int("007")` is 7: the leading zeros of a listed name are ignored. */
  lemma KeyOfPadded()
    ensures KeyOf("007.UAS") == Ok(7)
  {
    var digits := "007";
    assert digits == "0" + ("0" + "7");
    assert ParseDigits("7") == 7 by { assert "7"[..0] == ""; }
    LeadingZero("7");
    LeadingZero("07");
    assert '.' !in digits;
    FirstDotAfter(digits, SaveExtension);
    assert (digits + SaveExtension)[..3] == digits;
    assert digits + SaveExtension == "007.UAS";
  }

  /** A one-name listing selects that name's key. */
  lemma LatestOfSingle(name: string, k: int)
    requires KeyOf(name) == Ok(k)
    ensures LatestKey([name]) == Ok(k)
  {
    assert [name][0] == name;
  }

  lemma SpellOneDigit(d: nat)
    requires d == 3 || d == 7
    ensures IntToString(d) + SaveExtension == [if d == 3 then '3' else '7'] + ".UAS"
    ensures IntToString(d) + SaveExtension == if d == 3 then "3.UAS" else "7.UAS"
  {
    assert DigitChar(3) == '3' && DigitChar(7) == '7';
  }

  lemma SpellFortyTwo()
    ensures IntToString(42) + SaveExtension == "42.UAS"
  {
    assert DigitChar(4) == '4' && DigitChar(2) == '2';
    assert NatDigits(42) == NatDigits(4) + [DigitChar(2)];
  }

  lemma SpellHundred()
    ensures IntToString(100) + SaveExtension == "100.UAS"
  {
    assert DigitChar(0) == '0' && DigitChar(1) == '1';
    assert NatDigits(10) == NatDigits(1) + [DigitChar(0)];
  }

  /** A name without a '.' or with a non-numeric prefix makes the whole load fail. */
  lemma MalformedNamesFail()
    ensures LatestKey([]) == Err(EmptyListing)
    ensures LatestKey(["7.UAS", "notes"]) == Err(NoDot("notes"))
    ensures LatestKey(["v1.UAS", "7.UAS"]) == Err(NotInteger("v1.UAS"))
  {
    KeySeven();
    KeyNoDot();
    KeyNotInteger();
    FirstBadNameWins("7.UAS", "notes");
    FirstBadNameWins("v1.UAS", "7.UAS");
  }

  lemma KeyNoDot()
    ensures KeyOf("notes") == Err(NoDot("notes"))
  {
    assert '.' !in "notes";
  }

  lemma KeyNotInteger()
    ensures KeyOf("v1.UAS") == Err(NotInteger("v1.UAS"))
  {
    FirstDotAfter("v1", SaveExtension);
    assert "v1.UAS" == "v1" + SaveExtension;
    assert "v1.UAS"[..2] == "v1";
    assert !IsDigit('v');
  }

  /** The load fails with the error of the first listed name that has no key. */
  lemma FirstBadNameWins(a: string, b: string)
    requires KeyOf(a).Err? || KeyOf(b).Err?
    ensures LatestKey([a, b]) == Err(if KeyOf(a).Err? then KeyOf(a).error else KeyOf(b).error)
  {
    assert [a, b][1..] == [b];
  }
}
