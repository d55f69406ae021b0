/**
 * The snapshot directory: `tree_load` picks the latest save and parses it,
 * `tree_save` writes a new file named after the clock.  The listing and
 * the clock reading are inputs; the directory is a value.
 */
module Store {
  import opened Wrappers
  import opened Tree
  import opened Naming
  import opened SlotCodec

  /** The listing in the order the file system returns it, and each file's text. */
  datatype Directory = Directory(names: seq<string>, files: map<string, string>)

  /**
   * `tree_load`: select the latest name, open it, parse it and build the
   * tree (which must be well formed, as `build` demands).
   */
  function Load(d: Directory): (r: Result<Slots, LoadError>)
    ensures r.Ok? ==> WellFormed(r.value)
    ensures r.Ok? <==> (&& LatestName(d.names).Ok?
                        && LatestName(d.names).value in d.files
                        && Decode(d.files[LatestName(d.names).value]).Some?
                        && WellFormed(Decode(d.files[LatestName(d.names).value]).value))
    ensures r.Ok? ==> Decode(d.files[LatestName(d.names).value]) == Some(r.value)
  {
    match LatestName(d.names)
    case Err(e) => Err(e)
    case Ok(name) =>
      if name !in d.files then Err(FileMissing(name))
      else match Decode(d.files[name])
        case None => Err(Corrupt(name))
        case Some(t) => if WellFormed(t) then Ok(t) else Err(Corrupt(name))
  }

  /** `open(name, "w").write(content)`: creates the file or replaces its contents. */
  function Write(d: Directory, name: string, content: string): (r: Directory)
    ensures name in r.names && name in r.files && r.files[name] == content
    ensures forall n :: n in d.files && n != name ==> n in r.files && r.files[n] == d.files[n]
    ensures r.files.Keys == d.files.Keys + {name}
    ensures forall n :: n in r.names <==> n in d.names || n == name
  {
    Directory(if name in d.names then d.names else d.names + [name], d.files[name := content])
  }

  /**
   * The opened name is rebuilt from the key, so a listed save whose name
   * has a leading zero is not the file that is opened: the listing
   * `["007.UAS"]` selects key 7 and looks for `7.UAS`, which is missing.
   */
  lemma PaddedNameIsNotOpened(content: string)
    ensures Load(Directory(["007.UAS"], map["007.UAS" := content])) == Err(FileMissing("7.UAS"))
  {
    KeyOfPadded();
    LatestOfSingle("007.UAS", 7);
    SpellOneDigit(7);
    assert LatestName(["007.UAS"]) == Ok("7.UAS");
    assert |"7.UAS"| != |"007.UAS"|;
  }

  /** `tree_save`: the slot list, written under the name the clock gives. */
  function Save(d: Directory, now: Timestamp, t: Slots): (r: Directory)
    requires ValidStamp(now)
    ensures SaveName(now) in r.names && SaveName(now) in r.files
    ensures Decode(r.files[SaveName(now)]) == Some(t)
    ensures forall n :: n in d.files && n != SaveName(now) ==> n in r.files && r.files[n] == d.files[n]
    ensures forall n :: n in d.names ==> n in r.names
    ensures r.files.Keys == d.files.Keys + {SaveName(now)}
    ensures forall n :: n in r.names <==> n in d.names || n == SaveName(now)
  {
    RoundTrip(t);
    Write(d, SaveName(now), Encode(t))
  }

  /**
   * A save made at a time later than every listed save is the one the
   * next load selects, and it reads back as the tree that was saved.
   */
  lemma SaveThenLoad(d: Directory, now: Timestamp, t: Slots)
    requires WellFormed(t) && ValidStamp(now)
    requires forall i :: 0 <= i < |d.names| ==> KeyOf(d.names[i]).Ok? && KeyOf(d.names[i]).value < StampKey(now)
    ensures LatestName(Save(d, now, t).names) == Ok(SaveName(now))
    ensures Load(Save(d, now, t)) == Ok(t)
  {
    var name := SaveName(now);
    KeyOfSaveName(now);
    var d' := Save(d, now, t);
    assert name !in d.names;
    assert d'.names == d.names + [name];
    LatestAfterLargerName(d.names, name, StampKey(now));
    assert LatestName(d'.names) == Ok(name);
    assert d'.files[name] == Encode(t);
    RoundTrip(t);
  }

  /** Appending a name whose key beats every listed key makes that key the latest. */
  lemma LatestAfterLargerName(names: seq<string>, name: string, k: int)
    requires KeyOf(name) == Ok(k)
    requires forall i :: 0 <= i < |names| ==> KeyOf(names[i]).Ok? && KeyOf(names[i]).value < k
    ensures LatestKey(names + [name]) == Ok(k)
  {
    var names' := names + [name];
    assert forall i :: 0 <= i < |names'| ==> KeyOf(names'[i]).Ok? && KeyOf(names'[i]).value <= k;
    assert KeyOf(names'[|names|]) == Ok(k);
  }

  /** The listing condition of SaveThenLoad follows from a successful load and a later clock. */
  lemma LoadedListingPrecedes(d: Directory, now: Timestamp)
    requires Load(d).Ok? && LatestKey(d.names).value < StampKey(now)
    ensures forall i :: 0 <= i < |d.names| ==> KeyOf(d.names[i]).Ok? && KeyOf(d.names[i]).value < StampKey(now)
  {
  }

  /**
   * Two saves within the same second share one name: the second replaces
   * the first and the listing does not grow.
   */
  lemma SameSecondSavesCollide(d: Directory, now: Timestamp, t1: Slots, t2: Slots)
    requires ValidStamp(now)
    ensures Save(Save(d, now, t1), now, t2).names == Save(d, now, t1).names
    ensures Save(Save(d, now, t1), now, t2).files[SaveName(now)] == Encode(t2)
  {
  }
}
