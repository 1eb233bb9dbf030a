/** The mover and the scan loop. The file system is abstracted as the set of
    file names held by each directory; the watched directory's listing is a
    sequence of entries, each with a name, a regular-file flag and a size. */
module Organizer {
  import opened Names
  import opened Resolver
  import opened Rules

  /** One entry of the watched directory's listing. */
  datatype Entry = Entry(name: string, isFile: bool, size: nat)

  /** Why a move did not happen: the source file is no longer in the watched
      directory, or the platform refused the move (permissions, a
      cross-device copy that failed, ...). */
  datatype MoveError = SourceVanished | MoveFault

  datatype MoveOutcome = Moved(finalName: string) | Failed(error: MoveError)

  type Dirs = map<Dir, set<string>>

  /** Every directory, source and destinations, has a listing. */
  predicate Complete(dirs: Dirs)
  {
    forall d: Dir :: d in dirs
  }

  /** The number of files in all eight directories together. */
  function Total(dirs: Dirs): nat
    requires Complete(dirs)
  {
    |dirs[SourceDir]| + |dirs[SfxDir]| + |dirs[MusicDir]| + |dirs[VideoDir]| +
    |dirs[ImageDir]| + |dirs[DocumentsDir]| + |dirs[StlDir]| + |dirs[SolidworksDir]|
  }

  /** The outcome of `move_file(dest, entry, name)`: the file named
      `src` leaves the watched directory under the resolver's name for
      `name`, unless it is gone already or the platform refuses. */
  function MoveOutcomeOf(dirs: Dirs, dest: Dir, src: string, name: string, fault: bool): MoveOutcome
    requires Complete(dirs)
  {
    if src !in dirs[SourceDir] then Failed(SourceVanished)
    else if fault then Failed(MoveFault)
    else Moved(UniqueName(dirs[dest], name))
  }

  /** The directories after `move_file(dest, entry, name)`. */
  function AfterMove(dirs: Dirs, dest: Dir, src: string, name: string, fault: bool): (r: Dirs)
    requires Complete(dirs) && dest != SourceDir
    ensures Complete(r)
  {
    match MoveOutcomeOf(dirs, dest, src, name, fault)
    case Moved(final) => dirs[SourceDir := dirs[SourceDir] - {src}][dest := dirs[dest] + {final}]
    case Failed(_) => dirs
  }

  /** Taking a present name out of the watched directory and adding a
      fresh name to a destination keeps the number of files. */
  lemma RelocateKeepsTotal(dirs: Dirs, dest: Dir, src: string, final: string)
    requires Complete(dirs) && dest != SourceDir
    requires src in dirs[SourceDir] && final !in dirs[dest]
    ensures Total(dirs[SourceDir := dirs[SourceDir] - {src}][dest := dirs[dest] + {final}]) == Total(dirs)
  {
    var r := dirs[SourceDir := dirs[SourceDir] - {src}][dest := dirs[dest] + {final}];
    assert |r[SourceDir]| == |dirs[SourceDir]| - 1;
    assert |r[dest]| == |dirs[dest]| + 1;
  }

  /** What one move does. On success the watched directory loses exactly
      the moved name and the destination gains exactly one name it did not
      hold (the proposed name itself when that was free); on failure nothing
      changes. No other directory is touched either way. */
  lemma MoveEffect(dirs: Dirs, dest: Dir, src: string, name: string, fault: bool)
    requires Complete(dirs) && dest != SourceDir
    ensures var r := AfterMove(dirs, dest, src, name, fault);
      (forall d :: d != SourceDir && d != dest ==> r[d] == dirs[d]) &&
      match MoveOutcomeOf(dirs, dest, src, name, fault)
      case Moved(final) =>
        src in dirs[SourceDir] && !fault && final !in dirs[dest] &&
        (name !in dirs[dest] ==> final == name) &&
        r[SourceDir] == dirs[SourceDir] - {src} && r[dest] == dirs[dest] + {final}
      case Failed(_) =>
        (src !in dirs[SourceDir] || fault) && r == dirs
  {
  }

  /** A move never loses a file and never overwrites one: the number of
      files over all directories stays the same. */
  lemma MoveKeepsTotal(dirs: Dirs, dest: Dir, src: string, name: string, fault: bool)
    requires Complete(dirs) && dest != SourceDir
    ensures Total(AfterMove(dirs, dest, src, name, fault)) == Total(dirs)
  {
    match MoveOutcomeOf(dirs, dest, src, name, fault)
    case Moved(final) =>
      RelocateKeepsTotal(dirs, dest, src, final);
    case Failed(_) =>
  }

  /** What `check_<category>_files(entry, name)` does: if the name ends in
      one of the category's extensions, move the entry to the category's
      destination. */
  function CheckResult(dirs: Dirs, entry: Entry, name: string, c: Category, fault: bool): (r: Dirs)
    requires Complete(dirs)
    ensures Complete(r)
  {
    if Matches(name, c) then AfterMove(dirs, Route(c, name, entry.size), entry.name, name, fault)
    else dirs
  }

  /** The six checkers as the scan runs them on a regular file, in order,
      each whether or not an earlier one moved the file. Checker c of entry
      i fails on the platform's side when (i, c) is in `faults`. */
  function RunCheckers(dirs: Dirs, entry: Entry, i: nat, faults: set<(nat, Category)>): (r: Dirs)
    requires Complete(dirs)
    ensures Complete(r)
  {
    var d1 := CheckResult(dirs, entry, entry.name, Audio, (i, Audio) in faults);
    var d2 := CheckResult(d1, entry, entry.name, Video, (i, Video) in faults);
    var d3 := CheckResult(d2, entry, entry.name, Image, (i, Image) in faults);
    var d4 := CheckResult(d3, entry, entry.name, Document, (i, Document) in faults);
    var d5 := CheckResult(d4, entry, entry.name, Stl, (i, Stl) in faults);
    CheckResult(d5, entry, entry.name, Solidworks, (i, Solidworks) in faults)
  }

  /** Classify-once handling of entry i: skip anything but a regular file,
      classify it once, and move it to its category's destination. */
  function Step(dirs: Dirs, entry: Entry, i: nat, faults: set<(nat, Category)>): (r: Dirs)
    requires Complete(dirs)
    ensures Complete(r)
  {
    if !entry.isFile then dirs
    else match Classify(entry.name)
      case None => dirs
      case Some(c) => AfterMove(dirs, Route(c, entry.name, entry.size), entry.name, entry.name, (i, c) in faults)
  }

  /** Running all six checkers is the same as classifying once: the tables
      are suffix-disjoint, so at most one checker fires. */
  lemma CheckersAgreeWithClassify(dirs: Dirs, entry: Entry, i: nat, faults: set<(nat, Category)>)
    requires Complete(dirs) && entry.isFile
    ensures RunCheckers(dirs, entry, i, faults) == Step(dirs, entry, i, faults)
  {
    var name := entry.name;
    match Classify(name)
    case None =>
      ClassifyExact(name, Audio);
    case Some(c) =>
      forall c' | c' != c
        ensures !Matches(name, c')
      {
        if Matches(name, c') {
          ClassifyExact(name, c);
          AtMostOneCategory(name, c, c');
        }
      }
  }

  /** One scan step on a regular file with an audio extension: the SFX
      directory gains a name exactly when the move succeeds and the file is
      short or marked "SFX" (in any case); the music directory gains one
      exactly when the move succeeds and the file is neither. The name
      gained is the collision-free one. */
  lemma AudioStep(dirs: Dirs, e: Entry, i: nat, faults: set<(nat, Category)>)
    requires Complete(dirs) && e.isFile && Matches(e.name, Audio)
    ensures var r := Step(dirs, e, i, faults);
      var moved := e.name in dirs[SourceDir] && (i, Audio) !in faults;
      var short := e.size < SfxSizeLimit || Contains(Upper(e.name), "SFX");
      (r[SfxDir] != dirs[SfxDir] <==> moved && short) &&
      (r[MusicDir] != dirs[MusicDir] <==> moved && !short) &&
      (moved && short ==> r[SfxDir] == dirs[SfxDir] + {UniqueName(dirs[SfxDir], e.name)}) &&
      (moved && !short ==> r[MusicDir] == dirs[MusicDir] + {UniqueName(dirs[MusicDir], e.name)})
  {
    var dest := Route(Audio, e.name, e.size);
    var fault := (i, Audio) in faults;
    MoveEffect(dirs, dest, e.name, e.name, fault);
    var r := Step(dirs, e, i, faults);
    assert r == AfterMove(dirs, dest, e.name, e.name, fault);
    if e.name in dirs[SourceDir] && !fault {
      var final := UniqueName(dirs[dest], e.name);
      assert final in r[dest] && final !in dirs[dest];
    }
  }

  /** The directories after the scan has handled every entry of the listing
      in order. */
  function Scan(dirs: Dirs, entries: seq<Entry>, faults: set<(nat, Category)>): (r: Dirs)
    requires Complete(dirs)
    ensures Complete(r)
  {
    if |entries| == 0 then dirs
    else
      var n := |entries| - 1;
      Step(Scan(dirs, entries[..n], faults), entries[n], n, faults)
  }

  /** The names of the entries the classifier routes somewhere. */
  function Routed(entries: seq<Entry>): set<string>
  {
    set e | e in entries && e.isFile && Classify(e.name).Some? :: e.name
  }

  /** A scan never loses a file and never overwrites one. */
  lemma {:induction false} ScanKeepsTotal(dirs: Dirs, entries: seq<Entry>, faults: set<(nat, Category)>)
    requires Complete(dirs)
    ensures Total(Scan(dirs, entries, faults)) == Total(dirs)
  {
    if |entries| > 0 {
      var n := |entries| - 1;
      ScanKeepsTotal(dirs, entries[..n], faults);
      var mid := Scan(dirs, entries[..n], faults);
      var e := entries[n];
      if e.isFile && Classify(e.name).Some? {
        var c := Classify(e.name).value;
        MoveKeepsTotal(mid, Route(c, e.name, e.size), e.name, e.name, (n, c) in faults);
      }
    }
  }

  /** The watched directory only ever loses names, and only names of
      entries the classifier routes; destination directories only grow. */
  lemma {:induction false} ScanBounds(dirs: Dirs, entries: seq<Entry>, faults: set<(nat, Category)>)
    requires Complete(dirs)
    ensures var r := Scan(dirs, entries, faults);
      dirs[SourceDir] - Routed(entries) <= r[SourceDir] <= dirs[SourceDir] &&
      forall d :: d != SourceDir ==> dirs[d] <= r[d]
  {
    if |entries| > 0 {
      var n := |entries| - 1;
      var prefix := entries[..n];
      ScanBounds(dirs, prefix, faults);
      var mid := Scan(dirs, prefix, faults);
      var e := entries[n];
      assert entries == prefix + [e];
      assert Routed(prefix) <= Routed(entries);
      if e.isFile && Classify(e.name).Some? {
        var c := Classify(e.name).value;
        MoveEffect(mid, Route(c, e.name, e.size), e.name, e.name, (n, c) in faults);
        assert e.name in Routed(entries);
      }
    }
  }

  /** A routed regular file whose own move does not fail on the platform's
      side has left the watched directory once the scan is over, whatever
      happened to the other entries. */
  lemma {:induction false} ScanMovesRoutedFile(dirs: Dirs, entries: seq<Entry>, faults: set<(nat, Category)>, k: nat, c: Category)
    requires Complete(dirs) && k < |entries|
    requires entries[k].isFile && Classify(entries[k].name) == Some(c)
    requires (k, c) !in faults
    ensures entries[k].name !in Scan(dirs, entries, faults)[SourceDir]
  {
    var n := |entries| - 1;
    var prefix := entries[..n];
    if k == n {
      var e := entries[n];
      MoveEffect(Scan(dirs, prefix, faults), Route(c, e.name, e.size), e.name, e.name, false);
    } else {
      ScanMovesRoutedFile(dirs, prefix, faults, k, c);
      ScanBounds(Scan(dirs, prefix, faults), [entries[n]], faults);
      var mid := Scan(dirs, prefix, faults);
      assert Scan(mid, [entries[n]], faults) == Step(mid, entries[n], 0, faults);
    }
  }

  /** Entries that are not regular files, and files no table matches, stay
      in the watched directory (names in one listing are distinct). */
  lemma ScanLeavesUnrouted(dirs: Dirs, entries: seq<Entry>, faults: set<(nat, Category)>, k: nat)
    requires Complete(dirs) && k < |entries|
    requires forall i, j :: 0 <= i < j < |entries| ==> entries[i].name != entries[j].name
    requires !entries[k].isFile || Classify(entries[k].name) == None
    requires entries[k].name in dirs[SourceDir]
    ensures entries[k].name in Scan(dirs, entries, faults)[SourceDir]
  {
    ScanBounds(dirs, entries, faults);
  }

  /** The watched directory and the seven destinations, as the organizer
      changes them. */
  class Downloads {
    var dirs: Dirs

    ghost predicate Valid()
      reads this
    {
      Complete(dirs)
    }

    constructor (initial: Dirs)
      requires Complete(initial)
      ensures Valid() && dirs == initial
    {
      dirs := initial;
    }

    /** `move_file`: resolve a collision-free name, then move the entry;
        a failure is reported in the outcome and changes nothing. */
    method MoveFile(dest: Dir, entry: Entry, name: string, fault: bool) returns (outcome: MoveOutcome)
      requires Valid() && dest != SourceDir
      modifies this
      ensures Valid()
      ensures outcome == MoveOutcomeOf(old(dirs), dest, entry.name, name, fault)
      ensures dirs == AfterMove(old(dirs), dest, entry.name, name, fault)
      ensures outcome.Moved? ==>
        && outcome.finalName !in old(dirs[dest])
        && dirs[dest] == old(dirs[dest]) + {outcome.finalName}
        && dirs[SourceDir] == old(dirs[SourceDir]) - {entry.name}
      ensures outcome.Failed? ==> dirs == old(dirs)
    {
      var final := name;
      if final in dirs[dest] {
        final := MakeUnique(dirs[dest], final);
      }
      if entry.name !in dirs[SourceDir] {
        outcome := Failed(SourceVanished);
      } else if fault {
        outcome := Failed(MoveFault);
      } else {
        dirs := dirs[SourceDir := dirs[SourceDir] - {entry.name}][dest := dirs[dest] + {final}];
        outcome := Moved(final);
      }
    }

    /** `check_<category>_files`: the first extension of the table that
        the lower-cased name ends with triggers one move, then the loop
        stops. */
    method Check(entry: Entry, name: string, c: Category, fault: bool)
      requires Valid()
      modifies this
      ensures Valid()
      ensures dirs == CheckResult(old(dirs), entry, name, c, fault)
    {
      var table := Table(c);
      var lowered := Lower(name);
      for i := 0 to |table|
        invariant dirs == old(dirs)
        invariant forall j :: 0 <= j < i ==> !EndsWith(lowered, table[j])
      {
        if EndsWith(lowered, table[i]) {
          var outcome := MoveFile(Route(c, name, entry.size), entry, name, fault);
          return;
        }
      }
    }

    /** `on_modified`: for every regular file of the listing, run the six
        checkers in order. */
    method OnModified(entries: seq<Entry>, faults: set<(nat, Category)>)
      requires Valid()
      modifies this
      ensures Valid()
      ensures dirs == Scan(old(dirs), entries, faults)
    {
      for i := 0 to |entries|
        invariant Valid()
        invariant dirs == Scan(old(dirs), entries[..i], faults)
      {
        assert entries[..i + 1][..i] == entries[..i];
        var entry := entries[i];
        if !entry.isFile {
          continue;
        }
        var name := entry.name;
        ghost var before := dirs;
        Check(entry, name, Audio, (i, Audio) in faults);
        Check(entry, name, Video, (i, Video) in faults);
        Check(entry, name, Image, (i, Image) in faults);
        Check(entry, name, Document, (i, Document) in faults);
        Check(entry, name, Stl, (i, Stl) in faults);
        Check(entry, name, Solidworks, (i, Solidworks) in faults);
        assert dirs == RunCheckers(before, entry, i, faults);
        CheckersAgreeWithClassify(before, entry, i, faults);
      }
      assert entries[..|entries|] == entries;
    }
  }
}
