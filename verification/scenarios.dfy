/** Concrete cases of the organizer's behaviour: collision renaming, the
    audio routing rule and unmatched files. */
module Scenarios {
  import opened Names
  import opened Resolver
  import opened Rules
  import opened Organizer

  /** "report.pdf" splits into "report" and ".pdf". */
  lemma ReportSplit()
    ensures SplitExt("report.pdf") == ("report", ".pdf")
  {
    assert LastDot("report.pdf") == 6 by {
      assert "report.pdf"[..9] == "report.pd";
      assert "report.pd"[..8] == "report.p";
      assert "report.p"[..7] == "report.";
      assert LastDot("report.") == 6;
      assert LastDot("report.p") == 6;
      assert LastDot("report.pd") == 6;
    }
    assert "report.pdf"[..6] == "report" && "report.pdf"[6..] == ".pdf";
    assert !AllDots("report") by {
      assert "report"[0] != '.';
    }
  }

  /** Leading dots do not start an extension: ".bashrc" has none. */
  lemma DotfileSplit()
    ensures SplitExt(".bashrc") == (".bashrc", "")
  {
    assert LastDot(".bashrc") == 0 by {
      assert ".bashrc"[..6] == ".bashr" && ".bashr"[..5] == ".bash" && ".bash"[..4] == ".bas";
      assert ".bas"[..3] == ".ba" && ".ba"[..2] == ".b" && ".b"[..1] == ".";
      assert LastDot(".") == 0;
      assert LastDot(".b") == 0;
      assert LastDot(".ba") == 0;
      assert LastDot(".bas") == 0;
      assert LastDot(".bash") == 0;
      assert LastDot(".bashr") == 0;
    }
  }

  /** A second "report.pdf" becomes "report(1).pdf"; a third, with
      "report(1).pdf" also present, becomes "report(2).pdf". */
  lemma ReportCollisions()
    ensures UniqueName({"report.pdf"}, "report.pdf") == "report(1).pdf"
    ensures UniqueName({"report.pdf", "report(1).pdf"}, "report.pdf") == "report(2).pdf"
  {
    ReportSplit();
    assert NatToString(1) == "1";
    assert NatToString(2) == "2";
    assert Candidate("report", 1, ".pdf") == "report(1).pdf";
    assert Candidate("report", 2, ".pdf") == "report(2).pdf";
    var one := {"report.pdf"};
    var two := {"report.pdf", "report(1).pdf"};
    assert FirstFreeIndex(one, "report", ".pdf", 1) == 1;
    assert FirstFreeIndex(two, "report", ".pdf", 1) == 2;
  }

  /** A name ending in a listed extension is classified under that
      extension's category. */
  lemma ClassifyByExtension(name: string, c: Category, i: nat)
    requires i < |Table(c)| && EndsWith(Lower(name), Table(c)[i])
    ensures Classify(name) == Some(c)
  {
    ClassifyExact(name, c);
  }

  lemma Mp3IsAudio(name: string)
    requires EndsWith(Lower(name), ".mp3")
    ensures Classify(name) == Some(Audio)
  {
    ClassifyByExtension(name, Audio, 2);
  }

  /** A 5,000,000-byte "clip.mp3" is short audio. */
  lemma ClipGoesToSfx()
    ensures Classify("clip.mp3") == Some(Audio)
    ensures Route(Audio, "clip.mp3", 5_000_000) == SfxDir
  {
    Mp3IsAudio("clip.mp3");
  }

  /** A 50,000,000-byte "full_album_SFX.mp3" is short audio by its name. */
  lemma SfxMarkerGoesToSfx()
    ensures Classify("full_album_SFX.mp3") == Some(Audio)
    ensures Route(Audio, "full_album_SFX.mp3", 50_000_000) == SfxDir
  {
    var name := "full_album_SFX.mp3";
    Mp3IsAudio(name);
    assert OccursAt(Upper(name), "SFX", 11);
  }

  /** A 50,000,000-byte "clip_sfx.mp3" is short audio by its lower-case
      marker. */
  lemma LowerCaseMarkerGoesToSfx()
    ensures Classify("clip_sfx.mp3") == Some(Audio)
    ensures Route(Audio, "clip_sfx.mp3", 50_000_000) == SfxDir
  {
    var name := "clip_sfx.mp3";
    Mp3IsAudio(name);
    assert OccursAt(Upper(name), "SFX", 5);
  }

  /** An upper-case "REPORT.PDF" is a document, like "report.pdf". */
  lemma UpperCaseReportIsDocument()
    ensures Classify("REPORT.PDF") == Some(Document)
  {
    ClassifyByExtension("report.pdf", Document, 3);
    assert Upper("report.pdf") == "REPORT.PDF";
    ClassifyIgnoresCase("report.pdf");
  }

  /** A string without the first letter of `sub` does not contain `sub`. */
  lemma MissingInitialNotContained(s: string, sub: string)
    requires |sub| > 0 && forall i :: 0 <= i < |s| ==> s[i] != sub[0]
    ensures !Contains(s, sub)
  {
    forall i | 0 <= i <= |s| - |sub|
      ensures !OccursAt(s, sub, i)
    {
      assert s[i..i + |sub|][0] == s[i] != sub[0];
    }
  }

  /** A 50,000,000-byte "full_album.flac" is music. */
  lemma LongFlacGoesToMusic()
    ensures Classify("full_album.flac") == Some(Audio)
    ensures Route(Audio, "full_album.flac", 50_000_000) == MusicDir
  {
    var name := "full_album.flac";
    ClassifyByExtension(name, Audio, 1);
    assert forall i | 0 <= i < |name| :: name[i] != 's' && name[i] != 'S';
    MissingInitialNotContained(Upper(name), "SFX");
  }

  /** "notes.txt" matches no table, so a scan leaves it where it is. */
  lemma NotesAreNotRouted()
    ensures Classify("notes.txt") == None
  {
    var low := Lower("notes.txt");
    assert low == "notes.txt";
    forall c: Category, i | 0 <= i < |Table(c)|
      ensures !EndsWith(low, Table(c)[i])
    {
      TableWellFormed(c, i);
      var e := Table(c)[i];
      if EndsWith(low, e) {
        var suffix := low[|low| - |e|..];
        assert suffix[0] == '.';
        assert |e| == 4;
        assert e == ".txt";
        TxtIsNotListed(c, i);
      }
    }
  }

  lemma TxtIsNotListed(c: Category, i: nat)
    requires i < |Table(c)|
    ensures Table(c)[i] != ".txt"
  {
    TableWellFormed(c, i);
  }

  const Listing: seq<Entry> := [
    Entry("downloaded_pdfs", false, 0),
    Entry("clip.mp3", true, 5_000_000),
    Entry("notes.txt", true, 10),
    Entry("report.pdf", true, 200)]

  /** The move of "clip.mp3" (entry 1, audio checker) fails. */
  const ListingFaults: set<(nat, Category)> := {(1, Audio)}

  lemma ClipMoveFails(dirs: Dirs)
    requires Complete(dirs)
    ensures Step(dirs, Listing[1], 1, ListingFaults) == dirs
  {
    ClipGoesToSfx();
  }

  lemma NotesStay(dirs: Dirs)
    requires Complete(dirs)
    ensures Step(dirs, Listing[2], 2, ListingFaults) == dirs
  {
    NotesAreNotRouted();
  }

  lemma ListingPrefix(dirs: Dirs)
    requires Complete(dirs)
    ensures Scan(dirs, Listing[..3], ListingFaults) == dirs
  {
    assert Listing[..3][..2][..1][..0] == [];
    assert Listing[..3][..2] == Listing[..2] && Listing[..2][..1] == Listing[..1];
    assert Scan(dirs, Listing[..1], ListingFaults) == dirs;
    ClipMoveFails(dirs);
    assert Scan(dirs, Listing[..2], ListingFaults) == dirs;
    NotesStay(dirs);
  }

  lemma ReportMoves(dirs: Dirs)
    requires Complete(dirs)
    requires dirs[SourceDir] == {"report.pdf", "notes.txt", "clip.mp3"}
    requires dirs[DocumentsDir] == {"report.pdf"}
    ensures var r := Step(dirs, Listing[3], 3, ListingFaults);
      r[SourceDir] == {"notes.txt", "clip.mp3"} &&
      r[DocumentsDir] == {"report.pdf", "report(1).pdf"} &&
      forall d :: d != SourceDir && d != DocumentsDir ==> r[d] == dirs[d]
  {
    ReportIsMoved(dirs);
    ReportCollisions();
    MoveEffect(dirs, DocumentsDir, "report.pdf", "report.pdf", false);
  }

  lemma ReportIsMoved(dirs: Dirs)
    requires Complete(dirs)
    ensures Step(dirs, Listing[3], 3, ListingFaults) == AfterMove(dirs, DocumentsDir, "report.pdf", "report.pdf", false)
  {
    ClassifyByExtension("report.pdf", Document, 3);
  }

  /** A whole scan over a small listing: the sub-directory and the
      unmatched file stay, the failed move of "clip.mp3" changes nothing
      and the scan carries on, and "report.pdf" collides and arrives as
      "report(1).pdf". */
  lemma ListingScan(dirs: Dirs)
    requires Complete(dirs)
    requires dirs[SourceDir] == {"report.pdf", "notes.txt", "clip.mp3"}
    requires dirs[DocumentsDir] == {"report.pdf"}
    ensures var r := Scan(dirs, Listing, ListingFaults);
      r[SourceDir] == {"notes.txt", "clip.mp3"} &&
      r[DocumentsDir] == {"report.pdf", "report(1).pdf"} &&
      forall d :: d != SourceDir && d != DocumentsDir ==> r[d] == dirs[d]
  {
    ListingPrefix(dirs);
    ReportMoves(dirs);
  }

  /** The same scan, run by the organizer on its directories. */
  method ScanScenario()
  {
    var initial: Dirs := map[
      SourceDir := {"report.pdf", "notes.txt", "clip.mp3"},
      SfxDir := {}, MusicDir := {}, VideoDir := {}, ImageDir := {},
      DocumentsDir := {"report.pdf"}, StlDir := {}, SolidworksDir := {}];
    forall d: Dir
      ensures d in initial
    {
      match d
      case SourceDir =>
      case SfxDir =>
      case MusicDir =>
      case VideoDir =>
      case ImageDir =>
      case DocumentsDir =>
      case StlDir =>
      case SolidworksDir =>
    }
    var downloads := new Downloads(initial);
    downloads.OnModified(Listing, ListingFaults);
    ListingScan(initial);
    assert downloads.dirs[SourceDir] == {"notes.txt", "clip.mp3"};
    assert downloads.dirs[DocumentsDir] == {"report.pdf", "report(1).pdf"};
    assert downloads.dirs[SfxDir] == {};
  }
}
