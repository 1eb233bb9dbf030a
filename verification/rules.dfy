/** The fixed rule table: six extension lists, the seven destination
    directories, the audio size/"SFX" rule, and the classifier that picks
    at most one destination for a file name and size. */
module Rules {
  import opened Names

  datatype Option<T> = None | Some(value: T)

  /** The watched directory and the seven destination directories. */
  datatype Dir = SourceDir | SfxDir | MusicDir | VideoDir | ImageDir | DocumentsDir | StlDir | SolidworksDir

  /** One category per `check_*` method, in the order the scan calls them. */
  datatype Category = Audio | Video | Image | Document | Stl | Solidworks

  const ImageExtensions: seq<string> := [
    ".jpg", ".jpeg", ".jpe", ".jif", ".jfif", ".jfi", ".png", ".gif", ".webp", ".tiff", ".tif", ".psd",
    ".raw", ".arw", ".cr2", ".nrw", ".k25", ".bmp", ".dib", ".heif", ".heic", ".ind", ".indd", ".indt",
    ".jp2", ".j2k", ".jpf", ".jpx", ".jpm", ".mj2", ".svg", ".svgz", ".ai", ".eps", ".ico"]
  const VideoExtensions: seq<string> := [
    ".webm", ".mpg", ".mp2", ".mpeg", ".mpe", ".mpv", ".ogg", ".mp4", ".mp4v", ".m4v", ".avi", ".wmv",
    ".mov", ".qt", ".flv", ".swf", ".avchd"]
  const AudioExtensions: seq<string> := [".m4a", ".flac", ".mp3", ".wav", ".wma", ".aac"]
  const DocumentExtensions: seq<string> := [".doc", ".docx", ".odt", ".pdf", ".xls", ".xlsx", ".ppt", ".pptx"]
  const StlExtensions: seq<string> := [".stl", ".3mf"]
  const SolidworksExtensions: seq<string> := [".sldprt", ".sldasm", ".slddrw"]

  /** Audio files smaller than this many bytes go to the SFX directory. */
  const SfxSizeLimit: nat := 10_000_000

  function Table(c: Category): seq<string>
  {
    match c
    case Audio => AudioExtensions
    case Video => VideoExtensions
    case Image => ImageExtensions
    case Document => DocumentExtensions
    case Stl => StlExtensions
    case Solidworks => SolidworksExtensions
  }

  /** The lower-cased name ends with some extension of the category's table. */
  predicate Matches(name: string, c: Category)
  {
    exists i | 0 <= i < |Table(c)| :: EndsWith(Lower(name), Table(c)[i])
  }

  /** The extension test ignores case: a name, its upper-cased and its
      lower-cased spelling match the same tables. */
  lemma MatchesIgnoresCase(name: string, c: Category)
    ensures Matches(Upper(name), c) <==> Matches(name, c)
    ensures Matches(Lower(name), c) <==> Matches(name, c)
  {
    LowerUpper(name);
    LowerTwice(name);
  }

  /** The audio destination: SFX for short files or names marked "SFX"
      (in any case), music otherwise. */
  function AudioDest(name: string, size: nat): Dir
  {
    if size < SfxSizeLimit || Contains(Upper(name), "SFX") then SfxDir else MusicDir
  }

  /** The "SFX" marker is found in any case: the audio destination of a
      name is that of its upper-cased and of its lower-cased spelling. */
  lemma AudioDestIgnoresCase(name: string, size: nat)
    ensures AudioDest(Upper(name), size) == AudioDest(name, size)
    ensures AudioDest(Lower(name), size) == AudioDest(name, size)
  {
    UpperLower(name);
    UpperTwice(name);
  }

  /** The destination of a file of category `c`. */
  function Route(c: Category, name: string, size: nat): (d: Dir)
    ensures d != SourceDir
  {
    match c
    case Audio => AudioDest(name, size)
    case Video => VideoDir
    case Image => ImageDir
    case Document => DocumentsDir
    case Stl => StlDir
    case Solidworks => SolidworksDir
  }

  /** The first category, in scan order, whose table matches `name`. */
  function Classify(name: string): Option<Category>
  {
    if Matches(name, Audio) then Some(Audio)
    else if Matches(name, Video) then Some(Video)
    else if Matches(name, Image) then Some(Image)
    else if Matches(name, Document) then Some(Document)
    else if Matches(name, Stl) then Some(Stl)
    else if Matches(name, Solidworks) then Some(Solidworks)
    else None
  }

  /** Classification ignores case. */
  lemma ClassifyIgnoresCase(name: string)
    ensures Classify(Upper(name)) == Classify(name)
    ensures Classify(Lower(name)) == Classify(name)
  {
    forall c: Category
      ensures (Matches(Upper(name), c) <==> Matches(name, c)) && (Matches(Lower(name), c) <==> Matches(name, c))
    {
      MatchesIgnoresCase(name, c);
    }
  }

  /** An extension as the tables write it: a dot, then lower-case letters
      and digits, no further dot. */
  predicate WellFormedExtension(e: string)
  {
    |e| >= 2 && e[0] == '.' && forall i :: 1 <= i < |e| ==> ('a' <= e[i] <= 'z' || '0' <= e[i] <= '9')
  }

  lemma AudioWellFormed(i: nat)
    requires i < |AudioExtensions|
    ensures WellFormedExtension(AudioExtensions[i])
  {
  }

  lemma VideoWellFormed(i: nat)
    requires i < |VideoExtensions|
    ensures WellFormedExtension(VideoExtensions[i])
  {
  }

  lemma ImageWellFormed(i: nat)
    requires i < |ImageExtensions|
    ensures WellFormedExtension(ImageExtensions[i])
  {
  }

  lemma SmallTablesWellFormed(c: Category, i: nat)
    requires c != Audio && c != Video && c != Image
    requires i < |Table(c)|
    ensures WellFormedExtension(Table(c)[i])
  {
  }

  /** Every extension of every table is well formed. */
  lemma TableWellFormed(c: Category, i: nat)
    requires i < |Table(c)|
    ensures WellFormedExtension(Table(c)[i])
  {
    match c
    case Audio => AudioWellFormed(i);
    case Video => VideoWellFormed(i);
    case Image => ImageWellFormed(i);
    case _ => SmallTablesWellFormed(c, i);
  }

  lemma ImageVideoApart(i: nat, j: nat)
    requires i < |ImageExtensions| && j < |VideoExtensions|
    ensures ImageExtensions[i] != VideoExtensions[j]
  {
  }

  lemma ImageAudioApart(i: nat, j: nat)
    requires i < |ImageExtensions| && j < |AudioExtensions|
    ensures ImageExtensions[i] != AudioExtensions[j]
  {
  }

  lemma ImageDocumentApart(i: nat, j: nat)
    requires i < |ImageExtensions| && j < |DocumentExtensions|
    ensures ImageExtensions[i] != DocumentExtensions[j]
  {
  }

  lemma ImageCadApart(c: Category, i: nat, j: nat)
    requires c == Stl || c == Solidworks
    requires i < |ImageExtensions| && j < |Table(c)|
    ensures ImageExtensions[i] != Table(c)[j]
  {
  }

  lemma ImageOthersApart(c: Category, i: nat, j: nat)
    requires c != Image && c != Video
    requires i < |ImageExtensions| && j < |Table(c)|
    ensures ImageExtensions[i] != Table(c)[j]
  {
    match c
    case Audio => ImageAudioApart(i, j);
    case Document => ImageDocumentApart(i, j);
    case _ => ImageCadApart(c, i, j);
  }

  lemma VideoOthersApart(c: Category, i: nat, j: nat)
    requires c != Image && c != Video
    requires i < |VideoExtensions| && j < |Table(c)|
    ensures VideoExtensions[i] != Table(c)[j]
  {
  }

  lemma SmallTablesApart(c1: Category, c2: Category, i1: nat, i2: nat)
    requires c1 != Image && c1 != Video && c2 != Image && c2 != Video && c1 != c2
    requires i1 < |Table(c1)| && i2 < |Table(c2)|
    ensures Table(c1)[i1] != Table(c2)[i2]
  {
  }

  /** No extension is listed in two categories. */
  lemma TablesDisjoint(c1: Category, c2: Category, i1: nat, i2: nat)
    requires i1 < |Table(c1)| && i2 < |Table(c2)|
    requires Table(c1)[i1] == Table(c2)[i2]
    ensures c1 == c2
  {
    if c1 != c2 {
      if c1 == Image && c2 == Video {
        ImageVideoApart(i1, i2);
      } else if c1 == Video && c2 == Image {
        ImageVideoApart(i2, i1);
      } else if c1 == Image {
        ImageOthersApart(c2, i1, i2);
      } else if c2 == Image {
        ImageOthersApart(c1, i2, i1);
      } else if c1 == Video {
        VideoOthersApart(c2, i1, i2);
      } else if c2 == Video {
        VideoOthersApart(c1, i2, i1);
      } else {
        SmallTablesApart(c1, c2, i1, i2);
      }
    }
  }

  /** Of two well-formed extensions, one can end with the other only when
      they are the same: the dot of the shorter must sit at the start of
      the longer. */
  lemma ExtensionSuffix(a: string, b: string)
    requires WellFormedExtension(a) && WellFormedExtension(b) && EndsWith(b, a)
    ensures a == b
  {
    var k := |b| - |a|;
    assert b[k] == a[0] == '.';
  }

  /** The tables are pairwise suffix-disjoint, so at most one category
      matches any name: the checkers of one scan can move a file at most
      once. */
  lemma AtMostOneCategory(name: string, c1: Category, c2: Category)
    requires Matches(name, c1) && Matches(name, c2)
    ensures c1 == c2
  {
    var low := Lower(name);
    var i1 :| 0 <= i1 < |Table(c1)| && EndsWith(low, Table(c1)[i1]);
    var i2 :| 0 <= i2 < |Table(c2)| && EndsWith(low, Table(c2)[i2]);
    var e1, e2 := Table(c1)[i1], Table(c2)[i2];
    TableWellFormed(c1, i1);
    TableWellFormed(c2, i2);
    if |e1| <= |e2| {
      SuffixOfSuffix(low, e1, e2);
      ExtensionSuffix(e1, e2);
    } else {
      SuffixOfSuffix(low, e2, e1);
      ExtensionSuffix(e2, e1);
    }
    TablesDisjoint(c1, c2, i1, i2);
  }

  /** The classifier yields a category exactly when that category's table
      matches, and no category when none does. */
  lemma ClassifyExact(name: string, c: Category)
    ensures Classify(name) == Some(c) <==> Matches(name, c)
    ensures Classify(name) == None <==> forall c' :: !Matches(name, c')
  {
    match Classify(name)
    case None =>
    case Some(c0) =>
      if Matches(name, c) {
        AtMostOneCategory(name, c, c0);
      }
  }
}
