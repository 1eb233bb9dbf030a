# Downloads organizer: a verified model

This project models the core of a small download-folder organizer. On every change in the watched
Downloads directory, the organizer lists the directory's top-level entries and skips everything
that is not a regular file. Each remaining file is then run through six category checkers: audio,
video, image, document, STL and SolidWorks. A checker fires when the lower-cased file name ends in
one of the extensions of its fixed table. It then moves the file into its category's destination
directory. Audio files go to the SFX directory when they are smaller than 10,000,000 bytes or their
upper-cased name contains "SFX", and to the music directory otherwise. A move never overwrites
anything: when the name is already taken in the destination, the file is renamed `stem(1)ext`,
`stem(2)ext`, … and the first free name is used. A failed move is swallowed, and the scan
continues with the next entry.

The file system is abstracted as a map from directory (the watched directory and the seven
destinations) to the finite set of file names it holds. The listing is a sequence of entries, each
with a name, a regular-file flag and a size.

- `names.dfy` (module `Names`) holds the string operations the organizer relies on:
  - ASCII lower and upper case, proved to make the extension test and the "SFX" marker test
    case-insensitive;
  - suffix and substring tests;
  - the stem/extension split of a bare file name, done as Python's `splitext` does it (the last dot
    starts the extension, and leading dots do not count);
  - the decimal rendering of the counter;
  - the collision candidates. Distinct counters are proved to give distinct candidates.
- `resolver.dfy` (module `Resolver`) models `make_unique`. `MakeUnique` is the `while` loop, proved
  against the function `UniqueName`. `UniqueName` is in turn proved equal, in both directions, to
  "the proposed name if free, else the candidate with the least free counter". Termination rests on
  `CandidatesBound`: `n` taken candidates need `n` distinct names in the destination.
  `FirstFreeIndexWithinSize` adds that the first free counter is at most |dest|, so at most
  |dest|+1 names are tried.
- `rules.dfy` (module `Rules`) holds the six extension tables, the audio routing rule and a
  first-match classifier. The tables are proved well formed (a dot, then lower-case letters and
  digits) and pairwise disjoint. From this it follows that they are suffix-disjoint: no name matches
  two categories.
- `organizer.dfy` (module `Organizer`) holds the mover and the scan loop:
  - the specification functions `AfterMove`, `CheckResult`, `Step` and `Scan`;
  - the class `Downloads`, whose field `dirs` is updated in place by `MoveFile`, `Check` (one method
    for the six `check_*` methods, parametrised by the category) and `OnModified`;
  - lemmas proving that running all six checkers equals classifying once and moving once, and that a
    scan never loses or overwrites a file.
- `scenarios.dfy` (module `Scenarios`) works through concrete cases:
  - `report.pdf` colliding once and twice;
  - the audio routing cases, including a lower-case "sfx" marker;
  - an upper-case "REPORT.PDF";
  - an unmatched `notes.txt`;
  - a whole scan over a small listing.

A failing move is modelled by an oracle: `faults` is a set of (entry index, category) pairs, and
checker `c` of entry `i` fails for platform reasons (permissions, a failed cross-device copy) when
`(i, c)` is in it. A move also fails, deterministically, when the file is no longer in the watched
directory. Faults are per checker rather than per entry, so that the suffix-disjointness of the
tables is what makes "run every checker" equal "classify once".

`on_modified` (organizer.py:60-65) calls all six checkers on every file, even after one of them
has moved it. The model follows the code (`Downloads.OnModified`, `RunCheckers`).
`CheckersAgreeWithClassify` proves that, over these tables, this equals classifying the file once and
moving it once (`Step`).

## Model

| member | source | states |
|---|---|---|
| `Names.SplitExt` | organizer.py:36 | stem and extension concatenate back to the name. The extension is empty, or a dot followed by no further dot. A non-empty extension leaves a stem that is not all dots. With no extension, every dot of the name is preceded only by dots (leading dots do not start an extension). |
| `Names.LastDot` | organizer.py:36 | the result is -1 or the index of a dot, and no dot follows it. |
| `Names.NatToString` | organizer.py:39 | the counter's rendering is non-empty, all decimal digits, and has no leading zero. |
| `Names.NatToStringRoundTrip` | organizer.py:39 | reading the rendered counter back as a decimal number gives the counter. |
| `Names.Lower` | organizer.py:69 | `name.lower()`, character by character by ASCII lower-casing. Defining function; `LowerUpper`, `LowerTwice` and `Rules.MatchesIgnoresCase` state its properties. |
| `Names.Upper` | organizer.py:70 | `name.upper()`, character by character by ASCII upper-casing. Defining function; `UpperLower`, `UpperTwice` and `Rules.AudioDestIgnoresCase` state its properties. |
| `Names.LowerUpper` | organizer.py:69 | lower-casing an upper-cased name gives the lower-cased name: the two spellings agree once lower-cased. |
| `Names.UpperLower` | organizer.py:70 | upper-casing a lower-cased name gives the upper-cased name. |
| `Names.LowerTwice` | organizer.py:69 | lower-casing is idempotent. |
| `Names.UpperTwice` | organizer.py:70 | upper-casing is idempotent. |
| `Names.EndsWith` | organizer.py:69 | `str.endswith`: the suffix is no longer than the string and equals its last characters. Defining predicate, no contract. |
| `Names.Contains` | organizer.py:70 | the `in` test on strings: the substring occurs at some position. Defining predicate, no contract. |
| `Names.Candidate` | organizer.py:39 | the candidate name `stem(k)ext` with the counter in decimal. Defining function; its properties are in `CandidateShape` and `CandidateInjective`. |
| `Names.CandidateShape` | organizer.py:39 | a candidate starts with the stem and "(", ends with ")" and the extension, and is at least three characters longer than stem and extension together. |
| `Names.CandidateInjective` | organizer.py:39 | two candidates built from the same stem and extension are equal only when their counters are equal. |
| `Names.SuffixOfSuffix` | organizer.py:69 | of two suffixes of one name, the shorter is a suffix of the longer. |
| `Resolver.CandidatesBound` | organizer.py:37-40 | if candidates 1..n are all taken, the destination holds at least n names. |
| `Resolver.FirstFreeIndexWithinSize` | organizer.py:37-40 | when the proposed name is taken, the first free counter is at most \|dest\|. So the loop tries at most \|dest\|+1 names: the proposed name and candidates 1..\|dest\|. |
| `Resolver.FirstFreeIndex` | organizer.py:37-40 | given that the candidates below k are taken, it returns the least counter m >= k whose candidate is free. All candidates below m are taken. |
| `Resolver.UniqueName` | organizer.py:35-41 | the resolved name is never present in the destination. It is the proposed name itself whenever that is free. |
| `Resolver.UniqueNameIsFirstFree` | organizer.py:35-41 | a name is the resolver's result if and only if it is either the free proposed name, or a taken proposed name's candidate k that is free while every candidate 1..k-1 is taken. This is the first free name in the order 1, 2, …, built from the original stem and extension. |
| `Resolver.MakeUnique` | organizer.py:35-41 | the while loop terminates. It returns a name absent from the destination, the proposed name when that is free, and exactly `UniqueName`. Two calls on the same directory therefore agree. |
| `Rules.Matches` | organizer.py:68-69 | a checker's extension loop finds a hit: the lower-cased name ends with some extension of the category's table. Defining predicate; `ClassifyExact` and `AtMostOneCategory` state its properties. |
| `Rules.MatchesIgnoresCase` | organizer.py:69 | the extension test ignores case: a name, its upper-cased and its lower-cased spelling match exactly the same tables. |
| `Rules.AudioDestIgnoresCase` | organizer.py:70 | the "SFX" marker is found in any case: a name, its upper-cased and its lower-cased spelling get the same audio destination. |
| `Rules.ClassifyIgnoresCase` | organizer.py:60-102 | a name, its upper-cased and its lower-cased spelling are classified alike. |
| `Rules.AudioDest` | organizer.py:70 | the audio destination: SFX when the size is below 10,000,000 or the upper-cased name contains "SFX", music otherwise. Defining function; `Organizer.AudioStep` states the rule at the level of a scan step. |
| `Rules.Classify` | organizer.py:60-65 | the first category, in the checkers' order, whose table matches. Defining function; `ClassifyExact` states what it yields. |
| `Rules.Route` | organizer.py:67-101 | every category's destination is one of the seven destination directories, never the watched directory. |
| `Rules.TableWellFormed` | organizer.py:26-32 | every listed extension is a dot followed only by lower-case letters and digits. |
| `Rules.TablesDisjoint` | organizer.py:26-32 | no extension is listed under two categories. |
| `Rules.ExtensionSuffix` | organizer.py:26-32 | a well-formed extension ends with another only when the two are equal. |
| `Rules.AtMostOneCategory` | organizer.py:26-32 | the tables are suffix-disjoint: any file name is matched by at most one category's checker. |
| `Rules.ClassifyExact` | organizer.py:60-102 | the classifier yields category c exactly when c's table matches the lower-cased name, and yields nothing exactly when no table matches. |
| `Organizer.MoveOutcomeOf` | organizer.py:43-50 | the outcome of one move: a vanished source or a platform fault fails, otherwise the file arrives under the resolver's name. Defining function; `MoveEffect` states its consequences. |
| `Organizer.AfterMove` | organizer.py:43-50 | the directories after one move. Every directory still has a listing. What changes is stated by `MoveEffect` and `MoveKeepsTotal`. |
| `Organizer.MoveEffect` | organizer.py:43-50 | a successful move happens only when the source is still present and the platform does not fail. The watched directory then loses exactly the entry's name, and the destination gains exactly one name it did not hold (the proposed name when free). A failed move changes nothing. No other directory changes either way. |
| `Organizer.MoveKeepsTotal` | organizer.py:43-50 | a move never loses and never overwrites a file: the number of files over all directories is unchanged. |
| `Organizer.CheckResult` | organizer.py:67-102 | one `check_*` method as a value: a matching name is moved to the category's destination, anything else leaves the directories as they were. Every directory still has a listing. |
| `Organizer.RunCheckers` | organizer.py:60-65 | the six checkers applied in order to one regular file, each whether or not an earlier one moved it. Every directory still has a listing. |
| `Organizer.Step` | organizer.py:57-65 | classify-once handling of one entry: non-files and unmatched files change nothing, a matched file is moved once. Every directory still has a listing. |
| `Organizer.AudioStep` | organizer.py:67-71 | for a regular file with an audio extension, the SFX directory gains a name exactly when the move succeeds and the file is below 10,000,000 bytes or its upper-cased name contains "SFX". The music directory gains one exactly when the move succeeds and neither holds. The name gained is the collision-free one. |
| `Organizer.Scan` | organizer.py:54-65 | the directories after every entry of the listing has been handled in order. Every directory still has a listing. |
| `Organizer.CheckersAgreeWithClassify` | organizer.py:60-65 | running the six checkers in order on a regular file gives the same directories as classifying it once and moving it once. The reason is that at most one checker fires. |
| `Organizer.ScanKeepsTotal` | organizer.py:54-65 | a whole scan never loses and never overwrites a file. |
| `Organizer.ScanBounds` | organizer.py:54-65 | during a scan the watched directory only loses names, and only names of regular files some table matches. Destination directories only grow. |
| `Organizer.ScanMovesRoutedFile` | organizer.py:46-50 | a matched regular file whose own move does not fail has left the watched directory after the scan, whatever failures other entries met. A failure does not abort the batch. |
| `Organizer.ScanLeavesUnrouted` | organizer.py:57-58 | entries that are not regular files, and files no table matches, are still in the watched directory after the scan. |
| `Organizer.Downloads.MoveFile` | organizer.py:43-50 | uses the collision-free name `UniqueName` would choose, calling the resolver only when the name is taken; the pre-check changes nothing. On success the returned name was absent from the destination and is now in it, and the watched directory has lost the entry. On failure the directories are unchanged and the failure is returned, not raised. |
| `Organizer.Downloads.Check` | organizer.py:67-102 | one checker: the extension loop stops at the first extension the lower-cased name ends with and moves the file once to the category's destination. If none matches, nothing changes. |
| `Organizer.Downloads.OnModified` | organizer.py:54-65 | the scan loop leaves the directories exactly as `Scan` describes: non-files are skipped, and each regular file is classified once and moved once. |
| `Scenarios.ReportSplit` | organizer.py:36 | "report.pdf" splits into "report" and ".pdf". |
| `Scenarios.DotfileSplit` | organizer.py:36 | ".bashrc" has no extension. |
| `Scenarios.ReportCollisions` | organizer.py:35-41 | with "report.pdf" present, "report.pdf" resolves to "report(1).pdf". With "report(1).pdf" also present, it resolves to "report(2).pdf". |
| `Scenarios.ClipGoesToSfx` | organizer.py:67-71 | a 5,000,000-byte "clip.mp3" goes to the SFX directory. |
| `Scenarios.SfxMarkerGoesToSfx` | organizer.py:67-71 | a 50,000,000-byte "full_album_SFX.mp3" goes to the SFX directory. |
| `Scenarios.LowerCaseMarkerGoesToSfx` | organizer.py:67-71 | a 50,000,000-byte "clip_sfx.mp3" goes to the SFX directory by its lower-case marker. |
| `Scenarios.UpperCaseReportIsDocument` | organizer.py:86-90 | "REPORT.PDF" is classified as a document. |
| `Scenarios.LongFlacGoesToMusic` | organizer.py:67-71 | a 50,000,000-byte "full_album.flac" goes to the music directory. |
| `Scenarios.NotesAreNotRouted` | organizer.py:60-65 | "notes.txt" matches no table. |
| `Scenarios.ListingScan` | organizer.py:54-65 | one scan over a listing of a sub-directory, "clip.mp3" (whose move fails), "notes.txt" and "report.pdf" (which collides). Afterwards the watched directory holds "notes.txt" and "clip.mp3", the documents directory holds "report.pdf" and "report(1).pdf", and nothing else changes. |

## Left out

- The watchdog observer, its recursive subscription, and the `sleep(10)` / keyboard-interrupt wait loop in `run_observer` (organizer.py:105-119) are left out. They are an event-driven, concurrent external library. `Downloads.OnModified` is the callback itself; the event argument it ignores is not modelled.
- Logging configuration and log messages (organizer.py:23, 48, 50, 106-108, 113) are left out. `MoveFile` returns a success-or-failure outcome in their place.
- Creating the destination directories at start-up (organizer.py:18-23) is left out. The model assumes all eight directories exist: `Complete`, `Downloads.Valid`.
- Listing the watched directory (`scandir`) is a parameter: the entries of one scan. A listing that cannot be read is not modelled.
- The real behaviour of `shutil.move` is left out: copying across devices, metadata and permissions. Every platform failure is one oracle bit per move attempt (`faults`). A vanished source is the one failure decided by the model's own state.
- Path strings and `join` are left out. Directories are abstract ids and files are bare names without separators.
- The race between the existence check and the move is left out, because the model is single-threaded. Nothing else changes the directories between the two steps.
- Unicode case mapping is restricted to ASCII. Names are compared exactly, so a case-insensitive file system (where "Report.pdf" and "report.pdf" collide) is not modelled.
- The lazy `entry.stat()` is left out. The size is a field of the entry.
- The six `check_*` methods are modelled by one method, `Downloads.Check`, parametrised by the category. They differ only in the table and the destination.
