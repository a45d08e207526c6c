/**
 * `FileOrganizer` of `008_project/file_organizer.py`: the folder table,
 * `create_folders` and the classification of `organize_files`.  The object
 * only keeps its directory and the fixed table, so both are module-level
 * here.  The file system is reduced to the set of directories that exist
 * and to the directory listing; each entry says whether it is a directory.
 */
module FileOrganizer {
  import opened Wrappers
  import opened Text
  import opened Paths
  import opened Seqs

  /** `os.path.splitext(filename)[1].lower()`: the extension with its dot, in lower case. */
  function FileExt(filename: string): (r: string)
    ensures r == [] || (r[0] == '.' && |r| == |SplitExt(filename).1|)
  {
    Lower(SplitExt(filename).1)
  }

  /** `stem.ext` has the extension `.ext`, lowered, when the stem holds something other than dots. */
  lemma FileExtOf(stem: string, ext: string)
    requires '/' !in stem && '/' !in ext && '.' !in ext
    requires exists i :: 0 <= i < |stem| && stem[i] != '.'
    ensures FileExt(stem + "." + ext) == "." + Lower(ext)
  {
    SplitExtOf(stem, ext);
    LowerConcat(".", ext);
  }

  datatype Folder = Folder(name: string, extensions: seq<string>)

  /** The `extensions` table, in its order. */
  const Folders: seq<Folder> := [
    Folder("Images", [".jpg", ".jpeg", ".png", ".gif", ".bmp"]),
    Folder("Documents", [".pdf", ".doc", ".docx", ".txt", ".xlsx", ".csv"]),
    Folder("Audio", [".mp3", ".wav", ".flac"]),
    Folder("Video", [".mp4", ".avi", ".mkv"]),
    Folder("Archives", [".zip", ".rar", ".7z"]),
    Folder("Code", [".py", ".java", ".cpp", ".html", ".css", ".js"])
  ]

  /** The first folder of `fs` listing `ext`, if any. */
  function FirstFolder(fs: seq<Folder>, ext: string): (r: Option<string>)
    ensures r.None? <==> forall i :: 0 <= i < |fs| ==> ext !in fs[i].extensions
    ensures r.Some? ==> exists i :: 0 <= i < |fs| && r.value == fs[i].name && ext in fs[i].extensions
                         && forall j :: 0 <= j < i ==> ext !in fs[j].extensions
  {
    if fs == [] then None
    else if ext in fs[0].extensions then Some(fs[0].name)
    else
      var r := FirstFolder(fs[1..], ext);
      assert forall i :: 1 <= i < |fs| ==> fs[i] == fs[1..][i - 1];
      if r.Some? then
        var i :| 0 <= i < |fs[1..]| && r.value == fs[1..][i].name && ext in fs[1..][i].extensions
                 && forall j :: 0 <= j < i ==> ext !in fs[1..][j].extensions;
        assert r.value == fs[i + 1].name;
        r
      else r
  }

  /** The folder a file with this extension goes to. */
  function FolderFor(ext: string): Option<string> {
    FirstFolder(Folders, ext)
  }

  /** Each extension of the table is claimed by the folder that lists it. */
  lemma ListedImages(e: string)
    requires e in Folders[0].extensions
    ensures FolderFor(e) == Some("Images")
  {
  }

  lemma ListedDocuments(e: string)
    requires e in Folders[1].extensions
    ensures FolderFor(e) == Some("Documents")
  {
    assert e !in Folders[0].extensions;
  }

  lemma ListedAudio(e: string)
    requires e in Folders[2].extensions
    ensures FolderFor(e) == Some("Audio")
  {
    assert e !in Folders[0].extensions;
    assert e !in Folders[1].extensions;
  }

  lemma ListedVideo(e: string)
    requires e in Folders[3].extensions
    ensures FolderFor(e) == Some("Video")
  {
    assert e !in Folders[0].extensions;
    assert e !in Folders[1].extensions;
    assert e !in Folders[2].extensions;
  }

  lemma ListedArchives(e: string)
    requires e in Folders[4].extensions
    ensures FolderFor(e) == Some("Archives")
  {
    ArchivesNotEarly(e);
    ArchivesNotLate(e);
    FirstFolderSkip(Folders, 4, e);
  }

  lemma ArchivesNotEarly(e: string)
    requires e in Folders[4].extensions
    ensures e !in Folders[0].extensions && e !in Folders[1].extensions
  {
  }

  lemma ArchivesNotLate(e: string)
    requires e in Folders[4].extensions
    ensures e !in Folders[2].extensions && e !in Folders[3].extensions
  {
  }

  lemma ListedCode(e: string)
    requires e in Folders[5].extensions
    ensures FolderFor(e) == Some("Code")
  {
    CodeNotEarly(e);
    CodeNotLate(e);
    FirstFolderSkip(Folders, 5, e);
  }

  lemma CodeNotEarly(e: string)
    requires e in Folders[5].extensions
    ensures e !in Folders[0].extensions && e !in Folders[1].extensions
  {
  }

  lemma CodeNotLate(e: string)
    requires e in Folders[5].extensions
    ensures e !in Folders[2].extensions && e !in Folders[3].extensions && e !in Folders[4].extensions
  {
  }

  /** The folders before the first one listing an extension do not decide it. */
  lemma {:induction false} FirstFolderSkip(fs: seq<Folder>, k: nat, e: string)
    requires k <= |fs| && forall i :: 0 <= i < k ==> e !in fs[i].extensions
    ensures FirstFolder(fs, e) == FirstFolder(fs[k..], e)
  {
    if k > 0 {
      FirstFolderSkip(fs[1..], k - 1, e);
      assert fs[1..][k - 1..] == fs[k..];
    }
  }

  /** Every listed extension goes to the folder listing it. */
  lemma FolderForListed(i: nat, e: string)
    requires i < |Folders| && e in Folders[i].extensions
    ensures FolderFor(e) == Some(Folders[i].name)
  {
    if i == 0 { ListedImages(e); }
    else if i == 1 { ListedDocuments(e); }
    else if i == 2 { ListedAudio(e); }
    else if i == 3 { ListedVideo(e); }
    else if i == 4 { ListedArchives(e); }
    else { ListedCode(e); }
  }

  /** The folder names differ from each other. */
  lemma NamesDistinct(i: nat, j: nat)
    requires i < j < |Folders|
    ensures Folders[i].name != Folders[j].name
  {
    if i == 2 && j == 3 {
      assert Folders[i].name[0] != Folders[j].name[0];
    }
  }

  /** No extension is listed by two folders, so the target folder is unique. */
  lemma FoldersDisjoint(i: nat, j: nat, e: string)
    requires i < |Folders| && j < |Folders| && i != j
    requires e in Folders[i].extensions
    ensures e !in Folders[j].extensions
  {
    if e in Folders[j].extensions {
      FolderForListed(i, e);
      FolderForListed(j, e);
      if i < j { NamesDistinct(i, j); } else { NamesDistinct(j, i); }
    }
  }

  /** The paths of the first `n` folders of the table. */
  function FolderPathsUpTo(directory: string, n: nat): set<string>
    requires n <= |Folders|
  {
    set i | 0 <= i < n :: PathJoin(directory, Folders[i].name)
  }

  /** The folder paths `create_folders` makes sure of. */
  function FolderPaths(directory: string): set<string> {
    FolderPathsUpTo(directory, |Folders|)
  }

  lemma FolderPathsStep(directory: string, n: nat)
    requires n < |Folders|
    ensures FolderPathsUpTo(directory, n + 1) == FolderPathsUpTo(directory, n) + {PathJoin(directory, Folders[n].name)}
  {
  }

  /** `create_folders`: afterwards every folder of the table exists; nothing else is created. */
  method CreateFolders(directory: string, existing: set<string>) returns (after: set<string>)
    ensures after == existing + FolderPaths(directory)
  {
    after := existing;
    for i := 0 to |Folders|
      invariant after == existing + FolderPathsUpTo(directory, i)
    {
      FolderPathsStep(directory, i);
      var folderPath := PathJoin(directory, Folders[i].name);
      if folderPath !in after {
        after := after + {folderPath};
      }
    }
  }

  /** One folder per key: each of the six exists after `create_folders`. */
  lemma CreatedEveryFolder(directory: string, existing: set<string>, i: nat)
    requires i < |Folders|
    ensures PathJoin(directory, Folders[i].name) in existing + FolderPaths(directory)
  {
  }

  /** One entry of `os.listdir`: its name, and whether `os.path.isdir` holds for it. */
  datatype Entry = Entry(name: string, isDir: bool)

  /** A move of a file into a folder: its source and destination paths. */
  datatype Move = Move(source: string, destination: string, folder: string)

  /** The move an entry gives rise to: none for a directory or an extension no folder lists. */
  function MoveOf(directory: string, e: Entry): seq<Move> {
    if e.isDir then []
    else match FolderFor(FileExt(e.name))
      case None => []
      case Some(folder) => [Move(PathJoin(directory, e.name), PathJoin(PathJoin(directory, folder), e.name), folder)]
  }

  /** The moves `organize_files` attempts, in listing order. */
  function Moves(directory: string, entries: seq<Entry>): seq<Move> {
    FlatMap((e: Entry) => MoveOf(directory, e), entries)
  }

  /** The inner search: the first folder whose list holds the extension. */
  method FindFolder(ext: string) returns (folder: Option<string>)
    ensures folder == FolderFor(ext)
  {
    folder := None;
    var i := 0;
    while i < |Folders|
      invariant 0 <= i <= |Folders|
      invariant forall j :: 0 <= j < i ==> ext !in Folders[j].extensions
    {
      if ext in Folders[i].extensions {
        folder := Some(Folders[i].name);
        FirstFolderSkip(Folders, i, ext);
        return;
      }
      i := i + 1;
    }
  }

  /**
   * `organize_files`: directories stay; every other entry whose extension a
   * folder lists is moved into the first such folder.  A failing move is
   * reported and skipped; the moves here are the ones attempted.
   */
  method OrganizeFiles(directory: string, entries: seq<Entry>) returns (moves: seq<Move>)
    ensures moves == Moves(directory, entries)
  {
    moves := [];
    for i := 0 to |entries|
      invariant moves == Moves(directory, entries[..i])
    {
      assert entries[..i + 1][..i] == entries[..i];
      var filename := entries[i].name;
      var filePath := PathJoin(directory, filename);
      if entries[i].isDir {
        continue;
      }
      var fileExt := FileExt(filename);
      var folder := FindFolder(fileExt);
      if folder.Some? {
        var destination := PathJoin(PathJoin(directory, folder.value), filename);
        moves := moves + [Move(filePath, destination, folder.value)];
      }
    }
    assert entries[..|entries|] == entries;
  }

  /** A move comes from a file whose extension its folder lists, and goes into that folder. */
  lemma MoveOfShape(directory: string, e: Entry, m: Move)
    requires m in MoveOf(directory, e)
    ensures !e.isDir && FolderFor(FileExt(e.name)) == Some(m.folder)
    ensures m.source == PathJoin(directory, e.name)
    ensures m.destination == PathJoin(PathJoin(directory, m.folder), e.name)
  {
  }

  /** Directories and files with an extension no folder lists stay where they are. */
  lemma Stays(directory: string, e: Entry)
    requires e.isDir || FolderFor(FileExt(e.name)).None?
    ensures MoveOf(directory, e) == []
  {
  }

  /** Every move is the move of one of the listed entries. */
  lemma MovesFromEntries(directory: string, entries: seq<Entry>, m: Move)
    requires m in Moves(directory, entries)
    ensures exists e :: e in entries && m in MoveOf(directory, e)
  {
    FlatMapFrom((e: Entry) => MoveOf(directory, e), entries, m);
  }

  /** Every file whose extension is listed is moved to its folder. */
  lemma EntriesMoved(directory: string, entries: seq<Entry>, k: nat, m: Move)
    requires k < |entries| && m in MoveOf(directory, entries[k])
    ensures m in Moves(directory, entries)
  {
    FlatMapHas((e: Entry) => MoveOf(directory, e), entries, k, m);
  }
}
