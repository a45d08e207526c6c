/**
 * `organize_files` of `043_project/file_organizer.py`: every file with an
 * extension moves to the folder of the first category listing that
 * extension, or to `Others`.  The directory listing is an input; each entry
 * says whether it is a file.  Creating folders and moving files are reduced
 * to the list of moves made.
 */
module CategoryOrganizer {
  import opened Wrappers
  import opened Text
  import opened Paths

  /** `get_extension`: the extension of `splitext`, without its dot, in lower case. */
  function GetExtension(filename: string): (r: string)
    ensures '.' !in r && '/' !in r
  {
    var e := SplitExt(filename).1;
    var r := Lower(if e == [] then [] else e[1..]);
    assert forall i :: 0 <= i < |r| ==> r[i] != '.' && r[i] != '/' by {
      forall i | 0 <= i < |r|
        ensures r[i] != '.' && r[i] != '/'
      {
        assert e[1..][i] in e[1..] && e[1..][i] in e;
      }
    }
    r
  }

  /** `stem.ext` has the extension `ext`, lowered, when the stem holds something other than dots. */
  lemma GetExtensionOf(stem: string, ext: string)
    requires '/' !in stem && '/' !in ext && '.' !in ext
    requires exists i :: 0 <= i < |stem| && stem[i] != '.'
    ensures GetExtension(stem + "." + ext) == Lower(ext)
  {
    SplitExtOf(stem, ext);
    assert ("." + ext)[1..] == ext;
  }

  /** A name without a dot, or with only leading dots (".bashrc"), has no extension. */
  lemma NoExtension(dots: nat, rest: string)
    requires '.' !in rest && '/' !in rest
    ensures GetExtension(seq(dots, _ => '.') + rest) == ""
  {
    LeadingDotsNoExt(dots, rest);
  }

  datatype Category = Category(name: string, extensions: seq<string>)

  /** The `categories` table, in its order. */
  const Categories: seq<Category> := [
    Category("Images", ["jpg", "jpeg", "png", "gif", "bmp"]),
    Category("Documents", ["pdf", "doc", "docx", "txt", "rtf", "odt"]),
    Category("Audio", ["mp3", "wav", "flac", "m4a"]),
    Category("Video", ["mp4", "avi", "mkv", "mov"]),
    Category("Archives", ["zip", "rar", "7z", "tar", "gz"]),
    Category("Code", ["py", "java", "cpp", "html", "css", "js"])
  ]

  /** The folder of extensions no category lists. */
  const Others: string := "Others"

  /** The first category of `cats` listing `ext`, or `Others`. */
  function FirstMatch(cats: seq<Category>, ext: string): (r: string)
    ensures r == Others || exists i :: 0 <= i < |cats| && r == cats[i].name && ext in cats[i].extensions
  {
    if cats == [] then Others
    else if ext in cats[0].extensions then cats[0].name
    else
      var r := FirstMatch(cats[1..], ext);
      assert r != Others ==> exists i :: 0 <= i < |cats| && r == cats[i].name && ext in cats[i].extensions by {
        if r != Others {
          var i :| 0 <= i < |cats[1..]| && r == cats[1..][i].name && ext in cats[1..][i].extensions;
          assert cats[i + 1] == cats[1..][i];
        }
      }
      r
  }

  /** The category an extension belongs to. */
  function CategoryOf(ext: string): string {
    FirstMatch(Categories, ext)
  }

  /** The category search of `organize_files`: the first listing wins. */
  method FindCategory(ext: string) returns (category: string)
    ensures category == CategoryOf(ext)
  {
    category := Others;
    var i := 0;
    while i < |Categories|
      invariant 0 <= i <= |Categories|
      invariant forall j :: 0 <= j < i ==> ext !in Categories[j].extensions
    {
      if ext in Categories[i].extensions {
        category := Categories[i].name;
        FirstMatchSkip(Categories, i, ext);
        return;
      }
      i := i + 1;
    }
    FirstMatchSkip(Categories, i, ext);
  }

  /** Each extension of the table resolves to the category that lists it. */
  lemma ListedImages(e: string)
    requires e in Categories[0].extensions
    ensures CategoryOf(e) == "Images"
  {
  }

  lemma ListedDocuments(e: string)
    requires e in Categories[1].extensions
    ensures CategoryOf(e) == "Documents"
  {
    assert e !in Categories[0].extensions;
  }

  lemma ListedAudio(e: string)
    requires e in Categories[2].extensions
    ensures CategoryOf(e) == "Audio"
  {
    assert e !in Categories[0].extensions;
    assert e !in Categories[1].extensions;
  }

  lemma ListedVideo(e: string)
    requires e in Categories[3].extensions
    ensures CategoryOf(e) == "Video"
  {
    assert e !in Categories[0].extensions;
    assert e !in Categories[1].extensions;
    assert e !in Categories[2].extensions;
  }

  lemma ListedArchives(e: string)
    requires e in Categories[4].extensions
    ensures CategoryOf(e) == "Archives"
  {
    ArchivesNotEarly(e);
    ArchivesNotLate(e);
    FirstMatchSkip(Categories, 4, e);
  }

  lemma ArchivesNotEarly(e: string)
    requires e in Categories[4].extensions
    ensures e !in Categories[0].extensions && e !in Categories[1].extensions
  {
  }

  lemma ArchivesNotLate(e: string)
    requires e in Categories[4].extensions
    ensures e !in Categories[2].extensions && e !in Categories[3].extensions
  {
  }

  lemma ListedCode(e: string)
    requires e in Categories[5].extensions
    ensures CategoryOf(e) == "Code"
  {
    CodeNotEarly(e);
    CodeNotLate(e);
    FirstMatchSkip(Categories, 5, e);
  }

  /** The categories before the first one listing an extension do not decide it. */
  lemma {:induction false} FirstMatchSkip(cats: seq<Category>, k: nat, e: string)
    requires k <= |cats| && forall i :: 0 <= i < k ==> e !in cats[i].extensions
    ensures FirstMatch(cats, e) == FirstMatch(cats[k..], e)
  {
    if k > 0 {
      FirstMatchSkip(cats[1..], k - 1, e);
      assert cats[1..][k - 1..] == cats[k..];
    }
  }

  lemma CodeNotEarly(e: string)
    requires e in Categories[5].extensions
    ensures e !in Categories[0].extensions && e !in Categories[1].extensions
  {
  }

  lemma CodeNotLate(e: string)
    requires e in Categories[5].extensions
    ensures e !in Categories[2].extensions && e !in Categories[3].extensions && e !in Categories[4].extensions
  {
  }

  /** Every listed extension resolves to the category listing it. */
  lemma CategoryOfListed(i: nat, e: string)
    requires i < |Categories| && e in Categories[i].extensions
    ensures CategoryOf(e) == Categories[i].name
  {
    if i == 0 { ListedImages(e); }
    else if i == 1 { ListedDocuments(e); }
    else if i == 2 { ListedAudio(e); }
    else if i == 3 { ListedVideo(e); }
    else if i == 4 { ListedArchives(e); }
    else { ListedCode(e); }
  }

  /** An extension no category lists goes to `Others`. */
  lemma CategoryOfUnlisted(e: string)
    requires forall i :: 0 <= i < |Categories| ==> e !in Categories[i].extensions
    ensures CategoryOf(e) == Others
  {
  }

  /** The category names differ from each other and from `Others`. */
  lemma NamesDistinct(i: nat, j: nat)
    requires i < j < |Categories|
    ensures Categories[i].name != Categories[j].name && Categories[i].name != Others
    ensures |Categories[i].name| >= 4 && |Categories[j].name| >= 4
  {
    if i == 2 && j == 3 {
      assert Categories[i].name[0] != Categories[j].name[0];
    }
  }

  /** No extension is listed by two categories. */
  lemma CategoriesDisjoint(i: nat, j: nat, e: string)
    requires i < |Categories| && j < |Categories| && i != j
    requires e in Categories[i].extensions
    ensures e !in Categories[j].extensions
  {
    if e in Categories[j].extensions {
      CategoryOfListed(i, e);
      CategoryOfListed(j, e);
      if i < j { NamesDistinct(i, j); } else { NamesDistinct(j, i); }
    }
  }

  /** One entry of `os.listdir`: its name, and whether `os.path.isfile` holds for it. */
  datatype Entry = Entry(name: string, isFile: bool)

  /** A move of a file into a category folder. */
  datatype Move = Move(name: string, category: string)

  /** The number of files in the listing. */
  function CountFiles(entries: seq<Entry>): (n: nat)
    ensures n <= |entries|
  {
    if entries == [] then 0
    else CountFiles(entries[..|entries| - 1]) + (if entries[|entries| - 1].isFile then 1 else 0)
  }

  /** The move an entry gives rise to: none for a non-file or a file without an extension. */
  function MoveOf(e: Entry): seq<Move> {
    if !e.isFile || GetExtension(e.name) == "" then []
    else [Move(e.name, CategoryOf(GetExtension(e.name)))]
  }

  /** The moves of the second loop, in listing order. */
  function Moves(entries: seq<Entry>): (r: seq<Move>)
    ensures |r| <= CountFiles(entries)
  {
    if entries == [] then []
    else Moves(entries[..|entries| - 1]) + MoveOf(entries[|entries| - 1])
  }

  /** Every move is of a listed file with an extension, into that extension's category. */
  lemma {:induction false} MovesAreFilesWithExtensions(entries: seq<Entry>, m: Move)
    requires m in Moves(entries)
    ensures exists e :: e in entries && e.isFile && e.name == m.name && GetExtension(e.name) != ""
                        && m.category == CategoryOf(GetExtension(e.name))
  {
    var n := |entries|;
    var last := entries[n - 1];
    if m in Moves(entries[..n - 1]) {
      MovesAreFilesWithExtensions(entries[..n - 1], m);
      var e :| e in entries[..n - 1] && e.isFile && e.name == m.name && GetExtension(e.name) != ""
               && m.category == CategoryOf(GetExtension(e.name));
      assert e in entries;
    } else {
      assert m in MoveOf(last);
      assert last in entries;
    }
  }

  /** Every folder a file moves to is one of the categories or `Others`, at least four letters long. */
  lemma MoveCategoryIsFolder(entries: seq<Entry>, m: Move)
    requires m in Moves(entries)
    ensures m.category == Others || exists i :: 0 <= i < |Categories| && m.category == Categories[i].name
    ensures |m.category| >= 4
  {
    MovesAreFilesWithExtensions(entries, m);
    if m.category != Others {
      var i :| 0 <= i < |Categories| && m.category == Categories[i].name;
      if i < 5 { NamesDistinct(i, 5); } else { NamesDistinct(0, 5); }
    }
  }

  /** Every folder name is at least four letters long and is not an absolute path. */
  lemma CategoryShape(ext: string)
    ensures |CategoryOf(ext)| >= 4 && CategoryOf(ext)[0] != '/'
  {
    var c := CategoryOf(ext);
    if c != Others {
      var i :| 0 <= i < |Categories| && c == Categories[i].name && ext in Categories[i].extensions;
      assert c[0] != '/';
    }
  }

  /** The file path and its destination never coincide, since the category folder lies in between. */
  lemma DestinationDiffers(directory: string, category: string, name: string)
    requires |category| >= 2 && category[0] != '/' && '/' !in name
    ensures PathJoin(directory, name) != PathJoin(PathJoin(directory, category), name)
  {
    assert name == [] || name[0] != '/' by {
      if name != [] { assert name[0] in name; }
    }
  }

  /** One more entry of the second loop: a move exactly for a file with an extension, to a different path. */
  lemma MoveStep(directory: string, entries: seq<Entry>, i: nat)
    requires i < |entries| && '/' !in entries[i].name
    ensures var e := entries[i]; var ext := GetExtension(e.name);
      (!e.isFile || ext == "" ==> Moves(entries[..i + 1]) == Moves(entries[..i]))
      && (e.isFile && ext != "" ==>
            Moves(entries[..i + 1]) == Moves(entries[..i]) + [Move(e.name, CategoryOf(ext))]
            && PathJoin(directory, e.name) != PathJoin(PathJoin(directory, CategoryOf(ext)), e.name))
  {
    assert entries[..i + 1][..i] == entries[..i];
    var e := entries[i];
    var ext := GetExtension(e.name);
    if e.isFile && ext != "" {
      CategoryShape(ext);
      DestinationDiffers(directory, CategoryOf(ext), e.name);
    }
  }

  /** The moves of a prefix of the listing are a prefix of the moves of the whole listing. */
  lemma {:induction false} MovesPrefix(entries: seq<Entry>, i: nat)
    requires i <= |entries|
    ensures |Moves(entries[..i])| <= |Moves(entries)|
    ensures Moves(entries)[..|Moves(entries[..i])|] == Moves(entries[..i])
    decreases |entries|
  {
    if i == |entries| {
      assert entries[..i] == entries;
    } else {
      var init := entries[..|entries| - 1];
      MovesPrefix(init, i);
      assert init[..i] == entries[..i];
      PrefixOfConcat(Moves(init), MoveOf(entries[|entries| - 1]), |Moves(entries[..i])|);
    }
  }

  lemma PrefixOfConcat<T>(a: seq<T>, b: seq<T>, k: nat)
    requires k <= |a|
    ensures (a + b)[..k] == a[..k]
  {
  }

  /** The moves made before a file with an extension are a proper prefix of all the moves. */
  lemma RaiseAt(entries: seq<Entry>, i: nat)
    requires i < |entries| && entries[i].isFile && GetExtension(entries[i].name) != ""
    ensures |Moves(entries[..i])| < |Moves(entries)|
    ensures Moves(entries)[..|Moves(entries[..i])|] == Moves(entries[..i])
  {
    MovesPrefix(entries, i);
    MovesPrefix(entries, i + 1);
    assert entries[..i + 1][..i] == entries[..i];
  }

  /**
   * `organize_files` on a listing whose names hold no `/` (as `os.listdir`
   * gives them): it counts the files, returns early when there are none, and
   * otherwise moves every file with an extension to its category folder,
   * counting the moves.  `failAt` is the attempted move, counted from 0,
   * whose `makedirs` or `shutil.move` raises, if any: the exception leaves
   * the loop, and `raised` reports it.
   */
  method OrganizeFiles(directory: string, entries: seq<Entry>, failAt: Option<nat>)
    returns (total: nat, organized: nat, moves: seq<Move>, raised: bool)
    requires forall i :: 0 <= i < |entries| ==> '/' !in entries[i].name
    ensures total == CountFiles(entries)
    ensures total == 0 ==> moves == [] && organized == 0 && !raised
    ensures total > 0 ==> (raised <==> failAt.Some? && failAt.value < |Moves(entries)|)
    ensures total > 0 ==> moves == (if raised then Moves(entries)[..failAt.value] else Moves(entries))
    ensures organized == |moves| <= total
  {
    total, organized, moves, raised := 0, 0, [], false;
    for i := 0 to |entries|
      invariant total == CountFiles(entries[..i])
    {
      assert entries[..i + 1][..i] == entries[..i];
      if entries[i].isFile {
        total := total + 1;
      }
    }
    assert entries[..|entries|] == entries;
    if total == 0 {
      return;
    }
    organized, moves, raised := MoveFiles(directory, entries, failAt);
  }

  /**
   * The second loop of `organize_files`: the moves made, one per file with
   * an extension, up to the attempted move `failAt` that raises.
   */
  method MoveFiles(directory: string, entries: seq<Entry>, failAt: Option<nat>)
    returns (organized: nat, moves: seq<Move>, raised: bool)
    requires forall i :: 0 <= i < |entries| ==> '/' !in entries[i].name
    ensures raised <==> failAt.Some? && failAt.value < |Moves(entries)|
    ensures moves == (if raised then Moves(entries)[..failAt.value] else Moves(entries))
    ensures organized == |moves|
  {
    organized, moves, raised := 0, [], false;
    for i := 0 to |entries|
      invariant moves == Moves(entries[..i]) && organized == |moves|
      invariant failAt.Some? ==> failAt.value >= |moves|
    {
      MoveStep(directory, entries, i);
      var filename := entries[i].name;
      var filePath := PathJoin(directory, filename);
      if !entries[i].isFile {
        continue;
      }
      var extension := GetExtension(filename);
      if extension == "" {
        continue;
      }
      var category := FindCategory(extension);
      var destination := PathJoin(PathJoin(directory, category), filename);
      if failAt.Some? && failAt.value == organized {
        RaiseAt(entries, i);
        return organized, moves, true;
      }
      if filePath != destination {
        moves := moves + [Move(filename, category)];
        organized := organized + 1;
      }
    }
    assert entries[..|entries|] == entries;
  }
}
