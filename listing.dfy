/** The two directory enumerators: the vehicle folders under the simulator's
    setups directory, and the `.sto` files of the working directory. A
    directory listing is an ordered sequence of entries; the order is
    whatever the operating system returns and is taken as given. */
module Listing {
  import opened Wrappers
  import opened Text

  /** File contents, as bytes. */
  type Content = seq<bv8>

  /** One entry of a directory listing: a regular file, a directory, or
      something that is neither (a broken link, a socket, ...). */
  datatype Entry =
    | FileEntry(name: string, content: Content)
    | DirEntry(name: string)
    | OtherEntry(name: string)

  /** A destination folder, known by its name inside the setups directory. */
  datatype Folder = Folder(name: string)

  /** A source setup file: its name in the working directory and its bytes. */
  datatype SetupFile = SetupFile(name: string, content: Content)

  /** `s.rfind(c)`: the position of the last `c` in `s`, if any. */
  function LastIndexOf(s: string, c: char): (r: Option<nat>)
    ensures r.None? <==> c !in s
    ensures r.Some? ==> r.value < |s| && s[r.value] == c
    ensures r.Some? ==> forall j :: r.value < j < |s| ==> s[j] != c
  {
    if s == [] then None
    else if s[|s| - 1] == c then Some(|s| - 1)
    else
      assert s == s[..|s| - 1] + [s[|s| - 1]];
      LastIndexOf(s[..|s| - 1], c)
  }

  /** Where a path name's suffix starts: at its last dot, provided that dot
      is neither the first nor the last character (pathlib's rule, so
      ".bashrc" and "name." have no suffix). */
  function SuffixStart(name: string): (r: Option<nat>)
    ensures r.Some? ==> 0 < r.value < |name| - 1 && name[r.value] == '.'
  {
    match LastIndexOf(name, '.')
    case Some(i) => if 0 < i < |name| - 1 then Some(i) else None
    case None => None
  }

  /** `Path(name).suffix`. */
  function Suffix(name: string): (r: string)
    ensures r != [] ==> |r| >= 2 && r[0] == '.' && '.' !in r[1..]
    ensures r != [] ==> |r| < |name|
  {
    match SuffixStart(name)
    case Some(i) => name[i..]
    case None => []
  }

  /** `Path(name).stem`. */
  function Stem(name: string): (r: string)
    ensures r <= name
    ensures name != [] ==> r != []
  {
    match SuffixStart(name)
    case Some(i) => name[..i]
    case None => name
  }

  /** Stem and suffix cut the name in two. */
  lemma StemSuffix(name: string)
    ensures Stem(name) + Suffix(name) == name
    ensures Suffix(name) == [] || Suffix(name)[0] == '.'
  {
  }

  /** The file filter's test: `file.suffix.lower() == '.sto'`. */
  predicate IsSetupName(name: string)
  {
    Lower(Suffix(name)) == ".sto"
  }

  /** A setup file name is exactly one that ends in ".sto" in any letter
      case after at least one other character; its stem is the name without
      those four characters. */
  lemma SetupName(name: string)
    ensures IsSetupName(name) <==> |name| >= 5 && Lower(name[|name| - 4..]) == ".sto"
    ensures IsSetupName(name) ==> Stem(name) == name[..|name| - 4]
  {
    if |name| >= 5 && Lower(name[|name| - 4..]) == ".sto" {
      var n := |name|;
      assert LowerChar(name[n - 4]) == '.';
      assert name[n - 4] == '.';
      assert LowerChar(name[n - 3]) == 's' && LowerChar(name[n - 2]) == 't' && LowerChar(name[n - 1]) == 'o';
      assert name[n - 3] != '.' && name[n - 2] != '.' && name[n - 1] != '.';
      var r := LastIndexOf(name, '.');
      assert r.Some?;
      assert r.value == n - 4;
    }
    if IsSetupName(name) {
      var i := SuffixStart(name).value;
      assert |Lower(name[i..])| == 4;
    }
  }

  /** What the file filter keeps of one entry. */
  function KeptFile(e: Entry): seq<SetupFile>
  {
    if e.FileEntry? && IsSetupName(e.name) then [SetupFile(e.name, e.content)] else []
  }

  /** The working-directory filter: regular files whose suffix is ".sto" in
      any letter case, in listing order. */
  function SetupFiles(listing: seq<Entry>): (r: seq<SetupFile>)
    ensures forall f :: f in r <==> FileEntry(f.name, f.content) in listing && IsSetupName(f.name)
  {
    if listing == [] then []
    else
      assert listing == [listing[0]] + listing[1..];
      KeptFile(listing[0]) + SetupFiles(listing[1..])
  }

  /** The file filter keeps listing order: it distributes over concatenation. */
  lemma {:induction false} SetupFilesConcat(a: seq<Entry>, b: seq<Entry>)
    ensures SetupFiles(a + b) == SetupFiles(a) + SetupFiles(b)
  {
    if a != [] {
      SetupFilesConcat(a[1..], b);
      assert (a + b)[0] == a[0] && (a + b)[1..] == a[1..] + b;
    } else {
      assert a + b == b;
    }
  }

  /** What the folder filter keeps of one entry. */
  function KeptFolder(e: Entry): seq<Folder>
  {
    if e.DirEntry? then [Folder(e.name)] else []
  }

  /** The folder filter: the directory entries, in listing order. */
  function Folders(listing: seq<Entry>): (r: seq<Folder>)
    ensures forall g :: g in r <==> DirEntry(g.name) in listing
  {
    if listing == [] then []
    else
      assert listing == [listing[0]] + listing[1..];
      KeptFolder(listing[0]) + Folders(listing[1..])
  }

  /** The folder filter keeps listing order: it distributes over concatenation. */
  lemma {:induction false} FoldersConcat(a: seq<Entry>, b: seq<Entry>)
    ensures Folders(a + b) == Folders(a) + Folders(b)
  {
    if a != [] {
      FoldersConcat(a[1..], b);
      assert (a + b)[0] == a[0] && (a + b)[1..] == a[1..] + b;
    } else {
      assert a + b == b;
    }
  }

  /** The setups directory at `root`, with `listing` None when it does not
      exist: a not-found error in that case (nothing is listed), the
      directory entries otherwise. */
  function SetupFolders(root: string, listing: Option<seq<Entry>>): (r: Result<seq<Folder>, string>)
    ensures r.Failure? <==> listing.None?
    ensures r.Failure? ==> r.error == "iRacing setups directory not found at: " + root
    ensures r.Success? ==> forall g :: g in r.value <==> DirEntry(g.name) in listing.value
  {
    match listing
    case None => Failure("iRacing setups directory not found at: " + root)
    case Some(entries) => Success(Folders(entries))
  }
}
