/** The pieces both copier versions share: the car code taken from a file
    stem, and the two first-match searches over the folder list. */
module Matching {
  import opened Wrappers
  import opened Text
  import opened Listing

  /** `stem.split('_')[2].lower()`, or None where indexing the third
      segment raises `IndexError`. */
  function CarCode(stem: string): (r: Option<string>)
    ensures r.None? <==> Count(stem, '_') < 2
  {
    SplitCount(stem, '_');
    var segs := Split(stem, '_');
    if |segs| >= 3 then Some(Lower(segs[2])) else None
  }

  /** A car code is already lower-case, so main.py's second `.lower()`
      changes nothing. */
  lemma CarCodeIsLowerCase(stem: string)
    requires CarCode(stem).Some?
    ensures Lower(CarCode(stem).value) == CarCode(stem).value
  {
    LowerIdempotent(Split(stem, '_')[2]);
  }

  /** For a stem made of `_`-free segments, the car code is the lower-cased
      third segment when there are at least three, whatever follows it; with
      fewer there is none. */
  lemma CarCodeOfSegments(segs: seq<string>)
    requires |segs| >= 1
    requires forall i :: 0 <= i < |segs| ==> '_' !in segs[i]
    ensures CarCode(Join(segs, '_')) == if |segs| >= 3 then Some(Lower(segs[2])) else None
  {
    SplitJoin(segs, '_');
  }

  /** A stem with an empty third segment, such as "A_B__C", has the empty
      car code. */
  lemma EmptyCarCode()
    ensures CarCode("A_B__C") == Some("")
  {
    CarCodeOfSegments(["A", "B", "", "C"]);
    assert Join(["A", "B", "", "C"], '_') == "A_B__C";
  }

  /** The substring test of both versions: `car_code in folder.name.lower()`. */
  predicate NameContains(g: Folder, key: string)
  {
    Contains(key, Lower(g.name))
  }

  /** The mapped-name test of main.py: `folder.name.lower() == folder_name.lower()`. */
  predicate NameIs(g: Folder, name: string)
  {
    Lower(g.name) == Lower(name)
  }

  /** Position of the first folder whose lower-cased name contains `key`. */
  function IndexContaining(folders: seq<Folder>, key: string): (r: Option<nat>)
    ensures r.Some? ==> r.value < |folders| && NameContains(folders[r.value], key)
    ensures r.Some? ==> forall j :: 0 <= j < r.value ==> !NameContains(folders[j], key)
    ensures r.None? ==> forall j :: 0 <= j < |folders| ==> !NameContains(folders[j], key)
  {
    if folders == [] then None
    else if NameContains(folders[0], key) then Some(0)
    else
      match IndexContaining(folders[1..], key)
      case Some(i) => Some(i + 1)
      case None => None
  }

  /** Position of the first folder whose name equals `name` up to letter case. */
  function IndexNamed(folders: seq<Folder>, name: string): (r: Option<nat>)
    ensures r.Some? ==> r.value < |folders| && NameIs(folders[r.value], name)
    ensures r.Some? ==> forall j :: 0 <= j < r.value ==> !NameIs(folders[j], name)
    ensures r.None? ==> forall j :: 0 <= j < |folders| ==> !NameIs(folders[j], name)
  {
    if folders == [] then None
    else if NameIs(folders[0], name) then Some(0)
    else
      match IndexNamed(folders[1..], name)
      case Some(i) => Some(i + 1)
      case None => None
  }

  /** The first folder whose lower-cased name contains `key` is the one the
      search finds. */
  lemma FirstContainingFound(folders: seq<Folder>, key: string, j: nat)
    requires j < |folders| && NameContains(folders[j], key)
    requires forall m :: 0 <= m < j ==> !NameContains(folders[m], key)
    ensures IndexContaining(folders, key) == Some(j)
  {
    var r := IndexContaining(folders, key);
    if r.Some? && r.value < j {
      assert false;
    }
  }

  /** The folder at a found position. */
  function FolderAt(folders: seq<Folder>, r: Option<nat>): Option<Folder>
    requires r.Some? ==> r.value < |folders|
  {
    match r
    case Some(i) => Some(folders[i])
    case None => None
  }

  /** The empty car code is in every name, so it picks the first folder. */
  lemma EmptyKeyPicksFirst(folders: seq<Folder>)
    requires |folders| > 0
    ensures IndexContaining(folders, "") == Some(0)
  {
  }

  /** The search loop: walk the folders in order and stop at the first one
      whose lower-cased name contains `key`. */
  method FindFolder(folders: seq<Folder>, key: string) returns (m: Option<Folder>)
    ensures m == FolderAt(folders, IndexContaining(folders, key))
  {
    m := None;
    var i := 0;
    while i < |folders|
      invariant 0 <= i <= |folders|
      invariant forall j :: 0 <= j < i ==> !NameContains(folders[j], key)
    {
      if Contains(key, Lower(folders[i].name)) {
        m := Some(folders[i]);
        break;
      }
      i := i + 1;
    }
  }
}
