/** `extract_car_code` and `copy_setup_files` of src/main.py: the car code is
    first looked up in a table built from the alias mapping file, and the
    folder named by the table wins; otherwise the first folder whose name
    contains the code. */
module AliasCopier {
  import opened Wrappers
  import opened Text
  import opened Listing
  import opened Batch
  import opened Matching

  /** The loaded alias mapping: the items of the dictionary that
      `json.load` returns, in the order it iterates them. Comparisons up to
      letter case can still make two of them collide. */
  type Aliases = seq<(string, string)>

  /** A dictionary's items: no key occurs twice. */
  predicate DistinctKeys(aliases: Aliases)
  {
    forall i, j :: 0 <= i < j < |aliases| ==> aliases[i].0 != aliases[j].0
  }

  /** `extract_car_code(filename)`: the lower-cased third `_`-separated
      segment, or the `ValueError` message when there is none. */
  function ExtractCarCode(filename: string): (r: Result<string, string>)
    ensures r.Success? <==> Count(filename, '_') >= 2
    ensures r.Success? ==> CarCode(filename) == Some(r.value)
    ensures r.Failure? ==> r.error == "Invalid filename format: " + filename
                                      + ". Expected format: VRS_25S1DS_CARCODE_*.sto"
  {
    match CarCode(filename)
    case Some(code) => Success(code)
    case None => Failure("Invalid filename format: " + filename + ". Expected format: VRS_25S1DS_CARCODE_*.sto")
  }

  /** `{v.lower(): v for v in values}`: every value, lower-cased, names
      itself; of two values equal up to case the later one stays. */
  function DefaultMapping(aliases: Aliases): (r: map<string, string>)
    ensures aliases != [] ==> Lower(aliases[|aliases| - 1].1) in r
                              && r[Lower(aliases[|aliases| - 1].1)] == aliases[|aliases| - 1].1
  {
    if aliases == [] then map[]
    else
      var last := aliases[|aliases| - 1];
      DefaultMapping(aliases[..|aliases| - 1])[Lower(last.1) := last.1]
  }

  /** Every key of the defaults names a value equal to it up to case. */
  lemma {:induction false} DefaultNamesItself(aliases: Aliases, k: string)
    requires k in DefaultMapping(aliases)
    ensures Lower(DefaultMapping(aliases)[k]) == k
  {
    if aliases != [] && k != Lower(aliases[|aliases| - 1].1) {
      DefaultNamesItself(aliases[..|aliases| - 1], k);
    }
  }

  /** The defaults' keys are exactly the lower-cased values. */
  lemma {:induction false} DefaultKeys(aliases: Aliases)
    ensures DefaultMapping(aliases).Keys == set p | p in aliases :: Lower(p.1)
  {
    if aliases != [] {
      var init := aliases[..|aliases| - 1];
      DefaultKeys(init);
      assert aliases == init + [aliases[|aliases| - 1]];
    }
  }

  /** `{k.lower(): v for k, v in items if k}`: every non-empty key,
      lower-cased, names its value; empty keys are dropped; of two keys
      equal up to case the later one stays. */
  function AliasOverrides(aliases: Aliases): (r: map<string, string>)
    ensures [] !in r
  {
    if aliases == [] then map[]
    else
      var last := aliases[|aliases| - 1];
      var init := AliasOverrides(aliases[..|aliases| - 1]);
      if last.0 != [] then init[Lower(last.0) := last.1] else init
  }

  /** The overrides' keys are exactly the lower-cased non-empty keys. */
  lemma {:induction false} OverrideKeys(aliases: Aliases)
    ensures AliasOverrides(aliases).Keys == set p | p in aliases && p.0 != [] :: Lower(p.0)
  {
    if aliases != [] {
      var init := aliases[..|aliases| - 1];
      OverrideKeys(init);
      assert aliases == init + [aliases[|aliases| - 1]];
    }
  }

  /** `folder_mapping`: the defaults, then `update` with the overrides. */
  function FolderMapping(aliases: Aliases): (r: map<string, string>)
    ensures r.Keys == DefaultMapping(aliases).Keys + AliasOverrides(aliases).Keys
    ensures forall k :: k in AliasOverrides(aliases) ==> r[k] == AliasOverrides(aliases)[k]
  {
    DefaultMapping(aliases) + AliasOverrides(aliases)
  }

  /** In the final table an override entry is kept unchanged, and every
      other entry names a value equal to its key up to case. */
  lemma FolderMappingEntry(aliases: Aliases, k: string)
    requires k in FolderMapping(aliases)
    ensures k in AliasOverrides(aliases) ==> FolderMapping(aliases)[k] == AliasOverrides(aliases)[k]
    ensures k !in AliasOverrides(aliases) ==> Lower(FolderMapping(aliases)[k]) == k
  {
    if k !in AliasOverrides(aliases) {
      DefaultNamesItself(aliases, k);
    }
  }

  /** A non-empty alias key that no later non-empty key equals up to case
      maps, lower-cased, to its own value, whatever the defaults say. */
  lemma {:induction false} OverrideWins(aliases: Aliases, i: nat)
    requires i < |aliases| && aliases[i].0 != []
    requires forall j :: i < j < |aliases| && aliases[j].0 != [] ==> Lower(aliases[j].0) != Lower(aliases[i].0)
    ensures Lower(aliases[i].0) in FolderMapping(aliases)
    ensures FolderMapping(aliases)[Lower(aliases[i].0)] == aliases[i].1
  {
    OverrideLast(aliases, i);
  }

  lemma {:induction false} OverrideLast(aliases: Aliases, i: nat)
    requires i < |aliases| && aliases[i].0 != []
    requires forall j :: i < j < |aliases| && aliases[j].0 != [] ==> Lower(aliases[j].0) != Lower(aliases[i].0)
    ensures Lower(aliases[i].0) in AliasOverrides(aliases)
    ensures AliasOverrides(aliases)[Lower(aliases[i].0)] == aliases[i].1
  {
    if i < |aliases| - 1 {
      OverrideLast(aliases[..|aliases| - 1], i);
    }
  }

  lemma {:induction false} DefaultLast(aliases: Aliases, i: nat)
    requires i < |aliases|
    ensures Lower(aliases[i].1) in DefaultMapping(aliases)
    ensures Lower(DefaultMapping(aliases)[Lower(aliases[i].1)]) == Lower(aliases[i].1)
    ensures (forall j :: i < j < |aliases| ==> Lower(aliases[j].1) != Lower(aliases[i].1))
            ==> DefaultMapping(aliases)[Lower(aliases[i].1)] == aliases[i].1
  {
    var n := |aliases|;
    if i < n - 1 {
      DefaultLast(aliases[..n - 1], i);
      var last := aliases[n - 1];
      if Lower(last.1) == Lower(aliases[i].1) {
        LowerIdempotent(last.1);
      }
    }
  }

  /** Every mapping value, lower-cased, is a key of the table; unless an
      alias key claims the same lower-cased text, it maps to a value equal
      to itself up to case, and to exactly itself if no later value repeats
      it. */
  lemma ValueMapsToItself(aliases: Aliases, i: nat)
    requires i < |aliases|
    requires forall j :: 0 <= j < |aliases| && aliases[j].0 != [] ==> Lower(aliases[j].0) != Lower(aliases[i].1)
    ensures Lower(aliases[i].1) in FolderMapping(aliases)
    ensures Lower(FolderMapping(aliases)[Lower(aliases[i].1)]) == Lower(aliases[i].1)
    ensures (forall j :: i < j < |aliases| ==> Lower(aliases[j].1) != Lower(aliases[i].1))
            ==> FolderMapping(aliases)[Lower(aliases[i].1)] == aliases[i].1
  {
    DefaultLast(aliases, i);
    OverrideKeys(aliases);
    assert Lower(aliases[i].1) !in AliasOverrides(aliases);
  }

  /** The table's keys are the lower-cased values and the lower-cased
      non-empty keys, and nothing else. */
  lemma MappingKeys(aliases: Aliases, k: string)
    ensures k in FolderMapping(aliases)
            <==> ((exists p :: p in aliases && Lower(p.1) == k)
                  || (exists p :: p in aliases && p.0 != [] && Lower(p.0) == k))
  {
    DefaultKeys(aliases);
    OverrideKeys(aliases);
  }

  /** Updating the defaults before the overrides are laid over them. */
  lemma UpdateUnderOverlay(d: map<string, string>, o: map<string, string>, k: string, v: string)
    ensures d[k := v] + o == if k in o then d + o else (d + o)[k := v]
  {
  }

  /** An alias with an empty key adds only its value's self-mapping. */
  lemma EmptyKeyIgnored(aliases: Aliases, v: string)
    ensures FolderMapping(aliases + [([], v)])
         == if Lower(v) in AliasOverrides(aliases) then FolderMapping(aliases)
            else FolderMapping(aliases)[Lower(v) := v]
  {
    var a := aliases + [([], v)];
    assert a[..|a| - 1] == aliases && a[|a| - 1] == ([], v);
    assert DefaultMapping(a) == DefaultMapping(aliases)[Lower(v) := v];
    assert AliasOverrides(a) == AliasOverrides(aliases);
    UpdateUnderOverlay(DefaultMapping(aliases), AliasOverrides(aliases), Lower(v), v);
  }

  /** Where a file with car code `key` goes: the first folder named, up to
      case, by the table's entry for the code; failing that, the first
      folder whose lower-cased name contains the code. */
  function ResolveFolder(table: map<string, string>, folders: seq<Folder>, key: string): (r: Option<Folder>)
    ensures r.Some? ==> r.value in folders
    ensures r.Some? ==> NameContains(r.value, Lower(key)) || (Lower(key) in table && NameIs(r.value, table[Lower(key)]))
  {
    var byTable := if Lower(key) in table then FolderAt(folders, IndexNamed(folders, table[Lower(key)])) else None;
    if byTable.Some? then byTable else FolderAt(folders, IndexContaining(folders, Lower(key)))
  }

  /** When the table has an entry for the code and some folder carries
      that name up to case, the first such folder in list order wins, even
      if an earlier folder contains the code. */
  lemma ResolveByTable(table: map<string, string>, folders: seq<Folder>, key: string, j: nat)
    requires Lower(key) in table
    requires j < |folders| && NameIs(folders[j], table[Lower(key)])
    requires forall m :: 0 <= m < j ==> !NameIs(folders[m], table[Lower(key)])
    ensures ResolveFolder(table, folders, key) == Some(folders[j])
  {
  }

  /** When the table has no entry for the code, or no folder carries the
      name it gives, the first folder whose lower-cased name contains the
      code wins; with none, the file has no destination. */
  lemma ResolveBySubstring(table: map<string, string>, folders: seq<Folder>, key: string)
    requires Lower(key) in table ==> forall m :: 0 <= m < |folders| ==> !NameIs(folders[m], table[Lower(key)])
    ensures (forall m :: 0 <= m < |folders| ==> !NameContains(folders[m], Lower(key)))
            ==> ResolveFolder(table, folders, key).None?
    ensures forall j :: 0 <= j < |folders| && NameContains(folders[j], Lower(key))
                        && (forall m :: 0 <= m < j ==> !NameContains(folders[m], Lower(key)))
                        ==> ResolveFolder(table, folders, key) == Some(folders[j])
  {
    TableMisses(table, folders, key);
    forall j | 0 <= j < |folders| && NameContains(folders[j], Lower(key))
                && (forall m :: 0 <= m < j ==> !NameContains(folders[m], Lower(key)))
      ensures IndexContaining(folders, Lower(key)) == Some(j)
    {
      FirstContainingFound(folders, Lower(key), j);
    }
  }

  /** With no folder carrying the table's name, the result is the
      substring search's. */
  lemma TableMisses(table: map<string, string>, folders: seq<Folder>, key: string)
    requires Lower(key) in table ==> forall m :: 0 <= m < |folders| ==> !NameIs(folders[m], table[Lower(key)])
    ensures ResolveFolder(table, folders, key) == FolderAt(folders, IndexContaining(folders, Lower(key)))
  {
    if Lower(key) in table {
      var n := IndexNamed(folders, table[Lower(key)]);
      if n.Some? {
        assert false;
      }
    }
  }

  /** The one entry file `f` contributes, given the lookup table, the
      folders in list order and the destinations whose copy raises. */
  function Classify(table: map<string, string>, folders: seq<Folder>, faults: map<Dest, string>, f: SetupFile): (r: Outcome)
    ensures r.Copied? ==> r.dest.1 == f.name && r.content == f.content && r.dest !in faults
    ensures r.Copied? ==> Folder(r.dest.0) in folders
    ensures r.Copied? ==> r.entry == f.name + " -> " + r.dest.0
    ensures ExtractCarCode(Stem(f.name)).Failure? ==> r == Failed(ExtractCarCode(Stem(f.name)).error)
  {
    match ExtractCarCode(Stem(f.name))
    case Failure(msg) => Failed(msg)
    case Success(key) =>
      match ResolveFolder(table, folders, key)
      case None => Failed("No matching folder found for car code '" + key + "' in " + f.name)
      case Some(g) =>
        var dest := (g.name, f.name);
        if dest in faults then Failed("Error copying " + f.name + ": " + faults[dest])
        else Copied(dest, f.content, f.name + " -> " + g.name)
  }

  /** The outcomes of a whole run, file by file in list order. */
  function Outcomes(table: map<string, string>, folders: seq<Folder>, faults: map<Dest, string>,
                    files: seq<SetupFile>): (r: seq<Outcome>)
    ensures |r| == |files|
  {
    if files == [] then []
    else Outcomes(table, folders, faults, files[..|files| - 1]) + [Classify(table, folders, faults, files[|files| - 1])]
  }

  /** Outcome `i` of a run is the outcome of file `i` alone. */
  lemma {:induction false} OutcomeOfEachFile(table: map<string, string>, folders: seq<Folder>, faults: map<Dest, string>,
                                             files: seq<SetupFile>, i: nat)
    requires i < |files|
    ensures Outcomes(table, folders, faults, files)[i] == Classify(table, folders, faults, files[i])
  {
    if i < |files| - 1 {
      OutcomeOfEachFile(table, folders, faults, files[..|files| - 1], i);
    }
  }

  /** The outcomes of the first `k + 1` files: those of the first `k`, then
      file `k`'s. */
  lemma OutcomesStep(table: map<string, string>, folders: seq<Folder>, faults: map<Dest, string>,
                     files: seq<SetupFile>, k: nat)
    requires k < |files|
    ensures Outcomes(table, folders, faults, files[..k + 1])
         == Outcomes(table, folders, faults, files[..k]) + [Classify(table, folders, faults, files[k])]
  {
    assert files[..k + 1][..k] == files[..k];
  }

  /** The copy loop: build the table, then classify and copy file by file. */
  method CopySetupFiles(store: SetupStore, aliases: Aliases, folders: seq<Folder>, files: seq<SetupFile>)
    returns (copied: seq<string>, errors: seq<string>)
    requires DistinctKeys(aliases)
    modifies store
    ensures copied == Successes(Outcomes(FolderMapping(aliases), folders, store.faults, files))
    ensures errors == Failures(Outcomes(FolderMapping(aliases), folders, store.faults, files))
    ensures store.files == Apply(old(store.files), Outcomes(FolderMapping(aliases), folders, store.faults, files))
  {
    copied, errors := [], [];
    var folderMapping := DefaultMapping(aliases);
    folderMapping := folderMapping + AliasOverrides(aliases);
    for k := 0 to |files|
      invariant copied == Successes(Outcomes(folderMapping, folders, store.faults, files[..k]))
      invariant errors == Failures(Outcomes(folderMapping, folders, store.faults, files[..k]))
      invariant store.files == Apply(old(store.files), Outcomes(folderMapping, folders, store.faults, files[..k]))
    {
      var f := files[k];
      ghost var o := Classify(folderMapping, folders, store.faults, f);
      OutcomesStep(folderMapping, folders, store.faults, files, k);
      RunStep(old(store.files), Outcomes(folderMapping, folders, store.faults, files[..k]), o);
      var code := ExtractCarCode(Stem(f.name));
      if code.Failure? {
        errors := errors + [code.error];
        continue;
      }
      var carCode := code.value;
      var matching: Option<Folder> := None;
      if Lower(carCode) in folderMapping {
        var folderName := folderMapping[Lower(carCode)];
        matching := FolderAt(folders, IndexNamed(folders, folderName));
      }
      if matching.None? {
        matching := FindFolder(folders, Lower(carCode));
      }
      if matching.Some? {
        var err := store.Copy((matching.value.name, f.name), f.content);
        if err.None? {
          copied := copied + [f.name + " -> " + matching.value.name];
        } else {
          errors := errors + ["Error copying " + f.name + ": " + err.value];
        }
      } else {
        errors := errors + ["No matching folder found for car code '" + carCode + "' in " + f.name];
      }
    }
    assert files[..|files|] == files;
  }

  /** Every file contributes exactly one entry: the two lists together are
      as long as the file list. */
  lemma RunReportsEveryFile(table: map<string, string>, folders: seq<Folder>, faults: map<Dest, string>,
                            files: seq<SetupFile>)
    ensures |Successes(Outcomes(table, folders, faults, files))|
            + |Failures(Outcomes(table, folders, faults, files))| == |files|
  {
    EveryFileReported(Outcomes(table, folders, faults, files));
  }

  /** A stem with fewer than three `_`-separated segments yields exactly
      the `ValueError` message of `extract_car_code`, naming the stem, and
      no copy. */
  lemma InvalidNameReported(table: map<string, string>, folders: seq<Folder>, faults: map<Dest, string>,
                            files: seq<SetupFile>, i: nat)
    requires i < |files| && |Split(Stem(files[i].name), '_')| < 3
    ensures Outcomes(table, folders, faults, files)[i]
         == Failed("Invalid filename format: " + Stem(files[i].name) + ". Expected format: VRS_25S1DS_CARCODE_*.sto")
  {
    SplitCount(Stem(files[i].name), '_');
    OutcomeOfEachFile(table, folders, faults, files, i);
  }

  /** A file whose code resolves to folder `g` is copied into `g` under its
      own name and reported as "<name> -> <folder>", unless that copy
      raises; with no folder it gets the no-match error. */
  lemma ResolvedFileReported(table: map<string, string>, folders: seq<Folder>, faults: map<Dest, string>,
                             files: seq<SetupFile>, i: nat, key: string)
    requires i < |files| && CarCode(Stem(files[i].name)) == Some(key)
    ensures ResolveFolder(table, folders, key).None?
            ==> Outcomes(table, folders, faults, files)[i]
                == Failed("No matching folder found for car code '" + key + "' in " + files[i].name)
    ensures ResolveFolder(table, folders, key).Some?
            ==> (var g := ResolveFolder(table, folders, key).value;
                 var dest := (g.name, files[i].name);
                 Outcomes(table, folders, faults, files)[i]
                 == if dest in faults then Failed("Error copying " + files[i].name + ": " + faults[dest])
                    else Copied(dest, files[i].content, files[i].name + " -> " + g.name))
  {
    OutcomeOfEachFile(table, folders, faults, files, i);
  }

  /** A car code equal to an alias value, which no alias key claims, goes
      to the first folder carrying that name up to case: the only way this
      version reaches an exact folder-name match before the substring
      search. */
  lemma ExactNameThroughValue(aliases: Aliases, folders: seq<Folder>, key: string, i: nat, j: nat)
    requires i < |aliases| && Lower(aliases[i].1) == key
    requires forall m :: 0 <= m < |aliases| && aliases[m].0 != [] ==> Lower(aliases[m].0) != key
    requires j < |folders| && Lower(folders[j].name) == key
    requires forall m :: 0 <= m < j ==> Lower(folders[m].name) != key
    ensures ResolveFolder(FolderMapping(aliases), folders, key) == Some(folders[j])
  {
    ValueMapsToItself(aliases, i);
    LowerIdempotent(aliases[i].1);
    var table := FolderMapping(aliases);
    assert Lower(key) == key by { LowerIdempotent(aliases[i].1); }
    assert Lower(table[key]) == key;
    ResolveByTable(table, folders, key, j);
  }

  /** The empty car code of a stem such as "A_B__C" takes the first folder,
      unless the table's entry for "" names a listed folder. */
  lemma EmptyKeyPicksFirstFolder(table: map<string, string>, folders: seq<Folder>)
    requires |folders| > 0
    requires "" in table ==> forall m :: 0 <= m < |folders| ==> !NameIs(folders[m], table[""])
    ensures ResolveFolder(table, folders, "") == Some(folders[0])
  {
  }

  /** Same inputs, same results: a rerun leaves the store as the first run
      left it. */
  lemma RerunIsIdempotent(store: map<Dest, Content>, table: map<string, string>, folders: seq<Folder>,
                          faults: map<Dest, string>, files: seq<SetupFile>)
    ensures Apply(Apply(store, Outcomes(table, folders, faults, files)), Outcomes(table, folders, faults, files))
         == Apply(store, Outcomes(table, folders, faults, files))
  {
    ApplyIdempotent(store, Outcomes(table, folders, faults, files));
  }
}
