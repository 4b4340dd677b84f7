/** `copy_setup_files` of src/setupCopier.py: each file goes to the first
    folder whose lower-cased name contains the file's car code. */
module SetupCopier {
  import opened Wrappers
  import opened Text
  import opened Listing
  import opened Batch
  import opened Matching

  /** The one entry file `f` contributes, given the folders in list order
      and the destinations whose copy raises. */
  function Classify(folders: seq<Folder>, faults: map<Dest, string>, f: SetupFile): (r: Outcome)
    ensures r.Copied? ==> r.dest.1 == f.name && r.content == f.content && r.dest !in faults
    ensures r.Copied? ==> Folder(r.dest.0) in folders
    ensures r.Copied? ==> CarCode(Stem(f.name)).Some? && NameContains(Folder(r.dest.0), CarCode(Stem(f.name)).value)
    ensures r.Copied? ==> r.entry == f.name + " -> " + r.dest.0
  {
    match CarCode(Stem(f.name))
    case None => Failed("Invalid filename format for " + f.name)
    case Some(key) =>
      match FolderAt(folders, IndexContaining(folders, key))
      case None => Failed("No matching folder found for car code '" + key + "' in " + f.name)
      case Some(g) =>
        var dest := (g.name, f.name);
        if dest in faults then Failed("Error copying " + f.name + ": " + faults[dest])
        else Copied(dest, f.content, f.name + " -> " + g.name)
  }

  /** The outcomes of a whole run, file by file in list order. */
  function Outcomes(folders: seq<Folder>, faults: map<Dest, string>, files: seq<SetupFile>): (r: seq<Outcome>)
    ensures |r| == |files|
  {
    if files == [] then []
    else Outcomes(folders, faults, files[..|files| - 1]) + [Classify(folders, faults, files[|files| - 1])]
  }

  /** Outcome `i` of a run is the outcome of file `i` alone: no file's
      result depends on the files before it. */
  lemma {:induction false} OutcomeOfEachFile(folders: seq<Folder>, faults: map<Dest, string>, files: seq<SetupFile>, i: nat)
    requires i < |files|
    ensures Outcomes(folders, faults, files)[i] == Classify(folders, faults, files[i])
  {
    if i < |files| - 1 {
      OutcomeOfEachFile(folders, faults, files[..|files| - 1], i);
    }
  }

  /** The copy loop. `copied` and `errors` are the two accumulator lists;
      the store receives every successful copy. */
  method CopySetupFiles(store: SetupStore, folders: seq<Folder>, files: seq<SetupFile>)
    returns (copied: seq<string>, errors: seq<string>)
    modifies store
    ensures copied == Successes(Outcomes(folders, store.faults, files))
    ensures errors == Failures(Outcomes(folders, store.faults, files))
    ensures store.files == Apply(old(store.files), Outcomes(folders, store.faults, files))
  {
    copied, errors := [], [];
    for k := 0 to |files|
      invariant copied == Successes(Outcomes(folders, store.faults, files[..k]))
      invariant errors == Failures(Outcomes(folders, store.faults, files[..k]))
      invariant store.files == Apply(old(store.files), Outcomes(folders, store.faults, files[..k]))
    {
      var f := files[k];
      assert files[..k + 1][..k] == files[..k];
      ghost var done := Outcomes(folders, store.faults, files[..k + 1]);
      assert done == Outcomes(folders, store.faults, files[..k]) + [Classify(folders, store.faults, f)];
      assert done[..k] == Outcomes(folders, store.faults, files[..k]);
      var code := CarCode(Stem(f.name));
      if code.None? {
        errors := errors + ["Invalid filename format for " + f.name];
        continue;
      }
      var key := code.value;
      var matching := FindFolder(folders, key);
      if matching.Some? {
        var err := store.Copy((matching.value.name, f.name), f.content);
        if err.None? {
          copied := copied + [f.name + " -> " + matching.value.name];
        } else {
          errors := errors + ["Error copying " + f.name + ": " + err.value];
        }
      } else {
        errors := errors + ["No matching folder found for car code '" + key + "' in " + f.name];
      }
    }
    assert files[..|files|] == files;
  }

  /** Every file contributes exactly one entry: the two lists together are
      as long as the file list. */
  lemma RunReportsEveryFile(folders: seq<Folder>, faults: map<Dest, string>, files: seq<SetupFile>)
    ensures |Successes(Outcomes(folders, faults, files))| + |Failures(Outcomes(folders, faults, files))| == |files|
  {
    EveryFileReported(Outcomes(folders, faults, files));
  }

  /** A stem with fewer than three `_`-separated segments yields the
      invalid-format error and no copy. */
  lemma InvalidNameReported(folders: seq<Folder>, faults: map<Dest, string>, files: seq<SetupFile>, i: nat)
    requires i < |files| && |Split(Stem(files[i].name), '_')| < 3
    ensures Outcomes(folders, faults, files)[i] == Failed("Invalid filename format for " + files[i].name)
  {
    SplitCount(Stem(files[i].name), '_');
    OutcomeOfEachFile(folders, faults, files, i);
  }

  /** A car code that no folder name contains yields the no-match error and
      no copy. */
  lemma NoMatchReported(folders: seq<Folder>, faults: map<Dest, string>, files: seq<SetupFile>, i: nat, key: string)
    requires i < |files| && CarCode(Stem(files[i].name)) == Some(key)
    requires forall j :: 0 <= j < |folders| ==> !NameContains(folders[j], key)
    ensures Outcomes(folders, faults, files)[i]
         == Failed("No matching folder found for car code '" + key + "' in " + files[i].name)
  {
    OutcomeOfEachFile(folders, faults, files, i);
  }

  /** The file goes to the first folder, in list order, whose lower-cased
      name contains its car code: it is copied there under its own name and
      reported as "<name> -> <folder>", unless that copy raises, in which
      case it is reported as a copy error. */
  lemma FirstContainingFolderChosen(folders: seq<Folder>, faults: map<Dest, string>, files: seq<SetupFile>,
                                    i: nat, key: string, j: nat)
    requires i < |files| && CarCode(Stem(files[i].name)) == Some(key)
    requires j < |folders| && NameContains(folders[j], key)
    requires forall m :: 0 <= m < j ==> !NameContains(folders[m], key)
    ensures (var dest := (folders[j].name, files[i].name);
             Outcomes(folders, faults, files)[i]
             == if dest in faults then Failed("Error copying " + files[i].name + ": " + faults[dest])
                else Copied(dest, files[i].content, files[i].name + " -> " + folders[j].name))
  {
    OutcomeOfEachFile(folders, faults, files, i);
    FirstContainingFound(folders, key, j);
  }

  /** Only destinations made of a listed folder and a file name of the batch
      can be written. */
  lemma {:induction false} CopiedDestinations(folders: seq<Folder>, faults: map<Dest, string>, files: seq<SetupFile>, i: nat)
    requires i < |files| && Outcomes(folders, faults, files)[i].Copied?
    ensures Outcomes(folders, faults, files)[i].dest.1 == files[i].name
    ensures Folder(Outcomes(folders, faults, files)[i].dest.0) in folders
  {
    OutcomeOfEachFile(folders, faults, files, i);
  }

  /** Nothing outside the listed folders, and no file name outside the
      batch, changes. */
  lemma StoreAfterRun(store: map<Dest, Content>, folders: seq<Folder>, faults: map<Dest, string>,
                      files: seq<SetupFile>, d: Dest)
    requires Folder(d.0) !in folders || forall i :: 0 <= i < |files| ==> files[i].name != d.1
    ensures d in Apply(store, Outcomes(folders, faults, files)) <==> d in store
    ensures d in store ==> Apply(store, Outcomes(folders, faults, files))[d] == store[d]
  {
    var os := Outcomes(folders, faults, files);
    forall i | 0 <= i < |os| && os[i].Copied? ensures os[i].dest != d {
      CopiedDestinations(folders, faults, files, i);
    }
    ApplyUntouched(store, os, d);
  }

  /** Same inputs, same results: a rerun classifies every file the same way
      and leaves the store as the first run left it. */
  lemma RerunIsIdempotent(store: map<Dest, Content>, folders: seq<Folder>, faults: map<Dest, string>, files: seq<SetupFile>)
    ensures Apply(Apply(store, Outcomes(folders, faults, files)), Outcomes(folders, faults, files))
         == Apply(store, Outcomes(folders, faults, files))
  {
    ApplyIdempotent(store, Outcomes(folders, faults, files));
  }
}
