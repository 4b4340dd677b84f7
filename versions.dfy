/** How the two versions of `copy_setup_files` relate. */
module Versions {
  import opened Wrappers
  import opened Text
  import opened Listing
  import opened Batch
  import opened Matching
  import SetupCopier
  import AliasCopier

  /** With an empty alias mapping the table is empty, and main.py sends a
      well-formed file exactly where setupCopier.py does, with the same
      entry. */
  lemma SameFileOutcomeWithoutAliases(folders: seq<Folder>, faults: map<Dest, string>, f: SetupFile)
    requires CarCode(Stem(f.name)).Some?
    ensures AliasCopier.Classify(AliasCopier.FolderMapping([]), folders, faults, f)
         == SetupCopier.Classify(folders, faults, f)
  {
    CarCodeIsLowerCase(Stem(f.name));
    assert AliasCopier.FolderMapping([]) == map[];
  }

  /** The per-file form of the agreement: the same copy, or a failure in
      both versions. */
  lemma SameFileKindWithoutAliases(folders: seq<Folder>, faults: map<Dest, string>, f: SetupFile)
    ensures var o := AliasCopier.Classify(AliasCopier.FolderMapping([]), folders, faults, f);
            (o.Copied? || SetupCopier.Classify(folders, faults, f).Copied?) ==> o == SetupCopier.Classify(folders, faults, f)
  {
    if CarCode(Stem(f.name)).Some? {
      SameFileOutcomeWithoutAliases(folders, faults, f);
    }
  }

  /** With an empty alias mapping both versions copy the same files to the
      same places and report the same successes; they fail the same files,
      differing only in the wording of the invalid-format message. */
  lemma SameRunWithoutAliases(store: map<Dest, Content>, folders: seq<Folder>,
                              faults: map<Dest, string>, files: seq<SetupFile>)
    ensures Successes(AliasCopier.Outcomes(AliasCopier.FolderMapping([]), folders, faults, files))
         == Successes(SetupCopier.Outcomes(folders, faults, files))
    ensures |Failures(AliasCopier.Outcomes(AliasCopier.FolderMapping([]), folders, faults, files))|
         == |Failures(SetupCopier.Outcomes(folders, faults, files))|
    ensures Apply(store, AliasCopier.Outcomes(AliasCopier.FolderMapping([]), folders, faults, files))
         == Apply(store, SetupCopier.Outcomes(folders, faults, files))
  {
    var table := AliasCopier.FolderMapping([]);
    var mine := AliasCopier.Outcomes(table, folders, faults, files);
    var theirs := SetupCopier.Outcomes(folders, faults, files);
    forall i | 0 <= i < |files|
      ensures (mine[i].Copied? || theirs[i].Copied?) ==> mine[i] == theirs[i]
    {
      AliasCopier.OutcomeOfEachFile(table, folders, faults, files, i);
      SetupCopier.OutcomeOfEachFile(folders, faults, files, i);
      SameFileKindWithoutAliases(folders, faults, files[i]);
    }
    SameCopiesSameRun(store, mine, theirs);
  }

  /** A folder named exactly like the code does not win in setupCopier.py
      when an earlier folder's name contains the code; main.py picks it once
      the alias mapping lists that name as a value. */
  lemma ExactNameOnlyThroughAliases()
    ensures var folders := [Folder("gt3cup"), Folder("gt3")];
            && IndexContaining(folders, "gt3") == Some(0)
            && AliasCopier.ResolveFolder(AliasCopier.FolderMapping([("x", "gt3")]), folders, "gt3") == Some(Folder("gt3"))
  {
    var folders := [Folder("gt3cup"), Folder("gt3")];
    LowerOfLowerCase("gt3cup");
    LowerOfLowerCase("gt3");
    assert "gt3" <= "gt3cup";
    AliasCopier.ExactNameThroughValue([("x", "gt3")], folders, "gt3", 0, 1);
  }
}
