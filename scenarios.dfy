/** The runs exercised by the repository's test suite
    (src/__test__/test_setup_copier.py), worked out on the model. */
module Scenarios {
  import opened Wrappers
  import opened Text
  import opened Listing
  import opened Batch
  import opened Matching
  import SetupCopier
  import AliasCopier

  /** A name "<s>.sto" with a non-empty `s` has stem `s`. */
  lemma StemOfSto(s: string)
    requires |s| >= 1
    ensures Stem(s + ".sto") == s
  {
    var name := s + ".sto";
    assert name[|name| - 4..] == ".sto";
    assert Lower(".sto") == ".sto";
    SetupName(name);
    assert name[..|name| - 4] == s;
  }

  lemma JoinFour(a: string, b: string, c: string, d: string)
    ensures Join([a, b, c, d], '_') == a + "_" + b + "_" + c + "_" + d
  {
    assert [a, b, c, d][1..] == [b, c, d] && [b, c, d][1..] == [c, d] && [c, d][1..] == [d];
    assert Join([c, d], '_') == c + "_" + d;
    assert Join([b, c, d], '_') == b + "_" + (c + "_" + d);
  }

  /** The car code of a name "<a>_<b>_<c>_<d>.sto" built of `_`-free
      segments is the lower-cased `c`. */
  lemma CarCodeOfSetupName(a: string, b: string, c: string, d: string)
    requires '_' !in a && '_' !in b && '_' !in c && '_' !in d
    ensures CarCode(Stem(a + "_" + b + "_" + c + "_" + d + ".sto")) == Some(Lower(c))
  {
    var stem := a + "_" + b + "_" + c + "_" + d;
    assert stem + ".sto" == a + "_" + b + "_" + c + "_" + d + ".sto";
    StemOfSto(stem);
    JoinFour(a, b, c, d);
    CarCodeOfSegments([a, b, c, d]);
  }

  lemma PorscheLower()
    ensures Lower("porsche992gt3") == "porsche992gt3"
  {
    LowerOfLowerCase("porsche992gt3");
  }

  lemma FerrariLower()
    ensures Lower("ferrarigt3") == "ferrarigt3"
  {
    LowerOfLowerCase("ferrarigt3");
  }

  lemma NonexistentLower()
    ensures Lower("nonexistentcar") == "nonexistentcar"
  {
    LowerOfLowerCase("nonexistentcar");
  }

  lemma PorscheName()
    ensures CarCode(Stem("VRS_25S1DS_porsche992gt3_test.sto")) == Some(Lower("porsche992gt3"))
  {
    assert "VRS_25S1DS_porsche992gt3_test.sto" == "VRS" + "_" + "25S1DS" + "_" + "porsche992gt3" + "_" + "test" + ".sto";
    CarCodeOfSetupName("VRS", "25S1DS", "porsche992gt3", "test");
  }

  lemma FerrariName()
    ensures CarCode(Stem("VRS_25S1DS_ferrarigt3_test.sto")) == Some(Lower("ferrarigt3"))
  {
    assert "VRS_25S1DS_ferrarigt3_test.sto" == "VRS" + "_" + "25S1DS" + "_" + "ferrarigt3" + "_" + "test" + ".sto";
    CarCodeOfSetupName("VRS", "25S1DS", "ferrarigt3", "test");
  }

  lemma NonexistentName()
    ensures CarCode(Stem("VRS_25S1DS_nonexistentcar_test.sto")) == Some(Lower("nonexistentcar"))
  {
    assert "VRS_25S1DS_nonexistentcar_test.sto" == "VRS" + "_" + "25S1DS" + "_" + "nonexistentcar" + "_" + "test" + ".sto";
    CarCodeOfSetupName("VRS", "25S1DS", "nonexistentcar", "test");
  }

  lemma InvalidFormatStem()
    ensures Stem("invalid_format.sto") == "invalid_format"
  {
    assert "invalid_format.sto" == "invalid_format" + ".sto";
    StemOfSto("invalid_format");
  }

  lemma InvalidFormatSegments()
    ensures Join(["invalid", "format"], '_') == "invalid_format"
  {
    assert ["invalid", "format"][1..] == ["format"];
  }

  lemma InvalidFormatName()
    ensures CarCode(Stem("invalid_format.sto")) == None
  {
    InvalidFormatStem();
    InvalidFormatSegments();
    CarCodeOfSegments(["invalid", "format"]);
  }

  /** The two vehicle folders of the test suite, in creation order. */
  function TestFolders(): seq<Folder>
  {
    [Folder("porsche992gt3"), Folder("ferrarigt3")]
  }

  lemma PorscheFolder()
    ensures NameContains(Folder("porsche992gt3"), "porsche992gt3")
  {
    PorscheLower();
    ContainsSelf("porsche992gt3");
  }

  lemma NoFerrariInPorsche()
    ensures !Contains("ferrarigt3", "porsche992gt3")
  {
    ContainsNeedsChars("ferrarigt3", "porsche992gt3", 0);
  }

  lemma PorscheFolderNotFerrari()
    ensures !NameContains(Folder("porsche992gt3"), "ferrarigt3")
  {
    PorscheLower();
    NoFerrariInPorsche();
  }

  lemma FerrariFolder()
    ensures NameContains(Folder("ferrarigt3"), "ferrarigt3")
  {
    FerrariLower();
    ContainsSelf("ferrarigt3");
  }

  /** First-match search over a two-folder list. */
  lemma SearchTwo(g: Folder, h: Folder, key: string)
    ensures NameContains(g, key) ==> IndexContaining([g, h], key) == Some(0)
    ensures !NameContains(g, key) && NameContains(h, key) ==> IndexContaining([g, h], key) == Some(1)
    ensures !NameContains(g, key) && !NameContains(h, key) ==> IndexContaining([g, h], key) == None
  {
    assert [g, h][1..] == [h];
  }

  lemma SearchPorsche()
    ensures IndexContaining(TestFolders(), "porsche992gt3") == Some(0)
  {
    PorscheFolder();
    SearchTwo(Folder("porsche992gt3"), Folder("ferrarigt3"), "porsche992gt3");
  }

  lemma SearchFerrari()
    ensures IndexContaining(TestFolders(), "ferrarigt3") == Some(1)
  {
    PorscheFolderNotFerrari();
    FerrariFolder();
    SearchTwo(Folder("porsche992gt3"), Folder("ferrarigt3"), "ferrarigt3");
  }

  lemma SearchNonexistent()
    ensures IndexContaining(TestFolders(), "nonexistentcar") == None
  {
    PorscheLower();
    FerrariLower();
    SearchTwo(Folder("porsche992gt3"), Folder("ferrarigt3"), "nonexistentcar");
  }

  lemma PorscheCode()
    ensures CarCode(Stem("VRS_25S1DS_porsche992gt3_test.sto")) == Some("porsche992gt3")
  {
    PorscheName();
    PorscheLower();
  }

  lemma FerrariCode()
    ensures CarCode(Stem("VRS_25S1DS_ferrarigt3_test.sto")) == Some("ferrarigt3")
  {
    FerrariName();
    FerrariLower();
  }

  lemma NonexistentCode()
    ensures CarCode(Stem("VRS_25S1DS_nonexistentcar_test.sto")) == Some("nonexistentcar")
  {
    NonexistentName();
    NonexistentLower();
  }

  lemma RunOfOne(folders: seq<Folder>, faults: map<Dest, string>, f: SetupFile)
    ensures SetupCopier.Outcomes(folders, faults, [f]) == [SetupCopier.Classify(folders, faults, f)]
  {
  }

  lemma RunOfTwo(folders: seq<Folder>, faults: map<Dest, string>, f: SetupFile, g: SetupFile)
    ensures SetupCopier.Outcomes(folders, faults, [f, g])
         == [SetupCopier.Classify(folders, faults, f), SetupCopier.Classify(folders, faults, g)]
  {
    assert [f, g][..1] == [f];
  }

  lemma ReportsOfOne(o: Outcome)
    ensures Successes([o]) == if o.Copied? then [o.entry] else []
    ensures Failures([o]) == if o.Failed? then [o.entry] else []
  {
  }

  lemma ReportsOfTwo(o: Outcome, q: Outcome)
    ensures Successes([o, q]) == (if o.Copied? then [o.entry] else []) + (if q.Copied? then [q.entry] else [])
    ensures Failures([o, q]) == (if o.Failed? then [o.entry] else []) + (if q.Failed? then [q.entry] else [])
  {
    assert [o, q][..1] == [o];
    ReportsOfOne(o);
  }

  lemma ClassifyCopied(folders: seq<Folder>, f: SetupFile, key: string, j: nat)
    requires CarCode(Stem(f.name)) == Some(key)
    requires IndexContaining(folders, key) == Some(j)
    ensures SetupCopier.Classify(folders, map[], f)
         == Copied((folders[j].name, f.name), f.content, f.name + " -> " + folders[j].name)
  {
  }

  lemma ClassifyNoMatch(folders: seq<Folder>, f: SetupFile, key: string)
    requires CarCode(Stem(f.name)) == Some(key)
    requires IndexContaining(folders, key) == None
    ensures SetupCopier.Classify(folders, map[], f)
         == Failed("No matching folder found for car code '" + key + "' in " + f.name)
  {
  }

  lemma ClassifyInvalid(folders: seq<Folder>, f: SetupFile)
    requires CarCode(Stem(f.name)) == None
    ensures SetupCopier.Classify(folders, map[], f) == Failed("Invalid filename format for " + f.name)
  {
  }

  lemma ClassifyPorsche(p: Content)
    ensures SetupCopier.Classify(TestFolders(), map[], SetupFile("VRS_25S1DS_porsche992gt3_test.sto", p))
         == Copied(("porsche992gt3", "VRS_25S1DS_porsche992gt3_test.sto"), p,
                   "VRS_25S1DS_porsche992gt3_test.sto" + " -> " + "porsche992gt3")
  {
    PorscheCode();
    SearchPorsche();
    ClassifyCopied(TestFolders(), SetupFile("VRS_25S1DS_porsche992gt3_test.sto", p), "porsche992gt3", 0);
  }

  lemma ClassifyFerrari(f: Content)
    ensures SetupCopier.Classify(TestFolders(), map[], SetupFile("VRS_25S1DS_ferrarigt3_test.sto", f))
         == Copied(("ferrarigt3", "VRS_25S1DS_ferrarigt3_test.sto"), f,
                   "VRS_25S1DS_ferrarigt3_test.sto" + " -> " + "ferrarigt3")
  {
    FerrariCode();
    SearchFerrari();
    ClassifyCopied(TestFolders(), SetupFile("VRS_25S1DS_ferrarigt3_test.sto", f), "ferrarigt3", 1);
  }

  lemma StoreOfTwo(store: map<Dest, Content>, o: Outcome, q: Outcome)
    requires o.Copied? && q.Copied? && o.dest != q.dest
    ensures o.dest in Apply(store, [o, q]) && Apply(store, [o, q])[o.dest] == o.content
    ensures q.dest in Apply(store, [o, q]) && Apply(store, [o, q])[q.dest] == q.content
  {
    assert [o, q][..1] == [o] && [o][..0] == [];
  }

  lemma DistinctCarFolders()
    ensures "porsche992gt3" != "ferrarigt3"
  {
    assert "porsche992gt3"[0] != "ferrarigt3"[0];
  }

  /** The two copies of test_copy_setup_files, as outcomes. */
  lemma BothCarsOutcomes(p: Content, f: Content)
    ensures SetupCopier.Outcomes(TestFolders(), map[], [SetupFile("VRS_25S1DS_porsche992gt3_test.sto", p),
                                                        SetupFile("VRS_25S1DS_ferrarigt3_test.sto", f)])
         == [Copied(("porsche992gt3", "VRS_25S1DS_porsche992gt3_test.sto"), p,
                    "VRS_25S1DS_porsche992gt3_test.sto" + " -> " + "porsche992gt3"),
             Copied(("ferrarigt3", "VRS_25S1DS_ferrarigt3_test.sto"), f,
                    "VRS_25S1DS_ferrarigt3_test.sto" + " -> " + "ferrarigt3")]
  {
    RunOfTwo(TestFolders(), map[], SetupFile("VRS_25S1DS_porsche992gt3_test.sto", p),
             SetupFile("VRS_25S1DS_ferrarigt3_test.sto", f));
    ClassifyPorsche(p);
    ClassifyFerrari(f);
  }

  /** test_copy_setup_files: both setup files are copied, each into its
      own vehicle folder, and there is no error; afterwards each vehicle
      folder holds its file, with the source's bytes. */
  lemma CopiesBothCars(store: map<Dest, Content>, p: Content, f: Content)
    ensures var files := [SetupFile("VRS_25S1DS_porsche992gt3_test.sto", p),
                          SetupFile("VRS_25S1DS_ferrarigt3_test.sto", f)];
            var os := SetupCopier.Outcomes(TestFolders(), map[], files);
            && Successes(os) == ["VRS_25S1DS_porsche992gt3_test.sto" + " -> " + "porsche992gt3",
                                 "VRS_25S1DS_ferrarigt3_test.sto" + " -> " + "ferrarigt3"]
            && Failures(os) == []
            && ("porsche992gt3", "VRS_25S1DS_porsche992gt3_test.sto") in Apply(store, os)
            && Apply(store, os)[("porsche992gt3", "VRS_25S1DS_porsche992gt3_test.sto")] == p
            && ("ferrarigt3", "VRS_25S1DS_ferrarigt3_test.sto") in Apply(store, os)
            && Apply(store, os)[("ferrarigt3", "VRS_25S1DS_ferrarigt3_test.sto")] == f
  {
    BothCarsOutcomes(p, f);
    var o1 := Copied(("porsche992gt3", "VRS_25S1DS_porsche992gt3_test.sto"), p,
                     "VRS_25S1DS_porsche992gt3_test.sto" + " -> " + "porsche992gt3");
    var o2 := Copied(("ferrarigt3", "VRS_25S1DS_ferrarigt3_test.sto"), f,
                     "VRS_25S1DS_ferrarigt3_test.sto" + " -> " + "ferrarigt3");
    ReportsOfTwo(o1, o2);
    DistinctCarFolders();
    StoreOfTwo(store, o1, o2);
  }

  /** test_copy_setup_files_with_invalid_filename: one invalid-format error,
      no copy. */
  lemma RejectsInvalidName(c: Content)
    ensures var os := SetupCopier.Outcomes(TestFolders(), map[], [SetupFile("invalid_format.sto", c)]);
            && Successes(os) == []
            && Failures(os) == ["Invalid filename format for " + "invalid_format.sto"]
  {
    var f1 := SetupFile("invalid_format.sto", c);
    InvalidFormatName();
    ClassifyInvalid(TestFolders(), f1);
    RunOfOne(TestFolders(), map[], f1);
    ReportsOfOne(SetupCopier.Classify(TestFolders(), map[], f1));
  }

  /** test_copy_setup_files_with_nonexistent_car: one no-match error, no
      copy. */
  lemma RejectsUnknownCar(c: Content)
    ensures var os := SetupCopier.Outcomes(TestFolders(), map[], [SetupFile("VRS_25S1DS_nonexistentcar_test.sto", c)]);
            && Successes(os) == []
            && Failures(os) == ["No matching folder found for car code '" + "nonexistentcar" + "' in "
                                + "VRS_25S1DS_nonexistentcar_test.sto"]
  {
    var f1 := SetupFile("VRS_25S1DS_nonexistentcar_test.sto", c);
    NonexistentCode();
    SearchNonexistent();
    ClassifyNoMatch(TestFolders(), f1, "nonexistentcar");
    RunOfOne(TestFolders(), map[], f1);
    ReportsOfOne(SetupCopier.Classify(TestFolders(), map[], f1));
  }

  lemma StoIsSetupName(s: string)
    requires |s| >= 1
    ensures IsSetupName(s + ".sto")
  {
    var name := s + ".sto";
    assert name[|name| - 4..] == ".sto";
    assert Lower(".sto") == ".sto";
    SetupName(name);
  }

  lemma TxtIsNotSetupName(s: string)
    ensures !IsSetupName(s + ".txt")
  {
    var name := s + ".txt";
    SetupName(name);
    if |name| >= 5 {
      assert name[|name| - 4..] == ".txt";
      assert Lower(".txt")[1] == 't';
    }
  }

  lemma FilterOne(a: Entry)
    ensures SetupFiles([a]) == KeptFile(a)
  {
    assert [a][1..] == [];
  }

  lemma FilterThree(a: Entry, b: Entry, c: Entry)
    ensures SetupFiles([a, b, c]) == KeptFile(a) + KeptFile(b) + KeptFile(c)
  {
    FilterOne(a);
    FilterOne(b);
    FilterOne(c);
    SetupFilesConcat([a], [b]);
    SetupFilesConcat([a, b], [c]);
    assert [a] + [b] == [a, b] && [a, b] + [c] == [a, b, c];
  }

  lemma FolderOne(x: string)
    ensures Folders([DirEntry(x)]) == [Folder(x)]
  {
    assert [DirEntry(x)][1..] == [];
  }

  lemma FolderTwo(x: string, y: string)
    ensures Folders([DirEntry(x), DirEntry(y)]) == [Folder(x), Folder(y)]
  {
    FolderOne(x);
    FolderOne(y);
    FoldersConcat([DirEntry(x)], [DirEntry(y)]);
    assert [DirEntry(x)] + [DirEntry(y)] == [DirEntry(x), DirEntry(y)];
  }

  /** Of two ".sto" files and a ".txt" file, the filter keeps the two
      ".sto" files in order. */
  lemma KeptSto(s: string, p: Content)
    requires |s| >= 1
    ensures KeptFile(FileEntry(s + ".sto", p)) == [SetupFile(s + ".sto", p)]
  {
    StoIsSetupName(s);
  }

  lemma KeptTxt(s: string, x: Content)
    ensures KeptFile(FileEntry(s + ".txt", x)) == []
  {
    TxtIsNotSetupName(s);
  }

  lemma FilterStoAndTxt(s1: string, s2: string, s3: string, p: Content, f: Content, x: Content)
    requires |s1| >= 1 && |s2| >= 1
    ensures SetupFiles([FileEntry(s1 + ".sto", p), FileEntry(s2 + ".sto", f), FileEntry(s3 + ".txt", x)])
         == [SetupFile(s1 + ".sto", p), SetupFile(s2 + ".sto", f)]
  {
    KeptSto(s1, p);
    KeptSto(s2, f);
    KeptTxt(s3, x);
    FilterThree(FileEntry(s1 + ".sto", p), FileEntry(s2 + ".sto", f), FileEntry(s3 + ".txt", x));
  }

  /** test_get_current_setup_files: of the three files in the working
      directory, the two ".sto" ones are listed, in listing order. */
  lemma ListsTheSetupFiles(p: Content, f: Content, x: Content)
    ensures SetupFiles([FileEntry("VRS_25S1DS_porsche992gt3_test" + ".sto", p),
                        FileEntry("VRS_25S1DS_ferrarigt3_test" + ".sto", f),
                        FileEntry("invalid_format" + ".txt", x)])
         == [SetupFile("VRS_25S1DS_porsche992gt3_test" + ".sto", p),
             SetupFile("VRS_25S1DS_ferrarigt3_test" + ".sto", f)]
  {
    FilterStoAndTxt("VRS_25S1DS_porsche992gt3_test", "VRS_25S1DS_ferrarigt3_test", "invalid_format", p, f, x);
  }

  /** test_get_iracing_setup_folders: the two vehicle folders are listed;
      once the setups directory is gone, the enumerator raises not-found. */
  lemma ListsTheFolders(root: string)
    ensures SetupFolders(root, Some([DirEntry("porsche992gt3"), DirEntry("ferrarigt3")])) == Success(TestFolders())
    ensures SetupFolders(root, None).Failure?
  {
    FolderTwo("porsche992gt3", "ferrarigt3");
  }
}
