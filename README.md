# iRacing setup copier, modelled in Dafny

The iRacing setup copier takes the `.sto` setup files in the current directory and copies each one into the matching vehicle folder under the simulator's `Documents/iRacing/setups` directory. The folder is chosen from a car code: the third `_`-separated segment of the file stem, lower-cased. A run returns two lists. `copied_files` has one `"<name> -> <folder>"` entry per successful copy. `errors` has one message per file that could not be placed or copied.

Two versions of the copy routine exist, and the model covers both:

- `src/setupCopier.py`, the version the test suite imports. It sends a file to the first folder, in list order, whose lower-cased name contains the car code.
- `src/main.py`. It first builds a lookup table from an alias mapping. Each value maps to itself, and non-empty alias keys override those entries. It looks the code up and takes the first folder whose name equals the mapped name up to case. When that finds nothing, it falls back to the same substring rule.

The modules, in dependency order:

- `Wrappers`: `Option` and `Result`.
- `Text`: three Python string operations, namely ASCII `lower()`, `str.split(sep)` with its inverse `join`, and the substring test `key in s`.
- `Listing`: `pathlib`'s suffix and stem, plus the two directory filters. One keeps `.sto` files in any letter case; the other keeps directories. A missing setups root raises not-found.
- `Batch`: the single outcome each file contributes, the two accumulator lists and the destination store. `SetupStore` is a class whose `Copy` method overwrites a destination, or raises that destination's fault and changes nothing.
- `Matching`: the car code and the two first-match searches. It includes the `FindFolder` loop with `break`.
- `SetupCopier`: `copy_setup_files` of `src/setupCopier.py`. It is a method over a `SetupStore`, proved against the function `Outcomes`.
- `AliasCopier`: `extract_car_code` and `copy_setup_files` of `src/main.py`. This covers the table built by the two dictionary comprehensions and the update, the mapped-name lookup, the substring fallback and all three error kinds.
- `Versions`: how the two routines relate. With an empty alias mapping they copy the same files to the same places. Only `main.py` can prefer an exact folder name over an earlier folder whose name merely contains the code.
- `Scenarios`: the runs of `src/__test__/test_setup_copier.py`, worked out on the model.

Some inputs are taken as parameters:

- **Directory contents.** The directory listings are ordered sequences of entries, in the order the operating system enumerates them.
- **Alias mapping.** The mapping is the items of the dictionary that `json.load` returns, in the order the dictionary iterates them, so no key occurs twice (`AliasCopier.DistinctKeys`). It is a sequence of pairs rather than a Dafny `map`. Two different keys, or two values, can still be equal up to letter case, and the iteration order decides which of them survives the comprehensions.
- **Copy failures.** Which copies raise, and with what text, comes from a fixed fault table held by the store.

Some descriptions of the tool mention a separate "exact folder-name match" step that comes before the alias lookup in `main.py`. The code has no such step. The model follows the code: an exact name is reached only through the table, where each value maps to itself, or through the substring fallback. `Versions.ExactNameOnlyThroughAliases` shows where this matters.

## Model

| member | source | states |
|---|---|---|
| Text.LowerChar | src/setupCopier.py:43 | the result is never an upper-case ASCII letter; an upper-case letter becomes the same letter in lower case, and every other character is unchanged |
| Text.Lower | src/setupCopier.py:43 | lower-casing keeps the length and lower-cases every character on its own (ASCII letters only) |
| Text.LowerIdempotent | src/main.py:102 | lower-casing an already lower-cased string changes nothing |
| Text.Split | src/setupCopier.py:35 | `split(sep)` always yields at least one segment; its count, its segments and its inverse are stated by the four lemmas below |
| Text.SplitCount | src/setupCopier.py:35 | `split('_')` gives one more segment than there are underscores, so the third segment exists exactly when there are at least two |
| Text.SplitSegmentsFree | src/setupCopier.py:35 | no segment of a split contains the delimiter |
| Text.JoinSplit | src/setupCopier.py:35 | joining the segments of a split with the delimiter gives back the string |
| Text.SplitJoin | src/setupCopier.py:35 | splitting a join of delimiter-free segments gives back exactly those segments |
| Text.Contains | src/setupCopier.py:43 | the empty key is in every string, and a key longer than the string is in none |
| Text.ContainsAt | src/setupCopier.py:43 | `key in s` holds exactly when `key` occurs at some position of `s` |
| Text.ContainsNeedsChars | src/setupCopier.py:43 | a key with a character the name lacks is in no such name |
| Listing.Suffix | src/setupCopier.py:25 | a non-empty suffix is a dot followed by at least one dot-free character, and is shorter than the name |
| Listing.Stem | src/setupCopier.py:35 | the stem is a prefix of the name and is non-empty for a non-empty name |
| Listing.StemSuffix | src/setupCopier.py:35 | stem and suffix split the file name in two, and the suffix is empty or starts with a dot |
| Listing.IsSetupName | src/setupCopier.py:25 | the test `file.suffix.lower() == '.sto'`; `Listing.SetupName` characterises it |
| Listing.SetupName | src/setupCopier.py:25 | a name passes the `.sto` test exactly when it has at least five characters and ends in ".sto" in any case; its stem is then the name without those four characters |
| Listing.SetupFiles | src/setupCopier.py:25 | a setup file is listed exactly when it is a file entry of the listing whose suffix is ".sto" in any case |
| Listing.SetupFilesConcat | src/setupCopier.py:25 | the file filter keeps listing order |
| Listing.Folders | src/setupCopier.py:12 | a folder is listed exactly when it is a directory entry of the listing |
| Listing.FoldersConcat | src/setupCopier.py:12 | the folder filter keeps listing order |
| Listing.SetupFolders | src/setupCopier.py:8-12 | a missing setups root gives the not-found error naming the path, and nothing is listed; otherwise the result holds exactly the directory entries |
| Matching.CarCode | src/setupCopier.py:34-37 | the car code is missing, so indexing raises, exactly when the stem has fewer than two underscores |
| Matching.CarCodeOfSegments | src/setupCopier.py:35 | for a stem of `_`-free segments the code is the lower-cased third segment whatever follows it, and with fewer than three segments there is none |
| Matching.CarCodeIsLowerCase | src/main.py:102 | a car code is already lower-case, so a second lower-casing changes nothing |
| Matching.EmptyCarCode | src/setupCopier.py:35 | the stem "A_B__C" has the empty car code |
| Matching.IndexContaining | src/setupCopier.py:41-45 | the position found is of a folder whose lower-cased name contains the key and no earlier folder's does; none is found only when no folder's does |
| Matching.IndexNamed | src/main.py:104 | the position found is of the first folder whose name equals the given name up to case; none is found only when no folder's does |
| Matching.EmptyKeyPicksFirst | src/setupCopier.py:43 | the empty key is contained in every name, so it picks the first folder |
| Matching.FirstContainingFound | src/setupCopier.py:41-45 | the first folder whose lower-cased name contains the key is the position the search finds |
| Matching.FindFolder | src/setupCopier.py:41-45 | the loop with `break` returns the folder at the first containing position, or none |
| Batch.Successes | src/setupCopier.py:51 | `copied_files` has at most one entry per file |
| Batch.Failures | src/setupCopier.py:37 | `errors` has at most one entry per file |
| Batch.Apply | src/setupCopier.py:49-50 | copying never removes a destination (`Batch.ApplyLastWrite` states what a copy leaves there) |
| Batch.RunStep | src/setupCopier.py:47-55 | one more file adds at most its one entry to the list of its kind, and at most its one write to the store |
| Batch.EveryFileReported | src/setupCopier.py:32-57 | every outcome lands in exactly one of the two lists |
| Batch.ReportsConcat | src/setupCopier.py:32-57 | both lists keep input order: a later file's entry comes after an earlier one's |
| Batch.ApplyOverlays | src/setupCopier.py:49-50 | a run overlays the last write to each destination on the old store |
| Batch.ApplyIdempotent | src/setupCopier.py:49-50 | running the same copies again leaves the store unchanged |
| Batch.ApplyUntouched | src/setupCopier.py:49-50 | a destination no copy targets keeps its content, or stays absent |
| Batch.ApplyLastWrite | src/setupCopier.py:49-50 | a copy that no later copy overwrites leaves the source's bytes at its destination |
| Batch.SameCopiesSameRun | src/setupCopier.py:32-57 | two runs whose outcomes agree wherever either copies report the same successes, fail the same number of files and leave the same store |
| Batch.SetupStore.Copy | src/setupCopier.py:48-53 | a copy overwrites the destination with the source's bytes, or raises the destination's fault and leaves the store as it was |
| SetupCopier.Classify | src/setupCopier.py:34-55 | a file is only copied into a listed folder whose lower-cased name contains its car code, under its own name, with its own bytes, to a destination whose copy does not raise, and is reported as "<name> -> <folder>" |
| SetupCopier.Outcomes | src/setupCopier.py:32-57 | a run has exactly one outcome per input file |
| SetupCopier.OutcomeOfEachFile | src/setupCopier.py:32-38 | a file's outcome does not depend on the files before it, so a bad name only skips that file |
| SetupCopier.CopySetupFiles | src/setupCopier.py:27-57 | the loop's two lists are the successes and failures of the run's outcomes, and the store ends as the old store with the run's copies applied |
| SetupCopier.RunReportsEveryFile | src/setupCopier.py:32-57 | `len(copied_files) + len(errors) == len(setup_files)` |
| SetupCopier.InvalidNameReported | src/setupCopier.py:34-38 | a stem with fewer than three segments gives exactly the invalid-format error naming the file, and no copy |
| SetupCopier.NoMatchReported | src/setupCopier.py:54-55 | a code that no folder name contains gives exactly the no-match error naming code and file, and no copy |
| SetupCopier.FirstContainingFolderChosen | src/setupCopier.py:41-53 | the file goes to the first folder containing its code, is reported as "<name> -> <folder>", or gets the "Error copying" message when that copy raises |
| SetupCopier.CopiedDestinations | src/setupCopier.py:49-51 | every copy writes a listed folder, under the source file's own name |
| SetupCopier.StoreAfterRun | src/setupCopier.py:49-51 | destinations outside the listed folders, or with a name outside the batch, are left as they were |
| SetupCopier.RerunIsIdempotent | src/setupCopier.py:27-57 | rerunning the same batch leaves the store as the first run left it |
| AliasCopier.ExtractCarCode | src/main.py:56-72 | success exactly when the name has at least two underscores, with the same code as the setupCopier.py rule; otherwise the ValueError message naming the input and the expected format |
| AliasCopier.DefaultMapping | src/main.py:93 | the last value in iteration order, lower-cased, is a key naming exactly that value: of values equal up to case the later one stays |
| AliasCopier.DefaultNamesItself | src/main.py:93 | every key of the default table names a value equal to it up to case |
| AliasCopier.AliasOverrides | src/main.py:94 | the empty key is never a key of the override table |
| AliasCopier.FolderMapping | src/main.py:93-94 | the final table's keys are those of the defaults and of the overrides together, and every override entry is in it unchanged |
| AliasCopier.FolderMappingEntry | src/main.py:93-94 | an entry of the final table is the override's when the overrides have that key, and otherwise names a value equal to its key up to case |
| AliasCopier.DefaultKeys | src/main.py:93 | the default table's keys are exactly the lower-cased mapping values |
| AliasCopier.OverrideKeys | src/main.py:94 | the override table's keys are exactly the lower-cased non-empty alias keys |
| AliasCopier.MappingKeys | src/main.py:93-94 | a text is a key of the lookup table exactly when it is a lower-cased value or a lower-cased non-empty key |
| AliasCopier.OverrideWins | src/main.py:93-94 | a non-empty alias key, lower-cased, maps to its own value and overrides any default; among keys equal up to case the last one wins |
| AliasCopier.DefaultLast | src/main.py:93 | every lower-cased value is a default key mapping to a value equal to it up to case, and to exactly it when no later value repeats it |
| AliasCopier.ValueMapsToItself | src/main.py:93-94 | a value that no alias key claims maps, lower-cased, to itself in the final table |
| AliasCopier.EmptyKeyIgnored | src/main.py:94 | an entry with an empty key adds only its value's self-mapping |
| AliasCopier.ResolveFolder | src/main.py:101-111 | the destination is a listed folder that either carries the table's name for the code up to case or contains the code |
| AliasCopier.ResolveByTable | src/main.py:101-104 | when the code is in the table and some folder carries the mapped name up to case, the first such folder wins even if an earlier one contains the code |
| AliasCopier.ResolveBySubstring | src/main.py:106-111 | with no table entry, or no folder carrying the mapped name, the first folder containing the code wins; with none there is no destination |
| AliasCopier.TableMisses | src/main.py:101-107 | when no folder carries the table's name for the code, the lookup gives what the substring search gives |
| AliasCopier.EmptyKeyPicksFirstFolder | src/main.py:101-111 | the empty code takes the first folder unless the table's entry for it names a listed folder |
| AliasCopier.ExactNameThroughValue | src/main.py:93-104 | a code equal to an unclaimed mapping value goes to the first folder with exactly that name up to case |
| AliasCopier.Classify | src/main.py:97-129 | an invalid name gives exactly `extract_car_code`'s message; a file is only copied into a listed folder, under its own name, with its own bytes, to a destination whose copy does not raise, and is reported as "<name> -> <folder>" |
| AliasCopier.Outcomes | src/main.py:96-131 | a run has exactly one outcome per input file |
| AliasCopier.OutcomeOfEachFile | src/main.py:96-129 | a file's outcome does not depend on the files before it: an error does not abort the batch |
| AliasCopier.OutcomesStep | src/main.py:96-129 | the outcomes of the first k + 1 files are those of the first k followed by file k's own |
| AliasCopier.CopySetupFiles | src/main.py:74-131 | after building the table, the loop's two lists are the successes and failures of the run's outcomes, and the store ends as the old store with the run's copies applied |
| AliasCopier.RunReportsEveryFile | src/main.py:96-131 | `len(copied_files) + len(errors) == len(setup_files)` |
| AliasCopier.InvalidNameReported | src/main.py:98 | a stem with fewer than three segments gives exactly the ValueError message naming the stem, and no copy |
| AliasCopier.ResolvedFileReported | src/main.py:113-129 | an unresolved code gives exactly the no-match error; a resolved file is copied and reported as "<name> -> <folder>", or gets the "Error copying" message when that copy raises |
| AliasCopier.RerunIsIdempotent | src/main.py:96-131 | rerunning the same batch leaves the store as the first run left it |
| Versions.SameFileOutcomeWithoutAliases | src/main.py:96-121 | with an empty alias mapping, a well-formed file gets the same outcome in both versions |
| Versions.SameRunWithoutAliases | src/main.py:74-131 | with an empty alias mapping both versions report the same copies and the same number of errors, and leave the same store |
| Versions.ExactNameOnlyThroughAliases | src/main.py:101-111 | with folders "gt3cup" then "gt3" and code "gt3", setupCopier.py picks "gt3cup"; main.py picks "gt3" once "gt3" is a mapping value |
| Scenarios.ListsTheFolders | src/__test__/test_setup_copier.py:52-65 | the two vehicle folders are listed, and a removed setups root gives the not-found error |
| Scenarios.ListsTheSetupFiles | src/__test__/test_setup_copier.py:67-72 | of the two `.sto` files and the `.txt` file, exactly the two `.sto` files are listed, in order |
| Scenarios.CopiesBothCars | src/__test__/test_setup_copier.py:74-88 | both test files are copied with no error, and afterwards each vehicle folder holds its own file with the source's bytes |
| Scenarios.RejectsInvalidName | src/__test__/test_setup_copier.py:90-104 | "invalid_format.sto" gives one invalid-format error and no copy |
| Scenarios.RejectsUnknownCar | src/__test__/test_setup_copier.py:109-123 | a file for "nonexistentcar" gives one no-match error and no copy |

## Left out

- Text.Lower: this models ASCII lower-casing only. Python's `str.lower()` also lower-cases non-ASCII letters, and for a few characters it changes the length; the model does not cover those letters.
- Listing.Suffix: this follows the `pathlib` rule up to Python 3.13: only the last dot counts, and when it is the first or the last character of the name there is no suffix (so ".bashrc", "name." and "a.b." have none). Later versions differ for names ending in a dot.
- Batch.SetupStore.Copy: a copy either fully succeeds or changes nothing. `shutil.copy2` can also fail after writing part of the content or while copying metadata, and it copies timestamps and permissions as well; neither is modelled.
- Batch.SetupStore: which destinations fail is a fixed table. A failure that depends on earlier copies in the same run, such as a disk filling up, is not modelled.
- AliasCopier.Classify: every failing copy is reported as "Error copying <name>: <reason>". In `src/main.py` a copy that raises `ValueError` would instead be reported with the bare message; `shutil.copy2` raises `OSError`-family errors for filesystem failures, so this case is not modelled.
- AliasCopier.CopySetupFiles: loading `iracing-folders.json` (src/main.py:89-90) happens inside `copy_setup_files`, before the per-file loop and outside its `try`. A missing or malformed file, or a non-string value (where `v.lower()` raises at src/main.py:93), makes the whole call raise, so no file gets an entry; the model takes the loaded items as a parameter and does not cover that failure. A key repeated in the file is collapsed by `json.load` before the routine sees it, and that collapsing is not modelled either.
- Directory enumeration: `Path.home`, `Path.cwd`, `exists`, `iterdir`, `is_dir` and `is_file` are replaced by listings passed in as ordered entry sequences. The order the operating system returns is taken as given.
- `main()` in both files: the console and log output, the message boxes, the Portuguese summary text, writing `setup_errors.log` and the top-level fatal-error handler are presentation around the core.
- The unused `tkinter` imports and `logging.basicConfig` configuration have no behaviour to model.
