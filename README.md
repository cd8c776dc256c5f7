# A Dafny model of the ScRNAAnalysis pipeline bookkeeping

`ScRNAAnalysis` (python_code/scrna_tool.py) drives a single-cell RNA-seq
pipeline over accessions from the NCBI Sequence Read Archive. It reads an
accession list, finds which runs are already on disk, fetches the others with
`prefetch`, and dumps them to fastq files with `parallel-fastq-dump`. It then
renames those files to the Cell Ranger naming convention, runs
`cellranger count` per sample, and can rebuild its per-sample location
registry from what exists on disk.

This project models that bookkeeping and proves properties of it:

- the accession list and the registry, a dict of dicts whose insertion order
  matters;
- the paths that exist on disk;
- the argument lists handed to the external tools;
- the file-name rewriting.

Each method of the class is a Dafny method over a `Disk` object and the
object's fields. Each one is proved equal to a stage function: a pure
recursive definition that stops at the first exception, as the Python loop
does. The properties the pipeline relies on are proved as lemmas about those
functions.

Modules, one per file:

| module | file | what it holds |
|---|---|---|
| `Outcomes` | outcomes.dfy | `Option`, `Result` and the Python exceptions the methods can raise |
| `Text` | text.dfy | `str.startswith`, `strip`, `split`, `str(int)`, and the lines a `for line in f` loop yields |
| `Paths` | paths.dfy | `os.path.join` (with a basename helper, which the code itself never calls, for stating what a join ends in), and the effect of `os.rename` on the set of existing paths |
| `Accessions` | accessions.dfy | which lines of the list file become accession ids |
| `FastqNames` | fastq_names.dfy | the new name `__rename_fastq__` gives a file |
| `Commands` | commands.dfy | the argument lists of `prefetch`, `parallel-fastq-dump` and `cellranger count` |
| `Registry` | registry.dfy | `__SRRLocationDict` as insertion-ordered keys plus records, and the object's state |
| `Seqs` | seqs.dfy | slice facts the loops share |
| `Fetching` | fetching.dfy | `_get_SRRs_list`, `_check_local_file` and `prefetch_SRRs` as functions, and their lemmas |
| `Renaming` | renaming.dfy | the rename loop over one directory listing |
| `Dumping` | dumping.dfy | `parallel_fastq_dump` as a function, and its lemmas |
| `Counting` | counting.dfy | `cellranger_count` as a function, and its lemmas |
| `Building` | building.dfy | `build_SRRdict` as a function, and its lemmas |
| `FileSystem` | disk.dfy | class `Disk`: the existing paths, with `os.rename`, `os.chdir` and tool output as methods |
| `ScRnaTool` | scrna_tool.dfy | class `ScRNAAnalysis` and the loops of its methods |

The external tools become inputs to the stages:

- `prefetch`: the set `fetched` of accessions whose download succeeds. The
  model takes a success to leave `<home>/<id>/<id>.sra`; the code does not
  arrange this itself (see "## Left out").
- `parallel-fastq-dump`: a map `dumped` from each accession to the listing of
  its `fastqs/` directory after the tool ran: the files it wrote together with
  any left there by an earlier run. An accession missing from the map is one
  for which the tool created no such directory.
- `cellranger`: the set `produced` of accessions whose run writes its
  output folder `<SRR_dir>/<id>`.

The code never reads an exit status, and neither does the model.

Where the method documentation and the code differ, the model follows the
code:

- `build_SRRdict` records `fastq_dir` as `<SRR_dir>/_fastq`, but
  `parallel_fastq_dump` writes to and records `<SRR_dir>/fastqs`
  (`Building.BuildFastqDirIsNotDumpDir`).
- The `cellranger_count` docstring says a missing transcriptome falls back to
  the object's `transcriptomePath`. Line 152 only evaluates that field, so the
  command carries `--transcriptome=None` (`Commands.Show`).
- Renaming always writes the extension `.fastq.gzip`, whatever the original
  extension was (`FastqNames.ExtensionIgnored`).
- `prefetch_SRRs` records `SRR_dir` whether or not the download succeeded
  (`Fetching.PrefetchRecords`).

## Model

| member | source | states |
|---|---|---|
| ScRnaTool.ScRNAAnalysis.constructor | python_code/scrna_tool.py:10-15 | a new object has no list read and an empty registry, and keeps the three paths it was given |
| ScRnaTool.ReadAccessions | python_code/scrna_tool.py:42-46 | the line loop returns exactly the ids the list file's lines parse to |
| ScRnaTool.ClearRecords | python_code/scrna_tool.py:49-50 | the dict loop leaves the registry that `d[SRR] = {}` per listed id gives, in list order |
| ScRnaTool.ScRNAAnalysis.GetSrrList | python_code/scrna_tool.py:36-51 | an unreadable list file raises FileNotFoundError and changes nothing; otherwise the list is the parsed ids and each id has an empty record |
| Accessions.IsAccessionLine | python_code/scrna_tool.py:45 | `line.startswith('SRR')`, the test that decides whether a line is kept; `Accessions.ParseAccessionsOneLine` states its effect |
| Accessions.ParseAccessions | python_code/scrna_tool.py:44-46 | every kept id starts with "SRR", and no more ids are kept than there are lines |
| Accessions.ParseAccessionsMember | python_code/scrna_tool.py:44-46 | an id is kept if and only if some line starting with "SRR" strips to it |
| Accessions.ParseAccessionsAppend | python_code/scrna_tool.py:44-46 | the ids of two consecutive parts of the file are the ids of the first followed by those of the second, so file order is kept |
| Accessions.ParseAccessionsOneLine | python_code/scrna_tool.py:45-46 | one line yields its stripped text when it starts with "SRR", and nothing otherwise |
| Accessions.AccessionIsLineWithoutTrailingSpace | python_code/scrna_tool.py:46 | a kept id is its line minus trailing whitespace (the newline among it) and ends in a non-blank character |
| Accessions.ParseExample | python_code/scrna_tool.py:44-46 | a comment line is skipped, and trailing blanks and newlines are dropped |
| Text.StartsWith | python_code/scrna_tool.py:45 | `str.startswith`: the string begins with the prefix; the test `Accessions.ParseAccessionsMember` is stated with |
| Text.IsSpace | python_code/scrna_tool.py:46 | the characters `str.isspace()` accepts: blank, `\t` to `\r`, `\x1c` to `\x1f`, and the Unicode spaces Python counts |
| Text.Strip | python_code/scrna_tool.py:46 | `str.strip()`, defined as rstrip after lstrip; `Text.RStrip`, `Text.LStrip` and `Text.StripKeepsPrefix` say what it removes |
| Text.SplitLines | python_code/scrna_tool.py:44 | the lines `for line in f` yields: none is empty and every one but the last ends in a newline; `Text.ConcatSplitLines` shows they give back the file |
| Text.SplitOn | python_code/scrna_tool.py:133 | `str.split(sep)`: at least one piece and no piece holds the separator; `Text.JoinSplitOn` and `Text.SplitJoinWith` make it the inverse of joining |
| Text.RStrip | python_code/scrna_tool.py:46 | rstrip returns a prefix that drops only whitespace and ends in a non-blank character |
| Text.LStrip | python_code/scrna_tool.py:46 | lstrip returns a suffix that drops only whitespace and starts with a non-blank character |
| Text.StripKeepsPrefix | python_code/scrna_tool.py:45-46 | stripping a line that starts with "SRR" keeps the prefix and only removes trailing whitespace |
| Text.ConcatSplitLines | python_code/scrna_tool.py:44 | the lines of a file read line by line concatenate back to the file |
| Text.SplitLinesNewlineOnlyAtEnd | python_code/scrna_tool.py:44 | a line holds a newline only as its last character |
| Text.JoinSplitOn | python_code/scrna_tool.py:133 | joining the pieces of `str.split` with the separator gives back the string |
| Text.SplitJoinWith | python_code/scrna_tool.py:133 | splitting separator-free pieces joined by the separator gives back the pieces |
| Text.NatToDecimal | python_code/scrna_tool.py:122 | str(n) is a non-empty string of decimal digits with no leading zero |
| Text.IntToDecimal | python_code/scrna_tool.py:122 | `str(n)` for any integer: a minus sign then the digits of the magnitude when n is negative, otherwise `NatToDecimal` |
| Text.DecimalRoundTrip | python_code/scrna_tool.py:122 | parsing str(n) gives back n |
| Fetching.ReadList | python_code/scrna_tool.py:42-46 | FileNotFoundError when the list file cannot be opened, otherwise the accessions its lines parse to; `ScRnaTool.ReadAccessions` is its loop |
| Fetching.ResetRecords | python_code/scrna_tool.py:49-50 | the registry after the dict loop stays valid, every listed id has a record and no key is lost; `Fetching.ResetRecordsEffect` gives each record |
| Fetching.Loaded | python_code/scrna_tool.py:47-50 | the object after `_get_SRRs_list` read a list: the list is the ids read, the registry is `ResetRecords` of them, and the state stays valid |
| Fetching.ListOrLoad | python_code/scrna_tool.py:60-61 | the state as it is when a list was read, otherwise the list read now; a success has a list and a valid registry; `Fetching.ListOrLoadRecord` gives the records |
| Fetching.ResetRecordsEffect | python_code/scrna_tool.py:49-50 | after loading, each listed id has an empty record (replacing any old one), other records are unchanged, and no key is lost |
| Fetching.ResetRecordsKeepsOrder | python_code/scrna_tool.py:49-50 | keys already in the registry keep their place in the iteration order |
| Fetching.ResetRecordsAppend | python_code/scrna_tool.py:49-50 | one more turn of the dict loop adds one `d[SRR] = {}` |
| Registry.Locations.Put | python_code/scrna_tool.py:50 | `d[k] = v` sets the record, appends a new key at the end of the iteration order, and leaves an existing key in place |
| Registry.Locations.SetField | python_code/scrna_tool.py:73 | `d[k][field] = v` changes that one field of that one record, and nothing else |
| ScRnaTool.CheckEach | python_code/scrna_tool.py:62-76 | the loop over the copy leaves the fetch list and registry given by `NeedsPrefetch` and `MarkPresent` |
| ScRnaTool.ScRNAAnalysis.CheckLocalFile | python_code/scrna_tool.py:53-76 | reads the list only when it was never read; the fetch list and the new state are those of the check |
| Fetching.Present | python_code/scrna_tool.py:66-71 | an accession is present when both its folder under home and `<folder>/<id>.sra` exist; `Fetching.NeedsPrefetchMember` ties the fetch list to it |
| Fetching.RemoveFirst | python_code/scrna_tool.py:72 | `list.remove(x)`, dropping the first occurrence; `Fetching.RemoveFirstAfter` states it |
| Fetching.CheckLocal | python_code/scrna_tool.py:53-76 | the list (read when needed), the marked registry and the fetch list; a success has a list and every accession to fetch is registered; `Fetching.NeedsPrefetchMember` and `Fetching.MarkPresentEffect` say which |
| Fetching.NeedsPrefetch | python_code/scrna_tool.py:62-72 | the fetch list is no longer than the accession list and holds only listed ids |
| Fetching.NeedsPrefetchMember | python_code/scrna_tool.py:66-72 | an id is to be fetched if and only if it is listed and its folder or its .sra file is missing |
| Fetching.NeedsPrefetchAppend | python_code/scrna_tool.py:62-72 | the fetch list keeps the accession-list order |
| Fetching.PresenceScenario | python_code/scrna_tool.py:66-72 | with one accession on disk and one missing, only the missing one is to be fetched |
| Fetching.NoneNeeded | python_code/scrna_tool.py:66-72 | when every accession is present, nothing is to be fetched |
| Fetching.RemoveFirstAfter | python_code/scrna_tool.py:72 | `list.remove(x)` drops the first occurrence of x and keeps the rest in order |
| Fetching.CheckStepMissing | python_code/scrna_tool.py:68-75 | a missing accession stays in the copied list |
| Fetching.CheckStepPresent | python_code/scrna_tool.py:71-72 | a present accession adds nothing to the fetch list |
| Fetching.CheckStepRemove | python_code/scrna_tool.py:72 | `remove` takes out the present accession's own entry, not an earlier one |
| Fetching.MarkPresent | python_code/scrna_tool.py:66-73 | the check keeps every key, its order and every record's place |
| Fetching.MarkPresentEffect | python_code/scrna_tool.py:66-73 | `SRR_dir = <home>/<id>` is set for exactly the present accessions, and no other field or record changes |
| Fetching.MarkPresentAppend | python_code/scrna_tool.py:66-73 | one more turn of the check records the folder when the accession is present, and nothing otherwise |
| Paths.JoinShape | python_code/scrna_tool.py:67-70 | os.path.join ends with its second part, and starts with its first when the second is not absolute |
| Paths.JoinBasename | python_code/scrna_tool.py:67 | joining one path component makes it the last component |
| Paths.MovePath | python_code/scrna_tool.py:137 | after os.rename the destination exists, the source is gone, every other path survives, and no other path appears |
| Fetching.ArchivePaths | python_code/scrna_tool.py:85 | what a successful download is taken to leave: the accession's folder under home and its `.sra` file; `Fetching.PrefetchMakesPresent` uses it |
| Fetching.Prefetch | python_code/scrna_tool.py:78-89 | the whole `prefetch_SRRs`: the check's failure, or the fetch loop's registry, paths and log, with a valid state; `Fetching.PrefetchFailure`, `Fetching.PrefetchRecords` and `Fetching.PrefetchLogged` characterize it |
| ScRnaTool.FetchEach | python_code/scrna_tool.py:83-88 | the fetch loop logs one `prefetch` per accession, adds the archives of the downloads that succeed, and records `<home>/<id>` for every accession |
| ScRnaTool.ScRNAAnalysis.PrefetchSrrs | python_code/scrna_tool.py:78-89 | the method as a whole: the check, then the fetch loop over the accessions still to fetch |
| Fetching.PrefetchFailure | python_code/scrna_tool.py:60-61 | the stage fails only when the list must be read and cannot be, and then changes nothing |
| Fetching.ListOrLoadRecord | python_code/scrna_tool.py:60-61 | once the list is read, every listed id has a record, and an unlisted one keeps its record |
| Fetching.PrefetchRecords | python_code/scrna_tool.py:81-88 | after fetching, every listed accession has `SRR_dir == <home>/<id>` whether its download succeeded or not, and unlisted records are unchanged |
| Fetching.PrefetchKeepsOrder | python_code/scrna_tool.py:47-50 | fetching only ever extends the registry's iteration order |
| Fetching.PrefetchLogged | python_code/scrna_tool.py:83-85 | a listed accession is fetched if and only if it was not present |
| Fetching.PrefetchLog | python_code/scrna_tool.py:83-85 | one `prefetch <id>` per accession, in order |
| Fetching.PrefetchLogMember | python_code/scrna_tool.py:83-85 | the log holds `prefetch x` if and only if x was to be fetched |
| Fetching.PrefetchLogAppend | python_code/scrna_tool.py:83-85 | each turn appends one command |
| Fetching.SetSrrDirs | python_code/scrna_tool.py:88 | recording the folders keeps every key, its order and every record's place |
| Fetching.SetSrrDirsEffect | python_code/scrna_tool.py:83-88 | `SRR_dir = <home>/<id>` is set for exactly the accessions fetched, and nothing else changes |
| Fetching.SetSrrDirsAppend | python_code/scrna_tool.py:83-88 | each turn records one more folder |
| Fetching.AfterPrefetch | python_code/scrna_tool.py:85 | fetching never removes a path |
| Fetching.AfterPrefetchAppend | python_code/scrna_tool.py:85 | each turn adds the archive of one more successful download |
| Fetching.PrefetchSetsEveryDir | python_code/scrna_tool.py:66-88 | after the check and the fetch loop, every listed record has `SRR_dir == <home>/<id>` and unlisted ones are as before |
| Fetching.PrefetchMakesPresent | python_code/scrna_tool.py:85 | when every download succeeds, every fetched accession is present afterwards |
| Fetching.RecheckAfterPrefetch | python_code/scrna_tool.py:62-88 | when every download succeeds, a second check finds nothing left to fetch |
| FastqNames.ReadToken | python_code/scrna_tool.py:131 | `map_dic`: "1" to I1, "2" to R1, "3" to R2, and any other index missing |
| FastqNames.Stem | python_code/scrna_tool.py:133 | `fastq.split('.')[0]`, the text before the first '.' |
| FastqNames.RenameTarget | python_code/scrna_tool.py:133-134 | the new name of one listed file, ValueError when the stem does not split into two parts and KeyError for an unknown index; `FastqNames.RenameWellFormed` and `FastqNames.RenameTargetShape` make it an if-and-only-if |
| FastqNames.StemParts | python_code/scrna_tool.py:133 | a fastq-dump name `<srr>_<index>.<ext>` splits into exactly [srr, index] |
| FastqNames.RenameWellFormed | python_code/scrna_tool.py:131-134 | each fastq-dump name with index 1, 2 or 3 is renamed to `<srr>_S1_L001_<I1/R1/R2>_001.fastq.gzip`, whatever its extension |
| FastqNames.RenameTargetShape | python_code/scrna_tool.py:133-134 | conversely, a name is renamed only when it has that shape |
| FastqNames.UnknownIndexRefused | python_code/scrna_tool.py:131-134 | an index outside 1..3 raises KeyError: `SRR1_4.fastq` is refused with key "4" |
| FastqNames.RenamedNameRefused | python_code/scrna_tool.py:133 | a name already in Cell Ranger form has five parts, so unpacking it raises ValueError |
| FastqNames.CellRangerNameRefused | python_code/scrna_tool.py:133 | every Cell Ranger name is refused |
| FastqNames.RenameIsNotRepeated | python_code/scrna_tool.py:133-134 | the new name of a file is never renamed again |
| FastqNames.ExtensionIgnored | python_code/scrna_tool.py:133-134 | names that differ only after the first '.' get the same new name |
| FastqNames.TargetParts | python_code/scrna_tool.py:134 | the accession and the read type can be read back from a new name |
| FastqNames.RenameTargetDeterminesStem | python_code/scrna_tool.py:133-134 | two names with the same new name have the same stem: different accessions or indices never collide |
| Renaming.InDir | python_code/scrna_tool.py:135-136 | `directory + '/' + name`; `Renaming.InDirInjective` shows it keeps names apart |
| Renaming.RenameAll | python_code/scrna_tool.py:132-137 | the rename loop over a listing, stopping at the first exception; `Renaming.RenameAllChecksNames`, `Renaming.RenameAllStopsAtBadName` and `Renaming.RenameAllMovesEveryFile` characterize it |
| Renaming.RenameInDir | python_code/scrna_tool.py:130-139 | FileNotFoundError when the directory is missing, otherwise `RenameAll` over the listing; `ScRnaTool.RenameFastq` is its method |
| Renaming.InDirInjective | python_code/scrna_tool.py:135-136 | `directory + '/' + name` determines the name |
| Renaming.Targets | python_code/scrna_tool.py:134 | the new names, one per listed file, in listing order |
| Renaming.RenameAllChecksNames | python_code/scrna_tool.py:132-137 | a rename loop that raises nothing found a new name for every listed file |
| Renaming.RenameAllStopsAtBadName | python_code/scrna_tool.py:132-134 | any refused name, wherever it is in the listing, makes the loop raise |
| Renaming.RenameAllMovesEveryFile | python_code/scrna_tool.py:132-137 | for distinct, present and well-named files the loop succeeds: exactly the listed files are gone and their new names exist |
| Renaming.RenameTwiceRefused | python_code/scrna_tool.py:132-137 | a second pass over the new names raises at once and moves nothing |
| ScRnaTool.RenameFastq | python_code/scrna_tool.py:130-139 | a missing directory raises FileNotFoundError; otherwise the files are moved one by one as the rename loop describes, up to the first exception |
| FileSystem.Disk.Rename | python_code/scrna_tool.py:137 | os.rename raises FileNotFoundError for a missing source and otherwise moves it |
| FileSystem.Disk.ChangeDir | python_code/scrna_tool.py:119 | os.chdir raises FileNotFoundError exactly when the folder is missing |
| FileSystem.Disk.Create | python_code/scrna_tool.py:122 | an external tool's output adds exactly the paths it writes |
| Commands.PrefetchArgs | python_code/scrna_tool.py:85 | the command `prefetch <id>` |
| Commands.DumpArgs | python_code/scrna_tool.py:122 | the command `parallel-fastq-dump --sra-id <id>.sra --threads <threads> --outdir fastqs/ --split-files --gzip` |
| Dumping.FastqsOf | python_code/scrna_tool.py:120 | `SRRpath + '/fastqs'` |
| Dumping.DumpOutput | python_code/scrna_tool.py:122 | what the dump leaves: the `fastqs` directory and each listed file in it, or nothing when the tool created no directory |
| Dumping.Listing | python_code/scrna_tool.py:132 | what `os.listdir` returns for the fastq directory: the listing given, or empty when the tool created no directory |
| Dumping.DumpStep | python_code/scrna_tool.py:118-125 | one pass keeps the state valid, the list and the keys; `Dumping.DumpStepRecord`, `Dumping.DumpStepClean` and `Dumping.DumpStepLeftoverRefused` characterize it |
| Dumping.DumpStepLeftoverRefused | python_code/scrna_tool.py:132-133 | a listing that holds a name the rename refuses, such as a Cell Ranger name an earlier run left, makes the pass raise |
| Dumping.DumpRun | python_code/scrna_tool.py:117-126 | the loop, stopping at the first exception, keeps the state valid, the list and the keys; `Dumping.DumpRunRecord`, `Dumping.DumpRunComplete` and `Dumping.DumpRunLog` characterize it |
| Dumping.DumpAll | python_code/scrna_tool.py:113-128 | the whole method keeps the state valid; `Dumping.DumpAllOutcome` characterizes it |
| ScRnaTool.DumpOne | python_code/scrna_tool.py:118-125 | one turn of the dump loop, as the dump step describes it |
| ScRnaTool.DumpEach | python_code/scrna_tool.py:117-126 | the dump loop over the registry's keys in insertion order, up to the first exception |
| ScRnaTool.ScRNAAnalysis.ParallelFastqDump | python_code/scrna_tool.py:113-128 | the method as a whole: enter home, fetch first when the registry is empty, then the dump loop |
| Dumping.DumpStepRecord | python_code/scrna_tool.py:118-125 | a turn writes only `fastq_dir` of its own record, set to `<SRR_dir>/fastqs`, and only on success |
| Dumping.DumpStepClean | python_code/scrna_tool.py:118-122 | a turn that raises nothing found a folder and ran one dump of its accession |
| Dumping.DumpRunRecord | python_code/scrna_tool.py:117-125 | the loop leaves each record as it was or with `fastq_dir` set under its folder, and leaves unvisited records unchanged |
| Dumping.DumpRunComplete | python_code/scrna_tool.py:117-125 | a clean loop recorded `fastq_dir = <SRR_dir>/fastqs` for every accession it visited |
| Dumping.DumpRunNeedsFolders | python_code/scrna_tool.py:118 | an accession without `SRR_dir` makes the loop end in an exception: the KeyError of line 118 when it reaches that accession, or an earlier one |
| Dumping.DumpRunErrorSticks | python_code/scrna_tool.py:117-125 | after an exception the loop does nothing more |
| Dumping.DumpLog | python_code/scrna_tool.py:122 | one `parallel-fastq-dump` per accession, in order |
| Dumping.DumpRunLog | python_code/scrna_tool.py:117-122 | a clean loop ran exactly one dump per accession, in registry order |
| Dumping.DumpAllOutcome | python_code/scrna_tool.py:113-125 | a missing home folder raises at once and changes nothing; after a clean run every record has `fastq_dir == <SRR_dir>/fastqs` |
| Commands.Truthy | python_code/scrna_tool.py:166-169 | `if cores:` for an optional integer: present and not zero |
| Commands.Show | python_code/scrna_tool.py:163 | how an f-string renders an optional string: None becomes "None" |
| Commands.CountArgs | python_code/scrna_tool.py:161-169 | the `cellranger count` argument list; `Commands.CountArgsRequiredFlags` and `Commands.CountArgsOptionalFlags` read each flag back |
| Counting.CountDirOf | python_code/scrna_tool.py:173-174 | `f'{cwd}/cellranger_{id}'` |
| Counting.CountStep | python_code/scrna_tool.py:157-174 | one pass keeps the state valid, the list and the keys; `Counting.CountStepEffect` and `Counting.CountStepKeepsFolders` characterize it |
| Counting.CountRun | python_code/scrna_tool.py:156-174 | the loop, stopping at the first exception, keeps the state valid, the list and the keys; `Counting.CountRunRecord`, `Counting.CountRunComplete` and `Counting.CountRunLog` characterize it |
| Counting.CountAll | python_code/scrna_tool.py:151-174 | the whole method: the given ids, else the list, and TypeError when both are None; the state stays valid; `Counting.CountAllOutcome` characterizes it |
| Commands.CountArgsRequiredFlags | python_code/scrna_tool.py:161-165 | the command carries `--id` and `--sample` with the same id, `--fastqs=<SRR_dir>/fastqs`, and the transcriptome as given |
| Commands.CountArgsOptionalFlags | python_code/scrna_tool.py:166-169 | `--localcores` and `--localmem` are present if and only if cores and mem are truthy, so None and 0 both omit them, and they carry the decimal value |
| Counting.CountStepEffect | python_code/scrna_tool.py:157-174 | a turn writes only `cellranger_dir` of its own record, set to `<SRR_dir>/cellranger_<id>`, and only on success; a clean turn ran one command |
| Counting.CountRunRecord | python_code/scrna_tool.py:156-174 | the loop leaves each record as it was or with `cellranger_dir` set beside its folder, and leaves ids not given unchanged |
| Counting.CountRunComplete | python_code/scrna_tool.py:156-174 | a clean loop recorded `cellranger_dir` for every id it was given |
| Counting.CountRunErrorSticks | python_code/scrna_tool.py:156-174 | after an exception the loop does nothing more |
| Counting.CountStepKeepsFolders | python_code/scrna_tool.py:173-174 | counting never changes a sample's `SRR_dir` |
| Counting.CountLog | python_code/scrna_tool.py:171 | one `cellranger count` per id, in order, each on that id's folder |
| Counting.CountRunLog | python_code/scrna_tool.py:156-171 | a clean loop found every id registered with a folder and ran exactly one command per id, in order |
| Counting.CountLogFlags | python_code/scrna_tool.py:157-165 | each command names its id as id and sample, and reads the fastq directory under that id's folder |
| Counting.CountAllOutcome | python_code/scrna_tool.py:151-174 | with no ids and no list read it raises TypeError and changes nothing; a clean run set `cellranger_dir` for every id |
| ScRnaTool.CountOne | python_code/scrna_tool.py:157-174 | one turn of the count loop, as the count step describes it |
| ScRnaTool.CountEach | python_code/scrna_tool.py:156-174 | the count loop over the given ids, up to the first exception |
| ScRnaTool.ScRNAAnalysis.CellrangerCount | python_code/scrna_tool.py:141-174 | the method as a whole: the given ids or the list, then the count loop |
| Building.FastqGuess | python_code/scrna_tool.py:185 | `os.path.join(SRR_folder_path, '_fastq')` |
| Building.CountGuess | python_code/scrna_tool.py:191 | `os.path.join(SRR_folder_path, 'cellranger_' + SRR)` |
| Building.AttachOne | python_code/scrna_tool.py:184-185 | one turn of the first loop keeps the registry valid and its keys; `Building.AttachOneEffect` gives the two fields it sets |
| Building.AttachDirs | python_code/scrna_tool.py:181-187 | the first loop keeps the registry valid and its keys; `Building.AttachDirsEffect` characterizes it |
| Building.AttachCountDirs | python_code/scrna_tool.py:189-195 | the second loop, KeyError at the first record without `SRR_dir`, keeps the registry valid and its keys; `Building.AttachCountDirsClean` and `Building.AttachCountDirsEffect` characterize it |
| Building.Build | python_code/scrna_tool.py:176-196 | the whole method: TypeError with no list; otherwise the keys are kept and every listed accession stays registered; `Building.BuildOutcome` characterizes it |
| Building.AttachOneEffect | python_code/scrna_tool.py:184-185 | a turn of the first loop sets `SRR_dir` and `fastq_dir` of one record only |
| Building.AttachDirsEffect | python_code/scrna_tool.py:181-185 | the first loop sets `SRR_dir = <home>/<id>` and `fastq_dir = <home>/<id>/_fastq` for exactly the listed accessions whose folder exists |
| Building.AttachCountDirsClean | python_code/scrna_tool.py:189-190 | the second loop raises nothing if and only if every record it visits has `SRR_dir` |
| Building.AttachCountDirsEffect | python_code/scrna_tool.py:189-193 | the second loop sets `cellranger_dir` for exactly the visited records whose `cellranger_<id>` folder exists, and changes nothing else |
| Building.KeepsFolders | python_code/scrna_tool.py:193 | a turn of the second loop keeps every folder |
| Building.BuildOutcome | python_code/scrna_tool.py:176-196 | with no list it raises TypeError and changes nothing; it finishes if and only if every record has a folder after the first loop, and then each record is as the two loops describe |
| Building.BuildFindsCountOutput | python_code/scrna_tool.py:173-174 | for a folder not ending in '/', the folder build_SRRdict looks for is the one cellranger_count moved its output to |
| Building.BuildFastqDirIsNotDumpDir | python_code/scrna_tool.py:185 | the `fastq_dir` build_SRRdict records is never the `fastqs` directory parallel_fastq_dump fills |
| ScRnaTool.AttachEach | python_code/scrna_tool.py:181-185 | the first loop of build_SRRdict, as the first-loop function describes it |
| ScRnaTool.AttachCountEach | python_code/scrna_tool.py:189-195 | the second loop over the registry's keys, up to the first KeyError |
| ScRnaTool.ScRNAAnalysis.BuildSrrDict | python_code/scrna_tool.py:176-196 | the method as a whole: TypeError without a list, otherwise the two loops; the list itself is unchanged |

## Left out

- `fastq_dump` (python_code/scrna_tool.py:91-111) is not modelled. It cannot
  work as written: it joins a record dict as if it were a path, and
  `os.path.join(SRRpath, '/_fastq')` throws the folder away.
- python_code/cellranger_tools.py is not part of this model. It is shell
  plumbing around `os.system` and an external `rename` tool.
- The read-only properties (python_code/scrna_tool.py:17-33) are not
  modelled separately; the class's fields are readable directly.
- `print` output is not modelled.
- The external tools are not modelled. Each one is replaced by its effect on
  the set of existing paths, given as an input: `fetched`, `dumped` and
  `produced`.
- The commands are argument lists. The command text is not modelled: the
  runs of spaces the backslash continuations put into it, shell
  word-splitting and quoting. The command for the hard-coded Cell Ranger
  binary (line 159) is written as `cellranger`.
- The current directory is not kept. `os.chdir` is modelled only as the check
  that its folder exists. The relative `fastqs/` of the dump command is taken
  under `SRR_dir`, the directory the loop has just entered.
- The filesystem is a set of path strings:
  - Files and directories are not told apart.
  - Moving a folder does not carry its contents along.
  - `os.rename` onto an existing destination always replaces it in the
    model. The program raises OSError when the destination is a non-empty
    directory. So the model does not capture the OSError that a second
    `cellranger_count` run on a sample raises when it moves `<SRR_dir>/<id>`
    onto the existing `<SRR_dir>/cellranger_<id>` (line 173).
  - A directory listing is an input, so listing order is whatever the caller
    gives.
- Dumping.DumpStep: the listing `__rename_fastq__` walks (line 132) is an
  input, not derived from the set of existing paths. So leftover files in
  `fastqs/` from an earlier run are renamed, or make the loop raise, only when
  the input lists them. An earlier run's Cell Ranger-named files make line 133
  raise ValueError; `Dumping.DumpStepLeftoverRefused` proves the pass raises
  once they are listed.
- Where `prefetch` writes is not modelled. `prefetch_SRRs` (lines 83-88)
  never enters `SRAHomePath`, so where the download lands depends on the tool
  and the current directory. The model assumes downloads land under home, as
  `<home>/<id>/<id>.sra`. `Fetching.PrefetchMakesPresent` and
  `Fetching.RecheckAfterPrefetch` hold only under that assumption.
- Relative paths are not modelled. `Disk.ChangeDir` treats every path as
  absolute. So a relative `SRAHomePath`, which resolves differently once line
  114 has entered home, is taken to be absolute.
- Reading the list file: the file is its text, or None when it cannot be
  opened. Every failure to open it is FileNotFoundError. Encoding errors and
  universal-newline translation are not modelled.
- `threads`, `cores` and `mem` are integers. Other Python values, such as
  floats or strings, are not modelled.
- Exceptions other than those the modelled lines can raise are not modelled:
  FileNotFoundError, KeyError, ValueError from tuple unpacking, and TypeError
  from iterating None.
