/** The external commands the pipeline hands to os.system, as argument
    lists: `prefetch`, `parallel-fastq-dump` and `cellranger count`. */
module Commands {
  import opened Outcomes
  import opened Text

  type Command = seq<string>

  /** Python truthiness of an optional int: None and 0 are both false. */
  predicate Truthy(n: Option<int>) {
    n.Some? && n.value != 0
  }

  /** How an f-string renders an optional string: None becomes "None". */
  function Show(s: Option<string>): string {
    if s.None? then "None" else s.value
  }

  function PrefetchArgs(id: string): Command {
    ["prefetch", id]
  }

  function DumpArgs(id: string, threads: int): Command {
    ["parallel-fastq-dump", "--sra-id", id + ".sra", "--threads", IntToDecimal(threads),
     "--outdir", "fastqs/", "--split-files", "--gzip"]
  }

  /** `cellranger count` for one sample: the four required flags, then
      --localcores and --localmem only when cores and mem are truthy. */
  function CountArgs(id: string, transcriptome: Option<string>, srrDir: string,
                     cores: Option<int>, mem: Option<int>): Command
  {
    ["cellranger", "count", "--id=" + id, "--transcriptome=" + Show(transcriptome),
     "--fastqs=" + srrDir + "/fastqs", "--sample=" + id]
    + (if Truthy(cores) then ["--localcores=" + IntToDecimal(cores.value)] else [])
    + (if Truthy(mem) then ["--localmem=" + IntToDecimal(mem.value)] else [])
  }

  /** What a `--flag=value` parser reads for `flag`: the value of the first
      argument that starts with it, if any. */
  function FlagValue(args: Command, flag: string): Option<string> {
    if args == [] then None
    else if StartsWith(args[0], flag) then Some(args[0][|flag|..])
    else FlagValue(args[1..], flag)
  }

  /** Two strings that differ at a position both reach cannot prefix each other. */
  lemma NotPrefixAt(s: string, flag: string, k: nat)
    requires k < |s| && k < |flag| && s[k] != flag[k]
    ensures !StartsWith(s, flag)
  {
  }

  /** The first argument carrying a flag decides its value. */
  lemma {:induction false} FlagAt(args: Command, k: nat, flag: string)
    requires k < |args| && StartsWith(args[k], flag)
    requires forall i :: 0 <= i < k ==> !StartsWith(args[i], flag)
    ensures FlagValue(args, flag) == Some(args[k][|flag|..])
  {
    if k > 0 {
      FlagAt(args[1..], k - 1, flag);
    }
  }

  /** No argument carries the flag: it is absent. */
  lemma {:induction false} FlagAbsent(args: Command, flag: string)
    requires forall i :: 0 <= i < |args| ==> !StartsWith(args[i], flag)
    ensures FlagValue(args, flag) == None
  {
    if args != [] {
      FlagAbsent(args[1..], flag);
    }
  }

  /** The id and the sample name are the same accession, the reads are
      looked for in the fastqs directory of the sample, and the
      transcriptome is passed through (as "None" when none was given). */
  lemma CountArgsRequiredFlags(id: string, transcriptome: Option<string>, srrDir: string,
                               cores: Option<int>, mem: Option<int>)
    ensures var args := CountArgs(id, transcriptome, srrDir, cores, mem);
      && FlagValue(args, "--id=") == Some(id)
      && FlagValue(args, "--sample=") == Some(id)
      && FlagValue(args, "--fastqs=") == Some(srrDir + "/fastqs")
      && FlagValue(args, "--transcriptome=") == Some(Show(transcriptome))
  {
    var args := CountArgs(id, transcriptome, srrDir, cores, mem);
    IdFlag(args, id, transcriptome, srrDir);
    TranscriptomeFlag(args, id, transcriptome, srrDir);
    FastqsFlag(args, id, transcriptome, srrDir);
    SampleFlag(args, id, transcriptome, srrDir);
  }

  ghost predicate HasBase(args: Command, id: string, transcriptome: Option<string>, srrDir: string) {
    && |args| >= 6
    && args[0] == "cellranger" && args[1] == "count"
    && args[2] == "--id=" + id
    && args[3] == "--transcriptome=" + Show(transcriptome)
    && args[4] == "--fastqs=" + srrDir + "/fastqs"
    && args[5] == "--sample=" + id
  }

  lemma IdFlag(args: Command, id: string, transcriptome: Option<string>, srrDir: string)
    requires HasBase(args, id, transcriptome, srrDir)
    ensures FlagValue(args, "--id=") == Some(id)
  {
    NotPrefixAt(args[0], "--id=", 0);
    NotPrefixAt(args[1], "--id=", 0);
    assert args[2][..5] == "--id=";
    FlagAt(args, 2, "--id=");
    assert args[2][5..] == id;
  }

  lemma TranscriptomeFlag(args: Command, id: string, transcriptome: Option<string>, srrDir: string)
    requires HasBase(args, id, transcriptome, srrDir)
    ensures FlagValue(args, "--transcriptome=") == Some(Show(transcriptome))
  {
    NotPrefixAt(args[0], "--transcriptome=", 0);
    NotPrefixAt(args[1], "--transcriptome=", 0);
    NotPrefixAt(args[2], "--transcriptome=", 2);
    assert args[3][..16] == "--transcriptome=";
    FlagAt(args, 3, "--transcriptome=");
    assert args[3][16..] == Show(transcriptome);
  }

  lemma FastqsFlag(args: Command, id: string, transcriptome: Option<string>, srrDir: string)
    requires HasBase(args, id, transcriptome, srrDir)
    ensures FlagValue(args, "--fastqs=") == Some(srrDir + "/fastqs")
  {
    NotPrefixAt(args[0], "--fastqs=", 0);
    NotPrefixAt(args[1], "--fastqs=", 0);
    NotPrefixAt(args[2], "--fastqs=", 2);
    NotPrefixAt(args[3], "--fastqs=", 2);
    assert args[4][..9] == "--fastqs=";
    FlagAt(args, 4, "--fastqs=");
    assert args[4][9..] == srrDir + "/fastqs";
  }

  lemma SampleFlag(args: Command, id: string, transcriptome: Option<string>, srrDir: string)
    requires HasBase(args, id, transcriptome, srrDir)
    ensures FlagValue(args, "--sample=") == Some(id)
  {
    NotPrefixAt(args[0], "--sample=", 0);
    NotPrefixAt(args[1], "--sample=", 0);
    NotPrefixAt(args[2], "--sample=", 2);
    NotPrefixAt(args[3], "--sample=", 2);
    NotPrefixAt(args[4], "--sample=", 2);
    assert args[5][..9] == "--sample=";
    FlagAt(args, 5, "--sample=");
    assert args[5][9..] == id;
  }

  /** --localcores and --localmem are passed exactly when cores and mem are
      truthy, with their decimal value; None and 0 both leave the flag out. */
  lemma CountArgsOptionalFlags(id: string, transcriptome: Option<string>, srrDir: string,
                               cores: Option<int>, mem: Option<int>)
    ensures var args := CountArgs(id, transcriptome, srrDir, cores, mem);
      && FlagValue(args, "--localcores=")
         == (if Truthy(cores) then Some(IntToDecimal(cores.value)) else None)
      && FlagValue(args, "--localmem=")
         == (if Truthy(mem) then Some(IntToDecimal(mem.value)) else None)
  {
    var args := CountArgs(id, transcriptome, srrDir, cores, mem);
    assert HasBase(args, id, transcriptome, srrDir);
    var cs := if Truthy(cores) then Some(IntToDecimal(cores.value)) else None;
    var ms := if Truthy(mem) then Some(IntToDecimal(mem.value)) else None;
    assert HasOptional(args, cs, ms);
    CoresFlag(args, id, transcriptome, srrDir, cs, ms);
    MemFlag(args, id, transcriptome, srrDir, cs, ms);
  }

  /** The arguments after the base six: --localcores, then --localmem,
      each present only when it has a value. */
  ghost predicate HasOptional(args: Command, cs: Option<string>, ms: Option<string>) {
    var m := if cs.Some? then 7 else 6;
    && |args| == m + (if ms.Some? then 1 else 0)
    && (cs.Some? ==> args[6] == "--localcores=" + cs.value)
    && (ms.Some? ==> args[m] == "--localmem=" + ms.value)
  }

  lemma CoresFlag(args: Command, id: string, transcriptome: Option<string>, srrDir: string,
                  cs: Option<string>, ms: Option<string>)
    requires HasBase(args, id, transcriptome, srrDir) && HasOptional(args, cs, ms)
    ensures FlagValue(args, "--localcores=") == cs
  {
    var flag := "--localcores=";
    BaseLacksFlag(args, id, transcriptome, srrDir, flag);
    if cs.Some? {
      OptionalFlag(args, 6, flag, cs.value);
    } else {
      forall i | 0 <= i < |args| ensures !StartsWith(args[i], flag) {
        if i == 6 { NotPrefixAt(args[6], flag, 7); }
      }
      FlagAbsent(args, flag);
    }
  }

  lemma MemFlag(args: Command, id: string, transcriptome: Option<string>, srrDir: string,
                cs: Option<string>, ms: Option<string>)
    requires HasBase(args, id, transcriptome, srrDir) && HasOptional(args, cs, ms)
    ensures FlagValue(args, "--localmem=") == ms
  {
    var flag := "--localmem=";
    BaseLacksFlag(args, id, transcriptome, srrDir, flag);
    var m := if cs.Some? then 7 else 6;
    forall i | 0 <= i < m ensures !StartsWith(args[i], flag) {
      if i == 6 { NotPrefixAt(args[6], flag, 7); }
    }
    if ms.Some? {
      OptionalFlag(args, m, flag, ms.value);
    } else {
      FlagAbsent(args, flag);
    }
  }

  /** None of the six base arguments starts with a flag that begins "--l". */
  lemma BaseLacksFlag(args: Command, id: string, transcriptome: Option<string>, srrDir: string, flag: string)
    requires HasBase(args, id, transcriptome, srrDir)
    requires StartsWith(flag, "--l")
    ensures forall i :: 0 <= i < 6 ==> !StartsWith(args[i], flag)
  {
    assert flag[0] == '-' && flag[2] == 'l';
    NotPrefixAt(args[0], flag, 0);
    NotPrefixAt(args[1], flag, 0);
    NotPrefixAt(args[2], flag, 2);
    NotPrefixAt(args[3], flag, 2);
    NotPrefixAt(args[4], flag, 2);
    NotPrefixAt(args[5], flag, 2);
  }

  lemma OptionalFlag(args: Command, k: nat, flag: string, value: string)
    requires k < |args| && args[k] == flag + value
    requires forall i :: 0 <= i < k ==> !StartsWith(args[i], flag)
    ensures FlagValue(args, flag) == Some(value)
  {
    assert args[k][..|flag|] == flag;
    FlagAt(args, k, flag);
    assert args[k][|flag|..] == value;
  }
}
