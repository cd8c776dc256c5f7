/** The per-sample location registry (`__SRRLocationDict`): a Python dict
    from accession to a small dict of directory paths. Python dicts iterate in
    insertion order, so the model keeps the keys in that order beside the
    records. */
module Registry {
  import opened Outcomes
  import opened Commands

  /** One sample's record: field name to path. */
  type Record = map<string, string>

  const SrrDir: string := "SRR_dir"
  const FastqDir: string := "fastq_dir"
  const CellrangerDir: string := "cellranger_dir"

  datatype Locations = Locations(keys: seq<string>, records: map<string, Record>) {

    /** Every record has exactly one place in the iteration order. */
    ghost predicate Valid() {
      && (forall i, j :: 0 <= i < j < |keys| ==> keys[i] != keys[j])
      && (forall k :: k in records <==> k in keys)
    }

    /** `d[id] = rec`: a new key goes to the end of the order, an existing
        one keeps its place. */
    function Put(id: string, rec: Record): (l: Locations)
      requires Valid()
      ensures l.Valid()
      ensures l.records == records[id := rec]
      ensures l.keys == if id in records then keys else keys + [id]
    {
      Locations(if id in records then keys else keys + [id], records[id := rec])
    }

    /** `d[id][field] = value` for a key that is present. */
    function SetField(id: string, field: string, value: string): (l: Locations)
      requires Valid() && id in records
      ensures l.Valid() && l.keys == keys && l.records.Keys == records.Keys
      ensures l.records[id] == records[id][field := value]
      ensures forall k :: k in records && k != id ==> l.records[k] == records[k]
    {
      Put(id, records[id][field := value])
    }
  }

  /** `{}` */
  const Empty: Locations := Locations([], map[])

  /** Every id of the list has a record. */
  ghost predicate AllIn(ids: seq<string>, loc: Locations) {
    forall i :: 0 <= i < |ids| ==> ids[i] in loc.records
  }

  /** A suffix of a registered list is registered, in a registry with the
      same keys. */
  lemma AllInSuffix(ids: seq<string>, j: nat, a: Locations, b: Locations)
    requires AllIn(ids, a) && j <= |ids| && a.records.Keys == b.records.Keys
    ensures AllIn(ids[j..], b)
  {
    forall i | 0 <= i < |ids[j..]| ensures ids[j..][i] in b.records {
      assert ids[j..][i] == ids[j + i];
    }
  }

  /** The state ScRNAAnalysis keeps and its methods change: the accession
      list (None until it is read) and the registry. */
  datatype Session = Session(srrList: Option<seq<string>>, loc: Locations) {
    /** Every listed accession has a record: reading the list creates them
        and nothing removes one. */
    ghost predicate Valid() {
      loc.Valid() && (srrList.Some? ==> AllIn(srrList.value, loc))
    }
  }

  /** What a stage leaves behind: the session, the paths that exist, the
      commands handed to the shell in order, and the exception that ended
      the stage early, if any. */
  datatype Run = Run(s: Session, paths: set<string>, log: seq<Command>, err: Option<Error>)
}
