/** The file-name rewrite of ScRNAAnalysis.__rename_fastq__: the
    fastq-dump output `<SRR>_<1|2|3>.<ext>` becomes the Cell Ranger name
    `<SRR>_S1_L001_<I1|R1|R2>_001.fastq.gzip`. */
module FastqNames {
  import opened Outcomes
  import opened Text

  /** The fixed table from fastq-dump's read index to Cell Ranger's read type. */
  function ReadToken(index: string): Option<string> {
    if index == "1" then Some("I1")
    else if index == "2" then Some("R1")
    else if index == "3" then Some("R2")
    else None
  }

  /** The stem of a file name: the text before its first '.'. */
  function Stem(name: string): string {
    SplitOn(name, '.')[0]
  }

  /** The new name for one listed file; NotTwoParts when the stem does not
      split on '_' into exactly two names (Python's ValueError), KeyMissing
      when the index is not in the table (Python's KeyError). */
  function RenameTarget(name: string): Result<string> {
    var parts := SplitOn(Stem(name), '_');
    if |parts| != 2 then Err(NotTwoParts(name))
    else match ReadToken(parts[1])
      case None => Err(KeyMissing(parts[1]))
      case Some(token) => Ok(parts[0] + "_S1_L001_" + token + "_001.fastq.gzip")
  }

  /** A name `<srr>_<index><rest>`, with no '_' or '.' in srr and index and a
      rest that is empty or starts at a '.', splits into [srr, index]. */
  lemma StemParts(srr: string, index: string, rest: string)
    requires '_' !in srr && '.' !in srr && '_' !in index && '.' !in index
    requires rest == "" || rest[0] == '.'
    ensures SplitOn(Stem(srr + "_" + index + rest), '_') == [srr, index]
  {
    var stem := srr + "_" + index;
    assert forall i :: 0 <= i < |stem| ==> stem[i] != '.' by {
      forall i | 0 <= i < |stem| ensures stem[i] != '.' {
        if i < |srr| { assert stem[i] == srr[i]; }
        else if i > |srr| { assert stem[i] == index[i - |srr| - 1]; }
      }
    }
    FirstPieceBeforeSeparator(stem, rest, '.');
    assert JoinWith([srr, index], '_') == stem;
    SplitJoinWith([srr, index], '_');
  }

  /** Every fastq-dump output name is renamed to the Cell Ranger name built
      from its accession and the read type of its index, whatever its
      extension. */
  lemma RenameWellFormed(srr: string, index: string, rest: string)
    requires '_' !in srr && '.' !in srr
    requires index in {"1", "2", "3"}
    requires rest == "" || rest[0] == '.'
    ensures ReadToken(index).Some?
    ensures RenameTarget(srr + "_" + index + rest)
            == Ok(srr + "_S1_L001_" + ReadToken(index).value + "_001.fastq.gzip")
  {
    StemParts(srr, index, rest);
  }

  /** `name` is `<srr>_<index><rest>` in fastq-dump form, and `target` the
      Cell Ranger name made from it. */
  ghost predicate RenamedFrom(name: string, target: string, srr: string, index: string, rest: string) {
    && '_' !in srr && '.' !in srr && index in {"1", "2", "3"}
    && (rest == "" || rest[0] == '.')
    && name == srr + "_" + index + rest
    && target == srr + "_S1_L001_" + ReadToken(index).value + "_001.fastq.gzip"
  }

  /** Conversely, a name is renamed only when it has that shape. */
  lemma RenameTargetShape(name: string, target: string)
    requires RenameTarget(name) == Ok(target)
    ensures exists srr, index, rest :: RenamedFrom(name, target, srr, index, rest)
  {
    var pieces := SplitOn(name, '.');
    var stem := pieces[0];
    JoinSplitOn(name, '.');
    var rest := if |pieces| == 1 then "" else ['.'] + JoinWith(pieces[1..], '.');
    assert name == stem + rest;
    var parts := SplitOn(stem, '_');
    JoinSplitOn(stem, '_');
    var srr, index := parts[0], parts[1];
    assert stem == srr + "_" + index;
    assert '.' !in srr by {
      forall i | 0 <= i < |srr| ensures srr[i] != '.' {
        assert srr[i] == stem[i];
      }
    }
    assert '_' !in srr && ReadToken(index).Some?;
    assert index in {"1", "2", "3"};
    assert target == srr + "_S1_L001_" + ReadToken(index).value + "_001.fastq.gzip";
    assert name == srr + "_" + index + rest;
    assert RenamedFrom(name, target, srr, index, rest);
  }

  /** A name that is already in Cell Ranger form has a five-part stem and is
      refused: no file is ever renamed twice. */
  lemma CellRangerNameRefused(srr: string, token: string)
    requires '_' !in srr && '.' !in srr
    requires token in {"I1", "R1", "R2"}
    ensures RenameTarget(srr + "_S1_L001_" + token + "_001.fastq.gzip").Err?
  {
    var stem := srr + "_S1_L001_" + token + "_001";
    CellRangerStem(srr, token);
    CellRangerStemPieces(srr, token);
  }

  lemma CellRangerStem(srr: string, token: string)
    requires '.' !in srr
    requires token in {"I1", "R1", "R2"}
    ensures Stem(srr + "_S1_L001_" + token + "_001.fastq.gzip") == srr + "_S1_L001_" + token + "_001"
  {
    var middle := "_S1_L001_" + token + "_001";
    var stem := srr + middle;
    assert srr + "_S1_L001_" + token + "_001.fastq.gzip" == stem + ".fastq.gzip";
    assert srr + "_S1_L001_" + token + "_001" == stem;
    assert '.' !in middle by {
      if token == "I1" { assert middle == "_S1_L001_I1_001"; }
      else if token == "R1" { assert middle == "_S1_L001_R1_001"; }
      else { assert middle == "_S1_L001_R2_001"; }
    }
    NotInConcat('.', srr, middle);
    FirstPieceBeforeSeparator(stem, ".fastq.gzip", '.');
  }

  lemma CellRangerStemPieces(srr: string, token: string)
    requires '_' !in srr
    requires token in {"I1", "R1", "R2"}
    ensures SplitOn(srr + "_S1_L001_" + token + "_001", '_') == [srr, "S1", "L001", token, "001"]
  {
    var parts := [srr, "S1", "L001", token, "001"];
    assert JoinWith(parts[4..], '_') == "001";
    assert JoinWith(parts[3..], '_') == token + "_001";
    assert JoinWith(parts[2..], '_') == "L001_" + token + "_001";
    assert JoinWith(parts[1..], '_') == "S1_L001_" + token + "_001";
    assert JoinWith(parts, '_') == srr + "_S1_L001_" + token + "_001";
    assert '_' !in token;
    SplitJoinWith(parts, '_');
  }

  lemma RenameIsNotRepeated(name: string)
    requires RenameTarget(name).Ok?
    ensures RenameTarget(RenameTarget(name).value).Err?
  {
    RenameTargetShape(name, RenameTarget(name).value);
    var srr, index, rest :| RenamedFrom(name, RenameTarget(name).value, srr, index, rest);
    CellRangerNameRefused(srr, ReadToken(index).value);
  }

  /** The new name forgets the extension: two names that differ only after
      the first '.' get the same target, so the later rename replaces the
      file the earlier one produced. */
  lemma ExtensionIgnored(srr: string, index: string, rest1: string, rest2: string)
    requires '_' !in srr && '.' !in srr && '_' !in index && '.' !in index
    requires rest1 == "" || rest1[0] == '.'
    requires rest2 == "" || rest2[0] == '.'
    ensures RenameTarget(srr + "_" + index + rest1) == RenameTarget(srr + "_" + index + rest2)
  {
    StemParts(srr, index, rest1);
    StemParts(srr, index, rest2);
  }

  /** The accession and the read type can be read back from a target. */
  lemma TargetParts(srr: string, index: string)
    requires '_' !in srr && ReadToken(index).Some?
    ensures var t := srr + "_S1_L001_" + ReadToken(index).value + "_001.fastq.gzip";
      && SplitOn(t, '_')[0] == srr
      && t[|srr| + 9..|srr| + 11] == ReadToken(index).value
  {
    var tail := "_S1_L001_" + ReadToken(index).value + "_001.fastq.gzip";
    assert srr + "_S1_L001_" + ReadToken(index).value + "_001.fastq.gzip" == srr + tail;
    FirstPieceBeforeSeparator(srr, tail, '_');
  }

  /** Otherwise the target determines the stem it came from: different
      accessions or indices never share a target. */
  lemma RenameTargetDeterminesStem(name1: string, name2: string)
    requires RenameTarget(name1).Ok? && RenameTarget(name1) == RenameTarget(name2)
    ensures Stem(name1) == Stem(name2)
  {
    SameTargetSameParts(name1, name2);
    JoinSplitOn(Stem(name1), '_');
    JoinSplitOn(Stem(name2), '_');
  }

  lemma SameTargetSameParts(name1: string, name2: string)
    requires RenameTarget(name1).Ok? && RenameTarget(name1) == RenameTarget(name2)
    ensures SplitOn(Stem(name1), '_') == SplitOn(Stem(name2), '_')
  {
    var p1, p2 := SplitOn(Stem(name1), '_'), SplitOn(Stem(name2), '_');
    assert |p1| == 2 && |p2| == 2;
    assert p1[0] == p2[0] by {
      TargetParts(p1[0], p1[1]);
      TargetParts(p2[0], p2[1]);
    }
    assert p1[1] == p2[1] by {
      TargetParts(p1[0], p1[1]);
      TargetParts(p2[0], p2[1]);
      assert ReadToken(p1[1]) == ReadToken(p2[1]);
    }
  }

  /** An index outside 1..3 is Python's KeyError: `SRR1_4.fastq` is
      refused with the missing key "4". */
  lemma UnknownIndexRefused(srr: string)
    requires '_' !in srr && '.' !in srr
    ensures RenameTarget(srr + "_4.fastq") == Err(KeyMissing("4"))
  {
    assert srr + "_4.fastq" == srr + "_" + "4" + ".fastq";
    StemParts(srr, "4", ".fastq");
  }

  /** A name already in Cell Ranger form is Python's ValueError: its stem
      has five '_'-separated parts, not two. */
  lemma RenamedNameRefused(srr: string)
    requires '_' !in srr && '.' !in srr
    ensures var done := srr + "_S1_L001_I1_001.fastq.gzip";
      RenameTarget(done) == Err(NotTwoParts(done))
  {
    var done := srr + "_S1_L001_I1_001.fastq.gzip";
    assert done == srr + "_S1_L001_" + "I1" + "_001.fastq.gzip";
    assert srr + "_S1_L001_I1_001" == srr + "_S1_L001_" + "I1" + "_001";
    CellRangerStem(srr, "I1");
    CellRangerStemPieces(srr, "I1");
  }
}
