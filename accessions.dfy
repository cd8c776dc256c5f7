/** Reading the accession list (SraAccList.txt): every line that starts with
    "SRR", stripped, in file order. */
module Accessions {
  import opened Text

  const AccessionPrefix: string := "SRR"

  predicate IsAccessionLine(line: string) {
    StartsWith(line, AccessionPrefix)
  }

  /** The accession ids kept from the lines of the list file. */
  function ParseAccessions(lines: seq<string>): (ids: seq<string>)
    ensures |ids| <= |lines|
    ensures forall i :: 0 <= i < |ids| ==> StartsWith(ids[i], AccessionPrefix)
  {
    if lines == [] then []
    else
      var rest := ParseAccessions(lines[1..]);
      if IsAccessionLine(lines[0]) then
        StripKeepsPrefix(lines[0], AccessionPrefix);
        [Strip(lines[0])] + rest
      else rest
  }

  /** The ids of a list split in two are the ids of the first part followed
      by those of the second: file order is kept. */
  lemma {:induction false} ParseAccessionsAppend(a: seq<string>, b: seq<string>)
    ensures ParseAccessions(a + b) == ParseAccessions(a) + ParseAccessions(b)
  {
    if a != [] {
      assert (a + b)[0] == a[0];
      assert (a + b)[1..] == a[1..] + b;
      ParseAccessionsAppend(a[1..], b);
    } else {
      assert a + b == b;
    }
  }

  /** A line contributes exactly one id when it starts with "SRR", and none
      otherwise. */
  lemma ParseAccessionsOneLine(line: string)
    ensures ParseAccessions([line]) == if IsAccessionLine(line) then [Strip(line)] else []
  {
    assert [line][1..] == [];
  }

  /** An id is kept exactly when some line starting with "SRR" strips to it. */
  lemma {:induction false} ParseAccessionsMember(lines: seq<string>, x: string)
    ensures x in ParseAccessions(lines) <==>
            exists i :: 0 <= i < |lines| && IsAccessionLine(lines[i]) && Strip(lines[i]) == x
  {
    if lines != [] {
      ParseAccessionsMember(lines[1..], x);
      if x in ParseAccessions(lines[1..]) {
        var i :| 0 <= i < |lines[1..]| && IsAccessionLine(lines[1..][i]) && Strip(lines[1..][i]) == x;
        assert lines[i + 1] == lines[1..][i];
      }
      if exists i :: 0 <= i < |lines| && IsAccessionLine(lines[i]) && Strip(lines[i]) == x {
        var i :| 0 <= i < |lines| && IsAccessionLine(lines[i]) && Strip(lines[i]) == x;
        if i > 0 {
          assert lines[1..][i - 1] == lines[i];
        }
      }
    }
  }

  /** A kept id is its line with the trailing whitespace (the newline among
      it) removed, and nothing else. */
  lemma AccessionIsLineWithoutTrailingSpace(line: string)
    requires IsAccessionLine(line)
    ensures var id := Strip(line);
      && StartsWith(line, id)
      && (forall i :: |id| <= i < |line| ==> IsSpace(line[i]))
      && !IsSpace(id[|id| - 1])
  {
    StripKeepsPrefix(line, AccessionPrefix);
  }

  lemma StripExample1()
    ensures Strip("SRR1\n") == "SRR1"
  {
    assert LStrip("SRR1\n") == "SRR1\n" by {
      assert "SRR1\n"[0] == 'S';
    }
    assert "SRR1\n" == "SRR1" + ['\n'];
    RStripSpace("SRR1", '\n');
    assert RStrip("SRR1") == "SRR1" by {
      assert "SRR1"[3] == '1';
    }
  }

  lemma StripExample2()
    ensures Strip("SRR2 \n") == "SRR2"
  {
    assert LStrip("SRR2 \n") == "SRR2 \n" by {
      assert "SRR2 \n"[0] == 'S';
    }
    assert "SRR2 \n" == "SRR2 " + ['\n'];
    RStripSpace("SRR2 ", '\n');
    assert "SRR2 " == "SRR2" + [' '];
    RStripSpace("SRR2", ' ');
    assert RStrip("SRR2") == "SRR2" by {
      assert "SRR2"[3] == '2';
    }
  }

  /** A small list file: a comment line is skipped, trailing blanks and the
      newline are dropped. */
  lemma ParseExample()
    ensures ParseAccessions(["SRR1\n", "#x\n", "SRR2 \n"]) == ["SRR1", "SRR2"]
  {
    var lines := ["SRR1\n", "#x\n", "SRR2 \n"];
    StripExample1();
    StripExample2();
    assert IsAccessionLine(lines[0]);
    assert !IsAccessionLine(lines[1]);
    assert IsAccessionLine(lines[2]);
    assert lines[1..] == ["#x\n", "SRR2 \n"];
    assert lines[1..][1..] == ["SRR2 \n"];
    assert ["SRR2 \n"][1..] == [];
    assert ParseAccessions(["SRR2 \n"]) == ["SRR2"];
    assert ParseAccessions(lines[1..]) == ["SRR2"];
  }
}
