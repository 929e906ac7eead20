/** The barangay upload script: the lines of `barangays.txt` that name a barangay, and the
    write batch that stages one `barangays` document per name. */
module UploadBarangays {
  import opened Seqs
  import opened Text

  const CollectionName: string := "barangays"

  /** A line names a barangay when it is not blank and does not start with `#`. The `#` test
      looks at the line as read, so an indented `#` line is kept. */
  predicate NamesBarangay(line: string): (named: bool)
    ensures named <==> (exists i :: 0 <= i < |line| && !IsSpace(line[i])) && (line == [] || line[0] != '#')
  {
    assert StartsWith(line, "#") <==> line != [] && line[0] == '#' by {
      if line != [] && line[0] == '#' {
        assert line[..1] == "#";
      }
    }
    Trim(line) != "" && !StartsWith(line, "#")
  }

  function NameLines(): string -> bool {
    (line: string) => NamesBarangay(line)
  }

  /** The lines of the file that name a barangay, in file order and untrimmed. */
  function BarangayLines(content: string): (r: seq<string>)
    ensures forall i :: 0 <= i < |r| ==> NamesBarangay(r[i])
    ensures forall line :: line in SplitLines(content) ==> (line in r <==> NamesBarangay(line))
    ensures IsSubsequence(r, SplitLines(content))
  {
    Filter(NameLines(), SplitLines(content))
  }

  /** One staged document: an auto-generated id (not modelled) and the trimmed name. */
  datatype BarangayDoc = BarangayDoc(name: string)

  /** The `for` loop over the kept lines: stages one document per line and counts them. */
  method StageBatch(lines: seq<string>) returns (batch: seq<BarangayDoc>, count: nat)
    ensures count == |batch| == |lines|
    ensures forall i :: 0 <= i < |lines| ==> batch[i] == BarangayDoc(Trim(lines[i]))
  {
    batch := [];
    count := 0;
    for i := 0 to |lines|
      invariant count == |batch| == i
      invariant forall j :: 0 <= j < i ==> batch[j] == BarangayDoc(Trim(lines[j]))
    {
      batch := batch + [BarangayDoc(Trim(lines[i]))];
      count := count + 1;
    }
  }

  /** How a run of the script ends. */
  datatype UploadResult =
    | NothingToUpload
    | Uploaded(docs: seq<BarangayDoc>, count: nat)
    | CommitFailed(staged: nat)

  /** `uploadBarangays` on the file's contents; `commitSucceeds` is the store's answer to the
      batch commit. With no names nothing is staged or committed. */
  method Upload(content: string, commitSucceeds: bool) returns (r: UploadResult)
    ensures r.NothingToUpload? <==> BarangayLines(content) == []
    ensures r.Uploaded? ==> commitSucceeds && r.count == |BarangayLines(content)| == |r.docs|
    ensures r.Uploaded? ==> forall i :: 0 <= i < |r.docs| ==> r.docs[i].name == Trim(BarangayLines(content)[i])
    ensures r.CommitFailed? <==> !commitSucceeds && BarangayLines(content) != []
    ensures r.CommitFailed? ==> r.staged == |BarangayLines(content)|
  {
    var names := BarangayLines(content);
    if |names| == 0 {
      return NothingToUpload;
    }
    var batch, count := StageBatch(names);
    if commitSucceeds {
      r := Uploaded(batch, count);
    } else {
      r := CommitFailed(count);
    }
  }

  /** Every uploaded name is non-empty and already trimmed, and there is at most one per line
      of the file. */
  lemma UploadedNamesAreClean(content: string, docs: seq<BarangayDoc>)
    requires |docs| == |BarangayLines(content)|
    requires forall i :: 0 <= i < |docs| ==> docs[i].name == Trim(BarangayLines(content)[i])
    ensures forall i :: 0 <= i < |docs| ==> docs[i].name != "" && Trim(docs[i].name) == docs[i].name
    ensures |docs| <= CountNewlines(content) + 1
  {
    var lines := BarangayLines(content);
    forall i | 0 <= i < |docs|
      ensures docs[i].name != "" && Trim(docs[i].name) == docs[i].name
    {
      assert NamesBarangay(lines[i]);
      TrimIdempotent(lines[i]);
    }
    SplitLinesCount(content);
  }

  /** A line starting with `#` is never uploaded, whatever follows it. */
  lemma CommentLinesDropped(content: string)
    ensures forall i :: 0 <= i < |BarangayLines(content)| ==> !StartsWith(BarangayLines(content)[i], "#")
  {
  }

  /** A comment indented by a space is uploaded, with its `#`. */
  lemma IndentedCommentKept()
    ensures NamesBarangay(" #")
    ensures Trim(" #") == "#"
  {
    assert !IsBlank(" #") by { assert !IsSpace(" #"[1]); }
    assert !StartsWith(" #", "#") by { assert " #"[..1][0] == ' '; assert "#"[0] == '#'; }
    var r := Trim(" #");
    var i :| TrimmedAt(" #", r, i);
    assert r[0] == " #"[i];
    assert i == 1 by { assert IsSpace(" #"[0]); }
    assert r == " #"[1..2];
  }
}
