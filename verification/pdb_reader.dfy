/** The structure-file reader: from the lines of a PDB file, the fixed-column
    fields of every C3' ATOM record of the first model. A file is a sequence
    of lines as Python's line iterator yields them (newline included);
    opening the file is left to the caller. */
module PdbReader {
  import opened Text

  /** One selected atom line: the seven whitespace-stripped column slices, in
      the order atom name, nucleotide, chain, residue number, x, y, z. The
      coordinates stay text; converting them is the caller's business. */
  datatype Record = Record(atom: string, nucleotide: string, chain: string,
                           resSeq: string, x: string, y: string, z: string)

  /** The atom that stands for a residue. */
  const ReferenceAtom: string := "C3'"

  /** `line[lo:hi].strip()` */
  function Field(line: string, lo: nat, hi: nat): (f: string)
    requires lo <= hi
    ensures |f| <= hi - lo
    ensures |line| <= lo ==> f == []
  {
    Strip(Slice(line, lo, hi))
  }

  /** The seven fields at the reader's own column offsets. Lines too short
      for a field give an empty or shortened field rather than an error. */
  function Extract(line: string): (r: Record)
    ensures |r.atom| <= 7 && |r.nucleotide| <= 1 && |r.chain| <= 1 && |r.resSeq| <= 3
    ensures |r.x| <= 10 && |r.y| <= 7 && |r.z| <= 7
    ensures |line| <= 11 ==> r == Record([], [], [], [], [], [], [])
  {
    Record(Field(line, 11, 18), Field(line, 19, 20), Field(line, 21, 22),
           Field(line, 23, 26), Field(line, 27, 37), Field(line, 38, 45),
           Field(line, 46, 53))
  }

  /** A line that switches the reader into model mode: it starts with MODEL
      and has the character 1 anywhere, so `MODEL 10` and `MODEL 21` qualify. */
  predicate OpensModel(line: string) {
    StartsWith(line, "MODEL") && Contains(line, '1')
  }

  predicate IsAtom(line: string) {
    StartsWith(line, "ATOM")
  }

  predicate EndsModel(line: string) {
    StartsWith(line, "ENDMDL")
  }

  /** What the reading loop sees in one line, tested in the loop's own order:
      a line that opens a model, then an ATOM line (with its fields), then an
      ENDMDL line. No line is two of these at once, so testing the loop's
      branches in order against this classification is the loop itself. */
  datatype LineKind = OpenModel | AtomLine(rec: Record) | EndModel | OtherLine

  function Classify(line: string): (k: LineKind)
    ensures k.OpenModel? <==> OpensModel(line)
    ensures k.AtomLine? <==> IsAtom(line)
    ensures k.AtomLine? ==> k.rec == Extract(line)
    ensures k.EndModel? <==> EndsModel(line)
  {
    PrefixesExclusive(line);
    if OpensModel(line) then OpenModel
    else if IsAtom(line) then AtomLine(Extract(line))
    else if EndsModel(line) then EndModel
    else OtherLine
  }

  lemma PrefixesExclusive(line: string)
    ensures StartsWith(line, "MODEL") ==> !IsAtom(line) && !EndsModel(line)
    ensures IsAtom(line) ==> !EndsModel(line)
  {
    assert "MODEL"[0] == 'M' && "ATOM"[0] == 'A' && "ENDMDL"[0] == 'E';
  }

  /** A `HETATM` record never counts as an atom line. */
  lemma HetatmIgnored(line: string)
    requires StartsWith(line, "HETATM")
    ensures !Classify(line).AtomLine?
  {
    StartsWithIsPrefix(line, "HETATM");
    StartsWithIsPrefix(line, "ATOM");
    assert line[0] == 'H';
  }

  function Kinds(lines: seq<string>): (ks: seq<LineKind>)
    ensures |ks| == |lines|
  {
    seq(|lines|, i requires 0 <= i < |lines| => Classify(lines[i]))
  }

  /** The record of an ATOM line, kept if its atom name is the reference atom. */
  function Pick(rec: Record): (r: seq<Record>)
    ensures |r| <= 1
    ensures forall i :: 0 <= i < |r| ==> r[i].atom == ReferenceAtom
  {
    if rec.atom == ReferenceAtom then [rec] else []
  }

  /** The reading loop from line `k` on, with `modelFound` its one flag. The
      loop's two ATOM branches, before and after the opening model line,
      extract and filter a line the same way, so they are one case here. */
  function Scan(ks: seq<LineKind>, k: nat, modelFound: bool): (r: seq<Record>)
    requires k <= |ks|
    ensures forall i :: 0 <= i < |r| ==> r[i].atom == ReferenceAtom
    decreases |ks| - k
  {
    if k == |ks| then []
    else
      match ks[k]
      case OpenModel => Scan(ks, k + 1, true)
      case AtomLine(rec) => Pick(rec) + Scan(ks, k + 1, modelFound)
      case EndModel =>
        if modelFound then [] else Scan(ks, k + 1, modelFound)
      case OtherLine => Scan(ks, k + 1, modelFound)
  }

  /** `read_pdb` over the lines of the file. */
  function ReadPdb(lines: seq<string>): (r: seq<Record>)
    ensures forall i :: 0 <= i < |r| ==> r[i].atom == ReferenceAtom
  {
    Scan(Kinds(lines), 0, false)
  }

  // ---------------------------------------------------------------------
  // A reference description of the reader's result: the C3' ATOM records of
  // the lines before a cut point.

  function AtomPick(k: LineKind): (r: seq<Record>) {
    if k.AtomLine? then Pick(k.rec) else []
  }

  /** The C3' records of the ATOM lines with index in [lo, hi), in file
      order, ignoring models. */
  function C3Range(ks: seq<LineKind>, lo: nat, hi: nat): (recs: seq<Record>)
    requires lo <= hi <= |ks|
    decreases hi - lo
  {
    if lo == hi then [] else C3Range(ks, lo, hi - 1) + AtomPick(ks[hi - 1])
  }

  /** The C3' records of every ATOM line of the file. */
  function C3Records(lines: seq<string>): (recs: seq<Record>) {
    C3Range(Kinds(lines), 0, |lines|)
  }

  /** The first index at or after `from` whose line is of the kind `P`
      describes, or the number of lines if there is none. */
  function FirstFrom(ks: seq<LineKind>, from: nat, P: LineKind -> bool): (k: nat)
    requires from <= |ks|
    ensures from <= k <= |ks|
    ensures k < |ks| ==> P(ks[k])
    decreases |ks| - from
  {
    if from == |ks| || P(ks[from]) then from else FirstFrom(ks, from + 1, P)
  }

  predicate IsOpen(k: LineKind) { k.OpenModel? }
  predicate IsEnd(k: LineKind) { k.EndModel? }

  /** No line between `from` and the first hit is of the kind `P` describes. */
  lemma {:induction false} FirstFromSkips(ks: seq<LineKind>, from: nat, P: LineKind -> bool, i: nat)
    requires from <= i < |ks|
    requires i < FirstFrom(ks, from, P)
    ensures !P(ks[i])
    decreases |ks| - from
  {
    if from < i {
      FirstFromSkips(ks, from + 1, P, i);
    }
  }

  /** Where the reader stops: at the first ENDMDL line after the first line
      that opens a model, or at the end of the file. */
  function CutPoint(ks: seq<LineKind>): (c: nat)
    ensures c <= |ks|
  {
    var m := FirstFrom(ks, 0, IsOpen);
    if m == |ks| then |ks| else FirstFrom(ks, m + 1, IsEnd)
  }

  lemma {:induction false} C3RangeSplit(ks: seq<LineKind>, lo: nat, mid: nat, hi: nat)
    requires lo <= mid <= hi <= |ks|
    ensures C3Range(ks, lo, hi) == C3Range(ks, lo, mid) + C3Range(ks, mid, hi)
    decreases hi - mid
  {
    if mid < hi {
      C3RangeSplit(ks, lo, mid, hi - 1);
    }
  }

  lemma C3RangeFront(ks: seq<LineKind>, lo: nat, hi: nat)
    requires lo < hi <= |ks|
    ensures C3Range(ks, lo, hi) == AtomPick(ks[lo]) + C3Range(ks, lo + 1, hi)
  {
    C3RangeSplit(ks, lo, lo + 1, hi);
  }

  /** In model mode the reader collects exactly the C3' ATOM records up to the
      next ENDMDL line. */
  lemma {:induction false} ScanInModel(ks: seq<LineKind>, k: nat)
    requires k <= |ks|
    ensures Scan(ks, k, true) == C3Range(ks, k, FirstFrom(ks, k, IsEnd))
    decreases |ks| - k
  {
    if k < |ks| && !ks[k].EndModel? {
      ScanInModel(ks, k + 1);
      C3RangeFront(ks, k, FirstFrom(ks, k, IsEnd));
    }
  }

  /** Before model mode the reader collects the C3' ATOM records up to the
      first line that opens a model, passing over ENDMDL lines, then
      continues in model mode. */
  lemma {:induction false} ScanBeforeModel(ks: seq<LineKind>, k: nat)
    requires k <= |ks|
    ensures var m := FirstFrom(ks, k, IsOpen);
            Scan(ks, k, false)
            == if m == |ks| then C3Range(ks, k, |ks|)
               else C3Range(ks, k, m) + Scan(ks, m + 1, true)
    decreases |ks| - k
  {
    if k < |ks| && !ks[k].OpenModel? {
      ScanBeforeModel(ks, k + 1);
      var m := FirstFrom(ks, k, IsOpen);
      C3RangeFront(ks, k, if m == |ks| then |ks| else m);
    }
  }

  lemma ScanIsPrefixRecords(ks: seq<LineKind>)
    ensures Scan(ks, 0, false) == C3Range(ks, 0, CutPoint(ks))
  {
    var m := FirstFrom(ks, 0, IsOpen);
    ScanBeforeModel(ks, 0);
    if m < |ks| {
      var e := FirstFrom(ks, m + 1, IsEnd);
      ScanInModel(ks, m + 1);
      C3RangeSplit(ks, 0, m, e);
      C3RangeFront(ks, m, e);
    }
  }

  /** The reader's result is the C3' ATOM records of the lines before the cut
      point, in file order: atoms that precede the opening MODEL line are
      kept, ENDMDL lines before it are passed over, and nothing after the
      ENDMDL that closes the first model contributes. The two extraction
      branches of the loop thus act as one. */
  lemma ReadPdbIsPrefixRecords(lines: seq<string>)
    ensures var ks := Kinds(lines);
            ReadPdb(lines) == C3Range(ks, 0, CutPoint(ks))
  {
    ScanIsPrefixRecords(Kinds(lines));
  }

  /** A file without a line that opens a model yields every C3' ATOM record. */
  lemma ReadPdbSingleModel(lines: seq<string>)
    requires forall i :: 0 <= i < |lines| ==> !OpensModel(lines[i])
    ensures ReadPdb(lines) == C3Records(lines)
  {
    ReadPdbIsPrefixRecords(lines);
    var ks := Kinds(lines);
    var m := FirstFrom(ks, 0, IsOpen);
    assert m == |lines|;
  }

  lemma {:induction false} FirstFromExtend(ks: seq<LineKind>, more: seq<LineKind>, from: nat, P: LineKind -> bool)
    requires from <= |ks|
    requires FirstFrom(ks, from, P) < |ks|
    ensures FirstFrom(ks + more, from, P) == FirstFrom(ks, from, P)
    decreases |ks| - from
  {
    assert (ks + more)[from] == ks[from];
    if !P(ks[from]) {
      FirstFromExtend(ks, more, from + 1, P);
    }
  }

  lemma {:induction false} C3RangeExtend(ks: seq<LineKind>, more: seq<LineKind>, hi: nat)
    requires hi <= |ks|
    ensures C3Range(ks + more, 0, hi) == C3Range(ks, 0, hi)
    decreases hi
  {
    if hi > 0 {
      assert (ks + more)[hi - 1] == ks[hi - 1];
      C3RangeExtend(ks, more, hi - 1);
    }
  }

  /** Classifying two files one after the other classifies their
      concatenation. */
  lemma KindsAppend(lines: seq<string>, more: seq<string>)
    ensures Kinds(lines + more) == Kinds(lines) + Kinds(more)
  {
    var all, ks, ms := Kinds(lines + more), Kinds(lines), Kinds(more);
    assert forall i :: 0 <= i < |lines| ==> all[i] == ks[i];
    assert forall i :: |lines| <= i < |all| ==> all[i] == ms[i - |lines|];
  }

  /** A cut point inside `ks` stays where it is when lines are appended. */
  lemma CutPointExtend(ks: seq<LineKind>, more: seq<LineKind>)
    requires CutPoint(ks) < |ks|
    ensures CutPoint(ks + more) == CutPoint(ks)
  {
    var m := FirstFrom(ks, 0, IsOpen);
    assert m < |ks|;
    FirstFromExtend(ks, more, 0, IsOpen);
    var e := FirstFrom(ks, m + 1, IsEnd);
    assert e < |ks|;
    FirstFromExtend(ks, more, m + 1, IsEnd);
  }

  /** Once the first model has been closed, later lines change nothing. */
  lemma ReadPdbStopsAtEndOfModel(lines: seq<string>, more: seq<string>)
    requires CutPoint(Kinds(lines)) < |lines|
    ensures ReadPdb(lines + more) == ReadPdb(lines)
  {
    var ks, ms := Kinds(lines), Kinds(more);
    KindsAppend(lines, more);
    CutPointExtend(ks, ms);
    ReadPdbIsPrefixRecords(lines);
    ReadPdbIsPrefixRecords(lines + more);
    C3RangeExtend(ks, ms, CutPoint(ks));
  }

  lemma {:induction false} C3RangeKinds(ks: seq<LineKind>, lo: nat, hi: nat, rec: Record)
    requires lo <= hi <= |ks|
    ensures rec in C3Range(ks, lo, hi)
            <==> exists i :: lo <= i < hi && ks[i].AtomLine? && ks[i].rec.atom == ReferenceAtom
                             && ks[i].rec == rec
    decreases hi - lo
  {
    if lo < hi {
      var k := ks[hi - 1];
      C3RangeKinds(ks, lo, hi - 1, rec);
      assert C3Range(ks, lo, hi) == C3Range(ks, lo, hi - 1) + AtomPick(k);
      assert rec in AtomPick(k) <==> k.AtomLine? && k.rec.atom == ReferenceAtom && k.rec == rec;
    }
  }

  /** A record is among the C3' records of lines [lo, hi) exactly when one of
      those lines starts with ATOM, has the reference atom name at columns
      11 to 18, and extracts to that record; HETATM and every other line
      never contribute. */
  lemma C3RangeMembers(lines: seq<string>, lo: nat, hi: nat, rec: Record)
    requires lo <= hi <= |lines|
    ensures rec in C3Range(Kinds(lines), lo, hi)
            <==> exists i :: lo <= i < hi && IsAtom(lines[i])
                             && Extract(lines[i]).atom == ReferenceAtom
                             && Extract(lines[i]) == rec
  {
    var ks := Kinds(lines);
    C3RangeKinds(ks, lo, hi, rec);
    forall i | lo <= i < hi
      ensures (ks[i].AtomLine? && ks[i].rec.atom == ReferenceAtom && ks[i].rec == rec)
              <==> (IsAtom(lines[i]) && Extract(lines[i]).atom == ReferenceAtom && Extract(lines[i]) == rec)
    {
      assert ks[i] == Classify(lines[i]);
    }
  }
}
