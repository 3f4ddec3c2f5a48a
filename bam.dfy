/** CoverageDataset.create_from_bam: the argument defaults and the loader
    that counts read starts per base, per strand, per sample. Alignment
    files are given as their contents (header and per-contig records);
    opening and parsing them is not part of this model. */
module Bam {
  import opened Wrappers
  import opened Genomic
  import opened Indexing
  import opened Coverage

  /** The fields of an aligned read that the loader looks at. A missing
      reference end is None. */
  datatype Alignment = Alignment(mapq: int, isReverse: bool, referenceStart: int, referenceEnd: Option<int>)

  /** An alignment file: its path, the contigs of its header, and its
      records by contig. */
  datatype BamFile = BamFile(path: string, header: seq<Contig>, records: map<string, seq<Alignment>>)

  /** `fetch(chrom)`: it raises ValueError (None here) exactly when the
      contig is absent from the file's header; a contig of the header without
      records yields no records. */
  function Fetch(f: BamFile, chrom: string): (r: Option<seq<Alignment>>)
    ensures r.None? <==> forall i :: 0 <= i < |f.header| ==> f.header[i].name != chrom
    ensures r.Some? && chrom !in f.records ==> r.value == []
  {
    if ContigIndex(f.header, chrom).None? then None
    else if chrom in f.records then Some(f.records[chrom])
    else Some([])
  }

  /** The count column a record goes to: 1 for reverse, 0 for forward. */
  function TargetColumn(a: Alignment): nat
  {
    if a.isReverse then 1 else 0
  }

  /** The position a record is counted at: its start when forward; when
      reverse, its last aligned base end-1, or its start if the end is
      missing or 0. */
  function TargetPosition(a: Alignment): int
  {
    if a.isReverse && a.referenceEnd.Some? && a.referenceEnd.value != 0
    then a.referenceEnd.value - 1
    else a.referenceStart
  }

  /** A record is counted unless its mapping quality is below the threshold. */
  predicate Passes(a: Alignment, minMapq: int)
  {
    !(a.mapq < minMapq)
  }

  /** The record adds one to cell (pos, col). */
  predicate Hits(a: Alignment, minMapq: int, pos: int, col: int)
  {
    Passes(a, minMapq) && TargetPosition(a) == pos && TargetColumn(a) == col
  }

  /** Number of records that add one to cell (pos, col). */
  function Tally(recs: seq<Alignment>, minMapq: int, pos: int, col: int): (n: nat)
    ensures n <= |recs|
    ensures n == 0 <==> forall j :: 0 <= j < |recs| ==> !Hits(recs[j], minMapq, pos, col)
  {
    if recs == [] then 0
    else
      var last := recs[|recs| - 1];
      var front := recs[..|recs| - 1];
      assert forall j :: 0 <= j < |front| ==> front[j] == recs[j];
      Tally(front, minMapq, pos, col) + (if Hits(last, minMapq, pos, col) then 1 else 0)
  }

  /** Every counted record lands inside a count array of `length` rows. */
  predicate Fits(recs: seq<Alignment>, minMapq: int, length: nat)
  {
    forall j :: 0 <= j < |recs| && Passes(recs[j], minMapq) ==> 0 <= TargetPosition(recs[j]) < length
  }

  /** The per-contig count array: zero-filled (length, 2), then one
      increment per record that passes the mapping-quality filter. */
  method CountReads(length: nat, recs: seq<Alignment>, minMapq: int) returns (counts: array2<int>)
    requires Fits(recs, minMapq, length)
    ensures counts.Length0 == length && counts.Length1 == 2
    ensures forall p, c :: 0 <= p < length && 0 <= c < 2 ==> counts[p, c] == Tally(recs, minMapq, p, c)
  {
    counts := new int[length, 2]((p, c) => 0);
    var n := 0;
    while n < |recs|
      invariant 0 <= n <= |recs|
      invariant forall p, c :: 0 <= p < length && 0 <= c < 2 ==> counts[p, c] == Tally(recs[..n], minMapq, p, c)
    {
      var aln := recs[n];
      assert recs[..n + 1][..n] == recs[..n];
      if aln.mapq < minMapq {
        n := n + 1;
        continue;
      }
      if aln.isReverse {
        var pos := if aln.referenceEnd.Some? && aln.referenceEnd.value != 0
                   then aln.referenceEnd.value - 1 else aln.referenceStart;
        counts[pos, 1] := counts[pos, 1] + 1;
      } else {
        counts[aln.referenceStart, 0] := counts[aln.referenceStart, 0] + 1;
      }
      n := n + 1;
    }
    assert recs[..n] == recs;
  }

  /** Counting one more record changes exactly one cell, by one, and only
      when the record passes the filter: (start, 0) for a forward record,
      (end-1, 1) or (start, 1) for a reverse one. */
  lemma RecordAddsOne(recs: seq<Alignment>, a: Alignment, minMapq: int, pos: int, col: int)
    ensures Tally(recs + [a], minMapq, pos, col) ==
              Tally(recs, minMapq, pos, col) + (if Hits(a, minMapq, pos, col) then 1 else 0)
    ensures Hits(a, minMapq, pos, col) <==>
              && Passes(a, minMapq)
              && (!a.isReverse ==> pos == a.referenceStart && col == 0)
              && (a.isReverse && a.referenceEnd.Some? && a.referenceEnd.value != 0 ==>
                    pos == a.referenceEnd.value - 1 && col == 1)
              && (a.isReverse && (a.referenceEnd.None? || a.referenceEnd.value == 0) ==>
                    pos == a.referenceStart && col == 1)
  {
    assert (recs + [a])[..|recs|] == recs;
  }

  /** Sum of one count column over positions [0, n). */
  function ColumnSum(recs: seq<Alignment>, minMapq: int, col: int, n: nat): int
  {
    if n == 0 then 0 else ColumnSum(recs, minMapq, col, n - 1) + Tally(recs, minMapq, n - 1, col)
  }

  /** Number of records that pass the filter and go to column `col`. */
  function Passing(recs: seq<Alignment>, minMapq: int, col: int): nat
  {
    if recs == [] then 0
    else Passing(recs[..|recs| - 1], minMapq, col)
         + (if Passes(recs[|recs| - 1], minMapq) && TargetColumn(recs[|recs| - 1]) == col then 1 else 0)
  }

  /** Adding a record to the list adds one to the column sum iff it lands in [0, n) of that column. */
  lemma {:induction false} ColumnSumSnoc(recs: seq<Alignment>, a: Alignment, minMapq: int, col: int, n: nat)
    ensures ColumnSum(recs + [a], minMapq, col, n) ==
              ColumnSum(recs, minMapq, col, n)
              + (if Passes(a, minMapq) && TargetColumn(a) == col && 0 <= TargetPosition(a) < n then 1 else 0)
  {
    if n > 0 {
      ColumnSumSnoc(recs, a, minMapq, col, n - 1);
      RecordAddsOne(recs, a, minMapq, n - 1, col);
    }
  }

  /** Each count column sums to the number of passing records of that
      orientation: every passing record adds exactly one, and nothing else
      adds anything. */
  lemma {:induction false} ColumnSumIsPassing(recs: seq<Alignment>, minMapq: int, col: int, length: nat)
    requires Fits(recs, minMapq, length)
    ensures ColumnSum(recs, minMapq, col, length) == Passing(recs, minMapq, col)
  {
    if recs == [] {
      ColumnSumEmpty(minMapq, col, length);
    } else {
      var front := recs[..|recs| - 1];
      var last := recs[|recs| - 1];
      assert recs == front + [last];
      assert forall j :: 0 <= j < |front| ==> front[j] == recs[j];
      ColumnSumIsPassing(front, minMapq, col, length);
      ColumnSumSnoc(front, last, minMapq, col, length);
    }
  }

  lemma {:induction false} ColumnSumEmpty(minMapq: int, col: int, n: nat)
    ensures ColumnSum([], minMapq, col, n) == 0
  {
    if n > 0 {
      ColumnSumEmpty(minMapq, col, n - 1);
    }
  }

  /** Cells no counted record targets stay zero. */
  lemma UntouchedCellIsZero(recs: seq<Alignment>, minMapq: int, pos: int, col: int)
    requires forall j :: 0 <= j < |recs| && Passes(recs[j], minMapq) ==>
               TargetPosition(recs[j]) != pos || TargetColumn(recs[j]) != col
    ensures Tally(recs, minMapq, pos, col) == 0
  {
  }

  /** The value of one cell of the array after the loader has run over
      `files` (sample k is condition k) for the contigs of `genome`; cells
      of absent contigs, and all cells outside, keep their initial value. */
  function LoadedCell(init: Cover, files: seq<BamFile>, genome: seq<Contig>, minMapq: int,
                      chrom: string, pos: int, s: int, k: int): int
  {
    if 0 <= k < |files| then
      match ContigIndex(genome, chrom)
      case None => init.value(chrom, pos, s, k)
      case Some(j) =>
        match Fetch(files[k], chrom)
        case None => init.value(chrom, pos, s, k)
        case Some(recs) =>
          if 0 <= pos < genome[j].length && 0 <= s < 2 then Tally(recs, minMapq, pos, s)
          else init.value(chrom, pos, s, k)
    else init.value(chrom, pos, s, k)
  }

  /** Every file's records for every contig of the genome fit that contig. */
  predicate FilesFit(files: seq<BamFile>, genome: seq<Contig>, minMapq: int)
  {
    forall k, j :: 0 <= k < |files| && 0 <= j < |genome| && Fetch(files[k], genome[j].name).Some? ==>
      Fits(Fetch(files[k], genome[j].name).value, minMapq, genome[j].length)
  }

  /** Cells the loader has already written when it is at sample i, contig j. */
  predicate Done(genome: seq<Contig>, i: int, j: int, chrom: string, k: int)
  {
    k < i || (k == i && ContigIndex(genome, chrom).Some? && ContigIndex(genome, chrom).value < j)
  }

  /** `bam_loader`: for each sample and each contig, count read starts in a
      zero-filled (length, 2) array and write column 0 as the '+' track and
      column 1 as the '-' track; contigs absent from a file's header are
      skipped. */
  method LoadBam(cover: Cover, files: seq<BamFile>, genome: seq<Contig>, minMapq: int) returns (out: Cover)
    requires cover.stranded
    requires DistinctNames(genome)
    requires FilesFit(files, genome, minMapq)
    ensures out.genome == cover.genome && out.stranded && out.conditions == cover.conditions
    ensures forall chrom, pos, s, k {:trigger out.value(chrom, pos, s, k)} ::
              out.value(chrom, pos, s, k) == LoadedCell(cover, files, genome, minMapq, chrom, pos, s, k)
  {
    out := cover;
    for i := 0 to |files|
      invariant out.genome == cover.genome && out.stranded && out.conditions == cover.conditions
      invariant forall chrom, pos, s, k {:trigger out.value(chrom, pos, s, k)} ::
                  out.value(chrom, pos, s, k) ==
                    if Done(genome, i, 0, chrom, k)
                    then LoadedCell(cover, files, genome, minMapq, chrom, pos, s, k)
                    else cover.value(chrom, pos, s, k)
    {
      for j := 0 to |genome|
        invariant out.genome == cover.genome && out.stranded && out.conditions == cover.conditions
        invariant forall chrom, pos, s, k {:trigger out.value(chrom, pos, s, k)} ::
                    out.value(chrom, pos, s, k) ==
                      if Done(genome, i, j, chrom, k)
                      then LoadedCell(cover, files, genome, minMapq, chrom, pos, s, k)
                      else cover.value(chrom, pos, s, k)
      {
        out := LoadContig(cover, out, files, genome, minMapq, i, j);
      }
      forall chrom, pos, s, k ensures out.value(chrom, pos, s, k) ==
          if Done(genome, i + 1, 0, chrom, k)
          then LoadedCell(cover, files, genome, minMapq, chrom, pos, s, k)
          else cover.value(chrom, pos, s, k)
      {
        if k == i && ContigIndex(genome, chrom).None? {
          assert LoadedCell(cover, files, genome, minMapq, chrom, pos, s, k) == cover.value(chrom, pos, s, k);
        }
      }
    }
  }

  /** One step of the loader: sample i, contig j. */
  method LoadContig(cover: Cover, out: Cover, files: seq<BamFile>, genome: seq<Contig>, minMapq: int,
                    i: nat, j: nat) returns (next: Cover)
    requires i < |files| && j < |genome|
    requires out.stranded && DistinctNames(genome) && FilesFit(files, genome, minMapq)
    requires forall chrom, pos, s, k {:trigger out.value(chrom, pos, s, k)} ::
               out.value(chrom, pos, s, k) ==
                 if Done(genome, i, j, chrom, k)
                 then LoadedCell(cover, files, genome, minMapq, chrom, pos, s, k)
                 else cover.value(chrom, pos, s, k)
    ensures next.genome == out.genome && next.stranded && next.conditions == out.conditions
    ensures forall chrom, pos, s, k {:trigger next.value(chrom, pos, s, k)} ::
              next.value(chrom, pos, s, k) ==
                if Done(genome, i, j + 1, chrom, k)
                then LoadedCell(cover, files, genome, minMapq, chrom, pos, s, k)
                else cover.value(chrom, pos, s, k)
  {
    var chrom := genome[j].name;
    var length := genome[j].length;
    ContigIndexOf(genome, j);
    var fetched := Fetch(files[i], chrom);
    if fetched.None? {
      // contig absent from this file: skipped, nothing written
      forall c, pos, s, k ensures out.value(c, pos, s, k) ==
          if Done(genome, i, j + 1, c, k)
          then LoadedCell(cover, files, genome, minMapq, c, pos, s, k)
          else cover.value(c, pos, s, k)
      {
        if k == i && c == chrom {
          assert out.value(c, pos, s, k) == cover.value(c, pos, s, k);
        }
      }
      return out;
    }
    var counts := CountReads(length, fetched.value, minMapq);
    var forward := seq(length, p requires 0 <= p < length reads counts => counts[p, 0]);
    var reverse := seq(length, p requires 0 <= p < length reads counts => counts[p, 1]);
    next := Write(out, Interval(chrom, 0, length, Forward), i, forward);
    next := Write(next, Interval(chrom, 0, length, Reverse), i, reverse);
  }

  /** `bamfiles` may be one file or a list of files. */
  datatype BamArg = OneBam(file: BamFile) | BamList(files: seq<BamFile>)

  function BamFiles(arg: BamArg): (files: seq<BamFile>)
    ensures arg.OneBam? ==> files == [arg.file]
    ensures arg.BamList? ==> files == arg.files
  {
    match arg
    case OneBam(f) => [f]
    case BamList(fs) => fs
  }

  /** The sample names: the given list, or the file paths when it is None or empty. */
  function SampleNames(samplenames: Option<seq<string>>, files: seq<BamFile>): (names: seq<string>)
    ensures samplenames.Some? && samplenames.value != [] ==> names == samplenames.value
    ensures samplenames.None? || samplenames.value == [] ==>
              |names| == |files| && forall k :: 0 <= k < |files| ==> names[k] == files[k].path
  {
    if samplenames.Some? && samplenames.value != [] then samplenames.value
    else seq(|files|, k requires 0 <= k < |files| => files[k].path)
  }

  /** The mapping-quality threshold: None and 0 both mean 0. */
  function MinMapq(minMapq: Option<int>): int
  {
    OrIfFalsy(minMapq, 0)
  }

  /** A threshold of None or 0 filters nothing (mapping qualities are never
      negative); any other threshold keeps exactly the records at or above it. */
  lemma MinMapqFilter(minMapq: Option<int>, a: Alignment)
    requires a.mapq >= 0
    ensures minMapq.None? || minMapq.value == 0 ==> Passes(a, MinMapq(minMapq))
    ensures minMapq.Some? ==> (Passes(a, MinMapq(minMapq)) <==> a.mapq >= minMapq.value)
  {
  }

  /** The genome sizes: the given ones, or the header of the first file when
      none (or an empty dictionary) is given; None when there is no file to
      read a header from. */
  function GenomeSize(genomesize: Option<seq<Contig>>, files: seq<BamFile>): (g: Option<seq<Contig>>)
    ensures genomesize.Some? && genomesize.value != [] ==> g == genomesize
    ensures (genomesize.None? || genomesize.value == []) && files != [] ==> g == Some(files[0].header)
    ensures g.None? <==> (genomesize.None? || genomesize.value == []) && files == []
  {
    if genomesize.Some? && genomesize.value != [] then genomesize
    else if files == [] then None
    else Some(files[0].header)
  }

  /** `CoverageDataset.create_from_bam`: a stranded, zero-filled array sized by
      the genome, one condition per sample, filled by the loader; then a
      stranded dataset over it. */
  method CreateFromBam(name: string, bamfiles: BamArg, gindexer: Indexer,
                       genomesize: Option<seq<Contig>>, samplenames: Option<seq<string>>,
                       minMapq: Option<int>, flank: FlankArg)
    returns (r: Result<CoverageDataset, Error>)
    requires var g := GenomeSize(genomesize, BamFiles(bamfiles));
             g.Some? ==> DistinctNames(g.value) && FilesFit(BamFiles(bamfiles), g.value, MinMapq(minMapq))
    ensures var g := GenomeSize(genomesize, BamFiles(bamfiles));
            && (r.Failure? <==> g.None? || CheckFlank(flank).None?)
            && (r.Failure? ==> r.error == if g.None? then NoBamFiles else InvalidFlank)
    ensures r.Success? ==>
              var files := BamFiles(bamfiles);
              var genome := GenomeSize(genomesize, files).value;
              var zero := ZeroCover(genome, true, SampleNames(samplenames, files));
              && r.value.stranded && r.value.gindexer == gindexer && r.value.name == name
              && r.value.flank == CheckFlank(flank).value
              && r.value.covers.genome == genome && r.value.covers.stranded
              && r.value.covers.conditions == SampleNames(samplenames, files)
              && forall chrom, pos, s, k {:trigger r.value.covers.value(chrom, pos, s, k)} ::
                   r.value.covers.value(chrom, pos, s, k) ==
                     LoadedCell(zero, files, genome, MinMapq(minMapq), chrom, pos, s, k)
  {
    var files := BamFiles(bamfiles);
    var names := SampleNames(samplenames, files);
    var mapq := MinMapq(minMapq);
    var genome := GenomeSize(genomesize, files);
    if genome.None? {
      return Failure(NoBamFiles);
    }
    var zero := ZeroCover(genome.value, true, names);
    var cover := LoadBam(zero, files, genome.value, mapq);
    r := NewDataset(name, cover, gindexer, flank, true);
  }

  /** What a loaded array holds: for a sample whose file has the contig, the
      '+' track counts the forward read starts and the '-' track the reverse
      read ends at each position; a contig absent from the file's header
      stays zero. */
  lemma LoadedTracks(files: seq<BamFile>, genome: seq<Contig>, names: seq<string>, minMapq: int,
                     k: nat, j: nat, pos: nat)
    requires DistinctNames(genome) && k < |files| && j < |genome| && pos < genome[j].length
    ensures var zero := ZeroCover(genome, true, names);
            var chrom := genome[j].name;
            match Fetch(files[k], chrom)
            case None =>
              && LoadedCell(zero, files, genome, minMapq, chrom, pos, 0, k) == 0
              && LoadedCell(zero, files, genome, minMapq, chrom, pos, 1, k) == 0
            case Some(recs) =>
              && LoadedCell(zero, files, genome, minMapq, chrom, pos, StrandIndex(true, Forward), k)
                   == Tally(recs, minMapq, pos, 0)
              && LoadedCell(zero, files, genome, minMapq, chrom, pos, StrandIndex(true, Reverse), k)
                   == Tally(recs, minMapq, pos, 1)
  {
    ContigIndexOf(genome, j);
  }

  /** One forward read starting at 100 and one reverse read ending at 200 on
      a 1000-base chr1, no quality filter: the '+' track holds 1 at 100, the
      '-' track 1 at 199, and every other cell of that sample is 0. */
  lemma TwoReadsScenario(pos: int, s: int)
    ensures var genome := [Contig("chr1", 1000)];
            var alns := [Alignment(60, false, 100, Some(150)), Alignment(60, true, 150, Some(200))];
            var file := BamFile("a.bam", genome, map["chr1" := alns]);
            LoadedCell(ZeroCover(genome, true, ["a.bam"]), [file], genome, MinMapq(None), "chr1", pos, s, 0)
              == if 0 <= s < 2 && ((pos == 100 && s == 0) || (pos == 199 && s == 1)) then 1 else 0
  {
    var alns := [Alignment(60, false, 100, Some(150)), Alignment(60, true, 150, Some(200))];
    assert alns[..1] == [alns[0]];
    assert [alns[0]][..0] == [];
  }
}
