/** Genomic intervals and the chromosome/strand/condition indexed coverage
    array that a CoverageDataset reads from. The array store itself
    (janggo.data.genomicarray) is an external collaborator: it is modelled
    as an abstract total function from (chromosome, position, strand index,
    condition index) to a count, together with the genome it was sized for. */
module Genomic {
  import opened Wrappers

  /** '+', '-' and '.' of an HTSeq GenomicInterval. */
  datatype Strand = Forward | Reverse | Unstranded

  /** A genomic interval [start, end) on one chromosome. It is a value:
      "copy and then change start/end" is a new value built from the old one. */
  datatype Interval = Interval(chrom: string, start: int, end: int, strand: Strand)

  /** One entry of the genome size dictionary. */
  datatype Contig = Contig(name: string, length: nat)

  /** One window: positions x strands x conditions. */
  type Window = seq<seq<seq<int>>>

  /** The stored values, indexed by (chromosome, position, strand index, condition index). */
  type Values = (string, int, int, int) -> int

  datatype Cover = Cover(genome: seq<Contig>, stranded: bool, conditions: seq<string>, value: Values)

  /** Size of the strand axis of a (stranded or unstranded) array. */
  function StrandDim(stranded: bool): nat
  {
    if stranded then 2 else 1
  }

  /** Index on the strand axis that a write or read for `strand` addresses:
      on a stranded array '-' is the second track and every other strand the
      first; an unstranded array has only one track. This order is the
      storage backend's (janggo.data.genomicarray, not part of this model)
      and is assumed here. */
  function StrandIndex(stranded: bool, strand: Strand): (k: nat)
    ensures k < StrandDim(stranded)
    ensures k == 1 <==> stranded && strand == Reverse
  {
    if stranded && strand == Reverse then 1 else 0
  }

  /** Position of the first contig called `chrom`, if any. */
  function ContigIndex(genome: seq<Contig>, chrom: string): (r: Option<nat>)
    ensures r.None? <==> forall j :: 0 <= j < |genome| ==> genome[j].name != chrom
    ensures r.Some? ==> r.value < |genome| && genome[r.value].name == chrom
                        && forall j :: 0 <= j < r.value ==> genome[j].name != chrom
  {
    if genome == [] then None
    else if genome[0].name == chrom then Some(0)
    else match ContigIndex(genome[1..], chrom)
      case None => None
      case Some(j) => Some(j + 1)
  }

  /** Genome size dictionaries have distinct keys. */
  predicate DistinctNames(genome: seq<Contig>)
  {
    forall i, j :: 0 <= i < j < |genome| ==> genome[i].name != genome[j].name
  }

  lemma ContigIndexOf(genome: seq<Contig>, j: nat)
    requires DistinctNames(genome) && j < |genome|
    ensures ContigIndex(genome, genome[j].name) == Some(j)
  {
    var r := ContigIndex(genome, genome[j].name);
    assert r.Some?;
    assert !(r.value < j) && !(j < r.value);
  }

  /** The interval lies inside a registered chromosome of the genome. */
  predicate InGenome(genome: seq<Contig>, iv: Interval)
  {
    match ContigIndex(genome, iv.chrom)
    case None => false
    case Some(j) => 0 <= iv.start <= iv.end <= genome[j].length
  }

  /** The flank-extended copy of an interval: same chromosome and strand,
      `flank` more positions on each side. */
  function Padded(iv: Interval, flank: nat): (p: Interval)
    ensures p.chrom == iv.chrom && p.strand == iv.strand
    ensures p.end - p.start == (iv.end - iv.start) + 2 * flank
    ensures p.start + flank == iv.start
  {
    iv.(start := iv.start - flank, end := iv.end + flank)
  }

  /** Window dimensions. */
  predicate WellShaped(w: Window, width: nat, strands: nat, conds: nat)
  {
    && |w| == width
    && (forall p :: 0 <= p < |w| ==> |w[p]| == strands)
    && (forall p, s :: 0 <= p < |w| && 0 <= s < |w[p]| ==> |w[p][s]| == conds)
  }

  /** Read of the array over [iv.start, iv.end): every strand track and
      every condition, per position. */
  function Read(cover: Cover, iv: Interval): (w: Window)
    requires iv.start <= iv.end
    ensures WellShaped(w, iv.end - iv.start, StrandDim(cover.stranded), |cover.conditions|)
    ensures forall p, s, k :: 0 <= p < |w| && 0 <= s < |w[p]| && 0 <= k < |w[p][s]| ==>
              w[p][s][k] == cover.value(iv.chrom, iv.start + p, s, k)
  {
    seq(iv.end - iv.start, p =>
      seq(StrandDim(cover.stranded), s =>
        seq(|cover.conditions|, k => cover.value(iv.chrom, iv.start + p, s, k))))
  }

  /** Write `values` over [iv.start, iv.end) on the strand track of
      `iv.strand` for one condition; nothing else in the array changes. */
  function Write(cover: Cover, iv: Interval, cond: int, values: seq<int>): (c: Cover)
    requires |values| == iv.end - iv.start
    ensures c.genome == cover.genome && c.stranded == cover.stranded && c.conditions == cover.conditions
    ensures forall chrom, pos, s, k {:trigger c.value(chrom, pos, s, k)} ::
              c.value(chrom, pos, s, k) ==
                if chrom == iv.chrom && iv.start <= pos < iv.end
                   && s == StrandIndex(cover.stranded, iv.strand) && k == cond
                then values[pos - iv.start]
                else cover.value(chrom, pos, s, k)
  {
    var track := StrandIndex(cover.stranded, iv.strand);
    cover.(value := (chrom, pos, s, k) =>
      if chrom == iv.chrom && iv.start <= pos < iv.end && s == track && k == cond
      then values[pos - iv.start]
      else cover.value(chrom, pos, s, k))
  }

  /** A write followed by a read of the same interval gives back the written
      values for that condition and strand track, and leaves every other
      condition as it was. */
  lemma WriteThenRead(cover: Cover, iv: Interval, cond: nat, values: seq<int>)
    requires |values| == iv.end - iv.start
    requires cond < |cover.conditions|
    ensures var w := Read(Write(cover, iv, cond, values), iv);
            var track := StrandIndex(cover.stranded, iv.strand);
            && (forall p :: 0 <= p < |values| ==> w[p][track][cond] == values[p])
            && (forall p, s, k :: 0 <= p < |w| && 0 <= s < |w[p]| && 0 <= k < |w[p][s]| && k != cond ==>
                  w[p][s][k] == Read(cover, iv)[p][s][k])
  {
  }

  /** A zero-filled array for `genome`, as the array is allocated before a loader runs. */
  function ZeroCover(genome: seq<Contig>, stranded: bool, conditions: seq<string>): (c: Cover)
    ensures c.genome == genome && c.stranded == stranded && c.conditions == conditions
    ensures forall chrom, pos, s, k {:trigger c.value(chrom, pos, s, k)} :: c.value(chrom, pos, s, k) == 0
  {
    Cover(genome, stranded, conditions, (chrom, pos, s, k) => 0)
  }
}
