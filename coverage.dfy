/** CoverageDataset: windowed, flank-extended, strand-normalised queries over
    a coverage array, by integer index into a region indexer. */
module Coverage {
  import opened Wrappers
  import opened Genomic
  import opened Indexing

  /** A batch of windows, one per requested index. */
  type Batch = seq<Window>

  /** What the dataset reports instead of a result. */
  datatype Error =
    | IndexNotIterable        // IndexError: index must be iterable
    | IndexNotSized           // TypeError: the iterable index has no len()
    | IndexOutOfRange(k: int) // the region indexer has no interval k
    | InvalidFlank            // flank must be a non-negative integer
    | NoBamFiles              // bamfiles[0] of an empty list

  /** The region indexer: the enumeration of intervals, each `binsize` long. */
  datatype Indexer = Indexer(intervals: seq<Interval>, binsize: nat) {
    predicate Valid()
    {
      forall i :: 0 <= i < |intervals| ==> intervals[i].end - intervals[i].start == binsize
    }
  }

  /** A value assigned to `flank`: Python lets any object through to the
      setter; bool is a subclass of int there. */
  datatype FlankArg = IntArg(i: int) | BoolArg(b: bool) | OtherArg

  /** The flank the setter stores, or None when it raises. */
  function CheckFlank(value: FlankArg): (r: Option<nat>)
    ensures r.Some? <==> (value.IntArg? && value.i >= 0) || value.BoolArg?
    ensures r.Some? && value.IntArg? ==> r.value == value.i
    ensures r.Some? && value.BoolArg? ==> r.value == if value.b then 1 else 0
  {
    match value
    case IntArg(i) => if i < 0 then None else Some(i)
    case BoolArg(b) => Some(if b then 1 else 0)
    case OtherArg => None
  }

  /** Reverse a window along the position axis and, within each position,
      along the strand axis; the condition vectors are kept as they are. */
  function Flip(w: Window): Window
  {
    seq(|w|, p requires 0 <= p < |w| =>
      var v := w[|w| - 1 - p];
      seq(|v|, s requires 0 <= s < |v| => v[|v| - 1 - s]))
  }

  /** Element-wise meaning of Flip on a window of any shape. */
  lemma FlipAt(w: Window, width: nat, strands: nat, conds: nat, p: nat, s: nat, k: nat)
    requires WellShaped(w, width, strands, conds)
    requires p < width && s < strands && k < conds
    ensures WellShaped(Flip(w), width, strands, conds)
    ensures Flip(w)[p][s][k] == w[width - 1 - p][strands - 1 - s][k]
  {
  }

  /** Flip keeps the dimensions of a window. */
  lemma FlipShape(w: Window, width: nat, strands: nat, conds: nat)
    requires WellShaped(w, width, strands, conds)
    ensures WellShaped(Flip(w), width, strands, conds)
  {
  }

  /** Flipping twice gives back the window. */
  lemma FlipFlip(w: Window)
    ensures Flip(Flip(w)) == w
  {
    var f := Flip(w);
    assert |Flip(f)| == |w|;
    forall p | 0 <= p < |w| ensures Flip(f)[p] == w[p] {
      assert f[|w| - 1 - p] == seq(|w[p]|, s requires 0 <= s < |w[p]| => w[p][|w[p]| - 1 - s]);
    }
  }

  /** Apply the registered transforms to a batch, first registered first. */
  function ApplyAll(ts: seq<Batch -> Batch>, b: Batch): Batch
  {
    if ts == [] then b else ApplyAll(ts[1..], ts[0](b))
  }

  /** One more transform registered last is applied last. */
  lemma {:induction false} ApplyAllSnoc(ts: seq<Batch -> Batch>, t: Batch -> Batch, b: Batch)
    ensures ApplyAll(ts + [t], b) == t(ApplyAll(ts, b))
  {
    if ts != [] {
      assert (ts + [t])[1..] == ts[1..] + [t];
      ApplyAllSnoc(ts[1..], t, ts[0](b));
    }
  }

  /** Registering transforms in two groups applies the first group, then the second. */
  lemma {:induction false} ApplyAllAppend(ts: seq<Batch -> Batch>, us: seq<Batch -> Batch>, b: Batch)
    ensures ApplyAll(ts + us, b) == ApplyAll(us, ApplyAll(ts, b))
    ensures ApplyAll([], b) == b
  {
    if ts != [] {
      assert (ts + us)[1..] == ts[1..] + us;
      ApplyAllAppend(ts[1..], us, ts[0](b));
    } else {
      assert ts + us == us;
    }
  }

  /** The window returned for one interval: the read over its flank-padded
      copy, flipped when the interval is on the '-' strand. */
  function Row(cover: Cover, iv: Interval, flank: nat): Window
    requires iv.start <= iv.end
  {
    var raw := Read(cover, Padded(iv, flank));
    if iv.strand == Reverse then Flip(raw) else raw
  }

  /** A row has the padded width, the array's strand dimension and one
      value per condition. */
  lemma RowShape(cover: Cover, iv: Interval, flank: nat)
    requires iv.start <= iv.end
    ensures WellShaped(Row(cover, iv, flank), iv.end - iv.start + 2 * flank,
                       StrandDim(cover.stranded), |cover.conditions|)
  {
    var raw := Read(cover, Padded(iv, flank));
    if iv.strand == Reverse {
      FlipShape(raw, iv.end - iv.start + 2 * flank, StrandDim(cover.stranded), |cover.conditions|);
    }
  }

  /** Content of a row: the stored values over the padded interval, read
      back to front on both the position and strand axes for '-'. */
  lemma RowAt(cover: Cover, iv: Interval, flank: nat, p: nat, s: nat, k: nat)
    requires iv.start <= iv.end
    requires p < iv.end - iv.start + 2 * flank && s < StrandDim(cover.stranded) && k < |cover.conditions|
    ensures var width := iv.end - iv.start + 2 * flank;
            var strands := StrandDim(cover.stranded);
            && WellShaped(Row(cover, iv, flank), width, strands, |cover.conditions|)
            && Row(cover, iv, flank)[p][s][k] ==
                 if iv.strand == Reverse
                 then cover.value(iv.chrom, iv.start - flank + (width - 1 - p), strands - 1 - s, k)
                 else cover.value(iv.chrom, iv.start - flank + p, s, k)
  {
    var width := iv.end - iv.start + 2 * flank;
    var strands := StrandDim(cover.stranded);
    var padded := Padded(iv, flank);
    var raw := Read(cover, padded);
    assert WellShaped(raw, width, strands, |cover.conditions|);
    if iv.strand == Reverse {
      FlipAt(raw, width, strands, |cover.conditions|, p, s, k);
      assert raw[width - 1 - p][strands - 1 - s][k]
          == cover.value(iv.chrom, padded.start + (width - 1 - p), strands - 1 - s, k);
    } else {
      assert raw[p][s][k] == cover.value(iv.chrom, padded.start + p, s, k);
    }
  }

  /** Every padded interval a query touches lies inside its chromosome. How
      the array answers a read past either end is up to the storage backend. */
  predicate QueryInBounds(cover: Cover, indexer: Indexer, flank: nat, arg: IndexArg)
  {
    match Normalize(arg, |indexer.intervals|)
    case None => true
    case Some(ks) =>
      forall j :: 0 <= j < |ks| && 0 <= ks[j] < |indexer.intervals| ==>
        InGenome(cover.genome, Padded(indexer.intervals[ks[j]], flank))
  }

  /** One row per requested index, in the requested order. */
  function Rows(cover: Cover, indexer: Indexer, flank: nat, ks: seq<int>): Batch
    requires indexer.Valid()
    requires forall j :: 0 <= j < |ks| ==> 0 <= ks[j] < |indexer.intervals|
  {
    seq(|ks|, j requires 0 <= j < |ks| => Row(cover, indexer.intervals[ks[j]], flank))
  }

  /** The result of `dataset[arg]`. */
  function Query(cover: Cover, indexer: Indexer, flank: nat, transforms: seq<Batch -> Batch>,
                 arg: IndexArg): Result<Batch, Error>
    requires indexer.Valid()
  {
    match Normalize(arg, |indexer.intervals|)
    case None => Failure(IndexNotIterable)
    case Some(ks) =>
      if !Sized(arg) then Failure(IndexNotSized)
      else match FirstMissing(ks, |indexer.intervals|)
      case Some(k) => Failure(IndexOutOfRange(k))
      case None => Success(ApplyAll(transforms, Rows(cover, indexer, flank, ks)))
  }

  /** Without transforms, a successful query has one row per normalised
      index, each of the window shape (2*flank + binsize, strands,
      conditions), and row j is the strand-normalised read over the padded
      interval of index ks[j]. It fails exactly on a non-iterable argument, an
      iterable without a length, or an index the indexer does not have. */
  lemma {:induction false} QueryResult(cover: Cover, indexer: Indexer, flank: nat, arg: IndexArg)
    requires indexer.Valid()
    ensures Query(cover, indexer, flank, [], arg).Failure? <==>
              arg.NotIterable? || !Sized(arg) || FirstMissing(Normalize(arg, |indexer.intervals|).value, |indexer.intervals|).Some?
    ensures Query(cover, indexer, flank, [], arg).Success? ==>
              var ks := Normalize(arg, |indexer.intervals|).value;
              var b := Query(cover, indexer, flank, [], arg).value;
              && |b| == |ks|
              && forall j :: 0 <= j < |b| ==>
                   && 0 <= ks[j] < |indexer.intervals|
                   && b[j] == Row(cover, indexer.intervals[ks[j]], flank)
                   && WellShaped(b[j], 2 * flank + indexer.binsize, StrandDim(cover.stranded), |cover.conditions|)
  {
    NormalizeCases(arg, |indexer.intervals|);
    var r := Query(cover, indexer, flank, [], arg);
    if r.Success? {
      var ks := Normalize(arg, |indexer.intervals|).value;
      forall j | 0 <= j < |r.value|
        ensures WellShaped(r.value[j], 2 * flank + indexer.binsize, StrandDim(cover.stranded), |cover.conditions|)
      {
        RowShape(cover, indexer.intervals[ks[j]], flank);
      }
    }
  }

  /** The error paths: a non-iterable argument, and an iterable that has no
      length, fail before any interval is looked up; the first index the
      indexer lacks aborts the whole query; the transforms run only on a
      complete batch. */
  lemma QueryErrors(cover: Cover, indexer: Indexer, flank: nat, transforms: seq<Batch -> Batch>, arg: IndexArg)
    requires indexer.Valid()
    ensures arg.NotIterable? ==> Query(cover, indexer, flank, transforms, arg) == Failure(IndexNotIterable)
    ensures arg.IterIndex? ==> Query(cover, indexer, flank, transforms, arg) == Failure(IndexNotSized)
    ensures Sized(arg) ==>
              var ks := Normalize(arg, |indexer.intervals|).value;
              forall i :: 0 <= i < |ks| && !(0 <= ks[i] < |indexer.intervals|)
                          && (forall j :: 0 <= j < i ==> 0 <= ks[j] < |indexer.intervals|) ==>
                Query(cover, indexer, flank, transforms, arg) == Failure(IndexOutOfRange(ks[i]))
    ensures Query(cover, indexer, flank, transforms, arg).Success? ==>
              Query(cover, indexer, flank, transforms, arg).value
                == ApplyAll(transforms, Query(cover, indexer, flank, [], arg).value)
  {
    NormalizeCases(arg, |indexer.intervals|);
    if Sized(arg) {
      var ks := Normalize(arg, |indexer.intervals|).value;
      forall i | 0 <= i < |ks| && !(0 <= ks[i] < |indexer.intervals|)
                 && (forall j :: 0 <= j < i ==> 0 <= ks[j] < |indexer.intervals|)
        ensures Query(cover, indexer, flank, transforms, arg) == Failure(IndexOutOfRange(ks[i]))
      {
        FirstMissingAt(ks, |indexer.intervals|, i);
      }
    }
  }

  /** A non-'-' row is exactly the read over the padded interval. */
  lemma RowForwardIsRead(cover: Cover, iv: Interval, flank: nat)
    requires iv.start <= iv.end && iv.strand != Reverse
    ensures Row(cover, iv, flank) == Read(cover, Padded(iv, flank))
  {
  }

  class CoverageDataset {
    var name: string
    var covers: Cover
    var gindexer: Indexer
    var flank: nat
    var stranded: bool
    var transformations: seq<Batch -> Batch>

    /** The fields of a dataset whose flank has already passed the setter. */
    constructor (name: string, covers: Cover, gindexer: Indexer, flank: nat, stranded: bool)
      ensures this.name == name && this.covers == covers && this.gindexer == gindexer
      ensures this.flank == flank && this.stranded == stranded && transformations == []
    {
      this.name := name;
      this.covers := covers;
      this.gindexer := gindexer;
      this.flank := flank;
      this.stranded := stranded;
      transformations := [];
    }

    /** `len(dataset)`. */
    function Len(): nat
      reads this
    {
      |gindexer.intervals|
    }

    /** `dataset.shape`. */
    function Shape(): (nat, nat, nat, nat)
      reads this
    {
      (Len(), 2 * flank + gindexer.binsize, StrandDim(stranded), |covers.conditions|)
    }

    /** The flank setter: a non-negative int (or a bool) is stored, anything
        else raises and leaves the flank as it was. */
    method SetFlank(value: FlankArg) returns (r: Result<(), Error>)
      modifies this`flank
      ensures r.Success? <==> CheckFlank(value).Some?
      ensures r.Success? ==> flank == CheckFlank(value).value
      ensures r.Failure? ==> r.error == InvalidFlank && flank == old(flank)
    {
      match value {
        case IntArg(i) =>
          if i < 0 {
            return Failure(InvalidFlank);
          }
          flank := i;
        case BoolArg(b) =>
          flank := if b then 1 else 0;
        case OtherArg =>
          return Failure(InvalidFlank);
      }
      return Success(());
    }

    /** `dataset[idxs]`: fill one preallocated row per index, flip the rows
        of '-' intervals, then run the batch through the transforms. */
    method GetItem(idxs: IndexArg) returns (r: Result<Batch, Error>)
      requires gindexer.Valid()
      requires QueryInBounds(covers, gindexer, flank, idxs)
      ensures r == Query(covers, gindexer, flank, transformations, idxs)
    {
      var norm := Normalize(idxs, Len());
      if norm.None? {
        return Failure(IndexNotIterable);
      }
      if !Sized(idxs) {
        return Failure(IndexNotSized);
      }
      var ks := norm.value;
      var data := new Window[|ks|];
      var i := 0;
      while i < |ks|
        invariant 0 <= i <= |ks|
        invariant forall j :: 0 <= j < i ==> 0 <= ks[j] < |gindexer.intervals|
        invariant forall j :: 0 <= j < i ==> data[j] == Row(covers, gindexer.intervals[ks[j]], flank)
      {
        var idx := ks[i];
        if !(0 <= idx < |gindexer.intervals|) {
          FirstMissingAt(ks, Len(), i);
          return Failure(IndexOutOfRange(idx));
        }
        var interval := gindexer.intervals[idx];
        var pinterval := Padded(interval, flank);
        data[i] := Read(covers, pinterval);
        if interval.strand == Reverse {
          data[i] := Flip(data[i]);
        }
        i := i + 1;
      }
      var rows := data[..];
      assert rows == Rows(covers, gindexer, flank, ks);
      var batch := rows;
      for t := 0 to |transformations|
        invariant batch == ApplyAll(transformations[..t], rows)
      {
        ApplyAllSnoc(transformations[..t], transformations[t], rows);
        assert transformations[..t + 1] == transformations[..t] + [transformations[t]];
        batch := transformations[t](batch);
      }
      assert transformations[..|transformations|] == transformations;
      return Success(batch);
    }
  }

  /** The dataset's declared shape agrees with what a query returns: as many
      rows as indices, each of dimensions shape[1:], when the array's
      strandedness is the dataset's and no transform is registered. */
  lemma ShapeMatchesQuery(ds: CoverageDataset, arg: IndexArg)
    requires ds.gindexer.Valid() && ds.covers.stranded == ds.stranded
    ensures var r := Query(ds.covers, ds.gindexer, ds.flank, [], arg);
            var shape := ds.Shape();
            && shape.0 == |ds.gindexer.intervals|
            && (arg.ListIndex? && r.Success? ==> |r.value| == |arg.ks|)
            && (arg == SliceIndex(None, None, None) ==> r.Success? && |r.value| == shape.0)
            && (r.Success? ==> forall j :: 0 <= j < |r.value| ==>
                                 WellShaped(r.value[j], shape.1, shape.2, shape.3))
  {
    QueryResult(ds.covers, ds.gindexer, ds.flank, arg);
    NormalizeCases(arg, |ds.gindexer.intervals|);
  }

  /** `CoverageDataset.__init__`: the flank goes through the setter, which
      raises for a negative or non-int flank. */
  method NewDataset(name: string, covers: Cover, gindexer: Indexer, flank: FlankArg, stranded: bool)
    returns (r: Result<CoverageDataset, Error>)
    ensures r.Failure? <==> CheckFlank(flank).None?
    ensures r.Failure? ==> r.error == InvalidFlank
    ensures r.Success? ==> && r.value.name == name && r.value.covers == covers
                           && r.value.gindexer == gindexer && r.value.flank == CheckFlank(flank).value
                           && r.value.stranded == stranded && r.value.transformations == []
  {
    var checked := CheckFlank(flank);
    if checked.None? {
      return Failure(InvalidFlank);
    }
    var ds := new CoverageDataset(name, covers, gindexer, checked.value, stranded);
    return Success(ds);
  }
}
