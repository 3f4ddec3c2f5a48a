/** The index argument of CoverageDataset.__getitem__ and how it is turned
    into the list of dataset indices to fetch. */
module Indexing {
  import opened Wrappers

  /** What a caller may pass to __getitem__: an int, a slice whose fields may
      each be None, any other sized iterable of ints (list, tuple, range,
      array), an iterable of ints without a length (a generator or other
      iterator), or something that is not iterable at all. */
  datatype IndexArg =
    | IntIndex(k: int)
    | SliceIndex(start: Option<int>, stop: Option<int>, step: Option<int>)
    | ListIndex(ks: seq<int>)
    | IterIndex(ks: seq<int>)
    | NotIterable

  /** The normalised argument has a `len`: ints and slices become a list and
      a range, sized iterables keep theirs; an iterator and a non-iterable
      have none. */
  predicate Sized(arg: IndexArg)
  {
    arg.IntIndex? || arg.SliceIndex? || arg.ListIndex?
  }

  /** Python's `range(start, stop, step)` for a non-zero step. */
  function Range(start: int, stop: int, step: int): seq<int>
    requires step != 0
    decreases if step > 0 then stop - start else start - stop
  {
    if (step > 0 && start < stop) || (step < 0 && start > stop)
    then [start] + Range(start + step, stop, step)
    else []
  }

  /** The k-th value start + k*step has not yet reached `stop`. */
  predicate BeforeStop(start: int, stop: int, step: int, k: nat)
  {
    if step > 0 then start + k * step < stop else start + k * step > stop
  }

  /** A range holds exactly the values start + k*step that have not reached
      stop, in increasing k. */
  lemma {:induction false} RangeAt(start: int, stop: int, step: int, k: nat)
    requires step != 0
    ensures k < |Range(start, stop, step)| <==> BeforeStop(start, stop, step, k)
    ensures k < |Range(start, stop, step)| ==> Range(start, stop, step)[k] == start + k * step
    decreases if step > 0 then stop - start else start - stop
  {
    if (step > 0 && start < stop) || (step < 0 && start > stop) {
      if k > 0 {
        RangeAt(start + step, stop, step, k - 1);
        assert start + step + (k - 1) * step == start + k * step;
      }
    } else {
      assert Range(start, stop, step) == [];
      if step > 0 {
        assert k * step >= 0;
      } else {
        assert k * step <= 0;
      }
    }
  }

  /** `x if x else d` for an optional int: None and 0 are both falsy. */
  function OrIfFalsy(x: Option<int>, d: int): (r: int)
    ensures x.Some? && x.value != 0 ==> r == x.value
    ensures x.None? || x.value == 0 ==> r == d
  {
    if x.Some? && x.value != 0 then x.value else d
  }

  /** The normalisation exactly as written: an int becomes a one-element
      list; a slice becomes a range whose start, stop and step default to
      0, `len` and 1 whenever they are None OR 0; iterables, sized or not,
      are kept; a non-iterable argument has no normalisation (an IndexError). */
  function NormalizeAsWritten(arg: IndexArg, len: nat): Option<seq<int>>
  {
    match arg
    case IntIndex(k) => Some([k])
    case SliceIndex(start, stop, step) =>
      Some(Range(OrIfFalsy(start, 0), OrIfFalsy(stop, len), OrIfFalsy(step, 1)))
    case ListIndex(ks) => Some(ks)
    case IterIndex(ks) => Some(ks)
    case NotIterable => None
  }

  /** The normalisation with the evidently intended slice stop: only a
      missing stop means "up to len"; an explicit stop of 0 stays 0. */
  function Normalize(arg: IndexArg, len: nat): Option<seq<int>>
  {
    match arg
    case IntIndex(k) => Some([k])
    case SliceIndex(start, stop, step) =>
      Some(Range(OrIfFalsy(start, 0), if stop.None? then len else stop.value, OrIfFalsy(step, 1)))
    case ListIndex(ks) => Some(ks)
    case IterIndex(ks) => Some(ks)
    case NotIterable => None
  }

  /** What normalisation yields for each kind of argument. */
  lemma NormalizeCases(arg: IndexArg, len: nat)
    ensures arg.IntIndex? ==> Normalize(arg, len) == Some([arg.k])
    ensures arg.ListIndex? || arg.IterIndex? ==> Normalize(arg, len) == Some(arg.ks)
    ensures Normalize(arg, len).None? <==> arg.NotIterable?
    ensures arg == SliceIndex(None, None, None) ==>
              var ks := Normalize(arg, len).value;
              |ks| == len && forall k :: 0 <= k < len ==> ks[k] == k
  {
    if arg == SliceIndex(None, None, None) {
      var ks := Normalize(arg, len).value;
      RangeAt(0, len, 1, len);
      if len > 0 {
        RangeAt(0, len, 1, len - 1);
      }
      assert |ks| == len;
      forall k | 0 <= k < len ensures ks[k] == k {
        RangeAt(0, len, 1, k);
      }
    }
  }

  /** The two normalisations differ only for an explicit slice stop of 0. */
  lemma NormalizeAgreesAsWritten(arg: IndexArg, len: nat)
    requires !(arg.SliceIndex? && arg.stop == Some(0))
    ensures Normalize(arg, len) == NormalizeAsWritten(arg, len)
  {
  }

  /** With an explicit stop, the corrected normalisation of a forward slice
      never yields an index at or beyond that stop. */
  lemma {:induction false} SliceStaysBelowStop(start: Option<int>, stop: int, step: Option<int>, len: nat)
    requires OrIfFalsy(step, 1) > 0
    ensures var ks := Normalize(SliceIndex(start, Some(stop), step), len).value;
            forall k :: 0 <= k < |ks| ==> ks[k] < stop
  {
    var ks := Normalize(SliceIndex(start, Some(stop), step), len).value;
    forall k | 0 <= k < |ks| ensures ks[k] < stop {
      RangeAt(OrIfFalsy(start, 0), stop, OrIfFalsy(step, 1), k);
    }
  }

  /** As written, the empty slice `[:0]` (or `[0:0]`) of a non-empty dataset
      selects every index, including ones at or beyond the stop of 0. */
  lemma {:induction false} EmptySliceSelectsAll(len: nat)
    requires len > 0
    ensures var ks := NormalizeAsWritten(SliceIndex(None, Some(0), None), len).value;
            |ks| == len && ks[0] == 0
    ensures Normalize(SliceIndex(None, Some(0), None), len) == Some([])
  {
    var ks := NormalizeAsWritten(SliceIndex(None, Some(0), None), len).value;
    RangeAt(0, len, 1, len);
    RangeAt(0, len, 1, len - 1);
    RangeAt(0, len, 1, 0);
  }

  /** The first index (in order) that the indexer cannot look up, if any. */
  function FirstMissing(ks: seq<int>, len: nat): (r: Option<int>)
    ensures r.None? <==> forall j :: 0 <= j < |ks| ==> 0 <= ks[j] < len
    ensures r.Some? ==> exists j :: 0 <= j < |ks| && ks[j] == r.value && !(0 <= ks[j] < len)
                                    && forall i :: 0 <= i < j ==> 0 <= ks[i] < len
  {
    if ks == [] then None
    else if !(0 <= ks[0] < len) then Some(ks[0])
    else
      var r := FirstMissing(ks[1..], len);
      assert r.Some? ==> exists j :: 0 <= j < |ks[1..]| && ks[1..][j] == r.value && !(0 <= ks[1..][j] < len)
                                    && forall i :: 0 <= i < j ==> 0 <= ks[1..][i] < len;
      if r.Some? then
        var j :| 0 <= j < |ks[1..]| && ks[1..][j] == r.value && !(0 <= ks[1..][j] < len)
                 && forall i :: 0 <= i < j ==> 0 <= ks[1..][i] < len;
        assert ks[j + 1] == r.value;
        r
      else r
  }

  /** The missing index reported is the first one met when scanning in order. */
  lemma FirstMissingAt(ks: seq<int>, len: nat, i: nat)
    requires i < |ks| && !(0 <= ks[i] < len)
    requires forall j :: 0 <= j < i ==> 0 <= ks[j] < len
    ensures FirstMissing(ks, len) == Some(ks[i])
  {
    var r := FirstMissing(ks, len);
    var j :| 0 <= j < |ks| && ks[j] == r.value && !(0 <= ks[j] < len)
             && forall i' :: 0 <= i' < j ==> 0 <= ks[i'] < len;
    assert !(j < i) && !(i < j);
  }
}
