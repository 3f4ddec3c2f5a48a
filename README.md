# Coverage dataset model

A Dafny model of janggo's `CoverageDataset` (`src/janggo/data/coverage.py`):
a dataset that answers integer, slice or list indices with fixed-size,
flank-extended, strand-normalised windows of per-base coverage, read from a
chromosome/strand/condition indexed coverage array; and `create_from_bam`,
whose loader counts read starts per base and strand from alignment files
into that array.

Modules:

- `Wrappers` (`wrappers.dfy`): `Option` and `Result`.
- `Genomic` (`genomic.dfy`): genomic intervals (`Interval`, strand `+`/`-`/`.`),
  contigs of the genome size dictionary, the flank-padded copy of an interval,
  and the coverage array. The array store (`janggo.data.genomicarray`) is not
  part of this model; it is modelled as `Cover`, an abstract total function
  `(chromosome, position, strand index, condition index) -> int` together
  with the genome, strandedness and condition names it was created with, and
  its range read and range write as functions.
- `Indexing` (`indexing.dfy`): the index argument of `__getitem__`, Python's
  `range`, and the normalisation of ints, slices and iterables.
- `Coverage` (`coverage.dfy`): the region indexer (a sequence of intervals of
  width `binsize`), the strand flip, the transform chain, the pure
  specification `Query` of `dataset[idxs]`, and the `CoverageDataset` class:
  fields, flank setter, `__len__`, `shape` and `GetItem`, which fills a
  preallocated array of rows in a loop as `__getitem__` does, with the
  differences listed under Left out, and is proved equal to `Query`.
- `Bam` (`bam.dfy`): alignment records, the per-contig counting loop over a
  zero-filled `(length, 2)` array, the loader over samples and contigs, and
  the argument defaults of `create_from_bam`.

`Len` and `Shape` on the class are the plain expressions of `__len__` and
`shape`; what they promise (agreement with every row a query returns) is
the contract of `ShapeMatchesQuery`. The flank getter is a read of the
`flank` field.

## Model

| member | source | states |
|---|---|---|
| `Genomic.StrandIndex` | src/janggo/data/coverage.py:150-153 | on a stranded array the `-` track is strand index 1 and `+` is index 0; an unstranded array has only index 0 |
| `Genomic.Padded` | src/janggo/data/coverage.py:278-282 | the padded copy keeps chromosome and strand, starts `flank` earlier and is `2*flank` longer |
| `Genomic.Read` | src/janggo/data/coverage.py:284 | a read over an interval has one entry per position, strand track and condition, each the stored value at that absolute position |
| `Genomic.Write` | src/janggo/data/coverage.py:150-153 | a range write sets the cells of one interval, strand track and condition and leaves every other cell and the array's genome, strandedness and conditions unchanged |
| `Genomic.WriteThenRead` | src/janggo/data/coverage.py:150-153 | reading back a written interval gives the written values for that condition and track, other conditions unaffected |
| `Genomic.ZeroCover` | src/janggo/data/coverage.py:164-170 | the array created for the loader is zero everywhere, with the given genome, strandedness and conditions |
| `Indexing.RangeAt` | src/janggo/data/coverage.py:264-266 | `range(start, stop, step)` holds exactly `start + k*step` for the k that have not reached `stop`, in order (both directions) |
| `Indexing.OrIfFalsy` | src/janggo/data/coverage.py:264-266 | `x if x else d`: None and 0 both take the default, any other value is kept |
| `Indexing.NormalizeCases` | src/janggo/data/coverage.py:261-271 | an int k becomes `[k]`, an iterable (sized or not) is kept, only a non-iterable argument has no normalisation, and the full slice `[:]` yields `0 .. len-1` |
| `Indexing.NormalizeAgreesAsWritten` | src/janggo/data/coverage.py:263-266 | the corrected normalisation differs from the code as written only for an explicit slice stop of 0 |
| `Indexing.SliceStaysBelowStop` | src/janggo/data/coverage.py:263-266 | with the corrected normalisation a forward slice never selects an index at or past its explicit stop |
| `Indexing.EmptySliceSelectsAll` | src/janggo/data/coverage.py:265 | as written, `[:0]` on a non-empty dataset selects all `len` indices starting at 0; corrected, it selects none |
| `Indexing.FirstMissing` | src/janggo/data/coverage.py:275-276 | None exactly when every index is a valid indexer position; otherwise an invalid index preceded only by valid ones |
| `Indexing.FirstMissingAt` | src/janggo/data/coverage.py:275-276 | the lookup error reported is that of the first invalid index met in iteration order |
| `Coverage.CheckFlank` | src/janggo/data/coverage.py:310-314 | a flank is accepted exactly when it is a non-negative int (or a bool, an int subclass) and is then stored unchanged |
| `Coverage.FlipShape` | src/janggo/data/coverage.py:289 | flipping keeps a window's dimensions |
| `Coverage.FlipAt` | src/janggo/data/coverage.py:286-289 | `flipped[p][s][c] == raw[W-1-p][S-1-s][c]`: position and strand axes reversed, condition axis untouched |
| `Coverage.FlipFlip` | src/janggo/data/coverage.py:286-289 | flipping twice is the identity |
| `Coverage.ApplyAllSnoc` | src/janggo/data/coverage.py:290-291 | a transform registered last is applied last, to the result of all earlier ones |
| `Coverage.ApplyAllAppend` | src/janggo/data/coverage.py:290-293 | transforms compose in registration order; with none the batch is returned unchanged |
| `Coverage.RowShape` | src/janggo/data/coverage.py:273-289 | a row has the padded width, the array's strand dimension and one value per condition |
| `Coverage.RowAt` | src/janggo/data/coverage.py:276-289 | row cell (p, s, c) is the stored value at `start - flank + p` (strand s) for `+`/`.`, and at `start - flank + W-1-p` (strand S-1-s) for `-` |
| `Coverage.RowForwardIsRead` | src/janggo/data/coverage.py:284-289 | for a strand other than `-` the row is exactly the read over the padded interval |
| `Coverage.QueryResult` | src/janggo/data/coverage.py:260-293 | without transforms a query fails exactly on a non-iterable argument, an iterable without a length (`len` at line 273) or a missing index, and otherwise returns one row per normalised index, in order, each the strand-normalised padded read of dimensions (2*flank+binsize, strands, conditions) |
| `Coverage.QueryErrors` | src/janggo/data/coverage.py:261-291 | a non-iterable argument gives the IndexError; an iterator without a length gives the TypeError of `len`; the first missing index aborts the query; transforms run on the whole assembled batch |
| `Coverage.CoverageDataset.constructor` | src/janggo/data/coverage.py:54-64 | the dataset holds the given array, indexer, validated flank and strandedness, with no transforms |
| `Coverage.CoverageDataset.SetFlank` | src/janggo/data/coverage.py:310-314 | an accepted flank is stored and read back unchanged; a rejected one raises and leaves the flank as it was |
| `Coverage.CoverageDataset.GetItem` | src/janggo/data/coverage.py:260-293 | the preallocate-fill-flip-transform loop returns exactly `Query` of the dataset's fields |
| `Coverage.ShapeMatchesQuery` | src/janggo/data/coverage.py:295-303 | `shape[0]` is the indexer length, a full slice returns `shape[0]` rows, a list returns one row per element, and every row has dimensions `shape[1:]` |
| `Coverage.NewDataset` | src/janggo/data/coverage.py:54-64 | construction fails exactly when the flank setter rejects the flank |
| `Bam.Tally` | src/janggo/data/coverage.py:140-148 | a cell's count is at most the number of records and is zero exactly when no passing record targets that cell |
| `Bam.CountReads` | src/janggo/data/coverage.py:133-148 | the zero-filled `(length, 2)` array after the record loop holds, in each cell, the number of passing records that target it |
| `Bam.RecordAddsOne` | src/janggo/data/coverage.py:141-148 | one more record adds exactly 1 to exactly one cell if it passes the filter: (start, 0) forward, (end-1, 1) reverse, (start, 1) reverse with no or zero end |
| `Bam.ColumnSumSnoc` | src/janggo/data/coverage.py:140-148 | one more record raises a column's sum by one exactly when it passes, has that orientation and lands in range |
| `Bam.ColumnSumIsPassing` | src/janggo/data/coverage.py:133-148 | each column sums to the number of passing records of that orientation |
| `Bam.UntouchedCellIsZero` | src/janggo/data/coverage.py:133-148 | a cell no passing record targets stays 0 |
| `Bam.LoadBam` | src/janggo/data/coverage.py:126-155 | after the loader each cell of sample k on a contig in the file's header holds that contig's read-start count for its strand; cells of absent contigs and all other cells keep their initial value |
| `Bam.LoadContig` | src/janggo/data/coverage.py:131-153 | one contig of one sample: skipped when the fetch fails, otherwise both tracks written from the counts |
| `Bam.Fetch` | src/janggo/data/coverage.py:136-140 | fetching a contig fails exactly when the file's header lacks it; a header contig without records yields no records |
| `Bam.LoadedTracks` | src/janggo/data/coverage.py:150-153 | column 0 becomes the `+` track and column 1 the `-` track; a contig absent from the file's header stays 0 |
| `Bam.BamFiles` | src/janggo/data/coverage.py:111-112 | a single file becomes a one-element list |
| `Bam.SampleNames` | src/janggo/data/coverage.py:114-115 | missing or empty sample names default to the file paths, one per file |
| `Bam.MinMapqFilter` | src/janggo/data/coverage.py:117-118 | a threshold of None or 0 filters no record; another threshold keeps exactly the records at or above it |
| `Bam.GenomeSize` | src/janggo/data/coverage.py:120-124 | missing or empty genome sizes come from the first file's header; with no file that fails |
| `Bam.CreateFromBam` | src/janggo/data/coverage.py:67-172 | the dataset is stranded over a zero-filled stranded array loaded by the loader, conditions are the sample names; it fails without files and genome sizes, or on a rejected flank |
| `Bam.TwoReadsScenario` | src/janggo/data/coverage.py:140-153 | a forward read at 100 and a reverse read ending at 200 give 1 at (100, `+`) and (199, `-`) and 0 everywhere else |

## Findings

| source | as written | input that shows it | evidently intended | confidence | as-written member | corrected member |
|---|---|---|---|---|---|---|
| src/janggo/data/coverage.py:265 | `idxs.stop if idxs.stop else len(self)` treats an explicit stop of 0 as missing | `dataset[:0]` or `dataset[0:0]` on a non-empty dataset returns every row instead of none | only a missing (None) stop defaults to `len(self)` | medium; not executed | `Indexing.NormalizeAsWritten` (shown by `Indexing.EmptySliceSelectsAll`) | `Indexing.Normalize` (proved by `Indexing.SliceStaysBelowStop`); `GetItem` uses it |

## Left out

- Coverage.CoverageDataset.GetItem: uses the corrected slice normalisation of the finding above, so `[:0]` returns an empty batch where the code returns all rows.
- Coverage.CoverageDataset.GetItem: requires every padded interval a query touches to lie inside its chromosome; what the storage backend returns for a read past position 0 or the chromosome end is not specified by the code shown.
- Coverage.CoverageDataset.GetItem: requires every indexer interval to be `binsize` long, and rows take the array's own strand dimension; when that differs from `stranded`, numpy's assignment into the preallocated batch broadcasts or raises, which is not modelled (`ShapeMatchesQuery` assumes they agree).
- Coverage.CoverageDataset.GetItem: any index outside `[0, len)` is a lookup failure; the region indexer (`GenomicIndexer.__getitem__`) is not part of this model, so its own handling of negative indices is not captured. Non-int elements inside an iterable index and bool indices are not modelled.
- Coverage.CoverageDataset.GetItem: the batch keeps the array's integers; numpy's conversion to the float `np.empty` buffer is not modelled.
- Genomic.StrandIndex: that a stranded array keeps `+` (and `.`) on strand index 0 and `-` on index 1 is decided inside `janggo.data.genomicarray`, which is not part of this model; the loader only shows count column 0 written as `+` and column 1 as `-` (lines 150-153), and the order is assumed.
- Coverage.CheckFlank: a bool flank is stored as 0 or 1 (Python stores the bool itself, equal as an int).
- Bam.CountReads: requires every counted record's target position to lie in `[0, length)` of its contig, as alignment files guarantee; numpy's IndexError (or wrap-around at -1) for other positions is not modelled.
- Genomic.Write: accepts any condition index; the array's own bounds checks (a sample list shorter than the file list, an unknown chromosome) belong to the storage backend and are not modelled.
- `create_from_bigwig` and its `bigwig_loader` (lines 174-252): a floating-point sum over values from a foreign library; it performs one write per (sample, region anchor) and is not modelled.
- Opening alignment files and reading their headers (pysam): a file is given as its contents (path, header contigs, records per contig).
- `GenomicIndexer.create_from_file` (line 109): the indexer is given as a value; building it from regions, bin size and step size is not part of this model.
- `create_genomic_array` storage backends, `cachedir`, `overwrite` and cache reuse, `dtype` (lines 157-170): the array is an abstract zero-initialised function.
- The default values of keyword arguments (`binsize=50`, `flank=150`, ...): every argument is passed explicitly.
- The `Dataset` base class (`janggo.data.data`) that owns `transformations` and the name: not part of this model; the constructor starts with no transforms and the field is assignable.
- `print` logging and `__repr__`.
- Concurrency: the code is single-threaded.
