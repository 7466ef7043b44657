# Chromatin trace dashboard: data logic

The dashboard shows precomputed results of a k-d tree matcher. That matcher matches high-resolution ("backstreet") blinking events of a chromatin trace to low-resolution ("mainstreet") data. This project models, in Dafny, the data logic that the dashboard's `main()` performs around those results:

- **Dataset configuration** (module `DatasetConfig`).
  - The dataset name is split on `_` and the precision option on a space.
  - A nested decision picks the mainstreet and backstreet time-point ranges.
  - The results directory `saves_kdtree/<dataset>/precision_<cut>` is built from the name and the cut.
  - Python's `str.split` and `s[-1]` are modelled in `Strings` and `Seqs`.
  - The `IndexError` raised on a `PhChr` name without a usable third token is modelled as a `Failure`.
- **Mainstreet selection** (module `Mainstreet`): the boolean indexing `trace[trace['time-point'] < BACKSTREET_TP_RANGE[0]]`. It is modelled as an order-preserving filter (`Seqs.Filter`).
- **Centers of mass** (module `Centers`): `calculate_centers_of_mass`.
  - The trace rows are grouped by time-point. Group keys come out in ascending order, as pandas `groupby` sorts them.
  - Each group gets the mean of its `x`, `y` and `z`.
- **Distances** (modules `Merge` and `Distances`):
  - `calculate_distances` left-merges the match rows with the centers on the assigned time-point. It then assigns the `distance` column of the merged frame in place. That assignment is modelled as a loop over an array (`AssignDistances`).
  - `calc_distances` builds the real distance table, and the random one after re-joining the random rows with the trace on `image-ID`.
  - The pandas left merge is modelled as in pandas. Each left row yields one output row per matching right row, in order. A left row with no match yields one row with missing values. Missing values (NaN) are modelled as `None`.

Data frames are sequences of row datatypes (`Tables`). Coordinates are `real`. The `distance` column holds the **squared** Euclidean distance. The square root is monotone and is zero only at zero, so the squared column orders rows the same way and is zero for the same rows.

Two properties hold for every configured dataset:

- The selected ranges are ordered and disjoint, so the mainstreet selection keeps every row of the mainstreet range and drops every row of the backstreet range.
- The mask only bounds the time-point from above. For the Chr9, location 2 ranges, mainstreet is (15, 30), yet a row at time-point 0 is kept too (`Mainstreet.SelectionKeepsRowsBelowMainstreet`).

## Model

| member | source | states |
|---|---|---|
| DatasetConfig.SelectRanges | streamlit_app.py:95-113 | In every branch of the decision the selected mainstreet range lies before the backstreet range, and each range runs from its first to its last time-point. |
| DatasetConfig.NonPhChrGetsDefault | streamlit_app.py:111-113 | A name whose first `_` token is not `PhChr` gets mainstreet (0, 19) and backstreet (20, 24), whatever else it contains. |
| DatasetConfig.SelectRangesFails | streamlit_app.py:95-110 | The selection fails (Python's IndexError) exactly for a `PhChr` name with fewer than three `_` tokens or an empty third token. |
| DatasetConfig.RangesFor | streamlit_app.py:96-113 | The table of the five dataset kinds: each gets ordered, disjoint ranges. |
| DatasetConfig.Classify | streamlit_app.py:95-110 | A name is a standard dataset exactly when its first token is not `PhChr`. It is Chr22 exactly when its last token is `Chr22`, and location 1 exactly when its third token ends in `1`. A `PhChr` name fails exactly when its third token is missing or empty. |
| DatasetConfig.SelectRangesMatchesTable | streamlit_app.py:95-113 | The nested decision equals the table applied to the classification, on every name, failing ones included. |
| DatasetConfig.PrecisionCut | streamlit_app.py:93 | The cut is the part of the option after its last space. It holds no space, it is a suffix of the option, and it is the whole option when the option has no space. |
| DatasetConfig.PrecisionCutOfOffer | streamlit_app.py:81-93 | The offered option `precision x,y,z > 0` cuts to `0`. |
| DatasetConfig.BasePath | streamlit_app.py:115 | The results directory is `saves_kdtree/`, the dataset name, `/precision_` and the cut. The name can be read back at its fixed offset, and the cut at the end. |
| DatasetConfig.BasePathInjective | streamlit_app.py:115 | Two (dataset, cut) pairs whose dataset names hold no `/` share a results directory only if they are equal. |
| DatasetConfig.SelectConfig | streamlit_app.py:92-115 | The configuration fails exactly when the range selection fails. Otherwise it carries those ranges (ordered and disjoint), the cut, and the directory `saves_kdtree/` + name + `/precision_` + cut. |
| DatasetConfig.ConfigOfPlainDataset | streamlit_app.py:69-115 | `Set1_Location4_Cell1` with its option gets the default ranges, cut `0` and its results directory. |
| DatasetConfig.RangesOfPhChrDataset | streamlit_app.py:74-109 | `PhChr_Set1_Location2_Cell1_Chr9` takes the Chr9, location 2 branch: mainstreet (15, 30), backstreet (31, 35). |
| DatasetConfig.ConfigOfPhChrDataset | streamlit_app.py:69-115 | `PhChr_Set1_Location2_Cell1_Chr9` with its option gets ranges (15, 30) and (31, 35), cut `0` and its results directory. |
| Strings.Split | streamlit_app.py:93-95 | `str.split(sep)` yields at least one token, and no token contains the separator. |
| Strings.JoinAfterSplit | streamlit_app.py:93-95 | Joining the tokens with the separator gives back the string. |
| Strings.SplitAfterJoin | streamlit_app.py:93-95 | Splitting separator-free parts joined by the separator gives back the parts. |
| Strings.SplitLeadingToken | streamlit_app.py:95 | A separator-free token followed by the separator is split off as the first token. |
| Strings.LastTokenAfterLastSeparator | streamlit_app.py:93 | The last token is whatever follows the last separator. |
| Strings.LastTokenIsSuffix | streamlit_app.py:93 | The last token is a suffix of the string, preceded by the separator unless it is the whole string. |
| Seqs.Filter | streamlit_app.py:198-203 | Boolean indexing keeps only rows of the input that satisfy the mask, and never more rows than the input has. |
| Seqs.FilterMultiplicity | streamlit_app.py:198-203 | Every row satisfying the mask is kept exactly as often as it occurs, and no other row appears. |
| Seqs.FilterConcat | streamlit_app.py:198-203 | Filtering a concatenation is the concatenation of the filterings, so the input order is kept. |
| Seqs.FilterIdempotent | streamlit_app.py:198-203 | Applying the same mask twice is applying it once. |
| Mainstreet.MainstreetRows | streamlit_app.py:198-203 | With the mask `BeforeBackstreet`, a row is selected exactly when it is in the trace and its time-point is below the first backstreet time-point. |
| Mainstreet.MainstreetMultiplicity | streamlit_app.py:198-203 | Each row below the backstreet range is kept as often as the trace holds it, and nothing else is kept. |
| Mainstreet.MainstreetOrder | streamlit_app.py:198-203 | The selection keeps the trace's row order. |
| Mainstreet.MainstreetIdempotent | streamlit_app.py:198-203 | Selecting the mainstreet rows again changes nothing. |
| Mainstreet.MainstreetSeparatesStreets | streamlit_app.py:198-203 | With ordered, disjoint ranges, every trace row in the mainstreet range is kept and every row in the backstreet range is dropped. |
| Mainstreet.ConfiguredSelectionSeparatesStreets | streamlit_app.py:95-203 | For every dataset name the configuration accepts, the selection keeps the mainstreet range and drops the backstreet range. |
| Mainstreet.SelectionKeepsRowsBelowMainstreet | streamlit_app.py:107-203 | Under the Chr9, location 2 ranges, a trace row at time-point 0 is kept although it lies before the mainstreet range. |
| Merge.Matching | streamlit_app.py:247 | The right rows that match a key are exactly the right rows with that key. |
| Merge.Lookup | streamlit_app.py:247 | The joined right row has the looked-up key. None means no right row has that key. |
| Merge.MergeRow | streamlit_app.py:247 | A left row yields one merged row per right row with its key, or a single row when there is none. Each merged row carries the left row. A joined right row is a right row with the left row's key, and every such right row is joined. Nothing is joined only when no right row has the key. |
| Merge.LeftMerge | streamlit_app.py:247 | A left merge never has fewer rows than its left table. Every merged row carries a left row. Its joined right row, if any, has that left row's key. It is joined to nothing only when no right row has that key. |
| Merge.LeftMergeCovers | streamlit_app.py:247 | Every left row appears in the left merge, whatever the right keys. |
| Merge.LeftMergeComplete | streamlit_app.py:247 | Nothing is lost: each left row appears joined to every right row with its key, and joined to nothing when there is none. |
| Merge.MatchingUnique | streamlit_app.py:247 | When the right keys are unique, at most one right row matches a key. |
| Merge.LeftMergeUnique | streamlit_app.py:247 | When the right keys are unique, the merge has exactly one row per left row, in order. Each row is paired with the right row of its key, or with nothing. |
| Centers.InsertKey | streamlit_app.py:239 | Inserting a time-point into a sorted key list keeps it strictly increasing, and it then holds exactly the old keys and the new one. |
| Centers.GroupKeys | streamlit_app.py:239 | The group keys are strictly increasing: sorted and without repeats. |
| Centers.GroupKeysMembers | streamlit_app.py:239 | The group keys are exactly the time-points that occur in the rows. |
| Centers.Group | streamlit_app.py:239 | A group holds only rows of its time-point, and never more rows than the input. |
| Centers.GroupMembers | streamlit_app.py:239-242 | A group holds exactly the rows of its time-point, each as often as the input holds it, so duplicates count in the mean. |
| Centers.Mean | streamlit_app.py:240-242 | Each coordinate of a group's mean (`np.average`) times the group size is the group's sum of that coordinate. |
| Centers.GroupNonEmpty | streamlit_app.py:239 | Every group key has a non-empty group. |
| Centers.CentersAt | streamlit_app.py:239-243 | The i-th center has the i-th key as its time-point, and the mean of that key's group as its center. |
| Centers.CentersOfMass | streamlit_app.py:237-244 | The centers table has strictly increasing time-points (one row per time-point, no duplicates). Every center's time-point occurs in the rows, and every row's time-point has a center. |
| Centers.CenterRow | streamlit_app.py:239-243 | Each center is the mean of the non-empty group of its time-point. |
| Centers.MeanTimesSize | streamlit_app.py:240-242 | Each coordinate of the mean times the group size is the group's sum of that coordinate. |
| Centers.SumAbove | streamlit_app.py:240-242 | If every coordinate is above a bound, the sum exceeds the bound times the count. |
| Centers.SumBelow | streamlit_app.py:240-242 | If every coordinate is below a bound, the sum is less than the bound times the count. |
| Centers.AverageWithinGroup | streamlit_app.py:240-242 | A value that equals the sum divided by the count is at least the smallest coordinate and at most the largest. |
| Centers.MeanWithinGroup | streamlit_app.py:240-242 | Each coordinate of the mean lies between the group's minimum and maximum of that coordinate. |
| Centers.CenterWithinGroup | streamlit_app.py:237-244 | Each center's coordinate lies between the smallest and the largest coordinate of the rows of its time-point. |
| Centers.TriangleCenter | streamlit_app.py:237-244 | Three events at one time-point, at (0,0,0), (3,0,0) and (0,3,0), have the single center (1,1,0). |
| Distances.SqDistance | streamlit_app.py:249-253 | The squared distance is non-negative, and zero exactly when the two points coincide. |
| Distances.SquareSign | streamlit_app.py:250-252 | A square is non-negative, and positive unless its root is zero. |
| Distances.SqDistanceTo | streamlit_app.py:249-253 | The distance is missing (NaN) exactly when the position or the center is missing. Otherwise it is non-negative, and zero exactly when the position is the center. |
| Distances.Joined | streamlit_app.py:247 | Every match row appears in the merged frame, which has no distance yet and never fewer rows than the match rows. Each row's center has the row's assigned time-point. A row has no center only when no center has that time-point. |
| Distances.DistanceTable | streamlit_app.py:245-254 | The result of `calculate_distances` as a value: every match row appears, and the table never has fewer rows than the match rows. Each row is joined to a center of its assigned time-point, or to none when there is no such center, and carries the distance of its position to that center. |
| Distances.AssignDistances | streamlit_app.py:249-253 | Assigning the column in place sets each row's distance from its own position and center, and leaves the rest of each row alone. |
| Distances.DistanceTableRows | streamlit_app.py:245-254 | Against unique center time-points, the table has one row per match row, in order. Each row is joined to the center of its assigned time-point, or to nothing when there is none. Its distance is present exactly when both its position and its center are, and then equals the squared distance between them. |
| Distances.DistanceNonNegative | streamlit_app.py:249-253 | Every present distance is non-negative, and zero exactly when the row's position is its center. |
| Distances.CalculateDistances | streamlit_app.py:245-254 | The method's result is the distance table of the rows and centers. Against unique center time-points it keeps the row count. |
| Distances.RandomWithCoordinates | streamlit_app.py:258 | Every random row appears in the re-joined table with its `image-ID` and time-point, even when trace `image-ID`s repeat. The table never has fewer rows than the random rows, and each row comes from a random row. Its coordinates are those of a trace event with the same `image-ID`, and are missing only when the trace has no such event. |
| Distances.RandomWithCoordinatesRows | streamlit_app.py:258 | With unique trace `image-ID`s, the re-joined random table has one row per random row, in order, with the same identity and time-point. Its coordinates come from the trace event with that `image-ID`, and are missing when there is none. |
| Distances.CentersUniqueKeys | streamlit_app.py:239 | The centers table never has two rows with the same time-point. |
| Distances.CalcDistances | streamlit_app.py:255-261 | Both tables are measured against the centers of the same full trace. The real table keeps its row count, and the random one does too when the trace's `image-ID`s are unique. |

## Left out

- `load_pickle_slices` and the loop that loads the three result files: globbing, byte-stream concatenation and unpickling are file I/O. The model takes the loaded tables as sequences.
- The Streamlit layout, widgets, sidebar, table of contents and image galleries are user interface.
- The feedback form and its append to a Google Sheet are a network call.
- Every `viz.*` call is not part of this model: the plots, the Sankey diagram and the Mann-Whitney U test. Their module is not shown.
- The k-d tree matching and the random-baseline generation are not part of this model. Their results arrive precomputed.
- Distances.SqDistance: the `distance` column holds the squared Euclidean distance, because `np.sqrt` on reals is not modelled. The square root is monotone and zero only at zero, so comparisons with zero and orderings are unchanged.
- Floating point: `np.average` and the distance arithmetic are modelled on exact reals, without rounding.
- Merge column details are not modelled: extra columns, and the `_x`/`_y` suffixes pandas adds on name clashes. The join keys and the coordinates are kept.
- Centers.CentersOfMass: an empty trace gives an empty centers table. The column layout pandas `groupby().apply()` produces for an empty frame is not modelled.
