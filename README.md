# Overseer anomaly correction, modelled in Dafny

This project models the algorithmic core of the overseer anomaly-correction
system and proves properties of that model. The system follows YOLO
detections from frame to frame. It has three parts:

- **Identity resolution** (`overseer/identity.py`). For each frame, the
  anonymous detections are matched to the identities already known. An
  exhaustive generator (`_configurations`) lists every assignment
  hypothesis. Each hypothesis is costed by summing a pairwise distance
  (`YoloEntity.__sub__`, `_test_configuration`), and the cheapest one wins,
  the first in generation order on a tie. `Histories.update` then mints
  consecutive fresh identities for the new entities and appends each entity
  to its identity's history, trimming the oldest entry past
  `history_duration`.
- **Outlier flagging** (`overseer_anomaly_correction/overseer.py`, class
  `History`). A bounded window holds the observations of one object. Adding
  an observation runs a scan. The scan takes the unflagged observations,
  forms their second differences and flags the observation that ends the
  first triple deviating by more than `threshold` population standard
  deviations. It repeats until the newest observation is flagged or nothing
  more is flagged.
- **Observation record** (`overseer_anomaly_correction/model.py`). A YOLO
  observation copies the detector's values and appends the box area. Its
  attributes are read through fixed indices. The model builds a table of
  (circular, minimum, maximum) ranges for each attribute from the image size.

Files:

- `wrappers.dfy`: `Option`.
- `window.dfy`: the append-then-`pop(0)` window that both histories use.
- `identity.dfy`: module `Identity`.
- `anomaly.dfy`: module `Anomaly`.
- `observation.dfy`: module `Observation`.

Modelling choices:

- **Entities and identities.** An entity is identified by its position in
  the frame's list. A hypothesis is a `seq<Option<int>>` aligned with that
  list, where `None` means "new identity". The store of identified histories
  is a map plus `order`, the insertion order of its keys. The generator
  walks the identities in that order, so the order decides ties.
- **Aliasing in `update`.** `update` appends to and pops from the list it
  fetched from `identified_histories`. For a known identity, that is the list
  the store holds. `Histories.Update` therefore writes every extended list
  both into the new map and, for known identities, into the store
  (`Merge`).
- **The `histories` attribute.** The new map is assigned to `histories`,
  not to `identified_histories`, so the store's key set never changes. The
  model follows the code here.

  Consequences:
  - A store starts empty (`Histories.constructor`), and `Histories.Update`
    keeps its key set, so `identified_histories` stays empty for good.
  - `FreshStoreNeverMatches` shows what every frame then does: it makes all
    entities new and mints the identities 0, 1, …, n-1 again. Each history
    holds that frame's entity alone.
  - No detection is ever matched to one of an earlier frame.

  The fix the authors intended cannot be read off the code. Writing the new
  map to the store would also drop the identities absent from the frame.
- **Hypotheses.** A frame with no more entities than known identities yields
  no hypothesis. The winner is then the empty assignment, and the code
  assigns nothing. The model follows the code, although a frame with one
  detection and two known identities might be expected to reuse an identity.
- **The scan.** `Scan` is a function whose recursion decreases the number of
  unflagged observations. The method `RunScan`, which the class's
  `LatestIsAnomalous` calls, runs the `while True` loop and is proved equal
  to `Scan`. The scan is parametric in the deviation test (`Test`). The
  history uses `Deviation(threshold)`, and `ExceedsIsStdTest` proves that
  this test is `abs(d) > sigma * threshold`, for sigma the population
  standard deviation.
- **Behaviour the code does not pin down.** The anomaly scan as written cannot
  run, so the model takes the evident intent in three places:
  - a new observation enters unflagged, because line 41 reads its flag before
    line 33 stores one;
  - observations are scalars, because `numpy.diff` at line 45 is applied to
    observation objects;
  - `if not second_differential` at line 46 means "no sample".

## Model

| member | source | states |
|---|---|---|
| Window.Push | overseer_anomaly_correction/overseer.py:29-31 | The definition of one append and at most one `pop(0)` past the capacity, used by both histories (also overseer/identity.py:73-76). Its properties are stated by `Window.PushShape`, `Window.PushLength` and `Window.PushBounded`. |
| Window.PushShape | overseer_anomaly_correction/overseer.py:29-31 | After the push the new element is last and the earlier elements keep their order. Exactly the oldest entry goes, and only when the grown list exceeds the capacity. |
| Window.PushLength | overseer_anomaly_correction/overseer.py:29-31 | The window grows by one, unless the grown list exceeds the capacity, in which case its length stays the same. |
| Window.PushBounded | overseer/identity.py:73-76 | A history within a non-negative capacity stays within it, and a non-empty history stays non-empty. |
| Identity.Cost | overseer/identity.py:87-97 | The definition of `a - b`: the root of the squared centre distance plus the absolute difference of the areas. Its properties are stated by `Identity.CostSymmetric`, `Identity.CostNonNegative` and `Identity.CostToItself`. |
| Identity.CostSymmetric | overseer/identity.py:87-97 | The pairwise cost is symmetric. |
| Identity.CostNonNegative | overseer/identity.py:87-97 | The pairwise cost is non-negative for any square root that is non-negative. |
| Identity.CostToItself | overseer/identity.py:87-97 | An entity costs nothing against itself. |
| Identity.Configurations | overseer/identity.py:116-126 | The definition of the generator, as a list in generation order. Its properties are stated by `Identity.ConfigurationsSound`, `Identity.ConfigurationsComplete`, `Identity.ConfigurationsExist`, `Identity.ConfigurationsWithoutIdentities` and `Identity.ConfigurationsWithoutEntities`. |
| Identity.Branches | overseer/identity.py:122-126 | The definition of the `for identity in identities` loop from the j-th identity on. Its property is stated by `Identity.BranchesSound`. |
| Identity.Nones | overseer/identity.py:120 | The all-new hypothesis has one `None` per entity. |
| Identity.Remove | overseer/identity.py:124 | The remaining identities are exactly the others, and the list does not grow. |
| Identity.RemoveDistinct | overseer/identity.py:124 | Removing an identity from a duplicate-free list removes exactly one element, or none when the identity is absent, and keeps the list duplicate-free. |
| Identity.Prepend | overseer/identity.py:125-126 | Each configuration of the rest gets the first entity's choice in front, in order. |
| Identity.ConfigurationsSound | overseer/identity.py:116-126 | Every generated hypothesis has more entities than identities. Its first #identities entities carry pairwise different known identities (a permutation of them), and all later entities are new. |
| Identity.BranchesSound | overseer/identity.py:122-126 | The same holds for the hypotheses generated from any identity onwards in the loop. |
| Identity.HypothesisIsInjective | overseer/identity.py:122-126 | A generated hypothesis never uses one identity twice. |
| Identity.ConfigurationsComplete | overseer/identity.py:116-126 | Every hypothesis of that shape is generated. |
| Identity.ConfigurationsExist | overseer/identity.py:116-126 | Hypotheses exist exactly when there are more entities than known identities. |
| Identity.ConfigurationsWithoutIdentities | overseer/identity.py:119-121 | With no known identity and at least one entity, the single hypothesis makes every entity new. |
| Identity.ConfigurationsWithoutEntities | overseer/identity.py:116-118 | With no entity there is no hypothesis. |
| Identity.TestConfiguration | overseer/identity.py:129-135 | The definition of the summed cost of the matched entries, where new entities add nothing. Its properties are stated by `Identity.AllNewCostsNothing`, `Identity.TestConfigurationNonNegative` and `Identity.BestFit`. |
| Identity.AllNewCostsNothing | overseer/identity.py:129-135 | A hypothesis with every entity new costs 0. |
| Identity.TestConfigurationNonNegative | overseer/identity.py:129-135 | A hypothesis's cost is non-negative. |
| Identity.ArgMin | overseer/identity.py:63-67 | The chosen position holds a minimum, and every earlier position is strictly dearer, so ties go to the first. |
| Identity.BestFit | overseer/identity.py:63-67 | The best fit is `{}` exactly when there is no hypothesis or no entity. Otherwise it is a hypothesis costing no more than any other, and no earlier hypothesis costs the same. |
| Identity.ConfigurationsFit | overseer/identity.py:60-65 | Every generated hypothesis names only identities the snapshot knows, so it can be costed. |
| Identity.Winner | overseer/identity.py:60-67 | The winner is a generated hypothesis, or the empty one. |
| Identity.MaxKey | overseer/identity.py:56 | The maximum key bounds every key and is one of them, or is -1 when there is no key. |
| Identity.Resolve | overseer/identity.py:69-71 | One identity per entity: its own, or the next value of the counter. Its properties are stated by `Identity.ResolveAt`, `Identity.ResolveDistinct` and `Identity.MintAll`. |
| Identity.ResolveAt | overseer/identity.py:59-71 | A matched entity keeps its identity. A new entity at position j receives `next` plus the number of new entities before it, so fresh identities are consecutive in entity order. |
| Identity.ResolveDistinct | overseer/identity.py:69-71 | The identities of one frame are pairwise different, and the fresh ones are at least `next`. |
| Identity.MintAll | overseer/identity.py:59-71 | With every entity new, the frame's identities are next, next+1, …, next+n-1. |
| Identity.WinnerResolves | overseer/identity.py:59-71 | The winner's identities are pairwise different. Known ones come from the store, and fresh ones are at least `next`. |
| Identity.Build | overseer/identity.py:68-76 | The definition of `updated_histories`, built entry by entry. Its properties are stated by `Identity.BuildKeys`, `Identity.BuildAt` and `Identity.Extend`. |
| Identity.BuildKeys | overseer/identity.py:68-74 | The keys of the new mapping are exactly the frame's identities. |
| Identity.BuildAt | overseer/identity.py:68-76 | Each identity of the frame maps to its previous history, or `[]`, extended with its entity and trimmed to `history_duration`. |
| Identity.Merge | overseer/identity.py:72-77 | The definition of the store after the in-place appends. Its properties are stated by `Identity.MergeAt`, `Identity.MergeConsistent` and `Identity.Extend`. |
| Identity.MergeAt | overseer/identity.py:72-77 | The store keeps its key set. Identities of the frame hold their new lists, and all others keep theirs. |
| Identity.StoreStep | overseer/identity.py:69-76 | One loop step extends the list the store holds, or a new list, and writes it into both the new mapping and the store. |
| Identity.Extend | overseer/identity.py:68-76 | The loop of `update` computes exactly the new mapping and the store after the in-place appends. |
| Identity.FrameIdentities | overseer/identity.py:59-71 | The definition of the identities `update` hands out for a frame. Its properties are stated by `Identity.FrameIdentitiesSound` and `Identity.FreshStoreNeverMatches`. |
| Identity.FrameIdentitiesSound | overseer/identity.py:59-71 | With more entities than known identities, every entity gets an identity, and they are pairwise different. A matched entity keeps its identity, and a new one gets a fresh identity at least `next`. Otherwise nothing is assigned. |
| Identity.WinnerWithoutIdentities | overseer/identity.py:60-67 | With no known identity, the winning hypothesis makes every entity new. |
| Identity.FreshStoreNeverMatches | overseer/identity.py:58-77 | On an empty store, the frame's identities are 0, 1, …, n-1. Each maps to a history of its own entity alone, or to `[]` for a duration below 1. The store stays empty. |
| Identity.MergeConsistent | overseer/identity.py:72-77 | Writing a frame back keeps the store consistent: keys unchanged and histories non-empty. |
| Identity.KeysEmpty | overseer/identity.py:56 | The store is empty exactly when its key order is. |
| Identity.Histories.constructor | overseer/identity.py:50-52 | A new store holds no identity. |
| Identity.Histories.NextIdentity | overseer/identity.py:54-56 | The next identity exceeds every key. It is 0 for an empty store, and otherwise one more than a key. |
| Identity.Histories.GetSnapshot | overseer/identity.py:79-80 | The snapshot maps each identity to the last element of its history. |
| Identity.Histories.Update | overseer/identity.py:58-77 | `histories` becomes the mapping built from the winning hypothesis, with fresh identities counted up from `next_identity`. `identified_histories` keeps its key set and order, but its lists of matched identities are the extended ones. A frame with no more entities than known identities, an empty frame included, leaves `histories` empty. |
| Anomaly.UnflaggedIndices | overseer_anomaly_correction/overseer.py:43-44 | Every position listed is unflagged, and there are as many as there are unflagged observations. |
| Anomaly.UnflaggedRank | overseer_anomaly_correction/overseer.py:43-44 | The j-th listed position has exactly j unflagged observations before it, so the list is in order and misses none. |
| Anomaly.Pick | overseer_anomaly_correction/overseer.py:43-44 | The non-anomalies are the observations at those positions, in order. |
| Anomaly.FlagOneLess | overseer_anomaly_correction/overseer.py:52 | Flagging an unflagged observation leaves exactly one unflagged observation fewer. |
| Anomaly.FlagPrefix | overseer_anomaly_correction/overseer.py:52 | Flagging never adds unflagged observations to any prefix. |
| Anomaly.Samples | overseer_anomaly_correction/overseer.py:43-45 | The definition of the samples of a pass: the second differences of the unflagged observations. Its properties are stated by `Anomaly.PassSound` and `Anomaly.AllUnflagged`. |
| Anomaly.Diff | overseer_anomaly_correction/overseer.py:45 | `numpy.diff`: one element fewer, each the difference of neighbours. |
| Anomaly.SecondDiffs | overseer_anomaly_correction/overseer.py:45 | The definition of `numpy.diff(v, n=2)` as `Diff` applied twice. Its property is stated by `Anomaly.SecondDiffsAt`. |
| Anomaly.SecondDiffsAt | overseer_anomaly_correction/overseer.py:45 | There is one second difference `v[i+2]-2v[i+1]+v[i]` per observation from the third on. |
| Anomaly.Deviates | overseer_anomaly_correction/overseer.py:48-51 | The definition of the square-free form of `abs(d) > std * t` over the count and the two sums. Its meaning is stated by `Anomaly.DeviatesAt` and `Anomaly.ExceedsIsStdTest`. |
| Anomaly.Exceeds | overseer_anomaly_correction/overseer.py:48-51 | The definition of that test for one sample among all samples of a pass. Its meaning is stated by `Anomaly.ExceedsIsStdTest`. |
| Anomaly.Deviation | overseer_anomaly_correction/overseer.py:51 | The definition of the test `History` uses for its threshold. Its meaning is stated by `Anomaly.ExceedsIsStdTest`. |
| Anomaly.FirstExceeding | overseer_anomaly_correction/overseer.py:49-55 | The definition of the `for … else` search for the first failing sample. Its properties are stated by `Anomaly.FirstExceedingSound` and `Anomaly.FirstFailing`. |
| Anomaly.FirstExceedingSound | overseer_anomaly_correction/overseer.py:49-55 | The search returns the first failing sample. It returns none exactly when no sample fails. |
| Anomaly.Pass | overseer_anomaly_correction/overseer.py:43-53 | The definition of one round of the `while True` loop: the position to flag, or none. Its properties are stated by `Anomaly.PassSound`, `Anomaly.PassFlagsUnflagged` and `Anomaly.ScanFlagsOne`. |
| Anomaly.PassSound | overseer_anomaly_correction/overseer.py:43-55 | A pass flags an unflagged observation with at least two unflagged observations before it. That observation ends the triple of the first failing sample. A pass flags nothing exactly when no sample fails. |
| Anomaly.PassFlagsUnflagged | overseer_anomaly_correction/overseer.py:49-53 | The observation a pass flags is unflagged. |
| Anomaly.Scan | overseer_anomaly_correction/overseer.py:39-55 | The scan terminates, since each non-returning round flags one unflagged observation. It keeps one flag per observation, and its result is the newest observation's final flag. |
| Anomaly.ScanOnlySets | overseer_anomaly_correction/overseer.py:41-53 | Flags are monotone: the scan never clears one. |
| Anomaly.ScanSettles | overseer_anomaly_correction/overseer.py:46-55 | A negative verdict means a last pass over the final flags found nothing. |
| Anomaly.ScanFindsNothing | overseer_anomaly_correction/overseer.py:46-55 | With the newest observation unflagged and no failing sample, the scan says no and changes nothing. |
| Anomaly.ScanFlagsOne | overseer_anomaly_correction/overseer.py:49-53 | When the k-th sample is the first failing one, the (k+2)-th unflagged observation is flagged, and the scan restarts from there with one unflagged observation fewer. |
| Anomaly.ScanIdempotent | overseer_anomaly_correction/overseer.py:40-55 | Re-running the scan with no new observation changes no flag and returns the same result. |
| Anomaly.ScanFewerThanThree | overseer_anomaly_correction/overseer.py:43-47 | With fewer than three unflagged observations and the newest unflagged, the scan returns False and changes no flag. |
| Anomaly.ScanKeepsOldest | overseer_anomaly_correction/overseer.py:49-53 | The two oldest unflagged observations are never flagged. |
| Anomaly.ExceedsIsStdTest | overseer_anomaly_correction/overseer.py:48-51 | For a non-negative threshold, the square-free test `n²d² > t²(nΣd² − (Σd)²)` holds exactly when `abs(d) > sigma * t`, for sigma the population standard deviation (`ddof=0`). |
| Anomaly.SquaredDeviationsExpand | overseer_anomaly_correction/overseer.py:48 | The squared deviations from a mean expand into the sum of squares and the sum. |
| Anomaly.SumCast | overseer_anomaly_correction/overseer.py:48 | The integer sums read as reals are the real sums. |
| Anomaly.AllUnflagged | overseer_anomaly_correction/overseer.py:43-45 | With none of five observations flagged, the samples are the second differences of all of them. |
| Anomaly.SpikeTests | overseer_anomaly_correction/overseer.py:48-51 | Among the samples -3, 3, 85 at threshold 2, only 85 fails the test (2σ ≈ 80.3). |
| Anomaly.SpikeIsFlagged | overseer_anomaly_correction/overseer.py:43-55 | For observations 10, 12, 11, 13, 100 at threshold 2, the newest observation (100) is flagged, and the result is True. |
| Anomaly.SmoothTests | overseer_anomaly_correction/overseer.py:48-51 | Among the samples -3, 3, -1 at threshold 2, no sample fails (2σ ≈ 5). |
| Anomaly.SmoothIsNotFlagged | overseer_anomaly_correction/overseer.py:43-55 | For observations 10, 12, 11, 13, 14 at threshold 2, nothing is flagged, and the result is False. |
| Anomaly.FirstFailing | overseer_anomaly_correction/overseer.py:49-55 | The `for … else` search returns the index of the first failing sample, or the number of samples when none fails. |
| Anomaly.RunScan | overseer_anomaly_correction/overseer.py:40-55 | The `while True` loop returns exactly the verdict and flags of `Scan`. |
| Anomaly.History.constructor | overseer_anomaly_correction/overseer.py:19-23 | A new history holds the initial observation, unflagged. |
| Anomaly.History.LatestIsAnomalous | overseer_anomaly_correction/overseer.py:38-55 | The observations are unchanged. The flags and the result are those of the scan. |
| Anomaly.History.AddObservation | overseer_anomaly_correction/overseer.py:28-33 | The observations are pushed through the window. The flags are the scan's flags after the new, unflagged entry was pushed with them, so the stored flag of the new entry is the scan's result. The window stays within `memory_duration`. |
| Observation.Index | overseer_anomaly_correction/model.py:22-29 | Every descriptor reads an index below 8. |
| Observation.IndexBijective | overseer_anomaly_correction/model.py:22-29 | The descriptors read the indices 0 to 7, one descriptor per index. |
| Observation.IndexInjective | overseer_anomaly_correction/model.py:22-29 | Two descriptors read the same index only if they are the same. |
| Observation.NameRoundTrip | overseer_anomaly_correction/model.py:80-87 | Attribute names and table keys are inverse. |
| Observation.Lookup | overseer_anomaly_correction/model.py:38-39 | Python indexing: defined exactly for -len ≤ key < len, with a negative key counting from the end. |
| Observation.LookupFromEnd | overseer_anomaly_correction/model.py:38-39 | Key -k reads the same entry as key len-k. |
| Observation.Extended | overseer_anomaly_correction/model.py:31-35 | The data is the input copied, followed by one more element, `(data[1]-data[0])*(data[3]-data[2])`. |
| Observation.Get | overseer_anomaly_correction/model.py:15-16 | The definition of a descriptor's read on plain data. Its values are stated by `Observation.SevenValues`, `Observation.Lookup` and `Observation.Index`. |
| Observation.ExtendedKeepsInput | overseer_anomaly_correction/model.py:32 | Every value that came in reads the same after the area is appended. |
| Observation.SevenValues | overseer_anomaly_correction/model.py:22-35 | With seven inputs every descriptor but `area` reads its input value, and `area` reads the derived product. |
| Observation.AreaIsLast | overseer_anomaly_correction/model.py:33-35 | The last entry of the data is the area. |
| Observation.Bounds | overseer_anomaly_correction/model.py:42-52 | The definition of the range each class-level descriptor is meant to get. Its properties are stated by `Observation.BoundsShape` and `Observation.TablesAgree`. |
| Observation.FeatureTable | overseer_anomaly_correction/model.py:77-88 | The definition of the instance table. Its properties are stated by `Observation.FeatureTableKeys`, `Observation.TablesAgree` and `Observation.NameRoundTrip`. |
| Observation.FeatureTableKeys | overseer_anomaly_correction/model.py:79-88 | The table has a key exactly for each of the eight attributes. |
| Observation.TablesAgree | overseer_anomaly_correction/model.py:42-52 | The instance table and the class-level descriptor ranges assign the same (flag, min, max) to every attribute. |
| Observation.BoundsShape | overseer_anomaly_correction/model.py:42-52 | Every minimum is 0. x features end at the width, y features at the height, the score at 1 and the area at height·width. Exactly the two centres and the area are circular. |
| Observation.YoloObservation.constructor | overseer_anomaly_correction/model.py:31-36 | The data is the extended copy of the input, and the metadata is the one given. |
| Observation.YoloObservation.Item | overseer_anomaly_correction/model.py:38-39 | `__getitem__` is defined exactly for keys in range and reads the entry. |
| Observation.YoloObservation.Attr | overseer_anomaly_correction/model.py:15-16 | A descriptor reads the entry at its index, when the data has one. |
| Observation.ObservationAttributes.constructor | overseer_anomaly_correction/model.py:11-13 | Before `set_metadata`, no descriptor has a range. |
| Observation.ObservationAttributes.SetMetadata | overseer_anomaly_correction/model.py:41-52 | The evident intent of the class-level `set_metadata`: every descriptor gets the range `Bounds` gives for the image size. The source as written raises instead; see "## Left out". |
| Observation.YoloModel.constructor | overseer_anomaly_correction/model.py:61 | The feature metadata starts empty. |
| Observation.YoloModel.SetMetadata | overseer_anomaly_correction/model.py:77-88 | The feature metadata becomes the table for the image size. |

## Left out

- Video capture and display: `Video` (overseer/identity.py:14-43) and overseer_anomaly_correction/video.py are OpenCV I/O and a key poll.
- The detector: `YoloModel.__init__`, `get_entities`, `process_image` and `_report_box_data` are calls into YOLO, drawing and printing.
- Glue code: `frames_and_entities`, `run`, `_main`, `overseer_anomaly_correction/__init__.py` and `simulated_user.py` do argument parsing, configuration and logging.
- conf.py holds module constants only. Its prediction settings feed History fields nothing reads (`predictor`, `prediction_window`, `time_series`, `metadata`), which are not modelled.
- The null-observation counter and limit of `History` are never read or updated, so they are not modelled.
- The `anomaly_map` weak dictionary is modelled as a flag sequence parallel to the observations, evicted with them. Garbage collection is not modelled.
- `ObservationAttribute.__set__` is not modelled, because it would fail: `YoloObservation` has no `__setitem__`.
- Floating point is not modelled. Box coordinates are integers in `Identity.Entity`, observation values are integers in `Anomaly`, and observation data are exact reals in `Observation`.
- Identity.Histories.constructor: the source's `__init__` never creates `histories`, so reading it before the first `update` raises `AttributeError`. The model starts it as the empty map. Nothing in the core reads it.
- Identity.Histories.constructor: the default `history_duration=300` is not modelled, so the duration is always passed.
- Identity.Cost: `math.sqrt` is a parameter `root`. The cost lemmas assume only `root(0) == 0` and `root(z) >= 0`.
- Anomaly.ExceedsIsStdTest: `numpy.std` is characterised without a square root. Sigma is any non-negative real whose square times n is the sum of squared deviations from the mean.
- Anomaly.History.constructor: requires a non-negative threshold. For a negative threshold the squared test is not the source's comparison. The defaults `anomaly_threshold=2` and `memory_duration=300` are not modelled, so both are always passed.
- Anomaly.History.AddObservation: the new observation's flag enters as `False` before the scan, where the source would raise `KeyError` at line 41.
- Anomaly.Samples: second differences are taken of scalar observation values rather than of the observation objects that line 45 passes to `numpy.diff`.
- Anomaly.Scan: `if not second_differential` is read as "no sample". This matches numpy for zero or one sample. For more samples, numpy raises on the truth value of an array.
- Observation.ObservationAttributes.SetMetadata: the source raises `TypeError` at model.py:44 before assigning any range. There, `cls.x_min` goes through the data descriptor, which calls `__get__(None, cls)` and so evaluates `None[0]` (line 16). The model takes the evident intent and gives each descriptor its range. `Observation.Bounds`, `Observation.BoundsShape` and `Observation.TablesAgree` likewise describe that intended class-level table.
- Observation.YoloObservation.constructor: requires at least four input values. With fewer, the source raises `IndexError` while computing the area. With more than seven, the `area` descriptor reads the eighth input value rather than the appended area (see `Observation.SevenValues`).
- Observation.YoloObservation.constructor: the input is an immutable sequence, so the fact that the source does not alter what it was passed holds by construction and is not stated.
- Observation.YoloObservation.constructor: the metadata table is stored as a value. In the source it is a reference to the model's dictionary, which a later `set_metadata` replaces rather than mutates, so the two agree.
