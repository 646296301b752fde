# Verified model of the cloud provider exporter

This Dafny project models the parts of the exporter whose correctness is hard to see from the code: the AWS
CloudWatch pipeline with its nested goroutines, the conversion to Prometheus samples, the backoff loop, the AWS
quota and health collectors, and the three backup bucket collectors. `dafny verify dfyconfig.toml` checks all of it.

## How it is modelled

**Goroutines.** `ForkJoin` is a state machine for workers that append to one shared slice under one mutex. An
append is four steps (lock, read the slice, write the longer slice, unlock), wait groups are counters, workers may
start workers, and a schedule is any sequence of steps the program allows. A theorem about all legal schedules is
therefore about every interleaving. Every stage of the pipeline is an instance: page workers, filter workers,
batch workers, and, nested (`Nesting`), job and metric workers. What one worker appends is computed by a method with
the source's loops, proved equal to the function that the instance uses. `Interleaving` puts all stages of all jobs
and metrics into one machine, whose steps mix those of all workers at all levels; that each stage sees a schedule of
its own is a theorem there. The unlocked variable `roundingPeriod` has a machine of its own (`RoundingRace`), in which
comparing and writing are separate steps. The quota cache has its own lock inside `Set`; a `Set` is one append, and
the cache is the fold of the appended writes in their order.

**Heap.** `Queries` has Go 1.18's loop variable as an object, shared by all queries of a worker; `Matching` has the
records that the lookup copies as fresh objects, while the input array is not in any `modifies` clause;
`PromLabels` completes label maps in place, and `Scrape` assigns the collector's metrics.

**Outside the model** are parameters: regular expressions (a match function and group names), tag patterns, the
answers of the AWS services, the random numbers, the clock, and the lower-casing table outside ASCII.

## Main results

- However the steps of all workers at all levels interleave, whatever ids are drawn and in whatever order answers
  arrive, `collectData` returns the records of a sequential reference up to order and ids
  (`Interleaving.EveryInterleaving`), and the collector ends with the metrics of that reference up to order
  (`Scrape.MetricsCollector.Scrape`). No interleaving gets stuck.
- In terms of the inputs alone: whatever the interleaving, every collected record is about a listed metric, a configured
  statistic and a tagged resource whose ARN captures one of the metric's dimensions, with the fields of these three
  (`Provenance.InterleavedIsAsked`), and for every such metric and statistic everything that the service answers is
  collected (`Provenance.AskedIsCollectedInterleaved`).
- The condition for it is exact. A metric's value may be captured from several resources; the resources the metric can
  be given to are exactly the first ones of the pages (`Discovery.PossibleOwners`), so all runs give it to one resource
  if and only if the pages that have a candidate have the same one first (`Discovery.OwnerIndependence`), and all runs
  discover the same records if and only if those candidates look the same in a record (`Discovery.DiscoveryIndependence`).
- What a program of workers can return, nested or not, is exactly the shuffles of their lists
  (`ForkJoin.OutputsAreShuffles`). Every schedule is finite, none deadlocks, and the function returns only when all
  workers at all depths have ended.
- All queries of a batch alias one period cell; each shows its own record's period exactly when that equals the
  last one's, which holds for batches as they are built. The unlocked minimum is exact for one worker, a batch
  never has two, and several workers keep it if and only if their periods below 300 agree
  (`RoundingRace.MinimumIsKeptIffSmallPeriodsAgree`).
- Half a period back and rounding to nearest is rounding down; the window is as wide as asked for exactly when the
  offset of its start fits an int64 (`Window.WindowPlacement`).
- The tag count is the universal test for all filters if and only if no tag key is repeated
  (`Resources.CountIsUniversalIffKeysDistinct`). AWS keeps one value for a key of a resource, so the tagging service has
  no reason to report a key twice; nothing in the repository states or checks it.
- The backoff loop can panic on an empty jitter range; the condition under which no run does is exact for every first
  sleep (`Retry.NoPanicIsExact`), and weaker than room for `maxAttempts - 1` triplings (`Retry.TriplingsSuffice`).
- Whatever the quota workers measure, all schedules end in one cache if and only if at most one quota code is missing
  (`Quota.ScrapeIndependence`): codes that AWS does not list all write under the empty key, which the code does not
  guard against.

## Model

| member | source | states |
|---|---|---|
| ForkJoin.Conservation | pkg/cloud/aws/monitor/aws_monitor.go:100-136 | For every complete schedule of a forest of workers: all have ended, the mutex is free, and the returned slice is all blocks of all workers, each whole, in some order |
| ForkJoin.NoDeadlock | pkg/cloud/aws/monitor/aws_monitor.go:100-136 | In every reachable state before the return some worker, or the collecting function, can move |
| ForkJoin.ScheduleLength | pkg/cloud/aws/monitor/aws_monitor.go:100-136 | Schedules are bounded in length, and complete exactly when that many actions were taken |
| ForkJoin.CanComplete | pkg/cloud/aws/monitor/aws_monitor.go:100-136 | Every legal schedule, however it began, can be carried on to the return |
| ForkJoin.OutputsAreShuffles | pkg/cloud/aws/monitor/aws_monitor.go:100-136 | The slices that a program of workers can return, nested or not, are exactly the shuffles of the workers' lists of blocks: each worker's blocks in their order, between those of the others |
| ForkJoin.LogIsMerged | pkg/cloud/aws/monitor/aws_monitor.go:298-318 | After every legal schedule, complete or not, the slice is the merge of what the workers have written, in the order of the writes |
| ForkJoin.EveryOrderHappens | pkg/cloud/aws/monitor/aws_monitor.go:290-324 | In particular the workers' whole lists may come one after the other in any order |
| ForkJoin.InvAfter | pkg/cloud/aws/monitor/aws_monitor.go:126-128 | Inductive invariant: mutual exclusion, no stale copy of the slice while it is in use, wait groups count live children, parents outlive children |
| Batching.BatchesCut | pkg/cloud/aws/monitor/aws_monitor.go:294-320 | The batches concatenate to the list, none is empty or too wide, all but the last are full |
| Batching.CutIsUnique | pkg/cloud/aws/health/aws_health.go:121-129 | Those demands determine the batches, so any loop that meets them produces the same ones |
| Batching.BatchElement | pkg/cloud/aws/monitor/aws_monitor.go:154-160 | Element k of batch i is element i * width + k of the list |
| Batching.CutBatches | pkg/cloud/aws/monitor/aws_monitor.go:154-192 | The cutPoint loop produces exactly these batches |
| Resources.FilterThroughTags | pkg/cloud/aws/monitor/resource.go:15-28 | The nested loops decide whether the (tag, filter) pairs with the same key and a matching value number as many as the filters; with distinct tag keys, whether every filter is satisfied |
| Resources.HitsArePairs | pkg/cloud/aws/monitor/resource.go:17-26 | The count is the number of such pairs, counted as a set of positions |
| Resources.CountIsUniversal | pkg/cloud/aws/monitor/resource.go:15-28 | With distinct keys the double sum equals the number of filters if and only if every filter has a tag with its key and a matching value |
| Resources.HitsByFilter | pkg/cloud/aws/monitor/resource.go:17-26 | The double sum may be taken filter by filter instead of tag by tag |
| Resources.CountIsUniversalIffKeysDistinct | pkg/cloud/aws/monitor/resource.go:15-28 | For all lists of filters the count is the universal test, if and only if the tag keys are distinct |
| Resources.RepeatedKeyMiscounts | pkg/cloud/aws/monitor/resource.go:27-27 | For every tag list with a repeated key: filters that are refused although all are satisfied, and filters that are accepted although one is not |
| Resources.MetricTags | pkg/cloud/aws/monitor/resource.go:30-45 | One tag for each exported name in order: the name as key, and as value that of the resource's first tag with the key, or the empty string |
| Resources.TagValueIsFirst | pkg/cloud/aws/monitor/resource.go:36-41 | The value is that of the first tag with the key |
| Resources.PageWorker | pkg/cloud/aws/monitor/aws_monitor.go:222-239 | A page worker appends, in order, the resources of exactly the mappings that pass the filter, with the mapping's ARN and tags and the job's type and region |
| Resources.KeptAreSelected | pkg/cloud/aws/monitor/aws_monitor.go:222-239 | The same for any list of mappings, so also for all pages one after the other: which positions are kept |
| Resources.TaggedUnderAnySchedule | pkg/cloud/aws/monitor/aws_monitor.go:197-245 | For every interleaving of page workers the resources found are a permutation of the sequential answer |
| Index.GetDimensionsFilter | pkg/cloud/aws/monitor/aws_monitor.go:247-270 | The index has a list for exactly the group names, and under each name exactly the captures of groups with that name, each once, with captured value and resource, ordered by expression, resource and group |
| Index.IndexHoldsCaptures | pkg/cloud/aws/monitor/aws_monitor.go:257-267 | The same for every name, listed or not |
| Index.IndexPermuted | pkg/cloud/aws/monitor/aws_monitor.go:257-267 | Another order of the resources gives the same entries under every name |
| Index.FirstMatchFinds | pkg/cloud/aws/monitor/aws_monitor.go:331-342 | A metric finds a resource if and only if one of its dimensions matches an entry |
| Filter.FilterWorker | pkg/cloud/aws/monitor/aws_monitor.go:303-318 | A filter worker appends each metric of its chunk once per matching dimension and entry |
| Filter.JoinCounted | pkg/cloud/aws/monitor/aws_monitor.go:305-316 | The join holds a metric as often as it is listed times the number of matching (dimension, entry) pairs, counted as a set of positions |
| Filter.FilterUnderAnySchedule | pkg/cloud/aws/monitor/aws_monitor.go:290-324 | For every schedule of the chunk workers the result is a permutation of the join, with those counts, and keeps a metric if and only if a dimension matches |
| Records.GetCloudwatchDataFromMetric | pkg/cloud/aws/monitor/aws_monitor.go:326-366 | The loop with its surviving variable: nil is read exactly when the first metric matches nothing and there are statistics; otherwise there is a record for each metric and statistic, in order, and each of its fields is given: the ARN and tags of the resource found last, the configured metric's name, that statistic, the id drawn for it, the metric's dimensions |
| Records.BuiltAreRecords | pkg/cloud/aws/monitor/aws_monitor.go:344-362 | The same for the records as a function of list and index |
| Records.NoStaleOwner | pkg/cloud/aws/monitor/aws_monitor.go:328-342 | Where every metric matches, each record has its own metric's first match, in metric then statistic order |
| Discovery.RunUsesOwnResources | pkg/cloud/aws/monitor/aws_monitor.go:122-124 | After the filter, for every run: no nil, no left-over resource, and exactly metrics times statistics records |
| Discovery.DiscoveredRecords | pkg/cloud/aws/monitor/aws_monitor.go:122-124 | In every run, record i * statistics + k has the fields of filtered metric i, statistic k and the metric's own first match |
| Discovery.PossibleOwners | pkg/cloud/aws/monitor/aws_monitor.go:222-239 | Over all schedules of the page workers, a metric can be given to exactly these resources: for each page, the first one that passed the tag filter and from which the deciding expression captures the metric's value |
| Discovery.OwnerIndependence | pkg/cloud/aws/monitor/aws_monitor.go:335-341 | All runs give a metric to the same resource if and only if the pages that have a candidate have the same one first |
| Discovery.DiscoveryIndependence | pkg/cloud/aws/monitor/aws_monitor.go:197-366 | All runs discover the same records up to order and ids if and only if, for every listed metric, the first candidates of the pages agree in ARN and exported tags (or no statistic is configured) |
| Discovery.DisagreementShows | pkg/cloud/aws/monitor/aws_monitor.go:197-366 | Where they do not agree, two complete runs discover different records |
| Discovery.DiscoveryIsScheduleIndependent | pkg/cloud/aws/monitor/aws_monitor.go:197-366 | Under that condition the records of every run are the sequential ones up to order and ids |
| Discovery.DiscoveryOfUnambiguousResources | pkg/cloud/aws/monitor/aws_monitor.go:197-366 | In particular any two runs discover the same records if no two resources share a captured value under one name |
| Owners.FirstMatchDecided | pkg/cloud/aws/monitor/aws_monitor.go:331-342 | The first match in the index is the first resource found from which the deciding expression captures the value; dimension order and expression order decide, not the order of the resources |
| Owners.OwnerByPosition | pkg/cloud/aws/monitor/aws_monitor.go:331-342 | By position: the owner is the first resource from which the first expression that captures anything captures the value of the first dimension for which anything is captured |
| Owners.CaptureIsOwn | pkg/cloud/aws/monitor/aws_monitor.go:259-265 | A resource's entries lead to it if and only if some group has the dimension's name and captures its value in the resource's ARN |
| Queries.QueryWorker | pkg/cloud/aws/monitor/aws_monitor.go:404-428 | All queries of a worker share one loop variable and so show the last record's period; ids, dimensions and statistics are their own records'; the rounding period becomes the minimum |
| Queries.CreateGetMetricDataInput | pkg/cloud/aws/monitor/aws_monitor.go:391-451 | The request of one batch: its queries, the rounding period (configured, or the minimum of 300 and the periods) and the window |
| Queries.BatchesHaveOneWorker | pkg/cloud/aws/monitor/aws_monitor.go:149-190 | Batches of 20 fit the worker width of 50, so a request has exactly one worker |
| Queries.UnlockedMinimumIsSafe | pkg/cloud/aws/monitor/aws_monitor.go:396-431 | For every schedule of a batch's workers the unlocked variable ends as the minimum of 300 and the batch's periods |
| Queries.BatchHasOnePeriod | pkg/cloud/aws/monitor/aws_monitor.go:344-362 | Every record of every batch of built records has the configured period and a statistic |
| Queries.RequestForBatch | pkg/cloud/aws/monitor/aws_monitor.go:162-165 | Composition: in the request of batch i, query k asks for record 20 * i + k: the configured metric's name, that record's statistic, dimensions and id, and the metric's period; the rounding period is the configured one or the smaller of 300 and the period, and the window follows from it |
| RoundingRace.SingleWorkerIsExact | pkg/cloud/aws/monitor/aws_monitor.go:406-409 | One worker leaves the minimum of the default and all its periods |
| RoundingRace.UniformPeriodsAreExact | pkg/cloud/aws/monitor/aws_monitor.go:406-409 | With equal periods below 300 no schedule of any number of workers goes wrong |
| RoundingRace.MinimumCanBeLost | pkg/cloud/aws/monitor/aws_monitor.go:406-409 | A worker with something to write, but nothing as small as another's period, can overwrite it: some schedule ends above the minimum |
| RoundingRace.MinimumIsKeptIffSmallPeriodsAgree | pkg/cloud/aws/monitor/aws_monitor.go:396-431 | Workers with one period each end at the minimum in all schedules if and only if their periods below 300 agree |
| Window.RoundingIsFloor | pkg/cloud/aws/monitor/aws_monitor.go:454-458 | For every time and every positive period, even or odd, the rounded time is the time minus its remainder |
| Window.RoundedIsGreatestMultiple | pkg/cloud/aws/monitor/aws_monitor.go:454-458 | It is the greatest multiple of the period that is not after now |
| Window.RoundingIsMonotone | pkg/cloud/aws/monitor/aws_monitor.go:453-458 | Later times never round to earlier ones |
| Window.WindowPlacement | pkg/cloud/aws/monitor/aws_monitor.go:453-462 | For all durations: the end lies within one period before now minus delay, and the width is the length if and only if the offset of the start fits an int64 |
| Window.DetermineGetMetricDataWindow | pkg/cloud/aws/monitor/aws_monitor.go:453-462 | Start and end with int64 wrap-around of the durations, placed and as wide as above |
| Window.GetMetricDataInputLength | pkg/cloud/aws/monitor/aws_monitor.go:377-389 | The greatest of the defaulted job length and all metric lengths |
| Window.WindowCoversJob | pkg/cloud/aws/monitor/aws_monitor.go:377-389 | The window is at least as wide as the job and each of its metrics ask for, with the exact overflow condition for all lengths and delays |
| Matching.FindGetMetricDataById | pkg/cloud/aws/monitor/aws_monitor.go:368-375 | A fresh copy of the first record with the id, or nil exactly when there is none |
| Matching.MatchWorker | pkg/cloud/aws/monitor/aws_monitor.go:174-185 | Output records are distinct fresh objects with the matched contents; the input array is not written |
| Matching.NeverCrosses | pkg/cloud/aws/monitor/aws_monitor.go:176-184 | With distinct ids an output is the one record with the result's id, changed in datapoint and timestamp only, both the first ones of the result and both or neither |
| Matching.EveryResultGivesOne | pkg/cloud/aws/monitor/aws_monitor.go:176-184 | Every result gives exactly one such output, from the first record with its id, and none only if no record has the id |
| Matching.ScrapeUnderAnySchedule | pkg/cloud/aws/monitor/aws_monitor.go:148-195 | For every schedule the output is a permutation of whole batch outputs |
| Matching.BatchingIsTransparent | pkg/cloud/aws/monitor/aws_monitor.go:148-195 | Batching, concurrency and matching by id give what asking for each record alone would give, up to order |
| CollectData.CollectConserves | pkg/cloud/aws/monitor/aws_monitor.go:100-136 | For every interleaving of job and metric workers each metric's block is returned exactly once, after all workers have ended |
| CollectData.CollectedComeFrom | pkg/cloud/aws/monitor/aws_monitor.go:100-136 | Every collected record was discovered for a metric of a job and filled from a result with its id |
| CollectData.MetricIsScheduleIndependent | pkg/cloud/aws/monitor/aws_monitor.go:119-129 | One metric's records are the reference up to order and ids, for all schedules of its stages |
| CollectData.CollectIsScheduleIndependent | pkg/cloud/aws/monitor/aws_monitor.go:100-136 | For all schedules of the stages and of the job and metric workers the result is the sequential reference up to order and ids |
| Interleaving.EveryInterleaving | pkg/cloud/aws/monitor/aws_monitor.go:100-136 | For every interleaving of the steps of page, filter, batch, metric and job workers the result is the sequential reference up to order and ids |
| Interleaving.InvAfter | pkg/cloud/aws/monitor/aws_monitor.go:108-129 | Invariant of every interleaving: each stage keeps to its own program, begins after the stage before it has returned, and a metric worker appends only after its stages |
| Interleaving.SomebodyCanMove | pkg/cloud/aws/monitor/aws_monitor.go:100-136 | No interleaving gets stuck before the return, as long as the service answers |
| Provenance.CollectedIsAsked | pkg/cloud/aws/monitor/aws_monitor.go:100-136 | Soundness from end to end: every collected record has the name, statistic, dimensions and target values of a listed metric, ARN and exported tags of a resource on a page that passes the tag filters and in whose ARN a group captures one of those dimensions, and the first datapoint of a result with its own id |
| Provenance.AskedIsCollected | pkg/cloud/aws/monitor/aws_monitor.go:100-136 | Completeness from end to end: for every listed metric, statistic and such a resource, the records with every answer of the service are collected, about that metric and statistic and one such resource |
| Provenance.InterleavedIsAsked | pkg/cloud/aws/monitor/aws_monitor.go:100-136 | Soundness for every interleaving of all workers |
| Provenance.AskedIsCollectedInterleaved | pkg/cloud/aws/monitor/aws_monitor.go:100-136 | Completeness for every interleaving of all workers |
| CollectData.CollectedHaveTimestamps | pkg/cloud/aws/monitor/aws_monitor.go:475-477 | No collected record has a datapoint without a timestamp, which the conversion dereferences |
| PromNames.MatchesAreBoundaries | pkg/cloud/aws/monitor/prome.go:12-12 | Non-overlapping replacement puts a separator at exactly every lower-or-digit to upper boundary |
| PromNames.PromStringIsScan | pkg/cloud/aws/monitor/prome.go:63-66 | The three passes equal one left-to-right scan |
| PromNames.PromStringOfChar | pkg/cloud/aws/monitor/prome.go:14-29 | What becomes of one character: `_percent` for the percent sign, an underscore for the thirteen separators, lower case for any other |
| PromNames.PromStringOfParts | pkg/cloud/aws/monitor/prome.go:63-66 | A text is converted part by part, with an underscore between parts exactly where a lower-case letter or digit meets a capital |
| PromNames.PromStringIsClean | pkg/cloud/aws/monitor/prome.go:14-29 | No ASCII capital and no replaced character is left |
| PromNames.PromStringIsIdempotent | pkg/cloud/aws/monitor/prome.go:63-66 | A second application, and the extra lower-casing of the name, change nothing |
| PromNames.PlainNamesAreValid | pkg/cloud/aws/monitor/aws_monitor.go:487-491 | Names built from letters, digits, underscores and replaced characters fit the grammar of the Prometheus data model, section "Metric names and labels" |
| PromNames.CleanPartsAreJoined | pkg/cloud/aws/monitor/aws_monitor.go:487-491 | Namespace, metric and statistic that need no conversion are joined in this order, behind `cpe_aws_` unless the namespace starts with `aws` |
| PromNames.PartsAreConverted | pkg/cloud/aws/monitor/aws_monitor.go:487-491 | Other parts give the name of their converted forms |
| PromLabels.CreatePrometheusLabels | pkg/cloud/aws/monitor/prome.go:81-100 | Name, region and account id are the record's; each dimension, custom tag and tag that is the last with its normalised key has its value under it with the prefix; there is no other label |
| PromLabels.FamiliesAreSeparate | pkg/cloud/aws/monitor/prome.go:81-100 | For all inputs the families are disjoint, hold the last source value of each normalised key, and the count is 3 plus the distinct keys per family |
| PromLabels.RecordLabelsForMetric | pkg/cloud/aws/monitor/prome.go:68-79 | The keys seen for a name grow by the sample's keys, in whatever order the map is read |
| PromLabels.ExportStatistic | pkg/cloud/aws/monitor/aws_monitor.go:468-501 | A datapoint is always exported, with its value and timestamp, the timestamp included if and only if the record asks for it; a record without a datapoint becomes NaN without timestamp, or nothing if it asks for the timestamp |
| PromLabels.RecordSamplesAre | pkg/cloud/aws/monitor/aws_monitor.go:468-501 | One such sample for each statistic, in order, with the name of that statistic |
| PromLabels.CreatePrometheusMetricsFromCwData | pkg/cloud/aws/monitor/aws_monitor.go:464-507 | The metrics are distinct fresh objects showing the samples in order, and all their label keys are recorded per name |
| PromLabels.EnsureLabelConsistencyForMetrics | pkg/cloud/aws/monitor/aws_monitor.go:509-518 | Every metric's map is updated in place to its old labels and an empty value for each missing key |
| PromLabels.ScrapeMetrics | pkg/cloud/aws/monitor/aws_monitor.go:138-146 | Building and completing in place refine the completion of the sample list |
| PromLabels.CompletedAgree | pkg/cloud/aws/monitor/aws_monitor.go:509-518 | Samples of one name end with the same keys, the union of what they had |
| PromLabels.CompletedKeeps | pkg/cloud/aws/monitor/aws_monitor.go:509-518 | Every original value is kept, every added value is empty, and nothing but labels changes |
| PromLabels.CompletionIsIdempotent | pkg/cloud/aws/monitor/aws_monitor.go:509-518 | A second pass changes nothing |
| Scrape.CompletionIsOrderIndependent | pkg/cloud/aws/monitor/aws_monitor.go:509-518 | The order of the samples changes the order of the completed ones, nothing else |
| Scrape.EveryStatisticIsExported | pkg/cloud/aws/monitor/aws_monitor.go:138-146 | Every statistic of every record with a datapoint, or without one and without the wish for a timestamp, is exported with these fields and nothing but empty labels added |
| Scrape.EveryExportIsOfARecord | pkg/cloud/aws/monitor/aws_monitor.go:138-146 | And nothing else is exported |
| Scrape.MetricsCollector.Scrape | pkg/cloud/aws/monitor/aws_monitor.go:138-146 | After any interleaving the collector's metrics are fresh objects that show what is exported for the sequential reference, up to order; no sample shows a random id |
| Retry.RetryOnErr | pkg/errorutil/retry.go:24-47 | Calls, sleeps and result for every jitter drawn: the last error if and only if attempts were allowed and all failed; the uint8 counter does not wrap even at 255; a jitter range that is empty panics |
| Retry.BackoffBounds | pkg/errorutil/retry.go:37-43 | For every jitter sequence, as long as the sleeps fit an int64, each sleep and the total lie between the powers of two and of three |
| Retry.RetrySafely | pkg/errorutil/retry.go:24-47 | Unless a range can be empty no run panics, it returns an error if and only if all attempts failed, and that is the last one; sleeps that fit keep the bounds |
| Retry.NoPanicIsExact | pkg/errorutil/retry.go:37-37 | For every first sleep: no jitter sequence leaves an empty range for the next draw if and only if that condition holds |
| Retry.RangeNeverEmptyIffPeakFits | pkg/errorutil/retry.go:37-43 | No sequence of up to n draws leaves an empty range if and only if the peak after n draws fits an int64 |
| Retry.TriplingsSuffice | pkg/errorutil/retry.go:24-47 | With room for maxAttempts - 1 triplings nothing panics, wraps or leaves the bounds |
| Retry.NeverWrapsIffPeakFits | pkg/errorutil/retry.go:37-43 | No jitter sequence wraps an int64 if and only if the peak fits |
| Retry.PeakClosedForm | pkg/errorutil/retry.go:37-43 | The peak in closed form: its excess over one triples |
| Quota.InitialQuotaList | pkg/cloud/aws/quota/aws_quota.go:197-212 | The global map takes the last listed quota of each code of interest, keeps what it had for every other code, and keeps mapping codes to quotas with that code |
| Quota.ResolvedIsFaithful | pkg/cloud/aws/quota/aws_quota.go:204-209 | Codes stay their own keys, every listed code of interest is resolved, nothing else enters |
| Quota.CacheIndependence | pkg/cloud/aws/quota/aws_quota.go:244-461 | For given writes, the cache is the same for all schedules if and only if writes under one key agree |
| Quota.ScrapeIndependence | pkg/cloud/aws/quota/aws_quota.go:244-461 | Whatever the workers are going to measure, the cache is the same for all schedules if and only if at most one code is missing from the map |
| Quota.ResolvedScrape | pkg/cloud/aws/quota/aws_quota.go:244-461 | With at most one code missing every interleaving ends in one cache: for each listed code what was measured, with that quota's limit, name and unit; the usage alone under the empty key for the missing one; everything else as before |
| Quota.UnresolvedCodesCollide | pkg/cloud/aws/quota/aws_quota.go:459-459 | Two missing codes with different readings: schedules end in different caches |
| Health.HealthCollector.Collect | pkg/cloud/aws/health/aws_health.go:77-154 | For every tuple of label values the event vector counts the events that have these values in these fields, the closed and open vectors the closed and open events by category, zone and service, the entity vector the returned entities with their event's region, whatever earlier runs left; nothing is emitted without events |
| Health.HealthCollector.CountEvents | pkg/cloud/aws/health/aws_health.go:108-129 | The flush-at-ten loop hands over the events' ARNs in order, ten at a time, and the region map gives each ARN its last event's region |
| Health.TotalIsCount | pkg/cloud/aws/health/aws_health.go:111-113 | The counters of a vector sum to the number of increments |
| Health.CountersConserve | pkg/cloud/aws/health/aws_health.go:110-149 | The vectors sum to the events, the closed and open events and the entities returned |
| Buckets.CollectS3 | pkg/cloud/aws/vault_bucket/vault_backup_bucket.go:65-113 | For every split into pages: count, sum and greatest size of the objects and the first of those modified last, or the failure flag alone |
| Buckets.CollectOSS | pkg/cloud/alicloud/vault_backup_bucket.go:63-118 | The same for the marker loop, and failure for a missing bucket |
| Buckets.CollectGCS | pkg/cloud/gcp/vault_backup_bucket.go:74-115 | The same for the iterator, with the first of those created last |
| Buckets.SummaryIsUnique | pkg/cloud/aws/vault_bucket/vault_backup_bucket.go:81-91 | Count, int64 sum, first newest object and greatest size determine the summary |
| Buckets.PagingIndependence | pkg/cloud/alicloud/vault_backup_bucket.go:83-98 | Any two splits, and the iterator when the two times agree, give the same report |

## Left out

- SDK clients, authentication, HTTP, Vault, configuration loading, logging and the registry: plumbing around the modelled logic; paginators are finite sequences of pages, and error paths that end the process are not modelled.
- The regular expression engine, except the one expression and the replacer in `promString`; a filter value that does not compile makes the source dereference nil, and the match function here is total.
- Queries.CreateGetMetricDataInput: takes at most 50 records, because its only caller passes at most 20 (`Queries.BatchesHaveOneWorker`); what a second worker would do to the rounding period is in `RoundingRace`, the order of its queries is not modelled.
- RoundingRace: Go gives a data race no meaning; the machine is sequentially consistent.
- Matching.MatchWorker: requires that the service sends a timestamp with every value, because the source indexes both lists.
- Interleaving.EveryInterleaving: takes as hypotheses that random ids are distinct and that the service's answer to a query depends on neither its id nor the window of the request, which moves with the clock.
- Provenance.AskedIsCollected: the same hypotheses; which of several resources the record is about, `Discovery.PossibleOwners` says.
- CollectData.CollectIsScheduleIndependent: the same hypotheses, and one schedule for each stage; `Interleaving` derives these from one interleaving.
- Scrape.MetricsCollector.Scrape: is handed the records that an interleaving of the workers collects, instead of starting them.
- Quota.ScrapeIndependence: takes the first three codes as listed (a worker of theirs crashes otherwise), and quantifies over all measurements, also those of accounts whose route tables are not counted.
- RoundingRace.MinimumIsKeptIffSmallPeriodsAgree: workers whose records have several periods are covered by the two lemmas beside it, not by an exact condition; records of one call have one period.
- Floating point: sample values are integers or NaN, object counts are natural numbers, the limit and usage of a quota are integers.
- `Retry.RetryOnErr` stands for `RetryOnErrWithLog` too, which has the same loop and logs before it returns the error.
- The values that quota workers measure are parameters (`None` when a worker leaves without writing); cache expiry, and the crash of the first three workers on a quota without a usage metric, are not modelled.
- The conversion of bucket times to seconds, and the nanosecond value of the zero time.
- The Azure bucket collector, GCP, Alicloud and Azure quota and health: straight mappings, or nothing strong holds.
