# flickr_downloader, modelled in Dafny

flickr_downloader searches Flickr for a query and downloads the first `n`
photos. Each photo must have a different owner. It tries the license tiers
in a fixed order, from least to most restrictive. Each downloaded file is
recorded with its attribution: author, license and origin. The repository
holds two revisions of this pipeline, and both are modelled:

- **The current one.** `Input.execute` in `execute.go` creates the output
  directory and returns the cached attributed files when there are any
  and no reload is forced.
  Otherwise it:
  - pages through each eligible license tier until a short page, keeping
    the first photo of every new owner name until it has `n`;
  - starts one image download and one detail-record download per photo;
  - reports the first failure in the order the downloads were started;
  - attributes every file.

  The EXIF writer of `exif.go` and the license catalogue of `license.go`
  belong to this revision.
- **The older one.** `Execute` in `flickr_downloader.go` searches the first
  page of each of the eleven tiers in turn, until it has `n` photos or a
  search fails, and deduplicates on the owner id.
  It downloads each photo to `<folder>/<query>_<i>.jpeg`, stamps EXIF tags
  whose copyright string comes from its own table, and returns the first
  error.

Modules, one per concern:

| module | file | what it holds |
|---|---|---|
| `Types` | types.dfy | bytes, paths, `Option`/`Result`, the error kinds, a Flickr photo and its detail record, and the `Disk` (a class whose `files` map the methods update) |
| `Licenses` | license.dfy | the license name, link and description of tiers 0..10 |
| `UniqueOwners` | unique_owners.dfy | `Extend`, the keep-first-photo-of-each-new-owner step that both revisions share, with its algebra |
| `Discovery` | discovery.dfy | the paging discovery of `execute.go`: a specification over the stream of searches, and the imperative loops proved against it |
| `Exif` | exif.dfy | the tags of exif.go and the fallible chain of library steps that rewrites the JPEG |
| `Execute` | execute.dfy | the attribution record, `execute` as a specification function, and the imperative `Execute` with its download and attribution loops |
| `Legacy` | legacy.dfy | the older `Execute`: discovery, copyright table, file names, download and error collection |

Flickr, HTTP, the file system's directory calls, the attribution store, the
clock, uuid generation and the JPEG/EXIF library are oracles. They are
function-valued fields of `Execute.Env`, `Legacy.Services` and
`Exif.ExifLib`, and the disk's contents are a `map<Path, Bytes>`. Discovery
in `execute.go` pages until the provider runs out. The model states that
as an explicit hypothesis, `Discovery.Exhausts`: for each eligible tier, a
page number `last(t)` whose search fails or is short. The hypothesis covers
every eligible tier, including tiers a run never reaches because it stops
at `n` photos first. A search service that never runs out in some tier
therefore falls outside the discovery statements, even when the source
would stop before that tier. Every statement about the current discovery
holds under that hypothesis. `execute` needs it only when it reaches the
search (`Execute.Searches`). A directory error, a cache-read error or a
cache hit is specified for every search service and every count.

## Model

| member | source | states |
|---|---|---|
| Licenses.LicenseName | license.go:12-38 | every known tier 0..10 has a non-empty name |
| Licenses.LicenseLink | license.go:40-66 | the link is empty exactly for tier 0 (All Rights Reserved) |
| Licenses.LicenseDescription | license.go:8-10 | the description is the name, then " (", then the link, then ")", each at its position |
| Licenses.NamesDistinct | license.go:12-38 | different tiers have different names |
| Licenses.LinksDistinct | license.go:40-66 | different tiers have different links |
| Licenses.CreativeCommonsLinks | license.go:44-55 | tiers 1..6 link under https://creativecommons.org/licenses/ |
| Licenses.CreativeCommonsVersion | license.go:44-55 | tiers 1..6 link to version 2.0 of their license |
| Licenses.AllRightsReservedDescription | license.go:8-15 | tier 0's description is "All Rights Reserved ()", with an empty pair of parentheses |
| UniqueOwners.KeysAppend | execute.go:114-122 | proof helper: the owners of a concatenation are the union of the owners |
| UniqueOwners.ExtendKeys | execute.go:114-122 | keeping new owners yields exactly the old owners plus those of the new photos |
| UniqueOwners.ExtendKeepsPrefix | execute.go:114-122 | photos already kept stay in place; at most one photo is added per input photo |
| UniqueOwners.ExtendDistinct | execute.go:114-122 | kept photos have pairwise-distinct owners |
| UniqueOwners.ExtendAppend | execute.go:100-128 | processing two pages one after the other is processing their concatenation |
| UniqueOwners.ExtendSelectsFirsts | execute.go:114-122 | what is added is exactly the first photo of each owner not seen yet, in input order (the independent reference `Firsts`) |
| UniqueOwners.ExtendMonotone | execute.go:114-122 | processing a prefix of a page keeps a prefix of the result |
| UniqueOwners.ExtendStep | execute.go:115-119 | one more photo is kept exactly when its owner is new |
| Discovery.BatchSize | execute.go:84-90 | the page size is 1 for n <= 1, 100 for 2..5 and 500 above |
| Discovery.SearchedTiersAppend | execute.go:94-97 | skipping tier 0 distributes over concatenation |
| Discovery.SearchedTiersWithoutZero | execute.go:94-97 | only tier 0 is ever skipped |
| Discovery.PreferredOrder | execute.go:79-97 | the tiers searched are 4, 5, 2, 1, 7, 6, 3, 9, 10, 8, then 0 only when All Rights Reserved is opted in |
| Discovery.TierFetches | execute.go:98-101 | a tier's searches start with page `page` of that tier |
| Discovery.PageStep | execute.go:100-128 | after a page: an error stops everything; a full page moves to the next page; a short page ends the tier |
| Discovery.ConsumeFailure | execute.go:105-107 | a failed search ends discovery with that error, as the last search |
| Discovery.ConsumeShort | execute.go:114-128 | a page that leaves fewer than n owners continues with the extended result |
| Discovery.ConsumeComplete | execute.go:120-121 | a page that reaches n owners returns the first n kept photos and stops |
| Discovery.FullPrefix | execute.go:118-121 | proof helper: a kept prefix equals the first elements of the longer result |
| Discovery.StoreIfNew | execute.go:115-119 | the array's filled prefix grows by the photo exactly when its owner is new, and the owner set stays the set of owners in the prefix |
| Discovery.KeepNewOwners | execute.go:114-124 | the inner loop leaves the array's prefix equal to `Extend` of the page, cut at n when it fills up |
| Discovery.FindUniqueOwnerPhotos | execute.go:81-133 | the imperative discovery returns the result, and makes the searches, of the specification `Discover` |
| Discovery.SearchTiers | execute.go:94-132 | the tier loop equals consuming the stream of searches from the start |
| Discovery.SearchTier | execute.go:98-129 | one tier's page loop either finishes discovery as the specification says or leaves the stream at the next tier with the invariant intact |
| Discovery.StartsAppend | execute.go:94-99 | tier starts (page-1 searches) distribute over concatenation |
| Discovery.StartsPrefix | execute.go:94-99 | a prefix of the searches starts a prefix of the tiers |
| Discovery.TierShape | execute.go:98-128 | a tier's searches are pages p, p+1, ... of that tier, all full but the last |
| Discovery.TierStarts | execute.go:98-99 | a tier is started once, at page 1 |
| Discovery.TierWalk | execute.go:98-128 | a tier's searches are a valid page walk answered by the search service |
| Discovery.WalkAppend | execute.go:94-129 | a walk that ends a tier can be followed by the next tier's walk |
| Discovery.StreamWalk | execute.go:94-129 | the whole stream is a valid walk over the eligible tiers only |
| Discovery.StreamStarts | execute.go:79-99 | the stream starts tiers in preferred order, and all of them when nothing fails |
| Discovery.PhotosPrefix | execute.go:108-113 | the photos of a prefix of the searches are a prefix of all photos |
| Discovery.ExtendLength | execute.go:114-122 | seeing more photos never keeps fewer |
| Discovery.ConsumeSearches | execute.go:100-107 | the searches made are a prefix of the stream, and only the last one can fail |
| Discovery.ConsumeResult | execute.go:114-132 | a successful result is a prefix of the owners kept from the searches made, n long unless the stream ran out |
| Discovery.ConsumeStops | execute.go:120-121 | discovery stops at the first search that completes n owners |
| Discovery.ConsumeSpec | execute.go:94-132 | the combination of the three lemmas above, from the start of the stream |
| Discovery.DiscoverWalk | execute.go:79-133 | discovery's searches follow the preferred tier order, page by page, and never touch tier 0 unless it is opted in |
| Discovery.DiscoverUniqueOwners | execute.go:114-132 | the result has at most n photos with distinct owner names: the first photo of each new owner, in search order |
| Discovery.DiscoverStopsAtN | execute.go:120-132 | the result has exactly n photos unless every tier was exhausted, and then it is the first photo of every owner seen; no earlier search had reached n owners |
| Discovery.DiscoverFailure | execute.go:105-107 | discovery fails exactly when a search failed, with that search's error |
| Exif.ArtistTag | exif.go:31-33 | Artist is the real name followed by " (on flickr @<user name>)" |
| Exif.CopyrightTag | exif.go:37-39 | Copyright starts with the license name |
| Exif.ExifTags | exif.go:31-54 | the copyright value is the license description exactly for a known tier, and otherwise the `UnknownLicense` error where the lookup panics; the date tag stamps the upload time |
| Exif.TagsDependOnInfoOnly | exif.go:49-54 | the tags depend on the detail record only, never on the download time |
| Exif.Lines | exif.go:44 | splitting at line feeds always yields at least one line |
| Exif.LinesAppend | exif.go:44 | a line-feed-free prefix followed by a line feed is the first line |
| Exif.LinesSingle | exif.go:44 | a line-feed-free string is one line |
| Exif.DescriptionRoundTrip | exif.go:43-45 | the description tag splits back into title, description and URL |
| Exif.Plan | exif.go:15-67 | ten library steps in the source's order, with the overwrite last and only there |
| Exif.Rewrite | exif.go:15-67 | a successful rewrite has made every step, and a rewrite past the Copyright step had a copyright value |
| Exif.SetTags | exif.go:31-57 | the tag steps are steps 4 to 7, and passing step 5 needs a copyright value |
| Exif.WriteBack | exif.go:58-67 | the write-back steps are 8 to 10, and success makes all ten |
| Exif.AfterStaysFailed | exif.go:15-67 | once a step fails, no later step runs |
| Exif.RewriteFollowsPlan | exif.go:15-67 | `Rewrite` agrees with the plan run step by step (`After`): every step before the last one made succeeded, a failure is the error of the last step made, and a success is what the overwrite wrote |
| Exif.TagsFollowPlan | exif.go:31-57 | `RewriteFollowsPlan` for the tag steps, starting from the IFD0 builder |
| Exif.WriteBackFollowsPlan | exif.go:58-67 | `RewriteFollowsPlan` for the write-back steps |
| Exif.CopyrightFailsAtItsStep | exif.go:37-42 | an unknown tier fails the rewrite. It fails at the Copyright step exactly when parsing, both builder steps and the Artist tag succeeded; otherwise the earlier error is reported |
| Exif.OverwriteLast | exif.go:58-67 | the overwrite is among the steps made exactly when the nine steps of the plan before it all succeeded |
| Exif.SetExifMetadata | exif.go:13-68 | the method returns the rewrite's error and changes the disk only on success, only at the JPEG's path |
| Execute.MakeAttribution | execute.go:236-250 | every field of the attribution record: author, author URL, license name and link, upload time, context and origin |
| Execute.AttributionMatchesCopyright | execute.go:245-246 | the attribution's license and URL are exactly what the EXIF copyright tag encodes |
| Execute.OutputDir | execute.go:28-31 | the output directory is the one given, or /memo/flickr_downloader/<query> |
| Execute.FilePaths | execute.go:52-56 | one path per photo, the i-th made from the i-th fresh id |
| Execute.Outcomes | execute.go:51-58 | two outcomes per photo |
| Execute.OutcomesAt | execute.go:57-58 | outcome 2i is photo i's image download and 2i+1 its detail download |
| Execute.FirstError | execute.go:60-65 | no error exactly when every outcome succeeded; otherwise the first failing outcome's error |
| Execute.Downloaded | execute.go:230 | each photo carries its detail record exactly when the detail download succeeded |
| Execute.AttributeAt | execute.go:68 | attributing succeeds exactly when the tier is known and the attribution store accepts the record |
| Execute.CollectSuccess | execute.go:66-73 | a collected success holds every attempt's value, in order |
| Execute.CollectFailure | execute.go:69-71 | a collected failure is the first failing attempt |
| Execute.CollectStep | execute.go:67-73 | one more loop step appends the attempt's value or stops with its error |
| Execute.CollectStops | execute.go:69-71 | after a failure, later attempts change nothing |
| Execute.Attempts | execute.go:67-68 | the i-th attempt attributes the i-th path with the i-th photo at the i-th clock reading |
| Execute.AttributedMeaning | execute.go:66-75 | attribution succeeds iff every file is attributed, returning them in order; otherwise it fails with the first failure |
| Execute.CacheShortCircuit | execute.go:41-44 | non-empty cached files without a forced reload are returned as they are, for any search service and count, without any search or disk change |
| Execute.AcquireOnePerPhoto | execute.go:50-75 | on success there is one attributed file per photo, and each photo's downloads, tier and attribution succeeded |
| Execute.AcquireFirstFailure | execute.go:60-65 | a failing download makes execute fail with the first failing outcome in start order |
| Execute.SavedFiles | execute.go:172-196 | each downloaded image is on disk at its path, and no other path changes |
| Execute.Execute | execute.go:21-76 | the imperative execute returns exactly what the specification `ExecuteSpec` gives, and leaves the disk as it gives. The count and exhaustion hypotheses are needed only when it searches |
| Execute.SearchAndDownload | execute.go:46-75 | after the cache check: a search error, or downloads and attribution, as specified |
| Execute.AcquireFiles | execute.go:50-75 | download, outcome check and attribution as the specification `Acquire` gives |
| Execute.StartDownloads | execute.go:50-59 | the outcome array, the file paths, the updated photos and the disk after the start loop |
| Execute.StartDownload | execute.go:53-58 | one iteration keeps the start loop's invariant |
| Execute.DownloadStep | execute.go:53-58 | one more photo adds its two outcomes and its saved image |
| Execute.DownloadJpg | execute.go:172-196 | the error is the fetch's error, and the file is written exactly on success |
| Execute.DownloadInfo | execute.go:198-234 | the error is the fetch's error, and only photo i gets its detail record, exactly on success |
| Execute.FirstFailure | execute.go:60-65 | the loop returns `FirstError` of the outcomes |
| Execute.AttributeFiles | execute.go:66-75 | the loop returns `Attributed` of the paths and photos |
| Legacy.OldBatchSize | flickr_downloader.go:104-110 | the page size is 1 for n <= 1, 10 for 2..5 and 25 above |
| Legacy.HasUniqueOwnerMeaning | flickr_downloader.go:128-135 | the owner is unique exactly when no kept photo has the same owner id |
| Legacy.HasUniqueOwnerKeys | flickr_downloader.go:128-135 | the owner is unique exactly when its id is not among the kept owners |
| Legacy.AppendNewOwners | flickr_downloader.go:116-120 | the append loop is `Extend` keyed on the owner id |
| Legacy.OldFindUniqueOwnerPhotos | flickr_downloader.go:99-126 | the imperative discovery returns what `OldDiscover` gives over all eleven tiers |
| Legacy.OldSearchTiers | flickr_downloader.go:112-125 | the tier loop equals the specification `OldConsume` from the first tier |
| Legacy.OldConsumeSearched | flickr_downloader.go:112-125 | the tiers searched are a non-empty prefix of the tier list, and all of it when fewer than n photos were found without error |
| Legacy.OldConsumeOwners | flickr_downloader.go:116-123 | at most n photos, with distinct owner ids |
| Legacy.OldConsumeOrder | flickr_downloader.go:112-125 | the photos are the first-of-each-owner selection over the tiers searched: all of it, or its first n |
| Legacy.OldConsumeStops | flickr_downloader.go:112-123 | every run of tiers searched before the last one left fewer than n photos: the loop stops at the first tier that completes n |
| Legacy.OldConsumeFailure | flickr_downloader.go:113-115 | an error is the last searched tier's search error |
| Legacy.OldDiscoverSpec | flickr_downloader.go:99-126 | the searched-tiers, owner, order and failure facts above, for the discovery as a whole |
| Legacy.OldDiscoverStops | flickr_downloader.go:99-126 | the discovery returns every first-of-owner photo of the searched tiers unless it reaches n, and it searched no tier past the one that completed n |
| Legacy.CopyrightMatchesCatalogue | flickr_downloader.go:353-372 | for tiers 1..10 the old copyright string is the license description of license.go |
| Legacy.CopyrightAllRightsReserved | flickr_downloader.go:351-352 | tier 0's old copyright string is the bare name, without the "()" of the current description |
| Legacy.OldTags | flickr_downloader.go:311-333 | Artist, ImageDescription and DateTime as in exif.go; Copyright from the old table for a known tier, the `UnknownLicense` error otherwise |
| Legacy.OldTagsAgree | flickr_downloader.go:318 | the old tags equal the current ones exactly for tiers other than 0 |
| Legacy.Decimal | flickr_downloader.go:89 | the index in the file name is a non-empty string of decimal digits |
| Legacy.DecimalRoundTrip | flickr_downloader.go:89 | the decimal index parses back to the index |
| Legacy.ImagePath | flickr_downloader.go:80-90 | the image path is "<folder>/<query>_", then the decimal index, then the ".jpeg" that `download` appends (flickr_downloader.go:214) |
| Legacy.ImagePathInjective | flickr_downloader.go:80-90 | different photos get different image paths |
| Legacy.DownloadTouchesOneFile | flickr_downloader.go:213-258 | a download writes only its own .jpeg path |
| Legacy.DownloadSucceeds | flickr_downloader.go:213-347 | a download succeeds exactly when the image and details are fetched, the tier is known and the EXIF rewrite succeeds. An unknown tier fails the rewrite at its Copyright step, after the parse, the builders and the Artist tag (see `Exif.CopyrightFailsAtItsStep`). After a success, the image file holds the rewritten image |
| Legacy.OldDownload | flickr_downloader.go:213-292 | the imperative download equals the specification `DownloadSpec` |
| Legacy.DownloadAll | flickr_downloader.go:88-90 | one outcome per photo |
| Legacy.DownloadAllFiles | flickr_downloader.go:88-90 | downloading every photo changes no file other than their image paths |
| Legacy.DownloadAllSaves | flickr_downloader.go:88-90 | once every photo is downloaded, photo k whose download succeeded is at "<folder>/<query>_k.jpeg", holding its image with the rewritten EXIF block |
| Legacy.OldExecute | flickr_downloader.go:79-97 | the imperative `Execute` returns the discovery error, or the first download error, and leaves the disk as `OldExecuteSpec` gives |
| Legacy.OldExecuteWritesImagesOnly | flickr_downloader.go:79-97 | `Execute` leaves unchanged every file that is not one of its image paths |
| Legacy.OldExecuteSaves | flickr_downloader.go:79-97 | when `Execute` reports no error, every discovered photo i is at "<folder>/<query>_i.jpeg", holding its image with the rewritten EXIF block |

## Left out

- Network, HTTP and XML decoding: searches, image fetches and detail fetches are oracle functions returning a value or an error.
- Goroutines and channels: the downloads run one after another in start order.
  - For `execute.go` this changes no result, because the outcomes are read in start order.
  - The older `Execute` reads them in arrival order and returns whichever error comes first. The model returns the first error by photo index.
  - Inside the older `download`, the model checks the image fetch before the detail fetch, which is one of the orders the channel allows.
- The JPEG/EXIF library is an oracle (`Exif.ExifLib`). Timestamp formatting and its local time zone are the oracle `stamp`.
- `time.Now()` and `uuid.New()` are the oracles `clock` and `newId`. Collisions between fresh ids are not excluded.
- Verbose printing, the API key and the command line are not modelled. The exception is the command line's rule that n <= 0 becomes 1 (cli/cli.go:59-62, flickr_downloader.go:54-57), which is why the current discovery requires n >= 1 and the older one n >= 0. With n = 0 the current discovery would index an empty slice (execute.go:91,118), and the older one slices with a negative bound for n < 0 (flickr_downloader.go:122).
- Discovery.FindUniqueOwnerPhotos: on a search error, Go also returns the half-filled result slice, with nil entries. `execute` discards it, so the model returns only the error.
- An unknown license number panics in Go.
  - The pure lookups (`Licenses.*`, `Exif.CopyrightTag`, `Legacy.CopyrightString`) require a known tier.
  - Where the tier comes from Flickr, the panic is modelled as the error `UnknownLicense`, raised where the lookup runs. In attribution that is before the attribution store is called. In EXIF stamping it is at the Copyright step, after the parse, the builders and the Artist tag.
- A partially written file after a failed create or copy is not modelled: a failed image download leaves the disk unchanged.
- Exif.SetExifMetadata: a failed final overwrite leaves the file as it was in the model. `ioutil.WriteFile` truncates before it writes, so the file can actually end up empty or partial. The same holds for the older download's EXIF rewrite (`Legacy.OldDownload`).
- Directory creation is an oracle that may fail; directories themselves are not modelled. The older `Execute` ignores the `MkdirAll` error (flickr_downloader.go:81), and so does its model.
- `Input.ForceReload` and `Output.Files` are used by execute.go but missing from interface.go's declarations. The model follows execute.go.
- Discovery termination is the hypothesis `Discovery.Exhausts`: the provider eventually returns a short page or an error for each eligible tier. This includes tiers that a run which stops at n never reaches; such runs are not covered.
- `execute` never calls the EXIF writer of exif.go. The writer is modelled on its own.
- The two discovery revisions share `UniqueOwners.Extend`, but no lemma relates their results. They differ in page size, paging, the tier-0 rule and the owner key.
- The comment above the DateTime tag speaks of the download time, but both revisions stamp the upload time (`DateUploaded`). The model follows the code, and `Exif.TagsDependOnInfoOnly` states it.
