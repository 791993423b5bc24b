/** The current entry point (execute.go, `execute`): resolve the output
    directory, return the cached files when there are any, otherwise
    discover photos of distinct owners, download each image and detail
    record, and attribute every downloaded file.

    Everything outside the core is an oracle in `Env`: directory creation,
    the attribution store (reading cached files and attributing a new one;
    `P` is its file pointer), the search endpoint, the uuid generator, the
    image and detail downloads, and the clock. The downloads, which the
    source runs concurrently, are made one photo at a time here. */
module Execute {
  import opened Types
  import opened Licenses
  import opened Discovery

  /** The options `execute` reads. The API key and the verbose flag only
      reach the network and the log, so they are left out. */
  datatype Input = Input(
    query: string,
    numberOfImages: int,
    includeAllRightsReserved: bool,
    outputDir: Path,
    forceReload: bool)

  /** The attribution record stored with every downloaded file. Instants are
      seconds since the Unix epoch. */
  datatype Attribution = Attribution(
    originUrl: string,
    collectedAt: int,
    originalTitle: string,
    author: string,
    authorUrl: string,
    license: string,
    licenseUrl: string,
    createdAt: int,
    context: seq<string>,
    scrapingMethodology: string)

  /** The services `execute` calls. */
  datatype Env<P> = Env(
    mkdirAll: Path -> Option<Error>,
    readCache: Path -> Result<seq<P>>,
    search: Search,
    newId: nat -> string,
    fetchJpg: Photo -> Result<Bytes>,
    fetchInfo: Photo -> Result<PhotoInfo>,
    clock: nat -> int,
    attribute: (Path, Attribution) -> Result<P>)

  // ---------------------------------------------------------------------
  // Pure parts
  // ---------------------------------------------------------------------

  /** `attribution`: the record for a photo with detail record `info`,
      collected at `collectedAt`. The license lookups need a known tier. */
  function MakeAttribution(info: PhotoInfo, collectedAt: int): (a: Attribution)
    requires IsKnownLicense(info.license)
    ensures a.author == info.owner.realName + " (Flickr User " + info.owner.userName + ")"
    ensures a.authorUrl == "https://flickr.com/photos/" + info.owner.id
    ensures a.license == LicenseName(info.license) && a.licenseUrl == LicenseLink(info.license)
    ensures a.createdAt == info.dateUploaded && a.collectedAt == collectedAt
    ensures a.context == [info.description]
    ensures a.originUrl == info.flickrUrl && a.originalTitle == info.title
  {
    Attribution(
      originUrl := info.flickrUrl,
      collectedAt := collectedAt,
      originalTitle := info.title,
      author := info.owner.realName + " (Flickr User " + info.owner.userName + ")",
      authorUrl := "https://flickr.com/photos/" + info.owner.id,
      license := LicenseName(info.license),
      licenseUrl := LicenseLink(info.license),
      createdAt := info.dateUploaded,
      context := [info.description],
      scrapingMethodology := "github.com/gbdubs/flickr_downloader")
  }

  /** The attribution and the EXIF copyright tag describe the same license:
      name and link together are the license description. */
  lemma AttributionMatchesCopyright(info: PhotoInfo, collectedAt: int)
    requires IsKnownLicense(info.license)
    ensures var a := MakeAttribution(info, collectedAt);
      a.license + " (" + a.licenseUrl + ")" == LicenseDescription(info.license)
  {
  }

  /** The directory files are written to: the given one, or a directory per
      query under "/memo/flickr_downloader/". */
  function OutputDir(input: Input): (od: Path)
    ensures input.outputDir != "" ==> od == input.outputDir
    ensures input.outputDir == "" ==> od == "/memo/flickr_downloader/" + input.query
  {
    if input.outputDir == "" then "/memo/flickr_downloader/" + input.query else input.outputDir
  }

  /** "<dir>/<id>.jpeg". */
  function FilePath(od: Path, id: string): Path
  {
    od + "/" + id + ".jpeg"
  }

  /** One file path per photo, from a fresh id each. */
  function FilePaths(od: Path, newId: nat -> string, n: nat): (ps: seq<Path>)
    ensures |ps| == n
    ensures forall i :: 0 <= i < n ==> ps[i] == FilePath(od, newId(i))
  {
    seq(n, i requires 0 <= i < n => FilePath(od, newId(i)))
  }

  /** The error of an outcome, if any. */
  function ErrorOf<T>(r: Result<T>): Option<Error>
  {
    if r.Failure? then Some(r.error) else None
  }

  /** The outcomes in the order `execute` reads them: image of photo 0,
      detail record of photo 0, image of photo 1, ... */
  function Outcomes<P>(env: Env<P>, photos: seq<Photo>): (os: seq<Option<Error>>)
    ensures |os| == 2 * |photos|
    decreases |photos|
  {
    if photos == [] then []
    else
      var k := |photos| - 1;
      Outcomes(env, photos[..k]) + [ErrorOf(env.fetchJpg(photos[k])), ErrorOf(env.fetchInfo(photos[k]))]
  }

  /** Position `2i` holds the image outcome of photo `i`, position `2i+1`
      its detail outcome. */
  lemma {:induction false} OutcomesAt<P>(env: Env<P>, photos: seq<Photo>, i: int)
    requires 0 <= i < |photos|
    ensures var os := Outcomes(env, photos);
      os[2 * i] == ErrorOf(env.fetchJpg(photos[i])) && os[2 * i + 1] == ErrorOf(env.fetchInfo(photos[i]))
    decreases |photos|
  {
    var k := |photos| - 1;
    if i < k {
      OutcomesAt(env, photos[..k], i);
    }
  }

  /** The first error of `os`, in order. */
  function FirstError(os: seq<Option<Error>>): (r: Option<Error>)
    ensures r.None? <==> forall k :: 0 <= k < |os| ==> os[k].None?
    ensures r.Some? ==> exists k :: 0 <= k < |os| && os[k] == r && forall j :: 0 <= j < k ==> os[j].None?
  {
    if os == [] then None
    else if os[0].Some? then os[0]
    else
      var r := FirstError(os[1..]);
      assert forall k :: 1 <= k < |os| ==> os[k] == os[1..][k - 1];
      r
  }

  /** The photos after their detail records were fetched: each successful
      fetch replaces the photo's detail record. */
  function Downloaded<P>(env: Env<P>, photos: seq<Photo>): (ps: seq<Photo>)
    ensures |ps| == |photos|
    ensures forall i :: 0 <= i < |photos| ==>
      ps[i] == if env.fetchInfo(photos[i]).Success? then photos[i].(info := env.fetchInfo(photos[i]).value) else photos[i]
  {
    seq(|photos|, i requires 0 <= i < |photos| =>
      if env.fetchInfo(photos[i]).Success? then photos[i].(info := env.fetchInfo(photos[i]).value) else photos[i])
  }

  /** The disk after the images were saved, in order, at `paths`: each
      successful download creates or replaces its file. */
  function Saved<P>(files: map<Path, Bytes>, env: Env<P>, paths: seq<Path>, photos: seq<Photo>): map<Path, Bytes>
    requires |paths| == |photos|
    decreases |paths|
  {
    if paths == [] then files
    else
      var k := |paths| - 1;
      var before := Saved(files, env, paths[..k], photos[..k]);
      if env.fetchJpg(photos[k]).Success? then before[paths[k] := env.fetchJpg(photos[k]).value] else before
  }

  /** Attributing the file at `path` with the detail record of `photo`, the
      `i`-th of the run: an unknown tier fails (the source panics in the
      license lookup), and so does the store. */
  function AttributeAt<P>(env: Env<P>, path: Path, photo: Photo, i: nat): (r: Result<P>)
    ensures r.Success? <==>
      IsKnownLicense(photo.info.license) && env.attribute(path, MakeAttribution(photo.info, env.clock(i))).Success?
  {
    if !IsKnownLicense(photo.info.license) then Failure(UnknownLicense(photo.info.license))
    else match env.attribute(path, MakeAttribution(photo.info, env.clock(i)))
      case Failure(e) => Failure(AttributionError(path, e))
      case Success(p) => Success(p)
  }

  /** The values of `rs` in order, or the first failure among them. */
  function Collect<P>(rs: seq<Result<P>>): Result<seq<P>>
    decreases |rs|
  {
    if rs == [] then Success([])
    else
      match Collect(rs[..|rs| - 1])
      case Failure(e) => Failure(e)
      case Success(vs) =>
        match rs[|rs| - 1]
        case Failure(e) => Failure(e)
        case Success(v) => Success(vs + [v])
  }

  /** A successful collection holds every value, in order. */
  lemma {:induction false} CollectSuccess<P>(rs: seq<Result<P>>)
    ensures var r := Collect(rs);
      r.Success? ==> |r.value| == |rs| && forall i :: 0 <= i < |rs| ==> rs[i] == Success(r.value[i])
    decreases |rs|
  {
    if rs != [] {
      var k := |rs| - 1;
      CollectSuccess(rs[..k]);
      var r := Collect(rs);
      if r.Success? {
        var before := Collect(rs[..k]);
        forall i | 0 <= i < |rs| ensures rs[i] == Success(r.value[i]) {
          if i < k {
            assert rs[..k][i] == rs[i];
            assert r.value[i] == before.value[i];
          }
        }
      }
    }
  }

  /** A failed collection carries the error of the first failure. */
  lemma {:induction false} CollectFailure<P>(rs: seq<Result<P>>)
    ensures var r := Collect(rs);
      r.Failure? ==>
        exists i :: 0 <= i < |rs| && rs[i] == Failure(r.error) && forall j :: 0 <= j < i ==> rs[j].Success?
    decreases |rs|
  {
    var r := Collect(rs);
    if rs != [] && r.Failure? {
      var k := |rs| - 1;
      if Collect(rs[..k]).Failure? {
        CollectFailure(rs[..k]);
        var i :| 0 <= i < k && rs[..k][i] == Failure(r.error) && forall j :: 0 <= j < i ==> rs[..k][j].Success?;
        assert forall j :: 0 <= j <= i ==> rs[..k][j] == rs[j];
        assert rs[i] == Failure(r.error);
      } else {
        CollectSuccess(rs[..k]);
        assert forall j :: 0 <= j < k ==> rs[..k][j] == rs[j];
        assert rs[k] == Failure(r.error);
      }
    }
  }

  /** Collecting one more result extends a successful prefix. */
  lemma CollectStep<P>(rs: seq<Result<P>>, i: int)
    requires 0 <= i < |rs|
    requires Collect(rs[..i]).Success?
    ensures Collect(rs[..i + 1])
         == match rs[i]
            case Failure(e) => Failure(e)
            case Success(v) => Success(Collect(rs[..i]).value + [v])
  {
    assert rs[..i + 1][..i] == rs[..i];
  }

  /** After a failure, collecting further results keeps that failure. */
  lemma {:induction false} CollectStops<P>(rs: seq<Result<P>>, i: int)
    requires 0 <= i <= |rs|
    requires Collect(rs[..i]).Failure?
    ensures Collect(rs) == Collect(rs[..i])
    decreases |rs|
  {
    if i == |rs| {
      assert rs[..i] == rs;
    } else {
      var k := |rs| - 1;
      assert rs[..k][..i] == rs[..i];
      CollectStops(rs[..k], i);
    }
  }

  /** The attribution attempts, one per file, in order. */
  function Attempts<P>(env: Env<P>, paths: seq<Path>, photos: seq<Photo>): (rs: seq<Result<P>>)
    requires |paths| == |photos|
    ensures |rs| == |paths|
    ensures forall i :: 0 <= i < |paths| ==> rs[i] == AttributeAt(env, paths[i], photos[i], i)
  {
    seq(|paths|, i requires 0 <= i < |paths| => AttributeAt(env, paths[i], photos[i], i))
  }

  /** Attributing every file in order, stopping at the first failure. */
  function Attributed<P>(env: Env<P>, paths: seq<Path>, photos: seq<Photo>): Result<seq<P>>
    requires |paths| == |photos|
  {
    Collect(Attempts(env, paths, photos))
  }

  /** Attributing all files succeeds exactly when every file is attributed,
      and then yields their pointers in order; otherwise it fails with the
      error of the first file that cannot be attributed. */
  lemma AttributedMeaning<P>(env: Env<P>, paths: seq<Path>, photos: seq<Photo>)
    requires |paths| == |photos|
    ensures var r := Attributed(env, paths, photos);
      && (r.Success? <==> forall i :: 0 <= i < |paths| ==> AttributeAt(env, paths[i], photos[i], i).Success?)
      && (r.Success? ==>
            |r.value| == |paths|
            && forall i :: 0 <= i < |paths| ==> AttributeAt(env, paths[i], photos[i], i) == Success(r.value[i]))
      && (r.Failure? ==>
            exists i :: 0 <= i < |paths|
              && AttributeAt(env, paths[i], photos[i], i) == Failure(r.error)
              && forall j :: 0 <= j < i ==> AttributeAt(env, paths[j], photos[j], j).Success?)
  {
    var rs := Attempts(env, paths, photos);
    CollectSuccess(rs);
    CollectFailure(rs);
    if Collect(rs).Failure? {
      var i :| 0 <= i < |rs| && rs[i] == Failure(Collect(rs).error) && forall j :: 0 <= j < i ==> rs[j].Success?;
      assert AttributeAt(env, paths[i], photos[i], i) == Failure(Collect(rs).error);
    }
  }

  /** What `execute` returns, the disk afterwards, and the searches made. */
  datatype Outcome<P> = Outcome(result: Result<seq<P>>, files: map<Path, Bytes>, fetched: seq<Fetch>)

  /** The discovery `execute` runs for `input`. */
  function DiscoverFor<P>(env: Env<P>, input: Input, last: int -> nat): Run
    requires input.numberOfImages >= 1
    requires Exhausts(env.search, BatchSize(input.numberOfImages), input.includeAllRightsReserved, LicensesInPreferredOrder, last)
  {
    Discover(env.search, input.numberOfImages, input.includeAllRightsReserved, last)
  }

  /** What happens to discovered `photos`: a file path each under `od`, the
      images saved, the outcomes read in order, then the attributions. */
  function Acquire<P>(env: Env<P>, od: Path, photos: seq<Photo>, files: map<Path, Bytes>): (Result<seq<P>>, map<Path, Bytes>)
  {
    var paths := FilePaths(od, env.newId, |photos|);
    var files' := Saved(files, env, paths, photos);
    match FirstError(Outcomes(env, photos))
    case Some(e) => (Failure(AcquisitionError(e)), files')
    case None => (Attributed(env, paths, Downloaded(env, photos)), files')
  }

  /** After the cache is passed over: search, then acquire what was found
      under `od`. */
  function SearchAndAcquire<P>(env: Env<P>, input: Input, od: Path, files: map<Path, Bytes>, last: int -> nat): Outcome<P>
    requires input.numberOfImages >= 1
    requires Exhausts(env.search, BatchSize(input.numberOfImages), input.includeAllRightsReserved, LicensesInPreferredOrder, last)
  {
    var run := DiscoverFor(env, input, last);
    match run.result
    case Failure(e) => Outcome(Failure(SearchError(input.query, e)), files, run.fetched)
    case Success(photos) =>
      var (r, files') := Acquire(env, od, photos, files);
      Outcome(r, files', run.fetched)
  }

  /** Whether `execute` gets as far as the search: the output directory is
      made, the cache is read, and it is empty or a reload is forced. */
  predicate Searches<P>(env: Env<P>, input: Input)
  {
    var od := OutputDir(input);
    && env.mkdirAll(od).None?
    && env.readCache(od).Success?
    && (|env.readCache(od).value| == 0 || input.forceReload)
  }

  /** What discovery needs: at least one photo asked for (the command line
      turns a smaller count into 1), and the search service running out of
      pages in every eligible tier. */
  predicate CanDiscover<P>(env: Env<P>, input: Input, last: int -> nat)
  {
    input.numberOfImages >= 1
    && Exhausts(env.search, BatchSize(input.numberOfImages), input.includeAllRightsReserved, LicensesInPreferredOrder, last)
  }

  /** `Execute` of execute.go: create the output directory, answer from a
      non-empty cache unless a reload is forced, otherwise search and acquire.
      Only the search needs anything of the count and the search service. */
  function ExecuteSpec<P>(env: Env<P>, input: Input, files: map<Path, Bytes>, last: int -> nat): Outcome<P>
    requires Searches(env, input) ==> CanDiscover(env, input, last)
  {
    var od := OutputDir(input);
    match env.mkdirAll(od)
    case Some(e) => Outcome(Failure(DirectoryError(od, e)), files, [])
    case None =>
      match env.readCache(od)
      case Failure(e) => Outcome(Failure(CacheReadError(od, e)), files, [])
      case Success(cached) =>
        if |cached| > 0 && !input.forceReload then Outcome(Success(cached), files, [])
        else SearchAndAcquire(env, input, od, files, last)
  }

  // ---------------------------------------------------------------------
  // What execute promises
  // ---------------------------------------------------------------------

  /** A non-empty cache is returned as it is, without searching and without
      touching the disk, unless a reload is forced. */
  lemma CacheShortCircuit<P>(env: Env<P>, input: Input, files: map<Path, Bytes>, last: int -> nat)
    requires env.mkdirAll(OutputDir(input)).None?
    requires env.readCache(OutputDir(input)).Success? && |env.readCache(OutputDir(input)).value| > 0
    requires !input.forceReload
    ensures var o := ExecuteSpec(env, input, files, last);
      o == Outcome(Success(env.readCache(OutputDir(input)).value), files, [])
  {
  }

  /** On success, there is one attributed file per discovered photo, in
      discovery order: file `i` lives at "<dir>/<id i>.jpeg", its image and
      detail downloads succeeded, and it carries the attribution built from
      photo `i`'s detail record. */
  lemma AcquireOnePerPhoto<P>(env: Env<P>, od: Path, photos: seq<Photo>, files: map<Path, Bytes>)
    requires Acquire(env, od, photos, files).0.Success?
    ensures var r := Acquire(env, od, photos, files).0;
      && |r.value| == |photos|
      && forall i :: 0 <= i < |photos| ==>
           var p := photos[i];
           && env.fetchJpg(p).Success? && env.fetchInfo(p).Success?
           && IsKnownLicense(env.fetchInfo(p).value.license)
           && env.attribute(FilePath(od, env.newId(i)), MakeAttribution(env.fetchInfo(p).value, env.clock(i)))
              == Success(r.value[i])
  {
    var r := Acquire(env, od, photos, files).0;
    var paths := FilePaths(od, env.newId, |photos|);
    var os := Outcomes(env, photos);
    var ps := Downloaded(env, photos);
    assert FirstError(os).None?;
    assert r == Attributed(env, paths, ps);
    AttributedMeaning(env, paths, ps);
    forall i | 0 <= i < |photos|
      ensures env.fetchJpg(photos[i]).Success? && env.fetchInfo(photos[i]).Success?
      ensures IsKnownLicense(env.fetchInfo(photos[i]).value.license)
      ensures env.attribute(paths[i], MakeAttribution(env.fetchInfo(photos[i]).value, env.clock(i))) == Success(r.value[i])
    {
      OutcomesAt(env, photos, i);
      assert os[2 * i].None? && os[2 * i + 1].None?;
      assert AttributeAt(env, paths[i], ps[i], i) == Success(r.value[i]);
    }
  }

  /** A failed download ends `execute` with the first failure in the order
      image 0, detail 0, image 1, ...; nothing is attributed then. */
  lemma AcquireFirstFailure<P>(env: Env<P>, od: Path, photos: seq<Photo>, files: map<Path, Bytes>, i: int)
    requires 0 <= i < |photos|
    requires env.fetchJpg(photos[i]).Failure? || env.fetchInfo(photos[i]).Failure?
    ensures var os := Outcomes(env, photos);
      exists k :: 0 <= k < |os| && os[k].Some?
        && Acquire(env, od, photos, files).0 == Failure(AcquisitionError(os[k].value))
        && forall j :: 0 <= j < k ==> os[j].None?
  {
    var os := Outcomes(env, photos);
    OutcomesAt(env, photos, i);
    if env.fetchJpg(photos[i]).Failure? {
      assert os[2 * i].Some?;
    } else {
      assert os[2 * i + 1].Some?;
    }
  }

  /** Every image that was downloaded is on the disk at its path, unless a
      later photo drew the same id; nothing else on the disk changes. */
  lemma {:induction false} SavedFiles<P>(files: map<Path, Bytes>, env: Env<P>, paths: seq<Path>, photos: seq<Photo>)
    requires |paths| == |photos|
    ensures var saved := Saved(files, env, paths, photos);
      && (forall path :: path !in paths ==> (path in saved <==> path in files) && (path in files ==> saved[path] == files[path]))
      && forall i :: (0 <= i < |paths| && env.fetchJpg(photos[i]).Success?
                      && forall j :: i < j < |paths| ==> paths[j] != paths[i]) ==>
           paths[i] in saved && saved[paths[i]] == env.fetchJpg(photos[i]).value
    decreases |paths|
  {
    if paths != [] {
      var k := |paths| - 1;
      SavedFiles(files, env, paths[..k], photos[..k]);
      forall path | path !in paths ensures path !in paths[..k] {
      }
      forall i | 0 <= i < k ensures paths[..k][i] == paths[i] && photos[..k][i] == photos[i] {
      }
    }
  }

  // ---------------------------------------------------------------------
  // The method
  // ---------------------------------------------------------------------

  /** `execute`. `fetched` records the searches made. */
  method Execute<P>(disk: Disk, env: Env<P>, input: Input, ghost last: int -> nat)
    returns (r: Result<seq<P>>, ghost fetched: seq<Fetch>)
    requires Searches(env, input) ==> CanDiscover(env, input, last)
    modifies disk
    ensures Outcome(r, disk.files, fetched) == ExecuteSpec(env, input, old(disk.files), last)
  {
    fetched := [];
    var od := input.outputDir;
    if od == "" {
      od := "/memo/flickr_downloader/" + input.query;
    }
    var err := env.mkdirAll(od);
    if err.Some? {
      return Failure(DirectoryError(od, err.value)), fetched;
    }
    var alreadyExisting := env.readCache(od);
    if alreadyExisting.Failure? {
      return Failure(CacheReadError(od, alreadyExisting.error)), fetched;
    }
    if |alreadyExisting.value| > 0 && !input.forceReload {
      return Success(alreadyExisting.value), fetched;
    }
    assert od == OutputDir(input) && Searches(env, input);
    r, fetched := SearchAndDownload(disk, env, input, od, last);
  }

  /** The search-and-download half of `Execute`. */
  method SearchAndDownload<P>(disk: Disk, env: Env<P>, input: Input, od: Path, ghost last: int -> nat)
    returns (r: Result<seq<P>>, ghost fetched: seq<Fetch>)
    requires input.numberOfImages >= 1
    requires Exhausts(env.search, BatchSize(input.numberOfImages), input.includeAllRightsReserved, LicensesInPreferredOrder, last)
    modifies disk
    ensures Outcome(r, disk.files, fetched) == SearchAndAcquire(env, input, od, old(disk.files), last)
  {
    var found;
    found, fetched := FindUniqueOwnerPhotos(env.search, input.numberOfImages, input.includeAllRightsReserved, last);
    if found.Failure? {
      return Failure(SearchError(input.query, found.error)), fetched;
    }
    r := AcquireFiles(disk, env, od, found.value);
  }

  /** The part of `execute` after discovery. */
  method AcquireFiles<P>(disk: Disk, env: Env<P>, od: Path, found: seq<Photo>) returns (r: Result<seq<P>>)
    modifies disk
    ensures (r, disk.files) == Acquire(env, od, found, old(disk.files))
  {
    var photos := new Photo[|found|](i requires 0 <= i < |found| => found[i]);
    assert photos[..] == found;
    var errChans, filePaths := StartDownloads(disk, env, od, photos);
    var firstErr := FirstFailure(errChans);
    if firstErr.Some? {
      return Failure(AcquisitionError(firstErr.value));
    }
    r := AttributeFiles(env, filePaths, photos);
  }

  /** The download loop of `execute`: a fresh file path per photo, the image
      saved there, the detail record fetched into the photo; the outcomes go
      to `errChans` in reading order. */
  method StartDownloads<P>(disk: Disk, env: Env<P>, od: Path, photos: array<Photo>)
    returns (errChans: array<Option<Error>>, filePaths: array<Path>)
    modifies disk, photos
    ensures fresh(errChans) && fresh(filePaths)
    ensures errChans[..] == Outcomes(env, old(photos[..]))
    ensures filePaths[..] == FilePaths(od, env.newId, photos.Length)
    ensures photos[..] == Downloaded(env, old(photos[..]))
    ensures disk.files == Saved(old(disk.files), env, filePaths[..], old(photos[..]))
  {
    var n := photos.Length;
    ghost var photos0 := photos[..];
    ghost var paths := FilePaths(od, env.newId, n);
    ghost var downloaded := Downloaded(env, photos0);
    errChans := new Option<Error>[2 * n](_ => None);
    filePaths := new Path[n](_ => "");
    ghost var outs: seq<Option<Error>> := [];
    for i := 0 to n
      invariant Progress(disk, env, photos, errChans, filePaths, old(disk.files), photos0, paths, downloaded, outs, i)
    {
      outs := StartDownload(disk, env, od, photos, errChans, filePaths, i, old(disk.files), photos0, paths, downloaded, outs);
    }
    assert photos0[..n] == photos0;
    assert paths[..n] == paths;
    assert errChans[..] == outs;
    assert photos[..] == downloaded;
    assert filePaths[..] == paths;
  }

  /** The state of the download loop of `execute` after `i` photos: they
      were downloaded (`downloaded`), got their paths, their outcomes
      (`outs`) and their images saved; the rest are untouched. */
  ghost predicate Progress<P>(disk: Disk, env: Env<P>, photos: array<Photo>, errChans: array<Option<Error>>,
                              filePaths: array<Path>, files0: map<Path, Bytes>, photos0: seq<Photo>,
                              paths: seq<Path>, downloaded: seq<Photo>, outs: seq<Option<Error>>, i: int)
    reads disk, photos, errChans, filePaths
  {
    && photos.Length == filePaths.Length == |photos0| == |paths| == |downloaded|
    && errChans.Length == 2 * photos.Length
    && 0 <= i <= photos.Length
    && (forall j :: i <= j < photos.Length ==> photos[j] == photos0[j])
    && (forall j :: 0 <= j < i ==> photos[j] == downloaded[j])
    && (forall j :: 0 <= j < i ==> filePaths[j] == paths[j])
    && |outs| == 2 * i
    && outs == Outcomes(env, photos0[..i])
    && (forall k :: 0 <= k < 2 * i ==> errChans[k] == outs[k])
    && disk.files == Saved(files0, env, paths[..i], photos0[..i])
  }

  /** The body of the download loop of `execute` for photo `i`: its file
      path, its image saved there, its detail record fetched into it. */
  method StartDownload<P>(disk: Disk, env: Env<P>, od: Path, photos: array<Photo>,
                          errChans: array<Option<Error>>, filePaths: array<Path>, i: int,
                          ghost files0: map<Path, Bytes>, ghost photos0: seq<Photo>, ghost paths: seq<Path>,
                          ghost downloaded: seq<Photo>, ghost outs: seq<Option<Error>>)
    returns (ghost outs': seq<Option<Error>>)
    requires i < photos.Length
    requires paths == FilePaths(od, env.newId, photos.Length) && downloaded == Downloaded(env, photos0)
    requires Progress(disk, env, photos, errChans, filePaths, files0, photos0, paths, downloaded, outs, i)
    modifies disk, photos, errChans, filePaths
    ensures Progress(disk, env, photos, errChans, filePaths, files0, photos0, paths, downloaded, outs', i + 1)
  {
    DownloadStep(files0, env, paths, photos0, i);
    var photo := photos[i];
    var filePath := FilePath(od, env.newId(i));
    filePaths[i] := filePath;
    errChans[2 * i] := DownloadJpg(disk, env, photo, filePath);
    errChans[2 * i + 1] := DownloadInfo(env, photos, i);
    outs' := outs + [errChans[2 * i], errChans[2 * i + 1]];
    assert photo == photos0[i];
    assert forall j :: i + 1 <= j < photos.Length ==> photos[j] == photos0[j];
    assert forall j :: 0 <= j < i + 1 ==> photos[j] == downloaded[j];
    assert forall j :: 0 <= j < i + 1 ==> filePaths[j] == paths[j];
    assert outs' == Outcomes(env, photos0[..i + 1]);
    assert forall k :: 0 <= k < 2 * i + 2 ==> errChans[k] == outs'[k];
    assert disk.files == Saved(files0, env, paths[..i + 1], photos0[..i + 1]);
  }

  /** One photo more in the prefixes the download loop has handled. */
  lemma DownloadStep<P>(files: map<Path, Bytes>, env: Env<P>, paths: seq<Path>, photos: seq<Photo>, i: int)
    requires 0 <= i < |paths| == |photos|
    ensures Outcomes(env, photos[..i + 1])
         == Outcomes(env, photos[..i]) + [ErrorOf(env.fetchJpg(photos[i])), ErrorOf(env.fetchInfo(photos[i]))]
    ensures Saved(files, env, paths[..i + 1], photos[..i + 1])
         == (var before := Saved(files, env, paths[..i], photos[..i]);
             if env.fetchJpg(photos[i]).Success? then before[paths[i] := env.fetchJpg(photos[i]).value] else before)
  {
    assert photos[..i + 1][..i] == photos[..i];
    assert paths[..i + 1][..i] == paths[..i];
  }

  /** `downloadJpg`: save the image of `photo` at `filePath`. */
  method DownloadJpg<P>(disk: Disk, env: Env<P>, photo: Photo, filePath: Path) returns (err: Option<Error>)
    modifies disk
    ensures err == ErrorOf(env.fetchJpg(photo))
    ensures disk.files == if err.None? then old(disk.files)[filePath := env.fetchJpg(photo).value] else old(disk.files)
  {
    var jpg := env.fetchJpg(photo);
    if jpg.Failure? {
      return Some(jpg.error);
    }
    disk.files := disk.files[filePath := jpg.value];
    return None;
  }

  /** `downloadInfo`: fetch the detail record of `photos[i]` into it. */
  method DownloadInfo<P>(env: Env<P>, photos: array<Photo>, i: int) returns (err: Option<Error>)
    requires 0 <= i < photos.Length
    modifies photos
    ensures err == ErrorOf(env.fetchInfo(old(photos[i])))
    ensures photos[i] == if err.None? then old(photos[i]).(info := env.fetchInfo(old(photos[i])).value) else old(photos[i])
    ensures forall j :: 0 <= j < photos.Length && j != i ==> photos[j] == old(photos[j])
  {
    var info := env.fetchInfo(photos[i]);
    if info.Failure? {
      return Some(info.error);
    }
    photos[i] := photos[i].(info := info.value);
    return None;
  }

  /** The reading loop of `execute`: the first error among the outcomes, in
      order. */
  method FirstFailure(errChans: array<Option<Error>>) returns (err: Option<Error>)
    ensures err == FirstError(errChans[..])
  {
    for k := 0 to errChans.Length
      invariant FirstError(errChans[..]) == FirstError(errChans[k..])
    {
      assert errChans[k..][1..] == errChans[k + 1..];
      if errChans[k].Some? {
        return errChans[k];
      }
    }
    return None;
  }

  /** The attribution loop of `execute`: attribute every file in order and
      collect the file pointers, stopping at the first failure. */
  method AttributeFiles<P>(env: Env<P>, filePaths: array<Path>, photos: array<Photo>) returns (r: Result<seq<P>>)
    requires filePaths.Length == photos.Length
    ensures r == Attributed(env, filePaths[..], photos[..])
  {
    var outputFiles: seq<P> := [];
    ghost var attempts := Attempts(env, filePaths[..], photos[..]);
    for i := 0 to filePaths.Length
      invariant Collect(attempts[..i]) == Success(outputFiles)
    {
      var info := photos[i].info;
      CollectStep(attempts, i);
      if !IsKnownLicense(info.license) {
        CollectStops(attempts, i + 1);
        return Failure(UnknownLicense(info.license));
      }
      var afp := env.attribute(filePaths[i], MakeAttribution(info, env.clock(i)));
      if afp.Failure? {
        CollectStops(attempts, i + 1);
        return Failure(AttributionError(filePaths[i], afp.error));
      }
      outputFiles := outputFiles + [afp.value];
    }
    assert attempts[..filePaths.Length] == attempts;
    r := Success(outputFiles);
  }
}
