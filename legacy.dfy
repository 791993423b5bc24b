/** The older revision (flickr_downloader.go): one search per license tier,
    with a small page size, deduplication by owner id through a linear
    scan, truncation to `n` after each tier; each photo is saved as
    "<location>/<query>/<query>_<i>.jpeg" and its EXIF block rewritten from
    its detail record, with a copyright string of its own.

    The search endpoint, the image and detail downloads, the timestamp
    format and the EXIF container library are oracles in `Services`. */
module Legacy {
  import opened Types
  import opened Licenses
  import opened UniqueOwners
  import Discovery
  import Exif
  import Execute

  /** The parameters of the older `Execute`. */
  datatype Parameters = Parameters(query: string, numberOfImages: int, outputLocation: Path)

  /** `searchPhotos` for the run's query: the first page of a tier with the
      given page size, or an error. */
  type OldSearch = (int, int) -> Result<seq<Photo>>

  /** The services the older `Execute` calls. */
  datatype Services<!S, !B> = Services(
    search: OldSearch,
    fetchJpg: Photo -> Result<Bytes>,
    fetchInfo: Photo -> Result<PhotoInfo>,
    stamp: int -> string,
    lib: Exif.ExifLib<S, B>)

  // ---------------------------------------------------------------------
  // Discovery
  // ---------------------------------------------------------------------

  /** The key this revision deduplicates on: the owner id. */
  function OwnerId(p: Photo): string
  {
    p.owner
  }

  /** Page size of the older revision. */
  function OldBatchSize(n: int): (b: int)
    ensures n <= 1 ==> b == 1
    ensures 2 <= n <= 5 ==> b == 10
    ensures n > 5 ==> b == 25
  {
    var b := if n > 1 then 10 else 1;
    if n > 5 then 25 else b
  }

  /** `photoHasUniqueOwner`: a scan of `ps` that stops at the first photo
      with the owner of `o`. */
  function HasUniqueOwner(ps: seq<Photo>, o: Photo): bool
  {
    if ps == [] then true
    else if ps[0].owner == o.owner then false
    else HasUniqueOwner(ps[1..], o)
  }

  /** The scan answers whether no photo of `ps` has the owner of `o`. */
  lemma {:induction false} HasUniqueOwnerMeaning(ps: seq<Photo>, o: Photo)
    ensures HasUniqueOwner(ps, o) <==> forall k :: 0 <= k < |ps| ==> ps[k].owner != o.owner
  {
    if ps != [] {
      HasUniqueOwnerMeaning(ps[1..], o);
      assert forall k :: 1 <= k < |ps| ==> ps[k] == ps[1..][k - 1];
    }
  }

  /** ... that is, whether the owner of `o` is not among the keys of `ps`. */
  lemma HasUniqueOwnerKeys(ps: seq<Photo>, o: Photo)
    ensures HasUniqueOwner(ps, o) <==> OwnerId(o) !in Keys(ps, OwnerId)
  {
    HasUniqueOwnerMeaning(ps, o);
    if OwnerId(o) in Keys(ps, OwnerId) {
      var p :| p in ps && OwnerId(p) == OwnerId(o);
      var k :| 0 <= k < |ps| && ps[k] == p;
    }
    if !HasUniqueOwner(ps, o) {
      var k :| 0 <= k < |ps| && ps[k].owner == o.owner;
      assert ps[k] in ps;
    }
  }

  /** What the older discovery returns and the tiers it searched. */
  datatype OldRun = OldRun(photos: seq<Photo>, err: Option<Error>, searched: seq<int>)

  /** The tier loop from position `i` with `acc` accumulated: search the
      tier, stop with the accumulated photos on an error, keep each photo
      with a new owner id, and return the first `n` as soon as there are
      that many. */
  function OldConsume(search: OldSearch, n: nat, batch: int, tiers: seq<int>, i: nat, acc: seq<Photo>): OldRun
    requires i <= |tiers|
    decreases |tiers| - i
  {
    if i == |tiers| then OldRun(acc, None, tiers)
    else match search(tiers[i], batch)
      case Failure(e) => OldRun(acc, Some(e), tiers[..i + 1])
      case Success(ps) =>
        var acc' := Extend(acc, ps, OwnerId);
        if |acc'| >= n then OldRun(acc'[..n], None, tiers[..i + 1])
        else OldConsume(search, n, batch, tiers, i + 1, acc')
  }

  /** The outcome of the older discovery for `n` photos over the tiers `tiers`. */
  function OldDiscoverOver(search: OldSearch, n: nat, tiers: seq<int>): OldRun
  {
    OldConsume(search, n, OldBatchSize(n), tiers, 0, [])
  }

  /** The outcome of the older discovery for `n` photos. */
  function OldDiscover(search: OldSearch, n: nat): OldRun
  {
    OldDiscoverOver(search, n, Discovery.LicensesInPreferredOrder)
  }

  /** The photos of the successful searches of the tiers `ts`, in order. */
  function Pages(search: OldSearch, batch: int, ts: seq<int>): seq<Photo>
  {
    if ts == [] then []
    else (match search(ts[0], batch) case Success(ps) => ps case Failure(_) => [])
         + Pages(search, batch, ts[1..])
  }

  /** The inner loop of `getFirstFlickrResultsWithSearchTerm`: append each
      photo whose owner id is not yet in `result`. */
  method AppendNewOwners(result: seq<Photo>, photos: seq<Photo>) returns (result': seq<Photo>)
    ensures result' == Extend(result, photos, OwnerId)
  {
    result' := result;
    for j := 0 to |photos|
      invariant result' == Extend(result, photos[..j], OwnerId)
    {
      ExtendStep(result, photos, j, OwnerId);
      HasUniqueOwnerKeys(result', photos[j]);
      if HasUniqueOwner(result', photos[j]) {
        result' := result' + [photos[j]];
      }
    }
    assert photos[..|photos|] == photos;
  }

  /** `getFirstFlickrResultsWithSearchTerm` of the older revision. A search
      error returns the photos accumulated so far with the error. A negative
      `n` makes the source's final slice panic; the command line never
      passes one. */
  method OldFindUniqueOwnerPhotos(search: OldSearch, n: int)
    returns (result: seq<Photo>, err: Option<Error>, ghost searched: seq<int>)
    requires n >= 0
    ensures OldRun(result, err, searched) == OldDiscover(search, n)
  {
    var batchSize := 1;
    if n > 1 {
      batchSize := 10;
    }
    if n > 5 {
      batchSize := 25;
    }
    result, err, searched := OldSearchTiers(search, n, batchSize, Discovery.LicensesInPreferredOrder);
  }

  /** The tier loop over `tiers`, one search each. */
  method OldSearchTiers(search: OldSearch, n: nat, batchSize: int, tiers: seq<int>)
    returns (result: seq<Photo>, err: Option<Error>, ghost searched: seq<int>)
    ensures OldRun(result, err, searched) == OldConsume(search, n, batchSize, tiers, 0, [])
  {
    ghost var goal := OldConsume(search, n, batchSize, tiers, 0, []);
    result, err, searched := [], None, [];
    for ti := 0 to |tiers|
      invariant searched == tiers[..ti]
      invariant goal == OldConsume(search, n, batchSize, tiers, ti, result)
    {
      var license := tiers[ti];
      var photos := search(license, batchSize);
      searched := searched + [license];
      assert searched == tiers[..ti + 1];
      if photos.Failure? {
        return result, Some(photos.error), searched;
      }
      result := AppendNewOwners(result, photos.value);
      if |result| >= n {
        return result[..n], None, searched;
      }
    }
    assert tiers[..|tiers|] == tiers;
  }

  // ---------------------------------------------------------------------
  // What the older discovery promises
  // ---------------------------------------------------------------------

  /** The searched tiers are a prefix of `tiers` that includes every tier
      before `i`; all of `tiers` is searched unless an error or `n` photos
      stop the loop. */
  lemma {:induction false} OldConsumeSearched(search: OldSearch, n: nat, batch: int, tiers: seq<int>, i: nat, acc: seq<Photo>)
    requires i <= |tiers|
    ensures var run := OldConsume(search, n, batch, tiers, i, acc);
      && i <= |run.searched| <= |tiers|
      && (i < |tiers| ==> i < |run.searched|)
      && run.searched == tiers[..|run.searched|]
      && (run.err.None? && |run.photos| < n ==> run.searched == tiers)
    decreases |tiers| - i
  {
    if i < |tiers| && search(tiers[i], batch).Success? {
      var acc' := Extend(acc, search(tiers[i], batch).value, OwnerId);
      if |acc'| < n {
        OldConsumeSearched(search, n, batch, tiers, i + 1, acc');
      }
    }
  }

  /** At most `n` photos come back, and no two have the same owner id. */
  lemma {:induction false} OldConsumeOwners(search: OldSearch, n: nat, batch: int, tiers: seq<int>, i: nat, acc: seq<Photo>)
    requires i <= |tiers|
    requires |acc| <= n && DistinctOwners(acc, OwnerId)
    ensures var run := OldConsume(search, n, batch, tiers, i, acc);
      |run.photos| <= n && DistinctOwners(run.photos, OwnerId)
    decreases |tiers| - i
  {
    if i < |tiers| && search(tiers[i], batch).Success? {
      var acc' := Extend(acc, search(tiers[i], batch).value, OwnerId);
      ExtendDistinct(acc, search(tiers[i], batch).value, OwnerId);
      if |acc'| < n {
        OldConsumeOwners(search, n, batch, tiers, i + 1, acc');
      }
    }
  }

  /** The photos come back in encounter order: they are the first photo of
      every new owner id over the pages of the searched tiers, cut at `n`
      when there are that many. */
  lemma {:induction false} OldConsumeOrder(search: OldSearch, n: nat, batch: int, tiers: seq<int>, i: nat, acc: seq<Photo>)
    requires i <= |tiers|
    ensures var run := OldConsume(search, n, batch, tiers, i, acc);
      i <= |run.searched| <= |tiers|
      && run.photos <= Extend(acc, Pages(search, batch, tiers[i..|run.searched|]), OwnerId)
      && (|run.photos| == n || run.photos == Extend(acc, Pages(search, batch, tiers[i..|run.searched|]), OwnerId))
    decreases |tiers| - i
  {
    var run := OldConsume(search, n, batch, tiers, i, acc);
    OldConsumeSearched(search, n, batch, tiers, i, acc);
    if i == |tiers| {
      assert tiers[i..|run.searched|] == [];
    } else {
      var t := tiers[i];
      match search(t, batch)
      case Failure(_) =>
        assert tiers[i..|run.searched|] == [t];
        assert Pages(search, batch, [t]) == [];
      case Success(ps) =>
        var acc' := Extend(acc, ps, OwnerId);
        if |acc'| >= n {
          assert tiers[i..|run.searched|] == [t];
          assert Pages(search, batch, [t]) == ps + Pages(search, batch, []);
          assert ps + [] == ps;
        } else {
          OldConsumeOrder(search, n, batch, tiers, i + 1, acc');
          var rest := tiers[i + 1..|run.searched|];
          assert tiers[i..|run.searched|] == [t] + rest;
          assert ([t] + rest)[1..] == rest;
          ExtendAppend(acc, ps, Pages(search, batch, rest), OwnerId);
        }
    }
  }

  /** The loop stops at the first tier that brings `n` photos: every run of
      tiers searched before the last one left fewer than `n`. */
  lemma {:induction false} OldConsumeStops(search: OldSearch, n: nat, batch: int, tiers: seq<int>, i: nat, acc: seq<Photo>)
    requires i <= |tiers|
    ensures var run := OldConsume(search, n, batch, tiers, i, acc);
      |run.searched| <= |tiers|
      && forall k :: i < k < |run.searched| ==> |Extend(acc, Pages(search, batch, tiers[i..k]), OwnerId)| < n
    decreases |tiers| - i
  {
    var run := OldConsume(search, n, batch, tiers, i, acc);
    OldConsumeSearched(search, n, batch, tiers, i, acc);
    if i < |tiers| && search(tiers[i], batch).Success? {
      var ps := search(tiers[i], batch).value;
      var acc' := Extend(acc, ps, OwnerId);
      if |acc'| < n {
        OldConsumeStops(search, n, batch, tiers, i + 1, acc');
        forall k | i < k < |run.searched|
          ensures |Extend(acc, Pages(search, batch, tiers[i..k]), OwnerId)| < n
        {
          var rest := tiers[i + 1..k];
          assert tiers[i..k] == [tiers[i]] + rest;
          assert ([tiers[i]] + rest)[1..] == rest;
          ExtendAppend(acc, ps, Pages(search, batch, rest), OwnerId);
          if k == i + 1 {
            assert ps + Pages(search, batch, rest) == ps;
          }
        }
      }
    }
  }

  /** The older discovery, all together: the tiers (4,5,2,1,7,6,3,9,10,8,0
      in `OldDiscover`, tier 0 included) are searched one call each, in
      order, until an error or the first tier that brings `n` photos; at most
      `n` photos come back, with distinct owner ids, first of their owner in
      encounter order, and all of those unless there are `n`; on an
      error the last tier searched is the one that failed. */
  lemma OldDiscoverSpec(search: OldSearch, n: nat, tiers: seq<int>)
    ensures var run := OldDiscoverOver(search, n, tiers);
      && (tiers != [] ==> 1 <= |run.searched|) && |run.searched| <= |tiers|
      && run.searched == tiers[..|run.searched|]
      && (run.err.None? && |run.photos| < n ==> run.searched == tiers)
      && |run.photos| <= n && DistinctOwners(run.photos, OwnerId)
      && run.photos <= Extend([], Pages(search, OldBatchSize(n), run.searched), OwnerId)
      && (run.err.Some? ==>
            |run.searched| >= 1 && search(run.searched[|run.searched| - 1], OldBatchSize(n)) == Failure(run.err.value))
  {
    var run := OldDiscoverOver(search, n, tiers);
    OldConsumeSearched(search, n, OldBatchSize(n), tiers, 0, []);
    OldConsumeOwners(search, n, OldBatchSize(n), tiers, 0, []);
    OldConsumeOrder(search, n, OldBatchSize(n), tiers, 0, []);
    assert tiers[0..|run.searched|] == run.searched;
    OldConsumeFailure(search, n, OldBatchSize(n), tiers, 0, []);
  }

  /** The older discovery returns every first-of-owner photo of the tiers it
      searched unless that makes `n` or more, and it searched no tier past
      the first one that completed `n`. */
  lemma OldDiscoverStops(search: OldSearch, n: nat, tiers: seq<int>)
    ensures var run := OldDiscoverOver(search, n, tiers);
      && |run.searched| <= |tiers|
      && (|run.photos| == n || run.photos == Extend([], Pages(search, OldBatchSize(n), run.searched), OwnerId))
      && (forall k :: 0 < k < |run.searched| ==> |Extend([], Pages(search, OldBatchSize(n), run.searched[..k]), OwnerId)| < n)
  {
    var run := OldDiscoverOver(search, n, tiers);
    OldConsumeSearched(search, n, OldBatchSize(n), tiers, 0, []);
    OldConsumeOrder(search, n, OldBatchSize(n), tiers, 0, []);
    assert tiers[0..|run.searched|] == run.searched;
    OldConsumeStops(search, n, OldBatchSize(n), tiers, 0, []);
    forall k | 0 < k < |run.searched|
      ensures |Extend([], Pages(search, OldBatchSize(n), run.searched[..k]), OwnerId)| < n
    {
      assert tiers[0..k] == run.searched[..k];
    }
  }

  /** An error is the answer to the last search made. */
  lemma {:induction false} OldConsumeFailure(search: OldSearch, n: nat, batch: int, tiers: seq<int>, i: nat, acc: seq<Photo>)
    requires i <= |tiers|
    ensures var run := OldConsume(search, n, batch, tiers, i, acc);
      run.err.Some? ==>
        |run.searched| >= 1 && search(run.searched[|run.searched| - 1], batch) == Failure(run.err.value)
    decreases |tiers| - i
  {
    if i < |tiers| && search(tiers[i], batch).Success? {
      var acc' := Extend(acc, search(tiers[i], batch).value, OwnerId);
      if |acc'| < n {
        OldConsumeFailure(search, n, batch, tiers, i + 1, acc');
      }
    }
  }

  // ---------------------------------------------------------------------
  // Copyright string
  // ---------------------------------------------------------------------

  /** `getCopyrightString`, a table of its own in this revision. Each entry
      for tiers 1 to 10 is written as the name and the link it spells out. */
  function CopyrightString(t: int): string
    requires IsKnownLicense(t)
  {
    match t
    case 0 => "All Rights Reserved"
    case 1 => "Attribution-NonCommercial-ShareAlike License" + " (" + "https://creativecommons.org/licenses/by-nc-sa/2.0/" + ")"
    case 2 => "Attribution-NonCommercial License" + " (" + "https://creativecommons.org/licenses/by-nc/2.0/" + ")"
    case 3 => "Attribution-NonCommercial-NoDerivs License" + " (" + "https://creativecommons.org/licenses/by-nc-nd/2.0/" + ")"
    case 4 => "Attribution License" + " (" + "https://creativecommons.org/licenses/by/2.0/" + ")"
    case 5 => "Attribution-ShareAlike License" + " (" + "https://creativecommons.org/licenses/by-sa/2.0/" + ")"
    case 6 => "Attribution-NoDerivs License" + " (" + "https://creativecommons.org/licenses/by-nd/2.0/" + ")"
    case 7 => "No known copyright restrictions" + " (" + "https://www.flickr.com/commons/usage/" + ")"
    case 8 => "United States Government Work" + " (" + "http://www.usa.gov/copyright.shtml" + ")"
    case 9 => "Public Domain Dedication (CC0)" + " (" + "https://creativecommons.org/publicdomain/zero/1.0/" + ")"
    case 10 => "Public Domain Mark" + " (" + "https://creativecommons.org/publicdomain/mark/1.0/" + ")"
  }

  /** For tiers 1 to 10 the older table agrees with the catalogue's
      "<name> (<link>)". */
  lemma CopyrightMatchesCatalogue(t: int)
    requires 1 <= t <= 10
    ensures CopyrightString(t) == LicenseDescription(t)
  {
    match t
    case 1 =>
    case 2 =>
    case 3 =>
    case 4 =>
    case 5 =>
    case 6 =>
    case 7 =>
    case 8 =>
    case 9 =>
    case 10 =>
  }

  /** For tier 0 it is the bare name, where the catalogue's description
      carries an empty pair of brackets. */
  lemma CopyrightAllRightsReserved()
    ensures CopyrightString(0) == LicenseName(0)
    ensures CopyrightString(0) != LicenseDescription(0)
  {
    assert |LicenseDescription(0)| == |LicenseName(0)| + 3;
  }

  /** The tags the older `setExifMetadata` writes; its copyright lookup
      panics on an unknown tier, which is the copyright's error here. */
  function OldTags(info: PhotoInfo, stamp: int -> string): (tags: Exif.Tags)
    ensures tags.copyright.Success? <==> IsKnownLicense(info.license)
    ensures tags.copyright.Success? ==> tags.copyright.value == CopyrightString(info.license)
    ensures tags.copyright.Failure? ==> tags.copyright.error == UnknownLicense(info.license)
    ensures tags.artist == Exif.ArtistTag(info) && tags.description == Exif.DescriptionTag(info)
    ensures tags.dateTime == stamp(info.dateUploaded)
  {
    var copyright := if IsKnownLicense(info.license) then Success(CopyrightString(info.license)) else Failure(UnknownLicense(info.license));
    Exif.Tags(Exif.ArtistTag(info), copyright, Exif.DescriptionTag(info), Exif.DateTimeTag(info, stamp))
  }

  /** The two revisions write the same tags except the copyright of tier 0
      (and both fail the Copyright step on an unknown tier). */
  lemma OldTagsAgree(info: PhotoInfo, stamp: int -> string)
    ensures info.license != 0 <==> OldTags(info, stamp) == Exif.ExifTags(info, stamp)
  {
    if info.license == 0 {
      CopyrightAllRightsReserved();
    } else if IsKnownLicense(info.license) {
      CopyrightMatchesCatalogue(info.license);
    }
  }

  // ---------------------------------------------------------------------
  // File names
  // ---------------------------------------------------------------------

  /** The decimal digit `d`. */
  function DigitChar(d: int): char
    requires 0 <= d < 10
  {
    (48 + d) as char
  }

  /** `%d` of a non-negative number: its decimal digits, no leading zero. */
  function Decimal(n: nat): (s: string)
    ensures |s| >= 1
    ensures forall k :: 0 <= k < |s| ==> '0' <= s[k] <= '9'
    decreases n
  {
    if n < 10 then [DigitChar(n)] else Decimal(n / 10) + [DigitChar(n % 10)]
  }

  /** The value of a string of decimal digits. */
  function ParseDecimal(s: string): int
    decreases |s|
  {
    if s == [] then 0 else ParseDecimal(s[..|s| - 1]) * 10 + (s[|s| - 1] as int - 48)
  }

  /** Reading the digits back gives the number. */
  lemma {:induction false} DecimalRoundTrip(n: nat)
    ensures ParseDecimal(Decimal(n)) == n
    decreases n
  {
    var s := Decimal(n);
    if n < 10 {
      assert s[..0] == [];
    } else {
      DecimalRoundTrip(n / 10);
      assert s[..|s| - 1] == Decimal(n / 10);
    }
  }

  /** The output folder "<location>/<query>". */
  function Folder(p: Parameters): Path
  {
    p.outputLocation + "/" + p.query
  }

  /** The path handed to `download` for photo `i`: "<folder>/<query>_<i>". */
  function DownloadPath(folder: Path, query: string, i: nat): Path
  {
    folder + "/" + query + "_" + Decimal(i)
  }

  /** Where photo `i` is saved: "<folder>/<query>_<i>.jpeg". */
  function ImagePath(folder: Path, query: string, i: nat): (path: Path)
    ensures |path| == |folder| + |query| + |Decimal(i)| + 7
    ensures path[..|folder| + |query| + 2] == folder + "/" + query + "_"
    ensures path[|folder| + |query| + 2..|path| - 5] == Decimal(i)
    ensures path[..|path| - 5] == DownloadPath(folder, query, i)
    ensures path[|path| - 5..] == ".jpeg"
  {
    DownloadPath(folder, query, i) + ".jpeg"
  }

  /** Distinct photos are saved to distinct files. */
  lemma ImagePathInjective(folder: Path, query: string, i: nat, j: nat)
    requires ImagePath(folder, query, i) == ImagePath(folder, query, j)
    ensures i == j
  {
    var a := folder + "/" + query + "_";
    var di, dj := Decimal(i), Decimal(j);
    assert ImagePath(folder, query, i) == a + di + ".jpeg";
    assert ImagePath(folder, query, j) == a + dj + ".jpeg";
    assert |di| == |dj|;
    assert di == (a + di + ".jpeg")[|a|..|a| + |di|];
    assert dj == (a + dj + ".jpeg")[|a|..|a| + |dj|];
    DecimalRoundTrip(i);
    DecimalRoundTrip(j);
  }

  // ---------------------------------------------------------------------
  // Download and Execute
  // ---------------------------------------------------------------------

  /** `download` of one photo to `filePath` + ".jpeg": save the image, fetch
      the detail record, rewrite the EXIF block. The error reported is the
      image's, then the detail record's, then the rewrite's, where an
      unknown tier fails the rewrite's Copyright step. */
  function DownloadSpec<S, B>(sv: Services<S, B>, files: map<Path, Bytes>, photo: Photo, filePath: Path): (Option<Error>, map<Path, Bytes>)
  {
    var imagePath := filePath + ".jpeg";
    match sv.fetchJpg(photo)
    case Failure(e) => (Some(e), files)
    case Success(bytes) =>
      var saved := files[imagePath := bytes];
      match sv.fetchInfo(photo)
      case Failure(e) => (Some(e), saved)
      case Success(info) =>
        var a := Exif.Rewrite(Some(bytes), imagePath, OldTags(info, sv.stamp), sv.lib);
        match a.result
        case Failure(e) => (Some(e), saved)
        case Success(out) => (None, saved[imagePath := out])
  }

  /** A download touches its own image file and nothing else. */
  lemma DownloadTouchesOneFile<S, B>(sv: Services<S, B>, files: map<Path, Bytes>, photo: Photo, filePath: Path)
    ensures var (_, files') := DownloadSpec(sv, files, photo, filePath);
      && files'.Keys <= files.Keys + {filePath + ".jpeg"}
      && forall path :: path in files && path != filePath + ".jpeg" ==> path in files' && files'[path] == files[path]
  {
  }

  /** A download succeeds exactly when the image, the detail record of a
      known tier and the rewrite all succeed, and the file then holds the
      rewritten image. */
  lemma DownloadSucceeds<S, B>(sv: Services<S, B>, files: map<Path, Bytes>, photo: Photo, filePath: Path)
    ensures var (err, files') := DownloadSpec(sv, files, photo, filePath);
      var imagePath := filePath + ".jpeg";
      && (err.None? <==>
            && sv.fetchJpg(photo).Success? && sv.fetchInfo(photo).Success?
            && IsKnownLicense(sv.fetchInfo(photo).value.license)
            && Exif.Rewrite(Some(sv.fetchJpg(photo).value), imagePath,
                            OldTags(sv.fetchInfo(photo).value, sv.stamp), sv.lib).result.Success?)
      && (err.None? ==>
            && imagePath in files'
            && files'[imagePath] == Exif.Rewrite(Some(sv.fetchJpg(photo).value), imagePath,
                                                 OldTags(sv.fetchInfo(photo).value, sv.stamp), sv.lib).result.value)
  {
  }

  /** `download` on the disk. */
  method OldDownload<S, B>(disk: Disk, sv: Services<S, B>, photo: Photo, filePath: Path) returns (err: Option<Error>)
    modifies disk
    ensures (err, disk.files) == DownloadSpec(sv, old(disk.files), photo, filePath)
  {
    var imagePath := filePath + ".jpeg";
    var jpg := sv.fetchJpg(photo);
    if jpg.Failure? {
      return Some(jpg.error);
    }
    disk.files := disk.files[imagePath := jpg.value];
    var info := sv.fetchInfo(photo);
    if info.Failure? {
      return Some(info.error);
    }
    ghost var performed;
    err, performed := Exif.SetExifMetadata(disk, imagePath, OldTags(info.value, sv.stamp), sv.lib);
  }

  /** Downloading `photos` in order, photo `i` to `DownloadPath(folder, query, i)`:
      the outcome of each and the disk afterwards. */
  function DownloadAll<S, B>(sv: Services<S, B>, files: map<Path, Bytes>, photos: seq<Photo>, folder: Path, query: string): (r: (seq<Option<Error>>, map<Path, Bytes>))
    ensures |r.0| == |photos|
    decreases |photos|
  {
    if photos == [] then ([], files)
    else
      var k := |photos| - 1;
      var (errs, before) := DownloadAll(sv, files, photos[..k], folder, query);
      var (e, after) := DownloadSpec(sv, before, photos[k], DownloadPath(folder, query, k));
      (errs + [e], after)
  }

  /** Downloading only ever writes the image files "<folder>/<query>_<i>.jpeg"
      of the photos. */
  lemma {:induction false} DownloadAllFiles<S, B>(sv: Services<S, B>, files: map<Path, Bytes>, photos: seq<Photo>, folder: Path, query: string)
    ensures var (_, files') := DownloadAll(sv, files, photos, folder, query);
      forall path :: path in files && (forall i :: 0 <= i < |photos| ==> path != ImagePath(folder, query, i)) ==>
        path in files' && files'[path] == files[path]
    decreases |photos|
  {
    if photos != [] {
      var k := |photos| - 1;
      DownloadAllFiles(sv, files, photos[..k], folder, query);
      var before := DownloadAll(sv, files, photos[..k], folder, query).1;
      var after := DownloadAll(sv, files, photos, folder, query).1;
      assert after == DownloadSpec(sv, before, photos[k], DownloadPath(folder, query, k)).1;
      DownloadTouchesOneFile(sv, before, photos[k], DownloadPath(folder, query, k));
      forall path | path in files && (forall i :: 0 <= i < |photos| ==> path != ImagePath(folder, query, i))
        ensures path in after && after[path] == files[path]
      {
        assert path != ImagePath(folder, query, k);
        assert forall i :: 0 <= i < k ==> path != ImagePath(folder, query, i);
      }
    }
  }

  /** Once every photo is downloaded, a photo whose download succeeded is
      saved at its own image path "<folder>/<query>_<k>.jpeg", holding its
      image with the rewritten EXIF block: later downloads write other
      paths. */
  lemma {:induction false} DownloadAllSaves<S, B>(sv: Services<S, B>, files: map<Path, Bytes>, photos: seq<Photo>, folder: Path, query: string, k: nat)
    requires k < |photos|
    ensures var (errs, files') := DownloadAll(sv, files, photos, folder, query);
      var path := ImagePath(folder, query, k);
      errs[k].None? ==>
        && sv.fetchJpg(photos[k]).Success? && sv.fetchInfo(photos[k]).Success?
        && Exif.Rewrite(Some(sv.fetchJpg(photos[k]).value), path,
                        OldTags(sv.fetchInfo(photos[k]).value, sv.stamp), sv.lib).result.Success?
        && path in files'
        && files'[path] == Exif.Rewrite(Some(sv.fetchJpg(photos[k]).value), path,
                                        OldTags(sv.fetchInfo(photos[k]).value, sv.stamp), sv.lib).result.value
    decreases |photos|
  {
    var m := |photos| - 1;
    var (errs0, before) := DownloadAll(sv, files, photos[..m], folder, query);
    var (e, after) := DownloadSpec(sv, before, photos[m], DownloadPath(folder, query, m));
    assert DownloadAll(sv, files, photos, folder, query) == (errs0 + [e], after);
    if k == m {
      DownloadSucceeds(sv, before, photos[m], DownloadPath(folder, query, m));
    } else {
      assert photos[..m][k] == photos[k];
      assert (errs0 + [e])[k] == errs0[k];
      DownloadAllSaves(sv, files, photos[..m], folder, query, k);
      DownloadTouchesOneFile(sv, before, photos[m], DownloadPath(folder, query, m));
      if ImagePath(folder, query, k) == ImagePath(folder, query, m) {
        ImagePathInjective(folder, query, k, m);
      }
    }
  }

  /** The older `Execute`: make the folder (its error is ignored), discover,
      download every photo, then report the first error. */
  function OldExecuteSpec<S, B>(sv: Services<S, B>, p: Parameters, files: map<Path, Bytes>): (Option<Error>, map<Path, Bytes>)
    requires p.numberOfImages >= 0
  {
    var run := OldDiscover(sv.search, p.numberOfImages);
    if run.err.Some? then (run.err, files)
    else
      var (errs, files') := DownloadAll(sv, files, run.photos, Folder(p), p.query);
      (Execute.FirstError(errs), files')
  }

  /** `Execute` on the disk. The source starts every download before reading
      any outcome and returns the first error it receives; here the
      downloads run in order and the first error by photo index is
      returned. */
  method OldExecute<S, B>(disk: Disk, sv: Services<S, B>, p: Parameters) returns (err: Option<Error>)
    requires p.numberOfImages >= 0
    modifies disk
    ensures (err, disk.files) == OldExecuteSpec(sv, p, old(disk.files))
  {
    var folder := p.outputLocation + "/" + p.query;
    var q := p.query;
    var n := p.numberOfImages;
    var photos, searchErr;
    ghost var searched;
    photos, searchErr, searched := OldFindUniqueOwnerPhotos(sv.search, n);
    if searchErr.Some? {
      return searchErr;
    }
    var errs: seq<Option<Error>> := [];
    for i := 0 to |photos|
      invariant (errs, disk.files) == DownloadAll(sv, old(disk.files), photos[..i], folder, q)
    {
      assert photos[..i + 1][..i] == photos[..i];
      var e := OldDownload(disk, sv, photos[i], DownloadPath(folder, q, i));
      errs := errs + [e];
    }
    assert photos[..|photos|] == photos;
    err := None;
    for i := 0 to |errs|
      invariant Execute.FirstError(errs) == Execute.FirstError(errs[i..])
    {
      assert errs[i..] == [errs[i]] + errs[i + 1..];
      if errs[i].Some? {
        return errs[i];
      }
      assert errs[i..][1..] == errs[i + 1..];
    }
  }

  /** Every file `OldExecute` leaves changed is the image of one of the
      discovered photos, and distinct photos have distinct images. */
  lemma OldExecuteWritesImagesOnly<S, B>(sv: Services<S, B>, p: Parameters, files: map<Path, Bytes>, path: Path)
    requires p.numberOfImages >= 0
    requires path in files
    requires var run := OldDiscover(sv.search, p.numberOfImages);
      forall i :: 0 <= i < |run.photos| ==> path != ImagePath(Folder(p), p.query, i)
    ensures var (_, files') := OldExecuteSpec(sv, p, files);
      path in files' && files'[path] == files[path]
  {
    var run := OldDiscover(sv.search, p.numberOfImages);
    DownloadAllFiles(sv, files, run.photos, Folder(p), p.query);
  }

  /** When the older `Execute` reports no error, every discovered photo `i`
      is saved at "<folder>/<query>_<i>.jpeg" with its EXIF block rewritten. */
  lemma OldExecuteSaves<S, B>(sv: Services<S, B>, p: Parameters, files: map<Path, Bytes>, i: nat)
    requires p.numberOfImages >= 0
    requires i < |OldDiscover(sv.search, p.numberOfImages).photos|
    ensures var run := OldDiscover(sv.search, p.numberOfImages);
      var (err, files') := OldExecuteSpec(sv, p, files);
      var path := ImagePath(Folder(p), p.query, i);
      err.None? ==>
        && sv.fetchJpg(run.photos[i]).Success? && sv.fetchInfo(run.photos[i]).Success?
        && Exif.Rewrite(Some(sv.fetchJpg(run.photos[i]).value), path,
                        OldTags(sv.fetchInfo(run.photos[i]).value, sv.stamp), sv.lib).result.Success?
        && path in files'
        && files'[path] == Exif.Rewrite(Some(sv.fetchJpg(run.photos[i]).value), path,
                                        OldTags(sv.fetchInfo(run.photos[i]).value, sv.stamp), sv.lib).result.value
  {
    var run := OldDiscover(sv.search, p.numberOfImages);
    if run.err.None? {
      DownloadAllSaves(sv, files, run.photos, Folder(p), p.query, i);
    }
  }
}
