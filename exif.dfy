/** EXIF metadata of a downloaded JPEG (exif.go, and its copy in the older
    flickr_downloader.go): four IFD0 tags derived from the photo's detail
    record, written by a chain of fallible library steps that ends in
    overwriting the file.

    The JPEG/EXIF container library is an oracle: `S` stands for its parsed
    segment list, `B` for its EXIF builder. */
module Exif {
  import opened Types
  import opened Licenses

  // ---------------------------------------------------------------------
  // The tag values
  // ---------------------------------------------------------------------

  /** The four IFD0 tag values, in the order they are set. The copyright
      value comes from a license lookup that panics on an unknown tier; that
      panic is the error `copyright` then holds, raised when the Copyright
      step is reached. */
  datatype Tags = Tags(artist: string, copyright: Result<string>, description: string, dateTime: string)

  /** "Artist": "<real name> (on flickr @<user name>)". */
  function ArtistTag(info: PhotoInfo): (s: string)
    ensures info.owner.realName <= s
    ensures s[|info.owner.realName|..] == " (on flickr @" + info.owner.userName + ")"
  {
    info.owner.realName + " (on flickr @" + info.owner.userName + ")"
  }

  /** "Copyright": the license description of the photo's tier, so only a
      known tier has one. */
  function CopyrightTag(info: PhotoInfo): (s: string)
    requires IsKnownLicense(info.license)
    ensures LicenseName(info.license) <= s
  {
    LicenseDescription(info.license)
  }

  /** "ImageDescription": title, description and page URL on three lines. */
  function DescriptionTag(info: PhotoInfo): string
  {
    info.title + "\n" + info.description + "\n" + info.flickrUrl
  }

  /** "DateTime": the upload time of the photo, formatted by `stamp` (the
      library's timestamp format applied to the local time of an instant
      given in seconds since the epoch). The download time plays no part. */
  function DateTimeTag(info: PhotoInfo, stamp: int -> string): string
  {
    stamp(info.dateUploaded)
  }

  /** The tags `setExifMetadata` of exif.go derives from a detail record. */
  function ExifTags(info: PhotoInfo, stamp: int -> string): (tags: Tags)
    ensures tags.copyright.Success? <==> IsKnownLicense(info.license)
    ensures tags.copyright.Success? ==> tags.copyright.value == LicenseDescription(info.license)
    ensures tags.copyright.Failure? ==> tags.copyright.error == UnknownLicense(info.license)
    ensures tags.dateTime == stamp(info.dateUploaded)
  {
    var copyright := if IsKnownLicense(info.license) then Success(CopyrightTag(info)) else Failure(UnknownLicense(info.license));
    Tags(ArtistTag(info), copyright, DescriptionTag(info), DateTimeTag(info, stamp))
  }

  /** Two detail records that agree on the owner, tier, title, description,
      URL and upload time get the same tags: the tags are a function of the
      detail record alone, so rewriting a file is byte-stable. */
  lemma TagsDependOnInfoOnly(a: PhotoInfo, b: PhotoInfo, stamp: int -> string)
    requires a.owner.realName == b.owner.realName && a.owner.userName == b.owner.userName
    requires a.license == b.license && a.title == b.title && a.description == b.description
    requires a.flickrUrl == b.flickrUrl && a.dateUploaded == b.dateUploaded
    ensures ExifTags(a, stamp) == ExifTags(b, stamp)
  {
  }

  /** `s` cut at every line feed. */
  function Lines(s: string): (ls: seq<string>)
    ensures |ls| >= 1
    decreases |s|
  {
    if s == [] then [""]
    else
      var rest := Lines(s[1..]);
      if s[0] == '\n' then [""] + rest else [[s[0]] + rest[0]] + rest[1..]
  }

  /** A line without a line feed, followed by one, is the first line. */
  lemma {:induction false} LinesAppend(a: string, b: string)
    requires '\n' !in a
    ensures Lines(a + "\n" + b) == [a] + Lines(b)
    decreases |a|
  {
    if a == [] {
      assert a + "\n" + b == "\n" + b;
      assert ("\n" + b)[1..] == b;
    } else {
      assert (a + "\n" + b)[1..] == a[1..] + "\n" + b;
      assert (a + "\n" + b)[0] == a[0];
      LinesAppend(a[1..], b);
      assert [a[0]] + a[1..] == a;
    }
  }

  /** A string without a line feed is one line. */
  lemma {:induction false} LinesSingle(a: string)
    requires '\n' !in a
    ensures Lines(a) == [a]
    decreases |a|
  {
    if a != [] {
      LinesSingle(a[1..]);
      assert [a[0]] + a[1..] == a;
    }
  }

  /** The description tag gives back title, description and URL when none
      of them holds a line feed. */
  lemma DescriptionRoundTrip(info: PhotoInfo)
    requires '\n' !in info.title && '\n' !in info.description && '\n' !in info.flickrUrl
    ensures Lines(DescriptionTag(info)) == [info.title, info.description, info.flickrUrl]
  {
    var rest := info.description + "\n" + info.flickrUrl;
    assert DescriptionTag(info) == info.title + "\n" + rest;
    LinesAppend(info.title, rest);
    LinesAppend(info.description, info.flickrUrl);
    LinesSingle(info.flickrUrl);
  }

  // ---------------------------------------------------------------------
  // Writing the tags
  // ---------------------------------------------------------------------

  /** The container library and the file write, as fallible steps. `openIfd0`
      returns the root builder with its IFD0 block present; `setTag` sets a
      standard tag, by name, in that block. */
  datatype ExifLib<!S, !B> = ExifLib(
    parse: Bytes -> Result<S>,
    constructBuilder: S -> Result<B>,
    openIfd0: B -> Result<B>,
    setTag: (B, string, string) -> Result<B>,
    setExif: (S, B) -> Result<S>,
    serialise: S -> Result<Bytes>,
    writeFile: (Path, Bytes) -> Option<Error>)

  /** The library calls of `setExifMetadata`. A tag whose value could not
      be computed fails its step before the library is called. */
  datatype Step =
    | Parse
    | ConstructBuilder
    | OpenIfd0
    | SetTag(name: string, value: Result<string>)
    | SetExif
    | Serialise
    | Overwrite

  /** Every step, in the order they are made: the tags go in as Artist,
      Copyright, ImageDescription, DateTime, and the file is overwritten last. */
  function Plan(tags: Tags): (p: seq<Step>)
    ensures |p| == 10 && p[9] == Overwrite
    ensures forall k :: 0 <= k < 9 ==> p[k] != Overwrite
  {
    [Parse, ConstructBuilder, OpenIfd0,
     SetTag("Artist", Success(tags.artist)),
     SetTag("Copyright", tags.copyright),
     SetTag("ImageDescription", Success(tags.description)),
     SetTag("DateTime", Success(tags.dateTime)),
     SetExif, Serialise, Overwrite]
  }

  /** The outcome of a rewrite: what was written, or the error of the step
      that failed; `performed` steps of the plan were made. */
  datatype Attempt = Attempt(result: Result<Bytes>, performed: nat)

  /** The steps of `Plan(tags)` on the file content `file` (`None` when
      there is no file at `path`), stopping at the first failure. */
  function Rewrite<S, B>(file: Option<Bytes>, path: Path, tags: Tags, lib: ExifLib<S, B>): (a: Attempt)
    ensures 1 <= a.performed <= |Plan(tags)|
    ensures a.result.Success? ==> a.performed == |Plan(tags)|
    ensures a.performed > 5 ==> tags.copyright.Success?
  {
    match file
    case None => Attempt(Failure(FileNotFound(path)), 1)
    case Some(bytes) =>
      match lib.parse(bytes)
      case Failure(e) => Attempt(Failure(e), 1)
      case Success(sl) =>
        match lib.constructBuilder(sl)
        case Failure(e) => Attempt(Failure(e), 2)
        case Success(root) =>
          match lib.openIfd0(root)
          case Failure(e) => Attempt(Failure(e), 3)
          case Success(b0) => SetTags(sl, b0, path, tags, lib)
  }

  /** Steps 4 to 7 and on: the four tags, in order, into the IFD0 builder
      `b0` of the segment list `sl`. */
  function SetTags<S, B>(sl: S, b0: B, path: Path, tags: Tags, lib: ExifLib<S, B>): (a: Attempt)
    ensures 4 <= a.performed <= |Plan(tags)|
    ensures a.result.Success? ==> a.performed == |Plan(tags)|
    ensures a.performed > 5 ==> tags.copyright.Success?
  {
    match lib.setTag(b0, "Artist", tags.artist)
    case Failure(e) => Attempt(Failure(e), 4)
    case Success(b1) =>
      match tags.copyright
      case Failure(e) => Attempt(Failure(e), 5)
      case Success(copyright) =>
        match lib.setTag(b1, "Copyright", copyright)
        case Failure(e) => Attempt(Failure(e), 5)
        case Success(b2) =>
          match lib.setTag(b2, "ImageDescription", tags.description)
          case Failure(e) => Attempt(Failure(e), 6)
          case Success(b3) =>
            match lib.setTag(b3, "DateTime", tags.dateTime)
            case Failure(e) => Attempt(Failure(e), 7)
            case Success(b4) => WriteBack(sl, b4, path, lib)
  }

  /** Steps 8 to 10: put the filled-in builder `ib` into `sl`, serialise,
      and overwrite the file at `path`. */
  function WriteBack<S, B>(sl: S, ib: B, path: Path, lib: ExifLib<S, B>): (a: Attempt)
    ensures 8 <= a.performed <= 10
    ensures a.result.Success? ==> a.performed == 10
  {
    match lib.setExif(sl, ib)
    case Failure(e) => Attempt(Failure(e), 8)
    case Success(sl') =>
      match lib.serialise(sl')
      case Failure(e) => Attempt(Failure(e), 9)
      case Success(out) =>
        match lib.writeFile(path, out)
        case Some(e) => Attempt(Failure(e), 10)
        case None => Attempt(Success(out), 10)
  }

  /** Where the rewrite stands between steps: the file as read, the parsed
      segment list, the segment list with the EXIF builder being filled
      in, the segment list with the new EXIF block, the serialised bytes,
      and the bytes once written to the file. */
  datatype Stage<S, B> =
    | Read(file: Option<Bytes>)
    | Parsed(sl: S)
    | Building(sl: S, ib: B)
    | Assembled(sl: S)
    | Serialised(out: Bytes)
    | Written(out: Bytes)

  /** One step of a plan on one stage: the library call the step makes and
      the stage it leads to, or the call's error. A step that does not fit
      the stage, which `Plan` never asks for, fails. */
  function Apply<S, B>(step: Step, st: Stage<S, B>, path: Path, lib: ExifLib<S, B>): Result<Stage<S, B>>
  {
    match (step, st)
    case (Parse, Read(None)) => Failure(FileNotFound(path))
    case (Parse, Read(Some(bytes))) =>
      (match lib.parse(bytes) case Failure(e) => Failure(e) case Success(sl) => Success(Parsed(sl)))
    case (ConstructBuilder, Parsed(sl)) =>
      (match lib.constructBuilder(sl) case Failure(e) => Failure(e) case Success(ib) => Success(Building(sl, ib)))
    case (OpenIfd0, Building(sl, ib)) =>
      (match lib.openIfd0(ib) case Failure(e) => Failure(e) case Success(ib') => Success(Building(sl, ib')))
    case (SetTag(name, Failure(e)), Building(_, _)) => Failure(e)
    case (SetTag(name, Success(v)), Building(sl, ib)) =>
      (match lib.setTag(ib, name, v) case Failure(e) => Failure(e) case Success(ib') => Success(Building(sl, ib')))
    case (SetExif, Building(sl, ib)) =>
      (match lib.setExif(sl, ib) case Failure(e) => Failure(e) case Success(sl') => Success(Assembled(sl')))
    case (Serialise, Assembled(sl)) =>
      (match lib.serialise(sl) case Failure(e) => Failure(e) case Success(out) => Success(Serialised(out)))
    case (Overwrite, Serialised(out)) =>
      (match lib.writeFile(path, out) case Some(e) => Failure(e) case None => Success(Written(out)))
    case _ => Failure(External("step out of order"))
  }

  /** The stage after the first `k` steps of `steps` from `st`, or the error
      of the step among them that failed first. */
  function After<S, B>(steps: seq<Step>, st: Stage<S, B>, path: Path, lib: ExifLib<S, B>, k: nat): Result<Stage<S, B>>
    requires k <= |steps|
  {
    if k == 0 then Success(st)
    else match After(steps, st, path, lib, k - 1)
      case Failure(e) => Failure(e)
      case Success(s) => Apply(steps[k - 1], s, path, lib)
  }

  /** Once a step has failed, no later step is made. */
  lemma {:induction false} AfterStaysFailed<S, B>(steps: seq<Step>, st: Stage<S, B>, path: Path, lib: ExifLib<S, B>, j: nat, k: nat)
    requires j <= k <= |steps|
    requires After(steps, st, path, lib, j).Failure?
    ensures After(steps, st, path, lib, k) == After(steps, st, path, lib, j)
    decreases k
  {
    if j < k {
      AfterStaysFailed(steps, st, path, lib, j, k - 1);
    }
  }

  /** `Rewrite` makes the calls of its plan: the steps before the last one
      made all succeeded, a failure is the error of the last step made, and
      a success is the content the plan wrote. */
  lemma RewriteFollowsPlan<S, B>(file: Option<Bytes>, path: Path, tags: Tags, lib: ExifLib<S, B>)
    ensures var a := Rewrite(file, path, tags, lib);
      var p := Plan(tags);
      && (forall k :: 0 <= k < a.performed ==> After(p, Read(file), path, lib, k).Success?)
      && (a.result.Failure? ==> After(p, Read(file), path, lib, a.performed) == Failure(a.result.error))
      && (a.result.Success? ==> After(p, Read(file), path, lib, |p|) == Success(Written(a.result.value)))
  {
    var p := Plan(tags);
    var s0: Stage<S, B> := Read(file);
    assert After(p, s0, path, lib, 0) == Success(s0);
    match file
    case None =>
      assert After(p, s0, path, lib, 1) == Failure(FileNotFound(path));
    case Some(bytes) =>
      match lib.parse(bytes)
      case Failure(e) =>
        assert After(p, s0, path, lib, 1) == Failure(e);
      case Success(sl) =>
        assert After(p, s0, path, lib, 1) == Success(Parsed(sl));
        match lib.constructBuilder(sl)
        case Failure(e) =>
          assert After(p, s0, path, lib, 2) == Failure(e);
        case Success(root) =>
          assert After(p, s0, path, lib, 2) == Success(Building(sl, root));
          match lib.openIfd0(root)
          case Failure(e) =>
            assert After(p, s0, path, lib, 3) == Failure(e);
          case Success(b0) =>
            assert After(p, s0, path, lib, 3) == Success(Building(sl, b0));
            TagsFollowPlan(file, path, tags, lib, sl, b0);
  }

  /** `RewriteFollowsPlan` from the IFD0 builder `b0` on. */
  lemma TagsFollowPlan<S, B>(file: Option<Bytes>, path: Path, tags: Tags, lib: ExifLib<S, B>, sl: S, b0: B)
    requires forall k :: 0 <= k < 3 ==> After(Plan(tags), Read(file), path, lib, k).Success?
    requires After(Plan(tags), Read(file), path, lib, 3) == Success(Building(sl, b0))
    ensures var a := SetTags(sl, b0, path, tags, lib);
      var p := Plan(tags);
      && (forall k :: 0 <= k < a.performed ==> After(p, Read(file), path, lib, k).Success?)
      && (a.result.Failure? ==> After(p, Read(file), path, lib, a.performed) == Failure(a.result.error))
      && (a.result.Success? ==> After(p, Read(file), path, lib, |p|) == Success(Written(a.result.value)))
  {
    var p := Plan(tags);
    var s0: Stage<S, B> := Read(file);
    match lib.setTag(b0, "Artist", tags.artist)
    case Failure(e) =>
      assert After(p, s0, path, lib, 4) == Failure(e);
    case Success(b1) =>
      assert After(p, s0, path, lib, 4) == Success(Building(sl, b1));
      match tags.copyright
      case Failure(e) =>
        assert After(p, s0, path, lib, 5) == Failure(e);
      case Success(copyright) =>
        match lib.setTag(b1, "Copyright", copyright)
        case Failure(e) =>
          assert After(p, s0, path, lib, 5) == Failure(e);
        case Success(b2) =>
          assert After(p, s0, path, lib, 5) == Success(Building(sl, b2));
          match lib.setTag(b2, "ImageDescription", tags.description)
          case Failure(e) =>
            assert After(p, s0, path, lib, 6) == Failure(e);
          case Success(b3) =>
            assert After(p, s0, path, lib, 6) == Success(Building(sl, b3));
            match lib.setTag(b3, "DateTime", tags.dateTime)
            case Failure(e) =>
              assert After(p, s0, path, lib, 7) == Failure(e);
            case Success(b4) =>
              assert After(p, s0, path, lib, 7) == Success(Building(sl, b4));
              WriteBackFollowsPlan(file, path, tags, lib, sl, b4);
  }

  /** `RewriteFollowsPlan` from the filled-in builder `ib` on. */
  lemma WriteBackFollowsPlan<S, B>(file: Option<Bytes>, path: Path, tags: Tags, lib: ExifLib<S, B>, sl: S, ib: B)
    requires forall k :: 0 <= k < 7 ==> After(Plan(tags), Read(file), path, lib, k).Success?
    requires After(Plan(tags), Read(file), path, lib, 7) == Success(Building(sl, ib))
    ensures var a := WriteBack(sl, ib, path, lib);
      var p := Plan(tags);
      && (forall k :: 0 <= k < a.performed ==> After(p, Read(file), path, lib, k).Success?)
      && (a.result.Failure? ==> After(p, Read(file), path, lib, a.performed) == Failure(a.result.error))
      && (a.result.Success? ==> After(p, Read(file), path, lib, |p|) == Success(Written(a.result.value)))
  {
    var p := Plan(tags);
    var s0: Stage<S, B> := Read(file);
    match lib.setExif(sl, ib)
    case Failure(e) =>
      assert After(p, s0, path, lib, 8) == Failure(e);
    case Success(sl') =>
      assert After(p, s0, path, lib, 8) == Success(Assembled(sl'));
      match lib.serialise(sl')
      case Failure(e) =>
        assert After(p, s0, path, lib, 9) == Failure(e);
      case Success(out) =>
        assert After(p, s0, path, lib, 9) == Success(Serialised(out));
        assert After(p, s0, path, lib, 10) == Apply(Overwrite, Serialised(out), path, lib);
  }

  /** A copyright that could not be computed (an unknown tier) fails the
      rewrite, at the Copyright step exactly when the parse, the builders
      and the Artist tag before it succeeded; an earlier failure is
      reported instead. */
  lemma CopyrightFailsAtItsStep<S, B>(file: Option<Bytes>, path: Path, tags: Tags, lib: ExifLib<S, B>)
    requires tags.copyright.Failure?
    ensures var a := Rewrite(file, path, tags, lib);
      && a.result.Failure? && a.performed <= 5
      && (a.performed == 5 <==> After(Plan(tags), Read(file), path, lib, 4).Success?)
      && (a.performed == 5 ==> a.result.error == tags.copyright.error)
  {
    var a := Rewrite(file, path, tags, lib);
    var p := Plan(tags);
    RewriteFollowsPlan(file, path, tags, lib);
    if a.performed < 5 {
      AfterStaysFailed(p, Read(file), path, lib, a.performed, 4);
    } else {
      var st := After(p, Read(file), path, lib, 4);
      assert After(p, Read(file), path, lib, 5) == Apply(p[4], st.value, path, lib);
    }
  }

  /** The file is overwritten exactly when the nine steps before the
      overwrite all succeeded. */
  lemma OverwriteLast<S, B>(file: Option<Bytes>, path: Path, tags: Tags, lib: ExifLib<S, B>)
    ensures var a := Rewrite(file, path, tags, lib);
      var p := Plan(tags);
      Overwrite in p[..a.performed] <==> After(p, Read(file), path, lib, |p| - 1).Success?
  {
    var a := Rewrite(file, path, tags, lib);
    var p := Plan(tags);
    RewriteFollowsPlan(file, path, tags, lib);
    if a.performed < |p| {
      assert forall k :: 0 <= k < a.performed ==> p[..a.performed][k] == p[k];
      AfterStaysFailed(p, Read(file), path, lib, a.performed, |p| - 1);
    } else {
      assert p[..a.performed][9] == Overwrite;
    }
  }

  /** `setExifMetadata`: rewrite the file at `path` with `tags` in its IFD0
      block. The disk changes only when the final write succeeds, and then
      only at `path`; `performed` counts the steps of the plan made. */
  method SetExifMetadata<S, B>(disk: Disk, path: Path, tags: Tags, lib: ExifLib<S, B>)
    returns (err: Option<Error>, ghost performed: nat)
    modifies disk
    ensures var a := Rewrite(if path in old(disk.files) then Some(old(disk.files)[path]) else None, path, tags, lib);
      && performed == a.performed
      && (err.None? <==> a.result.Success?)
      && (err.Some? ==> a.result == Failure(err.value))
      && disk.files == if a.result.Success? then old(disk.files)[path := a.result.value] else old(disk.files)
  {
    performed := 1;
    if path !in disk.files {
      return Some(FileNotFound(path)), performed;
    }
    var parsed := lib.parse(disk.files[path]);
    if parsed.Failure? {
      return Some(parsed.error), performed;
    }
    var sl := parsed.value;
    performed := 2;
    var rootIb := lib.constructBuilder(sl);
    if rootIb.Failure? {
      return Some(rootIb.error), performed;
    }
    performed := 3;
    var ifd0Ib := lib.openIfd0(rootIb.value);
    if ifd0Ib.Failure? {
      return Some(ifd0Ib.error), performed;
    }
    performed := 4;
    var artist := lib.setTag(ifd0Ib.value, "Artist", tags.artist);
    if artist.Failure? {
      return Some(artist.error), performed;
    }
    performed := 5;
    if tags.copyright.Failure? {
      return Some(tags.copyright.error), performed;
    }
    var copyright := lib.setTag(artist.value, "Copyright", tags.copyright.value);
    if copyright.Failure? {
      return Some(copyright.error), performed;
    }
    performed := 6;
    var description := lib.setTag(copyright.value, "ImageDescription", tags.description);
    if description.Failure? {
      return Some(description.error), performed;
    }
    performed := 7;
    var dateTime := lib.setTag(description.value, "DateTime", tags.dateTime);
    if dateTime.Failure? {
      return Some(dateTime.error), performed;
    }
    var ib := dateTime.value;
    performed := 8;
    var assembled := lib.setExif(sl, ib);
    if assembled.Failure? {
      return Some(assembled.error), performed;
    }
    performed := 9;
    var out := lib.serialise(assembled.value);
    if out.Failure? {
      return Some(out.error), performed;
    }
    performed := 10;
    err := lib.writeFile(path, out.value);
    if err.None? {
      disk.files := disk.files[path := out.value];
    }
  }
}
