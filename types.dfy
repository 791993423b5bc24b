/** Values shared by every part of the downloader: the records the photo
    service returns, the error values, and the local disk. */
module Types {

  newtype byte = b: int | 0 <= b < 256
  type Bytes = seq<byte>
  type Path = string

  datatype Option<+T> = None | Some(value: T)

  /** The (value, error) pairs of the Go code: exactly one of the two is meaningful. */
  datatype Result<+T> = Success(value: T) | Failure(error: Error)

  /** The errors the core produces or passes on. The wrapping constructors
      mirror the `fmt.Errorf` contexts that `execute` adds to an inner error. */
  datatype Error =
    | External(message: string)               // reported by the network, the disk or a foreign library
    | UnknownLicense(license: int)            // the source panics on this
    | FileNotFound(path: Path)                // a file that is read before it exists
    | DirectoryError(dir: Path, cause: Error) // "Error creating output directory at ..."
    | CacheReadError(dir: Path, cause: Error) // "Error reading cached images at ..."
    | SearchError(query: string, cause: Error) // "Error calling flickr API with term ..."
    | AcquisitionError(cause: Error)          // "Error with secondary flickr api calls ..."
    | AttributionError(path: Path, cause: Error) // "Error attributing file at ..."

  /** The `owner` element of a photo's detail record. */
  datatype InfoOwner = InfoOwner(id: string, userName: string, realName: string)

  /** The detail record fetched per photo (`PhotoInfo`). `dateUploaded` is in
      seconds since the Unix epoch. */
  datatype PhotoInfo = PhotoInfo(
    dateUploaded: int,
    license: int,
    owner: InfoOwner,
    title: string,
    description: string,
    flickrUrl: string)

  /** A search hit (`Photo`). `owner` is the owner's id; `ownerName` is the
      owner name that the current discovery requests as an extra and
      deduplicates on; `info` is filled in by the detail fetch. */
  datatype Photo = Photo(
    id: string,
    owner: string,
    ownerName: string,
    title: string,
    secret: string,
    server: string,
    license: int,
    info: PhotoInfo)

  /** The local file system: the bytes stored at each path. */
  class Disk {
    var files: map<Path, Bytes>

    constructor (files: map<Path, Bytes>)
      ensures this.files == files
    {
      this.files := files;
    }
  }
}
