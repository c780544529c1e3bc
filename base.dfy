/** Shared vocabulary: bytes, paths, optional values and the exceptions the
    Python code can raise, each as a value. */
module Base {

  /** One octet of a file or of an 8-bit image channel. */
  newtype Byte = b: int | 0 <= b < 256

  type Bytes = seq<Byte>

  /** A POSIX path, kept as the string the Python code manipulates. */
  type Path = string

  datatype Option<T> = None | Some(value: T)

  datatype Result<T> = Ok(value: T) | Err(error: Error)

  /** The exceptions of the modelled code, one constructor per cause. */
  datatype Error =
    | KeyError(key: string)               // a missing key of the `data` table
    | NotADirectory(path: Path)           // NotADirectoryError raised by the code itself
    | ValueError(line: string)            // a manifest line that does not unpack into two tokens
    | FileNotFound(path: Path)            // os.remove / shutil.copyfile / open on a missing file
    | SameFile(path: Path)                // shutil.copyfile onto its own source (SameFileError)
    | TransferError(url: string)          // urlretrieve could not fetch the URL
    | BadZipFile(path: Path)              // ZipFile could not read the archive
    | ImageUnreadable(path: Path)         // cv2.imread returned None and the code used it
    | ShapeMismatch(path: Path)           // numpy could not combine two images of different shapes
    | AttributeError(name: string)        // an attribute read before any assignment to it
    | NotImplemented                      // generate_rain found neither "rain_diff" nor "rain"
}
