/** The image library calls of the generation walks, as parameters: OpenCV's
    decoders and encoder, and the dataset's `transform_original_image`. */
module Images {
  import opened Base
  import opened FileSystems
  import opened Pixels

  /** `cv2.imread(p)` (colour), `cv2.imread(p, cv2.IMREAD_UNCHANGED)`,
      the encoding `cv2.imwrite` stores, and `transform_original_image`;
      a decoder gives `None` where OpenCV returns None. */
  datatype Imaging = Imaging(
    readColor: Bytes -> Option<Image>,
    readUnchanged: Bytes -> Option<Image>,
    write: Image -> Bytes,
    transform: Image -> Image)

  /** `cv2.imread` of a path: a missing file reads as `None` as well. */
  function ReadImage(fs: FileSystem, read: Bytes -> Option<Image>, p: Path): Option<Image>
  {
    if p in fs.files then read(fs.files[p]) else None
  }
}
