/**
 * The abstract view of one directory entry as the duplicate mover sees it.
 * The filesystem is not modelled: an entry records what the listing and the
 * later calls on it (Info, Open, io.Copy) would report.
 */
module Entries {

  newtype byte = x: int | 0 <= x < 256

  /** An MD5 digest: always 16 bytes. */
  type Digest = s: seq<byte> | |s| == 16 witness seq(16, _ => 0)

  /**
   * The digest function. crypto/md5 is foreign code, so the model takes it as
   * a parameter; nothing is assumed about it except its type.
   */
  type Md5 = seq<byte> -> Digest

  /** What opening and streaming the file through io.Copy produces. */
  datatype Contents =
    | OpenFailed                  // os.Open returned an error
    | ReadFailed                  // io.Copy returned an error
    | Readable(data: seq<byte>)   // io.Copy reached end of file; data is every byte read

  /**
   * One entry of the source directory listing.
   * `size` is the length the listing reported, used only for a log note;
   * `infoOk` is whether DirEntry.Info() succeeds.
   */
  datatype Entry = Entry(name: string, isDir: bool, infoOk: bool, size: int, contents: Contents)
}
