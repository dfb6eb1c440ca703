/** A remote share as an immutable tree, and the raw records its listings yield. */
module Share {
  import opened Attributes

  /** One record of a directory listing: name, end-of-file offset (the size),
      last write time already converted to epoch milliseconds, attributes. */
  datatype RawEntry = RawEntry(
    fileName: string,
    endOfFile: int,
    lastWriteMillis: int,
    fileAttributes: FileAttributes)

  /** A node of the share. Listing a directory yields the records of its
      children, in order. */
  datatype Entry =
    | File(info: RawEntry)
    | Dir(info: RawEntry, children: seq<Entry>)

  /** What a listing of the entry's path yields: its children if it is a
      directory node, and nothing otherwise. */
  function Listing(e: Entry): seq<Entry>
  {
    match e
    case Dir(_, children) => children
    case File(_) => []
  }

  /** The number of nodes in a forest; the walk terminates on it. */
  function Size(entries: seq<Entry>): nat
  {
    if |entries| == 0 then 0
    else
      1 + (match entries[0] case Dir(_, children) => Size(children) case File(_) => 0)
      + Size(entries[1..])
  }

  /** Descending into the first entry, or moving past it, shrinks the forest. */
  lemma SizeShrinks(entries: seq<Entry>)
    requires |entries| > 0
    ensures Size(Listing(entries[0])) < Size(entries)
    ensures Size(entries[1..]) < Size(entries)
  {
  }
}
