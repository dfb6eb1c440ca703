/** The polling consumer: turning listing records into file descriptors and
    walking the share depth first. */
module Consumer {
  import opened Attributes
  import opened Share

  /** The endpoint settings a poll reads. The share and the path under it
      together give the endpoint path; `fileSeparator` is the separator the
      descriptor uses when it builds absolute paths (a platform setting). */
  datatype Config = Config(
    share: string,
    path: string,
    fileSeparator: string,
    recursive: bool,
    minDepth: int,
    maxDepth: int)

  /** The canonical file descriptor handed to the routing pipeline. */
  datatype GenericFile = GenericFile(
    absoluteFilePath: string,
    absolute: bool,
    endpointPath: string,
    fileNameOnly: string,
    fileLength: int,
    lastModified: int,
    fileName: string,
    relativeFilePath: string,
    isDirectory: bool)

  /** What one poll call hands back: the file list it grew, and whether it got
      through its whole listing without a capacity rejection. */
  datatype PollResult = PollResult(files: seq<GenericFile>, more: bool)

  /** The relative-path prefix the consumer prepends to file names; it is never
      changed from the empty string. */
  const CurrentRelativePath: string := ""

  /** The endpoint path fixed when the consumer is built: share, a backslash,
      then the configured path. */
  function EndpointPath(cfg: Config): string
  {
    cfg.share + "\\" + cfg.path
  }

  /** One listing record under `path`, as a descriptor. */
  function AsGenericFile(cfg: Config, path: string, info: RawEntry): (f: GenericFile)
    ensures f.absoluteFilePath == path + cfg.fileSeparator + info.fileName
    ensures f.absolute && f.endpointPath == cfg.share + "\\" + cfg.path
    ensures f.fileNameOnly == info.fileName
    ensures f.fileName == info.fileName && f.relativeFilePath == info.fileName
    ensures f.fileLength == info.endOfFile && f.lastModified == info.lastWriteMillis
    ensures f.isDirectory <==> IsDirectory(info.fileAttributes)
  {
    GenericFile(
      absoluteFilePath := path + cfg.fileSeparator + info.fileName,
      absolute := true,
      endpointPath := EndpointPath(cfg),
      fileNameOnly := info.fileName,
      fileLength := info.endOfFile,
      lastModified := info.lastWriteMillis,
      fileName := CurrentRelativePath + info.fileName,
      relativeFilePath := info.fileName,
      isDirectory := IsDirectory(info.fileAttributes))
  }

  /** The absolute path splits back into the parent path, the separator and
      the name-only field. */
  lemma AbsolutePathSplits(cfg: Config, path: string, info: RawEntry)
    ensures var f := AsGenericFile(cfg, path, info);
            var p := f.absoluteFilePath;
            var k := |path| + |cfg.fileSeparator|;
            |p| == k + |f.fileNameOnly|
            && p[..|path|] == path && p[|path|..k] == cfg.fileSeparator && p[k..] == f.fileNameOnly
  {
  }

  /** Two records under the same path give the same descriptor exactly when
      they agree on name, size, modification time and the directory bit: the
      other attribute bits are the only thing the descriptor forgets. */
  lemma DescriptorForgetsOnlyOtherAttributeBits(cfg: Config, path: string, a: RawEntry, b: RawEntry)
    ensures AsGenericFile(cfg, path, a) == AsGenericFile(cfg, path, b) <==>
      && a.fileName == b.fileName
      && a.endOfFile == b.endOfFile
      && a.lastWriteMillis == b.lastWriteMillis
      && a.fileAttributes & FILE_ATTRIBUTE_DIRECTORY == b.fileAttributes & FILE_ATTRIBUTE_DIRECTORY
  {
  }

  /** The path the consumer descends into for a directory entry. */
  function SubDirName(fileName: string, f: GenericFile): string
  {
    fileName + "/" + f.fileName
  }

  /** Polls the directory at `fileName`, whose listing is `listing`, entered
      with the caller's `depth`. The depth is incremented once, locally. */
  function PollDirectory(
    cfg: Config,
    canPollMore: seq<GenericFile> -> bool,
    fileName: string,
    listing: seq<Entry>,
    depth: int,
    fileList: seq<GenericFile>): (r: PollResult)
    decreases Size(listing), 1
    ensures fileList <= r.files
    ensures forall i | |fileList| <= i < |r.files| :: !r.files[i].isDirectory
    ensures forall i | |fileList| <= i < |r.files| :: canPollMore(r.files[..i])
    ensures !r.more ==> !canPollMore(r.files)
  {
    PollEntries(cfg, canPollMore, fileName, listing, depth + 1, fileList)
  }

  /** The loop over the listing of `fileName`, with the already incremented
      `depth`, from the entry `entries[0]` on. */
  function PollEntries(
    cfg: Config,
    canPollMore: seq<GenericFile> -> bool,
    fileName: string,
    entries: seq<Entry>,
    depth: int,
    fileList: seq<GenericFile>): (r: PollResult)
    decreases Size(entries), 0
    ensures fileList <= r.files
    ensures forall i | |fileList| <= i < |r.files| :: !r.files[i].isDirectory
    ensures forall i | |fileList| <= i < |r.files| :: canPollMore(r.files[..i])
    ensures !r.more ==> !canPollMore(r.files)
  {
    if |entries| == 0 then
      PollResult(fileList, true)
    else if !canPollMore(fileList) then
      PollResult(fileList, false)
    else
      SizeShrinks(entries);
      var gf := AsGenericFile(cfg, fileName, entries[0].info);
      if gf.isDirectory then
        // The recursive call's boolean is dropped; only its list is kept.
        var afterSubDir :=
          if cfg.recursive && depth < cfg.maxDepth then
            PollDirectory(cfg, canPollMore, SubDirName(fileName, gf), Listing(entries[0]), depth, fileList).files
          else
            fileList;
        var r := PollEntries(cfg, canPollMore, fileName, entries[1..], depth, afterSubDir);
        assert forall i | |fileList| <= i <= |afterSubDir| :: r.files[..i] == afterSubDir[..i];
        r
      else if depth < cfg.minDepth then
        PollEntries(cfg, canPollMore, fileName, entries[1..], depth, fileList)
      else
        var r := PollEntries(cfg, canPollMore, fileName, entries[1..], depth, fileList + [gf]);
        assert r.files[..|fileList|] == fileList;
        r
  }
}
