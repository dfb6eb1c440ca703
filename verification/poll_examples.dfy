/** Concrete polls over a small share. */
module PollExamples {
  import opened Attributes
  import opened Share
  import opened Consumer
  import opened Traversal

  function Record(name: string, attrs: FileAttributes): RawEntry
  {
    RawEntry(name, 0, 0, attrs)
  }

  function PlainFile(name: string): Entry
  {
    File(Record(name, FILE_ATTRIBUTE_NORMAL))
  }

  function Folder(name: string, children: seq<Entry>): Entry
  {
    Dir(Record(name, FILE_ATTRIBUTE_DIRECTORY), children)
  }

  function Names(files: seq<GenericFile>): seq<string>
  {
    if |files| == 0 then [] else [files[0].fileNameOnly] + Names(files[1..])
  }

  /** The share of the next example: in/a.txt, in/sub/b.txt and
      in/sub/deep/c.txt. */
  const DepthConfig := Config("share", "in", "/", true, 0, 2)
  const SubListing := [PlainFile("b.txt"), Folder("deep", [PlainFile("c.txt")])]
  const DepthShare := [PlainFile("a.txt"), Folder("sub", SubListing)]

  /** Inside `sub`, at depth 2, b.txt is reported and `deep` is not entered. */
  lemma SecondLevelOfDepthExample(canPollMore: seq<GenericFile> -> bool, a: GenericFile)
    requires forall l :: canPollMore(l)
    ensures PollEntries(DepthConfig, canPollMore, "in/sub", SubListing, 2, [a]).files
            == [a, AsGenericFile(DepthConfig, "in/sub", Record("b.txt", FILE_ATTRIBUTE_NORMAL))]
  {
  }

  /** in/a.txt, in/sub/b.txt and in/sub/deep/c.txt polled recursively with
      maximum depth 2: c.txt is not reported, because entering `deep` would
      need the depth 2 < 2. */
  lemma MaxDepthTwoStopsAtSecondLevel(canPollMore: seq<GenericFile> -> bool)
    requires forall l :: canPollMore(l)
    ensures Names(PollDirectory(DepthConfig, canPollMore, "in", DepthShare, 0, []).files) == ["a.txt", "b.txt"]
  {
    var cfg := DepthConfig;
    var a := AsGenericFile(cfg, "in", Record("a.txt", FILE_ATTRIBUTE_NORMAL));
    var b := AsGenericFile(cfg, "in/sub", Record("b.txt", FILE_ATTRIBUTE_NORMAL));
    SecondLevelOfDepthExample(canPollMore, a);
    assert SubDirName("in", AsGenericFile(cfg, "in", Folder("sub", SubListing).info)) == "in/sub";
    assert DepthShare[1..] == [Folder("sub", SubListing)];
    assert PollEntries(cfg, canPollMore, "in", DepthShare[1..], 1, [a]).files == [a, b];
    assert [] + [a] == [a];
    assert PollEntries(cfg, canPollMore, "in", DepthShare, 1, []).files == [a, b];
    assert PollDirectory(cfg, canPollMore, "in", DepthShare, 0, []).files == [a, b];
    assert [a, b][1..] == [b] && [b][1..] == [];
    assert Names([b]) == ["b.txt"];
    assert Names([a, b]) == ["a.txt"] + Names([b]);
  }

  /** A rejection inside a subdirectory that is the last entry of its parent:
      the subdirectory returns false, the parent has no next check, and the
      top-level call returns true although the predicate rejects the list. */
  lemma SubDirectoryRejectionInvisibleAtTop()
    ensures var cfg := Config("share", "in", "/", true, 0, 10);
            var share := [Folder("sub", [PlainFile("a.txt"), PlainFile("b.txt")])];
            var can := (l: seq<GenericFile>) => |l| < 1;
            var r := PollDirectory(cfg, can, "in", share, 0, []);
            Names(r.files) == ["a.txt"] && r.more && !can(r.files)
            && !PropagatingPollEntries(cfg, can, "in", share, 1, []).more
  {
  }
}
