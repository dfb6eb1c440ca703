/** An independent description of what a poll reports: every file of the
    share with its nesting level, filtered by the depth settings. The main
    theorem relates the poller to it. */
module Traversal {
  import opened Attributes
  import opened Share
  import opened Consumer

  /** A file of the share, as a descriptor, and its nesting level (the
      entries of the polled directory are at the level it is polled with). */
  datatype Found = Found(file: GenericFile, level: int)

  /** Every file of the forest `entries`, depth first in listing order, with
      its level: the children of a directory entry at level k are at level
      k + 1. Directory-ness is read from the attribute bit, as the poller does. */
  function AllFiles(cfg: Config, path: string, entries: seq<Entry>, level: int): (fs: seq<Found>)
    decreases Size(entries)
    ensures forall i | 0 <= i < |fs| :: fs[i].level >= level
    ensures forall i | 0 <= i < |fs| :: !fs[i].file.isDirectory
  {
    if |entries| == 0 then []
    else
      SizeShrinks(entries);
      var f := AsGenericFile(cfg, path, entries[0].info);
      var first :=
        if f.isDirectory then AllFiles(cfg, SubDirName(path, f), Listing(entries[0]), level + 1)
        else [Found(f, level)];
      first + AllFiles(cfg, path, entries[1..], level)
  }

  /** A directory entry at `level` is descended into. */
  predicate Descends(cfg: Config, level: int)
  {
    cfg.recursive && level < cfg.maxDepth
  }

  /** A file at `level` is reported by a poll whose own entries are at level
      `top`: it is deep enough, and it is either one of those entries or its
      parent directory was descended into. Descending is monotone in the
      level, so the parent's descent implies every ancestor's. */
  predicate Reported(cfg: Config, top: int, level: int)
  {
    level >= cfg.minDepth && (level == top || Descends(cfg, level - 1))
  }

  /** The reported files of `fs`, in order. */
  function Select(cfg: Config, top: int, fs: seq<Found>): (files: seq<GenericFile>)
    ensures |files| <= |fs|
  {
    if |fs| == 0 then []
    else (if Reported(cfg, top, fs[0].level) then [fs[0].file] else []) + Select(cfg, top, fs[1..])
  }

  lemma {:induction false} SelectAppend(cfg: Config, top: int, a: seq<Found>, b: seq<Found>)
    ensures Select(cfg, top, a + b) == Select(cfg, top, a) + Select(cfg, top, b)
  {
    if |a| > 0 {
      assert (a + b)[1..] == a[1..] + b;
      SelectAppend(cfg, top, a[1..], b);
    } else {
      assert a + b == b;
    }
  }

  /** Below a directory that is not descended into, nothing is reported. */
  lemma {:induction false} SelectBelowStoppedDirectory(cfg: Config, top: int, fs: seq<Found>)
    requires !Descends(cfg, top)
    requires forall i | 0 <= i < |fs| :: fs[i].level > top
    ensures Select(cfg, top, fs) == []
  {
    if |fs| > 0 {
      SelectBelowStoppedDirectory(cfg, top, fs[1..]);
    }
  }

  /** Below a directory that is descended into, reporting relative to the
      subdirectory and relative to the parent agree. */
  lemma {:induction false} SelectBelowDescendedDirectory(cfg: Config, top: int, fs: seq<Found>)
    requires Descends(cfg, top)
    requires forall i | 0 <= i < |fs| :: fs[i].level > top
    ensures Select(cfg, top + 1, fs) == Select(cfg, top, fs)
  {
    if |fs| > 0 {
      SelectBelowDescendedDirectory(cfg, top, fs[1..]);
    }
  }

  /** `files` is what a poll may return when `full` is the complete answer:
      a prefix of it, and short of it only if the capacity predicate rejects it. */
  predicate Approximates(canPollMore: seq<GenericFile> -> bool, files: seq<GenericFile>, full: seq<GenericFile>)
  {
    files <= full && (files == full || !canPollMore(files))
  }

  /** Sequencing a subdirectory poll and the rest of the parent's listing
      keeps the approximation. */
  lemma ComposeAfterSubDirectory(
    canPollMore: seq<GenericFile> -> bool,
    fileList: seq<GenericFile>, subSel: seq<GenericFile>, restSel: seq<GenericFile>,
    childFiles: seq<GenericFile>, files: seq<GenericFile>)
    requires Approximates(canPollMore, childFiles, fileList + subSel)
    requires childFiles == fileList + subSel ==> Approximates(canPollMore, files, childFiles + restSel)
    requires childFiles != fileList + subSel ==> files == childFiles
    ensures Approximates(canPollMore, files, fileList + (subSel + restSel))
  {
    assert fileList + (subSel + restSel) == (fileList + subSel) + restSel;
    if childFiles != fileList + subSel {
      assert ((fileList + subSel) + restSel)[..|fileList + subSel|] == fileList + subSel;
    }
  }

  /** A file is selected exactly when it occurs at a reported level. */
  lemma {:induction false} SelectMembers(cfg: Config, top: int, fs: seq<Found>, f: GenericFile)
    ensures f in Select(cfg, top, fs) <==>
      exists i | 0 <= i < |fs| :: fs[i].file == f && Reported(cfg, top, fs[i].level)
  {
    if |fs| > 0 {
      SelectMembers(cfg, top, fs[1..], f);
      if f in Select(cfg, top, fs[1..]) {
        var i :| 0 <= i < |fs[1..]| && fs[1..][i].file == f && Reported(cfg, top, fs[1..][i].level);
        assert fs[i + 1] == fs[1..][i];
      }
      if exists i | 0 <= i < |fs| :: fs[i].file == f && Reported(cfg, top, fs[i].level) {
        var i :| 0 <= i < |fs| && fs[i].file == f && Reported(cfg, top, fs[i].level);
        if i > 0 {
          assert fs[1..][i - 1] == fs[i];
        }
      }
    }
  }

  /** Once the capacity predicate rejects the list, a poll returns at once:
      the list is unchanged, and the result is `false` unless the listing was
      empty. */
  lemma PollStopsWhenRejected(
    cfg: Config, canPollMore: seq<GenericFile> -> bool,
    path: string, entries: seq<Entry>, depth: int, fileList: seq<GenericFile>)
    requires !canPollMore(fileList)
    ensures PollEntries(cfg, canPollMore, path, entries, depth, fileList) == PollResult(fileList, |entries| == 0)
  {
  }

  /** The poller against the reference: the list it returns is always a
      prefix of the full answer (the incoming list followed by the reported
      files in depth-first listing order), and it stops short of the full
      answer only when the capacity predicate rejects what it returns. */
  lemma {:induction false} PollEntriesAgainstReference(
    cfg: Config, canPollMore: seq<GenericFile> -> bool,
    path: string, entries: seq<Entry>, level: int, fileList: seq<GenericFile>)
    decreases Size(entries), 1
    ensures Approximates(canPollMore,
              PollEntries(cfg, canPollMore, path, entries, level, fileList).files,
              fileList + Select(cfg, level, AllFiles(cfg, path, entries, level)))
  {
    if |entries| == 0 || !canPollMore(fileList) {
      return;
    }
    if AsGenericFile(cfg, path, entries[0].info).isDirectory {
      DirectoryStepAgainstReference(cfg, canPollMore, path, entries, level, fileList);
    } else {
      FileStepAgainstReference(cfg, canPollMore, path, entries, level, fileList);
    }
  }

  /** The inductive step when the first entry is a directory. */
  lemma {:induction false} DirectoryStepAgainstReference(
    cfg: Config, canPollMore: seq<GenericFile> -> bool,
    path: string, entries: seq<Entry>, level: int, fileList: seq<GenericFile>)
    requires |entries| > 0 && canPollMore(fileList)
    requires AsGenericFile(cfg, path, entries[0].info).isDirectory
    decreases Size(entries), 0
    ensures Approximates(canPollMore,
              PollEntries(cfg, canPollMore, path, entries, level, fileList).files,
              fileList + Select(cfg, level, AllFiles(cfg, path, entries, level)))
  {
    SizeShrinks(entries);
    var r := PollEntries(cfg, canPollMore, path, entries, level, fileList);
    var all := AllFiles(cfg, path, entries, level);
    var gf := AsGenericFile(cfg, path, entries[0].info);
    var rest := AllFiles(cfg, path, entries[1..], level);
    var subPath := SubDirName(path, gf);
    var sub := AllFiles(cfg, subPath, Listing(entries[0]), level + 1);
    assert all == sub + rest;
    SelectAppend(cfg, level, sub, rest);
    if Descends(cfg, level) {
      var child := PollDirectory(cfg, canPollMore, subPath, Listing(entries[0]), level, fileList);
      assert r == PollEntries(cfg, canPollMore, path, entries[1..], level, child.files);
      PollEntriesAgainstReference(cfg, canPollMore, subPath, Listing(entries[0]), level + 1, fileList);
      SelectBelowDescendedDirectory(cfg, level, sub);
      if child.files == fileList + Select(cfg, level, sub) {
        PollEntriesAgainstReference(cfg, canPollMore, path, entries[1..], level, child.files);
      } else {
        PollStopsWhenRejected(cfg, canPollMore, path, entries[1..], level, child.files);
      }
      ComposeAfterSubDirectory(canPollMore, fileList, Select(cfg, level, sub), Select(cfg, level, rest), child.files, r.files);
    } else {
      SelectBelowStoppedDirectory(cfg, level, sub);
      assert Select(cfg, level, all) == Select(cfg, level, rest);
      assert r == PollEntries(cfg, canPollMore, path, entries[1..], level, fileList);
      PollEntriesAgainstReference(cfg, canPollMore, path, entries[1..], level, fileList);
    }
  }

  /** The inductive step when the first entry is a file. */
  lemma {:induction false} FileStepAgainstReference(
    cfg: Config, canPollMore: seq<GenericFile> -> bool,
    path: string, entries: seq<Entry>, level: int, fileList: seq<GenericFile>)
    requires |entries| > 0 && canPollMore(fileList)
    requires !AsGenericFile(cfg, path, entries[0].info).isDirectory
    decreases Size(entries), 0
    ensures Approximates(canPollMore,
              PollEntries(cfg, canPollMore, path, entries, level, fileList).files,
              fileList + Select(cfg, level, AllFiles(cfg, path, entries, level)))
  {
    SizeShrinks(entries);
    var all := AllFiles(cfg, path, entries, level);
    var gf := AsGenericFile(cfg, path, entries[0].info);
    var rest := AllFiles(cfg, path, entries[1..], level);
    assert all == [Found(gf, level)] + rest;
    SelectAppend(cfg, level, [Found(gf, level)], rest);
    var r := PollEntries(cfg, canPollMore, path, entries, level, fileList);
    if level < cfg.minDepth {
      assert r == PollEntries(cfg, canPollMore, path, entries[1..], level, fileList);
      assert Select(cfg, level, all) == Select(cfg, level, rest);
      PollEntriesAgainstReference(cfg, canPollMore, path, entries[1..], level, fileList);
    } else {
      assert r == PollEntries(cfg, canPollMore, path, entries[1..], level, fileList + [gf]);
      assert Select(cfg, level, all) == [gf] + Select(cfg, level, rest);
      PollEntriesAgainstReference(cfg, canPollMore, path, entries[1..], level, fileList + [gf]);
      assert (fileList + [gf]) + Select(cfg, level, rest) == fileList + Select(cfg, level, all);
    }
  }

  /** The top-level poll (entered with depth 0, so the root's entries are at
      level 1) against the reference. */
  lemma PollDirectoryAgainstReference(
    cfg: Config, canPollMore: seq<GenericFile> -> bool,
    root: string, listing: seq<Entry>, fileList: seq<GenericFile>)
    ensures Approximates(canPollMore,
              PollDirectory(cfg, canPollMore, root, listing, 0, fileList).files,
              fileList + Select(cfg, 1, AllFiles(cfg, root, listing, 1)))
  {
    PollEntriesAgainstReference(cfg, canPollMore, root, listing, 1, fileList);
  }

  /** Without a capacity limit a poll reports exactly the files at reported
      levels, in depth-first listing order: a file at level k (root entries
      at level 1) is reported iff k >= minDepth and either k == 1 or the
      poll is recursive and k - 1 < maxDepth. */
  lemma UnboundedPollReportsExactly(
    cfg: Config, canPollMore: seq<GenericFile> -> bool,
    root: string, listing: seq<Entry>, f: GenericFile)
    requires forall l :: canPollMore(l)
    ensures PollDirectory(cfg, canPollMore, root, listing, 0, []).files
            == Select(cfg, 1, AllFiles(cfg, root, listing, 1))
    ensures var fs := AllFiles(cfg, root, listing, 1);
            f in PollDirectory(cfg, canPollMore, root, listing, 0, []).files <==>
              exists i | 0 <= i < |fs| :: fs[i].file == f && Reported(cfg, 1, fs[i].level)
  {
    PollDirectoryAgainstReference(cfg, canPollMore, root, listing, []);
    assert [] + Select(cfg, 1, AllFiles(cfg, root, listing, 1)) == Select(cfg, 1, AllFiles(cfg, root, listing, 1));
    SelectMembers(cfg, 1, AllFiles(cfg, root, listing, 1), f);
  }

  /** The usual capacity bound: with "fewer than `max` files so far" as the
      predicate, a poll that starts with at most `max` files ends with at
      most `max`. */
  lemma CapacityBound(
    cfg: Config, max: nat, root: string, listing: seq<Entry>, depth: int, fileList: seq<GenericFile>)
    requires |fileList| <= max
    ensures |PollDirectory(cfg, l => |l| < max, root, listing, depth, fileList).files| <= max
  {
    var files := PollDirectory(cfg, l => |l| < max, root, listing, depth, fileList).files;
    if |files| > |fileList| {
      var i := |files| - 1;
      assert (l => |l| < max)(files[..i]);
    }
  }

  /** Two sibling directories are both entered with the depth of their
      parent's loop: the first subdirectory's descent does not raise the
      depth the second one sees. */
  lemma SiblingDirectoriesShareDepth(
    cfg: Config, canPollMore: seq<GenericFile> -> bool,
    path: string, d1: Entry, d2: Entry, depth: int, fileList: seq<GenericFile>)
    requires forall l :: canPollMore(l)
    requires IsDirectory(d1.info.fileAttributes) && IsDirectory(d2.info.fileAttributes)
    requires Descends(cfg, depth)
    ensures var f1 := AsGenericFile(cfg, path, d1.info);
            var f2 := AsGenericFile(cfg, path, d2.info);
            var after1 := PollDirectory(cfg, canPollMore, SubDirName(path, f1), Listing(d1), depth, fileList).files;
            PollEntries(cfg, canPollMore, path, [d1, d2], depth, fileList).files
            == PollDirectory(cfg, canPollMore, SubDirName(path, f2), Listing(d2), depth, after1).files
  {
    var f1 := AsGenericFile(cfg, path, d1.info);
    var f2 := AsGenericFile(cfg, path, d2.info);
    var after1 := PollDirectory(cfg, canPollMore, SubDirName(path, f1), Listing(d1), depth, fileList).files;
    var after2 := PollDirectory(cfg, canPollMore, SubDirName(path, f2), Listing(d2), depth, after1).files;
    assert [d1, d2][1..] == [d2];
    assert [d2][1..] == [];
    assert PollEntries(cfg, canPollMore, path, [d2], depth, after1).files == after2;
  }

  /** The alternative in which a `false` from a subdirectory also stops the
      parent at once, instead of being dropped. */
  function PropagatingPollEntries(
    cfg: Config,
    canPollMore: seq<GenericFile> -> bool,
    fileName: string,
    entries: seq<Entry>,
    depth: int,
    fileList: seq<GenericFile>): (r: PollResult)
    decreases Size(entries)
    ensures fileList <= r.files
    ensures !r.more ==> !canPollMore(r.files)
  {
    if |entries| == 0 then
      PollResult(fileList, true)
    else if !canPollMore(fileList) then
      PollResult(fileList, false)
    else
      SizeShrinks(entries);
      var gf := AsGenericFile(cfg, fileName, entries[0].info);
      if gf.isDirectory && cfg.recursive && depth < cfg.maxDepth then
        var child := PropagatingPollEntries(cfg, canPollMore, SubDirName(fileName, gf), Listing(entries[0]), depth + 1, fileList);
        if !child.more then child
        else PropagatingPollEntries(cfg, canPollMore, fileName, entries[1..], depth, child.files)
      else if gf.isDirectory || depth < cfg.minDepth then
        PropagatingPollEntries(cfg, canPollMore, fileName, entries[1..], depth, fileList)
      else
        PropagatingPollEntries(cfg, canPollMore, fileName, entries[1..], depth, fileList + [gf])
  }

  /** Dropping the subdirectory's result changes no file: after a rejection
      inside a subdirectory the parent's own next check rejects the same
      list. Only the returned flag can differ, and only towards `true`. */
  lemma {:induction false} DroppedSubDirectoryResultOnlyAffectsFlag(
    cfg: Config, canPollMore: seq<GenericFile> -> bool,
    path: string, entries: seq<Entry>, depth: int, fileList: seq<GenericFile>)
    decreases Size(entries)
    ensures var asWritten := PollEntries(cfg, canPollMore, path, entries, depth, fileList);
            var propagating := PropagatingPollEntries(cfg, canPollMore, path, entries, depth, fileList);
            asWritten.files == propagating.files && (propagating.more ==> asWritten.more)
  {
    if |entries| == 0 || !canPollMore(fileList) {
      return;
    }
    SizeShrinks(entries);
    var gf := AsGenericFile(cfg, path, entries[0].info);
    if gf.isDirectory && cfg.recursive && depth < cfg.maxDepth {
      var subPath := SubDirName(path, gf);
      DroppedSubDirectoryResultOnlyAffectsFlag(cfg, canPollMore, subPath, Listing(entries[0]), depth + 1, fileList);
      var child := PollEntries(cfg, canPollMore, subPath, Listing(entries[0]), depth + 1, fileList);
      var childPropagating := PropagatingPollEntries(cfg, canPollMore, subPath, Listing(entries[0]), depth + 1, fileList);
      assert PollDirectory(cfg, canPollMore, subPath, Listing(entries[0]), depth, fileList) == child;
      assert PollEntries(cfg, canPollMore, path, entries, depth, fileList)
          == PollEntries(cfg, canPollMore, path, entries[1..], depth, child.files);
      if childPropagating.more {
        DroppedSubDirectoryResultOnlyAffectsFlag(cfg, canPollMore, path, entries[1..], depth, child.files);
      } else {
        PollStopsWhenRejected(cfg, canPollMore, path, entries[1..], depth, child.files);
      }
    } else if gf.isDirectory || depth < cfg.minDepth {
      DroppedSubDirectoryResultOnlyAffectsFlag(cfg, canPollMore, path, entries[1..], depth, fileList);
    } else {
      DroppedSubDirectoryResultOnlyAffectsFlag(cfg, canPollMore, path, entries[1..], depth, fileList + [gf]);
    }
  }
}
