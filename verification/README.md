# camel-smbj consumer and producer core, in Dafny

This project models the two algorithmic parts of the SMB component for Apache Camel.

- **Consumer.** The polling consumer walks a directory of a share depth first. It turns every listing record into a file descriptor (`GenericFile`). It reports only files, limited by a minimum depth, a maximum depth, a recursion switch and a capacity predicate that the caller supplies.
- **Producer.** When auto-create is on, the producer first strips the share name from the target name and asks the share to build the parent directory. It then stores the content under the target name as given, unless the build threw. A failed store raises the operation-failed exception. The produced-name header is set only after a successful write.

The share is an immutable tree: `Share.Entry` is either `File(info)` or `Dir(info, children)`, and `info` is the raw listing record. The consumer's `pollDirectory` becomes the pure function `Consumer.PollDirectory`. It increments the depth it was given and runs `Consumer.PollEntries`, the loop over the listing, which threads the file list through. The capacity predicate is a function parameter. The remote operations and the platform's path helpers are parameters of the producer. `Producer.WriteFile` returns the outcome together with a trace of the operations it calls, in order.

`Traversal` gives an independent description of what a poll reports. `AllFiles` lists every file of the tree with its nesting level, in depth-first listing order. `Select` keeps the files at reported levels. The main theorem relates the poller to this reference.

Modules: `Wrappers` (Option), `Attributes` (the directory bit), `Share` (the tree), `Consumer`, `Traversal`, `PollExamples`, `Strings` (literal replace-all), `Producer`.

### Where the code differs from a natural reading (the model follows the code)

- **Share stripping.** One might expect one leading `share\` to be removed from the name. The code calls Java's `String.replace` (SmbProducer.java:52), which removes every non-overlapping occurrence anywhere in the name, in a single left-to-right pass. `Strings.ReplaceAll` models that pass. `Producer.StripInnerShare` shows that an inner occurrence is removed too, and `Strings.ReplaceAllIsSinglePass` shows that the result can still contain the pattern.
- **Stopping after a capacity rejection.** One might expect a `false` from a subdirectory to stop its parent. The code drops the recursive call's result (SmbConsumer.java:49). `Traversal.DroppedSubDirectoryResultOnlyAffectsFlag` proves that this changes no reported file: the parent's own next check rejects the same list. Only the returned flag can differ. `PollExamples.SubDirectoryRejectionInvisibleAtTop` gives a case where the top-level call returns `true` although the list was rejected.
- **Depth range.** The option names suggest the half-open range `[minDepth, maxDepth)` of reported depths. In the code, a file at nesting level k (the root's entries are level 1) is reported exactly when k >= minDepth and either k == 1 or (recursive and k - 1 < maxDepth). When recursive holds and maxDepth >= 1, this is minDepth <= k <= maxDepth; without recursion only k == 1 is reported (when minDepth <= 1). Root files are reported whatever maxDepth is.
- **Depth counter.** The depth counter might be taken for shared mutable state. In the code it is an `int` passed by value, so sibling subdirectories are entered with the same depth (`Traversal.SiblingDirectoriesShareDepth`).

## Model

| member | source | states |
|---|---|---|
| Attributes.IsDirectoryIsBitFour | src/main/java/com/github/jborza/camel/component/smbj/SmbConsumer.java:79 | the directory test holds exactly when bit 4 (0x10, the MS-FSCC directory attribute) of the mask is set |
| Attributes.IsDirectoryIgnoresOtherBits | src/main/java/com/github/jborza/camel/component/smbj/SmbConsumer.java:79-80 | two masks that agree on the directory bit get the same answer, whatever their other bits |
| Attributes.IsDirectorySetClear | src/main/java/com/github/jborza/camel/component/smbj/SmbConsumer.java:79-80 | setting the directory bit makes any mask a directory, and clearing it makes any mask a non-directory |
| Attributes.PlainFileAttributesAreNotDirectories | src/main/java/com/github/jborza/camel/component/smbj/SmbConsumer.java:79 | the normal, archive, read-only and hidden attributes do not make an entry a directory, and a hidden directory is still a directory |
| Consumer.AsGenericFile | src/main/java/com/github/jborza/camel/component/smbj/SmbConsumer.java:68-82 | absolute path = parent path + separator + name; name-only, file name and relative path all equal the record's name, because the relative prefix is always empty; the length is the end-of-file value; the endpoint path is the configured share, one backslash and the configured path, as fixed at construction (SmbConsumer.java:22); the directory flag is the attribute-bit test |
| Consumer.AbsolutePathSplits | src/main/java/com/github/jborza/camel/component/smbj/SmbConsumer.java:70-73 | the absolute path splits back into the parent path, the separator and the name-only field |
| Consumer.DescriptorForgetsOnlyOtherAttributeBits | src/main/java/com/github/jborza/camel/component/smbj/SmbConsumer.java:68-82 | two records under one path give equal descriptors exactly when they agree on name, size, time and the directory bit, so the name never affects the directory flag |
| Consumer.PollDirectory | src/main/java/com/github/jborza/camel/component/smbj/SmbConsumer.java:30-61 | the incoming list is a prefix of the result; every appended descriptor is a non-directory; every append happened to a list the capacity predicate accepted; a `false` result means the predicate rejects the returned list |
| Consumer.PollEntries | src/main/java/com/github/jborza/camel/component/smbj/SmbConsumer.java:39-60 | the same four guarantees for the loop over one listing, taken from any entry on |
| Traversal.AllFiles | src/main/java/com/github/jborza/camel/component/smbj/SmbConsumer.java:44-57 | the reference enumeration holds no directory entries, and no file sits above the level it starts from |
| Traversal.PollStopsWhenRejected | src/main/java/com/github/jborza/camel/component/smbj/SmbConsumer.java:40-43 | once the predicate rejects the list, the loop returns at once with the list unchanged, and with `false` unless the listing is empty |
| Traversal.PollEntriesAgainstReference | src/main/java/com/github/jborza/camel/component/smbj/SmbConsumer.java:35-60 | the loop returns a prefix of the incoming list followed by the reported files in depth-first listing order, and falls short of that only when the predicate rejects what it returns |
| Traversal.PollDirectoryAgainstReference | src/main/java/com/github/jborza/camel/component/smbj/SmbConsumer.java:30-61 | the same for the top-level call at depth 0, where the root's entries are at level 1 |
| Traversal.UnboundedPollReportsExactly | src/main/java/com/github/jborza/camel/component/smbj/SmbConsumer.java:35-57 | with a predicate that never rejects, the poll reports exactly the files at level k with k >= minDepth and (k == 1 or recursive and k - 1 < maxDepth), in depth-first order, and a file is in the result exactly when it occurs at such a level |
| Traversal.CapacityBound | src/main/java/com/github/jborza/camel/component/smbj/SmbConsumer.java:40-57 | with the predicate "fewer than max files", a list that starts with at most max files ends with at most max |
| Traversal.SiblingDirectoriesShareDepth | src/main/java/com/github/jborza/camel/component/smbj/SmbConsumer.java:35-49 | two sibling subdirectories are both polled with their parent's depth, the second one after the first, on the list the first one left |
| Traversal.DroppedSubDirectoryResultOnlyAffectsFlag | src/main/java/com/github/jborza/camel/component/smbj/SmbConsumer.java:41-49 | dropping the subdirectory's result gives the same files as stopping the parent on it; only the flag may differ, and only towards `true` |
| PollExamples.MaxDepthTwoStopsAtSecondLevel | src/main/java/com/github/jborza/camel/component/smbj/SmbConsumer.java:46-49 | for in/a.txt, in/sub/b.txt and in/sub/deep/c.txt, with recursion on and maximum depth 2, the poll reports a.txt then b.txt |
| PollExamples.SubDirectoryRejectionInvisibleAtTop | src/main/java/com/github/jborza/camel/component/smbj/SmbConsumer.java:41-49 | a rejection inside the last subdirectory yields `true` at the top, although the returned list is rejected; stopping the parent on the subdirectory's `false` would yield `false` |
| Strings.ReplaceAll | src/main/java/com/github/jborza/camel/component/smbj/SmbProducer.java:52 | a replacement no longer than the target never lengthens the string, and one of equal length keeps its length |
| Strings.ReplaceAllWithoutOccurrence | src/main/java/com/github/jborza/camel/component/smbj/SmbProducer.java:52 | a string in which the target does not occur comes back unchanged |
| Strings.ReplaceAllShortensWhenOccurs | src/main/java/com/github/jborza/camel/component/smbj/SmbProducer.java:52 | when the target occurs and the replacement is shorter than the target, the result is strictly shorter than the string |
| Strings.ReplaceAllCopiesPrefix | src/main/java/com/github/jborza/camel/component/smbj/SmbProducer.java:52 | a prefix in which no occurrence of the target starts (one may start later and run into it) is copied unchanged in front of the replaced rest |
| Strings.ReplaceAllFirstOccurrence | src/main/java/com/github/jborza/camel/component/smbj/SmbProducer.java:52 | for the leftmost occurrence of the target, the text before it is kept, the occurrence becomes the replacement, and the scan goes on right after it |
| Strings.ReplaceAllBySelf | src/main/java/com/github/jborza/camel/component/smbj/SmbProducer.java:52 | replacing the target with itself is the identity |
| Strings.ReplaceAllLeading | src/main/java/com/github/jborza/camel/component/smbj/SmbProducer.java:52 | a leading occurrence is replaced and the scan goes on right after it |
| Strings.ReplaceAllIsSinglePass | src/main/java/com/github/jborza/camel/component/smbj/SmbProducer.java:52 | removing `a\` from `aa\\` leaves `a\`, which still contains the pattern, so there is one pass only |
| Producer.StripShare | src/main/java/com/github/jborza/camel/component/smbj/SmbProducer.java:51-52 | the stripped name is never longer than the name; it equals the name exactly when `share\` does not occur in it, and it is strictly shorter when it does |
| Producer.StripLeadingShare | src/main/java/com/github/jborza/camel/component/smbj/SmbProducer.java:52 | a leading `share\` is removed and stripping continues on the rest |
| Producer.StripNameWithoutShare | src/main/java/com/github/jborza/camel/component/smbj/SmbProducer.java:52 | `docs\file.txt` stripped of `ShareA\` is unchanged |
| Producer.StripInnerShare | src/main/java/com/github/jborza/camel/component/smbj/SmbProducer.java:52 | an occurrence after any prefix in which no `share\` starts is removed as well: the prefix is kept and stripping continues after the occurrence |
| Producer.WriteFile | src/main/java/com/github/jborza/camel/component/smbj/SmbProducer.java:41-72 | the store is called exactly once, last, with the name as given; the outcome is a failure with the source's message exactly when the store fails; a directory build happens exactly when auto-create is on and the stripped name has a parent, with that parent and its absolute flag; there is at most one build and it is the first step, so a write takes at most three steps; a build that returns `false` only adds a warning right after it and does not stop the store |
| Producer.ProcessExchange | src/main/java/com/github/jborza/camel/component/smbj/SmbProducer.java:32-38 | the produced-name header is set to the target exactly when the write succeeded, and the exchange is left as it was when the write failed |

## Left out

- The listing itself (`listFilesSpecial` of the operations class) is not part of this model. A directory's listing is the children recorded in the tree, in order. Descending into an entry that has the directory bit but is a `File` node yields an empty listing. A listing that fails is not modelled, so there is no traversal error.
- `buildDirectory` and `storeFile` are oracles, given as function parameters. Whether building a directory is idempotent or creates intermediate directories is decided by code that is not part of this model.
- Producer.WriteFile: the oracles are total booleans and are taken never to throw. In the source, an exception from `buildDirectory` (SmbProducer.java:57, not caught) leaves `writeFile` before the store at line 65 runs, and an exception from `storeFile` leaves it too. Either exception then propagates out of `processExchange` before the header is set at line 37. The contract covers only the runs in which both calls return.
- Consumer.AsGenericFile: the descriptor's setters (`setAbsoluteFilePath`, `setFileName`, `setRelativeFilePath`, `setEndpointPath` and the rest) belong to the framework's `GenericFile` class, which is not part of this model. They are modelled as plain field assignments. If the framework normalises separators in them, `absoluteFilePath` and `endpointPath` are not the raw concatenations the contract states.
- `FileUtil.normalizePath`, `java.io.File.getParent`, `FileUtil.isAbsolute` and the descriptor's file separator depend on the platform. They are parameters: the `PathLib` datatype and `Config.fileSeparator`. A null parent is `None`.
- The last write time is taken as already converted to epoch milliseconds, as an opaque integer. The FILETIME conversion happens in the SMB library.
- `canPollMoreFiles` belongs to the framework's base consumer and is a parameter here. `Traversal.CapacityBound` instantiates it as "fewer than max files".
- `createFileName` belongs to the framework's base producer. Its result is the `target` parameter of `Producer.ProcessExchange`.
- `process`, `createExchange`, `ExchangeHelper.copyResults`, `setEndpointPath`, the endpoint casts, the empty `updateFileHeaders` and `isMatched` (which always returns true) are framework plumbing. They are left out.
- Trace and debug logging are left out. The single warning on a failed directory build is kept in the trace as `WarnCannotBuild`.
- Integers are unbounded. The depth cannot overflow a Java `int` in practice: it grows by one per descent, and a descent needs depth < maxDepth. File lengths are Java longs and are modelled as `int`.
- Strings.ReplaceAll: it requires a non-empty target. Java's `replace` with an empty target inserts the replacement before every character and once more at the end, so `"ab".replace("", "-")` is `"-a-b-"`. The only call uses `share + "\"`, which is never empty.
- SMB sessions, authentication and the wire protocol are outside the core. The core is single-threaded, so there is no concurrency to model.
