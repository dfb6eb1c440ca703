/** The producer: writing one exchange's content to the share. The remote
    operations and the platform's path helpers are parameters. */
module Producer {
  import opened Wrappers
  import opened Strings

  /** Path helpers whose behaviour depends on the platform: the path
      normaliser, the parent of a path (`None` where Java yields null) and
      the absolute-path test. */
  datatype PathLib = PathLib(
    normalizePath: string -> string,
    parent: string -> Option<string>,
    isAbsolute: string -> bool)

  /** The two remote operations the write path calls, as oracles: their
      answers are whatever the share replies. Both are taken to return; an
      exception from either is not modelled. */
  datatype RemoteOps = RemoteOps(
    buildDirectory: (string, bool) -> bool,
    storeFile: string -> bool)

  /** The endpoint settings the write path reads. */
  datatype Endpoint = Endpoint(share: string, autoCreate: bool)

  /** One observable step of a write, in the order it happens. */
  datatype Op =
    | BuildDirectory(directory: string, absolute: bool)
    | WarnCannotBuild(directory: string)
    | StoreFile(fileName: string)

  /** How a write ends: normally, or with the operation-failed exception. */
  datatype WriteOutcome = Written | Failed(message: string)

  /** The in-message headers of an exchange. */
  datatype Exchange = Exchange(headers: map<string, string>)

  const FILE_NAME_PRODUCED: string := "CamelFileNameProduced"

  /** The separator that follows the share name in a path. */
  const ShareSeparator: string := "\\"

  /** The name with every occurrence of the share name followed by a
      backslash removed. */
  function StripShare(name: string, share: string): (r: string)
    ensures |r| <= |name|
    ensures r == name <==> !Occurs(name, share + ShareSeparator)
    ensures Occurs(name, share + ShareSeparator) ==> |r| < |name|
  {
    if Occurs(name, share + ShareSeparator) then
      ReplaceAllShortensWhenOccurs(name, share + ShareSeparator, "");
      ReplaceAll(name, share + ShareSeparator, "")
    else
      ReplaceAllWithoutOccurrence(name, share + ShareSeparator, "");
      ReplaceAll(name, share + ShareSeparator, "")
  }

  /** A leading share is removed, and stripping goes on after it. */
  lemma StripLeadingShare(share: string, rest: string)
    ensures StripShare(share + ShareSeparator + rest, share) == StripShare(rest, share)
  {
    ReplaceAllLeading(rest, share + ShareSeparator, "");
    assert share + ShareSeparator + rest == (share + ShareSeparator) + rest;
  }

  /** A name without the share is kept. */
  lemma StripNameWithoutShare()
    ensures StripShare("docs\\file.txt", "ShareA") == "docs\\file.txt"
  {
    assert "ShareA" + ShareSeparator == "ShareA\\";
    NoOccurrenceWithoutFirstCharacter("docs\\file.txt", "", "ShareA\\");
    ReplaceAllCopiesPrefix("docs\\file.txt", "", "ShareA\\", "");
    assert "docs\\file.txt" + "" == "docs\\file.txt";
    assert ReplaceAll("docs\\file.txt", "ShareA\\", "") == "docs\\file.txt";
  }

  /** An occurrence further in is removed as well, not only a leading one:
      the text in front of the leftmost occurrence is kept, the occurrence is
      dropped, and stripping goes on after it. */
  lemma StripInnerShare(prefix: string, share: string, rest: string)
    requires forall j | 0 <= j < |prefix| ::
      !OccursAt(prefix + share + ShareSeparator + rest, share + ShareSeparator, j)
    ensures StripShare(prefix + share + ShareSeparator + rest, share) == prefix + StripShare(rest, share)
  {
    var target := share + ShareSeparator;
    assert prefix + share + ShareSeparator + rest == prefix + target + rest;
    ReplaceAllFirstOccurrence(prefix, rest, target, "");
  }

  /** The name the directory step works on: normalised, share stripped. */
  function LocalName(ep: Endpoint, lib: PathLib, fileName: string): string
  {
    StripShare(lib.normalizePath(fileName), ep.share)
  }

  predicate HasBuild(trace: seq<Op>)
  {
    exists i | 0 <= i < |trace| :: trace[i].BuildDirectory?
  }

  predicate HasWarning(trace: seq<Op>)
  {
    exists i | 0 <= i < |trace| :: trace[i].WarnCannotBuild?
  }

  method WriteFile(ep: Endpoint, lib: PathLib, ops: RemoteOps, fileName: string)
    returns (outcome: WriteOutcome, trace: seq<Op>)
    // the store happens exactly once, last, with the name as given
    ensures |trace| > 0 && trace[|trace| - 1] == StoreFile(fileName)
    ensures forall i | 0 <= i < |trace| - 1 :: !trace[i].StoreFile?
    // at most one build, first, and at most three steps in all
    ensures forall i | 0 < i < |trace| :: !trace[i].BuildDirectory?
    ensures |trace| <= 3
    // only the store decides the outcome
    ensures outcome.Written? <==> ops.storeFile(fileName)
    ensures outcome.Failed? ==> outcome.message == "Error writing file [" + fileName + "]"
    // a directory is built only under auto-create and when the stripped name has a parent
    ensures HasBuild(trace) <==> ep.autoCreate && lib.parent(LocalName(ep, lib, fileName)).Some?
    ensures forall i | 0 <= i < |trace| :: trace[i].BuildDirectory? ==>
              && lib.parent(LocalName(ep, lib, fileName)) == Some(trace[i].directory)
              && trace[i].absolute == lib.isAbsolute(LocalName(ep, lib, fileName))
    // a failed build is only warned about, right after it
    ensures forall i | 0 <= i < |trace| :: trace[i].WarnCannotBuild? ==>
              && 0 < i
              && trace[i - 1].BuildDirectory?
              && trace[i - 1].directory == trace[i].directory
              && !ops.buildDirectory(trace[i - 1].directory, trace[i - 1].absolute)
    ensures forall i | 0 <= i < |trace| :: trace[i].BuildDirectory? ==>
              (HasWarning(trace) <==> !ops.buildDirectory(trace[i].directory, trace[i].absolute))
  {
    var steps: seq<Op> := [];
    if ep.autoCreate {
      var name := lib.normalizePath(fileName);
      name := StripShare(name, ep.share);
      var directory := lib.parent(name);
      var absolute := lib.isAbsolute(name);
      if directory.Some? {
        if !ops.buildDirectory(directory.value, absolute) {
          steps := [BuildDirectory(directory.value, absolute), WarnCannotBuild(directory.value)];
          assert HasWarning(steps + [StoreFile(fileName)]) by {
            assert (steps + [StoreFile(fileName)])[1].WarnCannotBuild?;
          }
        } else {
          steps := [BuildDirectory(directory.value, absolute)];
        }
        assert (steps + [StoreFile(fileName)])[0].BuildDirectory?;
      }
    }
    trace := steps + [StoreFile(fileName)];
    if !ops.storeFile(fileName) {
      outcome := Failed("Error writing file [" + fileName + "]");
    } else {
      outcome := Written;
    }
  }

  /** Writes to `target` (the name the endpoint computed for the exchange)
      and records it in the produced-name header once the write returned. */
  method ProcessExchange(ep: Endpoint, lib: PathLib, ops: RemoteOps, exchange: Exchange, target: string)
    returns (outcome: WriteOutcome, trace: seq<Op>, result: Exchange)
    ensures |trace| > 0 && trace[|trace| - 1] == StoreFile(target)
    ensures outcome.Written? <==> ops.storeFile(target)
    ensures outcome.Written? ==> result.headers == exchange.headers[FILE_NAME_PRODUCED := target]
    ensures outcome.Failed? ==> result == exchange
  {
    outcome, trace := WriteFile(ep, lib, ops, target);
    if outcome.Failed? {
      return outcome, trace, exchange;
    }
    result := Exchange(exchange.headers[FILE_NAME_PRODUCED := target]);
  }
}
