/** The process locator: finds the PID of the reload target either by
    scanning the process table for an executable name or by reading a PID
    file. The process listing (`ps.Processes`) and the file read
    (`os.ReadFile`) are inputs. As in the source, a failure is reported as
    PID -1 together with an error. */
module Locator {
  import opened Wrappers
  import opened Text

  datatype Process = Process(executable: string, pid: int)

  /** What `ps.Processes` returned: a snapshot in enumeration order, or an error. */
  datatype Listing = Listed(processes: seq<Process>) | ListFailed

  /** What `os.ReadFile` returned for a path. */
  datatype FileRead = Read(content: string) | ReadFailed

  datatype LocateError =
    | ListFailure
    | NoMatch(name: string)
    | ReadFailure(path: string)
    | EmptyPidFile(path: string)
    | InvalidPid(path: string)

  /** Go's `(int, error)` pair. */
  datatype PidResult = PidResult(pid: int, err: Option<LocateError>)

  /** The position of the first process whose executable is exactly `name`. */
  function FirstMatch(ps: seq<Process>, name: string): (r: Option<nat>)
    ensures r.Some? ==> r.value < |ps| && ps[r.value].executable == name
    ensures r.Some? ==> forall j :: 0 <= j < r.value ==> ps[j].executable != name
    ensures r.None? ==> forall j :: 0 <= j < |ps| ==> ps[j].executable != name
  {
    if ps == [] then None
    else if ps[0].executable == name then Some(0)
    else
      match FirstMatch(ps[1..], name)
      case None => None
      case Some(i) => Some(i + 1)
  }

  /** What `findPID` computes from a listing. */
  function PidByName(name: string, listing: Listing): (r: PidResult)
    ensures r.err.Some? ==> r.pid == -1
  {
    match listing
    case ListFailed => PidResult(-1, Some(ListFailure))
    case Listed(ps) =>
      match FirstMatch(ps, name)
      case Some(i) => PidResult(ps[i].pid, None)
      case None => PidResult(-1, Some(NoMatch(name)))
  }

  /** `findPID`: a linear scan that returns at the first match. */
  method FindPid(name: string, listing: Listing) returns (r: PidResult)
    ensures r == PidByName(name, listing)
    ensures listing.ListFailed? ==> r == PidResult(-1, Some(ListFailure))
    ensures listing.Listed? ==>
      (r.err.None? <==> exists i :: 0 <= i < |listing.processes| && listing.processes[i].executable == name)
  {
    if listing.ListFailed? {
      return PidResult(-1, Some(ListFailure));
    }
    var ps := listing.processes;
    for i := 0 to |ps|
      invariant forall j :: 0 <= j < i ==> ps[j].executable != name
    {
      if ps[i].executable == name {
        return PidResult(ps[i].pid, None);
      }
    }
    return PidResult(-1, Some(NoMatch(name)));
  }

  /** `pidFromFile`: read, trim white space, reject an empty result, parse
      with `Atoi`. No range check beyond Atoi's: zero and negative numbers
      are returned as they are. */
  function PidFromFile(path: string, readFile: string -> FileRead): (r: PidResult)
    ensures r.err.Some? ==> r.pid == -1
    ensures readFile(path).ReadFailed? ==> r.err == Some(ReadFailure(path))
    ensures readFile(path).Read? && AllSpace(readFile(path).content) ==> r.err == Some(EmptyPidFile(path))
    ensures r.err.None? <==> readFile(path).Read? && Atoi(TrimSpace(readFile(path).content)).Some?
    ensures r.err.None? ==> r.pid == Atoi(TrimSpace(readFile(path).content)).value
  {
    match readFile(path)
    case ReadFailed => PidResult(-1, Some(ReadFailure(path)))
    case Read(content) =>
      var pidString := TrimSpace(content);
      TrimSpaceEmpty(content);
      if pidString == [] then PidResult(-1, Some(EmptyPidFile(path)))
      else
        match Atoi(pidString)
        case None => PidResult(-1, Some(InvalidPid(path)))
        case Some(pid) => PidResult(pid, None)
  }

  /** `getPID`: the PID file when one is configured, the process name otherwise. */
  function GetPid(processName: string, pidFile: string, listing: Listing, readFile: string -> FileRead): (r: PidResult)
    ensures r.err.Some? ==> r.pid == -1
    ensures pidFile != "" ==> r == PidFromFile(pidFile, readFile)
    ensures pidFile == "" ==> r == PidByName(processName, listing)
  {
    if pidFile != "" then PidFromFile(pidFile, readFile) else PidByName(processName, listing)
  }

  /** With a PID file configured, the process table is never consulted and
      neither is the process name; without one, no file is read. */
  lemma GetPidConsults(processName: string, pidFile: string, listing: Listing, readFile: string -> FileRead,
                       otherName: string, otherListing: Listing, otherRead: string -> FileRead)
    ensures pidFile != "" ==>
      GetPid(processName, pidFile, listing, readFile) == GetPid(otherName, pidFile, otherListing, readFile)
    ensures pidFile == "" ==>
      GetPid(processName, pidFile, listing, readFile) == GetPid(processName, pidFile, listing, otherRead)
  {
  }

  /** The PID found by name belongs to the first matching process, even when
      later processes share the executable name. */
  lemma FirstMatchWins(before: seq<Process>, p: Process, after: seq<Process>)
    requires forall j :: 0 <= j < |before| ==> before[j].executable != p.executable
    ensures PidByName(p.executable, Listed(before + [p] + after)) == PidResult(p.pid, None)
  {
    var ps := before + [p] + after;
    assert ps[|before|] == p;
    assert forall j :: 0 <= j < |before| ==> ps[j] == before[j];
  }

  /** Surrounding white space in a PID file is ignored: a file holding any
      content with white space around it gives what a file holding the
      content alone gives, blank content included. */
  lemma PidFilePaddingIrrelevant(path: string, padded: string -> FileRead, bare: string -> FileRead,
                                 w1: string, t: string, w2: string)
    requires AllSpace(w1) && AllSpace(w2)
    requires padded(path) == Read(w1 + t + w2)
    requires bare(path) == Read(t)
    ensures PidFromFile(path, padded) == PidFromFile(path, bare)
  {
    TrimSpaceIgnoresPadding(w1, t, w2);
  }

  /** For trimmed, non-empty content with white space around it, the result
      is the Atoi outcome of that content. */
  lemma PidFileIgnoresPadding(path: string, readFile: string -> FileRead, w1: string, t: string, w2: string)
    requires AllSpace(w1) && AllSpace(w2) && IsTrimmed(t) && t != []
    requires readFile(path) == Read(w1 + t + w2)
    ensures PidFromFile(path, readFile) ==
      match Atoi(t)
      case Some(pid) => PidResult(pid, None)
      case None => PidResult(-1, Some(InvalidPid(path)))
  {
    TrimSpaceOfPadded(w1, t, w2);
  }

  /** "  42\n" gives PID 42: the white space around the number is trimmed. */
  lemma PidFileTrimmed(path: string, readFile: string -> FileRead)
    requires readFile(path) == Read("  42\n")
    ensures PidFromFile(path, readFile) == PidResult(42, None)
  {
    assert "  42\n" == "  " + "42" + "\n";
    assert AllSpace("  ") && AllSpace("\n");
    TrimSpaceOfPadded("  ", "42", "\n");
    AtoiFortyTwo();
  }

  /** "1234" gives PID 1234. */
  lemma PidFileHolding1234(path: string, readFile: string -> FileRead)
    requires readFile(path) == Read("1234")
    ensures PidFromFile(path, readFile) == PidResult(1234, None)
  {
    assert "1234" == [] + "1234" + [];
    TrimSpaceOfPadded([], "1234", []);
    AtoiOneTwoThreeFour();
  }

  /** "-5" gives PID -5: there is no positivity check. */
  lemma PidFileNegative(path: string, readFile: string -> FileRead)
    requires readFile(path) == Read("-5")
    ensures PidFromFile(path, readFile) == PidResult(-5, None)
  {
    assert "-5" == [] + "-5" + [];
    TrimSpaceOfPadded([], "-5", []);
    AtoiMinusFive();
  }

  /** A file holding only white space is reported as empty. */
  lemma PidFileBlank(path: string, readFile: string -> FileRead)
    requires readFile(path) == Read("  \n")
    ensures PidFromFile(path, readFile) == PidResult(-1, Some(EmptyPidFile(path)))
  {
  }

  /** "4 2" is not a valid integer. */
  lemma PidFileNotNumeric(path: string, readFile: string -> FileRead)
    requires readFile(path) == Read("4 2")
    ensures PidFromFile(path, readFile) == PidResult(-1, Some(InvalidPid(path)))
  {
    assert "4 2" == [] + "4 2" + [];
    TrimSpaceOfPadded([], "4 2", []);
    AtoiRejectsNonDigit("4 2", 1);
  }
}
