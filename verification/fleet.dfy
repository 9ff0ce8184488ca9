/**
 * The autoscaler's side of the docker CLI: listing the workers,
 * `scale_workers` and `cleanup_dynamic_workers`. Each CLI call is answered
 * by an oracle parameter, indexed by the position of the item in its batch,
 * so every way the calls can succeed or fail is covered.
 */
module Fleet {
  import opened Wrappers
  import opened PyText

  /** How one docker CLI call ends: success, `CalledProcessError`, or `FileNotFoundError` (no CLI). */
  datatype CmdResult = Ok | Failed | CliMissing

  /**
   * What a `docker ps` call gives: its standard output, a non-zero exit
   * (`CalledProcessError`), or an `OSError` from `subprocess.run` itself (no
   * CLI, no permission to run it, a failed fork).
   */
  datatype Listing = Listed(stdout: string) | ListFailed | ListRaised

  /** What `docker ps --format {{.ID}}` prints for the containers `ids`: one per line. */
  function DockerOutput(ids: seq<string>): string
  {
    if ids == [] then "" else Joined(ids) + "\n"
  }

  /** Container ids as docker prints them: non-empty, without whitespace. */
  predicate WellFormedIds(ids: seq<string>)
  {
    forall k :: 0 <= k < |ids| ==> ids[k] != "" && NoSpace(ids[k])
  }

  /**
   * `get_running_workers` (lines 123-133): the stripped output split into
   * lines; a failed listing is read as no workers, while an `OSError` is not
   * caught there (`None`: the exception propagates).
   */
  function RunningWorkers(listing: Listing): (workers: Option<seq<string>>)
    ensures workers.None? <==> listing.ListRaised?
    ensures listing.ListFailed? ==> workers == Some([])
    ensures listing.Listed? && Strip(listing.stdout) == "" ==> workers == Some([])
  {
    match listing
    case Listed(stdout) => Some(SplitLines(Strip(stdout)))
    case ListFailed => Some([])
    case ListRaised => None
  }

  lemma WellFormedIdsArePlain(ids: seq<string>)
    requires WellFormedIds(ids)
    ensures PlainLines(ids)
  {
    forall k | 0 <= k < |ids| ensures NoBreak(ids[k]) {
      NoSpaceNoBreak(ids[k]);
    }
  }

  /** The listing reads back exactly the containers docker printed, in its order. */
  lemma RunningWorkersOfOutput(ids: seq<string>)
    requires WellFormedIds(ids)
    ensures RunningWorkers(Listed(DockerOutput(ids))) == Some(ids)
  {
    if ids != [] {
      StripTerminated(ids);
      WellFormedIdsArePlain(ids);
      SplitJoined(ids);
    } else {
      assert Strip("") == "";
    }
  }

  /** `f"{CONTAINER_NAME_PREFIX}-{int(time.time())}-{i}"`. */
  function WorkerName(prefix: string, stamp: nat, i: nat): string
  {
    prefix + "-" + Dec(stamp) + "-" + Dec(i)
  }

  lemma WorkerNameSuffix(prefix: string, stamp: nat, i: nat)
    ensures LastSegment(WorkerName(prefix, stamp, i), '-') == Dec(i)
  {
    DigitsExclude(Dec(i), '-');
    assert WorkerName(prefix, stamp, i) == (prefix + "-" + Dec(stamp)) + ['-'] + Dec(i);
    LastSegmentAfterSeparator(prefix + "-" + Dec(stamp), '-', Dec(i));
  }

  /** Two starts of one batch never share a name, even when the clock moved between them. */
  lemma WorkerNamesDistinct(prefix: string, stamp1: nat, stamp2: nat, i: nat, j: nat)
    requires i != j
    ensures WorkerName(prefix, stamp1, i) != WorkerName(prefix, stamp2, j)
  {
    WorkerNameSuffix(prefix, stamp1, i);
    WorkerNameSuffix(prefix, stamp2, j);
    if WorkerName(prefix, stamp1, i) == WorkerName(prefix, stamp2, j) {
      DecInjective(i, j);
    }
  }

  /** None of the first `k` items found the CLI missing. */
  predicate NoneMissing(outcome: nat -> CmdResult, k: nat)
  {
    forall i :: 0 <= i < k ==> outcome(i) != CliMissing
  }

  /** One of the first `k` items succeeded. */
  predicate SomeOk(outcome: nat -> CmdResult, k: nat)
  {
    exists i :: 0 <= i < k && outcome(i) == Ok
  }

  /** Whether a batch reports a change: no item hit a missing CLI and at least one succeeded. */
  predicate BatchChanged(outcome: nat -> CmdResult, n: nat)
  {
    NoneMissing(outcome, n) && SomeOk(outcome, n)
  }

  /**
   * `k` of the `n` items were attempted: all of them, or those up to and
   * including the first one that found the CLI missing.
   */
  predicate AttemptedPrefix(outcome: nat -> CmdResult, n: nat, k: nat)
  {
    && k <= n
    && (k > 0 ==> NoneMissing(outcome, k - 1))
    && (k < n ==> k > 0 && outcome(k - 1) == CliMissing)
  }

  /** Both batch predicates extend by one item at a time. */
  lemma BatchStep(outcome: nat -> CmdResult, i: nat)
    ensures NoneMissing(outcome, i + 1) <==> NoneMissing(outcome, i) && outcome(i) != CliMissing
    ensures SomeOk(outcome, i + 1) <==> SomeOk(outcome, i) || outcome(i) == Ok
  {
    if SomeOk(outcome, i + 1) && outcome(i) != Ok {
      var k :| 0 <= k < i + 1 && outcome(k) == Ok;
      assert k < i;
    }
  }

  datatype StartAttempt = StartAttempt(name: string, result: CmdResult)

  /** Lines 140-186 for `n` new workers. */
  ghost predicate StartSpec(prefix: string, n: nat, stamp: nat -> nat, startResult: nat -> CmdResult,
                            changed: bool, started: seq<StartAttempt>)
  {
    && AttemptedPrefix(startResult, n, |started|)
    && (forall i :: 0 <= i < |started| ==>
          started[i] == StartAttempt(WorkerName(prefix, stamp(i), i), startResult(i)))
    && (changed <==> BatchChanged(startResult, n))
  }

  /** One `docker stop` and, when that succeeded, one `docker rm` (`None`: not issued). */
  datatype StopAttempt = StopAttempt(id: string, stop: CmdResult, remove: Option<CmdResult>)

  /** How the stop-and-remove of item `j` ends as a whole. */
  function PairOutcome(stopResult: nat -> CmdResult, rmResult: nat -> CmdResult): nat -> CmdResult
  {
    (j: nat) => if stopResult(j) == Ok then rmResult(j) else stopResult(j)
  }

  /** Lines 188-203 for the workers `ids`. */
  ghost predicate StopSpec(ids: seq<string>, stopResult: nat -> CmdResult, rmResult: nat -> CmdResult,
                           changed: bool, stopped: seq<StopAttempt>)
  {
    && AttemptedPrefix(PairOutcome(stopResult, rmResult), |ids|, |stopped|)
    && (forall j :: 0 <= j < |stopped| ==>
          stopped[j] == StopAttempt(ids[j], stopResult(j), if stopResult(j) == Ok then Some(rmResult(j)) else None))
    && (changed <==> BatchChanged(PairOutcome(stopResult, rmResult), |ids|))
  }

  /** The loop of lines 143-186: start `n` uniquely named workers. */
  method StartWorkers(prefix: string, n: nat, stamp: nat -> nat, startResult: nat -> CmdResult)
    returns (changed: bool, started: seq<StartAttempt>)
    ensures StartSpec(prefix, n, stamp, startResult, changed, started)
  {
    changed, started := false, [];
    for i := 0 to n
      invariant |started| == i
      invariant forall k :: 0 <= k < i ==>
          started[k] == StartAttempt(WorkerName(prefix, stamp(k), k), startResult(k))
      invariant NoneMissing(startResult, i)
      invariant changed == SomeOk(startResult, i)
    {
      var name := WorkerName(prefix, stamp(i), i);
      var result := startResult(i);
      started := started + [StartAttempt(name, result)];
      BatchStep(startResult, i);
      match result
      case CliMissing =>
        return false, started;
      case Failed =>
      case Ok =>
        changed := true;
    }
  }

  /** The loop of lines 192-203: stop, then remove, each of `ids`. */
  method StopWorkers(ids: seq<string>, stopResult: nat -> CmdResult, rmResult: nat -> CmdResult)
    returns (changed: bool, stopped: seq<StopAttempt>)
    ensures StopSpec(ids, stopResult, rmResult, changed, stopped)
  {
    ghost var outcome := PairOutcome(stopResult, rmResult);
    changed, stopped := false, [];
    for j := 0 to |ids|
      invariant |stopped| == j
      invariant forall k :: 0 <= k < j ==>
          stopped[k] == StopAttempt(ids[k], stopResult(k), if stopResult(k) == Ok then Some(rmResult(k)) else None)
      invariant NoneMissing(outcome, j)
      invariant changed == SomeOk(outcome, j)
    {
      var cid := ids[j];
      var stop := stopResult(j);
      assert outcome(j) == if stop == Ok then rmResult(j) else stop;
      BatchStep(outcome, j);
      if stop != Ok {
        stopped := stopped + [StopAttempt(cid, stop, None)];
        if stop == CliMissing {
          return false, stopped;
        }
      } else {
        var rm := rmResult(j);
        stopped := stopped + [StopAttempt(cid, Ok, Some(rm))];
        if rm == CliMissing {
          return false, stopped;
        } else if rm == Ok {
          changed := true;
        }
      }
    }
  }

  /** `current_workers[:scale_down]` (Python slicing clamps an end past the length). */
  function OldestFirst(workers: seq<string>, count: int): (r: seq<string>)
    ensures |r| == if count <= 0 then 0 else if count >= |workers| then |workers| else count
    ensures r == workers[..|r|]
  {
    if count <= 0 then [] else if count >= |workers| then workers else workers[..count]
  }

  datatype ScaleOutcome =
    | ListingCrashed
    | Scaled(changed: bool, started: seq<StartAttempt>, stopped: seq<StopAttempt>)

  /** What `scale_workers(desired)` does against its own fresh listing. */
  ghost predicate ScaleSpec(prefix: string, desired: int, listing: Listing, stamp: nat -> nat,
                            startResult: nat -> CmdResult, stopResult: nat -> CmdResult,
                            rmResult: nat -> CmdResult, out: ScaleOutcome)
  {
    match RunningWorkers(listing)
    case None => out == ListingCrashed
    case Some(workers) => ScaleFrom(prefix, desired, workers, stamp, startResult, stopResult, rmResult, out)
  }

  /** What it does once the listing gave `workers`. */
  ghost predicate ScaleFrom(prefix: string, desired: int, workers: seq<string>, stamp: nat -> nat,
                            startResult: nat -> CmdResult, stopResult: nat -> CmdResult,
                            rmResult: nat -> CmdResult, out: ScaleOutcome)
  {
    var current := |workers|;
    && out.Scaled?
    && (desired > current ==>
          out.stopped == [] && StartSpec(prefix, desired - current, stamp, startResult, out.changed, out.started))
    && (desired < current ==>
          out.started == [] && StopSpec(OldestFirst(workers, current - desired), stopResult, rmResult, out.changed, out.stopped))
    && (desired == current ==> out == Scaled(false, [], []))
  }

  /** `scale_workers` (lines 135-205). */
  method ScaleWorkers(prefix: string, desired: int, listing: Listing, stamp: nat -> nat,
                      startResult: nat -> CmdResult, stopResult: nat -> CmdResult, rmResult: nat -> CmdResult)
    returns (out: ScaleOutcome)
    ensures ScaleSpec(prefix, desired, listing, stamp, startResult, stopResult, rmResult, out)
  {
    var workers := RunningWorkers(listing);
    if workers.None? {
      return ListingCrashed;
    }
    out := ScaleAgainst(prefix, desired, workers.value, stamp, startResult, stopResult, rmResult);
  }

  /** Lines 137-205: the comparison with the listed workers and the batch it leads to. */
  method ScaleAgainst(prefix: string, desired: int, workers: seq<string>, stamp: nat -> nat,
                      startResult: nat -> CmdResult, stopResult: nat -> CmdResult, rmResult: nat -> CmdResult)
    returns (out: ScaleOutcome)
    ensures ScaleFrom(prefix, desired, workers, stamp, startResult, stopResult, rmResult, out)
  {
    var current := |workers|;
    if desired > current {
      var changed, started := StartWorkers(prefix, desired - current, stamp, startResult);
      out := Scaled(changed, started, []);
    } else if desired < current {
      var toRemove := OldestFirst(workers, current - desired);
      var changed, stopped := StopWorkers(toRemove, stopResult, rmResult);
      out := Scaled(changed, [], stopped);
    } else {
      out := Scaled(false, [], []);
    }
  }

  /** With the CLI present throughout, every one of the `n` starts is attempted. */
  lemma StartsAllAttempted(prefix: string, n: nat, stamp: nat -> nat, startResult: nat -> CmdResult,
                           changed: bool, started: seq<StartAttempt>)
    requires StartSpec(prefix, n, stamp, startResult, changed, started)
    requires forall i :: 0 <= i < n ==> startResult(i) != CliMissing
    ensures |started| == n
  {
  }

  /** The names of one batch are pairwise distinct. */
  lemma StartedNamesDistinct(prefix: string, n: nat, stamp: nat -> nat, startResult: nat -> CmdResult,
                             changed: bool, started: seq<StartAttempt>)
    requires StartSpec(prefix, n, stamp, startResult, changed, started)
    ensures forall a, b :: 0 <= a < b < |started| ==> started[a].name != started[b].name
  {
    forall a, b | 0 <= a < b < |started|
      ensures started[a].name != started[b].name
    {
      WorkerNamesDistinct(prefix, stamp(a), stamp(b), a, b);
    }
  }

  /**
   * Read off the record of the calls: a batch of starts reports a change
   * exactly when no recorded call found the CLI missing and one succeeded.
   */
  lemma StartChangedIffRecordedSuccess(prefix: string, n: nat, stamp: nat -> nat, startResult: nat -> CmdResult,
                                       changed: bool, started: seq<StartAttempt>)
    requires StartSpec(prefix, n, stamp, startResult, changed, started)
    ensures changed <==>
      (forall i :: 0 <= i < |started| ==> started[i].result != CliMissing) &&
      (exists i :: 0 <= i < |started| && started[i].result == Ok)
  {
    if changed {
      var i :| 0 <= i < n && startResult(i) == Ok;
      assert started[i].result == Ok;
    }
    if (forall i :: 0 <= i < |started| ==> started[i].result != CliMissing) && (exists i :: 0 <= i < |started| && started[i].result == Ok) {
      var i :| 0 <= i < |started| && started[i].result == Ok;
      assert startResult(i) == Ok;
    }
  }

  /** The stop batch targets the given workers in their order, one attempt each while the CLI is there. */
  lemma StopsTargetListingOrder(ids: seq<string>, stopResult: nat -> CmdResult, rmResult: nat -> CmdResult,
                                changed: bool, stopped: seq<StopAttempt>)
    requires StopSpec(ids, stopResult, rmResult, changed, stopped)
    requires forall j :: 0 <= j < |ids| ==> PairOutcome(stopResult, rmResult)(j) != CliMissing
    ensures |stopped| == |ids|
    ensures forall j :: 0 <= j < |ids| ==> stopped[j].id == ids[j]
    ensures forall j :: 0 <= j < |ids| ==> (stopped[j].remove.Some? <==> stopped[j].stop == Ok)
  {
  }

  /** A stop batch reports a change exactly when one stop-and-remove pair fully succeeded and the CLI never went missing. */
  lemma StopChangedIffRecordedPair(ids: seq<string>, stopResult: nat -> CmdResult, rmResult: nat -> CmdResult,
                                   changed: bool, stopped: seq<StopAttempt>)
    requires StopSpec(ids, stopResult, rmResult, changed, stopped)
    ensures changed <==>
      (forall j :: 0 <= j < |stopped| ==> stopped[j].stop != CliMissing && stopped[j].remove != Some(CliMissing)) &&
      (exists j :: 0 <= j < |stopped| && stopped[j].stop == Ok && stopped[j].remove == Some(Ok))
  {
    var outcome := PairOutcome(stopResult, rmResult);
    if changed {
      forall k | 0 <= k < |stopped| ensures stopped[k].stop != CliMissing && stopped[k].remove != Some(CliMissing) {
        assert outcome(k) == if stopResult(k) == Ok then rmResult(k) else stopResult(k);
      }
      var j :| 0 <= j < |ids| && outcome(j) == Ok;
      assert stopped[j].stop == Ok && stopped[j].remove == Some(Ok);
    }
    if (forall j :: 0 <= j < |stopped| ==> stopped[j].stop != CliMissing && stopped[j].remove != Some(CliMissing))
       && (exists j :: 0 <= j < |stopped| && stopped[j].stop == Ok && stopped[j].remove == Some(Ok)) {
      forall j | 0 <= j < |ids| ensures outcome(j) != CliMissing {
        assert outcome(j) == if stopResult(j) == Ok then rmResult(j) else stopResult(j);
      }
      var j :| 0 <= j < |stopped| && stopped[j].stop == Ok && stopped[j].remove == Some(Ok);
      assert outcome(j) == Ok;
    }
  }

  /** `[i for i in result.stdout.splitlines() if i]`. */
  function NonEmptyLines(lines: seq<string>): (ids: seq<string>)
    ensures |ids| <= |lines|
    ensures forall s :: s in ids <==> s in lines && s != ""
  {
    if lines == [] then []
    else (if lines[0] != "" then [lines[0]] else []) + NonEmptyLines(lines[1..])
  }

  /** One worker of a purge: `docker stop` was issued, and `docker rm` unless the stop raised. */
  datatype PurgeAttempt = PurgeAttempt(id: string, removeIssued: bool)

  /**
   * `cleanup_dynamic_workers` (lines 207-231). `stopRaises(j)` says whether
   * the stop of the `j`-th id raised (the CLI vanished); exit codes are not
   * checked. `failed` is the logged "Cleanup failed" when the listing itself
   * did not work.
   */
  method CleanupDynamicWorkers(listing: Listing, stopRaises: nat -> bool)
    returns (purged: seq<PurgeAttempt>, failed: bool)
    ensures failed <==> !listing.Listed?
    ensures failed ==> purged == []
    ensures listing.Listed? ==>
      var ids := NonEmptyLines(SplitLines(listing.stdout));
      |purged| == |ids| &&
      forall j :: 0 <= j < |ids| ==> purged[j] == PurgeAttempt(ids[j], !stopRaises(j))
  {
    if !listing.Listed? {
      return [], true;
    }
    var ids := NonEmptyLines(SplitLines(listing.stdout));
    purged, failed := [], false;
    for j := 0 to |ids|
      invariant |purged| == j
      invariant forall k :: 0 <= k < j ==> purged[k] == PurgeAttempt(ids[k], !stopRaises(k))
    {
      var cid := ids[j];
      if stopRaises(j) {
        purged := purged + [PurgeAttempt(cid, false)];
      } else {
        purged := purged + [PurgeAttempt(cid, true)];
      }
    }
  }

  lemma {:induction false} NonEmptyLinesKeeps(lines: seq<string>)
    requires forall k :: 0 <= k < |lines| ==> lines[k] != ""
    ensures NonEmptyLines(lines) == lines
    decreases |lines|
  {
    if lines != [] {
      NonEmptyLinesKeeps(lines[1..]);
      assert lines == [lines[0]] + lines[1..];
    }
  }

  /** The purge targets exactly the containers docker listed, in its order. */
  lemma PurgeTargetsOutput(ids: seq<string>)
    requires WellFormedIds(ids)
    ensures NonEmptyLines(SplitLines(DockerOutput(ids))) == ids
  {
    if ids != [] {
      WellFormedIdsArePlain(ids);
      SplitTerminated(ids);
      NonEmptyLinesKeeps(ids);
    }
  }
}
