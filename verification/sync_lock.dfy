/** The sync lock of a pending queue: a `.sync.lock` file created with
    create-new semantics holding `pid=<pid> at=<RFC 3339 time>`. A sync
    that finds the file present may reclaim it only when it is stale. The
    process table, boot time, clock, file age and the RFC 3339 parser are
    inputs. */
module SyncLock {
  import opened Wrappers
  import opened Text
  import opened Float

  /** Six hours. */
  const StaleSecs: nat := 6 * 60 * 60
  /** Slack allowed between the lock time and its holder's start time. */
  const StartSlack: real := 5.0

  /** What the lock reads of the machine: running processes (pid to the
      raw start time they report, in seconds), the boot time and the
      current time (seconds since the epoch). */
  datatype Host = Host(procs: map<nat, nat>, bootTime: nat, now: real)

  /** The text a new lock file holds. */
  function LockText(pid: nat, at: string): (t: string)
    ensures |t| > 0 && t[|t| - 1] == '\n'
  {
    "pid=" + NatToString(pid) + " at=" + at + "\n"
  }

  /** `iter.find_map(|x| x.strip_prefix(p))`: the rest of the first item
      that starts with `p`. */
  function FindStripPrefix(xs: seq<string>, p: string): (r: Option<string>)
    ensures r.None? <==> forall i :: 0 <= i < |xs| ==> !StartsWith(xs[i], p)
  {
    if xs == [] then None
    else match StripPrefix(xs[0], p)
      case Some(rest) => Some(rest)
      case None =>
        assert forall i :: 1 <= i < |xs| ==> xs[i] == xs[1..][i - 1];
        FindStripPrefix(xs[1..], p)
  }

  /** What `FindStripPrefix` finds is the rest of the first item that
      starts with `p`. */
  lemma {:induction false} FindStripPrefixFound(xs: seq<string>, p: string)
    requires FindStripPrefix(xs, p).Some?
    ensures exists i :: 0 <= i < |xs| && xs[i] == p + FindStripPrefix(xs, p).value &&
                        (forall j :: 0 <= j < i ==> !StartsWith(xs[j], p))
  {
    var r := FindStripPrefix(xs, p);
    if StripPrefix(xs[0], p).Some? {
      assert xs[0] == p + r.value;
    } else {
      FindStripPrefixFound(xs[1..], p);
      var i :| 0 <= i < |xs[1..]| && xs[1..][i] == p + r.value &&
               (forall j :: 0 <= j < i ==> !StartsWith(xs[1..][j], p));
      assert xs[i + 1] == xs[1..][i];
      assert forall j :: 1 <= j < i + 1 ==> xs[j] == xs[1..][j - 1];
    }
  }

  /** `read_pending_sync_lock_pid`: the first word after `pid=` on the
      first line starting with it, as a `u32`. `None` stands for a file
      that cannot be read. */
  function ReadLockPid(contents: Option<string>): (r: Option<nat>)
    ensures r.Some? ==> r.value <= U32Max
  {
    match contents
    case None => None
    case Some(text) =>
      match FindStripPrefix(Lines(text), "pid=")
      case None => None
      case Some(rest) =>
        var words := SplitWhitespace(rest);
        if words == [] then None else ParseUnsigned(words[0], U32Max)
  }

  /** `read_pending_sync_lock_timestamp`: the first whitespace-separated
      word starting with `at=`, parsed as RFC 3339 by `rfc3339`. */
  function ReadLockTimestamp(contents: Option<string>, rfc3339: string -> Option<real>): (r: Option<real>)
    ensures contents.None? ==> r.None?
  {
    match contents
    case None => None
    case Some(text) =>
      match FindStripPrefix(SplitWhitespace(text), "at=")
      case None => None
      case Some(at) => rfc3339(at)
  }

  /** `lock_age_secs`: whole seconds since the lock time (0 when it lies in
      the future); without a lock time, the file's age `mtimeAge` if known,
      else 0. */
  function LockAgeSecs(contents: Option<string>, rfc3339: string -> Option<real>, now: real, mtimeAge: Option<nat>): (a: nat)
    ensures ReadLockTimestamp(contents, rfc3339).Some? ==>
      var t := ReadLockTimestamp(contents, rfc3339).value;
      (t <= now ==> a as real <= now - t < a as real + 1.0) && (t > now ==> a == 0)
    ensures ReadLockTimestamp(contents, rfc3339).None? ==> a == mtimeAge.GetOr(0)
  {
    match ReadLockTimestamp(contents, rfc3339)
    case Some(t) => if t <= now then Floor(now - t) else 0
    case None => mtimeAge.GetOr(0)
  }

  /** The start time of a process in epoch seconds: a raw value below the
      boot time is taken as relative to boot (saturating at `u64::MAX`). */
  function StartEpoch(raw: nat, bootTime: nat): (s: nat)
    ensures raw >= bootTime ==> s == raw
    ensures raw < bootTime ==> s == MinInt(bootTime + raw, U64Max)
  {
    if raw < bootTime then (if bootTime + raw > U64Max then U64Max else bootTime + raw) else raw
  }

  /** `process_started_after`: a missing process counts as started after;
      otherwise its start must be more than 5 s past `when`. */
  predicate ProcessStartedAfter(host: Host, pid: nat, when: real)
  {
    pid !in host.procs || StartEpoch(host.procs[pid], host.bootTime) as real > when + StartSlack
  }

  /** `pending_sync_lock_is_stale`. With a readable pid the lock is stale
      when that process is gone, or when it started after the lock was
      taken (so the pid was reused); a running holder with no lock time
      keeps the lock. Without a pid, the lock is stale after six hours. */
  predicate IsStale(contents: Option<string>, host: Host, rfc3339: string -> Option<real>, mtimeAge: Option<nat>)
  {
    match ReadLockPid(contents)
    case Some(pid) =>
      if pid !in host.procs then true
      else (
        match ReadLockTimestamp(contents, rfc3339)
        case Some(t) => ProcessStartedAfter(host, pid, t)
        case None => false)
    case None => LockAgeSecs(contents, rfc3339, host.now, mtimeAge) > StaleSecs
  }

  /* -------------------------------------------------- reading a lock back */

  lemma DigitsHaveNoWhitespace(d: string)
    requires AllDigits(d)
    ensures NoWhitespace(d) && '\n' !in d
  {
    assert forall j :: 0 <= j < |d| ==> IsAsciiDigit(d[j]);
  }

  /** The lock text is one line. */
  lemma LockTextLines(pid: nat, at: string)
    requires '\n' !in at && (at == [] || at[|at| - 1] != '\r')
    ensures Lines(LockText(pid, at)) == ["pid=" + NatToString(pid) + " at=" + at]
  {
    var d := NatToString(pid);
    DigitsHaveNoWhitespace(d);
    var line := "pid=" + d + " at=" + at;
    assert '\n' !in line by {
      assert forall j :: 0 <= j < |line| ==> line[j] != '\n' by {
        forall j | 0 <= j < |line| ensures line[j] != '\n' {
          if j < 4 {
          } else if j < 4 + |d| {
            assert line[j] == d[j - 4];
          } else if j < 8 + |d| {
          } else {
            assert line[j] == at[j - 8 - |d|];
          }
        }
      }
    }
    assert line[|line| - 1] != '\r' by {
      if at != [] {
        assert line[|line| - 1] == at[|at| - 1];
      }
    }
    OneLine(line);
  }

  /** The pid written into a lock is the pid read back. */
  lemma ReadLockPidOfLockText(pid: nat, at: string)
    requires pid <= U32Max
    requires '\n' !in at && (at == [] || at[|at| - 1] != '\r')
    ensures ReadLockPid(Some(LockText(pid, at))) == Some(pid)
  {
    var d := NatToString(pid);
    PidLineRest(pid, at);
    PidWord(d, at);
    ParseNatToString(pid, U32Max);
  }

  /** The digits written after `pid=` are the first word of the rest. */
  lemma PidWord(d: string, at: string)
    requires d != [] && AllDigits(d)
    ensures var words := SplitWhitespace(d + " at=" + at); words != [] && words[0] == d
  {
    DigitsHaveNoWhitespace(d);
    assert d + " at=" + at == d + [' '] + ("at=" + at);
    FirstWord(d, ' ', "at=" + at);
  }

  /** The line of a lock starts with `pid=`, followed by the pid. */
  lemma PidLineRest(pid: nat, at: string)
    requires '\n' !in at && (at == [] || at[|at| - 1] != '\r')
    ensures FindStripPrefix(Lines(LockText(pid, at)), "pid=") == Some(NatToString(pid) + " at=" + at)
  {
    var rest := NatToString(pid) + " at=" + at;
    LockTextLines(pid, at);
    assert "pid=" + NatToString(pid) + " at=" + at == "pid=" + rest;
    FindOnlyPrefixed("pid=" + rest, "pid=", rest);
  }

  /** The only item has the prefix. */
  lemma FindOnlyPrefixed(w: string, p: string, rest: string)
    requires w == p + rest
    ensures FindStripPrefix([w], p) == Some(rest)
  {
    assert StartsWith(w, p);
  }

  /** Prepending a word-free prefix to a single word keeps it one word. */
  lemma NoWhitespaceAppend(a: string, b: string)
    requires NoWhitespace(a) && NoWhitespace(b)
    ensures NoWhitespace(a + b)
  {
    forall j | 0 <= j < |a + b| ensures !IsWhitespace((a + b)[j]) {
      if j >= |a| { assert (a + b)[j] == b[j - |a|]; }
    }
  }

  /** A lock text splits into its two words. */
  lemma LockWords(pid: nat, at: string)
    requires NoWhitespace(at)
    ensures SplitWhitespace(LockText(pid, at)) == ["pid=" + NatToString(pid), "at=" + at]
  {
    var d := NatToString(pid);
    DigitsHaveNoWhitespace(d);
    var w1 := "pid=" + d;
    var w2 := "at=" + at;
    NoWhitespaceAppend("pid=", d);
    NoWhitespaceAppend("at=", at);
    assert LockText(pid, at) == w1 + [' '] + (w2 + ['\n']);
    FirstWord(w1, ' ', w2 + ['\n']);
    LastWord(w2, '\n');
  }

  /** The first of two items lacks the prefix and the second has it. */
  lemma FindSecondPrefixed(w1: string, w2: string, p: string, rest: string)
    requires !StartsWith(w1, p) && w2 == p + rest
    ensures FindStripPrefix([w1, w2], p) == Some(rest)
  {
    assert [w1, w2][1..] == [w2];
    assert StartsWith(w2, p);
  }

  /** The time written into a lock is the time read back, when it is a
      single word. */
  lemma ReadLockTimestampOfLockText(pid: nat, at: string, rfc3339: string -> Option<real>)
    requires NoWhitespace(at)
    ensures ReadLockTimestamp(Some(LockText(pid, at)), rfc3339) == rfc3339(at)
  {
    var w1 := "pid=" + NatToString(pid);
    LockWords(pid, at);
    assert !StartsWith(w1, "at=") by { assert w1[0] == 'p'; }
    FindSecondPrefixed(w1, "at=" + at, "at=", at);
  }

  /* ---------------------------------------------------- staleness facts */

  /** A lock written by a process that is still running, and that started
      no later than 5 s after the lock time, is never reclaimed. */
  lemma LiveHolderKeepsLock(pid: nat, at: string, t: real, host: Host, rfc3339: string -> Option<real>, mtimeAge: Option<nat>)
    requires pid <= U32Max && NoWhitespace(at) && rfc3339(at) == Some(t)
    requires pid in host.procs && StartEpoch(host.procs[pid], host.bootTime) as real <= t + StartSlack
    ensures !IsStale(Some(LockText(pid, at)), host, rfc3339, mtimeAge)
  {
    assert '\n' !in at && (at == [] || at[|at| - 1] != '\r') by {
      assert forall j :: 0 <= j < |at| ==> !IsWhitespace(at[j]);
    }
    ReadLockPidOfLockText(pid, at);
    ReadLockTimestampOfLockText(pid, at, rfc3339);
  }

  /** A lock whose holder is gone is reclaimed, however young it is. */
  lemma DeadHolderIsStale(pid: nat, at: string, host: Host, rfc3339: string -> Option<real>, mtimeAge: Option<nat>)
    requires pid <= U32Max && NoWhitespace(at)
    requires pid !in host.procs
    ensures IsStale(Some(LockText(pid, at)), host, rfc3339, mtimeAge)
  {
    assert '\n' !in at && (at == [] || at[|at| - 1] != '\r') by {
      assert forall j :: 0 <= j < |at| ==> !IsWhitespace(at[j]);
    }
    ReadLockPidOfLockText(pid, at);
  }

  /** A lock naming a running pid is reclaimed when that process started
      more than 5 s after the lock time, as a process that has run since
      well before an 8-hour-old lock could not have written it if its pid
      was recycled. */
  lemma ReusedPidIsStale(pid: nat, at: string, t: real, host: Host, rfc3339: string -> Option<real>, mtimeAge: Option<nat>)
    requires pid <= U32Max && NoWhitespace(at) && rfc3339(at) == Some(t)
    requires pid in host.procs && StartEpoch(host.procs[pid], host.bootTime) as real > t + StartSlack
    ensures IsStale(Some(LockText(pid, at)), host, rfc3339, mtimeAge)
  {
    assert '\n' !in at && (at == [] || at[|at| - 1] != '\r') by {
      assert forall j :: 0 <= j < |at| ==> !IsWhitespace(at[j]);
    }
    ReadLockPidOfLockText(pid, at);
    ReadLockTimestampOfLockText(pid, at, rfc3339);
  }

  /** Without a readable pid, age alone decides: stale exactly after six
      hours. */
  lemma NoPidStaleByAge(contents: Option<string>, host: Host, rfc3339: string -> Option<real>, mtimeAge: Option<nat>)
    requires ReadLockPid(contents).None?
    ensures IsStale(contents, host, rfc3339, mtimeAge) <==> LockAgeSecs(contents, rfc3339, host.now, mtimeAge) > StaleSecs
  {
  }

  /* ----------------------------------------------------------- the lock */

  /** The lock file: absent, or present with contents (`None` when it
      cannot be read). */
  datatype LockFile = Absent | Present(contents: Option<string>)

  /** The `.sync.lock` file of one pending directory (the benchmark and
      the feedback queue each have their own). */
  class PendingLock {
    var file: LockFile

    constructor ()
      ensures file == Absent
    {
      file := Absent;
    }

    /** `try_acquire_*_sync_lock` for the process `me` at the time written
        `at`: create the file if absent; if present, reclaim it only when
        stale; otherwise report it busy. */
    method TryAcquire(me: nat, at: string, host: Host, rfc3339: string -> Option<real>, mtimeAge: Option<nat>)
      returns (acquired: bool)
      modifies this
      ensures acquired <==> old(file).Absent? || IsStale(old(file).contents, host, rfc3339, mtimeAge)
      ensures acquired ==> file == Present(Some(LockText(me, at)))
      ensures !acquired ==> file == old(file)
    {
      if file.Absent? {
        file := Present(Some(LockText(me, at)));
        return true;
      }
      if IsStale(file.contents, host, rfc3339, mtimeAge) {
        file := Absent;
        file := Present(Some(LockText(me, at)));
        return true;
      }
      acquired := false;
    }

    /** Dropping the guard removes the lock file. */
    method Release()
      modifies this
      ensures file == Absent
    {
      file := Absent;
    }
  }

  /** One holder at a time: a running process takes the lock, a second
      attempt while it is held fails, and after release it succeeds again. */
  method SingleHolder(me: nat, at: string, t: real, host: Host, rfc3339: string -> Option<real>, mtimeAge: Option<nat>)
    returns (first: bool, second: bool, third: bool)
    requires me <= U32Max && NoWhitespace(at) && rfc3339(at) == Some(t)
    requires me in host.procs && StartEpoch(host.procs[me], host.bootTime) as real <= t + StartSlack
    ensures first && !second && third
  {
    var lock := new PendingLock();
    first := lock.TryAcquire(me, at, host, rfc3339, mtimeAge);
    LiveHolderKeepsLock(me, at, t, host, rfc3339, mtimeAge);
    second := lock.TryAcquire(me, at, host, rfc3339, mtimeAge);
    lock.Release();
    third := lock.TryAcquire(me, at, host, rfc3339, mtimeAge);
  }
}
