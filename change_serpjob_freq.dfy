/**
 * Quota back-off by rewriting the crontab (queueing/change_serpjob_freq.py).
 *
 * The crontab is a list of lines. Postponing moves every `serp_sender.py`
 * line to a monthly schedule and appends a one-shot "resume" line that runs
 * this script again with `--resume`; resuming restores the ten-minute
 * schedule and drops the first resume line.
 */
module SerpJobFreq {
  import opened Text
  import opened PyValues

  const SerpSenderScript := "serp_sender.py"
  const ResumeScript := "change_serpjob_freq.py"
  /** Separator between the schedule and the command, as the code looks for it. */
  const CommandSep := " /"
  const PostponeSchedule := "0 16 8 * *"
  const ResumeSchedule := "*/10 * * * *"

  const RepoPath := Join("/", ["Users", "eliza", "artesania", "descobridor"])
  const RepoDir := "/" + RepoPath
  const LogFile := "/" + Join("/", ["usr", "local", "var", "log", "serp_sender.log"])

  /** The words of the resume line, separated by single spaces in the line. */
  const ResumeWords: seq<string> := [
    "0", "17", "8", "*", "*", "(cd", RepoDir, "&&", "PYTHONPATH=" + RepoDir,
    Join("/", [".venv", "bin", "python"]), Join("/", ["descobridor", "queueing", ResumeScript]), "--resume",
    ">", LogFile, "2>>", "&1)"
  ]

  /** The line `append_resume_job` adds: runs this script with `--resume` at 17:00 on the 8th. */
  const ResumeLine := Join(" ", ResumeWords)

  // ---------------------------------------------------------------------------
  // The list transformations

  /** What `change_serp_job_time` makes of one line. */
  function RetimedLine(line: string, newTime: string): string {
    if Contains(line, SerpSenderScript) then newTime + CommandSep + Partition(line, CommandSep).after
    else line
  }

  function Retimed(lines: seq<string>, newTime: string): (r: seq<string>)
    ensures |r| == |lines|
    ensures forall i :: 0 <= i < |lines| ==> r[i] == RetimedLine(lines[i], newTime)
  {
    seq(|lines|, i requires 0 <= i < |lines| => RetimedLine(lines[i], newTime))
  }

  /** The list without its first line that contains `marker`. */
  function RemoveFirstMarked(lines: seq<string>, marker: string): seq<string> {
    if lines == [] then []
    else if Contains(lines[0], marker) then lines[1..]
    else [lines[0]] + RemoveFirstMarked(lines[1..], marker)
  }

  predicate NoneMarked(lines: seq<string>, marker: string) {
    forall i :: 0 <= i < |lines| ==> !Contains(lines[i], marker)
  }

  /** The crontab after `postpone_job`. */
  function Postponed(lines: seq<string>): seq<string> {
    Retimed(lines, PostponeSchedule) + [ResumeLine]
  }

  /** The crontab after `resume_job`. */
  function Resumed(lines: seq<string>): seq<string> {
    RemoveFirstMarked(Retimed(lines, ResumeSchedule), ResumeScript)
  }

  // ---------------------------------------------------------------------------
  // Properties of the resume line

  lemma {:induction false} ContainsInMiddle(a: string, p: string, b: string)
    ensures ContainsAt(a + p + b, p, |a|) && Contains(a + p + b, p)
  {
    assert (a + p + b)[|a|..|a| + |p|] == p;
    ContainsWitness(a + p + b, p, |a|);
  }

  /** A word in the middle of a joined line that contains `p` makes the line contain it. */
  lemma InnerWordContains(sep: string, words: seq<string>, k: nat, p: string)
    requires 0 < k < |words| - 1 && Contains(words[k], p)
    ensures Contains(Join(sep, words), p)
  {
    var pre, post := Join(sep, words[..k]) + sep, sep + Join(sep, words[k + 1..]);
    JoinSplitAt(sep, words, k);
    JoinSplitAt(sep, words[k..], 1);
    assert words[k..][..1] == [words[k]];
    assert words[k..][1..] == words[k + 1..];
    assert Join(sep, words) == pre + words[k] + post;
    ContainsSuffix(pre, words[k], p);
    ContainsPrefixPart(pre + words[k], post, p);
  }

  lemma ScriptWordMarked()
    ensures Contains(ResumeWords[10], ResumeScript)
  {
    var p := ResumeScript;
    assert ["descobridor", "queueing", p][1..] == ["queueing", p];
    assert Join("/", ["queueing", p]) == "queueing" + "/" + p;
    assert ResumeWords[10] == "descobridor" + "/" + ("queueing" + "/" + p);
    ContainsInMiddle("", p, "");
    assert "" + p + "" == p;
    ContainsSuffix("queueing" + "/", p, p);
    ContainsSuffix("descobridor" + "/", "queueing" + "/" + p, p);
  }

  /** The resume line names this script, so `remove_resume_job` can find it. */
  lemma ResumeLineIsMarked()
    ensures Contains(ResumeLine, ResumeScript)
  {
    ScriptWordMarked();
    InnerWordContains(" ", ResumeWords, 10, ResumeScript);
  }

  lemma {:induction false} JoinSplitAt(sep: string, words: seq<string>, k: nat)
    requires 0 < k < |words|
    ensures Join(sep, words) == Join(sep, words[..k]) + sep + Join(sep, words[k..])
  {
    if k > 1 {
      JoinSplitAt(sep, words[1..], k - 1);
      assert words[1..][..k - 1] == words[..k][1..];
      assert words[1..][k - 1..] == words[k..];
    }
  }

  lemma AbsentCharNoContains(s: string, p: string, k: nat)
    requires k < |p| && p[k] !in s
    ensures !Contains(s, p)
  {
    forall i ensures !ContainsAt(s, p, i) {
      if 0 <= i && i + |p| <= |s| {
        assert s[i..i + |p|][k] == s[i + k];
        assert s[i + k] in s;
      }
    }
    ContainsIff(s, p);
  }

  /** Every part of a path joined by '/' is free of the pattern, so the path is too. */
  lemma PathFree(parts: seq<string>, p: string)
    requires p != "" && '/' !in p
    requires forall i :: 0 <= i < |parts| ==> !Contains(parts[i], p)
    ensures !Contains(Join("/", parts), p)
  {
    JoinBarrier('/', parts, p);
  }

  lemma RepoPathFree()
    ensures !Contains(RepoPath, SerpSenderScript)
  {
    var p, parts := SerpSenderScript, ["Users", "eliza", "artesania", "descobridor"];
    ShortNeverContains(parts[0], p); ShortNeverContains(parts[1], p);
    ShortNeverContains(parts[2], p); ShortNeverContains(parts[3], p);
    PathFree(parts, p);
  }

  /** A '/' followed by a path free of `serp_sender.py`, after a short prefix, is free of it. */
  lemma RootedFree(prefix: string, path: string)
    requires |prefix| < |SerpSenderScript|
    requires !Contains(path, SerpSenderScript)
    ensures !Contains(prefix + ("/" + path), SerpSenderScript)
  {
    ShortNeverContains(prefix, SerpSenderScript);
    BarrierSplit(prefix, '/', path, SerpSenderScript);
    assert prefix + ("/" + path) == prefix + ['/'] + path;
  }

  lemma SlashFree(path: string)
    requires !Contains(path, SerpSenderScript)
    ensures !Contains("/" + path, SerpSenderScript)
  {
    RootedFree("", path);
    assert "" + ("/" + path) == "/" + path;
  }

  lemma RepoDirFree()
    ensures !Contains(RepoDir, SerpSenderScript)
  {
    RepoPathFree();
    SlashFree(RepoPath);
  }

  lemma PythonPathFree()
    ensures !Contains("PYTHONPATH=" + RepoDir, SerpSenderScript)
  {
    RepoPathFree();
    RootedFree("PYTHONPATH=", RepoPath);
  }

  lemma ResumeScriptFree()
    ensures !Contains(ResumeScript, SerpSenderScript)
  {
    var p := SerpSenderScript;
    assert ResumeScript == "change_serpj" + ['o'] + "b_freq.py";
    ShortNeverContains("change_serpj", p);
    ShortNeverContains("b_freq.py", p);
    BarrierSplit("change_serpj", 'o', "b_freq.py", p);
  }

  lemma ScriptPathFree()
    ensures !Contains(Join("/", ["descobridor", "queueing", ResumeScript]), SerpSenderScript)
  {
    var p, parts := SerpSenderScript, ["descobridor", "queueing", ResumeScript];
    ResumeScriptFree();
    ShortNeverContains(parts[0], p);
    ShortNeverContains(parts[1], p);
    PathFree(parts, p);
  }

  lemma LogFileFree()
    ensures !Contains(LogFile, SerpSenderScript)
  {
    var p := SerpSenderScript;
    var parts := ["usr", "local", "var", "log", "serp_sender.log"];
    assert parts[4] == "serp_sender.l" + ['o'] + "g";
    ShortNeverContains("serp_sender.l", p);
    ShortNeverContains("g", p);
    BarrierSplit("serp_sender.l", 'o', "g", p);
    ShortNeverContains(parts[0], p); ShortNeverContains(parts[1], p);
    ShortNeverContains(parts[2], p); ShortNeverContains(parts[3], p);
    PathFree(parts, p);
    SlashFree(Join("/", parts));
  }

  lemma ScheduleWordsFree()
    ensures forall i | 0 <= i < 6 :: !Contains(ResumeWords[i], SerpSenderScript)
  {
    var w, p := ResumeWords, SerpSenderScript;
    ShortNeverContains(w[0], p); ShortNeverContains(w[1], p); ShortNeverContains(w[2], p);
    ShortNeverContains(w[3], p); ShortNeverContains(w[4], p); ShortNeverContains(w[5], p);
  }

  lemma RepoWordFree()
    ensures !Contains(ResumeWords[6], SerpSenderScript)
  {
    RepoDirFree();
  }

  lemma PythonPathWordFree()
    ensures !Contains(ResumeWords[8], SerpSenderScript)
  {
    PythonPathFree();
  }

  lemma ScriptWordFree()
    ensures !Contains(ResumeWords[10], SerpSenderScript)
  {
    ScriptPathFree();
  }

  lemma LogWordFree()
    ensures !Contains(ResumeWords[13], SerpSenderScript)
  {
    LogFileFree();
  }

  lemma InterpreterWordFree()
    ensures !Contains(ResumeWords[9], SerpSenderScript)
  {
    var p, parts := SerpSenderScript, [".venv", "bin", "python"];
    ShortNeverContains(parts[0], p);
    ShortNeverContains(parts[1], p);
    ShortNeverContains(parts[2], p);
    PathFree(parts, p);
  }

  lemma ShortWordsFree()
    ensures forall i | i in {7, 11, 12, 14, 15} :: !Contains(ResumeWords[i], SerpSenderScript)
  {
    var w, p := ResumeWords, SerpSenderScript;
    ShortNeverContains(w[7], p); ShortNeverContains(w[11], p);
    ShortNeverContains(w[12], p); ShortNeverContains(w[14], p); ShortNeverContains(w[15], p);
  }

  lemma CommandWordsFree()
    ensures forall i | 6 <= i < |ResumeWords| :: !Contains(ResumeWords[i], SerpSenderScript)
  {
    RepoWordFree();
    PythonPathWordFree();
    ScriptWordFree();
    LogWordFree();
    InterpreterWordFree();
    ShortWordsFree();
    forall i | 6 <= i < |ResumeWords| ensures !Contains(ResumeWords[i], SerpSenderScript) {
      if i !in {6, 8, 9, 10, 13} {
        assert i in {7, 11, 12, 14, 15};
      }
    }
  }

  /** The resume line does not name `serp_sender.py`, so re-timing leaves it alone. */
  lemma ResumeLineNotRetimed()
    ensures !Contains(ResumeLine, SerpSenderScript)
  {
    ScheduleWordsFree();
    CommandWordsFree();
    JoinBarrier(' ', ResumeWords, SerpSenderScript);
  }

  // ---------------------------------------------------------------------------
  // change_serp_job_time

  lemma NoSepBefore(t: string, tail: string)
    requires !Contains(t, CommandSep)
    ensures forall i | 0 <= i < |t| :: !ContainsAt(t + CommandSep + tail, CommandSep, i)
  {
    var s := t + CommandSep + tail;
    forall i | 0 <= i < |t| ensures !ContainsAt(s, CommandSep, i) {
      if i + 2 <= |t| {
        assert s[i..i + 2] == t[i..i + 2];
        NotContainsAt(t, CommandSep, i);
      } else {
        assert s[i..i + 2][1] == s[|t|] == ' ';
      }
    }
  }

  /** `" /"` is first found right after a prefix that lacks it. */
  lemma {:induction false} PartitionAfterPrefix(t: string, tail: string)
    requires !Contains(t, CommandSep)
    ensures Partition(t + CommandSep + tail, CommandSep) == Parts(t, CommandSep, tail)
  {
    var s := t + CommandSep + tail;
    var r := Partition(s, CommandSep);
    ContainsInMiddle(t, CommandSep, tail);
    NoSepBefore(t, tail);
    assert |r.before| == |t|;
    assert r.before == s[..|t|] == t;
    assert r.after == s[|t| + 2..] == tail;
  }

  /**
   * A `serp_sender.py` line whose first `" /"` follows `prefix` keeps the text after
   * that separator and gets `newTime` in place of `prefix`.
   */
  lemma RetimeReplacesPrefix(prefix: string, command: string, newTime: string)
    requires !Contains(prefix, CommandSep)
    requires Contains(prefix + CommandSep + command, SerpSenderScript)
    ensures RetimedLine(prefix + CommandSep + command, newTime) == newTime + CommandSep + command
  {
    PartitionAfterPrefix(prefix, command);
  }

  /**
   * For the crontab line documented at the head of the script, everything up to the
   * first `" /"` is replaced, so the `(cd` that opens the command is lost as well.
   */
  lemma RetimeDropsCdPrefix(command: string, newTime: string)
    requires Contains(command, SerpSenderScript)
    ensures RetimedLine("*/5 * * * * (cd" + CommandSep + command, newTime)
         == newTime + CommandSep + command
  {
    var prefix := "*/5 * * * * (cd";
    assert !Contains(prefix, CommandSep) by {
      assert prefix == "*/" + ['5'] + " * * * * (cd";
      assert "*/" != CommandSep;
      assert !ContainsAt("*/", CommandSep, 0);
      AbsentCharNoContains(" * * * * (cd", CommandSep, 1);
      assert '5' !in CommandSep;
      BarrierSplit("*/", '5', " * * * * (cd", CommandSep);
    }
    assert prefix + CommandSep + command == (prefix + " ") + "/" + command;
    assert Contains(prefix + CommandSep + command, SerpSenderScript) by {
      ContainsSuffix(prefix + CommandSep, command, SerpSenderScript);
    }
    RetimeReplacesPrefix(prefix, command, newTime);
  }

  lemma {:induction false} ContainsSuffix(a: string, b: string, p: string)
    requires Contains(b, p)
    ensures Contains(a + b, p)
  {
    ContainsIff(b, p);
    var i :| ContainsAt(b, p, i);
    assert (a + b)[|a| + i..|a| + i + |p|] == b[i..i + |p|];
    ContainsWitness(a + b, p, |a| + i);
  }

  lemma {:induction false} ContainsPrefixPart(a: string, b: string, p: string)
    requires Contains(a, p)
    ensures Contains(a + b, p)
  {
    ContainsIff(a, p);
    var i :| ContainsAt(a, p, i);
    assert (a + b)[i..i + |p|] == a[i..i + |p|];
    ContainsWitness(a + b, p, i);
  }

  /** Re-timing a line twice with the same time changes nothing the second time. */
  lemma RetimeIdempotent(line: string, newTime: string)
    requires !Contains(newTime, CommandSep)
    ensures RetimedLine(RetimedLine(line, newTime), newTime) == RetimedLine(line, newTime)
  {
    if Contains(line, SerpSenderScript) {
      var once := RetimedLine(line, newTime);
      if Contains(once, SerpSenderScript) {
        PartitionAfterPrefix(newTime, Partition(line, CommandSep).after);
      }
    }
  }

  /** `change_serp_job_time` applied twice with a time free of `" /"` equals applying it once. */
  lemma RetimedIdempotent(lines: seq<string>, newTime: string)
    requires !Contains(newTime, CommandSep)
    ensures Retimed(Retimed(lines, newTime), newTime) == Retimed(lines, newTime)
  {
    forall i | 0 <= i < |lines|
      ensures Retimed(Retimed(lines, newTime), newTime)[i] == Retimed(lines, newTime)[i]
    {
      RetimeIdempotent(lines[i], newTime);
    }
  }

  /** Only `serp_sender.py` lines change; the others stay as they were, in place. */
  lemma RetimedFrame(lines: seq<string>, newTime: string, i: int)
    requires 0 <= i < |lines|
    ensures |Retimed(lines, newTime)| == |lines|
    ensures !Contains(lines[i], SerpSenderScript) ==> Retimed(lines, newTime)[i] == lines[i]
    ensures Contains(lines[i], SerpSenderScript) ==>
      Retimed(lines, newTime)[i] == newTime + CommandSep + Partition(lines[i], CommandSep).after
  {
  }

  // ---------------------------------------------------------------------------
  // remove_resume_job

  /** The removal takes out exactly the first marked line and keeps the rest in order. */
  lemma {:induction false} RemoveFirstMarkedAt(lines: seq<string>, marker: string, i: nat)
    requires i < |lines| && Contains(lines[i], marker)
    requires NoneMarked(lines[..i], marker)
    ensures RemoveFirstMarked(lines, marker) == lines[..i] + lines[i + 1..]
  {
    if i > 0 {
      assert !Contains(lines[..i][0], marker);
      assert lines[1..][..i - 1] == lines[..i][1..];
      RemoveFirstMarkedAt(lines[1..], marker, i - 1);
      assert lines[..i] == [lines[0]] + lines[1..][..i - 1];
      assert lines[1..][i..] == lines[i + 1..];
    }
  }

  /** With no marked line the list is unchanged. */
  lemma {:induction false} RemoveFirstMarkedNone(lines: seq<string>, marker: string)
    requires NoneMarked(lines, marker)
    ensures RemoveFirstMarked(lines, marker) == lines
  {
    if lines != [] {
      RemoveFirstMarkedNone(lines[1..], marker);
      assert [lines[0]] + lines[1..] == lines;
    }
  }

  /** On a list without a resume line, appending it and removing it gives the list back. */
  lemma AppendThenRemove(lines: seq<string>)
    requires NoneMarked(lines, ResumeScript)
    ensures RemoveFirstMarked(lines + [ResumeLine], ResumeScript) == lines
  {
    ResumeLineIsMarked();
    assert (lines + [ResumeLine])[..|lines|] == lines;
    RemoveFirstMarkedAt(lines + [ResumeLine], ResumeScript, |lines|);
  }

  // ---------------------------------------------------------------------------
  // postpone, then resume

  /** A `serp_sender.py` line whose script name comes after the first `" /"`. */
  predicate ScriptAfterSchedule(line: string) {
    Contains(line, SerpSenderScript) ==>
      Contains(line, CommandSep) && Contains(Partition(line, CommandSep).after, SerpSenderScript)
  }

  lemma RetimeTwice(line: string, first: string, second: string)
    requires !Contains(first, CommandSep)
    requires ScriptAfterSchedule(line)
    ensures RetimedLine(RetimedLine(line, first), second) == RetimedLine(line, second)
  {
    if Contains(line, SerpSenderScript) {
      var after := Partition(line, CommandSep).after;
      PartitionAfterPrefix(first, after);
      ContainsSuffix(first + CommandSep, after, SerpSenderScript);
    }
  }

  /** A re-timed line names the resume script only if the original line did. */
  lemma SuffixFree(a: string, b: string, p: string)
    requires !Contains(a + b, p)
    ensures !Contains(b, p)
  {
    forall i | 0 <= i && i + |p| <= |b| ensures !ContainsAt(b, p, i) {
      assert (a + b)[|a| + i..|a| + i + |p|] == b[i..i + |p|];
      NotContainsAt(a + b, p, |a| + i);
    }
    ContainsIff(b, p);
  }

  /** A schedule shorter than `p`, then `" /"`, then a tail free of `p`, is free of `p`. */
  lemma ScheduledFree(schedule: string, tail: string, p: string)
    requires |schedule| + 1 < |p| && '/' !in p
    requires !Contains(tail, p)
    ensures !Contains(schedule + CommandSep + tail, p)
  {
    ShortNeverContains(schedule + " ", p);
    BarrierSplit(schedule + " ", '/', tail, p);
    assert schedule + CommandSep + tail == schedule + " " + ['/'] + tail;
  }

  /** A re-timed line contains a pattern without '/' only if the original line did. */
  lemma RetimeKeepsUnmarked(line: string, newTime: string, p: string)
    requires |newTime| + 1 < |p| && '/' !in p
    requires !Contains(line, p)
    ensures !Contains(RetimedLine(line, newTime), p)
  {
    if Contains(line, SerpSenderScript) {
      var parts := Partition(line, CommandSep);
      assert line == (parts.before + parts.sep) + parts.after;
      SuffixFree(parts.before + parts.sep, parts.after, p);
      ScheduledFree(newTime, parts.after, p);
    }
  }

  /**
   * Resuming after postponing gives the crontab that resuming alone would give:
   * the serp_sender lines end on the ten-minute schedule and the resume line is gone.
   */
  lemma ResumeUndoesPostpone(lines: seq<string>)
    requires NoneMarked(lines, ResumeScript)
    requires forall i :: 0 <= i < |lines| ==> ScriptAfterSchedule(lines[i])
    ensures Resumed(Postponed(lines)) == Retimed(lines, ResumeSchedule)
  {
    var once := Retimed(lines, PostponeSchedule);
    PostponeScheduleHasNoSep();
    RetimedTwice(lines, PostponeSchedule, ResumeSchedule);
    RetimedAppendResume(once, ResumeSchedule);
    ResumeScheduleIsShort();
    RetimedKeepsUnmarked(lines, ResumeSchedule, ResumeScript);
    AppendThenRemove(Retimed(lines, ResumeSchedule));
  }

  lemma PostponeScheduleHasNoSep()
    ensures !Contains(PostponeSchedule, CommandSep)
  {
    AbsentCharNoContains(PostponeSchedule, CommandSep, 1);
  }

  lemma ResumeScheduleIsShort()
    ensures |ResumeSchedule| + 1 < |ResumeScript| && '/' !in ResumeScript
  {
  }

  lemma RetimedTwice(lines: seq<string>, first: string, second: string)
    requires !Contains(first, CommandSep)
    requires forall i :: 0 <= i < |lines| ==> ScriptAfterSchedule(lines[i])
    ensures Retimed(Retimed(lines, first), second) == Retimed(lines, second)
  {
    forall i | 0 <= i < |lines|
      ensures Retimed(Retimed(lines, first), second)[i] == Retimed(lines, second)[i]
    {
      RetimeTwice(lines[i], first, second);
    }
  }

  lemma RetimedKeepsUnmarked(lines: seq<string>, newTime: string, p: string)
    requires |newTime| + 1 < |p| && '/' !in p
    requires NoneMarked(lines, p)
    ensures NoneMarked(Retimed(lines, newTime), p)
  {
    forall i | 0 <= i < |lines| ensures !Contains(Retimed(lines, newTime)[i], p) {
      RetimeKeepsUnmarked(lines[i], newTime, p);
    }
  }

  /** The appended resume line survives any re-timing unchanged. */
  lemma RetimedAppendResume(lines: seq<string>, newTime: string)
    ensures Retimed(lines + [ResumeLine], newTime) == Retimed(lines, newTime) + [ResumeLine]
  {
    ResumeLineNotRetimed();
    assert Retimed(lines + [ResumeLine], newTime)[|lines|] == RetimedLine(ResumeLine, newTime);
  }

  // ---------------------------------------------------------------------------
  // The crontab list, changed in place

  class Crontab {
    var jobs: seq<string>

    constructor (lines: seq<string>)
      ensures jobs == lines
    {
      jobs := lines;
    }

    /** `append_resume_job` */
    method AppendResumeJob()
      modifies this
      ensures jobs == old(jobs) + [ResumeLine]
    {
      jobs := jobs + [ResumeLine];
    }

    /** `remove_resume_job`: pop the first line naming the resume script. */
    method RemoveResumeJob()
      modifies this
      ensures jobs == RemoveFirstMarked(old(jobs), ResumeScript)
    {
      var i := 0;
      while i < |jobs|
        invariant 0 <= i <= |jobs| && jobs == old(jobs)
        invariant NoneMarked(jobs[..i], ResumeScript)
      {
        if Contains(jobs[i], ResumeScript) {
          RemoveFirstMarkedAt(jobs, ResumeScript, i);
          jobs := jobs[..i] + jobs[i + 1..];
          return;
        }
        assert jobs[..i + 1] == jobs[..i] + [jobs[i]];
        i := i + 1;
      }
      assert jobs[..i] == jobs;
      RemoveFirstMarkedNone(jobs, ResumeScript);
    }

    /** `change_serp_job_time`: give every serp_sender line the new schedule. */
    method ChangeSerpJobTime(newTime: string)
      modifies this
      ensures jobs == Retimed(old(jobs), newTime)
    {
      var i := 0;
      while i < |jobs|
        invariant 0 <= i <= |jobs| && |jobs| == |old(jobs)|
        invariant forall k :: 0 <= k < i ==> jobs[k] == RetimedLine(old(jobs)[k], newTime)
        invariant forall k :: i <= k < |jobs| ==> jobs[k] == old(jobs)[k]
      {
        var line := jobs[i];
        if Contains(line, SerpSenderScript) {
          var parts := Partition(line, CommandSep);
          jobs := jobs[i := newTime + CommandSep + parts.after];
        }
        i := i + 1;
      }
    }

    /** `postpone_job`, without the crontab read and write. */
    method PostponeJob()
      modifies this
      ensures jobs == Postponed(old(jobs))
    {
      ChangeSerpJobTime(PostponeSchedule);
      AppendResumeJob();
    }

    /** `resume_job`, without the crontab read and write. */
    method ResumeJob()
      modifies this
      ensures jobs == Resumed(old(jobs))
    {
      ChangeSerpJobTime(ResumeSchedule);
      RemoveResumeJob();
    }

    /** The script's entry point: `--postpone` wins over `--resume`; neither is an error. */
    method Run(postpone: bool, resume: bool) returns (r: Result<()>)
      modifies this
      ensures postpone ==> r == Ok(()) && jobs == Postponed(old(jobs))
      ensures !postpone && resume ==> r == Ok(()) && jobs == Resumed(old(jobs))
      ensures !postpone && !resume ==> r.Err? && r.error.ValueError? && jobs == old(jobs)
    {
      if postpone {
        PostponeJob();
        r := Ok(());
      } else if resume {
        ResumeJob();
        r := Ok(());
      } else {
        r := Err(ValueError("Please specify either --postpone or --resume"));
      }
    }
  }

  /** `read_cronjobs` splits the crontab on newlines; the write joins them back unchanged. */
  lemma CrontabTextRoundTrip(text: string)
    ensures Join("\n", SplitOn(text, '\n')) == text
  {
    JoinSplitOn(text, '\n');
  }
}
