/** The stepwise schema migrations in `db/migrations.go`. */
module SchemaMigrations {
  const SCHEMA_VERSION := 4

  /** What became of a step: done and recorded, failed, or done without being recorded. */
  datatype Outcome = Recorded | RunFailed | RecordFailed
  datatype Entry = Entry(step: int, outcome: Outcome)

  function FirstStep(current: int): int {
    if current < 0 then 1 else current + 1
  }

  /** The entries of one start that believes the database to be at `current`. */
  ghost predicate IsRun(current: int, log: seq<Entry>) {
    && (forall i :: 0 <= i < |log| ==> log[i].step == FirstStep(current) + i && log[i].step <= SCHEMA_VERSION)
    && (forall i :: 0 <= i < |log| - 1 ==> log[i].outcome.Recorded?)
    && (Succeeded(log) ==> FirstStep(current) + |log| > SCHEMA_VERSION)
  }

  ghost predicate IsPrefix(current: int, log: seq<Entry>) {
    forall i :: 0 <= i < |log| ==> log[i] == Entry(FirstStep(current) + i, Recorded)
  }

  predicate Succeeded(log: seq<Entry>) {
    |log| > 0 ==> log[|log| - 1].outcome.Recorded?
  }

  /** The recorded version once the entries have taken effect. */
  function VersionAfter(before: int, log: seq<Entry>): int {
    if |log| == 0 then before
    else
      var last := log[|log| - 1];
      if last.outcome.Recorded? then last.step else VersionAfter(before, log[..|log| - 1])
  }

  lemma VersionAfterAppend(before: int, log: seq<Entry>, e: Entry)
    ensures VersionAfter(before, log + [e])
         == if e.outcome.Recorded? then e.step else VersionAfter(before, log)
  {
    assert (log + [e])[..|log|] == log;
  }

  lemma PrefixGrows(before: int, current: int, log: seq<Entry>, e: Entry)
    requires IsPrefix(current, log) && e.step == FirstStep(current) + |log| <= SCHEMA_VERSION
    ensures e.outcome.Recorded? ==> IsPrefix(current, log + [e])
    ensures !e.outcome.Recorded? ==> IsRun(current, log + [e]) && !Succeeded(log + [e])
    ensures VersionAfter(before, log + [e])
         == if e.outcome.Recorded? then e.step else VersionAfter(before, log)
  {
    VersionAfterAppend(before, log, e);
  }

  lemma PrefixIsRun(current: int, log: seq<Entry>)
    requires IsPrefix(current, log) && FirstStep(current) + |log| == SCHEMA_VERSION + 1
    ensures IsRun(current, log) && Succeeded(log)
  {
  }

  class Database {
    var version: int

    constructor (version: int)
      ensures this.version == version
    {
      this.version := version;
    }

    /** A failed read is not reported: it leaves the zero value. */
    method CurrentVersion() returns (v: int, ghost readOk: bool)
      ensures v == if readOk then version else 0
    {
      if * {
        v, readOk := version, true;
      } else {
        v, readOk := 0, false;
      }
    }

    method RunStep(step: int) returns (outcome: Outcome)
      modifies this
      ensures version == if outcome.Recorded? then step else old(version)
    {
      outcome := *;
      if outcome.Recorded? {
        version := step;
      }
    }

    method RunMigrations() returns (ok: bool, ghost readOk: bool, ghost log: seq<Entry>)
      modifies this
      ensures IsRun(if readOk then old(version) else 0, log)
      ensures ok == Succeeded(log)
      ensures version == VersionAfter(old(version), log)
    {
      ok, log := true, [];
      var current;
      current, readOk := CurrentVersion();
      ghost var seen := current;
      if current >= SCHEMA_VERSION {
        return;
      }
      var step := 1;
      while step <= SCHEMA_VERSION
        invariant 1 <= step <= SCHEMA_VERSION + 1 && current < SCHEMA_VERSION + 1
        invariant IsPrefix(seen, log) && VersionAfter(old(version), log) == version
        invariant if |log| == 0 then current == seen && step <= FirstStep(seen)
                  else current == step - 1 == FirstStep(seen) + |log| - 1
      {
        if current < step {
          var outcome := RunStep(step);
          PrefixGrows(old(version), seen, log, Entry(step, outcome));
          log := log + [Entry(step, outcome)];
          if !outcome.Recorded? {
            ok := false;
            return;
          }
          current := step;
        }
        step := step + 1;
      }
      PrefixIsRun(seen, log);
    }
  }

  /** One start of the application. */
  datatype Start = Start(before: int, readOk: bool, log: seq<Entry>, after: int)

  ghost predicate IsStart(s: Start) {
    IsRun(if s.readOk then s.before else 0, s.log) && s.after == VersionAfter(s.before, s.log)
  }

  /** Consecutive starts of one database. */
  ghost predicate AreStarts(starts: seq<Start>) {
    && (forall i :: 0 <= i < |starts| ==> IsStart(starts[i]))
    && (forall i :: 0 <= i < |starts| - 1 ==> starts[i].after == starts[i + 1].before)
  }

  ghost predicate AllRead(starts: seq<Start>) {
    forall i :: 0 <= i < |starts| ==> starts[i].readOk
  }

  /** The steps recorded as done, in order. */
  function DoneSteps(log: seq<Entry>): seq<int> {
    if log == [] then []
    else
      var last := log[|log| - 1];
      DoneSteps(log[..|log| - 1]) + (if last.outcome.Recorded? then [last.step] else [])
  }

  function AllDone(starts: seq<Start>): seq<int> {
    if starts == [] then [] else AllDone(starts[..|starts| - 1]) + DoneSteps(starts[|starts| - 1].log)
  }

  /** The steps from `lo` up to and including `hi`. */
  function StepsBetween(lo: int, hi: int): seq<int> {
    if hi < lo then [] else seq(hi - lo + 1, i requires 0 <= i < hi - lo + 1 => lo + i)
  }

  lemma {:induction false} AllRecorded(current: int, log: seq<Entry>)
    requires IsPrefix(current, log)
    ensures DoneSteps(log) == StepsBetween(FirstStep(current), FirstStep(current) + |log| - 1)
    ensures VersionAfter(current, log) == if log == [] then current else FirstStep(current) + |log| - 1
  {
    if log != [] {
      AllRecorded(current, log[..|log| - 1]);
    }
  }

  /** One start records, in order and once each, exactly the steps between the two versions. */
  lemma StartRecordsTheGap(s: Start)
    requires IsStart(s) && s.readOk
    ensures s.before <= s.after
    ensures DoneSteps(s.log) == StepsBetween(FirstStep(s.before), s.after)
    ensures Succeeded(s.log) ==> s.after >= SCHEMA_VERSION
    ensures s.after > s.before ==> s.after <= SCHEMA_VERSION && s.after > 0
  {
    var log := s.log;
    if Succeeded(log) {
      AllRecorded(s.before, log);
    } else {
      AllRecorded(s.before, log[..|log| - 1]);
    }
  }

  lemma ConsecutiveSteps(lo: int, mid: int, hi: int)
    requires lo <= mid <= hi && (mid < hi ==> hi > 0)
    ensures StepsBetween(FirstStep(lo), mid) + StepsBetween(FirstStep(mid), hi) == StepsBetween(FirstStep(lo), hi)
  {
  }

  /**
   Over any number of starts, however many of them fail, the recorded version
   never goes back and every step is recorded once, in order, none left out.
   */
  lemma {:induction false} EveryStepOnce(starts: seq<Start>)
    requires |starts| > 0 && AreStarts(starts) && AllRead(starts)
    ensures starts[0].before <= starts[|starts| - 1].after
    ensures AllDone(starts) == StepsBetween(FirstStep(starts[0].before), starts[|starts| - 1].after)
    ensures starts[|starts| - 1].after > starts[0].before ==> starts[|starts| - 1].after > 0
  {
    var last := starts[|starts| - 1];
    StartRecordsTheGap(last);
    if |starts| == 1 {
      assert AllDone(starts[..0]) == [];
    } else {
      var init := starts[..|starts| - 1];
      EveryStepOnce(init);
      ConsecutiveSteps(starts[0].before, last.before, last.after);
    }
  }

  /** Once a start succeeds the schema is complete. */
  lemma SuccessCompletes(starts: seq<Start>)
    requires |starts| > 0 && AreStarts(starts) && AllRead(starts)
    requires Succeeded(starts[|starts| - 1].log)
    ensures var v0 := starts[0].before;
            && starts[|starts| - 1].after == (if v0 < SCHEMA_VERSION then SCHEMA_VERSION else v0)
            && AllDone(starts) == StepsBetween(FirstStep(v0), SCHEMA_VERSION)
  {
    EveryStepOnce(starts);
    StartRecordsTheGap(starts[|starts| - 1]);
    NeverPastTheSchema(starts);
  }

  lemma NothingLeftToRun(s: Start)
    requires IsStart(s) && s.readOk && s.before >= SCHEMA_VERSION
    ensures s.log == [] && s.after == s.before
  {
  }

  lemma {:induction false} NeverPastTheSchema(starts: seq<Start>)
    requires |starts| > 0 && AreStarts(starts) && AllRead(starts)
    ensures starts[|starts| - 1].after > SCHEMA_VERSION ==> starts[|starts| - 1].after == starts[0].before
    ensures starts[0].before >= SCHEMA_VERSION ==> starts[|starts| - 1].after == starts[0].before
  {
    StartRecordsTheGap(starts[|starts| - 1]);
    if |starts| > 1 {
      NeverPastTheSchema(starts[..|starts| - 1]);
    }
  }

  /** A failed start is taken up where it stopped. */
  lemma ResumesAtTheFailure(s: Start, next: Start)
    requires IsStart(s) && s.readOk && !Succeeded(s.log)
    requires IsStart(next) && next.readOk && next.before == s.after
    ensures |next.log| > 0 && next.log[0].step == s.log[|s.log| - 1].step
  {
    var done := s.log[..|s.log| - 1];
    AllRecorded(s.before, done);
  }

  /** A step already recorded runs again exactly when the version could not be read. */
  lemma RerunsIffUnread(s: Start)
    requires IsStart(s)
    ensures (exists i :: 0 <= i < |s.log| && s.log[i].step <= s.before) <==> !s.readOk && s.before > 0
  {
    if !s.readOk && s.before > 0 {
      assert s.log[0].step <= s.before;
    }
  }

  lemma {:induction false} RecordedUpTo(before: int, current: int, log: seq<Entry>)
    requires IsPrefix(current, log)
    ensures |DoneSteps(log)| == |log|
    ensures VersionAfter(before, log) == if log == [] then before else FirstStep(current) + |log| - 1
  {
    if log != [] {
      RecordedUpTo(before, current, log[..|log| - 1]);
    }
  }

  /** A start without the version counts its steps from 1, so it leaves their number as the version. */
  lemma UnreadStart(s: Start)
    requires IsStart(s) && !s.readOk
    ensures s.after == if DoneSteps(s.log) == [] then s.before else |DoneSteps(s.log)|
  {
    var log := s.log;
    if Succeeded(log) {
      RecordedUpTo(s.before, 0, log);
    } else {
      RecordedUpTo(s.before, 0, log[..|log| - 1]);
    }
  }

  /** The recorded version goes back exactly when it was not read and the start got some way, but not as far again. */
  lemma VersionGoesBackIff(s: Start)
    requires IsStart(s)
    ensures s.after < s.before <==> !s.readOk && 0 < |DoneSteps(s.log)| < s.before
  {
    if s.readOk {
      StartRecordsTheGap(s);
    } else {
      UnreadStart(s);
    }
  }

  /** From any version above 1 an unread start can take it back. */
  lemma UnreadVersionGoesBack(before: int) returns (s: Start)
    requires before > 1
    ensures IsStart(s) && s.before == before && s.after < before
  {
    var log := [Entry(1, Recorded), Entry(2, RunFailed)];
    assert log[..1] == [Entry(1, Recorded)];
    s := Start(before, false, log, 1);
    assert VersionAfter(before, log) == VersionAfter(before, log[..1]) == 1;
  }
}
