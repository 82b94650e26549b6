/**
 * The export job's progress counter. Each `_counter_write` fills in defaults,
 * derives the overall fields (`_with_overall_fields`) and stores the snapshot
 * in the job's counter file; without a job id nothing is written.
 *
 * With `want_concat` the overall percentage runs 0..50 during the download
 * phase and 50..100 during the concat phase; without it, it is the phase's own
 * fraction.
 */
module Progress {
  import opened Wrappers
  import opened Text

  /** The fields a caller passes to `_counter_write` that the derived fields read. */
  datatype Fields = Fields(
    phase: Option<string>,
    status: Option<string>,
    total: int,
    done: int,
    bytes: Option<int>,
    mode: Option<string>)

  /** A stored counter snapshot. */
  datatype Snapshot = Snapshot(
    phase: string,
    status: string,
    total: int,
    done: int,
    bytes: Option<int>,
    mode: Option<string>,
    wantConcat: bool,
    overallPercent: int,
    overallStatus: string,
    overallText: string)

  /** Python's `round` on a real: to the nearest integer, ties to the even one. */
  function RoundHalfEven(x: real): (r: int)
    ensures x - 0.5 <= r as real <= x + 0.5
  {
    var f := x.Floor;
    var diff := x - f as real;
    if diff < 0.5 then f
    else if diff > 0.5 then f + 1
    else if f % 2 == 0 then f else f + 1
  }

  lemma RoundMonotone(x: real, y: real)
    requires x <= y
    ensures RoundHalfEven(x) <= RoundHalfEven(y)
  {
    var fx, fy := x.Floor, y.Floor;
    if fx == fy {
      if RoundHalfEven(x) == fx + 1 {
        assert x - fx as real >= 0.5;
      }
    }
  }

  lemma RoundOfInt(n: int)
    ensures RoundHalfEven(n as real) == n
  {
  }

  function Clamp01(x: real): (r: real)
    ensures 0.0 <= r <= 1.0
    ensures 0.0 <= x <= 1.0 ==> r == x
  {
    if x < 0.0 then 0.0 else if x > 1.0 then 1.0 else x
  }

  /** The phase fraction `done/total`, clamped; 0 when `total` is not positive. */
  function Fraction(done: int, total: int): real {
    Clamp01(if total > 0 then done as real / total as real else 0.0)
  }

  /** The overall progress in [0, 1]. */
  function Overall(phase: string, done: int, total: int, wantConcat: bool): real {
    var frac := Fraction(done, total);
    if !wantConcat then frac
    else if phase == "download" then 0.5 * frac
    else if phase == "concat" then 0.5 + 0.5 * frac
    else 0.0
  }

  /** `overall_percent` */
  function OverallPercent(phase: string, done: int, total: int, wantConcat: bool): int {
    RoundHalfEven(100.0 * Clamp01(Overall(phase, done, total, wantConcat)))
  }

  /** The percentage is always between 0 and 100. */
  lemma PercentBounds(phase: string, done: int, total: int, wantConcat: bool)
    ensures 0 <= OverallPercent(phase, done, total, wantConcat) <= 100
  {
    var x := 100.0 * Clamp01(Overall(phase, done, total, wantConcat));
    RoundMonotone(0.0, x);
    RoundMonotone(x, 100.0);
    RoundOfInt(0);
    RoundOfInt(100);
  }

  /** With a concat to follow, the download phase fills the first half and the concat phase the second. */
  lemma PercentHalves(done: int, total: int)
    ensures OverallPercent("download", done, total, true) <= 50
    ensures OverallPercent("concat", done, total, true) >= 50
  {
    var frac := Fraction(done, total);
    RoundMonotone(100.0 * (0.5 * frac), 50.0);
    RoundMonotone(50.0, 100.0 * (0.5 + 0.5 * frac));
    RoundOfInt(50);
  }

  /** Without a concat, the percentage is the phase fraction, and 0 for a non-positive total. */
  lemma PercentWithoutConcat(phase: string, done: int, total: int)
    ensures OverallPercent(phase, done, total, false) == RoundHalfEven(100.0 * Fraction(done, total))
    ensures total <= 0 ==> OverallPercent(phase, done, total, false) == 0
    ensures 0 <= done <= total && total > 0 ==>
      OverallPercent(phase, done, total, false) == RoundHalfEven(100.0 * (done as real / total as real))
  {
    if 0 <= done <= total && total > 0 {
      assert done as real / total as real <= 1.0;
    }
  }

  /** More done in the same phase never lowers the percentage. */
  lemma PercentMonotone(phase: string, done1: int, done2: int, total: int, wantConcat: bool)
    requires done1 <= done2
    ensures OverallPercent(phase, done1, total, wantConcat) <= OverallPercent(phase, done2, total, wantConcat)
  {
    if total > 0 {
      assert done1 as real / total as real <= done2 as real / total as real;
    }
    RoundMonotone(100.0 * Clamp01(Overall(phase, done1, total, wantConcat)),
                  100.0 * Clamp01(Overall(phase, done2, total, wantConcat)));
  }

  /** `overall_status` */
  function OverallStatus(phase: string, status: string, wantConcat: bool): string {
    if wantConcat && phase == "download" && status == "done" then "running"
    else if phase == "concat" && status == "done" then "done"
    else if status == "error" then "error"
    else if status == "" then "running"
    else status
  }

  /**
   * The job counts as done exactly when its status is `done`, except for a
   * finished download that a concat still follows; an error status is always
   * reported as an error.
   */
  lemma OverallStatusMeaning(phase: string, status: string, wantConcat: bool)
    ensures OverallStatus(phase, status, wantConcat) == "done" <==>
      status == "done" && !(wantConcat && phase == "download")
    ensures status == "error" ==> OverallStatus(phase, status, wantConcat) == "error"
    ensures status == "" ==> OverallStatus(phase, status, wantConcat) == "running"
  {
  }

  const Dash := " \U{2014} "

  /** `overall_text` */
  function OverallText(phase: string, status: string, wantConcat: bool, percent: int,
                       done: int, total: int, mode: Option<string>): (text: string)
    ensures phase == "concat" && status == "done" ==> StartsWith(text, "overall 100%")
    ensures !(phase == "concat" && status == "done") ==> StartsWith(text, "overall " + IntToString(percent) + "%")
  {
    var head := "overall " + IntToString(percent) + "%";
    if phase == "concat" && status == "done" then
      var text := "overall 100%" + Dash + "complete";
      StartsWithAppend("overall 100%", Dash + "complete");
      assert text == "overall 100%" + (Dash + "complete");
      text
    else if !(wantConcat && phase == "download" && status == "done") && status != "error"
            && phase != "download" && phase != "concat" then
      var full := head + Dash + phase + " " + status;
      assert full[|head| - 1] == '%';
      TrimRightKeeps(full, |head| - 1, Whitespace);
      var text := TrimRight(full, Whitespace);
      assert text[..|head|] == full[..|head|];
      text
    else
      var tail :=
        if wantConcat && phase == "download" && status == "done" then
          Dash + "download complete, starting concat\U{2026}"
        else if status == "error" then
          Dash + "error"
        else if phase == "download" then
          Dash + "downloading " + IntToString(done) + "/" + IntToString(total)
        else
          var modeText := if mode.None? || mode.value == "" then "" else " (" + mode.value + ")";
          Dash + "concatenating" + modeText + " " + IntToString(done) + "/" + IntToString(total);
      StartsWithAppend(head, tail);
      head + tail
  }

  /** `_with_overall_fields`: the snapshot with its derived fields. */
  function WithOverall(phase: string, status: string, total: int, done: int, bytes: Option<int>,
                       mode: Option<string>, wantConcat: bool): Snapshot
  {
    var percent := OverallPercent(phase, done, total, wantConcat);
    Snapshot(phase, status, total, done, bytes, mode, wantConcat, percent,
             OverallStatus(phase, status, wantConcat),
             OverallText(phase, status, wantConcat, percent, done, total, mode))
  }

  /** A job id Python treats as present: not `None` and not empty. */
  predicate JobSet(jobId: Option<string>) {
    jobId.Some? && jobId.value != ""
  }

  /**
   * `_counter_write(job_id, fields, want_concat=...)`: the snapshots it stores,
   * none without a job id. A missing phase is `download`, a missing status
   * `running`, and a missing `want_concat` argument `False`.
   */
  function CounterWrite(jobId: Option<string>, fields: Fields, wantConcat: Option<bool>): (stored: seq<Snapshot>)
    ensures |stored| == if JobSet(jobId) then 1 else 0
    ensures forall snap | snap in stored ::
      && snap.phase == fields.phase.GetOr("download")
      && snap.status == fields.status.GetOr("running")
      && snap.wantConcat == wantConcat.GetOr(false)
      && snap.total == fields.total && snap.done == fields.done && snap.bytes == fields.bytes
      && snap.mode == fields.mode
      && 0 <= snap.overallPercent <= 100
      && snap.overallPercent == OverallPercent(snap.phase, snap.done, snap.total, snap.wantConcat)
      && snap.overallStatus == OverallStatus(snap.phase, snap.status, snap.wantConcat)
  {
    if !JobSet(jobId) then []
    else
      var phase := fields.phase.GetOr("download");
      var wc := wantConcat.GetOr(false);
      PercentBounds(phase, fields.done, fields.total, wc);
      [WithOverall(phase, fields.status.GetOr("running"), fields.total, fields.done, fields.bytes, fields.mode, wc)]
  }

  /**
   * A concat-phase write made without the `want_concat` argument is stored as
   * a job without concat, so its percentage is the concat fraction alone: the
   * counter that stood at 50% or more for the finished download drops back.
   */
  lemma ConcatWriteWithoutFlag(jobId: Option<string>, total: int, done: int, mode: Option<string>)
    requires JobSet(jobId) && 0 <= done && 0 < total
    ensures var stored := CounterWrite(jobId, Fields(Some("concat"), Some("running"), total, done, None, mode), None);
      |stored| == 1 && !stored[0].wantConcat
      && stored[0].overallPercent == RoundHalfEven(100.0 * Fraction(done, total))
      && (done == 0 ==> stored[0].overallPercent == 0)
  {
    var stored := CounterWrite(jobId, Fields(Some("concat"), Some("running"), total, done, None, mode), None);
    assert stored == [WithOverall("concat", "running", total, done, None, mode, false)];
    PercentWithoutConcat("concat", done, total);
    if done == 0 {
      NothingDoneIsZero(total);
    }
  }

  /** No clips done out of a positive total rounds to 0%. */
  lemma NothingDoneIsZero(total: int)
    requires total > 0
    ensures RoundHalfEven(100.0 * Fraction(0, total)) == 0
  {
    assert Fraction(0, total) == 0.0;
    RoundOfInt(0);
  }

  /** One line of ffmpeg's `-progress` output. */
  datatype ProgressLine =
    /**
     * An `out_time_ms=` line: the value if it reads as a number, and whether
     * the quarter-second throttle lets this line update the counter.
     */
    | OutTime(micros: Option<real>, due: bool)
    | OtherLine

  /** An intermediate concat write: running, before the last clip. */
  predicate RunningWrite(snap: Snapshot, clips: int) {
    snap.phase == "concat" && snap.status == "running" && snap.total == clips
    && 0 <= snap.done <= clips - 1 && !snap.wantConcat
  }

  /** The closing concat write: all clips done, `done` exactly when ffmpeg exited with 0. */
  predicate FinalWrite(snap: Snapshot, clips: int, returnCode: int, wantConcat: bool) {
    snap.phase == "concat" && snap.status == (if returnCode == 0 then "done" else "error")
    && snap.total == clips && snap.done == clips && snap.wantConcat == wantConcat
  }

  /** The elapsed output time after a line: an `out_time_ms` value that reads as a number replaces it. */
  function NextElapsed(line: ProgressLine, elapsed: real): real {
    if line.OutTime? && line.micros.Some? then line.micros.value / 1000000.0 else elapsed
  }

  /**
   * The clips covered after `elapsed` seconds of output: the clamped fraction
   * of the clips rounded down, and never the whole while ffmpeg still runs.
   */
  function DoneAt(elapsed: real, effTotal: real, clips: int): (d: int)
    requires effTotal > 0.0 && clips >= 1
    ensures 0 <= d <= clips - 1
    ensures d as real <= Clamp01(elapsed / effTotal) * clips as real
    ensures Clamp01(elapsed / effTotal) < 1.0 ==> Clamp01(elapsed / effTotal) * clips as real < (d + 1) as real
    ensures Clamp01(elapsed / effTotal) == 1.0 ==> d == clips - 1
  {
    var done := (Clamp01(elapsed / effTotal) * clips as real).Floor;
    if done >= clips then clips - 1 else done
  }

  /** A line writes the counter when it is a due `out_time_ms` line covering more clips than the last write. */
  predicate Writes(line: ProgressLine, effTotal: real, clips: int, elapsed: real, lastDone: int)
    requires effTotal > 0.0 && clips >= 1
  {
    line.OutTime? && line.due && DoneAt(NextElapsed(line, elapsed), effTotal, clips) > lastDone
  }

  /** The running concat write of `done` clips, made without the `want_concat` argument. */
  function ConcatRunning(jobId: Option<string>, clips: int, done: int): seq<Snapshot> {
    CounterWrite(jobId, Fields(Some("concat"), Some("running"), clips, done, None, None), None)
  }

  /** The clip counts written while following `lines`, from the elapsed time and the last count written so far. */
  function ProgressDones(lines: seq<ProgressLine>, effTotal: real, clips: int, elapsed: real, lastDone: int): seq<int>
    requires effTotal > 0.0 && clips >= 1
    decreases |lines|
  {
    if lines == [] then []
    else
      var e := NextElapsed(lines[0], elapsed);
      if Writes(lines[0], effTotal, clips, elapsed, lastDone) then
        var d := DoneAt(e, effTotal, clips);
        [d] + ProgressDones(lines[1..], effTotal, clips, e, d)
      else
        ProgressDones(lines[1..], effTotal, clips, e, lastDone)
  }

  /** The snapshot a running concat write of `done` clips out of `clips` stores. */
  function RunningSnap(clips: int, done: int): Snapshot {
    WithOverall("concat", "running", clips, done, None, None, false)
  }

  /** The running concat writes of the given clip counts, in order: stored only under a job id. */
  function RunningWrites(jobId: Option<string>, clips: int, dones: seq<int>): seq<Snapshot> {
    if JobSet(jobId) then seq(|dones|, i requires 0 <= i < |dones| => RunningSnap(clips, dones[i])) else []
  }

  /** The counter write of a running concat step stores `RunningSnap`, under a job id only. */
  lemma ConcatRunningIs(jobId: Option<string>, clips: int, done: int)
    ensures ConcatRunning(jobId, clips, done) == if JobSet(jobId) then [RunningSnap(clips, done)] else []
  {
  }

  /** Writing one more count appends its running write. */
  lemma RunningWritesSnoc(jobId: Option<string>, clips: int, dones: seq<int>, d: int)
    ensures RunningWrites(jobId, clips, dones + [d]) == RunningWrites(jobId, clips, dones) + ConcatRunning(jobId, clips, d)
  {
    ConcatRunningIs(jobId, clips, d);
  }

  /** Following from position `k` is following line `k`, then the rest. */
  lemma ProgressDonesAt(lines: seq<ProgressLine>, k: nat, effTotal: real, clips: int, elapsed: real, lastDone: int)
    requires effTotal > 0.0 && clips >= 1 && k < |lines|
    ensures var e := NextElapsed(lines[k], elapsed);
      var d := DoneAt(e, effTotal, clips);
      ProgressDones(lines[k..], effTotal, clips, elapsed, lastDone)
      == if Writes(lines[k], effTotal, clips, elapsed, lastDone)
         then [d] + ProgressDones(lines[k + 1..], effTotal, clips, e, d)
         else ProgressDones(lines[k + 1..], effTotal, clips, e, lastDone)
  {
    assert lines[k..][0] == lines[k];
    assert lines[k..][1..] == lines[k + 1..];
  }

  /** `ds` strictly increases and lies above `lo` and at or below `hi`. */
  predicate Rising(ds: seq<int>, lo: int, hi: int) {
    && (forall i | 0 <= i < |ds| :: lo < ds[i] <= hi)
    && (forall i, j | 0 <= i < j < |ds| :: ds[i] < ds[j])
  }

  /**
   * The counts written while following ffmpeg's output lie above every count
   * written before, below the last clip, and strictly increase.
   */
  lemma {:induction false} ProgressDonesClimb(lines: seq<ProgressLine>, effTotal: real, clips: int,
                                              elapsed: real, lastDone: int)
    requires effTotal > 0.0 && clips >= 1
    ensures Rising(ProgressDones(lines, effTotal, clips, elapsed, lastDone), lastDone, clips - 1)
    decreases |lines|
  {
    if lines != [] {
      var e := NextElapsed(lines[0], elapsed);
      if Writes(lines[0], effTotal, clips, elapsed, lastDone) {
        var d := DoneAt(e, effTotal, clips);
        var rest := ProgressDones(lines[1..], effTotal, clips, e, d);
        ProgressDonesClimb(lines[1..], effTotal, clips, e, d);
        RisingCons(d, rest, lastDone, clips - 1);
      } else {
        ProgressDonesClimb(lines[1..], effTotal, clips, e, lastDone);
      }
    }
  }

  /** A count above `lo` put before counts above it keeps them rising above `lo`. */
  lemma RisingCons(d: int, rest: seq<int>, lo: int, hi: int)
    requires lo < d <= hi && Rising(rest, d, hi)
    ensures Rising([d] + rest, lo, hi)
  {
    var ds := [d] + rest;
    forall i | 0 < i < |ds| ensures ds[i] == rest[i - 1] { }
  }

  /** Running writes of counts rising within the clips climb. */
  lemma RunningWritesClimb(jobId: Option<string>, clips: int, dones: seq<int>)
    requires Rising(dones, -1, clips - 1)
    ensures Climbing(jobId, RunningWrites(jobId, clips, dones), clips, clips - 1)
  {
  }

  /** With a job id set, a due `out_time_ms` line at the start of the output always writes, with the clips it covers. */
  lemma FirstDueLineWrites(lines: seq<ProgressLine>, effTotal: real, clips: int, elapsed: real)
    requires effTotal > 0.0 && clips >= 1
    requires |lines| >= 1 && lines[0].OutTime? && lines[0].due
    ensures var ds := ProgressDones(lines, effTotal, clips, elapsed, -1);
      |ds| >= 1 && ds[0] == DoneAt(NextElapsed(lines[0], elapsed), effTotal, clips)
  {
  }

  /**
   * The snapshots `_run_ffmpeg_with_progress` stores: nothing when ffmpeg
   * cannot be spawned; otherwise the running writes of the clip counts reached
   * while following its output, then the final write. A non-positive duration
   * counts as 1 and the clips as at least 1.
   */
  function ProgressLog(jobId: Option<string>, spawned: bool, lines: seq<ProgressLine>, effectiveTotal: real,
                       totalClips: int, returnCode: int, wantConcat: bool): seq<Snapshot>
  {
    if !spawned then []
    else
      var effTotal := if effectiveTotal > 0.0 then effectiveTotal else 1.0;
      var clips := if totalClips < 1 then 1 else totalClips;
      RunningWrites(jobId, clips, ProgressDones(lines, effTotal, clips, 0.0, -1))
        + CounterWrite(jobId, Fields(Some("concat"), Some(if returnCode == 0 then "done" else "error"), clips, clips, None, None),
                       Some(wantConcat))
  }

  /** Without a job id the progress loop stores nothing. */
  lemma ProgressLogWithoutJob(jobId: Option<string>, spawned: bool, lines: seq<ProgressLine>, effectiveTotal: real,
                              totalClips: int, returnCode: int, wantConcat: bool)
    ensures !JobSet(jobId) ==> ProgressLog(jobId, spawned, lines, effectiveTotal, totalClips, returnCode, wantConcat) == []
  {
  }

  /**
   * `_run_ffmpeg_with_progress`: follows ffmpeg's progress output, writing the
   * concat counter each time the number of clips covered grows, then a final
   * write. Returns whether ffmpeg succeeded and the snapshots stored.
   */
  method RunWithProgress(jobId: Option<string>, spawned: bool, lines: seq<ProgressLine>,
                         effectiveTotal: real, totalClips: int, returnCode: int, wantConcat: bool)
    returns (ok: bool, writes: seq<Snapshot>)
    ensures !spawned ==> !ok && writes == []
    ensures spawned ==> ok == (returnCode == 0)
    ensures writes == ProgressLog(jobId, spawned, lines, effectiveTotal, totalClips, returnCode, wantConcat)
    ensures !JobSet(jobId) ==> writes == []
    ensures spawned && JobSet(jobId) ==>
      var clips := if totalClips < 1 then 1 else totalClips;
      && |writes| >= 1
      && FinalWrite(writes[|writes| - 1], clips, returnCode, wantConcat)
      && (forall i | 0 <= i < |writes| - 1 :: RunningWrite(writes[i], clips))
      && (forall i, j | 0 <= i < j < |writes| - 1 :: writes[i].done < writes[j].done)
  {
    if !spawned {
      return false, [];
    }
    var effTotal := if effectiveTotal > 0.0 then effectiveTotal else 1.0;
    var clips := if totalClips < 1 then 1 else totalClips;
    writes := FollowOutput(jobId, lines, effTotal, clips);
    ok := returnCode == 0;
    var last := CounterWrite(jobId, Fields(Some("concat"), Some(if ok then "done" else "error"), clips, clips, None, None), Some(wantConcat));
    ProgressDonesClimb(lines, effTotal, clips, 0.0, -1);
    RunningWritesClimb(jobId, clips, ProgressDones(lines, effTotal, clips, 0.0, -1));
    ClosingWrite(jobId, writes, last, clips, clips - 1, returnCode, wantConcat);
    writes := writes + last;
  }

  /** The loop over ffmpeg's output lines, from no elapsed time and nothing written. */
  method FollowOutput(jobId: Option<string>, lines: seq<ProgressLine>, effTotal: real, clips: int)
    returns (writes: seq<Snapshot>)
    requires effTotal > 0.0 && clips >= 1
    ensures writes == RunningWrites(jobId, clips, ProgressDones(lines, effTotal, clips, 0.0, -1))
  {
    var lastDone := -1;
    var elapsed := 0.0;
    writes := [];
    ghost var all := ProgressDones(lines, effTotal, clips, 0.0, -1);
    ghost var dones: seq<int> := [];
    assert lines[0..] == lines;
    for k := 0 to |lines|
      invariant -1 <= lastDone <= clips - 1
      invariant writes == RunningWrites(jobId, clips, dones)
      invariant dones + ProgressDones(lines[k..], effTotal, clips, elapsed, lastDone) == all
    {
      ghost var e0, d0 := elapsed, lastDone;
      ghost var wrote := Writes(lines[k], effTotal, clips, e0, d0);
      elapsed, lastDone, writes := FollowLine(jobId, lines[k], effTotal, clips, elapsed, lastDone, writes);
      DonesStep(lines, k, effTotal, clips, e0, d0, dones, elapsed, lastDone, all);
      if wrote {
        RunningWritesSnoc(jobId, clips, dones, lastDone);
        dones := dones + [lastDone];
      }
    }
    assert lines[|lines|..] == [];
    assert dones + [] == dones;
  }

  /** One line followed as `FollowLine` promises extends the counts written so far along all the counts. */
  lemma DonesStep(lines: seq<ProgressLine>, k: nat, effTotal: real, clips: int, elapsed: real, lastDone: int,
                  dones: seq<int>, elapsed': real, lastDone': int, all: seq<int>)
    requires effTotal > 0.0 && clips >= 1 && k < |lines|
    requires dones + ProgressDones(lines[k..], effTotal, clips, elapsed, lastDone) == all
    requires elapsed' == NextElapsed(lines[k], elapsed)
    requires Writes(lines[k], effTotal, clips, elapsed, lastDone) ==> lastDone' == DoneAt(elapsed', effTotal, clips)
    requires !Writes(lines[k], effTotal, clips, elapsed, lastDone) ==> lastDone' == lastDone
    ensures var now := if Writes(lines[k], effTotal, clips, elapsed, lastDone) then dones + [lastDone'] else dones;
      now + ProgressDones(lines[k + 1..], effTotal, clips, elapsed', lastDone') == all
  {
    ProgressDonesAt(lines, k, effTotal, clips, elapsed, lastDone);
    var tail := ProgressDones(lines[k + 1..], effTotal, clips, elapsed', lastDone');
    if Writes(lines[k], effTotal, clips, elapsed, lastDone) {
      assert dones + ([lastDone'] + tail) == (dones + [lastDone']) + tail;
    }
  }

  /** The final write closes the climbing writes: one more snapshot, the final one, when a job id is set. */
  lemma ClosingWrite(jobId: Option<string>, writes: seq<Snapshot>, last: seq<Snapshot>, clips: int, lastDone: int,
                     returnCode: int, wantConcat: bool)
    requires Climbing(jobId, writes, clips, lastDone)
    requires last == CounterWrite(jobId, Fields(Some("concat"), Some(if returnCode == 0 then "done" else "error"), clips, clips, None, None), Some(wantConcat))
    ensures !JobSet(jobId) ==> writes + last == []
    ensures JobSet(jobId) ==>
      var all := writes + last;
      && |all| >= 1
      && FinalWrite(all[|all| - 1], clips, returnCode, wantConcat)
      && (forall i | 0 <= i < |all| - 1 :: RunningWrite(all[i], clips))
      && (forall i, j | 0 <= i < j < |all| - 1 :: all[i].done < all[j].done)
  {
    if JobSet(jobId) {
      var all := writes + last;
      assert last[0] in last;
      assert all[..|all| - 1] == writes;
    }
  }

  /** Writes that are running, at most `lastDone` and strictly increasing; none without a job id. */
  predicate Climbing(jobId: Option<string>, writes: seq<Snapshot>, clips: int, lastDone: int) {
    && (!JobSet(jobId) ==> writes == [])
    && (JobSet(jobId) ==> forall i | 0 <= i < |writes| :: RunningWrite(writes[i], clips) && writes[i].done <= lastDone)
    && (JobSet(jobId) ==> forall i, j | 0 <= i < j < |writes| :: writes[i].done < writes[j].done)
  }

  /**
   * One line of ffmpeg's progress output: an `out_time_ms` value moves the
   * elapsed time, and a due line that covers more clips than the last write
   * writes the counter and becomes the last write.
   */
  method FollowLine(jobId: Option<string>, line: ProgressLine, effTotal: real, clips: int,
                    elapsed: real, lastDone: int, writes: seq<Snapshot>)
    returns (elapsed': real, lastDone': int, writes': seq<Snapshot>)
    requires effTotal > 0.0 && clips >= 1 && -1 <= lastDone <= clips - 1
    ensures elapsed' == NextElapsed(line, elapsed)
    ensures Writes(line, effTotal, clips, elapsed, lastDone) ==>
      lastDone' == DoneAt(elapsed', effTotal, clips) && writes' == writes + ConcatRunning(jobId, clips, lastDone')
    ensures !Writes(line, effTotal, clips, elapsed, lastDone) ==> lastDone' == lastDone && writes' == writes
    ensures -1 <= lastDone' <= clips - 1
  {
    elapsed', lastDone', writes' := elapsed, lastDone, writes;
    match line
    case OtherLine =>
    case OutTime(micros, due) =>
      if micros.Some? {
        elapsed' := micros.value / 1000000.0;
      }
      if due {
        var frac := Clamp01(elapsed' / effTotal);
        var done := (frac * clips as real).Floor;
        if done >= clips {
          done := clips - 1;
        }
        if done > lastDone {
          writes' := writes + CounterWrite(jobId, Fields(Some("concat"), Some("running"), clips, done, None, None), None);
          lastDone' := done;
        }
      }
  }
}
