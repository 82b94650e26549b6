/**
 * Joining the downloaded clips into one file (`_concat_downloads`). The
 * ffmpeg and ffprobe results are inputs: whether ffmpeg is installed, which
 * clip files exist, each clip's duration, whether the first clip has audio,
 * ffmpeg's progress output and exit status, and the size of the output.
 */
module Concat {
  import opened Wrappers
  import opened Text
  import opened Progress

  /** The tolerance the source compares speeds with. */
  const Eps: real := 0.000001

  /**
   * `_parse_size(s)`: `W:H` or `WxH` (a lower-case `x` is read as `:`), two
   * integers both above zero; anything else is `None`.
   */
  function ParseSize(s: Option<string>): (r: Option<(int, int)>)
    ensures r.Some? ==> r.value.0 > 0 && r.value.1 > 0
    ensures s.None? || s == Some("") ==> r.None?
  {
    if s.None? || s.value == "" then None
    else
      var t := Strip(ReplaceChar(s.value, 'x', ':'), Whitespace);
      var parts := SplitOn(t, ':');
      if |parts| != 2 then None
      else
        match (PyInt(parts[0]), PyInt(parts[1]))
        case (Some(w), Some(h)) => if w > 0 && h > 0 then Some((w, h)) else None
        case _ => None
  }

  /** The text of a size written with separator `sep`, as the export form sends it. */
  function SizeText(w: nat, h: nat, sep: char): string {
    NatToString(w) + [sep] + NatToString(h)
  }

  /**
   * A size written as `W:H` or `WxH` reads back as that size when both are
   * positive, and is refused otherwise.
   */
  lemma ParseSizeOfText(w: nat, h: nat, sep: char)
    requires sep == ':' || sep == 'x'
    ensures ParseSize(Some(SizeText(w, h, sep))) == if w > 0 && h > 0 then Some((w, h)) else None
  {
    ReplaceInSizeText(w, h, sep);
    StripSizeText(w, h);
    SplitSizeText(w, h);
    ParseSizeOfParts(SizeText(w, h, sep), NatToString(w), NatToString(h), w, h);
  }

  /** A text that splits into two fields reading as `w` and `h` parses as that size when both are positive. */
  lemma ParseSizeOfParts(s: string, a: string, b: string, w: nat, h: nat)
    requires SplitOn(Strip(ReplaceChar(s, 'x', ':'), Whitespace), ':') == [a, b]
    requires a == NatToString(w) && b == NatToString(h)
    ensures ParseSize(Some(s)) == if w > 0 && h > 0 then Some((w, h)) else None
  {
    PyIntOfNatToString(w);
    PyIntOfNatToString(h);
  }

  lemma ReplaceInSizeText(w: nat, h: nat, sep: char)
    requires sep == ':' || sep == 'x'
    ensures ReplaceChar(SizeText(w, h, sep), 'x', ':') == SizeText(w, h, ':')
  {
    var a, b := NatToString(w), NatToString(h);
    var s, colon := SizeText(w, h, sep), SizeText(w, h, ':');
    forall i | 0 <= i < |s| ensures ReplaceChar(s, 'x', ':')[i] == colon[i] {
      if i < |a| {
        assert s[i] == a[i] && IsDigit(a[i]);
      } else if i > |a| {
        assert s[i] == b[i - |a| - 1] && IsDigit(b[i - |a| - 1]);
      }
    }
  }

  lemma StripSizeText(w: nat, h: nat)
    ensures Strip(SizeText(w, h, ':'), Whitespace) == SizeText(w, h, ':')
  {
    var colon := SizeText(w, h, ':');
    assert colon[0] == NatToString(w)[0];
    assert IsDigit(colon[0]) && IsDigit(colon[|colon| - 1]);
    assert colon[0] !in Whitespace && colon[|colon| - 1] !in Whitespace;
    TrimLeftNone(colon, Whitespace);
    TrimRightNone(colon, Whitespace);
  }

  lemma SplitSizeText(w: nat, h: nat)
    ensures SplitOn(SizeText(w, h, ':'), ':') == [NatToString(w), NatToString(h)]
  {
    var a, b := NatToString(w), NatToString(h);
    assert Join([a, b], ':') == SizeText(w, h, ':');
    assert ':' !in a by {
      assert forall i | 0 <= i < |a| :: IsDigit(a[i]);
    }
    assert ':' !in b by {
      assert forall i | 0 <= i < |b| :: IsDigit(b[i]);
    }
    SplitJoin([a, b], ':');
  }

  /** A size with more or fewer than one separator is refused. */
  lemma ParseSizeNeedsOneSeparator(s: string)
    requires |SplitOn(Strip(ReplaceChar(s, 'x', ':'), Whitespace), ':')| != 2
    ensures ParseSize(Some(s)) == None
  {
  }

  /** Whether the export asks for a speed change: the speed differs from 1 by more than the tolerance. */
  predicate WantSpeed(speed: real) {
    speed - 1.0 > Eps || 1.0 - speed > Eps
  }

  /** The concat mode: `copy` when no speed change, no frame rate and no valid size is asked for. */
  function ConcatMode(speed: real, fps: Option<int>, size: Option<string>): (mode: string)
    ensures mode == "copy" || mode == "reencode"
  {
    var wantFps := fps.Some? && fps.value > 0;
    if !WantSpeed(speed) && !wantFps && ParseSize(size).None? then "copy" else "reencode"
  }

  /**
   * Asking for a size changes the mode exactly when the size is valid: a
   * zero width or height is silently ignored and the clips are copied.
   */
  lemma ModeOfSize(w: nat, h: nat)
    ensures ConcatMode(1.0, None, Some(SizeText(w, h, 'x'))) == if w > 0 && h > 0 then "reencode" else "copy"
  {
    ParseSizeOfText(w, h, 'x');
  }

  /** The default settings copy; a non-positive frame rate does not force re-encoding. */
  lemma ModeDefaults(fps: int)
    ensures ConcatMode(1.0, None, None) == "copy"
    ensures fps <= 0 ==> ConcatMode(1.0, Some(fps), None) == "copy"
    ensures fps > 0 ==> ConcatMode(1.0, Some(fps), None) == "reencode"
  {
  }

  /** `concat_info["audio"]["mode"]`. */
  function AudioMode(mode: string, speed: real, hasAudio: bool): string {
    if !hasAudio then "none"
    else if mode == "copy" then "copy"
    else if WantSpeed(speed) then "reencode_atempo"
    else "copy"
  }

  /** The audio is re-encoded through `atempo` exactly when it exists and the speed changes. */
  lemma AudioModeMeaning(speed: real, fps: Option<int>, size: Option<string>, hasAudio: bool)
    ensures AudioMode(ConcatMode(speed, fps, size), speed, hasAudio) == "reencode_atempo" <==> hasAudio && WantSpeed(speed)
    ensures AudioMode(ConcatMode(speed, fps, size), speed, hasAudio) == "none" <==> !hasAudio
  {
  }

  function Product(factors: seq<real>): real {
    if factors == [] then 1.0 else Product(factors[..|factors| - 1]) * factors[|factors| - 1]
  }

  lemma ProductAppend(factors: seq<real>, x: real)
    ensures Product(factors + [x]) == Product(factors) * x
  {
    assert (factors + [x])[..|factors|] == factors;
  }

  /** Halving a number above 2 lowers its whole part. */
  lemma HalvingFloor(x: real)
    requires x > 2.0
    ensures (x / 2.0).Floor < x.Floor
  {
    var f := x.Floor;
    assert f as real <= x < f as real + 1.0;
    assert f >= 2;
    assert x / 2.0 < f as real;
  }

  /** Moving a factor from the remainder to the chain keeps their product. */
  lemma ScaleStep(p: real, x: real, s: real)
    requires x != 0.0
    ensures (p * x) * (s / x) == p * s
  {
    assert (p * x) * (s / x) == p * (x * (s / x));
    assert x * (s / x) == s;
  }

  /** Doubling a number below one half halves its reciprocal, which is above 2. */
  lemma Reciprocal(s: real)
    requires 0.0 < s < 0.5
    ensures 1.0 / s > 2.0
    ensures 1.0 / (s / 0.5) == (1.0 / s) / 2.0
  {
    assert s / 0.5 == 2.0 * s;
    assert (1.0 / s) * s == 1.0;
  }

  /**
   * The `atempo` factors for a speed: halving steps of 2.0 (above 1) or 0.5
   * (otherwise) until the remaining factor is within ffmpeg's range, then
   * that factor. Their product is the speed.
   */
  method AtempoChain(speed: real) returns (chain: seq<real>)
    requires speed > 0.0
    ensures |chain| >= 1 && Product(chain) == speed
    ensures speed > 1.0 ==> (forall i | 0 <= i < |chain| - 1 :: chain[i] == 2.0)
                            && 1.0 < chain[|chain| - 1] <= 2.0 + Eps
    ensures speed <= 1.0 ==> (forall i | 0 <= i < |chain| - 1 :: chain[i] == 0.5)
                             && 0.5 - Eps <= chain[|chain| - 1] <= 1.0
  {
    var s;
    if speed > 1.0 {
      chain, s := FastSteps(speed);
    } else {
      chain, s := SlowSteps(speed);
    }
    ProductAppend(chain, s);
    chain := chain + [s];
  }

  /** The steps of 2.0 for a speed above 1, and the factor that remains. */
  method FastSteps(speed: real) returns (chain: seq<real>, s: real)
    requires speed > 1.0
    ensures Product(chain) * s == speed && 1.0 < s <= 2.0 + Eps
    ensures forall i | 0 <= i < |chain| :: chain[i] == 2.0
  {
    s := speed;
    chain := [];
    while s > 2.0 + Eps
      invariant s > 1.0 && Product(chain) * s == speed
      invariant forall i | 0 <= i < |chain| :: chain[i] == 2.0
      decreases s.Floor
    {
      HalvingFloor(s);
      ProductAppend(chain, 2.0);
      ScaleStep(Product(chain), 2.0, s);
      chain := chain + [2.0];
      s := s / 2.0;
    }
  }

  /** The steps of 0.5 for a speed up to 1, and the factor that remains. */
  method SlowSteps(speed: real) returns (chain: seq<real>, s: real)
    requires 0.0 < speed <= 1.0
    ensures Product(chain) * s == speed && 0.5 - Eps <= s <= 1.0
    ensures forall i | 0 <= i < |chain| :: chain[i] == 0.5
  {
    s := speed;
    chain := [];
    while s < 0.5 - Eps
      invariant 0.0 < s <= 1.0 && Product(chain) * s == speed
      invariant forall i | 0 <= i < |chain| :: chain[i] == 0.5
      decreases (1.0 / s).Floor
    {
      Reciprocal(s);
      HalvingFloor(1.0 / s);
      ProductAppend(chain, 0.5);
      ScaleStep(Product(chain), 0.5, s);
      chain := chain + [0.5];
      s := s / 0.5;
    }
  }

  /** The clips listed for ffmpeg: the files of `downloadedNow` that exist, in download order. */
  function OnDisk(downloadedNow: seq<int>, present: set<int>): (listed: seq<int>)
    ensures |listed| <= |downloadedNow|
    ensures forall id | id in listed :: id in downloadedNow && id in present
  {
    if downloadedNow == [] then []
    else
      var n := |downloadedNow| - 1;
      OnDisk(downloadedNow[..n], present) + (if downloadedNow[n] in present then [downloadedNow[n]] else [])
  }

  /** A downloaded clip whose file exists is listed. */
  lemma {:induction false} OnDiskComplete(downloadedNow: seq<int>, present: set<int>, id: int)
    requires id in downloadedNow && id in present
    ensures id in OnDisk(downloadedNow, present)
  {
    var n := |downloadedNow| - 1;
    if downloadedNow[n] != id {
      assert id in downloadedNow[..n];
      OnDiskComplete(downloadedNow[..n], present, id);
    }
  }

  /** The sum of the probed durations of the listed clips; a failed probe or a zero adds nothing. */
  function TotalSeconds(listed: seq<int>, durations: map<int, real>): real {
    if listed == [] then 0.0
    else
      var n := |listed| - 1;
      var id := listed[n];
      TotalSeconds(listed[..n], durations) + (if id in durations && durations[id] != 0.0 then durations[id] else 0.0)
  }

  /** Non-negative durations add up to a non-negative total. */
  lemma {:induction false} TotalSecondsNonNegative(listed: seq<int>, durations: map<int, real>)
    requires forall id | id in durations :: durations[id] >= 0.0
    ensures TotalSeconds(listed, durations) >= 0.0
  {
    if listed != [] {
      TotalSecondsNonNegative(listed[..|listed| - 1], durations);
    }
  }

  /** The expected output duration: the input total divided by a positive speed. */
  function EffectiveTotal(totalSeconds: real, speed: real): (r: real)
    ensures speed > 0.0 ==> r * speed == totalSeconds
    ensures speed <= 0.0 ==> r == totalSeconds
  {
    if speed > 0.0 then totalSeconds / speed else totalSeconds
  }

  /** `concat_info`: the fields the model follows. */
  datatype ConcatInfo = ConcatInfo(enabled: bool, mode: Option<string>, audioPresent: Option<bool>,
                                   audioMode: Option<string>, atempo: seq<real>, listed: seq<int>)

  const NoConcat := ConcatInfo(false, None, None, None, [], [])

  /** A concat-phase write made without the `want_concat` argument. */
  function ConcatWrite(jobId: Option<string>, status: string, total: int, done: int, bytes: Option<int>,
                       mode: Option<string>): (stored: seq<Snapshot>)
    ensures |stored| == if JobSet(jobId) then 1 else 0
    ensures forall snap | snap in stored :: snap.phase == "concat" && snap.status == status
                                           && snap.total == total && snap.done == done && !snap.wantConcat
                                           && snap.mode == mode
  {
    CounterWrite(jobId, Fields(Some("concat"), Some(status), total, done, bytes, mode), None)
  }

  /**
   * The snapshots a concat run stores once its list is known: `running` with
   * no clip done, the writes of the progress loop for the expected output
   * duration `effective`, then `done` with the output size or `error`.
   */
  function ConcatRunWrites(jobId: Option<string>, listed: seq<int>, mode: string, effective: real, spawned: bool,
                           progress: seq<ProgressLine>, returnCode: int, outputBytes: nat, wantConcat: bool): seq<Snapshot>
  {
    ConcatWrite(jobId, "running", |listed|, 0, None, Some(mode))
      + ProgressLog(jobId, spawned, progress, effective, |listed|, returnCode, wantConcat)
      + (if spawned && returnCode == 0 then ConcatWrite(jobId, "done", |listed|, |listed|, Some(outputBytes), Some(mode))
         else ConcatWrite(jobId, "error", |listed|, 0, None, None))
  }

  /**
   * A concat run's first write is `running` with no clip done and its last is
   * `done` with every clip, or `error` with none; nothing is stored without a
   * job id.
   */
  lemma ConcatRunShape(jobId: Option<string>, listed: seq<int>, mode: string, effective: real, spawned: bool,
                       progress: seq<ProgressLine>, returnCode: int, outputBytes: nat, wantConcat: bool)
    ensures var writes := ConcatRunWrites(jobId, listed, mode, effective, spawned, progress, returnCode, outputBytes, wantConcat);
      && (!JobSet(jobId) ==> writes == [])
      && (JobSet(jobId) ==>
            && |writes| >= 2
            && writes[0].status == "running" && writes[0].done == 0 && writes[0].total == |listed|
            && writes[0].mode == Some(mode)
            && writes[|writes| - 1].status == (if spawned && returnCode == 0 then "done" else "error")
            && writes[|writes| - 1].done == (if spawned && returnCode == 0 then |listed| else 0)
            && writes[|writes| - 1].phase == "concat" && !writes[|writes| - 1].wantConcat)
  {
    var first := ConcatWrite(jobId, "running", |listed|, 0, None, Some(mode));
    var middle := ProgressLog(jobId, spawned, progress, effective, |listed|, returnCode, wantConcat);
    var last := if spawned && returnCode == 0 then ConcatWrite(jobId, "done", |listed|, |listed|, Some(outputBytes), Some(mode))
                else ConcatWrite(jobId, "error", |listed|, 0, None, None);
    ProgressLogWithoutJob(jobId, spawned, progress, effective, |listed|, returnCode, wantConcat);
    if JobSet(jobId) {
      assert first[0] in first && last[0] in last;
      var writes := first + middle + last;
      assert writes[0] == first[0];
      assert writes[|writes| - 1] == last[0];
    }
  }

  /**
   * `_concat_downloads`. Without downloaded clips, or without any of their
   * files, it writes `skipped`; without ffmpeg, `error`. Otherwise it chooses
   * the mode, writes `running`, runs ffmpeg following its progress, and writes
   * `error` or `done`.
   */
  method ConcatDownloads(jobId: Option<string>, downloadedNow: seq<int>, present: set<int>, hasFfmpeg: bool,
                         speed: real, fps: Option<int>, size: Option<string>, hasAudio: bool,
                         durations: map<int, real>, spawned: bool, progress: seq<ProgressLine>,
                         returnCode: int, outputBytes: nat, wantConcat: bool)
    returns (info: ConcatInfo, writes: seq<Snapshot>)
    requires hasFfmpeg && OnDisk(downloadedNow, present) != [] && hasAudio ==> speed > 0.0
    ensures downloadedNow == [] ==> info == NoConcat && writes == ConcatWrite(jobId, "skipped", 0, 0, None, None)
    ensures downloadedNow != [] && !hasFfmpeg ==>
      info == NoConcat && writes == ConcatWrite(jobId, "error", |downloadedNow|, 0, None, None)
    ensures downloadedNow != [] && hasFfmpeg && OnDisk(downloadedNow, present) == [] ==>
      info == NoConcat && writes == ConcatWrite(jobId, "skipped", 0, 0, None, None)
    ensures info.enabled <==> downloadedNow != [] && hasFfmpeg && OnDisk(downloadedNow, present) != [] && spawned && returnCode == 0
    ensures hasFfmpeg && OnDisk(downloadedNow, present) != [] ==>
      var listed := OnDisk(downloadedNow, present);
      var mode := ConcatMode(speed, fps, size);
      var effective := EffectiveTotal(TotalSeconds(listed, durations), speed);
      && writes == ConcatRunWrites(jobId, listed, mode, effective, spawned, progress, returnCode, outputBytes, wantConcat)
      && info.listed == listed
      && info.mode == Some(mode)
      && info.audioPresent == Some(hasAudio)
      && info.audioMode == Some(AudioMode(mode, speed, hasAudio))
      && (info.atempo != [] <==> hasAudio && WantSpeed(speed))
      && (info.atempo != [] ==> Product(info.atempo) == speed)
      && (JobSet(jobId) ==>
            && |writes| >= 2
            && writes[0].status == "running" && writes[0].done == 0 && writes[0].total == |listed|
            && writes[0].mode == Some(mode)
            && writes[|writes| - 1].status == (if spawned && returnCode == 0 then "done" else "error")
            && writes[|writes| - 1].done == (if spawned && returnCode == 0 then |listed| else 0)
            && writes[|writes| - 1].phase == "concat" && !writes[|writes| - 1].wantConcat)
    ensures !JobSet(jobId) ==> writes == []
  {
    if downloadedNow == [] {
      return NoConcat, ConcatWrite(jobId, "skipped", 0, 0, None, None);
    }
    if !hasFfmpeg {
      return NoConcat, ConcatWrite(jobId, "error", |downloadedNow|, 0, None, None);
    }
    var listed := ListOnDisk(downloadedNow, present);
    if listed == [] {
      return NoConcat, ConcatWrite(jobId, "skipped", 0, 0, None, None);
    }
    var mode := ConcatMode(speed, fps, size);
    var totalSeconds := SumDurations(listed, durations);
    info, writes := RunConcat(jobId, listed, mode, speed, hasAudio, EffectiveTotal(totalSeconds, speed),
                              spawned, progress, returnCode, outputBytes, wantConcat);
  }

  /** The loop building the concat list. */
  method ListOnDisk(downloadedNow: seq<int>, present: set<int>) returns (listed: seq<int>)
    ensures listed == OnDisk(downloadedNow, present)
  {
    listed := [];
    for k := 0 to |downloadedNow|
      invariant listed == OnDisk(downloadedNow[..k], present)
    {
      assert downloadedNow[..k + 1][..k] == downloadedNow[..k];
      if downloadedNow[k] in present {
        listed := listed + [downloadedNow[k]];
      }
    }
    assert downloadedNow[..|downloadedNow|] == downloadedNow;
  }

  /** The loop adding up the probed durations. */
  method SumDurations(listed: seq<int>, durations: map<int, real>) returns (totalSeconds: real)
    ensures totalSeconds == TotalSeconds(listed, durations)
  {
    totalSeconds := 0.0;
    for k := 0 to |listed|
      invariant totalSeconds == TotalSeconds(listed[..k], durations)
    {
      assert listed[..k + 1][..k] == listed[..k];
      var id := listed[k];
      if id in durations && durations[id] != 0.0 {
        totalSeconds := totalSeconds + durations[id];
      }
    }
    assert listed[..|listed|] == listed;
  }

  /**
   * The concat run proper, once the list is known: the `running` write, the
   * audio settings, ffmpeg with its progress writes, then `error` or `done`.
   */
  method RunConcat(jobId: Option<string>, listed: seq<int>, mode: string, speed: real, hasAudio: bool,
                   effective: real, spawned: bool, progress: seq<ProgressLine>, returnCode: int, outputBytes: nat,
                   wantConcat: bool)
    returns (info: ConcatInfo, writes: seq<Snapshot>)
    requires mode == "copy" || mode == "reencode"
    requires mode == "copy" ==> !WantSpeed(speed)
    requires hasAudio ==> speed > 0.0
    ensures info.enabled <==> spawned && returnCode == 0
    ensures writes == ConcatRunWrites(jobId, listed, mode, effective, spawned, progress, returnCode, outputBytes, wantConcat)
    ensures && info.listed == listed
            && info.mode == Some(mode)
            && info.audioPresent == Some(hasAudio)
            && info.audioMode == Some(AudioMode(mode, speed, hasAudio))
            && (info.atempo != [] <==> hasAudio && WantSpeed(speed))
            && (info.atempo != [] ==> Product(info.atempo) == speed)
    ensures JobSet(jobId) ==>
            && |writes| >= 2
            && writes[0].status == "running" && writes[0].done == 0 && writes[0].total == |listed|
            && writes[0].mode == Some(mode)
            && writes[|writes| - 1].status == (if spawned && returnCode == 0 then "done" else "error")
            && writes[|writes| - 1].done == (if spawned && returnCode == 0 then |listed| else 0)
            && writes[|writes| - 1].phase == "concat" && !writes[|writes| - 1].wantConcat
    ensures !JobSet(jobId) ==> writes == []
  {
    info := ConcatSettings(listed, mode, speed, hasAudio);
    var ok;
    ok, writes := ConcatLog(jobId, listed, mode, effective, spawned, progress, returnCode, outputBytes, wantConcat);
    ConcatRunShape(jobId, listed, mode, effective, spawned, progress, returnCode, outputBytes, wantConcat);
    if ok {
      info := info.(enabled := true);
    }
  }

  /** The settings `concat_info` records before ffmpeg runs: the list, the mode and the audio handling. */
  method ConcatSettings(listed: seq<int>, mode: string, speed: real, hasAudio: bool) returns (info: ConcatInfo)
    requires mode == "copy" || mode == "reencode"
    requires mode == "copy" ==> !WantSpeed(speed)
    requires hasAudio ==> speed > 0.0
    ensures && !info.enabled
            && info.listed == listed
            && info.mode == Some(mode)
            && info.audioPresent == Some(hasAudio)
            && info.audioMode == Some(AudioMode(mode, speed, hasAudio))
            && (info.atempo != [] <==> hasAudio && WantSpeed(speed))
            && (info.atempo != [] ==> Product(info.atempo) == speed)
  {
    var chain := [];
    if mode == "reencode" && WantSpeed(speed) && hasAudio {
      chain := AtempoChain(speed);
    }
    info := ConcatInfo(false, Some(mode), Some(hasAudio), Some(AudioMode(mode, speed, hasAudio)), chain, listed);
  }

  /** The writes of the concat run: `running`, ffmpeg with its progress writes, then `error` or `done`. */
  method ConcatLog(jobId: Option<string>, listed: seq<int>, mode: string, effective: real, spawned: bool,
                   progress: seq<ProgressLine>, returnCode: int, outputBytes: nat, wantConcat: bool)
    returns (ok: bool, writes: seq<Snapshot>)
    ensures ok <==> spawned && returnCode == 0
    ensures writes == ConcatRunWrites(jobId, listed, mode, effective, spawned, progress, returnCode, outputBytes, wantConcat)
  {
    writes := ConcatWrite(jobId, "running", |listed|, 0, None, Some(mode));
    var progressWrites;
    ok, progressWrites := RunWithProgress(jobId, spawned, progress, effective, |listed|, returnCode, wantConcat);
    writes := writes + progressWrites;
    var last;
    if !ok {
      last := ConcatWrite(jobId, "error", |listed|, 0, None, None);
    } else {
      last := ConcatWrite(jobId, "done", |listed|, |listed|, Some(outputBytes), Some(mode));
    }
    writes := writes + last;
  }
}
