/**
 * Downloading the selected clips and trimming the ends (`_download_and_trim`).
 * Each clip's HTTP request is given as a `Fetch`: the request raised before a
 * response arrived, or a response with its status and the lengths of the chunks
 * it streamed, and whether the transfer and the rename of the temporary file
 * completed. The counter writes are the snapshots `_counter_write` stores; the
 * trim is the list of ffmpeg cuts that would be run.
 */
module Download {
  import opened Wrappers
  import opened Progress
  import opened ExportWindow

  datatype Fetch =
    | GetRaised
    | Response(status: int, chunks: seq<nat>, completes: bool)

  /** The `stats` dictionary. `skipped_existing` is never incremented. */
  datatype Stats = Stats(attempted: nat, downloaded: nat, skippedExisting: nat, failed: nat, bytes: nat,
                         downloadedNow: seq<int>)

  const NoStats := Stats(0, 0, 0, 0, 0, [])

  /** Whether the request got as far as a response: that is when `attempted` is counted. */
  predicate Reached(f: Fetch) {
    f.Response?
  }

  /** Whether the clip was saved: a 200 response whose transfer completed. */
  predicate Saved(f: Fetch) {
    f.Response? && f.status == 200 && f.completes
  }

  function Sum(chunks: seq<nat>): nat {
    if chunks == [] then 0 else Sum(chunks[..|chunks| - 1]) + chunks[|chunks| - 1]
  }

  /** The bytes a fetch adds to the counter: every chunk of a 200 response, whether or not it completes. */
  function Received(f: Fetch): nat {
    if f.Response? && f.status == 200 then Sum(f.chunks) else 0
  }

  function AttemptedCount(fetches: seq<Fetch>): nat {
    if fetches == [] then 0
    else AttemptedCount(fetches[..|fetches| - 1]) + (if Reached(fetches[|fetches| - 1]) then 1 else 0)
  }

  function ReceivedTotal(fetches: seq<Fetch>): nat {
    if fetches == [] then 0 else ReceivedTotal(fetches[..|fetches| - 1]) + Received(fetches[|fetches| - 1])
  }

  /** The event ids of the clips listed, in order. */
  function Ids(clips: seq<Clip>): (ids: seq<int>)
    ensures |ids| == |clips|
    ensures forall i | 0 <= i < |clips| :: ids[i] == clips[i].eventId
  {
    if clips == [] then [] else Ids(clips[..|clips| - 1]) + [clips[|clips| - 1].eventId]
  }

  /** The ids of the clips whose fetch saved them, in listing order. */
  function SavedIds(clips: seq<Clip>, fetches: seq<Fetch>): seq<int>
    requires |fetches| == |clips|
  {
    if clips == [] then []
    else
      var n := |clips| - 1;
      SavedIds(clips[..n], fetches[..n]) + (if Saved(fetches[n]) then [clips[n].eventId] else [])
  }

  /** `sub` is `s` with some elements left out, the rest in their order. */
  predicate IsSubsequence(sub: seq<int>, s: seq<int>)
    decreases |s|
  {
    if sub == [] then true
    else if s == [] then false
    else if sub[|sub| - 1] == s[|s| - 1] then IsSubsequence(sub[..|sub| - 1], s[..|s| - 1])
    else IsSubsequence(sub, s[..|s| - 1])
  }

  /** Whatever is a subsequence of the front of `s` is a subsequence of `s`. */
  lemma {:induction false} SubsequenceWeaken(sub: seq<int>, s: seq<int>)
    requires s != [] && IsSubsequence(sub, s[..|s| - 1])
    ensures IsSubsequence(sub, s)
    decreases |s|, 0
  {
    if sub != [] && sub[|sub| - 1] == s[|s| - 1] {
      SubsequenceDrop(sub, s[..|s| - 1]);
    }
  }

  lemma {:induction false} SubsequenceDrop(sub: seq<int>, s: seq<int>)
    requires sub != [] && IsSubsequence(sub, s)
    ensures IsSubsequence(sub[..|sub| - 1], s)
    decreases |s|, 1
  {
    var init := sub[..|sub| - 1];
    if sub[|sub| - 1] != s[|s| - 1] {
      SubsequenceDrop(sub, s[..|s| - 1]);
    }
    if init != [] {
      SubsequenceWeaken(init, s);
    }
  }

  /** `downloaded_now` lists clips of `events_out`, in their order. */
  lemma {:induction false} SavedIdsSubsequence(clips: seq<Clip>, fetches: seq<Fetch>)
    requires |fetches| == |clips|
    ensures IsSubsequence(SavedIds(clips, fetches), Ids(clips))
  {
    if clips != [] {
      var n := |clips| - 1;
      SavedIdsSubsequence(clips[..n], fetches[..n]);
      var before := SavedIds(clips[..n], fetches[..n]);
      assert Ids(clips)[..n] == Ids(clips[..n]);
      if Saved(fetches[n]) {
        assert (before + [clips[n].eventId])[..|before|] == before;
      } else {
        assert before + [] == before;
        SubsequenceWeaken(before, Ids(clips));
      }
    }
  }

  lemma {:induction false} SubsequenceMembers(sub: seq<int>, s: seq<int>)
    requires IsSubsequence(sub, s)
    ensures forall x | x in sub :: x in s
    decreases |s|
  {
    if sub != [] && s != [] {
      if sub[|sub| - 1] == s[|s| - 1] {
        SubsequenceMembers(sub[..|sub| - 1], s[..|s| - 1]);
        assert sub == sub[..|sub| - 1] + [sub[|sub| - 1]];
      } else {
        SubsequenceMembers(sub, s[..|s| - 1]);
      }
      assert s == s[..|s| - 1] + [s[|s| - 1]];
    }
  }

  /** No more clips are saved than requests were answered, and none more than listed. */
  lemma {:induction false} SavedWithinAttempted(clips: seq<Clip>, fetches: seq<Fetch>)
    requires |fetches| == |clips|
    ensures |SavedIds(clips, fetches)| <= AttemptedCount(fetches) <= |clips|
  {
    if clips != [] {
      var n := |clips| - 1;
      SavedWithinAttempted(clips[..n], fetches[..n]);
    }
  }

  /** A download-phase write, as `_download_and_trim` makes them. */
  function DownloadWrite(jobId: Option<string>, status: string, total: int, done: int, bytes: int, wantConcat: bool)
    : (stored: seq<Snapshot>)
    ensures forall snap | snap in stored :: snap.phase == "download" && snap.total == total
                                           && snap.done == done && snap.bytes == Some(bytes)
  {
    CounterWrite(jobId, Fields(Some("download"), Some(status), total, done, Some(bytes), None), Some(wantConcat))
  }

  function BytesOf(snap: Snapshot): int {
    snap.bytes.GetOr(0)
  }

  /** Download writes for `total` clips, none past `done` clips and `bytes` bytes. */
  predicate WritesUpTo(writes: seq<Snapshot>, total: int, done: int, bytes: int) {
    forall i | 0 <= i < |writes| ::
      writes[i].phase == "download" && writes[i].total == total && writes[i].done <= done && BytesOf(writes[i]) <= bytes
  }

  /** Neither the clips done nor the bytes ever go down from one write to the next. */
  predicate Monotone(writes: seq<Snapshot>) {
    forall i, j | 0 <= i < j < |writes| :: writes[i].done <= writes[j].done && BytesOf(writes[i]) <= BytesOf(writes[j])
  }

  /** The counter log after one more download write, with no fewer clips done or bytes than any before it. */
  lemma AppendWrite(writes: seq<Snapshot>, jobId: Option<string>, status: string, total: int, done: int, bytes: int,
                    wantConcat: bool)
    requires Monotone(writes) && WritesUpTo(writes, total, done, bytes)
    ensures var log := writes + DownloadWrite(jobId, status, total, done, bytes, wantConcat);
      && Monotone(log) && WritesUpTo(log, total, done, bytes)
      && (JobSet(jobId) ==> |log| == |writes| + 1 && log[|writes|].status == status
                            && log[|writes|].done == done && log[|writes|].bytes == Some(bytes))
      && (!JobSet(jobId) ==> log == writes)
  {
    var w := DownloadWrite(jobId, status, total, done, bytes, wantConcat);
    var log := writes + w;
    assert |w| == |CounterWrite(jobId, Fields(Some("download"), Some(status), total, done, Some(bytes), None), Some(wantConcat))|;
    if JobSet(jobId) {
      assert w[0] in w;
      assert log[|writes|] == w[0];
      assert w == [w[0]];
      assert w[0].status == status;
    } else {
      assert log == writes;
    }
  }

  /** The stats dictionary after `n` more failures. */
  function Failed(stats: Stats, n: nat): Stats {
    stats.(failed := stats.failed + n)
  }

  /** One download-phase counter write appended to the log, which stays monotone and bounded by the new counts. */
  method LogWrite(writes: seq<Snapshot>, jobId: Option<string>, status: string, total: int, done: int, bytes: int,
                  wantConcat: bool)
    returns (log: seq<Snapshot>)
    requires Monotone(writes) && WritesUpTo(writes, total, done, bytes)
    ensures Monotone(log) && WritesUpTo(log, total, done, bytes)
    ensures |log| >= |writes| && (writes != [] ==> log[0] == writes[0])
    ensures !JobSet(jobId) ==> log == writes
  {
    AppendWrite(writes, jobId, status, total, done, bytes, wantConcat);
    log := writes + DownloadWrite(jobId, status, total, done, bytes, wantConcat);
  }

  /**
   * The chunk loop of a 200 response: each non-empty chunk adds its length to
   * the bytes and makes a `downloading` write.
   */
  method StreamChunks(jobId: Option<string>, chunks: seq<nat>, total: int, stats: Stats, writes: seq<Snapshot>,
                      wantConcat: bool)
    returns (after: Stats, log: seq<Snapshot>)
    requires Monotone(writes) && WritesUpTo(writes, total, stats.downloaded, stats.bytes)
    ensures after == stats.(bytes := stats.bytes + Sum(chunks))
    ensures Monotone(log) && WritesUpTo(log, total, after.downloaded, after.bytes)
    ensures |log| >= |writes| && (writes != [] ==> log[0] == writes[0])
    ensures !JobSet(jobId) ==> log == writes
  {
    after := stats;
    log := writes;
    for k := 0 to |chunks|
      invariant after == stats.(bytes := stats.bytes + Sum(chunks[..k]))
      invariant Monotone(log) && WritesUpTo(log, total, after.downloaded, after.bytes)
      invariant |log| >= |writes| && (writes != [] ==> log[0] == writes[0])
      invariant !JobSet(jobId) ==> log == writes
    {
      assert chunks[..k + 1][..k] == chunks[..k];
      if chunks[k] == 0 {
        continue;
      }
      after := after.(bytes := after.bytes + chunks[k]);
      log := LogWrite(log, jobId, "downloading", total, after.downloaded, after.bytes, wantConcat);
    }
    assert chunks[..|chunks|] == chunks;
  }

  /**
   * One iteration of the download loop: the clip's request and its writes.
   * Exactly one of `downloaded` and `failed` goes up; `attempted` goes up when
   * a response arrived; the bytes of a 200 response are counted as they stream.
   */
  method FetchClip(jobId: Option<string>, clip: Clip, fetch: Fetch, total: int, stats: Stats, writes: seq<Snapshot>,
                   wantConcat: bool)
    returns (after: Stats, log: seq<Snapshot>)
    requires Monotone(writes) && WritesUpTo(writes, total, stats.downloaded, stats.bytes)
    ensures after.attempted == stats.attempted + (if Reached(fetch) then 1 else 0)
    ensures after.downloadedNow == stats.downloadedNow + (if Saved(fetch) then [clip.eventId] else [])
    ensures after.downloaded == stats.downloaded + (if Saved(fetch) then 1 else 0)
    ensures after.failed == stats.failed + (if Saved(fetch) then 0 else 1)
    ensures after.bytes == stats.bytes + Received(fetch)
    ensures after.skippedExisting == stats.skippedExisting
    ensures Monotone(log) && WritesUpTo(log, total, after.downloaded, after.bytes)
    ensures |log| >= |writes| && (writes != [] ==> log[0] == writes[0])
    ensures !JobSet(jobId) ==> log == writes
  {
    log := LogWrite(writes, jobId, "downloading", total, stats.downloaded, stats.bytes, wantConcat);
    match fetch
    case GetRaised =>
      after := Failed(stats, 1);
      log := LogWrite(log, jobId, "error", total, after.downloaded, after.bytes, wantConcat);
    case Response(status, chunks, completes) =>
      after := stats.(attempted := stats.attempted + 1);
      if status != 200 {
        after := Failed(after, 1);
        log := LogWrite(log, jobId, "error", total, after.downloaded, after.bytes, wantConcat);
      } else {
        after, log := StreamChunks(jobId, chunks, total, after, log, wantConcat);
        if completes {
          after := after.(downloadedNow := after.downloadedNow + [clip.eventId], downloaded := after.downloaded + 1);
          log := LogWrite(log, jobId, "file_done", total, after.downloaded, after.bytes, wantConcat);
        } else {
          after := Failed(after, 1);
          log := LogWrite(log, jobId, "error", total, after.downloaded, after.bytes, wantConcat);
        }
      }
  }

  /** The stats after the fetches of `clips`: every count is that of the fetches' outcomes. */
  predicate Counted(stats: Stats, clips: seq<Clip>, fetches: seq<Fetch>) {
    && |fetches| == |clips|
    && stats.attempted == AttemptedCount(fetches)
    && stats.downloadedNow == SavedIds(clips, fetches)
    && stats.downloaded == |stats.downloadedNow|
    && stats.downloaded + stats.failed == |clips|
    && stats.bytes == ReceivedTotal(fetches)
    && stats.skippedExisting == 0
  }

  /** One more fetch, counted as `FetchClip` counts it, keeps the stats those of all fetches so far. */
  lemma CountedStep(stats: Stats, after: Stats, clips: seq<Clip>, fetches: seq<Fetch>, i: int)
    requires |fetches| == |clips| && 0 <= i < |clips|
    requires Counted(stats, clips[..i], fetches[..i])
    requires var clip, fetch := clips[i], fetches[i];
      && after.attempted == stats.attempted + (if Reached(fetch) then 1 else 0)
      && after.downloadedNow == stats.downloadedNow + (if Saved(fetch) then [clip.eventId] else [])
      && after.downloaded == stats.downloaded + (if Saved(fetch) then 1 else 0)
      && after.failed == stats.failed + (if Saved(fetch) then 0 else 1)
      && after.bytes == stats.bytes + Received(fetch)
      && after.skippedExisting == stats.skippedExisting
    ensures Counted(after, clips[..i + 1], fetches[..i + 1])
  {
    var cs, fs := clips[..i + 1], fetches[..i + 1];
    assert cs[..i] == clips[..i] && fs[..i] == fetches[..i];
    assert cs[i] == clips[i] && fs[i] == fetches[i];
  }

  /** The `starting` write made before the first clip: nothing done, no bytes yet. */
  method StartWrite(jobId: Option<string>, total: int, wantConcat: bool) returns (writes: seq<Snapshot>)
    ensures Monotone(writes) && WritesUpTo(writes, total, 0, 0)
    ensures JobSet(jobId) ==> writes != [] && writes[0].status == "starting" && writes[0].done == 0
    ensures !JobSet(jobId) ==> writes == []
  {
    AppendWrite([], jobId, "starting", total, 0, 0, wantConcat);
    writes := [] + DownloadWrite(jobId, "starting", total, 0, 0, wantConcat);
  }


  /** One turn of the download loop: fetch clip `i` and count it with the clips before it. */
  method FetchNext(jobId: Option<string>, clips: seq<Clip>, fetches: seq<Fetch>, i: int, total: int, stats: Stats,
                   writes: seq<Snapshot>, wantConcat: bool)
    returns (after: Stats, log: seq<Snapshot>)
    requires |fetches| == |clips| && 0 <= i < |clips|
    requires Counted(stats, clips[..i], fetches[..i])
    requires Monotone(writes) && WritesUpTo(writes, total, stats.downloaded, stats.bytes)
    ensures Counted(after, clips[..i + 1], fetches[..i + 1])
    ensures Monotone(log) && WritesUpTo(log, total, after.downloaded, after.bytes)
    ensures |log| >= |writes| && (writes != [] ==> log[0] == writes[0])
    ensures !JobSet(jobId) ==> log == writes
  {
    after, log := FetchClip(jobId, clips[i], fetches[i], total, stats, writes, wantConcat);
    CountedStep(stats, after, clips, fetches, i);
  }

  /**
   * The download loop over `events_out`, one fetch per clip, after the
   * `starting` write: the counts are those of the fetches' outcomes, and the
   * writes never report fewer clips done or fewer bytes than an earlier one.
   */
  method DownloadClips(jobId: Option<string>, clips: seq<Clip>, fetches: seq<Fetch>, wantConcat: bool)
    returns (stats: Stats, writes: seq<Snapshot>)
    requires |fetches| == |clips|
    ensures Counted(stats, clips, fetches)
    ensures Monotone(writes) && WritesUpTo(writes, |clips|, stats.downloaded, stats.bytes)
    ensures JobSet(jobId) ==> writes != [] && writes[0].status == "starting" && writes[0].done == 0
    ensures !JobSet(jobId) ==> writes == []
  {
    var total := |clips|;
    stats := NoStats;
    writes := StartWrite(jobId, total, wantConcat);
    for i := 0 to |clips|
      invariant Counted(stats, clips[..i], fetches[..i])
      invariant Monotone(writes) && WritesUpTo(writes, total, stats.downloaded, stats.bytes)
      invariant JobSet(jobId) ==> writes != [] && writes[0].status == "starting" && writes[0].done == 0
      invariant !JobSet(jobId) ==> writes == []
    {
      stats, writes := FetchNext(jobId, clips, fetches, i, total, stats, writes, wantConcat);
    }
    TakeAll(clips);
    TakeAll(fetches);
  }

  /**
   * One ffmpeg cut with stream copy: skip to `start` seconds, then keep
   * `keep` seconds, or the rest of the clip when `None`.
   */
  datatype Cut = Cut(eventId: int, start: real, keep: Option<real>)

  /** The first position of a clip of event `id`. */
  function FirstIndex(clips: seq<Clip>, id: int): (i: nat)
    requires id in Ids(clips)
    ensures i < |clips| && clips[i].eventId == id
    ensures forall j | 0 <= j < i :: clips[j].eventId != id
  {
    if clips[0].eventId == id then 0
    else
      assert Ids(clips)[1..] == Ids(clips[1..]);
      1 + FirstIndex(clips[1..], id)
  }

  /** The last position of a clip of event `id`. */
  function LastIndex(clips: seq<Clip>, id: int): (i: nat)
    requires id in Ids(clips)
    ensures i < |clips| && clips[i].eventId == id
    ensures forall j | i < j < |clips| :: clips[j].eventId != id
  {
    var n := |clips| - 1;
    if clips[n].eventId == id then n
    else
      assert Ids(clips)[..n] == Ids(clips[..n]);
      LastIndex(clips[..n], id)
  }

  /** `_to_secs(e.get("Length"), 0.0)`: a missing length reads as 0. */
  function LengthOf(c: Clip): real {
    c.length.GetOr(0.0)
  }

  /**
   * The cuts of the trim step. Only files downloaded in this run are cut: the
   * first one from its offset, the last one to its duration. When both are the
   * same event, one cut does both; otherwise the head is cut when its offset
   * exceeds 0.01 seconds and the tail when more than 0.25 seconds would go and
   * more than 0.01 seconds remain. The details of the first and last clip are
   * taken from the first and the last entry of `events_out` with those ids.
   */
  function PlanTrim(clips: seq<Clip>, downloadedNow: seq<int>, trim: bool, hasFfmpeg: bool): (cuts: seq<Cut>)
    requires forall id | id in downloadedNow :: id in Ids(clips)
    ensures !trim || !hasFfmpeg || downloadedNow == [] ==> cuts == []
    ensures |cuts| <= 2
    ensures forall c | c in cuts :: c.eventId == downloadedNow[0] || c.eventId == downloadedNow[|downloadedNow| - 1]
  {
    if !trim || downloadedNow == [] || !hasFfmpeg then []
    else
      var firstId, lastId := downloadedNow[0], downloadedNow[|downloadedNow| - 1];
      var firstClip := clips[FirstIndex(clips, firstId)];
      var lastClip := clips[LastIndex(clips, lastId)];
      var firstOff, firstDur := firstClip.offset as real, firstClip.duration as real;
      var lastLen, lastDur := LengthOf(lastClip), lastClip.duration as real;
      if firstId == lastId then [Cut(firstId, firstOff, Some(firstDur))]
      else
        (if firstOff > 0.01 then [Cut(firstId, firstOff, None)] else [])
        + (if lastLen - lastDur > 0.25 && lastDur > 0.01 then [Cut(lastId, 0.0, Some(lastDur))] else [])
  }

  /** With a single clip downloaded, it is cut once, from its offset for its duration. */
  lemma PlanTrimSingle(clips: seq<Clip>, id: int)
    requires id in Ids(clips)
    ensures var c := clips[FirstIndex(clips, id)];
      PlanTrim(clips, [id], true, true) == [Cut(id, c.offset as real, Some(c.duration as real))]
  {
  }

  /**
   * With two different first and last events, the head cut starts at the
   * first clip's offset and keeps the rest; the tail cut keeps the last clip's
   * duration from its start; each is made exactly when its threshold is passed.
   */
  lemma PlanTrimEnds(clips: seq<Clip>, downloadedNow: seq<int>)
    requires forall id | id in downloadedNow :: id in Ids(clips)
    requires downloadedNow != [] && downloadedNow[0] != downloadedNow[|downloadedNow| - 1]
    ensures var cuts := PlanTrim(clips, downloadedNow, true, true);
      var first := clips[FirstIndex(clips, downloadedNow[0])];
      var last := clips[LastIndex(clips, downloadedNow[|downloadedNow| - 1])];
      && (Cut(first.eventId, first.offset as real, None) in cuts <==> first.offset as real > 0.01)
      && (Cut(last.eventId, 0.0, Some(last.duration as real)) in cuts
          <==> LengthOf(last) - last.duration as real > 0.25 && last.duration as real > 0.01)
      && (forall c | c in cuts :: c == Cut(first.eventId, first.offset as real, None)
                                 || c == Cut(last.eventId, 0.0, Some(last.duration as real)))
  {
  }

  /**
   * `_download_and_trim`: nothing at all without `download` or without clips;
   * otherwise the download loop, the trim plan for the files downloaded in
   * this run, and a closing `done` write.
   */
  method DownloadAndTrim(jobId: Option<string>, clips: seq<Clip>, fetches: seq<Fetch>, download: bool, trim: bool,
                         hasFfmpeg: bool, wantConcat: bool)
    returns (stats: Stats, writes: seq<Snapshot>, cuts: seq<Cut>)
    requires |fetches| == |clips|
    ensures !download || clips == [] ==> stats == NoStats && writes == [] && cuts == []
    ensures download && clips != [] ==>
      && Counted(stats, clips, fetches)
      && stats.attempted <= |clips|
      && IsSubsequence(stats.downloadedNow, Ids(clips))
      && (forall id | id in stats.downloadedNow :: id in Ids(clips))
      && cuts == PlanTrim(clips, stats.downloadedNow, trim, hasFfmpeg)
      && Monotone(writes) && WritesUpTo(writes, |clips|, stats.downloaded, stats.bytes)
      && (JobSet(jobId) ==> |writes| >= 2 && writes[0].status == "starting"
                            && writes[|writes| - 1].status == "done"
                            && writes[|writes| - 1].done == stats.downloaded
                            && writes[|writes| - 1].bytes == Some(stats.bytes))
    ensures !JobSet(jobId) ==> writes == []
  {
    if !download || clips == [] {
      return NoStats, [], [];
    }
    stats, writes := DownloadClips(jobId, clips, fetches, wantConcat);
    SavedIdsSubsequence(clips, fetches);
    SubsequenceMembers(stats.downloadedNow, Ids(clips));
    SavedWithinAttempted(clips, fetches);
    cuts := PlanTrim(clips, stats.downloadedNow, trim, hasFfmpeg);
    AppendWrite(writes, jobId, "done", |clips|, stats.downloaded, stats.bytes, wantConcat);
    writes := writes + DownloadWrite(jobId, "done", |clips|, stats.downloaded, stats.bytes, wantConcat);
  }
}
