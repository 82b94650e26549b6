/**
 * Choosing what to export (`events_videos_export`): the recorder's events are
 * listed page by page, oldest first, and every finished event that overlaps
 * the requested window by at least the buffer becomes a clip, cut to the
 * window. Times are seconds; the listing pages are given as inputs.
 */
module ExportWindow {
  import opened Wrappers
  import opened Text

  /** The requested window `[start, end]` and the buffer in seconds, as passed. */
  datatype Window = Window(start: int, end: int, buffer: int) {
    /** `BUF`: the buffer, never negative. */
    function Buf(): nat {
      if buffer < 0 then 0 else buffer
    }
  }

  /**
   * One listed event. `id` 0 stands for a missing or zero id; `start` and `end`
   * are `None` when the listing has no value for them.
   */
  datatype NvrEvent = NvrEvent(id: int, monitorId: int, start: Option<int>, end: Option<int>, length: Option<real>)

  /** One entry of `events_out`: the event and the part of it inside the window. */
  datatype Clip = Clip(eventId: int, monitorId: int, clipStart: int, clipEnd: int,
                       length: Option<real>, offset: int, duration: int)

  function Max(a: int, b: int): int { if a >= b then a else b }
  function Min(a: int, b: int): int { if a <= b then a else b }

  /** The clip an event contributes for the requested monitor, if any. */
  function SelectEvent(ev: NvrEvent, w: Window, monitorId: int): Option<Clip> {
    if ev.id == 0 || ev.start.None? || ev.end.None? then None
    else
      var s, e := ev.start.value, ev.end.value;
      var overlaps := s <= w.end + w.Buf() && e >= w.start - w.Buf();
      var clipStart, clipEnd := Max(s, w.start), Min(e, w.end);
      var overlapSecs := Max(0, clipEnd - clipStart);
      var duration := Max(0, clipEnd - clipStart);
      if !overlaps || overlapSecs < w.Buf() || duration <= 0 then None
      else
        Some(Clip(ev.id, if ev.monitorId != 0 then ev.monitorId else monitorId, clipStart, clipEnd,
                  ev.length, Max(0, clipStart - s), duration))
  }

  /**
   * An event is kept exactly when it has an id, a start and an end, and its
   * overlap with the unbuffered window is at least the buffer and at least one
   * second. The buffered-overlap test never decides anything on its own.
   */
  lemma SelectEventIff(ev: NvrEvent, w: Window, monitorId: int)
    ensures SelectEvent(ev, w, monitorId).Some? <==>
      ev.id != 0 && ev.start.Some? && ev.end.Some? &&
      Min(ev.end.value, w.end) - Max(ev.start.value, w.start) >= Max(w.Buf(), 1)
  {
  }

  /** A kept clip lies inside both its event and the window, and covers at least the buffer. */
  lemma SelectEventSound(ev: NvrEvent, w: Window, monitorId: int)
    requires SelectEvent(ev, w, monitorId).Some?
    ensures var c := SelectEvent(ev, w, monitorId).value;
      && ClipInWindow(c, w)
      && c.eventId == ev.id
      && ev.start.value <= c.clipStart && c.clipEnd <= ev.end.value
      && c.offset == c.clipStart - ev.start.value
      && c.offset + c.duration <= ev.end.value - ev.start.value
  {
  }

  predicate ClipInWindow(c: Clip, w: Window) {
    w.start <= c.clipStart < c.clipEnd <= w.end
    && c.duration == c.clipEnd - c.clipStart
    && c.duration >= w.Buf() && c.offset >= 0 && c.eventId != 0
  }

  /** An event running from T to T+60 and a window from T+10 to T+40, no buffer: offset 10, 30 seconds. */
  lemma SelectEventExample(t: int)
    ensures var c := SelectEvent(NvrEvent(7, 1, Some(t), Some(t + 60), None), Window(t + 10, t + 40, 0), 1);
      c.Some? && c.value.offset == 10 && c.value.duration == 30
  {
  }

  /** The clips of one page's events, in listing order. */
  function SelectAll(events: seq<NvrEvent>, w: Window, monitorId: int): (clips: seq<Clip>)
    ensures |clips| <= |events|
    ensures forall c | c in clips :: ClipInWindow(c, w)
  {
    if events == [] then []
    else
      var last := events[|events| - 1];
      var sel := SelectEvent(last, w, monitorId);
      if sel.Some? then SelectEventSound(last, w, monitorId); SelectAll(events[..|events| - 1], w, monitorId) + [sel.value]
      else SelectAll(events[..|events| - 1], w, monitorId)
  }

  /** The start of the last event with an id and a start time; `prior` if there is none. */
  function LastStart(events: seq<NvrEvent>, prior: Option<int>): Option<int> {
    if events == [] then prior
    else
      var last := events[|events| - 1];
      if last.id != 0 && last.start.Some? then last.start
      else LastStart(events[..|events| - 1], prior)
  }

  /**
   * One listing request's outcome: a failed request (an error status or an
   * exception), or a page with its events and pagination. `reportedPage` is
   * the pagination's `page` or `current` (0 when both are absent or 0);
   * `pageCount` is 0 when absent.
   */
  datatype PageResponse = Failed | Page(events: seq<NvrEvent>, reportedPage: int, pageCount: int)

  /** The response to the request for page `page` (counting from 1); beyond the inputs, a failure. */
  function ResponseFor(responses: seq<PageResponse>, page: nat): PageResponse {
    if 1 <= page <= |responses| then responses[page - 1] else Failed
  }

  /** Whether listing stops after a non-empty page. */
  predicate StopAfter(w: Window, lastStart: Option<int>, page: nat, reportedPage: int, pageCount: int) {
    var pageNow := if reportedPage != 0 then reportedPage else page;
    (lastStart.Some? && lastStart.value >= w.end + w.Buf()) || (pageCount != 0 && pageNow >= pageCount)
  }

  /** The clips collected from page `page` on and the number of pages read, `lastStart` carried between pages. */
  function CollectFrom(responses: seq<PageResponse>, w: Window, monitorId: int, page: nat, lastStart: Option<int>)
    : (r: (seq<Clip>, nat))
    requires page >= 1
    decreases |responses| + 1 - page
  {
    match ResponseFor(responses, page)
    case Failed => ([], 0)
    case Page(events, reportedPage, pageCount) =>
      if events == [] then ([], 1)
      else
        var clips := SelectAll(events, w, monitorId);
        var last := LastStart(events, lastStart);
        if StopAfter(w, last, page, reportedPage, pageCount) then (clips, 1)
        else
          var rest := CollectFrom(responses, w, monitorId, page + 1, last);
          (clips + rest.0, 1 + rest.1)
  }

  /**
   * Every collected clip lies inside the window, and no more pages are read
   * than there are responses from `page` on.
   */
  lemma {:induction false} CollectFromSound(responses: seq<PageResponse>, w: Window, monitorId: int,
                                            page: nat, lastStart: Option<int>)
    requires page >= 1
    ensures var r := CollectFrom(responses, w, monitorId, page, lastStart);
      && (forall c | c in r.0 :: ClipInWindow(c, w))
      && (r.1 <= |responses| - page + 1 || r.1 == 0)
    decreases |responses| + 1 - page
  {
    match ResponseFor(responses, page)
    case Failed =>
    case Page(events, reportedPage, pageCount) =>
      if events != [] {
        var last := LastStart(events, lastStart);
        if !StopAfter(w, last, page, reportedPage, pageCount) {
          CollectFromSound(responses, w, monitorId, page + 1, last);
        }
      }
  }

  /** The pagination loop: the clips in listing order and the number of pages read. */
  method CollectEvents(responses: seq<PageResponse>, w: Window, monitorId: int)
    returns (clips: seq<Clip>, pagesHit: nat)
    ensures (clips, pagesHit) == CollectFrom(responses, w, monitorId, 1, None)
  {
    clips := [];
    pagesHit := 0;
    var page: nat := 1;
    var lastStart: Option<int> := None;
    ghost var total := CollectFrom(responses, w, monitorId, 1, None);
    assert [] + total.0 == total.0;
    while true
      invariant page >= 1 && Pending(responses, w, monitorId, page, lastStart, clips, pagesHit, total)
      decreases |responses| + 1 - page
    {
      var stop;
      stop, clips, pagesHit, lastStart := NextPage(responses, w, monitorId, page, lastStart, clips, pagesHit, total);
      if stop {
        break;
      }
      page := page + 1;
    }
  }

  /** What is collected so far, followed by what the pages from `page` on yield, is the whole collection. */
  ghost predicate Pending(responses: seq<PageResponse>, w: Window, monitorId: int, page: nat, lastStart: Option<int>,
                          clips: seq<Clip>, pagesHit: nat, total: (seq<Clip>, nat))
    requires page >= 1
  {
    var rest := CollectFrom(responses, w, monitorId, page, lastStart);
    clips + rest.0 == total.0 && pagesHit + rest.1 == total.1
  }

  /** One turn of the pagination loop: read page `page` and add its clips. */
  method NextPage(responses: seq<PageResponse>, w: Window, monitorId: int, page: nat, lastStart: Option<int>,
                  clips: seq<Clip>, pagesHit: nat, ghost total: (seq<Clip>, nat))
    returns (stop: bool, clips': seq<Clip>, pagesHit': nat, newLast: Option<int>)
    requires page >= 1 && Pending(responses, w, monitorId, page, lastStart, clips, pagesHit, total)
    ensures stop ==> clips' == total.0 && pagesHit' == total.1
    ensures !stop ==> page <= |responses| && Pending(responses, w, monitorId, page + 1, newLast, clips', pagesHit', total)
  {
    var pageClips, hit;
    stop, pageClips, hit, newLast := FetchPage(responses, w, monitorId, page, lastStart);
    clips' := clips + pageClips;
    pagesHit' := pagesHit + hit;
    if stop {
      assert clips' + [] == clips';
    } else {
      var next := CollectFrom(responses, w, monitorId, page + 1, newLast);
      assert clips + (pageClips + next.0) == clips' + next.0;
    }
  }


  /**
   * One request of the pagination loop: the page's clips, whether it was
   * counted as a page read, the last start carried on, and whether listing
   * stops here.
   */
  method FetchPage(responses: seq<PageResponse>, w: Window, monitorId: int, page: nat, lastStart: Option<int>)
    returns (stop: bool, pageClips: seq<Clip>, hit: nat, newLast: Option<int>)
    requires page >= 1
    ensures !stop ==> page <= |responses|
    ensures stop ==> CollectFrom(responses, w, monitorId, page, lastStart) == (pageClips, hit)
    ensures !stop ==> CollectFrom(responses, w, monitorId, page, lastStart)
                      == (pageClips + CollectFrom(responses, w, monitorId, page + 1, newLast).0,
                          hit + CollectFrom(responses, w, monitorId, page + 1, newLast).1)
  {
    var response := ResponseFor(responses, page);
    newLast := lastStart;
    if response.Failed? {
      return true, [], 0, newLast;
    }
    if response.events == [] {
      return true, [], 1, newLast;
    }
    pageClips, newLast := CollectPage(response.events, w, monitorId, lastStart);
    hit := 1;
    stop := StopAfter(w, newLast, page, response.reportedPage, response.pageCount);
  }

  /** The loop over one page's events: the clips it appends and the last start seen. */
  method CollectPage(events: seq<NvrEvent>, w: Window, monitorId: int, priorLast: Option<int>)
    returns (clips: seq<Clip>, lastStart: Option<int>)
    ensures clips == SelectAll(events, w, monitorId)
    ensures lastStart == LastStart(events, priorLast)
  {
    clips := [];
    lastStart := priorLast;
    for i := 0 to |events|
      invariant clips == SelectAll(events[..i], w, monitorId)
      invariant lastStart == LastStart(events[..i], priorLast)
    {
      var ev := events[i];
      assert events[..i + 1][..i] == events[..i];
      if ev.id == 0 {
        continue;
      }
      if ev.start.None? {
        continue;
      }
      lastStart := ev.start;
      if ev.end.None? {
        continue;
      }
      var s, e := ev.start.value, ev.end.value;
      var overlaps := s <= w.end + w.Buf() && e >= w.start - w.Buf();
      if !overlaps {
        continue;
      }
      var overlapStart, overlapEnd := Max(s, w.start), Min(e, w.end);
      var overlapSecs := Max(0, overlapEnd - overlapStart);
      if overlapSecs < w.Buf() {
        continue;
      }
      var offset := Max(0, overlapStart - s);
      var duration := Max(0, overlapEnd - overlapStart);
      if duration <= 0 {
        continue;
      }
      clips := clips + [Clip(ev.id, if ev.monitorId != 0 then ev.monitorId else monitorId,
                             overlapStart, overlapEnd, ev.length, offset, duration)];
    }
    assert events[..|events|] == events;
  }

  /** `_hms` split: hours, minutes below 60 and seconds below 60 that add back up to the whole seconds. */
  function HmsParts(totalSeconds: real): (parts: (nat, nat, nat))
    ensures parts.1 < 60 && parts.2 < 60
    ensures parts.0 * 3600 + parts.1 * 60 + parts.2 == (if totalSeconds < 0.0 then 0 else totalSeconds.Floor)
  {
    var t: nat := if totalSeconds < 0.0 then 0 else totalSeconds.Floor;
    (t / 3600, t % 3600 / 60, t % 60)
  }

  /** `_hms(x)`: `HH:MM:SS` of the whole non-negative seconds, hours padded to at least two digits. */
  function Hms(totalSeconds: real): string {
    var parts := HmsParts(totalSeconds);
    Pad(parts.0, 2) + ":" + Pad(parts.1, 2) + ":" + Pad(parts.2, 2)
  }

  /** Below 100 hours the text is exactly `HH:MM:SS`, and its fields add back up to the seconds. */
  lemma HmsReadsBack(totalSeconds: real)
    requires totalSeconds < 360000.0
    ensures var s := Hms(totalSeconds);
      |s| == 8 && s[2] == ':' && s[5] == ':'
      && AllDigits(s[..2]) && AllDigits(s[3..5]) && AllDigits(s[6..])
      && DigitsValue(s[..2]) * 3600 + DigitsValue(s[3..5]) * 60 + DigitsValue(s[6..])
         == (if totalSeconds < 0.0 then 0 else totalSeconds.Floor)
  {
    var parts := HmsParts(totalSeconds);
    assert Pow10(2) == 100;
    PadValue(parts.0, 2);
    PadValue(parts.1, 2);
    PadValue(parts.2, 2);
    var s := Hms(totalSeconds);
    assert s[..2] == Pad(parts.0, 2);
    assert s[3..5] == Pad(parts.1, 2);
    assert s[6..] == Pad(parts.2, 2);
  }

  /** One event of the summary listing, `EndTime` as the text `str(...)` gives. */
  datatype SummaryEvent = SummaryEvent(id: int, startTime: Option<string>, endTime: string)

  /** Whether an `EndTime` marks a finished event: not empty, `null`, `none` or the zero date. */
  predicate EndIsSet(endTime: string) {
    var e := Lower(Strip(endTime, Whitespace));
    e != "" && e != "null" && e != "none" && e != "0000-00-00 00:00:00"
  }

  /**
   * `_pick_event`: the position of the event whose `Id`, `StartTime` and
   * `EndTime` it returns: the first finished event, else the first event, else
   * nothing.
   */
  function PickEvent(events: seq<SummaryEvent>): (r: Option<nat>)
    ensures r.Some? <==> events != []
    ensures r.Some? ==> r.value < |events| && forall j | 0 <= j < r.value :: !Finished(events[j])
    ensures r.Some? && !Finished(events[r.value]) ==>
      r.value == 0 && forall i | 0 <= i < |events| :: !Finished(events[i])
  {
    var first := FirstTrue(FinishedFlags(events));
    if first.Some? then first
    else if events != [] then Some(0)
    else None
  }

  predicate Finished(ev: SummaryEvent) {
    EndIsSet(ev.endTime)
  }

  /** Whether each event is finished, in listing order. */
  function FinishedFlags(events: seq<SummaryEvent>): (flags: seq<bool>)
    ensures |flags| == |events| && forall i | 0 <= i < |events| :: flags[i] == Finished(events[i])
  {
    seq(|events|, i requires 0 <= i < |events| => Finished(events[i]))
  }

  /** The index of the first `true`. */
  function FirstTrue(flags: seq<bool>): (r: Option<nat>)
    ensures r.Some? ==> r.value < |flags| && flags[r.value] && forall j | 0 <= j < r.value :: !flags[j]
    ensures r.None? ==> forall i | 0 <= i < |flags| :: !flags[i]
  {
    if flags == [] then None
    else if flags[0] then Some(0)
    else
      var rest := FirstTrue(flags[1..]);
      if rest.Some? then Some(rest.value + 1) else None
  }

}
