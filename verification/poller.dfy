/**
 * The event poller (`loop_monitor`). Every cycle it lists the events of the
 * last minutes for the configured cameras, hands each finished event that is
 * not yet processed to the downloader unless its camera exceeds the rate
 * limit, keeps unfinished events pending, re-checks pending events one by one,
 * and finally rewrites the processed-ID store.
 *
 * The state the loop updates in place is the `Poller` class: the processed
 * IDs and the pending events (insertion-ordered dictionaries, as Python's
 * `dict`), the per-camera sliding windows, the event the listing loop last
 * bound to `ev`, the download requests made, and the store file's text.
 * Answers of the server are parameters: the listing pages, the re-fetched
 * events and the store file.
 */
module Poller {
  import opened Wrappers
  import opened Text
  import opened Clock
  import opened OrderedDict
  import opened LogRetention

  /* ---------- Camera list (`parse_monitors`) ---------- */

  /** The number a part of the camera list stands for, when it is a digit string once stripped. */
  function PartId(p: string): (ids: seq<nat>)
    ensures |ids| <= 1
  {
    var q := StripSpace(p);
    if IsDigitString(q) then [DigitsValue(q)] else []
  }

  lemma PartIdOfDecimal(n: nat)
    ensures PartId(NatToString(n)) == [n]
  {
    StripDigits(NatToString(n));
    StripSpaceIsStrip(NatToString(n));
  }

  function MonitorIds(parts: seq<string>): (ids: seq<nat>)
    ensures |ids| <= |parts|
  {
    if parts == [] then [] else PartId(parts[0]) + MonitorIds(parts[1..])
  }

  function ParseMonitors(camIds: string): seq<nat> {
    MonitorIds(SplitOn(camIds, ','))
  }

  function Decimals(ids: seq<nat>): (parts: seq<string>)
    ensures |parts| == |ids|
    ensures forall i | 0 <= i < |ids| :: parts[i] == NatToString(ids[i])
  {
    seq(|ids|, i requires 0 <= i < |ids| => NatToString(ids[i]))
  }

  lemma {:induction false} MonitorIdsOfDecimals(ids: seq<nat>)
    ensures MonitorIds(Decimals(ids)) == ids
  {
    if ids != [] {
      var parts := Decimals(ids);
      PartIdOfDecimal(ids[0]);
      assert parts[1..] == Decimals(ids[1..]);
      MonitorIdsOfDecimals(ids[1..]);
    }
  }

  /** A camera list written as `"1,2,3"` is read back as the same numbers. */
  lemma ParseMonitorsOfList(ids: seq<nat>)
    ensures ParseMonitors(Join(Decimals(ids), ',')) == ids
  {
    var parts := Decimals(ids);
    if ids == [] {
      assert SplitOn("", ',') == [""];
      assert PartId("") == [];
    } else {
      forall i | 0 <= i < |parts| ensures ',' !in parts[i] {
        assert IsDigitString(parts[i]);
        forall j | 0 <= j < |parts[i]| ensures parts[i][j] != ',' {
          assert IsDigit(parts[i][j]);
        }
      }
      SplitJoin(parts, ',');
      MonitorIdsOfDecimals(ids);
    }
  }

  /* ---------- Listing (`get_events_in_range_by_start`) ---------- */

  /** An event record as the listing keeps it; every field is the server's text. */
  datatype Event = Event(id: string, startTime: string, startDateTime: Option<string>,
                         endDateTime: Option<string>, monitorId: string)

  /** The answer to one page request: a failure (status, JSON or transport) or the page's events. */
  datatype EventPage = PageFailed | Page(events: seq<Event>)

  const PageLimit := 100

  /** `int(e["MonitorId"]) in allowed_monitors` */
  predicate Admitted(e: Event, allowed: seq<nat>) {
    var m := PyInt(e.monitorId);
    m.Some? && m.value in allowed
  }

  /**
   * The events of one page whose camera is allowed; `raised` when `int()` of a
   * camera number failed, which ends the listing with what was kept so far.
   */
  function FilterPage(evs: seq<Event>, allowed: seq<nat>): (r: (seq<Event>, bool))
    ensures |r.0| <= |evs|
  {
    if evs == [] then ([], false)
    else match PyInt(evs[0].monitorId)
      case None => ([], true)
      case Some(m) =>
        var rest := FilterPage(evs[1..], allowed);
        ((if m in allowed then [evs[0]] else []) + rest.0, rest.1)
  }

  /** Every kept event comes from the page and has an allowed camera. */
  lemma {:induction false} FilterPageAdmits(evs: seq<Event>, allowed: seq<nat>, e: Event)
    requires e in FilterPage(evs, allowed).0
    ensures e in evs && Admitted(e, allowed)
  {
    var m := PyInt(evs[0].monitorId);
    var rest := FilterPage(evs[1..], allowed);
    if e in rest.0 {
      FilterPageAdmits(evs[1..], allowed, e);
    }
  }

  /**
   * The listing from page `page` on, requesting pages until one fails, raises
   * or holds fewer than `PageLimit` events. `pages[p - 1]` answers page `p`; a
   * request beyond them fails.
   */
  function ListingFrom(pages: seq<EventPage>, allowed: seq<nat>, page: nat): seq<Event>
    requires page >= 1
    decreases |pages| + 1 - page
  {
    if page > |pages| || pages[page - 1].PageFailed? then []
    else
      var r := FilterPage(pages[page - 1].events, allowed);
      if r.1 || |pages[page - 1].events| < PageLimit then r.0
      else r.0 + ListingFrom(pages, allowed, page + 1)
  }

  /** Only events of allowed cameras are listed. */
  lemma {:induction false} ListingOnlyAllowed(pages: seq<EventPage>, allowed: seq<nat>, page: nat, e: Event)
    requires page >= 1 && e in ListingFrom(pages, allowed, page)
    ensures Admitted(e, allowed)
    decreases |pages| + 1 - page
  {
    var r := FilterPage(pages[page - 1].events, allowed);
    if e in r.0 {
      FilterPageAdmits(pages[page - 1].events, allowed, e);
    } else {
      ListingOnlyAllowed(pages, allowed, page + 1, e);
    }
  }

  /** A short page is the last one requested: the answers after it are never read. */
  lemma {:induction false} ListingStopsAtShortPage(pages: seq<EventPage>, allowed: seq<nat>, page: nat, last: nat)
    requires 1 <= page <= last <= |pages|
    requires pages[last - 1].Page? && |pages[last - 1].events| < PageLimit
    ensures ListingFrom(pages, allowed, page) == ListingFrom(pages[..last], allowed, page)
    decreases last - page
  {
    assert pages[..last][page - 1] == pages[page - 1];
    if page < last {
      ListingStopsAtShortPage(pages, allowed, page + 1, last);
    }
  }

  method FilterEvents(evs: seq<Event>, allowed: seq<nat>) returns (kept: seq<Event>, raised: bool)
    ensures (kept, raised) == FilterPage(evs, allowed)
  {
    kept, raised := [], false;
    var i := 0;
    assert evs[0..] == evs;
    assert [] + FilterPage(evs, allowed).0 == FilterPage(evs, allowed).0;
    while i < |evs|
      invariant 0 <= i <= |evs|
      invariant FilterPage(evs, allowed).0 == kept + FilterPage(evs[i..], allowed).0
      invariant FilterPage(evs, allowed).1 == FilterPage(evs[i..], allowed).1
    {
      var stop;
      stop, kept := FilterNext(evs, allowed, i, kept);
      if stop {
        assert kept + [] == kept;
        raised := true;
        return;
      }
      i := i + 1;
    }
    assert evs[i..] == [];
    assert kept + [] == kept;
  }

  /** One turn of the filtering loop: event `i` ends the page when its camera number is not an integer. */
  method FilterNext(evs: seq<Event>, allowed: seq<nat>, i: nat, kept: seq<Event>) returns (stop: bool, kept': seq<Event>)
    requires i < |evs|
    ensures stop ==> kept' == kept && FilterPage(evs[i..], allowed) == ([], true)
    ensures !stop ==> kept' + FilterPage(evs[i + 1..], allowed).0 == kept + FilterPage(evs[i..], allowed).0
                      && FilterPage(evs[i + 1..], allowed).1 == FilterPage(evs[i..], allowed).1
  {
    var m := PyInt(evs[i].monitorId);
    FilterPageStep(evs, allowed, i, kept);
    kept' := kept;
    stop := m.None?;
    if !stop && m.value in allowed {
      kept' := kept + [evs[i]];
    }
  }

  /** Filtering from position `i` on looks at event `i`, then at the rest. */
  lemma FilterPageStep(evs: seq<Event>, allowed: seq<nat>, i: nat, kept: seq<Event>)
    requires i < |evs|
    ensures var rest := FilterPage(evs[i + 1..], allowed);
      match PyInt(evs[i].monitorId)
      case None => FilterPage(evs[i..], allowed) == ([], true)
      case Some(m) =>
        var here := if m in allowed then [evs[i]] else [];
        && FilterPage(evs[i..], allowed) == (here + rest.0, rest.1)
        && kept + FilterPage(evs[i..], allowed).0 == (kept + here) + rest.0
  {
    assert evs[i..][0] == evs[i];
    assert evs[i..][1..] == evs[i + 1..];
  }

  /** `get_events_in_range_by_start`: the configured cameras' events, page after page. */
  method ListEvents(pages: seq<EventPage>, camIds: string) returns (events: seq<Event>)
    ensures events == ListingFrom(pages, ParseMonitors(camIds), 1)
  {
    var allowed := ParseMonitors(camIds);
    events := [];
    var page: nat := 1;
    while true
      invariant page >= 1
      invariant ListingFrom(pages, allowed, 1) == events + ListingFrom(pages, allowed, page)
      decreases |pages| + 1 - page
    {
      if page > |pages| || pages[page - 1].PageFailed? {
        assert events + [] == events;
        return;
      }
      var kept, raised := FilterEvents(pages[page - 1].events, allowed);
      events := events + kept;
      if raised || |pages[page - 1].events| < PageLimit {
        return;
      }
      page := page + 1;
    }
  }

  /* ---------- Rate limiting ---------- */

  /** `r` is `w` with some entries taken out and the rest left in their order. */
  predicate IsSubsequence(r: seq<int>, w: seq<int>)
    decreases |w|
  {
    if r == [] then true
    else if w == [] then false
    else (r[0] == w[0] && IsSubsequence(r[1..], w[1..])) || IsSubsequence(r, w[1..])
  }

  /** The entries of a camera's window at or after `lo`, in order. */
  function Pruned(w: seq<int>, lo: int): (r: seq<int>)
    ensures |r| <= |w|
    ensures forall x :: x in r <==> x in w && x >= lo
    ensures forall x :: multiset(r)[x] == if x >= lo then multiset(w)[x] else 0
    ensures IsSubsequence(r, w)
  {
    if w == [] then []
    else
      assert w == [w[0]] + w[1..];
      var rest := Pruned(w[1..], lo);
      if w[0] >= lo then
        assert ([w[0]] + rest)[1..] == rest;
        [w[0]] + rest
      else
        rest
  }

  /** The window after an event at `t`: older entries than `t - span` dropped, `t` appended. */
  function Slide(w: seq<int>, t: int, span: int): (r: seq<int>)
    ensures |r| >= 1 && r[|r| - 1] == t
    ensures forall x :: x in r <==> (x in w && x >= t - span) || x == t
  {
    Pruned(w, t - span) + [t]
  }

  /** The window after a run of events, in the order the loop meets them. */
  function Feed(w: seq<int>, ts: seq<int>, span: int): seq<int>
    decreases |ts|
  {
    if ts == [] then w else Feed(Slide(w, ts[0], span), ts[1..], span)
  }

  lemma {:induction false} PrunedAllNewer(w: seq<int>, lo: int)
    requires forall x | x in w :: x >= lo
    ensures Pruned(w, lo) == w
  {
    if w != [] {
      assert w[0] in w && forall x | x in w[1..] :: x in w;
      PrunedAllNewer(w[1..], lo);
      assert w == [w[0]] + w[1..];
    }
  }

  lemma {:induction false} PrunedAllOlder(w: seq<int>, lo: int)
    requires forall x | x in w :: x < lo
    ensures Pruned(w, lo) == []
  {
    if w != [] {
      assert w[0] in w && forall x | x in w[1..] :: x in w;
      PrunedAllOlder(w[1..], lo);
    }
  }

  /**
   * The listing is newest first, so within one listing the window never
   * drops anything: every closed event of a camera counts, however far apart
   * the events are.
   */
  lemma {:induction false} NewestFirstNeverPrunes(w: seq<int>, ts: seq<int>, span: int)
    requires span >= 0
    requires forall i, j | 0 <= i < j < |ts| :: ts[i] >= ts[j]
    requires ts != [] ==> forall x | x in w :: x >= ts[0]
    ensures Feed(w, ts, span) == w + ts
    decreases |ts|
  {
    if ts != [] {
      PrunedAllNewer(w, ts[0] - span);
      var w' := Slide(w, ts[0], span);
      assert w' == w + [ts[0]];
      if |ts| > 1 {
        assert ts[1..][0] == ts[1];
        forall x | x in w' ensures x >= ts[1] {
          if x != ts[0] {
            assert x >= ts[0];
          }
        }
      }
      NewestFirstNeverPrunes(w', ts[1..], span);
      assert w' + ts[1..] == w + ts;
    }
  }

  /**
   * Events met oldest first and further apart than the window each start a
   * fresh window: such a camera is never rate-limited.
   */
  lemma {:induction false} SpacedOldestFirstStaysSingle(w: seq<int>, ts: seq<int>, span: int)
    requires ts != []
    requires forall x | x in w :: x < ts[0] - span
    requires forall i | 0 <= i < |ts| - 1 :: ts[i + 1] - ts[i] > span
    ensures Feed(w, ts, span) == [ts[|ts| - 1]]
    decreases |ts|
  {
    var w' := Slide(w, ts[0], span);
    PrunedAllOlder(w, ts[0] - span);
    assert w' == [ts[0]];
    if |ts| > 1 {
      assert ts[1..][0] == ts[1];
      SpacedOldestFirstStaysSingle(w', ts[1..], span);
    }
  }

  /** With a threshold `limit`, the event after `limit` closed ones of one listing is suppressed. */
  lemma BurstInOneListing(ts: seq<int>, span: int, limit: nat)
    requires span >= 0 && |ts| > limit
    requires forall i, j | 0 <= i < j < |ts| :: ts[i] >= ts[j]
    ensures |Feed([], ts[..limit + 1], span)| > limit
  {
    NewestFirstNeverPrunes([], ts[..limit + 1], span);
    assert [] + ts[..limit + 1] == ts[..limit + 1];
  }

  /* ---------- Processed-ID store ---------- */

  /** `PROCESSED_RETENTION_HOURS`, in seconds. */
  const ProcessedRetention := 3600

  /** One line of the store: the event ID and its stamp. */
  function StoreLine(eid: string, ts: string): string {
    eid + " " + ts + "\n"
  }

  function StoreLines(keys: seq<string>, values: map<string, string>): (lines: seq<string>)
    requires forall k | k in keys :: k in values
    ensures |lines| == |keys|
    ensures forall i | 0 <= i < |keys| :: lines[i] == StoreLine(keys[i], values[keys[i]])
  {
    seq(|keys|, i requires 0 <= i < |keys| => StoreLine(keys[i], values[keys[i]]))
  }

  /**
   * A line the poller writes has three words, the stamp itself holding a
   * space, so it never has the two words the loader asks for.
   */
  lemma StoreLineHasThreeWords(eid: string, t: int)
    requires |eid| > 0 && NoSpace(eid) && 1 <= YearOf(t) <= 9999
    ensures var s := FormatStamp(t); Words(StoreLine(eid, s)) == [eid, s[..10], s[11..]]
  {
    ParseFormatStamp(t);
    StampShape(FormatStamp(t));
    SpacedStampWords(eid, FormatStamp(t));
  }

  lemma SpacedStampWords(eid: string, s: string)
    requires |eid| > 0 && NoSpace(eid)
    requires |s| == 19 && s[10] == ' ' && NoSpace(s[..10]) && NoSpace(s[11..])
    ensures Words(StoreLine(eid, s)) == [eid, s[..10], s[11..]]
  {
    var parts := [eid, s[..10], s[11..]];
    assert s == s[..10] + " " + s[11..];
    assert parts[1..] == [s[..10], s[11..]] && parts[1..][1..] == [s[11..]];
    assert Join(parts[1..], ' ') == s[..10] + [' '] + s[11..];
    assert Join(parts, ' ') == eid + [' '] + (s[..10] + [' '] + s[11..]);
    assert StoreLine(eid, s) == Join(parts, ' ') + "\n";
    WordsOfLine(parts);
  }

  /**
   * `load_processed_ids`: a missing store gives no IDs; otherwise a line is
   * taken when it has exactly two words and the second parses as a stamp not
   * older than the retention. A stamp holds a space, so no line the poller
   * writes has two words, and no second word ever parses: the loaded set is
   * always empty.
   */
  method LoadProcessedIds(file: Option<string>, now: int) returns (ids: ODict<string, string>)
    ensures ids.keys == [] && ids.values == map[]
  {
    ids := Empty();
    if file.None? {
      return;
    }
    var cutoff := now - ProcessedRetention;
    var lines := ReadLines(file.value);
    for i := 0 to |lines|
      invariant ids.keys == [] && ids.values == map[]
    {
      var parts := Words(lines[i]);
      if |parts| == 2 {
        var eid, ts := parts[0], parts[1];
        ParseStampNeedsSpace(ts);
        match ParseStamp(ts) {
          case Some(dt) =>
            if dt >= cutoff {
              ids := ids.Put(eid, ts);
            }
          case None =>
        }
      }
    }
  }

  /** A download request: `download_event_video(eid, cam)`. */
  datatype Download = Download(eventId: string, monitorId: string) {
    /** The file the video is saved as. */
    function FileName(): string {
      monitorId + "-" + eventId + ".mp4"
    }
  }

  /** A present, non-empty text: the test `if ev["EndDateTime"]`. */
  predicate Truthy(s: Option<string>) {
    s.Some? && s.value != ""
  }

  /** `strptime` of a start stamp; `None` for a missing one (the `TypeError`) or a malformed one. */
  function EventTime(s: Option<string>): Option<int> {
    if s.None? then None else ParseStamp(s.value)
  }

  /** The start time of the event `ev` was last bound to; `None` when unbound or unparseable. */
  function LastTime(last: Option<Event>): Option<int> {
    if last.None? then None else EventTime(last.value.startDateTime)
  }

  /** The answer of `get_event_by_id`; a missing entry is a `None` answer. */
  datatype Refetch = Refetch(endDateTime: Option<string>, monitorId: string)

  /** A pending event that stays pending after its re-check: not processed, answered, still open. */
  predicate Stays(k: string, done: map<string, string>, refetch: map<string, Refetch>) {
    k !in done && k in refetch && !Truthy(refetch[k].endDateTime)
  }

  /** A pending event the re-check finds finished. */
  predicate Closes(k: string, done: map<string, string>, refetch: map<string, Refetch>) {
    k !in done && k in refetch && Truthy(refetch[k].endDateTime)
  }

  /** The pending events, among `keys`, that stay pending, in order. */
  function StillOpen(keys: seq<string>, done: map<string, string>, refetch: map<string, Refetch>): (r: seq<string>)
    ensures forall k | k in r :: k in keys && Stays(k, done, refetch)
  {
    if keys == [] then []
    else
      var k := keys[|keys| - 1];
      StillOpen(keys[..|keys| - 1], done, refetch) + (if Stays(k, done, refetch) then [k] else [])
  }

  /** Every entry of `before` is still in `after`, with the same value. */
  predicate Grows(before: map<string, string>, after: map<string, string>) {
    forall k | k in before :: k in after && after[k] == before[k]
  }

  /** In a list without repeats, an element occurs neither before nor after its own place. */
  lemma DistinctAt(keys: seq<string>, i: int)
    requires Distinct(keys) && 0 <= i < |keys|
    ensures keys[i] !in keys[..i] && keys[i] !in keys[i + 1..]
  {
    forall j | 0 <= j < i ensures keys[..i][j] != keys[i] {
      assert keys[..i][j] == keys[j];
    }
    var rest := keys[i + 1..];
    forall j | 0 <= j < |rest| ensures rest[j] != keys[i] {
      assert rest[j] == keys[i + 1 + j];
    }
  }

  /** The pending keys after re-checking `keys[..i]`: the ones that stayed, then the ones not reached. */
  ghost predicate KeysAt(keys: seq<string>, i: int, done: map<string, string>, refetch: map<string, Refetch>,
                         pk: seq<string>)
    requires 0 <= i <= |keys|
  {
    pk == StillOpen(keys[..i], done, refetch) + keys[i..]
  }

  /** Every event among `keys[..i]` found finished carries the stamp `stamp`. */
  ghost predicate StampedUpTo(keys: seq<string>, i: int, done: map<string, string>, refetch: map<string, Refetch>,
                              stamp: Option<string>, p: map<string, string>)
    requires 0 <= i <= |keys|
  {
    forall j | 0 <= j < i && Closes(keys[j], done, refetch) ::
      stamp.Some? && keys[j] in p && p[keys[j]] == stamp.value
  }

  /** The stamp `strftime` gives a start time, when there is one. */
  function StampOfStart(start: Option<int>): Option<string> {
    if start.None? then None else Some(FormatStamp(start.value))
  }

  /** The processed IDs are the ones at the start of the pass and some of `keys[..i]`. */
  ghost predicate AddedFrom(keys: seq<string>, i: int, done: map<string, string>, refetch: map<string, Refetch>,
                            p: map<string, string>)
    requires 0 <= i <= |keys|
  {
    Grows(done, p) && forall k | k in p :: k in done || (k in keys[..i] && Closes(k, done, refetch))
  }

  lemma KeysStep(keys: seq<string>, i: int, done: map<string, string>, refetch: map<string, Refetch>,
                 pk: seq<string>, pk': seq<string>)
    requires Distinct(keys) && 0 <= i < |keys| && KeysAt(keys, i, done, refetch, pk)
    requires Stays(keys[i], done, refetch) ==> pk' == pk
    requires !Stays(keys[i], done, refetch) ==> pk' == Without(pk, keys[i])
    ensures KeysAt(keys, i + 1, done, refetch, pk')
  {
    var eid := keys[i];
    DistinctAt(keys, i);
    var prefix := StillOpen(keys[..i], done, refetch);
    assert keys[..i + 1][..i] == keys[..i];
    assert keys[i..] == [eid] + keys[i + 1..];
    assert pk == prefix + [eid] + keys[i + 1..];
    if !Stays(eid, done, refetch) {
      WithoutSplit(prefix, eid, keys[i + 1..]);
    }
  }

  lemma ProcessedStep(keys: seq<string>, i: int, done: map<string, string>, refetch: map<string, Refetch>,
                      stamp: Option<string>, p: map<string, string>, p': map<string, string>)
    requires Distinct(keys) && 0 <= i < |keys|
    requires StampedUpTo(keys, i, done, refetch, stamp, p) && AddedFrom(keys, i, done, refetch, p)
    requires Closes(keys[i], done, refetch) ==> stamp.Some? && p' == p[keys[i] := stamp.value]
    requires !Closes(keys[i], done, refetch) ==> p' == p
    ensures StampedUpTo(keys, i + 1, done, refetch, stamp, p') && AddedFrom(keys, i + 1, done, refetch, p')
  {
    DistinctAt(keys, i);
    if Closes(keys[i], done, refetch) {
      StampedStep(keys, i, done, refetch, stamp.value, p);
      AddedStep(keys, i, done, refetch, p, stamp.value);
    } else {
      assert keys[..i + 1] == keys[..i] + [keys[i]];
      assert forall k | k in keys[..i] :: k in keys[..i + 1];
    }
  }

  lemma StampedStep(keys: seq<string>, i: int, done: map<string, string>, refetch: map<string, Refetch>,
                    v: string, p: map<string, string>)
    requires Distinct(keys) && 0 <= i < |keys|
    requires StampedUpTo(keys, i, done, refetch, Some(v), p)
    ensures StampedUpTo(keys, i + 1, done, refetch, Some(v), p[keys[i] := v])
  {
    var p' := p[keys[i] := v];
    forall j | 0 <= j < i + 1 && Closes(keys[j], done, refetch)
      ensures keys[j] in p' && p'[keys[j]] == v
    {
      if j < i {
        assert keys[j] in p && keys[j] != keys[i];
      }
    }
  }

  lemma AddedStep(keys: seq<string>, i: int, done: map<string, string>, refetch: map<string, Refetch>,
                  p: map<string, string>, v: string)
    requires Distinct(keys) && 0 <= i < |keys|
    requires AddedFrom(keys, i, done, refetch, p) && Closes(keys[i], done, refetch)
    ensures AddedFrom(keys, i + 1, done, refetch, p[keys[i] := v])
  {
    assert keys[..i + 1] == keys[..i] + [keys[i]];
    assert forall k | k in keys[..i] :: k in keys[..i + 1];
  }

  /** Before its re-check, a key of the pass is processed exactly when it was at the start. */
  lemma NotYetAdded(keys: seq<string>, i: int, done: map<string, string>, refetch: map<string, Refetch>,
                    p: map<string, string>)
    requires Distinct(keys) && 0 <= i < |keys| && AddedFrom(keys, i, done, refetch, p)
    ensures keys[i] in p <==> keys[i] in done
  {
    DistinctAt(keys, i);
  }

  /** The IDs added so far come from the keys of the pass. */
  lemma AddedWithin(keys: seq<string>, i: int, done: map<string, string>, refetch: map<string, Refetch>,
                    p: map<string, string>)
    requires 0 <= i <= |keys| && AddedFrom(keys, i, done, refetch, p)
    ensures forall k | k in p :: k in done || (k in keys && Closes(k, done, refetch))
  {
    assert forall k | k in keys[..i] :: k in keys;
  }

  /** At the end of the pass: the keys still pending are the ones that stayed, and none is processed. */
  lemma PassComplete(keys: seq<string>, done: map<string, string>, refetch: map<string, Refetch>,
                     pk: seq<string>, p: map<string, string>)
    requires KeysAt(keys, |keys|, done, refetch, pk) && AddedFrom(keys, |keys|, done, refetch, p)
    ensures pk == StillOpen(keys, done, refetch)
    ensures forall k | k in pk :: k !in p
  {
    assert keys[..|keys|] == keys;
    assert keys[|keys|..] == [];
    assert pk == StillOpen(keys, done, refetch) + [];
  }

  /** Every event of `events[..i]` is processed or pending, and every finished one processed. */
  ghost predicate ListedUpTo(events: seq<Event>, i: int, p: map<string, string>, q: map<string, Event>)
    requires 0 <= i <= |events|
  {
    && (forall j | 0 <= j < i :: events[j].id in p || events[j].id in q)
    && (forall j | 0 <= j < i && Truthy(events[j].endDateTime) :: events[j].id in p)
  }

  /** Handling `events[i]` extends the listed prefix by one, as long as no processed or pending ID is lost. */
  lemma ListedStep(events: seq<Event>, i: int, p: map<string, string>, q: map<string, Event>,
                   p': map<string, string>, q': map<string, Event>)
    requires 0 <= i < |events| && ListedUpTo(events, i, p, q)
    requires Grows(p, p') && forall k | k in q :: k in q' || k in p'
    requires events[i].id in p' || events[i].id in q'
    requires Truthy(events[i].endDateTime) ==> events[i].id in p'
    ensures ListedUpTo(events, i + 1, p', q')
  {
    forall j | 0 <= j < i + 1 ensures events[j].id in p' || events[j].id in q' {
      if j < i && events[j].id in q {
        assert events[j].id in q' || events[j].id in p';
      }
    }
  }

  /** The whole listing handled, stated over its events. */
  lemma ListedAll(events: seq<Event>, p: map<string, string>, q: map<string, Event>)
    requires ListedUpTo(events, |events|, p, q)
    ensures forall e | e in events :: e.id in p || e.id in q
    ensures forall e | e in events && Truthy(e.endDateTime) :: e.id in p
  {
    forall e | e in events ensures e.id in p || e.id in q {
      var j :| 0 <= j < |events| && events[j] == e;
    }
    forall e | e in events && Truthy(e.endDateTime) ensures e.id in p {
      var j :| 0 <= j < |events| && events[j] == e;
    }
  }

  /* ---------- The polling loop ---------- */

  /** The window of a camera; `file_timestamps` is a `defaultdict(list)`. */
  function WindowOf(windows: map<string, seq<int>>, cam: string): seq<int> {
    if cam in windows then windows[cam] else []
  }

  class Poller {
    /** `processed_ids`: event ID to the stamp of its start. */
    var processed: ODict<string, string>
    /** `pending_events`: open events waiting to finish. */
    var pending: ODict<string, Event>
    /** `file_timestamps`: per camera, the start times inside the rate-limit window. */
    var windows: map<string, seq<int>>
    /** The event the listing loop variable `ev` is bound to (it outlives its loop). */
    var lastListed: Option<Event>
    /** The `download_event_video` calls made, in order. */
    var downloads: seq<Download>
    /** The processed-ID store file; `None` when it does not exist. */
    var store: Option<string>
    /** `THRESHOLD`: the most events a camera may have in its window and still be downloaded. */
    const threshold: int
    /** `TIME_WINDOW`, in seconds. */
    const timeWindow: int

    /** Each event is downloaded at most once, and only after it was marked processed. */
    ghost predicate Valid()
      reads this
    {
      processed.Valid() && pending.Valid()
      && (forall i | 0 <= i < |downloads| :: downloads[i].eventId in processed.values)
      && (forall i, j | 0 <= i < j < |downloads| :: downloads[i].eventId != downloads[j].eventId)
    }

    /** The start of `loop_monitor`: the store is loaded, nothing is pending. */
    constructor(storeFile: Option<string>, now: int, threshold: int, timeWindow: int)
      ensures Valid()
      ensures processed.keys == [] && processed.values == map[]
      ensures pending.keys == [] && pending.values == map[]
      ensures windows == map[] && lastListed == None && downloads == [] && store == storeFile
      ensures this.threshold == threshold && this.timeWindow == timeWindow
    {
      var loaded := LoadProcessedIds(storeFile, now);
      processed := loaded;
      pending := Empty();
      windows := map[];
      lastListed := None;
      downloads := [];
      store := storeFile;
      this.threshold := threshold;
      this.timeWindow := timeWindow;
    }

    /**
     * A finished event enters its camera's window and is marked processed
     * with `stamp`, its start as `strftime` prints it; `over` when the window then holds more than `threshold` events.
     */
    method Admit(eid: string, cam: string, t: int, stamp: string) returns (over: bool)
      requires Valid() && eid !in processed.values
      modifies this
      ensures Valid()
      ensures processed == old(processed).Put(eid, stamp)
      ensures windows == old(windows)[cam := Slide(WindowOf(old(windows), cam), t, timeWindow)]
      ensures over <==> |windows[cam]| > threshold
      ensures pending == old(pending) && downloads == old(downloads)
      ensures lastListed == old(lastListed) && store == old(store)
    {
      windows := windows[cam := Slide(WindowOf(windows, cam), t, timeWindow)];
      processed := processed.Put(eid, stamp);
      over := |windows[cam]| > threshold;
    }

    /** The event leaves the pending events and its video is requested. */
    method Fetch(eid: string, cam: string)
      requires Valid() && eid in processed.values
      requires forall i | 0 <= i < |downloads| :: downloads[i].eventId != eid
      modifies this
      ensures Valid()
      ensures pending == old(pending).Remove(eid)
      ensures downloads == old(downloads) + [Download(eid, cam)]
      ensures processed == old(processed) && windows == old(windows)
      ensures lastListed == old(lastListed) && store == old(store)
    {
      pending := pending.Remove(eid);
      downloads := downloads + [Download(eid, cam)];
    }

    /**
     * One event of the listing. A processed event is skipped; an open one is
     * (re)recorded as pending; a finished one is admitted and, within the rate
     * limit, downloaded. `aborted` when its start does not parse, which raises
     * out of the cycle.
     */
    method HandleListed(ev: Event) returns (aborted: bool)
      requires Valid()
      modifies this
      ensures Valid()
      ensures lastListed == old(lastListed) && store == old(store)
      ensures old(ev.id in processed.values) ==>
        !aborted && processed == old(processed) && pending == old(pending)
        && windows == old(windows) && downloads == old(downloads)
      ensures old(ev.id !in processed.values) && !Truthy(ev.endDateTime) ==>
        !aborted && pending == old(pending).Put(ev.id, ev) && processed == old(processed)
        && windows == old(windows) && downloads == old(downloads)
      ensures old(ev.id !in processed.values) && Truthy(ev.endDateTime) && EventTime(ev.startDateTime).None? ==>
        aborted && processed == old(processed) && pending == old(pending)
        && windows == old(windows) && downloads == old(downloads)
      ensures old(ev.id !in processed.values) && Truthy(ev.endDateTime) && EventTime(ev.startDateTime).Some? ==>
        var t := EventTime(ev.startDateTime).value;
        var w := Slide(WindowOf(old(windows), ev.monitorId), t, timeWindow);
        !aborted && processed == old(processed).Put(ev.id, FormatStamp(t))
        && windows == old(windows)[ev.monitorId := w]
        && (|w| > threshold ==> pending == old(pending) && downloads == old(downloads))
        && (|w| <= threshold ==>
              pending == old(pending).Remove(ev.id) && downloads == old(downloads) + [Download(ev.id, ev.monitorId)])
    {
      aborted := false;
      if ev.id in processed.values {
        return;
      }
      if !Truthy(ev.endDateTime) {
        pending := pending.Put(ev.id, ev);
        return;
      }
      var t := EventTime(ev.startDateTime);
      if t.None? {
        aborted := true;
        return;
      }
      var over := Admit(ev.id, ev.monitorId, t.value, FormatStamp(t.value));
      if !over {
        Fetch(ev.id, ev.monitorId);
      }
    }

    /**
     * The listing pass. On success every listed event is processed or
     * pending, every finished one processed, and `ev` is left bound to the
     * last event of the listing.
     */
    method ListingPass(events: seq<Event>) returns (aborted: bool)
      requires Valid()
      modifies this
      ensures Valid() && store == old(store)
      ensures Grows(old(processed.values), processed.values)
      ensures old(downloads) <= downloads
      ensures events == [] ==> !aborted && lastListed == old(lastListed)
      ensures !aborted && events != [] ==> lastListed == Some(events[|events| - 1])
      ensures !aborted ==> forall e | e in events :: e.id in processed.values || e.id in pending.values
      ensures !aborted ==> forall e | e in events && Truthy(e.endDateTime) :: e.id in processed.values
    {
      aborted := false;
      var i := 0;
      while i < |events| && !aborted
        invariant 0 <= i <= |events|
        invariant Valid() && store == old(store)
        invariant Grows(old(processed.values), processed.values)
        invariant old(downloads) <= downloads
        invariant !aborted && i == 0 ==> lastListed == old(lastListed)
        invariant !aborted && i > 0 ==> lastListed == Some(events[i - 1])
        invariant ListedUpTo(events, i, processed.values, pending.values)
        invariant aborted ==> i < |events|
        decreases |events| - i, if aborted then 0 else 1
      {
        ghost var p, q := processed.values, pending.values;
        aborted := ListNext(events[i]);
        if !aborted {
          ListedStep(events, i, p, q, processed.values, pending.values);
          i := i + 1;
        }
      }
      if !aborted {
        ListedAll(events, processed.values, pending.values);
      }
    }

    /** One turn of the listing loop: `ev` is bound to the event, which is then handled. */
    method ListNext(ev: Event) returns (aborted: bool)
      requires Valid()
      modifies this
      ensures Valid() && store == old(store) && lastListed == Some(ev)
      ensures Grows(old(processed.values), processed.values) && old(downloads) <= downloads
      ensures forall k | k in old(pending.values) :: k in pending.values || k in processed.values
      ensures !aborted ==> ev.id in processed.values || ev.id in pending.values
      ensures !aborted && Truthy(ev.endDateTime) ==> ev.id in processed.values
    {
      lastListed := Some(ev);
      aborted := HandleListed(ev);
    }

    /**
     * The re-check of one pending event. A processed one is dropped; one the
     * server no longer answers for is dropped; one still open stays; a
     * finished one is admitted with the start time of the event `ev` is bound
     * to (not its own), dropped, and downloaded within the rate limit.
     * `start` is that start time as `strptime` reads it (`LastTime`);
     * `aborted` when it is missing: `ev` unbound or unparseable.
     */
    method Recheck(eid: string, refetch: map<string, Refetch>, start: Option<int>) returns (aborted: bool)
      requires Valid() && eid in pending.values
      modifies this
      ensures Valid()
      ensures lastListed == old(lastListed) && store == old(store) && old(downloads) <= downloads
      ensures aborted || Stays(eid, old(processed.values), refetch) ==> pending == old(pending)
      ensures !aborted && !Stays(eid, old(processed.values), refetch) ==> pending == old(pending).Remove(eid)
      ensures !aborted && Closes(eid, old(processed.values), refetch) ==>
        start.Some? && processed.values == old(processed.values)[eid := FormatStamp(start.value)]
      ensures aborted || !Closes(eid, old(processed.values), refetch) ==> processed == old(processed)
      ensures old(eid in processed.values) || eid !in refetch ==>
        !aborted && pending == old(pending).Remove(eid) && processed == old(processed)
        && windows == old(windows) && downloads == old(downloads)
      ensures old(eid !in processed.values) && eid in refetch && !Truthy(refetch[eid].endDateTime) ==>
        !aborted && pending == old(pending) && processed == old(processed)
        && windows == old(windows) && downloads == old(downloads)
      ensures Closes(eid, old(processed.values), refetch) && start.None? ==>
        aborted && pending == old(pending) && processed == old(processed)
        && windows == old(windows) && downloads == old(downloads)
      ensures Closes(eid, old(processed.values), refetch) && start.Some? ==>
        var t := start.value;
        var cam := refetch[eid].monitorId;
        var w := Slide(WindowOf(old(windows), cam), t, timeWindow);
        !aborted && processed == old(processed).Put(eid, FormatStamp(t))
        && pending == old(pending).Remove(eid)
        && windows == old(windows)[cam := w]
        && downloads == old(downloads) + (if |w| > threshold then [] else [Download(eid, cam)])
    {
      aborted := false;
      if eid in processed.values || eid !in refetch {
        Drop(eid);
        return;
      }
      var updated := refetch[eid];
      if !Truthy(updated.endDateTime) {
        return;
      }
      if start.None? {
        aborted := true;
        return;
      }
      Close(eid, updated.monitorId, start.value, FormatStamp(start.value));
    }

    /** The event leaves the pending events; nothing else changes. */
    method Drop(eid: string)
      requires Valid()
      modifies this
      ensures Valid()
      ensures pending == old(pending).Remove(eid)
      ensures processed == old(processed) && windows == old(windows) && downloads == old(downloads)
      ensures lastListed == old(lastListed) && store == old(store)
    {
      pending := pending.Remove(eid);
    }

    /** A pending event found finished at `t`, printed as `stamp`: admitted, dropped from the pending events, downloaded within the rate limit. */
    method Close(eid: string, cam: string, t: int, stamp: string)
      requires Valid() && eid !in processed.values
      modifies this
      ensures Valid()
      ensures processed == old(processed).Put(eid, stamp) && pending == old(pending).Remove(eid)
      ensures windows == old(windows)[cam := Slide(WindowOf(old(windows), cam), t, timeWindow)]
      ensures downloads == old(downloads)
        + (if |Slide(WindowOf(old(windows), cam), t, timeWindow)| > threshold then [] else [Download(eid, cam)])
      ensures lastListed == old(lastListed) && store == old(store)
    {
      var over := Admit(eid, cam, t, stamp);
      if over {
        Drop(eid);
      } else {
        Fetch(eid, cam);
      }
    }

    /** The pending pass after re-checking `keys[..i]`, `keys` being the pending events it started with. */
    ghost predicate PassState(keys: seq<string>, i: int, done: map<string, string>, before: map<string, Event>,
                              refetch: map<string, Refetch>, stamp: Option<string>)
      reads this
    {
      0 <= i <= |keys| && Distinct(keys) && Valid()
      && KeysAt(keys, i, done, refetch, pending.keys)
      && (forall k | k in pending.values :: k in before && pending.values[k] == before[k])
      && StampedUpTo(keys, i, done, refetch, stamp, processed.values)
      && AddedFrom(keys, i, done, refetch, processed.values)
    }

    /** The re-check of `keys[i]` inside the pending pass. */
    method RecheckAt(keys: seq<string>, i: int, refetch: map<string, Refetch>, start: Option<int>,
                     ghost done: map<string, string>, ghost before: map<string, Event>) returns (aborted: bool)
      requires PassState(keys, i, done, before, refetch, StampOfStart(start)) && i < |keys|
      modifies this
      ensures lastListed == old(lastListed) && store == old(store) && old(downloads) <= downloads
      ensures PassState(keys, if aborted then i else i + 1, done, before, refetch, StampOfStart(start))
    {
      var eid := keys[i];
      NotYetAdded(keys, i, done, refetch, processed.values);
      assert eid in pending.keys by {
        assert keys[i..][0] == eid;
      }
      ghost var pk, p := pending.keys, processed.values;
      aborted := Recheck(eid, refetch, start);
      if !aborted {
        KeysStep(keys, i, done, refetch, pk, pending.keys);
        ProcessedStep(keys, i, done, refetch, StampOfStart(start), p, processed.values);
      }
    }

    /**
     * The pending pass: every pending event is re-checked once, in insertion
     * order. On success the events still pending are exactly those that were
     * not processed, were answered and are still open; every one found
     * finished is processed, stamped with the start of the event `ev` is
     * bound to; and no pending event is a processed one.
     */
    method ReconcilePending(refetch: map<string, Refetch>) returns (aborted: bool)
      requires Valid()
      modifies this
      ensures Valid() && lastListed == old(lastListed) && store == old(store)
      ensures Grows(old(processed.values), processed.values)
      ensures old(downloads) <= downloads
      ensures forall k | k in pending.values :: k in old(pending.values) && pending.values[k] == old(pending.values)[k]
      ensures !aborted ==> pending.keys == StillOpen(old(pending.keys), old(processed.values), refetch)
      ensures !aborted ==> forall k | k in pending.values :: k !in processed.values
      ensures !aborted ==> StampedUpTo(old(pending.keys), |old(pending.keys)|, old(processed.values), refetch,
                                       StampOfStart(LastTime(old(lastListed))), processed.values)
      ensures forall k | k in processed.values ::
        k in old(processed.values) || (k in old(pending.keys) && Closes(k, old(processed.values), refetch))
    {
      var start := LastTime(lastListed);
      ghost var done := processed.values;
      ghost var before := pending.values;
      var keys := pending.keys;
      assert keys[..0] == [] && keys[0..] == keys;
      aborted := false;
      var i := 0;
      while i < |keys| && !aborted
        invariant PassState(keys, i, done, before, refetch, StampOfStart(start))
        invariant lastListed == old(lastListed) && store == old(store) && old(downloads) <= downloads
        decreases |keys| - i, if aborted then 0 else 1
      {
        aborted := RecheckAt(keys, i, refetch, start, done, before);
        if !aborted {
          i := i + 1;
        }
      }
      if !aborted {
        PassComplete(keys, done, refetch, pending.keys, processed.values);
      }
      AddedWithin(keys, i, done, refetch, processed.values);
    }

    /** `cleanup_processed_ids`: the store is rewritten with one line per processed event, in insertion order. */
    method SaveStore()
      requires Valid()
      modifies this
      ensures Valid()
      ensures store == Some(Concat(StoreLines(processed.keys, processed.values)))
      ensures processed == old(processed) && pending == old(pending) && windows == old(windows)
      ensures downloads == old(downloads) && lastListed == old(lastListed)
    {
      var keys := processed.keys;
      ghost var lines := StoreLines(keys, processed.values);
      var text := "";
      for i := 0 to |keys|
        invariant text == Concat(lines[..i])
        invariant unchanged(this)
      {
        ConcatAppend(lines[..i], lines[i]);
        assert lines[..i + 1] == lines[..i] + [lines[i]];
        text := text + StoreLine(keys[i], processed.values[keys[i]]);
      }
      assert lines[..|keys|] == lines;
      store := Some(text);
    }

    /**
     * One cycle of the loop. It either completes, with every finished listed
     * event processed, no pending event processed and the store rewritten,
     * or raises part-way and leaves the store as it was.
     */
    method PollCycle(events: seq<Event>, refetch: map<string, Refetch>) returns (aborted: bool)
      requires Valid()
      modifies this
      ensures Valid()
      ensures Grows(old(processed.values), processed.values) && old(downloads) <= downloads
      ensures aborted ==> store == old(store)
      ensures !aborted ==> store == Some(Concat(StoreLines(processed.keys, processed.values)))
      ensures !aborted ==> forall e | e in events && Truthy(e.endDateTime) :: e.id in processed.values
      ensures !aborted ==> forall k | k in pending.values :: k !in processed.values
    {
      aborted := ListingPass(events);
      if aborted {
        return;
      }
      aborted := ReconcilePending(refetch);
      if aborted {
        return;
      }
      SaveStore();
    }
  }
}
