/**
 * The object-detection worker (`yolo8_analyze.py`). It takes a clip from the
 * alarm queue, recovers the camera and event ids from the file name, samples
 * about one frame per second, keeps per object class the most confident box
 * over all sampled frames and saves one picture per class found.
 *
 * The detector network is an input: for every frame, the boxes it reports,
 * with their class names already looked up.
 */
module Detector {
  import opened Wrappers
  import opened Text
  import opened OrderedDict
  import opened Progress
  import opened Poller

  const Unknown := ("unknown", "unknown")

  // ---------------------------------------------------------------------
  // Clip names
  // ---------------------------------------------------------------------

  /** The index of the last `c` in `s`, or -1. */
  function LastIndex(s: string, c: char): (r: int)
    ensures -1 <= r < |s|
    ensures r >= 0 ==> s[r] == c
    ensures forall j | r < j < |s| :: s[j] != c
    decreases |s|
  {
    if s == [] then -1
    else if s[|s| - 1] == c then |s| - 1
    else LastIndex(s[..|s| - 1], c)
  }

  predicate AllDots(s: string) {
    forall i | 0 <= i < |s| :: s[i] == '.'
  }

  /**
   * `os.path.splitext(name)[0]` for a name without `/`: the text before the
   * last dot, unless only dots precede it (a leading-dot name has no extension).
   */
  function Stem(name: string): (r: string)
    ensures StartsWith(name, r)
  {
    var d := LastIndex(name, '.');
    if d >= 0 && !AllDots(name[..d]) then name[..d] else name
  }

  /** The stem of the clip's file name, split at `-`. */
  function NameParts(path: string): seq<string> {
    SplitOn(Stem(Basename(path)), '-')
  }

  /** The name is `<digits>-<digits>` before its extension. */
  predicate WellNamed(path: string) {
    var parts := NameParts(path);
    |parts| == 2 && IsDigitString(parts[0]) && IsDigitString(parts[1])
  }

  /** `extract_ids`: (camera id, event id), or ("unknown", "unknown") for any other name. */
  function ExtractIds(path: string): (r: (string, string))
    ensures WellNamed(path) ==> NameParts(path) == [r.0, r.1]
    ensures WellNamed(path) <==> r != Unknown
    ensures r != Unknown ==> IsDigitString(r.0) && IsDigitString(r.1)
  {
    var parts := NameParts(path);
    if |parts| == 2 && IsDigitString(parts[0]) && IsDigitString(parts[1]) then
      assert IsDigit(parts[0][0]);
      (parts[0], parts[1])
    else Unknown
  }

  lemma StemOfMp4(base: string)
    requires '.' !in base && base != []
    ensures Stem(base + ".mp4") == base
  {
    var s := base + ".mp4";
    assert LastIndex(base + ".", '.') == |base|;
    assert (base + ".m")[..|base| + 1] == base + ".";
    assert LastIndex(base + ".m", '.') == |base|;
    assert (base + ".mp")[..|base| + 2] == base + ".m";
    assert LastIndex(base + ".mp", '.') == |base|;
    assert s[..|base| + 3] == base + ".mp";
    assert LastIndex(s, '.') == |base|;
    assert s[..|base|] == base;
    assert base[0] != '.';
  }

  lemma DigitsHaveNo(s: string, c: char)
    requires AllDigits(s) && !IsDigit(c)
    ensures c !in s
  {
    forall i | 0 <= i < |s| ensures s[i] != c {
      assert IsDigit(s[i]);
    }
  }

  /**
   * The poller saves clip `<monitor>-<event>.mp4` in the queue folder, and the
   * worker reads both ids back from that path.
   */
  lemma {:induction false} ExtractIdsOfDownload(queue: string, d: Download)
    requires IsDigitString(d.monitorId) && IsDigitString(d.eventId)
    ensures ExtractIds(queue + "/" + d.FileName()) == (d.monitorId, d.eventId)
  {
    var m, e := d.monitorId, d.eventId;
    var base := m + "-" + e;
    DigitsHaveNo(m, '/');
    DigitsHaveNo(e, '/');
    DigitsHaveNo(m, '.');
    DigitsHaveNo(e, '.');
    DigitsHaveNo(m, '-');
    DigitsHaveNo(e, '-');
    assert d.FileName() == base + ".mp4";
    assert '/' !in base + ".mp4" by {
      assert forall i | 0 <= i < |base + ".mp4"| :: (base + ".mp4")[i] != '/' by {
        forall i | 0 <= i < |base + ".mp4"| ensures (base + ".mp4")[i] != '/' {
          if i < |m| { assert (base + ".mp4")[i] == m[i]; }
          else if i > |m| && i < |base| { assert (base + ".mp4")[i] == e[i - |m| - 1]; }
        }
      }
    }
    BasenameOfJoined(queue, base + ".mp4");
    assert '.' !in base by {
      forall i | 0 <= i < |base| ensures base[i] != '.' {
        if i < |m| { assert base[i] == m[i]; }
        else if i > |m| { assert base[i] == e[i - |m| - 1]; }
      }
    }
    StemOfMp4(base);
    assert Join([m, e], '-') == base by {
      assert [m, e][1..] == [e];
    }
    SplitJoin([m, e], '-');
  }

  // ---------------------------------------------------------------------
  // Keeping the most confident sighting per class
  // ---------------------------------------------------------------------

  /** A box as the network reports it: class name, confidence and corners. */
  datatype Box = Box(name: string, confidence: real, x1: int, y1: int, x2: int, y2: int)

  /** A box as stored: corner, width and height. */
  datatype Rect = Rect(x: int, y: int, w: int, h: int)

  /** Something seen with a confidence, and what to keep about it. */
  datatype Candidate<P> = Candidate(name: string, confidence: real, payload: P)

  /**
   * One step of both folds in the source: a candidate of an allowed class
   * replaces the kept one only when strictly more confident.
   */
  function Keep<P>(d: ODict<string, Candidate<P>>, c: Candidate<P>, allowed: seq<string>): ODict<string, Candidate<P>> {
    if c.name in allowed && (c.name !in d.values || c.confidence > d.values[c.name].confidence)
    then d.Put(c.name, c)
    else d
  }

  /** The candidates folded in order, from an empty dict. */
  function Fold<P>(cs: seq<Candidate<P>>, allowed: seq<string>): (d: ODict<string, Candidate<P>>)
    ensures d.Valid()
    ensures forall k | k in d.values :: d.values[k].name == k && k in allowed
    decreases |cs|
  {
    if cs == [] then Empty() else Keep(Fold(cs[..|cs| - 1], allowed), cs[|cs| - 1], allowed)
  }

  /** Folding one more candidate is one more `Keep`. */
  lemma FoldStep<P>(cs: seq<Candidate<P>>, c: Candidate<P>, allowed: seq<string>)
    ensures Fold(cs + [c], allowed) == Keep(Fold(cs, allowed), c, allowed)
  {
    assert (cs + [c])[..|cs|] == cs;
  }

  /** Folding one more element of `more` after `before` is one more `Keep`. */
  lemma FoldPrefixStep<P>(before: seq<Candidate<P>>, more: seq<Candidate<P>>, j: nat, allowed: seq<string>)
    requires j < |more|
    ensures Fold(before + more[..j + 1], allowed) == Keep(Fold(before + more[..j], allowed), more[j], allowed)
  {
    assert before + more[..j + 1] == (before + more[..j]) + [more[j]];
    FoldStep(before + more[..j], more[j], allowed);
  }

  /** `cs[i]` is the first of the most confident candidates of its class. */
  ghost predicate FirstMax<P>(cs: seq<Candidate<P>>, i: int) {
    0 <= i < |cs|
    && (forall j | 0 <= j < |cs| && cs[j].name == cs[i].name :: cs[j].confidence <= cs[i].confidence)
    && (forall j | 0 <= j < i && cs[j].name == cs[i].name :: cs[j].confidence < cs[i].confidence)
  }

  /** A class is kept iff it is allowed and some candidate has it. */
  lemma {:induction false} FoldKeeps<P>(cs: seq<Candidate<P>>, allowed: seq<string>, k: string)
    ensures k in Fold(cs, allowed).values <==> k in allowed && exists i | 0 <= i < |cs| :: cs[i].name == k
    decreases |cs|
  {
    if cs != [] {
      var n := |cs| - 1;
      FoldKeeps(cs[..n], allowed, k);
      KeepKeeps(Fold(cs[..n], allowed), cs[n], allowed, k);
      if k in allowed && (exists i | 0 <= i < |cs| :: cs[i].name == k) {
        var i :| 0 <= i < |cs| && cs[i].name == k;
        if i < n {
          assert cs[..n][i].name == k;
        }
      }
      if exists i | 0 <= i < n :: cs[..n][i].name == k {
        var i :| 0 <= i < n && cs[..n][i].name == k;
        assert cs[i].name == k;
      }
    }
  }

  /** `Keep` adds only the candidate's own class, and only when it is allowed. */
  lemma KeepKeeps<P>(d: ODict<string, Candidate<P>>, c: Candidate<P>, allowed: seq<string>, k: string)
    ensures k in Keep(d, c, allowed).values <==> k in d.values || (k == c.name && k in allowed)
  {
  }

  /** The first candidate of its class is its first maximum so far. */
  lemma FreshFirstMax<P>(cs: seq<Candidate<P>>)
    requires |cs| > 0
    requires forall j | 0 <= j < |cs| - 1 :: cs[j].name != cs[|cs| - 1].name
    ensures FirstMax(cs, |cs| - 1)
  {
  }

  /** A candidate that beats the first maximum of the prefix is the first maximum of the whole. */
  lemma BeatingFirstMax<P>(cs: seq<Candidate<P>>, i: int)
    requires |cs| > 0 && FirstMax(cs[..|cs| - 1], i)
    requires cs[i].name == cs[|cs| - 1].name && cs[i].confidence < cs[|cs| - 1].confidence
    ensures FirstMax(cs, |cs| - 1)
  {
    var n := |cs| - 1;
    forall j | 0 <= j < n && cs[j].name == cs[n].name ensures cs[j].confidence < cs[n].confidence {
      assert cs[..n][j] == cs[j];
    }
  }

  /** A candidate that does not beat the first maximum of the prefix leaves it the first maximum. */
  lemma OldFirstMax<P>(cs: seq<Candidate<P>>, i: int)
    requires |cs| > 0 && FirstMax(cs[..|cs| - 1], i)
    requires cs[|cs| - 1].name == cs[i].name ==> cs[|cs| - 1].confidence <= cs[i].confidence
    ensures FirstMax(cs, i)
  {
    var n := |cs| - 1;
    forall j | 0 <= j < n ensures cs[j] == cs[..n][j] {
    }
  }

  /** What is kept for a class is its first most confident candidate. */
  lemma {:induction false} FoldPicksFirstMax<P>(cs: seq<Candidate<P>>, allowed: seq<string>, k: string)
    requires k in Fold(cs, allowed).values
    ensures exists i :: FirstMax(cs, i) && cs[i] == Fold(cs, allowed).values[k]
    decreases |cs|
  {
    var n := |cs| - 1;
    var p, c := cs[..n], cs[n];
    var before := Fold(p, allowed);
    if c.name == k && (k !in before.values || c.confidence > before.values[k].confidence) {
      if k in before.values {
        FoldPicksFirstMax(p, allowed, k);
        var i :| FirstMax(p, i) && p[i] == before.values[k];
        assert cs[i] == p[i];
        BeatingFirstMax(cs, i);
      } else {
        FoldKeeps(p, allowed, k);
        forall j | 0 <= j < n ensures cs[j].name != k {
          assert p[j] == cs[j];
        }
        FreshFirstMax(cs);
      }
      assert cs[n] == Fold(cs, allowed).values[k];
    } else {
      FoldPicksFirstMax(p, allowed, k);
      var i :| FirstMax(p, i) && p[i] == before.values[k];
      OldFirstMax(cs, i);
      assert cs[i] == Fold(cs, allowed).values[k];
    }
  }

  // ---------------------------------------------------------------------
  // One frame: detect_objects
  // ---------------------------------------------------------------------

  function Shape(b: Box): Rect {
    Rect(b.x1, b.y1, b.x2 - b.x1, b.y2 - b.y1)
  }

  function BoxCandidates(boxes: seq<Box>): (cs: seq<Candidate<Rect>>)
    ensures |cs| == |boxes|
    ensures forall i | 0 <= i < |boxes| :: cs[i] == Candidate(boxes[i].name, boxes[i].confidence, Shape(boxes[i]))
  {
    seq(|boxes|, i requires 0 <= i < |boxes| => Candidate(boxes[i].name, boxes[i].confidence, Shape(boxes[i])))
  }

  /**
   * `detect_objects` on the boxes of one frame: per listed class, the box of
   * its first most confident sighting, classes in order of first sighting.
   */
  method DetectObjects(boxes: seq<Box>, objList: seq<string>) returns (d: ODict<string, Candidate<Rect>>)
    ensures d == Fold(BoxCandidates(boxes), objList)
    ensures forall k :: k in d.values <==> k in objList && exists i | 0 <= i < |boxes| :: boxes[i].name == k
    ensures forall k | k in d.values :: exists i ::
      FirstMax(BoxCandidates(boxes), i) && d.values[k] == Candidate(k, boxes[i].confidence, Shape(boxes[i]))
  {
    ghost var cs := BoxCandidates(boxes);
    d := Empty();
    for n := 0 to |boxes|
      invariant d == Fold(cs[..n], objList)
    {
      var b := boxes[n];
      assert cs[..n + 1] == cs[..n] + [cs[n]];
      FoldStep(cs[..n], cs[n], objList);
      d := Offer(d, Candidate(b.name, b.confidence, Shape(b)), objList);
    }
    assert cs[..|boxes|] == cs;
    forall k ensures k in d.values <==> k in objList && exists i | 0 <= i < |boxes| :: boxes[i].name == k {
      FoldKeeps(cs, objList, k);
      if k in objList && exists i | 0 <= i < |boxes| :: boxes[i].name == k {
        var i :| 0 <= i < |boxes| && boxes[i].name == k;
        assert cs[i].name == k;
      }
    }
    forall k | k in d.values ensures exists i ::
      FirstMax(cs, i) && d.values[k] == Candidate(k, boxes[i].confidence, Shape(boxes[i]))
    {
      FoldPicksFirstMax(cs, objList, k);
      var i :| FirstMax(cs, i) && cs[i] == d.values[k];
    }
  }

  // ---------------------------------------------------------------------
  // The whole clip: process_video
  // ---------------------------------------------------------------------

  /**
   * The sampling interval: the frame rate rounded, at least 1. A missing
   * reading (`None`) stands for 0 or NaN; those and rates below 1 count as 1.
   */
  function SampleInterval(fps: Option<real>): (r: int)
    ensures r >= 1
    ensures fps.None? || fps.value < 1.0 ==> r == 1
    ensures fps.Some? && fps.value >= 1.0 ==> fps.value - 0.5 <= r as real <= fps.value + 0.5
  {
    var rate := if fps.None? || fps.value < 1.0 then 1.0 else fps.value;
    if RoundHalfEven(rate) < 1 then 1 else RoundHalfEven(rate)
  }

  /** Frame `k` (counted from 1) is analysed. */
  predicate Sampled(k: int, interval: int)
    requires interval >= 1
  {
    k % interval == 0
  }

  /** Where a class was seen best: the frame number and the box. */
  datatype Sighting = Sighting(frame: nat, box: Rect)

  /** What one analysed frame offers, in the order its dict lists the classes. */
  function Sightings(k: nat, det: ODict<string, Candidate<Rect>>): (cs: seq<Candidate<Sighting>>)
    requires det.Valid()
    ensures |cs| == |det.keys|
    ensures forall i | 0 <= i < |cs| ::
      cs[i] == Candidate(det.keys[i], det.values[det.keys[i]].confidence, Sighting(k, det.values[det.keys[i]].payload))
  {
    seq(|det.keys|, i requires 0 <= i < |det.keys| =>
      Candidate(det.keys[i], det.values[det.keys[i]].confidence, Sighting(k, det.values[det.keys[i]].payload)))
  }

  /** The sightings of the first `n` frames, frame by frame. */
  function FrameCandidates(frames: seq<seq<Box>>, interval: int, objList: seq<string>, n: nat): seq<Candidate<Sighting>>
    requires interval >= 1 && n <= |frames|
  {
    if n == 0 then []
    else
      FrameCandidates(frames, interval, objList, n - 1)
      + (if Sampled(n, interval) then Sightings(n, Fold(BoxCandidates(frames[n - 1]), objList)) else [])
  }

  /** A class is in the frame's sightings iff its dict has it. */
  lemma SightingsOf(k: nat, det: ODict<string, Candidate<Rect>>, obj: string)
    requires det.Valid()
    ensures obj in det.values <==> exists i | 0 <= i < |Sightings(k, det)| :: Sightings(k, det)[i].name == obj
  {
    if obj in det.values {
      var i :| 0 <= i < |det.keys| && det.keys[i] == obj;
      assert Sightings(k, det)[i].name == obj;
    }
  }

  /**
   * Unsampled frames offer nothing: the sightings are exactly those of the
   * sampled frames.
   */
  lemma {:induction false} OnlySampledFrames(frames: seq<seq<Box>>, interval: int, objList: seq<string>, n: nat, c: Candidate<Sighting>)
    requires interval >= 1 && n <= |frames|
    requires c in FrameCandidates(frames, interval, objList, n)
    ensures 1 <= c.payload.frame <= n && Sampled(c.payload.frame, interval)
  {
    if c !in FrameCandidates(frames, interval, objList, n - 1) {
      assert Sampled(n, interval);
      var det := Fold(BoxCandidates(frames[n - 1]), objList);
      var i :| 0 <= i < |Sightings(n, det)| && Sightings(n, det)[i] == c;
    } else {
      OnlySampledFrames(frames, interval, objList, n - 1, c);
    }
  }

  /** `f"{camid}_{event_id}_{obj}.jpg"` */
  function SaveName(camid: string, eventId: string, obj: string): string {
    camid + "_" + eventId + "_" + obj + ".jpg"
  }

  /** Different classes of one event are saved under different names. */
  lemma SaveNamesDiffer(camid: string, eventId: string, a: string, b: string)
    requires a != b
    ensures SaveName(camid, eventId, a) != SaveName(camid, eventId, b)
  {
    var p := camid + "_" + eventId + "_";
    assert SaveName(camid, eventId, a) == p + a + ".jpg";
    assert SaveName(camid, eventId, b) == p + b + ".jpg";
    if |a| == |b| {
      var i :| 0 <= i < |a| && a[i] != b[i];
      assert (p + a + ".jpg")[|p| + i] == a[i];
      assert (p + b + ".jpg")[|p| + i] == b[i];
    } else {
      assert |p + a + ".jpg"| != |p + b + ".jpg"|;
    }
  }

  /** One save name per kept class, in the dict's order. */
  function SaveNames(camid: string, eventId: string, objs: seq<string>): (names: seq<string>)
    ensures |names| == |objs|
    ensures forall i | 0 <= i < |objs| :: names[i] == SaveName(camid, eventId, objs[i])
  {
    seq(|objs|, i requires 0 <= i < |objs| => SaveName(camid, eventId, objs[i]))
  }

  /** Distinct classes give distinct file names, so no picture overwrites another of the same event. */
  lemma SaveNamesDistinct(camid: string, eventId: string, objs: seq<string>)
    requires Distinct(objs)
    ensures Distinct(SaveNames(camid, eventId, objs))
  {
    var names := SaveNames(camid, eventId, objs);
    forall i, j | 0 <= i < j < |names| ensures names[i] != names[j] {
      SaveNamesDiffer(camid, eventId, objs[i], objs[j]);
    }
  }

  /** What the clip's kept dict says about each class, from the fold lemmas. */
  lemma {:induction false} BestOfClip(frames: seq<seq<Box>>, interval: int, objList: seq<string>, k: string)
    requires interval >= 1
    requires k in Fold(FrameCandidates(frames, interval, objList, |frames|), objList).values
    ensures var cs := FrameCandidates(frames, interval, objList, |frames|);
      exists i :: FirstMax(cs, i) && cs[i] == Fold(cs, objList).values[k]
    ensures var kept := Fold(FrameCandidates(frames, interval, objList, |frames|), objList).values[k];
      1 <= kept.payload.frame <= |frames| && Sampled(kept.payload.frame, interval)
  {
    var cs := FrameCandidates(frames, interval, objList, |frames|);
    FoldPicksFirstMax(cs, objList, k);
    var i :| FirstMax(cs, i) && cs[i] == Fold(cs, objList).values[k];
    OnlySampledFrames(frames, interval, objList, |frames|, cs[i]);
  }

  /** The test and assignment inside both loops: a listed class replaces its entry only when strictly more confident. */
  method Offer<P>(d: ODict<string, Candidate<P>>, c: Candidate<P>, allowed: seq<string>) returns (r: ODict<string, Candidate<P>>)
    ensures r == Keep(d, c, allowed)
    ensures c.name in allowed ==> c.name in r.values && r.values[c.name].confidence >= c.confidence
    ensures forall k | k != c.name :: k in r.values <==> k in d.values
  {
    r := d;
    if c.name in allowed {
      if c.name !in d.values || c.confidence > d.values[c.name].confidence {
        r := d.Put(c.name, c);
      }
    }
  }

  /** The inner loop of one analysed frame: each of its classes is offered in turn. */
  method MergeFrame(best: ODict<string, Candidate<Sighting>>, k: nat, detected: ODict<string, Candidate<Rect>>,
                    objList: seq<string>, ghost before: seq<Candidate<Sighting>>)
    returns (merged: ODict<string, Candidate<Sighting>>)
    requires detected.Valid() && best == Fold(before, objList)
    ensures merged == Fold(before + Sightings(k, detected), objList)
  {
    ghost var more := Sightings(k, detected);
    assert before + more[..0] == before;
    merged := best;
    for j := 0 to |detected.keys|
      invariant merged == Fold(before + more[..j], objList)
    {
      var obj := detected.keys[j];
      var data := detected.values[obj];
      assert more[j] == Candidate(obj, data.confidence, Sighting(k, data.payload));
      FoldPrefixStep(before, more, j, objList);
      merged := Offer(merged, Candidate(obj, data.confidence, Sighting(k, data.payload)), objList);
    }
    TakeAll(more);
  }

  /** Frame `n` adds its sightings when it is sampled, and nothing otherwise. */
  lemma FrameCandidatesNext(frames: seq<seq<Box>>, interval: int, objList: seq<string>, n: nat)
    requires interval >= 1 && 1 <= n <= |frames|
    ensures n % interval == 0 ==>
      FrameCandidates(frames, interval, objList, n)
      == FrameCandidates(frames, interval, objList, n - 1) + Sightings(n, Fold(BoxCandidates(frames[n - 1]), objList))
    ensures n % interval != 0 ==> FrameCandidates(frames, interval, objList, n) == FrameCandidates(frames, interval, objList, n - 1)
  {
    if n % interval != 0 {
      assert FrameCandidates(frames, interval, objList, n - 1) + [] == FrameCandidates(frames, interval, objList, n - 1);
    }
  }

  /** The frame loop of `process_video`: frame k (from 1) is analysed when the interval divides k. */
  method SampleFrames(frames: seq<seq<Box>>, interval: int, objList: seq<string>)
    returns (best: ODict<string, Candidate<Sighting>>)
    requires interval >= 1
    ensures best == Fold(FrameCandidates(frames, interval, objList, |frames|), objList)
  {
    best := Empty();
    var frameCount := 0;
    while frameCount < |frames|
      invariant 0 <= frameCount <= |frames|
      invariant best == Fold(FrameCandidates(frames, interval, objList, frameCount), objList)
    {
      ghost var before := FrameCandidates(frames, interval, objList, frameCount);
      frameCount := frameCount + 1;
      FrameCandidatesNext(frames, interval, objList, frameCount);
      if frameCount % interval == 0 {
        var detected := DetectObjects(frames[frameCount - 1], objList);
        best := MergeFrame(best, frameCount, detected, objList, before);
      }
    }
  }

  /**
   * `process_video`: reads every frame, analyses frame k when k is a multiple
   * of the interval, keeps per class the first most confident sighting, and
   * names one picture per kept class; a clip without frames saves nothing.
   */
  method ProcessVideo(fps: Option<real>, frames: seq<seq<Box>>, objList: seq<string>, camid: string, eventId: string)
    returns (best: ODict<string, Candidate<Sighting>>, saved: seq<string>)
    ensures best == Fold(FrameCandidates(frames, SampleInterval(fps), objList, |frames|), objList)
    ensures forall k | k in best.values ::
      var cs := FrameCandidates(frames, SampleInterval(fps), objList, |frames|);
      exists i :: FirstMax(cs, i) && cs[i] == best.values[k]
    ensures forall k | k in best.values ::
      1 <= best.values[k].payload.frame <= |frames| && Sampled(best.values[k].payload.frame, SampleInterval(fps))
    ensures saved == SaveNames(camid, eventId, best.keys) && Distinct(saved)
  {
    var interval := SampleInterval(fps);
    best := SampleFrames(frames, interval, objList);
    forall k | k in best.values {
      BestOfClip(frames, interval, objList, k);
    }
    SaveNamesDistinct(camid, eventId, best.keys);
    if |frames| == 0 {
      saved := [];
    } else {
      saved := SaveNames(camid, eventId, best.keys);
    }
  }
}
