/**
 * The e-mail notifier (`email_notify.py`). It watches the folder of saved
 * detection pictures, queues every new picture whose name starts with one of
 * the configured camera prefixes, and at each batch interval drains the queue
 * into one message. The folder watcher, the timer, the lock and SMTP are not
 * part of this model: their events are the calls of the class below, made one
 * at a time.
 */
module Notifier {
  import opened Wrappers
  import opened Text
  import opened OrderedDict
  import opened Detector

  /** `CAMID_LIST`: each comma-separated item of the `EMAIL_CAMID` setting, stripped, with `_` appended. */
  function CamIdList(setting: string): (prefixes: seq<string>)
    ensures |prefixes| == |SplitOn(setting, ',')| >= 1
    ensures forall i | 0 <= i < |prefixes| ::
      prefixes[i] == StripSpace(SplitOn(setting, ',')[i]) + "_"
  {
    var items := SplitOn(setting, ',');
    seq(|items|, i requires 0 <= i < |items| => StripSpace(items[i]) + "_")
  }

  /** An empty setting still yields one prefix, the bare `_`. */
  lemma EmptySettingPrefix()
    ensures CamIdList("") == ["_"]
  {
    assert StripSpace("") == "";
    assert CamIdList("")[0] == "_";
  }

  /** A setting that lists camera ids gives one `<id>_` prefix per id, in order. */
  lemma {:induction false} CamIdListOfIds(ids: seq<string>)
    requires |ids| >= 1
    requires forall i | 0 <= i < |ids| :: IsDigitString(ids[i])
    ensures CamIdList(Join(ids, ',')) == seq(|ids|, i requires 0 <= i < |ids| => ids[i] + "_")
  {
    forall i | 0 <= i < |ids| ensures ',' !in ids[i] {
      DigitsHaveNo(ids[i], ',');
    }
    SplitJoin(ids, ',');
    forall i | 0 <= i < |ids| ensures StripSpace(ids[i]) == ids[i] {
      StripDigits(ids[i]);
      StripSpaceIsStrip(ids[i]);
    }
  }

  /** `any(file_name.startswith(prefix) for prefix in CAMID_LIST)` */
  predicate AnyPrefix(name: string, prefixes: seq<string>) {
    exists i | 0 <= i < |prefixes| :: StartsWith(name, prefixes[i])
  }

  /**
   * A detection picture of camera `c` matches the prefix `<k>_` exactly when
   * `c` is `k`: the underscore ends the id, so `13_...` never matches `3_` or `1_`.
   */
  lemma PrefixNamesCamera(c: string, eventId: string, obj: string, k: string)
    requires IsDigitString(c) && AllDigits(k)
    ensures StartsWith(SaveName(c, eventId, obj), k + "_") <==> c == k
  {
    var name := SaveName(c, eventId, obj);
    var prefix := k + "_";
    assert name == c + ("_" + eventId + "_" + obj + ".jpg");
    assert name[|c|] == '_' && prefix[|k|] == '_';
    if c == k {
      assert name[..|prefix|] == prefix;
    } else if |prefix| <= |name| {
      var i: int;
      if |k| < |c| {
        i := |k|;
        assert IsDigit(c[i]);
      } else if |k| > |c| {
        i := |c|;
        assert IsDigit(k[i]);
      } else {
        i :| 0 <= i < |c| && c[i] != k[i];
      }
      assert name[..|prefix|][i] != prefix[i];
    }
  }

  /**
   * With `EMAIL_CAMID` listing camera ids, a detection picture of camera `c`
   * is queued by name iff `c` is one of them.
   */
  lemma NotifiesListedCameras(ids: seq<string>, c: string, eventId: string, obj: string)
    requires |ids| >= 1
    requires forall i | 0 <= i < |ids| :: IsDigitString(ids[i])
    requires IsDigitString(c)
    ensures AnyPrefix(SaveName(c, eventId, obj), CamIdList(Join(ids, ','))) <==> c in ids
  {
    CamIdListOfIds(ids);
    var prefixes := CamIdList(Join(ids, ','));
    var name := SaveName(c, eventId, obj);
    if c in ids {
      var i :| 0 <= i < |ids| && ids[i] == c;
      PrefixNamesCamera(c, eventId, obj, ids[i]);
      assert StartsWith(name, prefixes[i]);
    }
    if AnyPrefix(name, prefixes) {
      var i :| 0 <= i < |prefixes| && StartsWith(name, prefixes[i]);
      PrefixNamesCamera(c, eventId, obj, ids[i]);
      assert ids[i] == c;
    }
  }

  /** An empty setting queues no detection picture, whatever its camera id. */
  lemma EmptySettingNotifiesNoCamera(c: string, eventId: string, obj: string)
    requires c != [] && c[0] != '_'
    ensures !AnyPrefix(SaveName(c, eventId, obj), CamIdList(""))
  {
    EmptySettingPrefix();
    var name := SaveName(c, eventId, obj);
    assert name[0] == c[0];
    assert !StartsWith(name, "_");
  }

  /** `f"Batch File Update ({len(files_to_send)} files)"` */
  function Subject(count: nat): string {
    "Batch File Update (" + NatToString(count) + " files)"
  }

  const BodyHeader := "The following new files were created:\n\n"

  /** `os.path.basename` of each path, in order. */
  function Basenames(paths: seq<string>): (names: seq<string>)
    ensures |names| == |paths|
    ensures forall i | 0 <= i < |paths| :: names[i] == Basename(paths[i])
  {
    seq(|paths|, i requires 0 <= i < |paths| => Basename(paths[i]))
  }

  /** The header, then one base name per line. */
  function Body(paths: seq<string>): string {
    BodyHeader + Join(Basenames(paths), '\n')
  }

  /** The count in the subject reads back as the number of files. */
  lemma SubjectCount(count: nat)
    ensures var s := Subject(count);
      |s| > |"Batch File Update ("| + |" files)"|
      && PyInt(s[|"Batch File Update ("|..|s| - |" files)"|]) == Some(count)
  {
    var s := Subject(count);
    assert s[|"Batch File Update ("|..|s| - |" files)"|] == NatToString(count);
    PyIntOfNatToString(count);
  }

  /** The lines after the header are the files' base names, in batch order. */
  lemma BodyLists(paths: seq<string>)
    requires |paths| >= 1
    requires forall i | 0 <= i < |paths| :: '\n' !in Basename(paths[i])
    ensures StartsWith(Body(paths), BodyHeader)
    ensures SplitOn(Body(paths)[|BodyHeader|..], '\n') == Basenames(paths)
  {
    StartsWithAppend(BodyHeader, Join(Basenames(paths), '\n'));
    assert Body(paths)[|BodyHeader|..] == Join(Basenames(paths), '\n');
    SplitJoin(Basenames(paths), '\n');
  }

  /** One drained batch: the files in queue order, and the message text. */
  datatype Batch = Batch(files: seq<string>, subject: string, body: string)

  /** A created file is queued: not a directory, created since start-up, name with a camera prefix. */
  predicate Accepted(path: string, isDirectory: bool, ctime: int, startTime: int, prefixes: seq<string>) {
    !isDirectory && ctime >= startTime && AnyPrefix(Basename(path), prefixes)
  }

  /** The watcher's state: the queue `new_files`, shared by the handler and the sender. */
  class Watcher {
    const startTime: int
    const prefixes: seq<string>
    var newFiles: seq<string>
    /** Every file queued so far, and every file drained into a batch so far. */
    ghost var queued: seq<string>
    ghost var drained: seq<string>

    /** Nothing is lost or duplicated: what was queued is what was drained, then what waits. */
    ghost predicate Valid()
      reads this
    {
      queued == drained + newFiles
    }

    /** `WatcherHandler(script_start_time)` with `CAMID_LIST` built from the setting. */
    constructor(emailCamId: string, startTime: int)
      ensures Valid()
      ensures this.startTime == startTime && prefixes == CamIdList(emailCamId)
      ensures newFiles == [] && queued == [] && drained == []
    {
      this.startTime := startTime;
      prefixes := CamIdList(emailCamId);
      newFiles := [];
      queued := [];
      drained := [];
    }

    /** `on_created`: append the path when the file is accepted. */
    method OnCreated(path: string, isDirectory: bool, ctime: int)
      requires Valid()
      modifies this
      ensures Valid()
      ensures Accepted(path, isDirectory, ctime, startTime, prefixes) ==>
        newFiles == old(newFiles) + [path] && queued == old(queued) + [path]
      ensures !Accepted(path, isDirectory, ctime, startTime, prefixes) ==>
        newFiles == old(newFiles) && queued == old(queued)
      ensures drained == old(drained)
    {
      if isDirectory {
        return;
      }
      var name := Basename(path);
      if ctime >= startTime && AnyPrefix(name, prefixes) {
        newFiles := newFiles + [path];
        queued := queued + [path];
      }
    }

    /**
     * One wake-up of `send_email`: an empty queue sends nothing; otherwise the
     * queue is copied, cleared, and the copy becomes the message. The queue is
     * cleared before sending, so a batch is never queued again, sent or not.
     */
    method Drain() returns (batch: Option<Batch>)
      requires Valid()
      modifies this
      ensures Valid()
      ensures old(newFiles) == [] <==> batch.None?
      ensures batch.None? ==> newFiles == [] && drained == old(drained)
      ensures batch.Some? ==> batch.value.files == old(newFiles) && newFiles == []
      ensures batch.Some? ==> drained == old(drained) + batch.value.files
      ensures batch.Some? ==> batch.value.subject == Subject(|batch.value.files|)
      ensures batch.Some? ==> batch.value.body == Body(batch.value.files)
      ensures queued == old(queued)
    {
      if newFiles == [] {
        return None;
      }
      var files := newFiles;
      newFiles := [];
      drained := drained + files;
      batch := Some(Batch(files, Subject(|files|), Body(files)));
    }
  }

  /**
   * Each queued file goes out in at most one batch: with every queued path
   * distinct, the drained paths are distinct, and none of them is still waiting.
   */
  lemma DrainedOnce(queued: seq<string>, drained: seq<string>, waiting: seq<string>)
    requires queued == drained + waiting && Distinct(queued)
    ensures Distinct(drained)
    ensures forall p | p in drained :: p !in waiting
  {
    forall i, j | 0 <= i < j < |drained| ensures drained[i] != drained[j] {
      assert drained[i] == queued[i] && drained[j] == queued[j];
    }
    forall p | p in drained ensures p !in waiting {
      var i :| 0 <= i < |drained| && drained[i] == p;
      forall j | 0 <= j < |waiting| ensures waiting[j] != p {
        assert queued[i] == p && queued[|drained| + j] == waiting[j];
      }
    }
  }
}
