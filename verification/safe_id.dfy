/**
 * `_safe_id`: a file-name-safe identifier made from arbitrary text. Every run
 * of characters outside `[A-Za-z0-9._-]` becomes one `-`, then `-` is stripped
 * from both ends. The export job's counter file is named after it.
 */
module SafeId {
  import opened Wrappers
  import opened Text

  predicate Allowed(c: char) {
    ('A' <= c <= 'Z') || ('a' <= c <= 'z') || ('0' <= c <= '9') || c == '.' || c == '_' || c == '-'
  }

  predicate AllAllowed(s: string) {
    forall i | 0 <= i < |s| :: Allowed(s[i])
  }

  /** `s` without its leading run of disallowed characters. */
  function SkipDisallowed(s: string): (r: string)
    ensures |r| <= |s| && r == s[|s| - |r|..]
    ensures r == [] || Allowed(r[0])
  {
    if s != [] && !Allowed(s[0]) then SkipDisallowed(s[1..]) else s
  }

  /** `re.sub(r"[^A-Za-z0-9._-]+", "-", s)` */
  function Collapse(s: string): (r: string)
    ensures AllAllowed(r)
    decreases |s|
  {
    if s == [] then []
    else if Allowed(s[0]) then [s[0]] + Collapse(s[1..])
    else "-" + Collapse(SkipDisallowed(s[1..]))
  }

  /** `_safe_id(s)`; `None` is read as the empty string. */
  function SafeId(s: Option<string>): (r: string)
    ensures AllAllowed(r)
    ensures r == [] || (r[0] != '-' && r[|r| - 1] != '-')
  {
    var collapsed := Collapse(s.GetOr(""));
    var left := TrimLeft(collapsed, {'-'});
    SliceAllowed(collapsed, |collapsed| - |left|, |collapsed|);
    var r := TrimRight(left, {'-'});
    SliceAllowed(left, 0, |r|);
    r
  }

  /** A slice of safe text is safe. */
  lemma SliceAllowed(s: string, lo: int, hi: int)
    requires AllAllowed(s) && 0 <= lo <= hi <= |s|
    ensures AllAllowed(s[lo..hi])
  {
    forall i | 0 <= i < hi - lo ensures Allowed(s[lo..hi][i]) {
      assert s[lo..hi][i] == s[lo + i];
    }
  }

  /** A safe identifier between two texts without a path separator adds none. */
  lemma NameHasNoSlash(prefix: string, safe: string, suffix: string)
    requires '/' !in prefix && AllAllowed(safe) && '/' !in suffix
    ensures '/' !in prefix + safe + suffix
  {
  }

  lemma SafeIdOfNone()
    ensures SafeId(None) == ""
  {
  }

  /** Text that is already safe passes through the substitution unchanged. */
  lemma {:induction false} CollapseOfAllowed(s: string)
    requires AllAllowed(s)
    ensures Collapse(s) == s
  {
    if s != [] {
      assert AllAllowed(s[1..]);
      CollapseOfAllowed(s[1..]);
    }
  }

  /**
   * The identifiers `_safe_id` returns are exactly the strings of allowed
   * characters with no `-` at either end: those, and only those, it leaves as
   * they are.
   */
  lemma SafeIdFixedPoint(s: string)
    ensures SafeId(Some(s)) == s <==> AllAllowed(s) && (s == [] || (s[0] != '-' && s[|s| - 1] != '-'))
  {
    if AllAllowed(s) && (s == [] || (s[0] != '-' && s[|s| - 1] != '-')) {
      CollapseOfAllowed(s);
    }
  }

  /** Sanitising twice is sanitising once. */
  lemma SafeIdIdempotent(s: Option<string>)
    ensures SafeId(Some(SafeId(s))) == SafeId(s)
  {
    SafeIdFixedPoint(SafeId(s));
  }

  /** The fixed parts of the two file names. */
  const CounterPrefix := "counter_"
  const CounterSuffix := ".json"
  const ProgressPrefix := "concat_progress_"
  const ProgressSuffix := ".txt"

  lemma FixedPartsHaveNoSlash()
    ensures '/' !in CounterPrefix && '/' !in CounterSuffix
    ensures '/' !in ProgressPrefix && '/' !in ProgressSuffix
  {
  }

  /** `_counter_path`: the counter file's name inside the temp directory. */
  function CounterFileName(jobId: string): (name: string)
    ensures name == "counter_" + SafeId(Some(jobId)) + ".json"
    ensures '/' !in name
    ensures StartsWith(name, "counter_")
  {
    var safe := SafeId(Some(jobId));
    FixedPartsHaveNoSlash();
    NameHasNoSlash(CounterPrefix, safe, CounterSuffix);
    CounterPrefix + safe + CounterSuffix
  }

  /** `_progress_txt_path`: no file without a job id. */
  function ProgressFileName(jobId: Option<string>): (name: Option<string>)
    ensures name.Some? <==> jobId.Some? && jobId.value != ""
    ensures name.Some? ==> name.value == "concat_progress_" + SafeId(jobId) + ".txt"
    ensures name.Some? ==> '/' !in name.value
  {
    if jobId.None? || jobId.value == "" then None
    else
      var safe := SafeId(jobId);
      FixedPartsHaveNoSlash();
      NameHasNoSlash(ProgressPrefix, safe, ProgressSuffix);
      Some(ProgressPrefix + safe + ProgressSuffix)
  }
}
