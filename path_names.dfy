/**
 * The pieces of Python's `pathlib` and `str` that the upload service uses to
 * pick file names apart (`Path(..).name`, `.suffix`, `.stem`, `str.lower`) and
 * the two f-strings that build the stored and the processed file names.
 */
module PathNames {

  /** Index of the last occurrence of `c` in `s`, or -1 when there is none (`str.rfind`). */
  function LastIndexOf(s: string, c: char): (i: int)
    ensures -1 <= i < |s|
    ensures i >= 0 ==> s[i] == c
    ensures forall j :: i < j < |s| ==> s[j] != c
  {
    if |s| == 0 then -1
    else if s[|s| - 1] == c then |s| - 1
    else LastIndexOf(s[..|s| - 1], c)
  }

  /** The final component of a POSIX path: everything after the last '/'. */
  function Name(path: string): (r: string)
    ensures '/' !in r
    ensures |r| <= |path|
  {
    var k := LastIndexOf(path, '/') + 1;
    path[k..]
  }

  /** The name is the tail of the path, and it is the whole path or follows a '/'. */
  lemma NameIsFinalComponent(path: string)
    ensures var r := Name(path);
      path[|path| - |r|..] == r && (|r| < |path| ==> path[|path| - |r| - 1] == '/')
  {
  }

  /**
   * `PurePath.suffix`: the final component's text from its last '.', provided that
   * dot is neither the first nor the last character; otherwise the empty string.
   */
  function Suffix(path: string): (r: string)
    ensures r == "" || (|r| >= 2 && r[0] == '.' && '.' !in r[1..] && '/' !in r)
  {
    var name := Name(path);
    var i := LastIndexOf(name, '.');
    if 0 < i < |name| - 1 then name[i..] else ""
  }

  /** `PurePath.stem`: the final component without its suffix. */
  function Stem(path: string): string {
    var name := Name(path);
    var i := LastIndexOf(name, '.');
    if 0 < i < |name| - 1 then name[..i] else name
  }

  /** The stem followed by the suffix is the final component, so the stem holds no '/'. */
  lemma StemAndSuffix(path: string)
    ensures Stem(path) + Suffix(path) == Name(path)
    ensures '/' !in Stem(path)
  {
    var name := Name(path);
    var i := LastIndexOf(name, '.');
    if 0 < i < |name| - 1 {
      assert name == name[..i] + name[i..];
    }
  }

  function LowerChar(c: char): char {
    if 'A' <= c <= 'Z' then (c as int + 32) as char else c
  }

  /** `str.lower`, restricted to the ASCII letters A-Z. */
  function Lower(s: string): (r: string)
    ensures |r| == |s|
  {
    seq(|s|, i requires 0 <= i < |s| => LowerChar(s[i]))
  }

  /**
   * Lower-casing maps each upper-case ASCII letter to its lower-case partner, keeps
   * every other character (the '.' and '/' that name splitting looks at among them),
   * and leaves no upper-case ASCII letter behind.
   */
  lemma LowerChars(s: string)
    ensures forall i :: 0 <= i < |s| ==>
      Lower(s)[i] == (if 'A' <= s[i] <= 'Z' then (s[i] as int + 32) as char else s[i])
    ensures forall i :: 0 <= i < |s| ==> !('A' <= Lower(s)[i] <= 'Z')
    ensures forall i :: 0 <= i < |s| ==> (Lower(s)[i] == '.' <==> s[i] == '.') && (Lower(s)[i] == '/' <==> s[i] == '/')
  {
  }

  /** The characters of `str(uuid.uuid4())`: 36 of lower-case hex digits and hyphens. */
  predicate IsTaskId(t: string) {
    |t| == 36 && forall i :: 0 <= i < |t| ==> ('0' <= t[i] <= '9' || 'a' <= t[i] <= 'f' || t[i] == '-')
  }

  /** The name under which an upload is stored: `f"{stem}_{task_id}{suffix.lower()}"`. */
  function UploadName(filename: string, taskId: string): string {
    Stem(filename) + "_" + taskId + Lower(Suffix(filename))
  }

  /** The name of the JSON output: `f"processed_{stem}_{task_id}.json"`. */
  function ProcessedName(filename: string, taskId: string): string {
    "processed_" + Stem(filename) + "_" + taskId + ".json"
  }

  lemma NameOfPlain(s: string)
    requires '/' !in s
    ensures Name(s) == s
  {
    assert LastIndexOf(s, '/') == -1;
  }

  /** When `s = a + b`, `b` starts with `c` and holds no other `c`, the last `c` of `s` is at `|a|`. */
  lemma LastIndexAtJoin(a: string, b: string, c: char)
    requires |b| > 0 && b[0] == c && c !in b[1..]
    ensures LastIndexOf(a + b, c) == |a|
  {
    var s := a + b;
    var i := LastIndexOf(s, c);
    assert s[|a|] == c;
    forall j | |a| < j < |s| ensures s[j] != c {
      assert s[j] == b[1..][j - |a| - 1];
    }
  }

  /** A plain name `head + ext`, where `ext` is a dot and at least one other non-dot, splits as expected. */
  lemma SplitAtSuffix(s: string, head: string, ext: string)
    requires '/' !in s && s == head + ext && |head| > 0
    requires |ext| >= 2 && ext[0] == '.' && '.' !in ext[1..]
    ensures Suffix(s) == ext && Stem(s) == head
  {
    NameOfPlain(s);
    LastIndexAtJoin(head, ext, '.');
    assert s[|head|..] == ext;
    assert s[..|head|] == head;
  }

  lemma TaskIdIsPlain(taskId: string)
    requires IsTaskId(taskId)
    ensures '/' !in taskId && '.' !in taskId
  {
    forall i | 0 <= i < |taskId| ensures taskId[i] != '/' && taskId[i] != '.' { }
  }

  lemma LowerOfSuffix(suffix: string)
    requires |suffix| >= 2 && suffix[0] == '.' && '.' !in suffix[1..] && '/' !in suffix
    ensures var ext := Lower(suffix); |ext| >= 2 && ext[0] == '.' && '.' !in ext[1..] && '/' !in ext
  {
    var ext := Lower(suffix);
    LowerChars(suffix);
    forall i | 0 <= i < |ext| - 1 ensures ext[1..][i] != '.' {
      assert suffix[1..][i] == suffix[i + 1];
    }
  }

  /**
   * The stored upload name splits back into the original stem joined with the task id,
   * and the lower-cased original suffix: the stored file keeps the extension that
   * was checked against the allow-list.
   */
  lemma UploadNameRoundTrip(filename: string, taskId: string)
    requires Suffix(filename) != ""
    requires IsTaskId(taskId)
    ensures Suffix(UploadName(filename, taskId)) == Lower(Suffix(filename))
    ensures Stem(UploadName(filename, taskId)) == Stem(filename) + "_" + taskId
  {
    var ext := Lower(Suffix(filename));
    var head := Stem(filename) + "_" + taskId;
    StemAndSuffix(filename);
    TaskIdIsPlain(taskId);
    LowerOfSuffix(Suffix(filename));
    assert '/' !in head;
    SplitAtSuffix(head + ext, head, ext);
  }

  /** The output name always ends in ".json" and its stem carries the original stem and the task id. */
  lemma ProcessedNameParts(filename: string, taskId: string)
    requires IsTaskId(taskId)
    ensures Suffix(ProcessedName(filename, taskId)) == ".json"
    ensures Stem(ProcessedName(filename, taskId)) == "processed_" + Stem(filename) + "_" + taskId
  {
    var head := "processed_" + Stem(filename) + "_" + taskId;
    var ext := ".json";
    StemAndSuffix(filename);
    TaskIdIsPlain(taskId);
    assert '/' !in "processed_" && '/' !in "_";
    assert '/' !in head;
    assert ext[0] == '.' && ext[1..] == "json" && '.' !in "json" && '/' !in ext;
    SplitAtSuffix(head + ext, head, ext);
  }

  /** Lower-casing twice is lower-casing once. */
  lemma LowerIdempotent(s: string)
    ensures Lower(Lower(s)) == Lower(s)
  {
    LowerChars(s);
    LowerChars(Lower(s));
  }
}
