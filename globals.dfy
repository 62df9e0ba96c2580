/**
 * The file-name sanitiser every target path goes through (`clean_file_name`),
 * and the POSIX `os.path.join` used to place files under a root directory.
 */
module Globals {
  import opened Strings

  /** The characters `clean_file_name` replaces: `\ / : * ? " < > |`. */
  predicate IsForbidden(ch: char) {
    ch == '\\' || ch == '/' || ch == ':' || ch == '*' || ch == '?' ||
    ch == '"' || ch == '<' || ch == '>' || ch == '|'
  }

  /** `re.sub(r'[\\/:*?"<>|]', '_', name)`: each forbidden character becomes one `_`. */
  function CleanFileName(name: string): (r: string)
    ensures |r| == |name|
    decreases |name|
  {
    if |name| == 0 then ""
    else [if IsForbidden(name[0]) then '_' else name[0]] + CleanFileName(name[1..])
  }

  /** Position by position: a forbidden character is `_`, any other is kept. */
  lemma {:induction false} CleanFileNameAt(name: string, i: nat)
    requires i < |name|
    ensures CleanFileName(name)[i] == if IsForbidden(name[i]) then '_' else name[i]
    decreases |name|
  {
    if i > 0 {
      CleanFileNameAt(name[1..], i - 1);
    }
  }

  /** A cleaned name contains none of the forbidden characters. */
  lemma {:induction false} CleanFileNameIsClean(name: string)
    ensures forall i :: 0 <= i < |CleanFileName(name)| ==> !IsForbidden(CleanFileName(name)[i])
  {
    forall i | 0 <= i < |name|
      ensures !IsForbidden(CleanFileName(name)[i])
    {
      CleanFileNameAt(name, i);
    }
  }

  /** A name without forbidden characters is returned unchanged. */
  lemma {:induction false} CleanFileNameKeepsCleanNames(name: string)
    requires forall i :: 0 <= i < |name| ==> !IsForbidden(name[i])
    ensures CleanFileName(name) == name
    decreases |name|
  {
    if |name| > 0 {
      CleanFileNameKeepsCleanNames(name[1..]);
      assert [name[0]] + name[1..] == name;
    }
  }

  /** Cleaning twice is cleaning once. */
  lemma CleanFileNameIdempotent(name: string)
    ensures CleanFileName(CleanFileName(name)) == CleanFileName(name)
  {
    CleanFileNameIsClean(name);
    CleanFileNameKeepsCleanNames(CleanFileName(name));
  }

  /** Python's `os.path.join(a, b)` on POSIX. */
  function PathJoin(a: string, b: string): string {
    if StartsWith(b, "/") then b
    else if |a| == 0 || a[|a| - 1] == '/' then a + b
    else a + "/" + b
  }

  /** A relative second component is appended below the first, separated by exactly one `/`. */
  lemma PathJoinRelative(a: string, b: string)
    requires |a| > 0 && a[|a| - 1] != '/'
    requires |b| == 0 || b[0] != '/'
    ensures PathJoin(a, b) == a + "/" + b
  {
  }

  /** The path of a cleaned name below a root is the root, one `/`, and the cleaned name. */
  lemma PathJoinClean(root: string, name: string, ext: string)
    requires |root| > 0 && root[|root| - 1] != '/'
    requires |ext| == 0 || ext[0] != '/'
    ensures PathJoin(root, CleanFileName(name) + ext) == root + "/" + CleanFileName(name) + ext
  {
    if |name| > 0 {
      CleanFileNameAt(name, 0);
      assert (CleanFileName(name) + ext)[0] == CleanFileName(name)[0];
    }
    PathJoinRelative(root, CleanFileName(name) + ext);
  }
}
