/** Which changed files are covered by the configured ignore patterns. */
module Ignore {
  import opened Fnmatch

  /** The file matches at least one of the patterns. */
  predicate IsIgnored(file: string, ignorePaths: seq<string>) {
    exists j :: 0 <= j < |ignorePaths| && Match(file, ignorePaths[j])
  }

  /** Every file matches some pattern; vacuously true when nothing changed. */
  predicate AllIgnored(changedFiles: seq<string>, ignorePaths: seq<string>) {
    forall i :: 0 <= i < |changedFiles| ==> IsIgnored(changedFiles[i], ignorePaths)
  }

  /**
   * `are_all_files_ignored`: an empty change list counts as all ignored (an
   * allow-empty commit); otherwise each file is tried against the patterns in turn,
   * and the answer is false as soon as one file matches none of them: the first such
   * file is preceded only by ignored ones.
   */
  method AreAllFilesIgnored(changedFiles: seq<string>, ignorePaths: seq<string>) returns (r: bool)
    ensures changedFiles == [] ==> r
    ensures r <==> AllIgnored(changedFiles, ignorePaths)
    ensures !r ==> exists i :: 0 <= i < |changedFiles| && !IsIgnored(changedFiles[i], ignorePaths) &&
                              forall k :: 0 <= k < i ==> IsIgnored(changedFiles[k], ignorePaths)
  {
    if changedFiles == [] {
      return true;
    }
    for i := 0 to |changedFiles|
      invariant forall k :: 0 <= k < i ==> IsIgnored(changedFiles[k], ignorePaths)
    {
      var f := changedFiles[i];
      var matched := false;
      for j := 0 to |ignorePaths|
        invariant !matched
        invariant forall l :: 0 <= l < j ==> !Match(f, ignorePaths[l])
      {
        if Match(f, ignorePaths[j]) {
          matched := true;
          break;
        }
      }
      if !matched {
        return false;
      }
    }
    return true;
  }

  /** With no patterns, a commit counts as all ignored only when it changed nothing. */
  lemma NoPatternsIgnoreNothing(changedFiles: seq<string>)
    ensures AllIgnored(changedFiles, []) <==> changedFiles == []
  {
    if changedFiles != [] {
      assert !IsIgnored(changedFiles[0], []);
    }
  }
}
