/**
  The file-name filter of iCFG/gene_cfg.py lines 151-156: a path is kept
  unless it contains one of the fixed "useless" fragments.
 */
module FileFilter {

  /** Fragments that mark a module the batch does not read. */
  const UselessFiles: seq<string> := ["__init__", "exception"]

  /** `p` occurs in `s` starting at position `i`. */
  predicate OccursAt(s: string, p: string, i: nat) {
    i + |p| <= |s| && s[i..i + |p|] == p
  }

  /** Reference definition of Python's `p in s` on strings. */
  ghost predicate IsSubstring(p: string, s: string) {
    exists i: nat :: OccursAt(s, p, i)
  }

  /** Occurrences of `p` in `s[1..]` are the occurrences in `s` shifted by one. */
  lemma OccursAtShift(s: string, p: string, i: nat)
    requires |s| > 0
    ensures OccursAt(s[1..], p, i) <==> OccursAt(s, p, i + 1)
  {
    if i + |p| <= |s| - 1 {
      assert s[1..][i..i + |p|] == s[i + 1..i + 1 + |p|];
    }
  }

  /** Substring search, trying each start position from the left. */
  function Contains(s: string, p: string): (r: bool)
    ensures r <==> IsSubstring(p, s)
    decreases |s|
  {
    if |s| < |p| then
      assert forall i: nat :: !OccursAt(s, p, i);
      false
    else if s[..|p|] == p then
      assert OccursAt(s, p, 0);
      true
    else
      var rest := Contains(s[1..], p);
      assert rest ==> IsSubstring(p, s) by {
        if rest {
          var i: nat :| OccursAt(s[1..], p, i);
          OccursAtShift(s, p, i);
        }
      }
      assert IsSubstring(p, s) ==> rest by {
        if IsSubstring(p, s) {
          var i: nat :| OccursAt(s, p, i);
          assert i != 0;
          OccursAtShift(s, p, i - 1);
        }
      }
      rest
  }

  /** True exactly when `input` contains none of the useless fragments. */
  method InvalidFilesCheck(input: string) returns (keep: bool)
    ensures keep <==> !IsSubstring("__init__", input) && !IsSubstring("exception", input)
  {
    for k := 0 to |UselessFiles|
      invariant forall m | 0 <= m < k :: !IsSubstring(UselessFiles[m], input)
    {
      if Contains(input, UselessFiles[k]) {
        assert UselessFiles[k] == "__init__" || UselessFiles[k] == "exception";
        return false;
      }
    }
    assert UselessFiles[0] == "__init__" && UselessFiles[1] == "exception";
    return true;
  }
}
