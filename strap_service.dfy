/** src/strap.sh/strap.sh.service.ts: removing the interpreter line from the
    bootstrap script, that is, replacing the first match of the regular
    expression `#!\/bin\/.+\n\n?` by nothing. */
module StrapShService {
  import opened Wrappers

  /** The characters a regular-expression `.` does not match. */
  predicate IsLineTerminator(c: char) {
    c == '\n' || c == '\r' || c == '\U{2028}' || c == '\U{2029}'
  }

  const Prefix: string := "#!/bin/"

  /** Where the run of non-terminators starting at `i` ends: the first line
      terminator at or after `i`, or the end of `s`. */
  function RunEnd(s: string, i: nat): (r: nat)
    requires i <= |s|
    ensures i <= r <= |s|
    ensures forall j :: i <= j < r ==> !IsLineTerminator(s[j])
    ensures r == |s| || IsLineTerminator(s[r])
    decreases |s| - i
  {
    if i == |s| || IsLineTerminator(s[i]) then i else RunEnd(s, i + 1)
  }

  /** The pattern matches `s[p..e]`, in any of the ways the regular
      expression allows at `p`: the prefix, a non-empty run of non-terminators
      ending at `m`, a newline, and optionally one more newline. */
  ghost predicate MatchesAt(s: string, p: nat, e: nat) {
    p + |Prefix| <= e <= |s| && s[p..p + |Prefix|] == Prefix &&
    exists m :: p + |Prefix| < m < e &&
      (forall j :: p + |Prefix| <= j < m ==> !IsLineTerminator(s[j])) &&
      s[m] == '\n' && (e == m + 1 || (e == m + 2 && s[m + 1] == '\n'))
  }

  /** The end of the match that the regular expression, tried at `p`, finds:
      `.+` takes the whole line, then the newline, then one more newline if
      there is one. */
  function MatchAt(s: string, p: nat): (r: Option<nat>)
    requires p <= |s|
  {
    if p + |Prefix| <= |s| && s[p..p + |Prefix|] == Prefix then
      var m := RunEnd(s, p + |Prefix|);
      if p + |Prefix| < m < |s| && s[m] == '\n' then
        Some(if m + 1 < |s| && s[m + 1] == '\n' then m + 2 else m + 1)
      else None
    else None
  }

  /** Tried at `p`, the regular expression finds the longest of the matches
      the pattern allows there, and finds none exactly when there is none. */
  lemma {:induction false} MatchAtIsGreedyMatch(s: string, p: nat)
    requires p <= |s|
    ensures MatchAt(s, p).Some? ==> MatchesAt(s, p, MatchAt(s, p).value)
    ensures forall e: nat :: MatchesAt(s, p, e) ==> MatchAt(s, p).Some? && e <= MatchAt(s, p).value
  {
    var start := p + |Prefix|;
    if MatchAt(s, p).Some? {
      var m := RunEnd(s, start);
      assert MatchesAt(s, p, MatchAt(s, p).value) by {
        assert start < m < MatchAt(s, p).value;
      }
    }
    forall e: nat | MatchesAt(s, p, e)
      ensures MatchAt(s, p).Some? && e <= MatchAt(s, p).value
    {
      var m :| start < m < e &&
        (forall j :: start <= j < m ==> !IsLineTerminator(s[j])) &&
        s[m] == '\n' && (e == m + 1 || (e == m + 2 && s[m + 1] == '\n'));
      RunEndIsFirstTerminator(s, start, m);
    }
  }

  /** A terminator at `m` with none between `i` and `m` is where the run ends. */
  lemma {:induction false} RunEndIsFirstTerminator(s: string, i: nat, m: nat)
    requires i <= m < |s| && IsLineTerminator(s[m])
    requires forall j :: i <= j < m ==> !IsLineTerminator(s[j])
    ensures RunEnd(s, i) == m
    decreases m - i
  {
    if i < m {
      RunEndIsFirstTerminator(s, i + 1, m);
    }
  }

  /** The leftmost match at or after `from`, as its start and end. */
  function FirstMatch(s: string, from: nat): (r: Option<(nat, nat)>)
    requires from <= |s|
    ensures r.Some? ==> from <= r.value.0 <= |s| && MatchAt(s, r.value.0) == Some(r.value.1)
    ensures r.Some? ==> forall q :: from <= q < r.value.0 ==> MatchAt(s, q).None?
    ensures r.None? ==> forall q :: from <= q <= |s| ==> MatchAt(s, q).None?
    decreases |s| - from
  {
    match MatchAt(s, from)
    case Some(e) => Some((from, e))
    case None => if from == |s| then None else FirstMatch(s, from + 1)
  }

  /** `removeShebang(script)`: the script without the first (leftmost) match
      of the pattern; the text before the match is kept, and a script with no
      match is returned unchanged. */
  function RemoveShebang(script: string): (r: string)
    ensures |r| <= |script|
    ensures FirstMatch(script, 0).None? ==> r == script
    ensures FirstMatch(script, 0).Some? ==>
      var (p, e) := FirstMatch(script, 0).value;
      p <= e <= |script| && r == script[..p] + script[e..]
  {
    match FirstMatch(script, 0)
    case None => script
    case Some((p, e)) => script[..p] + script[e..]
  }

  /** Stated against the pattern itself: without any match the script is
      unchanged; otherwise what is cut out is a match, the longest one at its
      start, and no match starts further left. */
  lemma RemoveShebangMeaning(script: string)
    ensures (forall p: nat, e: nat :: !MatchesAt(script, p, e)) ==> RemoveShebang(script) == script
    ensures FirstMatch(script, 0).Some? ==>
      var (p, e) := FirstMatch(script, 0).value;
      MatchesAt(script, p, e)
      && (forall e': nat :: MatchesAt(script, p, e') ==> e' <= e)
      && (forall q: nat, e': nat :: q < p ==> !MatchesAt(script, q, e'))
  {
    if FirstMatch(script, 0).Some? {
      var (p, e) := FirstMatch(script, 0).value;
      MatchAtIsGreedyMatch(script, p);
      forall q: nat, e': nat | q < p
        ensures !MatchesAt(script, q, e')
      {
        MatchAtIsGreedyMatch(script, q);
      }
    }
  }

  /** A match needs a newline: a script without one comes back unchanged, in
      particular one whose last line is an interpreter line with no newline
      after it. */
  lemma {:induction false} NoNewlineNoChange(script: string)
    requires '\n' !in script
    ensures RemoveShebang(script) == script
  {
  }

  /** A script that starts with an interpreter line `#!/bin/<line>`: the line
      and its newline are removed, and one more newline right after it if
      there is one; the rest is kept as is. */
  lemma {:induction false} LeadingShebangRemoved(line: string, rest: string)
    requires |line| > 0 && forall j :: 0 <= j < |line| ==> !IsLineTerminator(line[j])
    ensures |rest| > 0 && rest[0] == '\n' ==> RemoveShebang(Prefix + line + "\n" + rest) == rest[1..]
    ensures (|rest| == 0 || rest[0] != '\n') ==> RemoveShebang(Prefix + line + "\n" + rest) == rest
  {
    var s := Prefix + line + "\n" + rest;
    var m := |Prefix| + |line|;
    assert s[..|Prefix|] == Prefix;
    forall j | |Prefix| <= j < m ensures !IsLineTerminator(s[j]) {
      assert s[j] == line[j - |Prefix|];
    }
    RunEndIsFirstTerminator(s, |Prefix|, m);
    assert FirstMatch(s, 0) == Some((0, MatchAt(s, 0).value));
    if |rest| > 0 && rest[0] == '\n' {
      assert s[m + 2..] == rest[1..];
    } else {
      assert s[m + 1..] == rest;
    }
  }

  /** The script of the Bash example: the interpreter line goes, the rest
      stays. */
  lemma BashShebangRemoved()
    ensures RemoveShebang("#!/bin/bash\necho 'foo';\nexit 0;") == "echo 'foo';\nexit 0;"
  {
    var line, rest := "bash", "echo 'foo';\nexit 0;";
    assert "#!/bin/bash\necho 'foo';\nexit 0;" == Prefix + line + "\n" + rest;
    LeadingShebangRemoved(line, rest);
  }

  /** The example with a blank line after the interpreter line: the blank
      line goes with it. */
  lemma BlankLineAfterShebangRemoved()
    ensures RemoveShebang("#!/bin/sh\n\necho 'foo';\nexit 0;") == "echo 'foo';\nexit 0;"
  {
    var line, rest := "sh", "\necho 'foo';\nexit 0;";
    assert "#!/bin/sh\n\necho 'foo';\nexit 0;" == Prefix + line + "\n" + rest;
    assert rest[1..] == "echo 'foo';\nexit 0;";
    LeadingShebangRemoved(line, rest);
  }
}
