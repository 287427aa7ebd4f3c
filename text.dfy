/**
 * The string operations the bot relies on: `startsWith`, removal of every
 * occurrence of a literal pattern (`replace(new RegExp(pat, 'g'), '')` with a
 * pattern free of regular-expression metacharacters), and `split` on a single
 * separator character together with its inverse `Join`.
 */
module Text {

  /** `s` begins with `prefix`, as `String.prototype.startsWith` decides. */
  predicate StartsWith(s: string, prefix: string)
  {
    |prefix| <= |s| && s[..|prefix|] == prefix
  }

  /** `pat` appears in `s` starting at index `i`. */
  predicate OccursAt(s: string, pat: string, i: nat)
  {
    i + |pat| <= |s| && s[i..i + |pat|] == pat
  }

  ghost predicate Occurs(s: string, pat: string)
  {
    exists i: nat :: OccursAt(s, pat, i)
  }

  /**
   * Global replacement of `pat` by the empty string. The scan goes left to
   * right, takes non-overlapping matches and never looks at the text a removal
   * brings together, which is how a global regular expression replace works.
   */
  function RemoveAll(s: string, pat: string): (r: string)
    requires pat != []
    ensures |r| <= |s|
    decreases |s|
  {
    if |s| < |pat| then s
    else if s[..|pat|] == pat then RemoveAll(s[|pat|..], pat)
    else [s[0]] + RemoveAll(s[1..], pat)
  }

  lemma OccursAtTail(s: string, pat: string, i: nat)
    requires |s| > 0 && OccursAt(s[1..], pat, i)
    ensures OccursAt(s, pat, i + 1)
  {
    assert s[1..][i..i + |pat|] == s[i + 1..i + 1 + |pat|];
  }

  /** A text in which the pattern never occurs comes back unchanged. */
  lemma {:induction false} RemoveAllWithoutMatch(s: string, pat: string)
    requires pat != [] && !Occurs(s, pat)
    ensures RemoveAll(s, pat) == s
    decreases |s|
  {
    if |s| >= |pat| {
      assert !OccursAt(s, pat, 0);
      assert s[..|pat|] != pat;
      forall i: nat | OccursAt(s[1..], pat, i)
        ensures false
      {
        OccursAtTail(s, pat, i);
      }
      RemoveAllWithoutMatch(s[1..], pat);
      assert s == [s[0]] + s[1..];
    }
  }

  /** A text in which the pattern occurs somewhere gets strictly shorter. */
  lemma {:induction false} RemoveAllWithMatch(s: string, pat: string, i: nat)
    requires pat != [] && OccursAt(s, pat, i)
    ensures |RemoveAll(s, pat)| < |s|
    decreases |s|
  {
    if s[..|pat|] != pat {
      assert i != 0;
      assert s[1..][i - 1..i - 1 + |pat|] == s[i..i + |pat|];
      RemoveAllWithMatch(s[1..], pat, i - 1);
    }
  }

  /** Removal changes the text exactly when the pattern occurs in it. */
  lemma RemoveAllUnchangedIff(s: string, pat: string)
    requires pat != []
    ensures RemoveAll(s, pat) == s <==> !Occurs(s, pat)
  {
    if Occurs(s, pat) {
      var i: nat :| OccursAt(s, pat, i);
      RemoveAllWithMatch(s, pat, i);
    } else {
      RemoveAllWithoutMatch(s, pat);
    }
  }

  /** A text that starts with the pattern loses at least that one copy of it. */
  lemma RemoveAllLeading(s: string, pat: string)
    requires pat != []
    ensures StartsWith(s, pat) ==> RemoveAll(s, pat) == RemoveAll(s[|pat|..], pat)
    ensures StartsWith(s, pat) ==> |RemoveAll(s, pat)| <= |s| - |pat|
  {
  }

  /**
   * `s.split(sep)`: the pieces between separators, empty pieces included, so
   * that there is always one piece more than there are separators.
   */
  function Split(s: string, sep: char): (parts: seq<string>)
    ensures |parts| >= 1
    ensures |parts| > 1 <==> sep in s
    ensures forall k :: 0 <= k < |parts| ==> sep !in parts[k]
    decreases |s|
  {
    if s == [] then [[]]
    else
      var rest := Split(s[1..], sep);
      if s[0] == sep then [[]] + rest
      else [[s[0]] + rest[0]] + rest[1..]
  }

  /** The inverse of `Split`: the pieces glued back with the separator. */
  function Join(parts: seq<string>, sep: char): string
    requires |parts| >= 1
    decreases |parts|
  {
    if |parts| == 1 then parts[0] else parts[0] + [sep] + Join(parts[1..], sep)
  }

  /** Splitting loses nothing: joining the pieces gives the text back. */
  lemma {:induction false} SplitThenJoin(s: string, sep: char)
    ensures Join(Split(s, sep), sep) == s
    decreases |s|
  {
    if s != [] {
      var rest := Split(s[1..], sep);
      SplitThenJoin(s[1..], sep);
      if s[0] == sep {
        assert ([[]] + rest)[1..] == rest;
      } else {
        JoinExtendFirst(s[0], rest, sep);
      }
      assert s == [s[0]] + s[1..];
    }
  }

  /** Putting a character in front of the first piece puts it in front of the joined text. */
  lemma JoinExtendFirst(c: char, parts: seq<string>, sep: char)
    requires |parts| >= 1
    ensures Join([[c] + parts[0]] + parts[1..], sep) == [c] + Join(parts, sep)
  {
    var ext := [[c] + parts[0]] + parts[1..];
    assert ext[0] == [c] + parts[0] && ext[1..] == parts[1..];
  }

  /** A text without the separator is one piece. */
  lemma {:induction false} SplitWithoutSep(s: string, sep: char)
    requires sep !in s
    ensures Split(s, sep) == [s]
    decreases |s|
  {
    if s != [] {
      SplitWithoutSep(s[1..], sep);
      assert s == [s[0]] + s[1..];
    }
  }

  /** A separator-free field followed by the separator is split off as the first piece. */
  lemma {:induction false} SplitField(a: string, b: string, sep: char)
    requires sep !in a
    ensures Split(a + [sep] + b, sep) == [a] + Split(b, sep)
    decreases |a|
  {
    var s := a + [sep] + b;
    if a == [] {
      assert s[1..] == b;
    } else {
      assert s[1..] == a[1..] + [sep] + b;
      SplitField(a[1..], b, sep);
      assert [s[0]] + a[1..] == a;
    }
  }

  /** Joining separator-free pieces and splitting again gives the same pieces. */
  lemma {:induction false} JoinThenSplit(parts: seq<string>, sep: char)
    requires |parts| >= 1
    requires forall k :: 0 <= k < |parts| ==> sep !in parts[k]
    ensures Split(Join(parts, sep), sep) == parts
    decreases |parts|
  {
    if |parts| == 1 {
      SplitWithoutSep(parts[0], sep);
    } else {
      JoinThenSplit(parts[1..], sep);
      SplitField(parts[0], Join(parts[1..], sep), sep);
      assert [parts[0]] + parts[1..] == parts;
    }
  }

  /** One step of the scan past a character that cannot begin a match. */
  lemma RemoveAllSkip(s: string, pat: string)
    requires pat != [] && |s| > 0 && s[0] != pat[0]
    ensures RemoveAll(s, pat) == [s[0]] + RemoveAll(s[1..], pat)
  {
    if |s| >= |pat| {
      assert s[..|pat|][0] != pat[0];
    }
  }

  /** A match at the front is removed and the scan resumes after it. */
  lemma RemoveAllMatch(pat: string, rest: string)
    requires pat != []
    ensures RemoveAll(pat + rest, pat) == RemoveAll(rest, pat)
  {
    assert (pat + rest)[..|pat|] == pat && (pat + rest)[|pat|..] == rest;
  }

  /** Characters none of which can begin a match are copied to the result. */
  lemma {:induction false} RemoveAllCopies(a: string, rest: string, pat: string)
    requires pat != [] && pat[0] !in a
    ensures RemoveAll(a + rest, pat) == a + RemoveAll(rest, pat)
    decreases |a|
  {
    if a != [] {
      RemoveAllSkip(a + rest, pat);
      assert (a + rest)[1..] == a[1..] + rest;
      RemoveAllCopies(a[1..], rest, pat);
      assert [a[0]] + a[1..] == a;
    } else {
      assert a + rest == rest;
    }
  }

  /**
   * Removal does not rescan: with the pattern `:twitter:`, the copy that a
   * removal brings together in `:twit` + `:twitter:` + `ter:` survives.
   */
  lemma RemovalDoesNotRescan(pat: string, s: string)
    requires pat == ":twitter:" && s == pat[..5] + pat + pat[5..]
    ensures RemoveAll(s, pat) == pat
  {
    var tail := pat[5..];
    RemoveAllMatch(pat, tail);
    RemoveAllCopies(pat[1..5], pat + tail, pat);
    assert s[..|pat|] != pat by { assert s[5] != pat[5]; }
    assert s[1..] == pat[1..5] + (pat + tail);
    assert [s[0]] + pat[1..5] + tail == pat;
  }
}
