/** The textual rewrite QString::replace(before, after) performs: every
    occurrence of `before`, found by a left-to-right scan that resumes after
    each match, is replaced by `after`. */
module StringReplace {

  /** True when `prefix` starts `s`. */
  predicate IsPrefix(prefix: string, s: string) {
    |prefix| <= |s| && s[..|prefix|] == prefix
  }

  /** True when `needle` occurs somewhere in `s` (the empty needle occurs everywhere). */
  predicate Occurs(needle: string, s: string)
    decreases |s|
  {
    IsPrefix(needle, s) || (|s| > 0 && Occurs(needle, s[1..]))
  }

  /** Every non-overlapping occurrence of `needle` in `s`, leftmost first, replaced
      by `repl`. An empty needle matches before every character and at the end,
      as it does for QString::replace. */
  function ReplaceAll(s: string, needle: string, repl: string): (r: string)
    // Nothing to replace: the string comes back as it was.
    ensures needle != [] && !Occurs(needle, s) ==> r == s
    // Replacing a needle by itself changes nothing (the shortcut QString takes).
    ensures needle == repl ==> r == s
    // A replacement as long as the needle keeps the length.
    ensures |needle| == |repl| ==> |r| == |s|
    decreases |s|
  {
    if needle == [] then
      if s == [] then repl else repl + [s[0]] + ReplaceAll(s[1..], needle, repl)
    else if IsPrefix(needle, s) then
      repl + ReplaceAll(s[|needle|..], needle, repl)
    else if s == [] then
      []
    else
      [s[0]] + ReplaceAll(s[1..], needle, repl)
  }

  /** A string shorter than the needle holds no occurrence of it. */
  lemma {:induction false} ShortHasNoOccurrence(needle: string, s: string)
    requires |s| < |needle|
    ensures !Occurs(needle, s)
  {
    if |s| > 0 {
      ShortHasNoOccurrence(needle, s[1..]);
    }
  }

  /** A leading occurrence is replaced and the scan resumes right after it. */
  lemma ReplaceLeading(needle: string, rest: string, repl: string)
    requires needle != []
    ensures ReplaceAll(needle + rest, needle, repl) == repl + ReplaceAll(rest, needle, repl)
  {
    assert IsPrefix(needle, needle + rest);
    assert (needle + rest)[|needle|..] == rest;
  }

  /** Rewriting a string that is the needle followed by a tail free of the needle
      yields the replacement followed by that same tail. */
  lemma ReplaceLeadingOnly(needle: string, rest: string, repl: string)
    requires needle != [] && !Occurs(needle, rest)
    ensures ReplaceAll(needle + rest, needle, repl) == repl + rest
  {
    ReplaceLeading(needle, rest, repl);
  }

  /** The pieces of `parts` with `sep` between each two neighbours. */
  function Join(parts: seq<string>, sep: string): string
    decreases |parts|
  {
    if |parts| == 0 then []
    else if |parts| == 1 then parts[0]
    else parts[0] + sep + Join(parts[1..], sep)
  }

  /** No match of `needle` starts inside `part` when `part` is followed by the
      needle: neither within `part` nor straddling into the needle after it. */
  predicate CleanBefore(needle: string, part: string)
    requires needle != []
  {
    !Occurs(needle, part + needle[..|needle| - 1])
  }

  /** Where the needle does not start, the scan keeps one character and moves on. */
  lemma ReplaceSkipsOne(s: string, needle: string, repl: string)
    requires needle != [] && s != [] && !IsPrefix(needle, s)
    ensures ReplaceAll(s, needle, repl) == [s[0]] + ReplaceAll(s[1..], needle, repl)
  {
  }

  /** The needle does not start a clean part followed by the needle, and the rest
      of the part is clean too. */
  lemma CleanPartStep(part: string, needle: string, tail: string)
    requires needle != [] && part != [] && CleanBefore(needle, part)
    ensures !IsPrefix(needle, part + needle + tail)
    ensures CleanBefore(needle, part[1..])
    ensures (part + needle + tail)[0] == part[0]
    ensures (part + needle + tail)[1..] == part[1..] + needle + tail
  {
    var n := |needle|;
    var c := part + needle[..n - 1];
    var s := part + needle + tail;
    assert s[..n] == c[..n];
    assert c[1..] == part[1..] + needle[..n - 1];
  }

  /** Putting a part's first character back in front of the rest of it. */
  lemma ConsBack(part: string, r: string)
    requires part != []
    ensures [part[0]] + (part[1..] + r) == part + r
  {
    assert part == [part[0]] + part[1..];
  }

  /** The scan passes over a clean part unchanged and reaches the needle after it. */
  lemma {:induction false} ScanSkipsClean(part: string, needle: string, tail: string, repl: string)
    requires needle != [] && CleanBefore(needle, part)
    ensures ReplaceAll(part + needle + tail, needle, repl) == part + ReplaceAll(needle + tail, needle, repl)
    decreases |part|
  {
    if part == [] {
      assert part + needle + tail == needle + tail;
    } else {
      CleanPartStep(part, needle, tail);
      ReplaceSkipsOne(part + needle + tail, needle, repl);
      ScanSkipsClean(part[1..], needle, tail, repl);
      ConsBack(part, ReplaceAll(needle + tail, needle, repl));
    }
  }

  /** Every occurrence is replaced: a string made of needle-free parts separated
      by the needle, with no match straddling a separator, becomes the same
      parts separated by the replacement. */
  lemma {:induction false} ReplaceJoin(parts: seq<string>, needle: string, repl: string)
    requires needle != []
    requires forall i :: 0 <= i < |parts| - 1 ==> CleanBefore(needle, parts[i])
    requires |parts| > 0 ==> !Occurs(needle, parts[|parts| - 1])
    ensures ReplaceAll(Join(parts, needle), needle, repl) == Join(parts, repl)
    decreases |parts|
  {
    if |parts| >= 2 {
      var rest := Join(parts[1..], needle);
      assert Join(parts, needle) == parts[0] + needle + rest;
      ScanSkipsClean(parts[0], needle, rest, repl);
      ReplaceLeading(needle, rest, repl);
      ReplaceJoin(parts[1..], needle, repl);
      assert Join(parts, repl) == parts[0] + repl + Join(parts[1..], repl);
    }
  }

  /** Two cases of the scan: both occurrences replaced, and a match consumes its
      characters so an overlapping one is not found. */
  lemma ReplaceExamples()
    ensures ReplaceAll("abxab", "ab", "Z") == "ZxZ"
    ensures ReplaceAll("aaa", "aa", "Z") == "Za"
  {
    var parts: seq<string> := ["", "x", ""];
    assert CleanBefore("ab", parts[0]) by { ShortHasNoOccurrence("ab", "a"); }
    assert CleanBefore("ab", parts[1]) by {
      var c := "x" + "ab"[..1];
      assert c[0] == 'x';
      assert !IsPrefix("ab", c);
      assert c[1..] == "a";
      ShortHasNoOccurrence("ab", "a");
    }
    assert !Occurs("ab", parts[2]);
    ReplaceJoin(parts, "ab", "Z");
    assert Join(parts, "ab") == "abxab";
    assert Join(parts, "Z") == "ZxZ";
    ReplaceLeadingOnly("aa", "a", "Z");
  }
}
