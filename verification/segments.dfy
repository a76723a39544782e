/** Splitting a resource path on a separator character, as Python's
    `str.split(sep)` does, and the last segment of such a split, which the
    handler takes as the document id (`resource_string.split('/')[-1]`). */
module Segments {

  /** The last element of a non-empty sequence (Python's `xs[-1]`) */
  function Last<T>(xs: seq<T>): T
    requires |xs| > 0
  {
    xs[|xs| - 1]
  }

  /** `s.split(sep)`: the maximal runs of `s` between occurrences of `sep`.
      There is always at least one segment (`"".split('/') == [""]`), no
      segment contains the separator, and the last segment is the suffix of
      `s` after its last separator. Defined by peeling off the last
      character, so that the last segment is the one built directly. */
  function Split(s: string, sep: char): (parts: seq<string>)
    ensures |parts| >= 1
    decreases |s|
  {
    if |s| == 0 then [""]
    else
      var init := Split(s[..|s| - 1], sep);
      var c := s[|s| - 1];
      if c == sep then init + [""]
      else init[..|init| - 1] + [Last(init) + [c]]
  }

  /** `l` is the text of `s` after its last `sep`: a suffix of `s` that is
      either all of `s` or directly preceded by a separator. */
  predicate IsTail(s: string, l: string, sep: char)
  {
    && |l| <= |s|
    && l == s[|s| - |l|..]
    && (|l| < |s| ==> s[|s| - |l| - 1] == sep)
  }

  lemma TailAfterSep(s: string, sep: char)
    ensures IsTail(s + [sep], "", sep)
  {
  }

  lemma TailGrow(s: string, l: string, c: char, sep: char)
    requires IsTail(s, l, sep)
    ensures IsTail(s + [c], l + [c], sep)
  {
    var t := s + [c];
    assert t[|t| - |l| - 1..] == s[|s| - |l|..] + [c];
    if |l| < |s| {
      assert t[|t| - |l| - 2] == s[|s| - |l| - 1];
    }
  }

  /** A non-empty string is its prefix followed by its last character. */
  lemma Snoc(s: string)
    requires |s| > 0
    ensures s == s[..|s| - 1] + [s[|s| - 1]]
  {
  }

  /** The inductive step of `LastSegmentIsTail`, one character at a time. */
  lemma LastSegmentStep(s: string, c: char, sep: char)
    requires IsTail(s, Last(Split(s, sep)), sep)
    ensures IsTail(s + [c], Last(Split(s + [c], sep)), sep)
  {
    if c == sep {
      SplitSnocSep(s, sep);
      TailAfterSep(s, sep);
    } else {
      SplitSnocOther(s, c, sep);
      TailGrow(s, Last(Split(s, sep)), c, sep);
    }
  }

  /** The last segment of a split is the tail of the string after its last
      separator. */
  lemma {:induction false} LastSegmentIsTail(s: string, sep: char)
    ensures IsTail(s, Last(Split(s, sep)), sep)
    decreases |s|
  {
    if |s| > 0 {
      var s' := s[..|s| - 1];
      var c := s[|s| - 1];
      Snoc(s);
      LastSegmentIsTail(s', sep);
      LastSegmentStep(s', c, sep);
    }
  }

  /** No segment of a split holds the separator. */
  lemma {:induction false} SplitSegmentsFree(s: string, sep: char)
    ensures forall i :: 0 <= i < |Split(s, sep)| ==> sep !in Split(s, sep)[i]
    decreases |s|
  {
    if |s| > 0 {
      var s' := s[..|s| - 1];
      var c := s[|s| - 1];
      SplitSegmentsFree(s', sep);
      Snoc(s);
      if c == sep {
        SplitSnocSep(s', sep);
      } else {
        SplitSnocOther(s', c, sep);
      }
    }
  }

  /** `sep.join(parts)`: the segments glued back together with `sep` */
  function Join(parts: seq<string>, sep: char): (s: string)
    requires |parts| >= 1
    decreases |parts|
  {
    if |parts| == 1 then parts[0]
    else Join(parts[..|parts| - 1], sep) + [sep] + Last(parts)
  }

  /** The document id derived from a resource path: the segment after the
      last `/`, the whole path when it holds no `/`, and the empty string
      when the path ends with `/`. */
  function DocIdOf(subject: string): (id: string)
    ensures '/' !in id
    ensures |id| <= |subject| && subject[|subject| - |id|..] == id
    ensures |id| < |subject| ==> subject[|subject| - |id| - 1] == '/'
    ensures '/' !in subject ==> id == subject
  {
    LastSegmentIsTail(subject, '/');
    SplitSegmentsFree(subject, '/');
    Last(Split(subject, '/'))
  }

  /** Any suffix with no separator that follows a separator (or starts the
      string) is exactly the last segment: the three suffix facts of
      `DocIdOf` characterise it uniquely. */
  lemma LastSegmentUnique(s: string, id: string)
    requires '/' !in id
    requires |id| <= |s| && s[|s| - |id|..] == id
    requires |id| < |s| ==> s[|s| - |id| - 1] == '/'
    ensures DocIdOf(s) == id
  {
  }

  /** The document id of `prefix + "/" + id` is `id` whenever `id` holds
      no `/`: whatever comes before the last separator is irrelevant. */
  lemma DocIdOfAppended(prefix: string, id: string)
    requires '/' !in id
    ensures DocIdOf(prefix + "/" + id) == id
  {
    var s := prefix + "/" + id;
    assert s[|s| - |id|..] == id;
    assert s[|s| - |id| - 1] == '/';
    LastSegmentUnique(s, id);
  }

  /** Replacing the last segment's growth by one character commutes with
      joining. */
  lemma {:induction false} JoinGrowLast(front: seq<string>, x: string, c: char, sep: char)
    ensures Join(front + [x + [c]], sep) == Join(front + [x], sep) + [c]
  {
    var a := front + [x + [c]];
    var b := front + [x];
    if |front| == 0 {
      assert a == [x + [c]] && b == [x];
    } else {
      assert a[..|a| - 1] == front && b[..|b| - 1] == front;
    }
  }

  /** One step of `Split`: a separator added at the end opens a new, empty
      last segment. */
  lemma SplitSnocSep(s: string, sep: char)
    ensures Split(s + [sep], sep) == Split(s, sep) + [""]
  {
    var t := s + [sep];
    assert t[..|t| - 1] == s;
  }

  /** One step of `Split`: any other character added at the end extends the
      last segment. */
  lemma SplitSnocOther(s: string, c: char, sep: char)
    requires c != sep
    ensures Split(s + [c], sep) == Split(s, sep)[..|Split(s, sep)| - 1] + [Last(Split(s, sep)) + [c]]
  {
    var t := s + [c];
    assert t[..|t| - 1] == s;
  }

  /** The inductive step of `SplitAppend`, one character at a time. */
  lemma SplitAppendStep(y: string, c: char, sep: char, front: seq<string>, last: string)
    requires c != sep
    requires Split(y, sep) == front + [last]
    ensures Split(y + [c], sep) == front + [last + [c]]
  {
    SplitSnocOther(y, c, sep);
    var q := front + [last];
    assert q[..|q| - 1] == front;
  }

  /** Appending separator-free text to a string only extends its last
      segment. */
  lemma {:induction false} SplitAppend(x: string, b: string, sep: char)
    requires sep !in b
    ensures Split(x + b, sep) == Split(x, sep)[..|Split(x, sep)| - 1] + [Last(Split(x, sep)) + b]
    decreases |b|
  {
    var p := Split(x, sep);
    var front := p[..|p| - 1];
    if |b| == 0 {
      assert x + b == x;
      assert p == front + [Last(p)];
      assert Last(p) + b == Last(p);
    } else {
      var b' := b[..|b| - 1];
      var c := b[|b| - 1];
      assert c in b;
      Snoc(b);
      SplitAppend(x, b', sep);
      SplitAppendStep(x + b', c, sep, front, Last(p) + b');
      assert x + b == (x + b') + [c];
      assert (Last(p) + b') + [c] == Last(p) + b;
    }
  }

  /** One step of `Join`: one more segment adds a separator and the segment. */
  lemma JoinSnoc(front: seq<string>, x: string, sep: char)
    requires |front| >= 1
    ensures Join(front + [x], sep) == Join(front, sep) + [sep] + x
  {
    var a := front + [x];
    assert a[..|a| - 1] == front;
  }

  /** Joining the segments of a split gives back the original string. */
  lemma {:induction false} JoinSplit(s: string, sep: char)
    ensures Join(Split(s, sep), sep) == s
    decreases |s|
  {
    if |s| > 0 {
      var s' := s[..|s| - 1];
      var c := s[|s| - 1];
      Snoc(s);
      var init := Split(s', sep);
      JoinSplit(s', sep);
      if c == sep {
        SplitSnocSep(s', sep);
        JoinSnoc(init, "", sep);
        assert s' + [sep] + "" == s;
      } else {
        SplitSnocOther(s', c, sep);
        var front := init[..|init| - 1];
        assert front + [Last(init)] == init;
        JoinGrowLast(front, Last(init), c, sep);
      }
    }
  }

  /** The inductive step of `SplitJoin`, one segment at a time. */
  lemma SplitJoinStep(front: seq<string>, x: string, sep: char)
    requires |front| >= 1
    requires sep !in x
    requires Split(Join(front, sep), sep) == front
    ensures Split(Join(front + [x], sep), sep) == front + [x]
  {
    var j := Join(front, sep);
    JoinSnoc(front, x, sep);
    SplitSnocSep(j, sep);
    SplitAppend(j + [sep], x, sep);
    assert (front + [""])[..|front|] == front;
    assert Last(front + [""]) + x == x;
  }

  /** Splitting the join of separator-free segments gives back the
      segments: with `JoinSplit`, Split and Join are mutually inverse. */
  lemma {:induction false} SplitJoin(parts: seq<string>, sep: char)
    requires |parts| >= 1
    requires forall i :: 0 <= i < |parts| ==> sep !in parts[i]
    ensures Split(Join(parts, sep), sep) == parts
    decreases |parts|
  {
    if |parts| == 1 {
      SplitAppend("", parts[0], sep);
      assert "" + parts[0] == parts[0];
      assert Split("", sep) == [""];
    } else {
      var front := parts[..|parts| - 1];
      var x := Last(parts);
      assert parts == front + [x];
      assert sep !in x;
      SplitJoin(front, sep);
      SplitJoinStep(front, x, sep);
    }
  }
}
