/** `String.prototype.split` and `Array.prototype.join` for a fixed separator. */
module Text {

  /** Leftmost, non-overlapping split, as in JavaScript: `"a:::b".split("::")` is `["a", ":b"]`. */
  function Split(s: string, sep: string): (r: seq<string>)
    requires sep != ""
    ensures |r| >= 1
    decreases |s|
  {
    if s == "" then [""]
    else if sep <= s then [""] + Split(s[|sep|..], sep)
    else
      var rest := Split(s[1..], sep);
      [[s[0]] + rest[0]] + rest[1..]
  }

  function Join(parts: seq<string>, sep: string): string {
    if parts == [] then ""
    else if |parts| == 1 then parts[0]
    else parts[0] + sep + Join(parts[1..], sep)
  }

  /** `p` followed by the separator is cut exactly at the end of `p`. */
  predicate Clean(p: string, sep: string) {
    p == "" || (!(sep <= p + sep) && Clean(p[1..], sep))
  }

  /** The separator does not occur in `p`. */
  predicate Free(p: string, sep: string) {
    p == "" || (!(sep <= p) && Free(p[1..], sep))
  }

  /** The lists that a split can give back. */
  predicate CleanParts(parts: seq<string>, sep: string) {
    && |parts| >= 1
    && (forall i :: 0 <= i < |parts| - 1 ==> Clean(parts[i], sep))
    && Free(parts[|parts| - 1], sep)
  }

  lemma JoinCons(p: string, rest: seq<string>, sep: string)
    requires rest != []
    ensures Join([p] + rest, sep) == p + sep + Join(rest, sep)
  {
    assert ([p] + rest)[1..] == rest;
  }

  /** A character put in front of the first part comes out in front of the joined string. */
  lemma JoinAfterPrepend(c: char, parts: seq<string>, sep: string)
    requires parts != []
    ensures Join([[c] + parts[0]] + parts[1..], sep) == [c] + Join(parts, sep)
  {
    if |parts| > 1 {
      JoinCons([c] + parts[0], parts[1..], sep);
      assert [c] + parts[0] + sep + Join(parts[1..], sep) == [c] + (parts[0] + sep + Join(parts[1..], sep));
    }
  }

  lemma JoinAfterEmpty(rest: seq<string>, sep: string)
    requires rest != []
    ensures Join([""] + rest, sep) == sep + Join(rest, sep)
  {
    JoinCons("", rest, sep);
    EmptyFirst(sep);
  }

  lemma EmptyFirst(s: string)
    ensures "" + s == s
  {
  }

  lemma PrefixFirst(s: string, sep: string)
    requires sep <= s
    ensures sep + s[|sep|..] == s
  {
  }

  lemma JoinAfterSeparator(s: string, rest: seq<string>, sep: string)
    requires sep <= s && rest != [] && Join(rest, sep) == s[|sep|..]
    ensures Join([""] + rest, sep) == s
  {
    JoinAfterEmpty(rest, sep);
    PrefixFirst(s, sep);
  }

  lemma JoinAfterChar(s: string, rest: seq<string>, sep: string)
    requires s != "" && rest != [] && Join(rest, sep) == s[1..]
    ensures Join([[s[0]] + rest[0]] + rest[1..], sep) == s
  {
    JoinAfterPrepend(s[0], rest, sep);
  }

  lemma {:induction false} JoinOfSplit(s: string, sep: string)
    requires sep != ""
    ensures Join(Split(s, sep), sep) == s
    decreases |s|
  {
    if s == "" {
    } else if sep <= s {
      JoinOfSplit(s[|sep|..], sep);
      JoinAfterSeparator(s, Split(s[|sep|..], sep), sep);
    } else {
      JoinOfSplit(s[1..], sep);
      JoinAfterChar(s, Split(s[1..], sep), sep);
    }
  }

  /** Where the first separator of a split string starts. */
  lemma FirstPartIsPrefix(s: string, sep: string)
    requires sep != ""
    ensures Split(s, sep)[0] <= s
    ensures |Split(s, sep)| > 1 ==> Split(s, sep)[0] + sep <= s
    ensures |Split(s, sep)| == 1 ==> Split(s, sep)[0] == s
  {
    JoinOfSplit(s, sep);
    var parts := Split(s, sep);
    if |parts| > 1 {
      assert s == (parts[0] + sep) + Join(parts[1..], sep);
    }
  }

  lemma PrependKeepsCleanParts(c: char, rest: seq<string>, sep: string)
    requires CleanParts(rest, sep)
    requires if |rest| > 1 then !(sep <= [c] + rest[0] + sep) else !(sep <= [c] + rest[0])
    ensures CleanParts([[c] + rest[0]] + rest[1..], sep)
  {
    var head := [c] + rest[0];
    assert head[1..] == rest[0];
    var all := [head] + rest[1..];
    forall i | 0 <= i < |all| - 1
      ensures Clean(all[i], sep)
    {
      assert i > 0 ==> all[i] == rest[i];
    }
  }

  lemma {:induction false} SplitGivesCleanParts(s: string, sep: string)
    requires sep != ""
    ensures CleanParts(Split(s, sep), sep)
    decreases |s|
  {
    if s == "" {
    } else if sep <= s {
      SplitGivesCleanParts(s[|sep|..], sep);
      var rest := Split(s[|sep|..], sep);
      assert Split(s, sep) == [""] + rest;
    } else {
      var rest := Split(s[1..], sep);
      SplitGivesCleanParts(s[1..], sep);
      FirstPartIsPrefix(s, sep);
      PrependKeepsCleanParts(s[0], rest, sep);
    }
  }

  lemma {:induction false} SplitCutsCleanPart(p: string, rest: string, sep: string)
    requires sep != "" && Clean(p, sep)
    ensures Split(p + sep + rest, sep) == [p] + Split(rest, sep)
  {
    var s := p + sep + rest;
    if p == "" {
      assert s[|sep|..] == rest && sep <= s;
    } else {
      assert s[1..] == p[1..] + sep + rest;
      SplitCutsCleanPart(p[1..], rest, sep);
      assert s[..|p + sep|] == p + sep;
      assert p == [p[0]] + p[1..];
    }
  }

  lemma {:induction false} SplitOfFree(p: string, sep: string)
    requires sep != "" && Free(p, sep)
    ensures Split(p, sep) == [p]
  {
    if p != "" {
      SplitOfFree(p[1..], sep);
      assert p == [p[0]] + p[1..];
    }
  }

  lemma {:induction false} SplitOfCleanJoin(parts: seq<string>, sep: string)
    requires sep != "" && CleanParts(parts, sep)
    ensures Split(Join(parts, sep), sep) == parts
  {
    if |parts| == 1 {
      SplitOfFree(parts[0], sep);
    } else {
      SplitCutsCleanPart(parts[0], Join(parts[1..], sep), sep);
      SplitOfCleanJoin(parts[1..], sep);
    }
  }

  /** Joining and splitting again is lossless for exactly the clean lists. */
  lemma SplitInvertsJoinExactly(parts: seq<string>, sep: string)
    requires sep != "" && |parts| >= 1
    ensures Split(Join(parts, sep), sep) == parts <==> CleanParts(parts, sep)
  {
    SplitGivesCleanParts(Join(parts, sep), sep);
    if CleanParts(parts, sep) {
      SplitOfCleanJoin(parts, sep);
    }
  }

  /** For a one-character separator both conditions say that the character does not occur. */
  lemma {:induction false} CleanForOneChar(p: string, c: char)
    ensures Clean(p, [c]) <==> c !in p
    ensures Free(p, [c]) <==> c !in p
  {
    if p != "" {
      CleanForOneChar(p[1..], c);
      assert p == [p[0]] + p[1..];
      assert (p + [c])[0] == p[0];
      assert [c] <= p + [c] <==> (p + [c])[0] == c;
      assert [c] <= p <==> p[0] == c;
    }
  }

  /** `s.includes(sub)`. */
  predicate Includes(s: string, sub: string) {
    exists i :: 0 <= i <= |s| && sub <= s[i..]
  }

  lemma IncludesMiddle(a: string, b: string, c: string)
    ensures Includes(a + b + c, b)
  {
    var s := a + b + c;
    assert s[|a|..] == b + c;
    assert b <= s[|a|..];
  }
}
