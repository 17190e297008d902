/**
 * Texts as lists of segments between separators.
 */
module Segments {
  function Split(s: string, sep: char): (segs: seq<string>)
    ensures |segs| > 0
    ensures forall k :: 0 <= k < |segs| ==> sep !in segs[k]
  {
    if s == "" then [""]
    else
      var t := Split(s[1..], sep);
      if s[0] == sep then [""] + t else [[s[0]] + t[0]] + t[1..]
  }

  function Join(segs: seq<string>, sep: char): string
    requires |segs| > 0
  {
    if |segs| == 1 then segs[0] else segs[0] + [sep] + Join(segs[1..], sep)
  }

  // Every text is its segments, so what is proved of segments is proved of the text.
  lemma {:induction false} JoinSplit(s: string, sep: char)
    ensures Join(Split(s, sep), sep) == s
  {
    if s != "" {
      JoinSplit(s[1..], sep);
      var t := Split(s[1..], sep);
      if s[0] == sep {
        assert ([""] + t)[1..] == t;
      } else {
        var u := [[s[0]] + t[0]] + t[1..];
        assert u[1..] == t[1..];
        assert Join(u, sep) == [s[0]] + Join(t, sep);
      }
    }
  }

  lemma {:induction false} SplitOne(s: string, sep: char)
    requires sep !in s
    ensures Split(s, sep) == [s]
  {
    if s != "" {
      SplitOne(s[1..], sep);
      assert s == [s[0]] + s[1..];
    }
  }

  lemma {:induction false} SplitConcat(a: string, b: string, sep: char)
    ensures Split(a + [sep] + b, sep) == Split(a, sep) + Split(b, sep)
  {
    var tail := [sep] + b;
    assert tail[1..] == b;
    if a == "" {
      assert a + [sep] + b == tail;
    } else {
      SplitConcat(a[1..], b, sep);
      assert a == [a[0]] + a[1..];
      assert a + [sep] + b == [a[0]] + (a[1..] + [sep] + b);
      SplitCons(a[0], a[1..] + [sep] + b, sep);
      SplitCons(a[0], a[1..], sep);
      ConsToHeadConcat(a[0], Split(a[1..], sep), Split(b, sep), sep);
    }
  }

  function ConsToHead(c: char, segs: seq<string>, sep: char): seq<string>
    requires |segs| > 0
  {
    if c == sep then [""] + segs else [[c] + segs[0]] + segs[1..]
  }

  lemma SplitCons(c: char, s: string, sep: char)
    ensures Split([c] + s, sep) == ConsToHead(c, Split(s, sep), sep)
  {
    assert ([c] + s)[1..] == s;
  }

  lemma ConsToHeadConcat(c: char, l: seq<string>, r: seq<string>, sep: char)
    requires |l| > 0
    ensures ConsToHead(c, l + r, sep) == ConsToHead(c, l, sep) + r
  {
  }

  lemma {:induction false} SplitJoin(segs: seq<string>, sep: char)
    requires |segs| > 0 && forall i :: 0 <= i < |segs| ==> sep !in segs[i]
    ensures Split(Join(segs, sep), sep) == segs
  {
    SplitOne(segs[0], sep);
    if |segs| > 1 {
      SplitJoin(segs[1..], sep);
      SplitConcat(segs[0], Join(segs[1..], sep), sep);
    }
  }
}
