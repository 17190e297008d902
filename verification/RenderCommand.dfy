/**
 * The render process command line: printed by `AafwkAppMgrClientAdapterImpl::StartChildProcess`,
 * taken apart again by `ExtractAndRemoveParam` and `UpdateAppInfoFromCmdline`.
 *
 * The key to all proofs is to look at a command line as the list of its '#'-separated segments:
 * an extraction then removes exactly one segment.
 */
module RenderCommand {
  import opened Options
  import opened Segments
  import opened Sequences
  import Decimal

  const ENGINE_VERSION_KEY := "--appEngineVersion="
  const BUNDLE_NAME_KEY := "--appBundleName="
  const API_VERSION_KEY := "--appApiVersion="
  const APP_VERSION_KEY := "--appVersion="

  const APP_ENGINE_VERSION_PREFIX := "#" + ENGINE_VERSION_KEY
  const APP_BUNDLE_NAME_PREFIX := "#" + BUNDLE_NAME_KEY
  const APP_API_VERSION_PREFIX := "#" + API_VERSION_KEY
  const APP_VERSION_PREFIX := "#" + APP_VERSION_KEY

  predicate HashFree(s: string) { '#' !in s }

  // ----- the two std::string searches -----

  predicate OccursAt(s: string, p: string, i: int) {
    0 <= i && i + |p| <= |s| && s[i..i + |p|] == p
  }

  // std::string::rfind
  function RFind(s: string, p: string): (r: Option<nat>)
    ensures r.Some? ==> OccursAt(s, p, r.value) && forall i :: OccursAt(s, p, i) ==> i <= r.value
    ensures r.None? ==> forall i :: !OccursAt(s, p, i)
  {
    RFindUpTo(s, p, |s|)
  }

  function RFindUpTo(s: string, p: string, last: nat): (r: Option<nat>)
    requires last <= |s|
    ensures r.Some? ==> OccursAt(s, p, r.value) && forall i :: i <= last && OccursAt(s, p, i) ==> i <= r.value
    ensures r.None? ==> forall i :: i <= last ==> !OccursAt(s, p, i)
  {
    if OccursAt(s, p, last) then Some(last)
    else if last == 0 then None
    else RFindUpTo(s, p, last - 1)
  }

  // std::string::find of one character, from a position
  function FindChar(s: string, c: char, from: nat): (r: Option<nat>)
    requires from <= |s|
    ensures r.Some? ==> from <= r.value < |s| && s[r.value] == c && c !in s[from..r.value]
    ensures r.None? ==> c !in s[from..]
    decreases |s| - from
  {
    if from == |s| then None
    else if s[from] == c then Some(from)
    else
      var r := FindChar(s, c, from + 1);
      assert s[from..] == [s[from]] + s[from + 1..];
      assert r.Some? ==> s[from..r.value] == [s[from]] + s[from + 1..r.value];
      r
  }

  // ----- extraction -----

  datatype Extraction = Extraction(value: string, rest: string)

  // `e` is what is left of `s` when one "prefix + value" is cut out at position `at`;
  // the value runs up to the next '#' or the end.
  predicate CutAt(s: string, prefix: string, at: int, e: Extraction) {
    && OccursAt(s, prefix, at)
    && var from := at + |prefix|;
    && var end := from + |e.value|;
    && end <= |s|
    && e.value == s[from..end]
    && e.rest == s[..at] + s[end..]
    && HashFree(e.value)
    && (end == |s| || s[end] == '#')
  }

  // ... at the last occurrence of the prefix
  ghost predicate CutsLast(s: string, prefix: string, e: Extraction) {
    exists at :: CutAt(s, prefix, at, e) && forall i :: OccursAt(s, prefix, i) ==> i <= at
  }

  function Extract(s: string, prefix: string): (e: Extraction)
    ensures prefix == "" || (forall i :: !OccursAt(s, prefix, i)) ==> e == Extraction("", s)
    ensures prefix != "" && (exists i :: OccursAt(s, prefix, i)) ==> CutsLast(s, prefix, e)
  {
    if prefix == "" then Extraction("", s)
    else
      match RFind(s, prefix)
      case None => Extraction("", s)
      case Some(left) => ExtractAt(s, prefix, left)
  }

  function ExtractAt(s: string, prefix: string, at: nat): (e: Extraction)
    requires OccursAt(s, prefix, at)
    ensures CutAt(s, prefix, at, e)
  {
    var from := at + |prefix|;
    var end := match FindChar(s, '#', from) case None => |s| case Some(e) => e;
    Extraction(s[from..end], s[..at] + s[end..])
  }

  // The cut is unique, so `CutsLast` says everything about a successful extraction.
  lemma CutIsUnique(s: string, prefix: string, e: Extraction, f: Extraction)
    requires CutsLast(s, prefix, e) && CutsLast(s, prefix, f)
    ensures e == f
  {
    var at :| CutAt(s, prefix, at, e) && forall i :: OccursAt(s, prefix, i) ==> i <= at;
    assert CutAt(s, prefix, at, f);
    ValueIsMaximal(s, prefix, at, e, f);
    ValueIsMaximal(s, prefix, at, f, e);
  }

  lemma ValueIsMaximal(s: string, prefix: string, at: int, e: Extraction, f: Extraction)
    requires CutAt(s, prefix, at, e) && CutAt(s, prefix, at, f)
    ensures |f.value| <= |e.value|
  {
    var from := at + |prefix|;
    assert forall i :: 0 <= i < |f.value| ==> f.value[i] == s[from + i] && f.value[i] != '#';
  }

  // ----- a command line as its '#'-separated segments -----

  // The parameters: every segment that follows a '#'.
  function Params(s: string): seq<string> {
    Split(s, '#')[1..]
  }

  // A segment that starts with `key` is an occurrence of "#key".
  lemma {:induction false} SegmentIsOccurrence(s: string, key: string, k: nat)
    requires HashFree(key)
    requires 0 < k < |Split(s, '#')| && key <= Split(s, '#')[k]
    ensures exists i :: OccursAt(s, "#" + key, i)
  {
    var t := Split(s[1..], '#');
    if s[0] == '#' && k == 1 {
      HeadSegmentIsPrefix(s[1..]);
      assert OccursAt(s, "#" + key, 0);
    } else {
      SegmentIsOccurrence(s[1..], key, if s[0] == '#' then k - 1 else k);
      OccurrenceInTail(s, "#" + key);
    }
  }

  lemma OccurrenceInTail(s: string, p: string)
    requires s != "" && exists i :: OccursAt(s[1..], p, i)
    ensures exists i :: OccursAt(s, p, i)
  {
    var i :| OccursAt(s[1..], p, i);
    assert OccursAt(s, p, i + 1);
  }

  lemma {:induction false} HeadSegmentIsPrefix(s: string)
    ensures Split(s, '#')[0] <= s
  {
    if s != "" {
      HeadSegmentIsPrefix(s[1..]);
    }
  }

  // `segs` without its last entry that starts with `key`; the index is |segs| when there is none.
  function LastWith(segs: seq<string>, key: string): (k: nat)
    ensures k <= |segs|
    ensures k < |segs| ==> key <= segs[k] && forall j :: k < j < |segs| ==> !(key <= segs[j])
    ensures k == |segs| ==> forall j :: 0 <= j < |segs| ==> !(key <= segs[j])
  {
    if segs == [] then 0
    else
      var last := |segs| - 1;
      if key <= segs[last] then last
      else
        var k := LastWith(segs[..last], key);
        if k == last then |segs| else k
  }

  // MAIN: on a prefix "#key", an extraction fails exactly when no parameter starts with the key,
  // and otherwise removes exactly the last such parameter and returns what follows its key.
  lemma ExtractRemovesOneParam(s: string, key: string)
    requires HashFree(key)
    ensures var e := Extract(s, "#" + key);
            var ps := Params(s);
            var k := LastWith(ps, key);
            if k == |ps| then e == Extraction("", s)
            else
              && ps[k] == key + e.value
              && Split(e.rest, '#') == Split(s, '#')[..1] + ps[..k] + ps[k + 1..]
  {
    var prefix := "#" + key;
    var e := Extract(s, prefix);
    var ps := Params(s);
    var k := LastWith(ps, key);
    if forall i :: !OccursAt(s, prefix, i) {
      if k < |ps| {
        SegmentIsOccurrence(s, key, k + 1);
        assert false;
      }
    } else {
      var at :| CutAt(s, prefix, at, e) && forall i :: OccursAt(s, prefix, i) ==> i <= at;
      CutIsOneSegment(s, key, at, e);
    }
  }

  lemma CutIsOneSegment(s: string, key: string, at: nat, e: Extraction)
    requires HashFree(key)
    requires CutAt(s, "#" + key, at, e) && forall i :: OccursAt(s, "#" + key, i) ==> i <= at
    ensures var ps := Params(s);
            var k := LastWith(ps, key);
            && k < |ps|
            && ps[k] == key + e.value
            && Split(e.rest, '#') == Split(s, '#')[..1] + ps[..k] + ps[k + 1..]
  {
    if at + 1 + |key| + |e.value| == |s| {
      CutIsFinalSegment(s, key, at, e);
    } else {
      CutIsInnerSegment(s, key, at, e);
    }
  }

  lemma CutIsFinalSegment(s: string, key: string, at: nat, e: Extraction)
    requires HashFree(key)
    requires CutAt(s, "#" + key, at, e) && at + 1 + |key| + |e.value| == |s|
    ensures var ps := Params(s);
            var k := LastWith(ps, key);
            && k < |ps|
            && ps[k] == key + e.value
            && Split(e.rest, '#') == Split(s, '#')[..1] + ps[..k] + ps[k + 1..]
  {
    var left := s[..at];
    var segment := key + e.value;
    assert s == left + "#" + segment;
    SplitOne(segment, '#');
    SplitConcat(left, segment, '#');
    assert e.rest == left;
    RemoveSegment(s, key, Split(left, '#'), segment, []);
  }

  lemma CutIsInnerSegment(s: string, key: string, at: nat, e: Extraction)
    requires HashFree(key)
    requires CutAt(s, "#" + key, at, e) && forall i :: OccursAt(s, "#" + key, i) ==> i <= at
    requires at + 1 + |key| + |e.value| < |s|
    ensures var ps := Params(s);
            var k := LastWith(ps, key);
            && k < |ps|
            && ps[k] == key + e.value
            && Split(e.rest, '#') == Split(s, '#')[..1] + ps[..k] + ps[k + 1..]
  {
    var segment := key + e.value;
    var left, right := InnerCutText(s, key, at, e);
    SplitMiddle(left, segment, right);
    SplitConcat(left, right, '#');
    NoLaterSegment(left + "#" + segment, right, key, at);
    RemoveSegment(s, key, Split(left, '#'), segment, Split(right, '#'));
  }

  lemma InnerCutText(s: string, key: string, at: nat, e: Extraction) returns (left: string, right: string)
    requires HashFree(key) && CutAt(s, "#" + key, at, e) && at + 1 + |key| + |e.value| < |s|
    ensures |left| == at && HashFree(key + e.value)
    ensures s == left + "#" + (key + e.value) + "#" + right
    ensures e.rest == left + "#" + right
  {
    var end := at + 1 + |key| + |e.value|;
    left, right := s[..at], s[end + 1..];
    assert s[end..] == "#" + right;
    assert s == left + "#" + (key + e.value) + "#" + right;
  }

  lemma SplitMiddle(left: string, segment: string, right: string)
    requires HashFree(segment)
    ensures Split(left + "#" + segment + "#" + right, '#') == Split(left, '#') + [segment] + Split(right, '#')
  {
    assert left + "#" + segment + "#" + right == left + "#" + (segment + "#" + right);
    SplitOne(segment, '#');
    SplitConcat(segment, right, '#');
    SplitConcat(left, segment + "#" + right, '#');
  }

  lemma RemoveSegment(s: string, key: string, l: seq<string>, segment: string, r: seq<string>)
    requires |l| > 0 && Split(s, '#') == l + [segment] + r
    requires key <= segment && forall j :: 0 <= j < |r| ==> !(key <= r[j])
    ensures var ps := Params(s);
            var k := LastWith(ps, key);
            k < |ps| && ps[k] == segment && l + r == Split(s, '#')[..1] + ps[..k] + ps[k + 1..]
  {
    var ps := Params(s);
    Slices(l, segment, r);
    LastWithIs(ps, key, |l| - 1);
  }

  lemma Slices(l: seq<string>, x: string, r: seq<string>)
    requires |l| > 0
    ensures var all := l + [x] + r;
            var n := |l| - 1;
            && |all| == n + 2 + |r|
            && all[1..][n] == x
            && all[1..][n + 1..] == r
            && (forall j :: n < j < |all[1..]| ==> all[1..][j] == r[j - n - 1])
            && all[..1] + all[1..][..n] == l
  {
  }

  lemma LastWithIs(segs: seq<string>, key: string, k: nat)
    requires k < |segs| && key <= segs[k]
    requires forall j :: k < j < |segs| ==> !(key <= segs[j])
    ensures LastWith(segs, key) == k
  {
    var last := LastWith(segs, key);
    assert key <= segs[k];
  }

  lemma NoLaterSegment(left: string, right: string, key: string, at: nat)
    requires HashFree(key) && at < |left|
    requires forall i :: OccursAt(left + "#" + right, "#" + key, i) ==> i <= at
    ensures forall j :: 0 <= j < |Split(right, '#')| ==> !(key <= Split(right, '#')[j])
  {
    forall j | 0 <= j < |Split(right, '#')| ensures !(key <= Split(right, '#')[j]) {
      if key <= Split(right, '#')[j] {
        LaterSegmentOccursLater(left, right, key, j);
      }
    }
  }

  lemma LaterSegmentOccursLater(left: string, right: string, key: string, k: nat)
    requires HashFree(key)
    requires k < |Split(right, '#')| && key <= Split(right, '#')[k]
    ensures exists i :: i >= |left| && OccursAt(left + "#" + right, "#" + key, i)
  {
    var tail := "#" + right;
    assert tail[1..] == right;
    assert Split(tail, '#') == [""] + Split(right, '#');
    SegmentIsOccurrence(tail, key, k + 1);
    var i :| OccursAt(tail, "#" + key, i);
    assert left + "#" + right == left + tail;
    assert OccursAt(left + tail, "#" + key, |left| + i);
  }

  // ----- what an extraction does to the occurrences of its own and of every other prefix -----

  function Positions(s: string, prefix: string, end: nat): set<int> {
    set i | 0 <= i < end && OccursAt(s, prefix, i)
  }

  // The number of positions at which `prefix` occurs.
  function Occurrences(s: string, prefix: string): nat {
    |Positions(s, prefix, |s|)|
  }

  lemma {:induction false} PositionsInTail(s: string, prefix: string, end: nat)
    requires s != ""
    ensures |Positions(s, prefix, end + 1)|
         == (if OccursAt(s, prefix, 0) then 1 else 0) + |Positions(s[1..], prefix, end)|
  {
    if end == 0 {
      assert Positions(s, prefix, 1) == if OccursAt(s, prefix, 0) then {0} else {};
      assert Positions(s[1..], prefix, 0) == {};
    } else {
      PositionsInTail(s, prefix, end - 1);
      ShiftOccurrence(s, prefix, end - 1);
      OneMorePosition(s, prefix, end);
      OneMorePosition(s[1..], prefix, end - 1);
    }
  }

  lemma ShiftOccurrence(s: string, prefix: string, i: nat)
    requires s != ""
    ensures OccursAt(s, prefix, i + 1) <==> OccursAt(s[1..], prefix, i)
  {
    if i + 1 + |prefix| <= |s| {
      assert s[i + 1..i + 1 + |prefix|] == s[1..][i..i + |prefix|];
    }
  }

  lemma OneMorePosition(s: string, prefix: string, end: nat)
    ensures |Positions(s, prefix, end + 1)|
         == |Positions(s, prefix, end)| + (if OccursAt(s, prefix, end) then 1 else 0)
  {
    assert Positions(s, prefix, end + 1)
        == Positions(s, prefix, end) + (if OccursAt(s, prefix, end) then {end} else {});
  }

  // The segments that start with `key`, in order.
  function Select(segs: seq<string>, key: string): seq<string> {
    if segs == [] then []
    else (if key <= segs[0] then [segs[0]] else []) + Select(segs[1..], key)
  }

  lemma {:induction false} HeadSegmentDecides(s: string, key: string)
    requires HashFree(key)
    ensures key <= s <==> key <= Split(s, '#')[0]
  {
    if s != "" && key != "" {
      HeadSegmentDecides(s[1..], key[1..]);
      assert key == [key[0]] + key[1..];
      assert s == [s[0]] + s[1..];
      if s[0] != '#' {
        assert Split(s, '#')[0] == [s[0]] + Split(s[1..], '#')[0];
        assert Split(s, '#')[0][1..] == Split(s[1..], '#')[0];
      }
    }
  }

  lemma {:induction false} OccurrencesAreParams(s: string, key: string)
    requires HashFree(key)
    ensures Occurrences(s, "#" + key) == |Select(Params(s), key)|
  {
    if s != "" {
      OccurrencesAreParams(s[1..], key);
      PositionsInTail(s, "#" + key, |s| - 1);
      if s[0] == '#' {
        HeadSegmentDecides(s[1..], key);
        assert s == "#" + s[1..];
        assert OccursAt(s, "#" + key, 0) <==> key <= s[1..];
        assert Params(s) == Split(s[1..], '#');
      } else {
        assert Params(s) == Params(s[1..]);
      }
    }
  }

  lemma {:induction false} SelectConcat(a: seq<string>, b: seq<string>, key: string)
    ensures Select(a + b, key) == Select(a, key) + Select(b, key)
  {
    if a == [] {
      assert a + b == b;
    } else {
      var t := a[1..];
      SelectConcat(t, b, key);
      assert a == [a[0]] + t;
      assert a + b == [a[0]] + (t + b);
      SelectCons(a[0], t, key);
      SelectCons(a[0], t + b, key);
      Associative(Select([a[0]], key), Select(t, key), Select(b, key));
    }
  }

  lemma SelectCons(x: string, segs: seq<string>, key: string)
    ensures Select([x] + segs, key) == Select([x], key) + Select(segs, key)
  {
    assert ([x] + segs)[1..] == segs;
    assert [x][1..] == [];
  }

  lemma {:induction false} SelectNone(segs: seq<string>, key: string)
    requires forall j :: 0 <= j < |segs| ==> !(key <= segs[j])
    ensures Select(segs, key) == []
  {
    if segs != [] {
      SelectNone(segs[1..], key);
    }
  }

  lemma SelectOne(x: string, key: string)
    ensures Select([x], key) == if key <= x then [x] else []
  {
    assert [x][1..] == [];
  }

  // What is selected before and behind position k.
  lemma SelectAround(segs: seq<string>, k: nat, key: string) returns (l: seq<string>, r: seq<string>)
    requires k < |segs|
    ensures r == Select(segs[k + 1..], key)
    ensures Select(segs, key) == l + (if key <= segs[k] then [segs[k]] else []) + r
    ensures Select(segs[..k] + segs[k + 1..], key) == l + r
  {
    var x := segs[k];
    l, r := Select(segs[..k], key), Select(segs[k + 1..], key);
    assert segs == (segs[..k] + [x]) + segs[k + 1..];
    SelectConcat(segs[..k] + [x], segs[k + 1..], key);
    SelectConcat(segs[..k], [x], key);
    SelectConcat(segs[..k], segs[k + 1..], key);
    SelectOne(x, key);
  }

  lemma SelectWithoutLast(segs: seq<string>, key: string)
    requires var k := LastWith(segs, key); k < |segs|
    ensures var k := LastWith(segs, key);
            Select(segs, key) == Select(segs[..k] + segs[k + 1..], key) + [segs[k]]
  {
    var k := LastWith(segs, key);
    var l, r := SelectAround(segs, k, key);
    SelectNone(segs[k + 1..], key);
  }

  lemma SelectWithoutOther(segs: seq<string>, k: nat, other: string)
    requires k < |segs| && !(other <= segs[k])
    ensures Select(segs, other) == Select(segs[..k] + segs[k + 1..], other)
  {
    var l, r := SelectAround(segs, k, other);
    assert l + [] + r == l + r;
  }

  lemma ParamsWithout(s: string, rest: string, k: nat)
    requires k < |Params(s)| && Split(rest, '#') == Split(s, '#')[..1] + Params(s)[..k] + Params(s)[k + 1..]
    ensures Params(rest) == Params(s)[..k] + Params(s)[k + 1..]
  {
    DropHead(Split(s, '#'), Params(s)[..k], Params(s)[k + 1..]);
  }

  lemma DropHead(segs: seq<string>, a: seq<string>, b: seq<string>)
    requires |segs| > 0
    ensures (segs[..1] + a + b)[1..] == a + b
  {
  }

  // MAIN: a failed extraction changes nothing; a successful one takes out exactly the last
  // occurrence of its prefix together with its value, and nothing else.
  lemma ExtractTakesLastOccurrence(s: string, key: string)
    requires HashFree(key)
    ensures var e := Extract(s, "#" + key);
            var n := Occurrences(s, "#" + key);
            var mine := Select(Params(s), key);
            && |mine| == n
            && (n == 0 ==> e == Extraction("", s))
            && (n > 0 ==>
                 && mine == Select(Params(e.rest), key) + [key + e.value]
                 && Occurrences(e.rest, "#" + key) == n - 1
                 && |e.rest| == |s| - |"#" + key| - |e.value|)
  {
    ExtractRemovesOneParam(s, key);
    OccurrencesAreParams(s, key);
    var ps := Params(s);
    if LastWith(ps, key) == |ps| {
      SelectNone(ps, key);
    } else {
      WithoutOneParam(s, key, ps, LastWith(ps, key), Extract(s, "#" + key));
      SegmentIsOccurrence(s, key, LastWith(ps, key) + 1);
    }
  }

  lemma WithoutOneParam(s: string, key: string, ps: seq<string>, k: nat, e: Extraction)
    requires HashFree(key) && ps == Params(s) && k == LastWith(ps, key) && k < |ps| && ps[k] == key + e.value
    requires Split(e.rest, '#') == Split(s, '#')[..1] + ps[..k] + ps[k + 1..]
    ensures Select(ps, key) == Select(Params(e.rest), key) + [key + e.value]
    ensures Occurrences(e.rest, "#" + key) == Occurrences(s, "#" + key) - 1
  {
    ParamsWithout(s, e.rest, k);
    SelectWithoutLast(ps, key);
    CountWithout(s, e.rest, key, key + e.value);
  }

  lemma CountWithout(s: string, rest: string, key: string, segment: string)
    requires HashFree(key) && Select(Params(s), key) == Select(Params(rest), key) + [segment]
    ensures Occurrences(rest, "#" + key) == Occurrences(s, "#" + key) - 1
  {
    OccurrencesAreParams(s, key);
    OccurrencesAreParams(rest, key);
  }

  // MAIN: the parameters of any other prefix, when neither key starts the other, stay as they are.
  lemma ExtractKeepsOtherParams(s: string, key: string, other: string)
    requires HashFree(key) && HashFree(other)
    requires !(key <= other) && !(other <= key)
    ensures var e := Extract(s, "#" + key);
            && Select(Params(e.rest), other) == Select(Params(s), other)
            && Occurrences(e.rest, "#" + other) == Occurrences(s, "#" + other)
  {
    ExtractRemovesOneParam(s, key);
    var ps := Params(s);
    var k := LastWith(ps, key);
    if k < |ps| {
      NotBothPrefixes(ps[k], key, other);
      OthersStay(s, Extract(s, "#" + key).rest, k, other);
    }
  }

  lemma OthersStay(s: string, rest: string, k: nat, other: string)
    requires HashFree(other) && k < |Params(s)| && !(other <= Params(s)[k])
    requires Split(rest, '#') == Split(s, '#')[..1] + Params(s)[..k] + Params(s)[k + 1..]
    ensures Select(Params(rest), other) == Select(Params(s), other)
    ensures Occurrences(rest, "#" + other) == Occurrences(s, "#" + other)
  {
    ParamsWithout(s, rest, k);
    SelectWithoutOther(Params(s), k, other);
    OccurrencesAreParams(s, other);
    OccurrencesAreParams(rest, other);
  }

  lemma NotBothPrefixes(s: string, key: string, other: string)
    requires !(key <= other) && !(other <= key) && key <= s
    ensures !(other <= s)
  {
    if |key| <= |other| {
      assert key == s[..|key|];
      assert key != other[..|key|];
    } else {
      assert key[..|other|] == s[..|other|];
      assert other != key[..|other|];
    }
  }

  lemma OccurrencesAfterExtract(s: string, key: string)
    requires HashFree(key)
    ensures var n := Occurrences(s, "#" + key);
            Occurrences(Extract(s, "#" + key).rest, "#" + key) == if n == 0 then 0 else n - 1
  {
    ExtractTakesLastOccurrence(s, key);
  }

  // MAIN: in a run of extractions, `texts` being the command line before, between and after them,
  // each takes one occurrence until none is left; so extracting as often as the prefix occurs drains it.
  lemma {:induction false} RepeatedExtractionDrains(texts: seq<string>, key: string)
    requires HashFree(key) && |texts| > 0
    requires forall i :: 0 < i < |texts| ==> texts[i] == Extract(texts[i - 1], "#" + key).rest
    ensures var had := Occurrences(texts[0], "#" + key);
            var n := |texts| - 1;
            Occurrences(texts[n], "#" + key) == if n <= had then had - n else 0
  {
    if |texts| > 1 {
      var n := |texts| - 1;
      RepeatedExtractionDrains(texts[..n], key);
      OccurrencesAfterExtract(texts[n - 1], key);
    }
  }

  // ----- the application info carried by the command line -----

  datatype AppInfo = AppInfo(bundleName: string, apiVersion: string, appVersion: string)

  predicate InfoHashFree(i: AppInfo) {
    HashFree(i.bundleName) && HashFree(i.apiVersion) && HashFree(i.appVersion)
  }

  // What the host prints behind `renderParam`.
  function RenderParamNew(renderParam: string, engineVersion: int, info: AppInfo): string {
    renderParam + APP_ENGINE_VERSION_PREFIX + Decimal.IntToString(engineVersion)
    + APP_BUNDLE_NAME_PREFIX + info.bundleName
    + APP_API_VERSION_PREFIX + info.apiVersion
    + APP_VERSION_PREFIX + info.appVersion
  }

  datatype Parsed = Parsed(found: AppInfo, rest: string)

  // The three values taken out of a command line, in the order the child process takes them.
  function ParseInfo(text: string): Parsed {
    var b := Extract(text, APP_BUNDLE_NAME_PREFIX);
    var a := Extract(b.rest, APP_API_VERSION_PREFIX);
    var v := Extract(a.rest, APP_VERSION_PREFIX);
    Parsed(AppInfo(b.value, a.value, v.value), v.rest)
  }

  // An empty value leaves the stored one.
  function Merge(stored: AppInfo, found: AppInfo): AppInfo {
    AppInfo(
      if found.bundleName == "" then stored.bundleName else found.bundleName,
      if found.apiVersion == "" then stored.apiVersion else found.apiVersion,
      if found.appVersion == "" then stored.appVersion else found.appVersion)
  }

  // ----- the values of a command line -----

  // What the last parameter with this key says; empty without one.
  function LastValue(ps: seq<string>, key: string): string {
    var k := LastWith(ps, key);
    if k == |ps| then "" else ps[k][|key|..]
  }

  lemma LastIsSelected(ps: seq<string>, key: string)
    ensures Select(ps, key) == [] ==> LastValue(ps, key) == ""
    ensures Select(ps, key) != [] ==> Select(ps, key)[|Select(ps, key)| - 1] == key + LastValue(ps, key)
  {
    var k := LastWith(ps, key);
    if k < |ps| {
      SelectWithoutLast(ps, key);
      assert ps[k] == key + ps[k][|key|..];
    } else {
      SelectNone(ps, key);
    }
  }

  lemma SameSelectionSameValue(ps: seq<string>, qs: seq<string>, key: string)
    requires Select(ps, key) == Select(qs, key)
    ensures LastValue(ps, key) == LastValue(qs, key)
  {
    LastIsSelected(ps, key);
    LastIsSelected(qs, key);
    if Select(ps, key) != [] {
      SameTail(key, LastValue(ps, key), LastValue(qs, key));
    }
  }

  lemma ExtractedIsLastValue(s: string, key: string)
    requires HashFree(key)
    ensures Extract(s, "#" + key).value == LastValue(Params(s), key)
  {
    ExtractRemovesOneParam(s, key);
    var ps := Params(s);
    var k := LastWith(ps, key);
    if k < |ps| {
      SameTail(key, Extract(s, "#" + key).value, ps[k][|key|..]);
    }
  }

  // The value of another key is still there after an extraction.
  lemma OtherValueStays(s: string, key: string, other: string)
    requires HashFree(key) && HashFree(other) && !(key <= other) && !(other <= key)
    ensures LastValue(Params(Extract(s, "#" + key).rest), other) == LastValue(Params(s), other)
  {
    ExtractKeepsOtherParams(s, key, other);
    SameSelectionSameValue(Params(Extract(s, "#" + key).rest), Params(s), other);
  }

  // MAIN: for any text, the three values taken out one after the other are those of the last parameters with
  // these keys in the text as it came.
  lemma FoundAreLastValues(text: string)
    ensures ParseInfo(text).found.bundleName == LastValue(Params(text), BUNDLE_NAME_KEY)
    ensures ParseInfo(text).found.apiVersion == LastValue(Params(text), API_VERSION_KEY)
    ensures ParseInfo(text).found.appVersion == LastValue(Params(text), APP_VERSION_KEY)
  {
    var b := Extract(text, APP_BUNDLE_NAME_PREFIX);
    KeysApart(BUNDLE_NAME_KEY, API_VERSION_KEY);
    KeysApart(BUNDLE_NAME_KEY, APP_VERSION_KEY);
    KeysApart(API_VERSION_KEY, APP_VERSION_KEY);
    ExtractedIsLastValue(text, BUNDLE_NAME_KEY);
    OtherValueStays(text, BUNDLE_NAME_KEY, API_VERSION_KEY);
    OtherValueStays(text, BUNDLE_NAME_KEY, APP_VERSION_KEY);
    ExtractedIsLastValue(b.rest, API_VERSION_KEY);
    OtherValueStays(b.rest, API_VERSION_KEY, APP_VERSION_KEY);
    ExtractedIsLastValue(Extract(b.rest, APP_API_VERSION_PREFIX).rest, APP_VERSION_KEY);
  }

  lemma KeysApart(key: string, other: string)
    requires |key| > 5 && |other| > 5 && key[5] != other[5]
    ensures !(key <= other) && !(other <= key)
  {
  }

  class CommandLine {
    var text: string

    constructor (text: string)
      ensures this.text == text
    {
      this.text := text;
    }

    method ExtractAndRemoveParam(prefix: string) returns (value: string)
      modifies this
      ensures Extraction(value, text) == Extract(old(text), prefix)
    {
      if prefix == "" {
        return "";
      }
      var posLeft := RFind(text, prefix);
      if posLeft.None? {
        return "";
      }
      var posRight := posLeft.value + |prefix|;
      var posEnd := FindChar(text, '#', posRight);
      value := if posEnd.None? then text[posRight..] else text[posRight..posEnd.value];
      var eraseLength := if posEnd.None? then |text| - posLeft.value else posEnd.value - posLeft.value;
      text := text[..posLeft.value] + text[posLeft.value + eraseLength..];
      assert CutAt(old(text), prefix, posLeft.value, Extraction(value, text));
      CutIsUnique(old(text), prefix, Extraction(value, text), Extract(old(text), prefix));
    }
  }

  // The process-wide application info.
  class AppInfoStore {
    var bundleName: string
    var apiVersion: string
    var appVersion: string

    function Info(): AppInfo
      reads this
    {
      AppInfo(bundleName, apiVersion, appVersion)
    }

    method UpdateAppInfoFromCmdline(renderCmd: CommandLine)
      modifies this, renderCmd
      ensures var p := ParseInfo(old(renderCmd.text));
              Info() == Merge(old(Info()), p.found) && renderCmd.text == p.rest
      // each field is the value of the last parameter with its key, and stays if there is none or it is empty
      ensures var v := LastValue(Params(old(renderCmd.text)), BUNDLE_NAME_KEY);
              bundleName == if v != "" then v else old(bundleName)
      ensures var v := LastValue(Params(old(renderCmd.text)), API_VERSION_KEY);
              apiVersion == if v != "" then v else old(apiVersion)
      ensures var v := LastValue(Params(old(renderCmd.text)), APP_VERSION_KEY);
              appVersion == if v != "" then v else old(appVersion)
    {
      FoundAreLastValues(renderCmd.text);
      ghost var text := renderCmd.text;
      var bundle := renderCmd.ExtractAndRemoveParam(APP_BUNDLE_NAME_PREFIX);
      assert Extraction(bundle, renderCmd.text) == Extract(text, APP_BUNDLE_NAME_PREFIX);
      text := renderCmd.text;
      if bundle != "" {
        bundleName := bundle;
      }
      var api := renderCmd.ExtractAndRemoveParam(APP_API_VERSION_PREFIX);
      assert Extraction(api, renderCmd.text) == Extract(text, APP_API_VERSION_PREFIX);
      text := renderCmd.text;
      if api != "" {
        apiVersion := api;
      }
      var app := renderCmd.ExtractAndRemoveParam(APP_VERSION_PREFIX);
      assert Extraction(app, renderCmd.text) == Extract(text, APP_VERSION_PREFIX);
      if app != "" {
        appVersion := app;
      }
    }
  }

  // ----- round trip -----

  function AppendParams(s: string, segs: seq<string>): string
    decreases |segs|
  {
    if segs == [] then s else AppendParams(s + "#" + segs[0], segs[1..])
  }

  lemma {:induction false} SplitAppendParams(s: string, segs: seq<string>)
    requires forall k :: 0 <= k < |segs| ==> HashFree(segs[k])
    ensures Split(AppendParams(s, segs), '#') == Split(s, '#') + segs
    decreases |segs|
  {
    if segs != [] {
      SplitAppendParams(s + "#" + segs[0], segs[1..]);
      SplitConcat(s, segs[0], '#');
      SplitOne(segs[0], '#');
      assert Split(s, '#') + [segs[0]] + segs[1..] == Split(s, '#') + segs;
    }
  }

  lemma ExtractSegment(text: string, rest: string, key: string, value: string, l: seq<string>, after: seq<string>)
    requires HashFree(key) && |l| > 0
    requires Split(text, '#') == l + [key + value] + after && Split(rest, '#') == l + after
    requires forall k :: 0 <= k < |after| ==> !(key <= after[k])
    ensures Extract(text, "#" + key) == Extraction(value, rest)
  {
    var e := Extract(text, "#" + key);
    RemoveSegment(text, key, l, key + value, after);
    ExtractRemovesOneParam(text, key);
    SameTail(key, value, e.value);
    SplitInjective(e.rest, rest);
  }

  // A parameter appended behind any text is the one found, whatever parameters the text had,
  // as long as no later appended one has the same key.
  lemma ExtractAppended(s: string, segs: seq<string>, k: nat, key: string, value: string)
    requires k < |segs| && segs[k] == key + value
    requires forall j :: 0 <= j < |segs| ==> HashFree(segs[j])
    requires forall j :: k < j < |segs| ==> !(key <= segs[j])
    ensures Extract(AppendParams(s, segs), "#" + key)
         == Extraction(value, AppendParams(s, segs[..k] + segs[k + 1..]))
  {
    var l := Split(s, '#') + segs[..k];
    var after := segs[k + 1..];
    SplitAppendParams(s, segs);
    SplitAppendParams(s, segs[..k] + after);
    TakeOneOut(Split(s, '#'), segs, k);
    assert HashFree(key) by {
      assert forall i :: 0 <= i < |key| ==> key[i] == segs[k][i];
    }
    ExtractSegment(AppendParams(s, segs), AppendParams(s, segs[..k] + after), key, value, l, after);
  }

  lemma TakeOneOut(before: seq<string>, segs: seq<string>, k: nat)
    requires k < |segs|
    ensures before + segs == (before + segs[..k]) + [segs[k]] + segs[k + 1..]
    ensures (before + segs[..k]) + segs[k + 1..] == before + (segs[..k] + segs[k + 1..])
  {
  }

  lemma SplitInjective(a: string, b: string)
    requires Split(a, '#') == Split(b, '#')
    ensures a == b
  {
    JoinSplit(a, '#');
    JoinSplit(b, '#');
  }

  lemma SameTail(key: string, v: string, w: string)
    requires key + v == key + w
    ensures v == w
  {
    assert v == (key + v)[|key|..] && w == (key + w)[|key|..];
  }

  lemma NumbersAreHashFree(n: int)
    ensures HashFree(Decimal.IntToString(n))
  {
    var m := if n < 0 then -n else n;
    assert Decimal.AllDigits(Decimal.NatToString(m));
  }

  function Printed(engineVersion: int, info: AppInfo): seq<string> {
    [ENGINE_VERSION_KEY + Decimal.IntToString(engineVersion), BUNDLE_NAME_KEY + info.bundleName,
     API_VERSION_KEY + info.apiVersion, APP_VERSION_KEY + info.appVersion]
  }

  lemma RenderParamNewAppends(renderParam: string, engineVersion: int, info: AppInfo)
    ensures RenderParamNew(renderParam, engineVersion, info) == AppendParams(renderParam, Printed(engineVersion, info))
  {
    var segs := Printed(engineVersion, info);
    AppendFour(renderParam, segs[0], segs[1], segs[2], segs[3]);
    Regroup(renderParam, ENGINE_VERSION_KEY, Decimal.IntToString(engineVersion));
    var s1 := renderParam + "#" + segs[0];
    Regroup(s1, BUNDLE_NAME_KEY, info.bundleName);
    var s2 := s1 + "#" + segs[1];
    Regroup(s2, API_VERSION_KEY, info.apiVersion);
    var s3 := s2 + "#" + segs[2];
    Regroup(s3, APP_VERSION_KEY, info.appVersion);
  }

  lemma Regroup(s: string, key: string, value: string)
    ensures s + ("#" + key) + value == s + "#" + (key + value)
  {
  }

  lemma AppendFour(s: string, a: string, b: string, c: string, d: string)
    ensures AppendParams(s, [a, b, c, d]) == s + "#" + a + "#" + b + "#" + c + "#" + d
  {
    assert [a, b, c, d][1..] == [b, c, d] && [b, c, d][1..] == [c, d] && [c, d][1..] == [d] && [d][1..] == [];
    var s1 := s + "#" + a;
    var s2 := s1 + "#" + b;
    assert AppendParams(s, [a, b, c, d]) == AppendParams(s1, [b, c, d]) == AppendParams(s2, [c, d]);
    assert AppendParams(s2, [c, d]) == AppendParams(s2 + "#" + c, [d]);
    assert AppendParams(s2 + "#" + c, [d]) == AppendParams(s2 + "#" + c + "#" + d, []);
  }

  // The four keys differ in their sixth character.
  lemma KeysDiffer(key: string, other: string, value: string)
    requires |key| > 5 && |other| > 5 && key[5] != other[5]
    ensures !(key <= other + value)
  {
    assert (other + value)[5] == other[5];
  }

  // MAIN: for every renderParam, whatever parameters it already contains, the three values and then the
  // engine version are recovered and renderParam is restored exactly when the three values are '#'-free.
  lemma RoundTrip(renderParam: string, engineVersion: int, sent: AppInfo)
    ensures ParseInfo(RenderParamNew(renderParam, engineVersion, sent)).found == sent <==> InfoHashFree(sent)
    ensures InfoHashFree(sent) ==>
              Extract(ParseInfo(RenderParamNew(renderParam, engineVersion, sent)).rest, APP_ENGINE_VERSION_PREFIX)
              == Extraction(Decimal.IntToString(engineVersion), renderParam)
  {
    var text := RenderParamNew(renderParam, engineVersion, sent);
    if InfoHashFree(sent) {
      RecoverPrinted(renderParam, engineVersion, sent);
    }
    var b := Extract(text, APP_BUNDLE_NAME_PREFIX);
    var a := Extract(b.rest, APP_API_VERSION_PREFIX);
    ExtractedIsHashFree(text, APP_BUNDLE_NAME_PREFIX);
    ExtractedIsHashFree(b.rest, APP_API_VERSION_PREFIX);
    ExtractedIsHashFree(a.rest, APP_VERSION_PREFIX);
  }

  lemma RecoverPrinted(renderParam: string, engineVersion: int, sent: AppInfo)
    requires InfoHashFree(sent)
    ensures var p := ParseInfo(RenderParamNew(renderParam, engineVersion, sent));
            && p.found == sent
            && Extract(p.rest, APP_ENGINE_VERSION_PREFIX)
               == Extraction(Decimal.IntToString(engineVersion), renderParam)
  {
    var segs := Printed(engineVersion, sent);
    PrintedIsHashFree(engineVersion, sent);
    RenderParamNewAppends(renderParam, engineVersion, sent);
    KeysDiffer(BUNDLE_NAME_KEY, API_VERSION_KEY, sent.apiVersion);
    KeysDiffer(BUNDLE_NAME_KEY, APP_VERSION_KEY, sent.appVersion);
    KeysDiffer(API_VERSION_KEY, APP_VERSION_KEY, sent.appVersion);
    RecoverBundle(renderParam, segs, sent.bundleName);
    RecoverApi(renderParam, segs, sent.apiVersion);
    RecoverLast(renderParam, segs, sent.appVersion, Decimal.IntToString(engineVersion));
  }

  lemma PrintedIsHashFree(engineVersion: int, info: AppInfo)
    requires InfoHashFree(info)
    ensures forall s :: s in Printed(engineVersion, info) ==> HashFree(s)
  {
    NumbersAreHashFree(engineVersion);
    HashFreeConcat(ENGINE_VERSION_KEY, Decimal.IntToString(engineVersion));
    HashFreeConcat(BUNDLE_NAME_KEY, info.bundleName);
    HashFreeConcat(API_VERSION_KEY, info.apiVersion);
    HashFreeConcat(APP_VERSION_KEY, info.appVersion);
  }

  lemma HashFreeConcat(a: string, b: string)
    requires HashFree(a) && HashFree(b)
    ensures HashFree(a + b)
  {
  }

  lemma RecoverLast(s: string, segs: seq<string>, app: string, engine: string)
    requires |segs| == 4 && (forall j :: 0 <= j < |segs| ==> HashFree(segs[j]))
    requires segs[3] == APP_VERSION_KEY + app && segs[0] == ENGINE_VERSION_KEY + engine
    ensures var e := Extract(AppendParams(s, [segs[0], segs[3]]), APP_VERSION_PREFIX);
            && e == Extraction(app, AppendParams(s, [segs[0]]))
            && Extract(e.rest, APP_ENGINE_VERSION_PREFIX) == Extraction(engine, s)
  {
    var left := [segs[0], segs[3]];
    ExtractSecond(s, left, APP_VERSION_KEY, app);
    assert [left[0]] + left[2..] == [segs[0]];
    ExtractAppended(s, [segs[0]], 0, ENGINE_VERSION_KEY, engine);
    assert [segs[0]][..0] + [segs[0]][1..] == [];
  }

  lemma RecoverBundle(s: string, segs: seq<string>, value: string)
    requires |segs| == 4 && (forall j :: 0 <= j < |segs| ==> HashFree(segs[j]))
    requires segs[1] == BUNDLE_NAME_KEY + value && !(BUNDLE_NAME_KEY <= segs[2]) && !(BUNDLE_NAME_KEY <= segs[3])
    ensures Extract(AppendParams(s, segs), APP_BUNDLE_NAME_PREFIX)
         == Extraction(value, AppendParams(s, [segs[0], segs[2], segs[3]]))
  {
    ExtractSecond(s, segs, BUNDLE_NAME_KEY, value);
    assert [segs[0]] + segs[2..] == [segs[0], segs[2], segs[3]];
  }

  lemma RecoverApi(s: string, segs: seq<string>, value: string)
    requires |segs| == 4 && (forall j :: 0 <= j < |segs| ==> HashFree(segs[j]))
    requires segs[2] == API_VERSION_KEY + value && !(API_VERSION_KEY <= segs[3])
    ensures Extract(AppendParams(s, [segs[0], segs[2], segs[3]]), APP_API_VERSION_PREFIX)
         == Extraction(value, AppendParams(s, [segs[0], segs[3]]))
  {
    var left := [segs[0], segs[2], segs[3]];
    ExtractSecond(s, left, API_VERSION_KEY, value);
    assert [left[0]] + left[2..] == [segs[0], segs[3]];
  }

  lemma ExtractSecond(s: string, segs: seq<string>, key: string, value: string)
    requires |segs| > 1 && segs[1] == key + value
    requires forall j :: 0 <= j < |segs| ==> HashFree(segs[j])
    requires forall j :: 1 < j < |segs| ==> !(key <= segs[j])
    ensures Extract(AppendParams(s, segs), "#" + key) == Extraction(value, AppendParams(s, [segs[0]] + segs[2..]))
  {
    ExtractAppended(s, segs, 1, key, value);
    assert segs[..1] == [segs[0]];
  }

  lemma ExtractedIsHashFree(s: string, prefix: string)
    ensures HashFree(Extract(s, prefix).value)
  {
    if prefix != "" && exists i :: OccursAt(s, prefix, i) {
      assert CutsLast(s, prefix, Extract(s, prefix));
    }
  }

  // ----- sending the command line -----

  // MAIN: the two ends together, for every renderParam and stored information: what the child stores of a
  // printed line, and what it is left with once it has taken out the engine version too.
  method PassToChild(renderParam: string, engineVersion: int, sent: AppInfo, store: AppInfoStore)
    returns (renderCmd: CommandLine, version: string)
    requires InfoHashFree(sent)
    modifies store
    ensures store.bundleName == if sent.bundleName != "" then sent.bundleName else old(store.bundleName)
    ensures store.apiVersion == if sent.apiVersion != "" then sent.apiVersion else old(store.apiVersion)
    ensures store.appVersion == if sent.appVersion != "" then sent.appVersion else old(store.appVersion)
    ensures version == Decimal.IntToString(engineVersion) && renderCmd.text == renderParam
  {
    RoundTrip(renderParam, engineVersion, sent);
    FoundAreLastValues(RenderParamNew(renderParam, engineVersion, sent));
    renderCmd := new CommandLine(RenderParamNew(renderParam, engineVersion, sent));
    store.UpdateAppInfoFromCmdline(renderCmd);
    version := renderCmd.ExtractAndRemoveParam(APP_ENGINE_VERSION_PREFIX);
  }

  const START_RENDER_PROCESS_MAX_CNT := 10
  const RET_ALREADY_EXIST_RENDER := 8454244
  const GPU_PROCESS_TYPE := "gpu-process"

  datatype Request = Request(renderParam: string, isGPU: bool)

  // Before the i-th attempt the active engine version is `versionAt(i)` and the application information is
  // `infoAt(i)`, which other threads may change in between; `responses(i)` is what the application manager
  // answers to it.
  method StartChildProcess(clientPresent: bool, renderParam: string, processType: string,
                           versionAt: nat -> int, infoAt: nat -> AppInfo, responses: nat -> int)
    returns (ret: int, sent: seq<Request>)
    ensures !clientPresent ==> ret == -1 && sent == []
    ensures clientPresent ==> 1 <= |sent| <= START_RENDER_PROCESS_MAX_CNT
    // every attempt but the last met an existing process, and the last did not unless attempts ran out
    ensures forall i :: 0 <= i < |sent| - 1 ==> responses(i) == RET_ALREADY_EXIST_RENDER
    ensures clientPresent && |sent| < START_RENDER_PROCESS_MAX_CNT
            ==> responses(|sent| - 1) != RET_ALREADY_EXIST_RENDER
    ensures clientPresent ==> ret == if responses(|sent| - 1) == 0 then 0 else -1
    // every attempt prints what holds then
    ensures forall i :: 0 <= i < |sent| ==>
              && sent[i].isGPU == (processType == GPU_PROCESS_TYPE)
              && sent[i].renderParam == RenderParamNew(renderParam, versionAt(i), infoAt(i))
  {
    if !clientPresent {
      return -1, [];
    }
    var isGPU := false;
    if processType == GPU_PROCESS_TYPE {
      isGPU := true;
    }
    var textAt := (i: nat) => RenderParamNew(renderParam, versionAt(i), infoAt(i));
    ret, sent := RetryStart(isGPU, textAt, responses);
  }

  // The retry loop; the i-th attempt sends `textAt(i)`.
  method RetryStart(isGPU: bool, textAt: nat -> string, responses: nat -> int) returns (ret: int, sent: seq<Request>)
    ensures 1 <= |sent| <= START_RENDER_PROCESS_MAX_CNT
    ensures forall i :: 0 <= i < |sent| - 1 ==> responses(i) == RET_ALREADY_EXIST_RENDER
    ensures |sent| < START_RENDER_PROCESS_MAX_CNT ==> responses(|sent| - 1) != RET_ALREADY_EXIST_RENDER
    ensures ret == if responses(|sent| - 1) == 0 then 0 else -1
    ensures forall i :: 0 <= i < |sent| ==> sent[i] == Request(textAt(i), isGPU)
  {
    sent := [];
    var retryCnt := 0;
    var code: int;
    while true
      invariant 0 <= retryCnt == |sent| < START_RENDER_PROCESS_MAX_CNT
      invariant forall i :: 0 <= i < |sent| ==> responses(i) == RET_ALREADY_EXIST_RENDER
      invariant forall i :: 0 <= i < |sent| ==> sent[i] == Request(textAt(i), isGPU)
      decreases START_RENDER_PROCESS_MAX_CNT - retryCnt
    {
      var renderParamNew := textAt(retryCnt);
      code := responses(retryCnt);
      sent := sent + [Request(renderParamNew, isGPU)];
      if code != RET_ALREADY_EXIST_RENDER && code != 0 {
        return -1, sent;
      }
      retryCnt := retryCnt + 1;
      if !(retryCnt < START_RENDER_PROCESS_MAX_CNT && code != 0) {
        break;
      }
    }
    if code != 0 {
      return -1, sent;
    }
    return 0, sent;
  }
}
