/**
 * The check that a downloaded parameter package is not older than the system's:
 * `HandleVersionString` and `CheckCloudCfgVersion` in arkweb_utils.cpp.
 */
module CloudVersion {
  import opened Options
  import opened Decimal
  import opened Segments

  const VERSION_TAG_LEN := 3

  // ----- the version line -----

  // `\s` of an ECMAScript regular expression in the classic locale
  predicate IsSpace(c: char) {
    c == ' ' || '\t' <= c <= '\r'
  }

  predicate OptionalSpace(s: string) {
    s == "" || (|s| == 1 && IsSpace(s[0]))
  }

  // `\d{1,3}`
  predicate IsField(s: string) {
    1 <= |s| <= 3 && AllDigits(s)
  }

  // What the regular expression describes: `fields` are the four captured groups of `line`.
  ghost predicate IsVersionLine(line: string, fields: seq<string>) {
    && |fields| == 4
    && (forall i :: 0 <= i < 4 ==> IsField(fields[i]))
    && exists a, b :: OptionalSpace(a) && OptionalSpace(b) && line == Compose(a, b, Join(fields, '.'))
  }

  function Compose(a: string, b: string, rest: string): string {
    "version" + a + "=" + b + rest
  }

  // std::regex_match: the captured groups, if the whole line matches.
  function MatchVersion(line: string): Option<seq<string>> {
    if |line| < 7 || line[..7] != "version" then None
    else
      var r := SkipSpace(line[7..]);
      if r == "" || r[0] != '=' then None
      else
        var fields := Split(SkipSpace(r[1..]), '.');
        if |fields| == 4 && forall i :: 0 <= i < 4 ==> IsField(fields[i]) then Some(fields) else None
  }

  function SkipSpace(s: string): string {
    if s != "" && IsSpace(s[0]) then s[1..] else s
  }

  lemma SkipOptional(a: string, s: string)
    requires OptionalSpace(a) && s != "" && !IsSpace(s[0])
    ensures SkipSpace(a + s) == s
  {
    if a == "" {
      assert a + s == s;
    } else {
      assert (a + s)[1..] == s;
    }
  }

  // The matcher finds exactly the captures the expression describes.
  lemma MatchIsExact(line: string, fields: seq<string>)
    ensures MatchVersion(line) == Some(fields) <==> IsVersionLine(line, fields)
  {
    if MatchVersion(line) == Some(fields) {
      MatchIsSound(line, fields);
    }
    if IsVersionLine(line, fields) {
      MatchIsComplete(line, fields);
    }
  }

  lemma MatchIsSound(line: string, fields: seq<string>)
    requires MatchVersion(line) == Some(fields)
    ensures IsVersionLine(line, fields)
  {
    var l := line[7..];
    var r := SkipSpace(l);
    var m := r[1..];
    var a := SkippedSpace(l);
    var b := SkippedSpace(m);
    JoinSplit(SkipSpace(m), '.');
    Reassemble(line, a, r, b, SkipSpace(m));
    assert line == Compose(a, b, Join(fields, '.'));
  }

  lemma SkippedSpace(s: string) returns (a: string)
    ensures OptionalSpace(a) && s == a + SkipSpace(s)
  {
    a := if s != "" && IsSpace(s[0]) then [s[0]] else "";
  }

  lemma Reassemble(line: string, a: string, r: string, b: string, rest: string)
    requires |line| >= 7 && line[..7] == "version" && line[7..] == a + r
    requires r != "" && r[0] == '=' && r[1..] == b + rest
    ensures line == Compose(a, b, rest)
  {
    var m := r[1..];
    assert r == "=" + m;
    assert line == line[..7] + line[7..];
    assert line[..7] + (a + ("=" + (b + rest))) == line[..7] + a + "=" + b + rest;
  }

  lemma MatchIsComplete(line: string, fields: seq<string>)
    requires IsVersionLine(line, fields)
    ensures MatchVersion(line) == Some(fields)
  {
    var rest := Join(fields, '.');
    var a, b :| OptionalSpace(a) && OptionalSpace(b) && line == Compose(a, b, rest);
    assert rest[0] == fields[0][0] && IsDigit(rest[0]);
    TakeApart(line, a, b, rest);
    FieldsHaveNoDot(fields);
    SplitJoin(fields, '.');
  }

  lemma TakeApart(line: string, a: string, b: string, rest: string)
    requires OptionalSpace(a) && OptionalSpace(b) && line == Compose(a, b, rest)
    requires rest != "" && !IsSpace(rest[0])
    ensures |line| >= 7 && line[..7] == "version"
    ensures SkipSpace(line[7..]) == "=" + (b + rest)
    ensures SkipSpace(SkipSpace(line[7..])[1..]) == rest
  {
    assert line[..7] == "version";
    assert line[7..] == a + ("=" + (b + rest));
    SkipOptional(a, "=" + (b + rest));
    assert ("=" + (b + rest))[1..] == b + rest;
    SkipOptional(b, rest);
  }

  lemma FieldsHaveNoDot(fields: seq<string>)
    requires forall i :: 0 <= i < |fields| ==> IsField(fields[i])
    ensures forall i :: 0 <= i < |fields| ==> '.' !in fields[i]
  {
    forall i | 0 <= i < |fields| ensures '.' !in fields[i] {
      var f := fields[i];
      assert forall j :: 0 <= j < |f| ==> IsDigit(f[j]);
    }
  }

  // ----- versions as numbers -----

  // std::setw(3) with fill '0'
  function Padded(n: nat): string {
    Zeros(VERSION_TAG_LEN - |NatToString(n)|) + NatToString(n)
  }

  function Zeros(k: int): (s: string)
    ensures |s| == if k < 0 then 0 else k
    ensures forall i :: 0 <= i < |s| ==> s[i] == '0'
  {
    if k <= 0 then "" else "0" + Zeros(k - 1)
  }

  // The value of the fields in base 1000.
  function Positional(fields: seq<nat>): nat {
    if fields == [] then 0 else 1000 * Positional(fields[..|fields| - 1]) + fields[|fields| - 1]
  }

  function Numbers(fields: seq<string>): (ns: seq<nat>)
    requires forall i :: 0 <= i < |fields| ==> IsField(fields[i])
    ensures |ns| == |fields|
    ensures forall i :: 0 <= i < |fields| ==> IsField(fields[i]) && ns[i] == ParseNat(fields[i])
  {
    seq(|fields|, i requires 0 <= i < |fields| && IsField(fields[i]) => ParseNat(fields[i]))
  }

  lemma FieldBelow1000(f: string)
    requires IsField(f)
    ensures ParseNat(f) < 1000
  {
    ParseBound(f);
    assert Pow10(1) == 10 && Pow10(2) == 100 && Pow10(3) == 1000;
  }

  // A padded field is three digits with the field's value.
  lemma PaddedMeans(n: nat)
    requires n < 1000
    ensures |Padded(n)| == 3 && AllDigits(Padded(n)) && ParseNat(Padded(n)) == n
  {
    assert Pow10(1) == 10 && Pow10(2) == 100 && Pow10(3) == 1000;
    PrintedLength(n, 3);
    ParsePrinted(n);
    var z := Zeros(3 - |NatToString(n)|);
    ParseZeros(z);
    ParseConcat(z, NatToString(n));
  }

  ghost predicate Below1000(ns: seq<nat>) {
    forall i :: 0 <= i < |ns| ==> ns[i] < 1000
  }

  // Strictly positional: the base-1000 value of four fields is below 10^12.
  lemma {:induction false} PositionalBound(ns: seq<nat>)
    requires Below1000(ns)
    ensures Positional(ns) < Pow10(3 * |ns|)
  {
    if ns != [] {
      var n := |ns| - 1;
      PositionalBound(ns[..n]);
      assert Pow10(3 * n + 3) == 10 * Pow10(3 * n + 2) == 100 * Pow10(3 * n + 1) == 1000 * Pow10(3 * n);
    }
  }

  // `u` comes at or after `v` in lexicographic order; for equal lengths.
  predicate AtLeast(u: seq<nat>, v: seq<nat>)
    requires |u| == |v|
  {
    u == [] || u[0] > v[0] || (u[0] == v[0] && AtLeast(u[1..], v[1..]))
  }

  lemma {:induction false} PositionalFromFront(ns: seq<nat>)
    requires |ns| > 0
    ensures Positional(ns) == ns[0] * Pow10(3 * (|ns| - 1)) + Positional(ns[1..])
  {
    var n := |ns| - 1;
    if n == 0 {
      assert Positional(ns[..0]) == 0;
    } else {
      PositionalFromFront(ns[..n]);
      assert ns[1..][..n - 1] == ns[..n][1..];
      var p := Pow10(3 * (n - 1));
      assert Pow10(3 * n) == 10 * Pow10(3 * n - 1) == 100 * Pow10(3 * n - 2) == 1000 * p;
      assert 1000 * (ns[0] * p) == ns[0] * (1000 * p);
    }
  }

  // Numeric order is lexicographic order.
  lemma {:induction false} NumericIsLexicographic(u: seq<nat>, v: seq<nat>)
    requires |u| == |v| && Below1000(u) && Below1000(v)
    ensures Positional(u) >= Positional(v) <==> AtLeast(u, v)
  {
    if u != [] {
      NumericIsLexicographic(u[1..], v[1..]);
      PositionalFromFront(u);
      PositionalFromFront(v);
      PositionalBound(u[1..]);
      PositionalBound(v[1..]);
      HeadDecides(u[0], v[0], Pow10(3 * (|u| - 1)), Positional(u[1..]), Positional(v[1..]));
    }
  }

  lemma HeadDecides(x: nat, y: nat, p: nat, a: nat, b: nat)
    requires a < p && b < p
    ensures x * p + a >= y * p + b <==> x > y || (x == y && a >= b)
  {
    if x > y {
      OneMoreMultiple(x, y, p);
    } else if x < y {
      OneMoreMultiple(y, x, p);
    }
  }

  lemma OneMoreMultiple(x: nat, y: nat, p: nat)
    requires x > y
    ensures x * p >= y * p + p
  {
    var d := x - y - 1;
    assert x * p == (y + 1 + d) * p == y * p + p + d * p;
    assert d * p >= 0;
  }

  // ----- the two functions -----

  ghost predicate Accepts(system: Option<string>, update: Option<string>) {
    && system.Some?
    && update.Some?
    && exists s, u ::
         && IsVersionLine(system.value, s)
         && IsVersionLine(update.value, u)
         && AtLeast(Numbers(u), Numbers(s))
  }

  method HandleVersionString(versionStr: string) returns (versionNum: Option<nat>)
    ensures versionNum.Some? <==> exists fields :: IsVersionLine(versionStr, fields)
    ensures versionNum.Some? ==> versionNum.value < 1000_000_000_000
    ensures forall fields :: IsVersionLine(versionStr, fields) && versionNum.Some? ==>
              versionNum.value == Positional(Numbers(fields))
  {
    var matches := MatchVersion(versionStr);
    if matches.None? {
      forall fields ensures !IsVersionLine(versionStr, fields) {
        MatchIsExact(versionStr, fields);
      }
      return None;
    }
    var fields := matches.value;
    MatchIsExact(versionStr, fields);
    var versionStream := "";
    ghost var numbers := Numbers(fields);
    for i := 0 to |fields|
      invariant AllDigits(versionStream) && |versionStream| == 3 * i
      invariant ParseNat(versionStream) == Positional(numbers[..i])
    {
      FieldBelow1000(fields[i]);
      var num := ParseNat(fields[i]);
      AppendPadded(versionStream, num);
      PositionalStep(numbers, i);
      versionStream := versionStream + Padded(num);
    }
    assert numbers[..4] == numbers;
    FieldsBelow1000(fields);
    PositionalBound(numbers);
    TenToTheTwelfth();
    versionNum := Some(ParseNat(versionStream));
    forall other | IsVersionLine(versionStr, other) ensures other == fields {
      MatchIsExact(versionStr, other);
    }
  }

  lemma AppendPadded(s: string, n: nat)
    requires AllDigits(s) && n < 1000
    ensures AllDigits(s + Padded(n)) && |s + Padded(n)| == |s| + 3
    ensures ParseNat(s + Padded(n)) == 1000 * ParseNat(s) + n
  {
    PaddedMeans(n);
    ParseConcat(s, Padded(n));
    assert Pow10(1) == 10 && Pow10(2) == 100 && Pow10(3) == 1000;
  }

  lemma PositionalStep(ns: seq<nat>, i: nat)
    requires i < |ns|
    ensures Positional(ns[..i + 1]) == 1000 * Positional(ns[..i]) + ns[i]
  {
    assert ns[..i + 1][..i] == ns[..i];
  }

  lemma FieldsBelow1000(fields: seq<string>)
    requires forall i :: 0 <= i < |fields| ==> IsField(fields[i])
    ensures Below1000(Numbers(fields))
  {
    forall i | 0 <= i < |fields| ensures Numbers(fields)[i] < 1000 {
      FieldBelow1000(fields[i]);
    }
  }

  lemma TenToTheTwelfth()
    ensures Pow10(12) == 1000_000_000_000
  {
    assert Pow10(3) == 10 * Pow10(2) == 100 * Pow10(1) == 1000;
    assert Pow10(6) == 10 * Pow10(5) == 100 * Pow10(4) == 1000 * Pow10(3);
    assert Pow10(9) == 10 * Pow10(8) == 100 * Pow10(7) == 1000 * Pow10(6);
    assert Pow10(12) == 10 * Pow10(11) == 100 * Pow10(10) == 1000 * Pow10(9);
  }

  // `system` and `update` are the first lines of the two version files, if these could be read.
  method CheckCloudCfgVersion(system: Option<string>, update: Option<string>) returns (accepted: bool)
    ensures accepted <==> Accepts(system, update)
  {
    if system.None? || update.None? {
      return false;
    }
    var systemNum := HandleVersionString(system.value);
    if systemNum.None? {
      return false;
    }
    var updateNum := HandleVersionString(update.value);
    if updateNum.None? {
      return false;
    }
    forall s, u | IsVersionLine(system.value, s) && IsVersionLine(update.value, u)
      ensures updateNum.value >= systemNum.value <==> AtLeast(Numbers(u), Numbers(s))
    {
      FieldsBelow1000(s);
      FieldsBelow1000(u);
      NumericIsLexicographic(Numbers(u), Numbers(s));
    }
    return updateNum.value >= systemNum.value;
  }
}
