/**
 The string operations the relay list and the routing table are read with: `split`, `join`,
 `trim`, `split_whitespace`, `lines`, and how each undoes the way the text was put together.
 */
module Text {
  import opened Basics

  /** `char::is_whitespace`: the Unicode White_Space property. */
  predicate IsSpace(c: char) {
    var n := c as int;
    9 <= n <= 13 || n in {0x20, 0x85, 0xA0, 0x1680, 0x2028, 0x2029, 0x202F, 0x205F, 0x3000}
    || 0x2000 <= n <= 0x200A
  }

  predicate NoSpace(s: string) {
    forall i :: 0 <= i < |s| ==> !IsSpace(s[i])
  }

  /** Starts and ends with something other than whitespace, or is empty. */
  predicate Trimmed(s: string) {
    s == "" || (!IsSpace(s[0]) && !IsSpace(s[|s| - 1]))
  }

  function TrimStart(s: string): (r: string)
    ensures r == "" || !IsSpace(r[0])
    ensures |r| <= |s| && r == s[|s| - |r|..]
  {
    if s != "" && IsSpace(s[0]) then TrimStart(s[1..]) else s
  }

  function TrimEnd(s: string): (r: string)
    ensures r == "" || !IsSpace(r[|r| - 1])
    ensures |r| <= |s| && r == s[..|r|]
  {
    if s != "" && IsSpace(s[|s| - 1]) then TrimEnd(s[..|s| - 1]) else s
  }

  function Trim(s: string): (r: string)
    ensures Trimmed(r)
    ensures Trimmed(s) ==> r == s
  {
    TrimEnd(TrimStart(s))
  }

  /** Trimming brings in no character. */
  lemma TrimChars(s: string, c: char)
    requires c in Trim(s)
    ensures c in s
  {
  }

  /** `split(d)`: always at least one piece. */
  function SplitOn(s: string, d: char): (parts: seq<string>)
    ensures |parts| >= 1
  {
    if s == "" then [""]
    else
      var rest := SplitOn(s[1..], d);
      if s[0] == d then [""] + rest else [[s[0]] + rest[0]] + rest[1..]
  }

  function Join(parts: seq<string>, d: char): string {
    if |parts| == 0 then ""
    else if |parts| == 1 then parts[0]
    else parts[0] + [d] + Join(parts[1..], d)
  }

  /** No piece contains the separator, nor a character the text does not have. */
  lemma {:induction false} SplitChars(s: string, d: char, i: nat, c: char)
    requires i < |SplitOn(s, d)| && c in SplitOn(s, d)[i]
    ensures c != d && c in s
  {
    if s != "" {
      var rest := SplitOn(s[1..], d);
      if s[0] == d {
        assert SplitOn(s, d)[i] == if i == 0 then "" else rest[i - 1];
        if i > 0 { SplitChars(s[1..], d, i - 1, c); }
      } else if i > 0 || c in rest[0] {
        SplitChars(s[1..], d, i, c);
      }
    }
  }

  lemma {:induction false} SplitFree(a: string, d: char)
    requires d !in a
    ensures SplitOn(a, d) == [a]
  {
    if a != "" {
      SplitFree(a[1..], d);
      assert [a[0]] + a[1..] == a;
    }
  }

  lemma {:induction false} SplitPrefix(a: string, d: char, b: string)
    requires d !in a
    ensures SplitOn(a + [d] + b, d) == [a] + SplitOn(b, d)
  {
    var s := a + [d] + b;
    if a == "" {
      assert s[1..] == b;
    } else {
      SplitPrefix(a[1..], d, b);
      assert s[1..] == a[1..] + [d] + b;
      assert [a[0]] + a[1..] == a;
    }
  }

  /** Splitting undoes joining when no piece contains the separator. */
  lemma {:induction false} SplitJoin(parts: seq<string>, d: char)
    requires |parts| >= 1
    requires forall p :: p in parts ==> d !in p
    ensures SplitOn(Join(parts, d), d) == parts
  {
    if |parts| == 1 {
      SplitFree(parts[0], d);
    } else {
      SplitPrefix(parts[0], d, Join(parts[1..], d));
      SplitJoin(parts[1..], d);
    }
  }

  lemma {:induction false} JoinChars(parts: seq<string>, d: char, c: char)
    requires c in Join(parts, d)
    ensures c == d || exists p :: p in parts && c in p
  {
    if |parts| == 1 {
      assert parts[0] in parts;
    } else if |parts| > 1 {
      if c in parts[0] {
        assert parts[0] in parts;
      } else if c != d {
        JoinChars(parts[1..], d, c);
        var p :| p in parts[1..] && c in p;
        assert p in parts;
      }
    }
  }

  /** How many characters of `s` come before its first whitespace. */
  function WordEnd(s: string): (n: nat)
    ensures n <= |s| && NoSpace(s[..n])
    ensures n < |s| ==> IsSpace(s[n])
  {
    if s == "" || IsSpace(s[0]) then 0 else 1 + WordEnd(s[1..])
  }

  /** `split_whitespace`: the maximal runs of non-whitespace. */
  function Words(s: string): (ws: seq<string>)
    ensures forall w :: w in ws ==> w != "" && NoSpace(w)
    decreases |s|
  {
    if s == "" then []
    else if IsSpace(s[0]) then Words(s[1..])
    else
      var n := WordEnd(s);
      [s[..n]] + Words(s[n..])
  }

  lemma {:induction false} WordEndAt(w: string, rest: string)
    requires NoSpace(w)
    requires rest == "" || IsSpace(rest[0])
    ensures WordEnd(w + rest) == |w|
  {
    if w == "" {
      assert w + rest == rest;
    } else {
      assert (w + rest)[1..] == w[1..] + rest;
      WordEndAt(w[1..], rest);
    }
  }

  /** A word followed by whitespace (or the end) comes off the front whole. */
  lemma WordsCons(w: string, rest: string)
    requires w != "" && NoSpace(w)
    requires rest == "" || IsSpace(rest[0])
    ensures Words(w + rest) == [w] + Words(rest)
  {
    WordEndAt(w, rest);
    assert (w + rest)[..|w|] == w;
    assert (w + rest)[|w|..] == rest;
  }

  function StripCr(line: string): string {
    if line != "" && line[|line| - 1] == '\r' then line[..|line| - 1] else line
  }

  function StripCrs(ls: seq<string>): (r: seq<string>)
    ensures |r| == |ls| && forall i :: 0 <= i < |ls| ==> r[i] == StripCr(ls[i])
  {
    if ls == [] then [] else [StripCr(ls[0])] + StripCrs(ls[1..])
  }

  /** `str::lines`: a final line ending does not start another line. */
  function Lines(s: string): seq<string> {
    var parts := SplitOn(s, '\n');
    var last := |parts| - 1;
    StripCrs(parts[..last]) + if parts[last] == "" then [] else [parts[last]]
  }

  /** Writing each line with a line ending and reading the lines back gives the lines. */
  lemma LinesOfText(ls: seq<string>)
    requires forall l :: l in ls ==> '\n' !in l
    requires ls != []
    ensures Lines(Join(ls, '\n') + "\n") == StripCrs(ls)
  {
    JoinSnocEmpty(ls, '\n');
    SplitJoin(ls + [""], '\n');
    assert (ls + [""])[..|ls|] == ls;
  }

  lemma {:induction false} JoinSnocEmpty(ls: seq<string>, d: char)
    requires ls != []
    ensures Join(ls + [""], d) == Join(ls, d) + [d]
  {
    if |ls| == 1 {
      assert (ls + [""])[1..] == [""];
    } else {
      assert (ls + [""])[1..] == ls[1..] + [""];
      JoinSnocEmpty(ls[1..], d);
      calc {
        Join(ls + [""], d);
        ls[0] + [d] + (Join(ls[1..], d) + [d]);
        Join(ls, d) + [d];
      }
    }
  }

  function LowerChar(c: char): char {
    if 'A' <= c <= 'Z' then (c as int + 32) as char else c
  }

  /** `to_lowercase` on ASCII letters. */
  function Lower(s: string): (r: string)
    ensures |r| == |s| && forall i :: 0 <= i < |s| ==> r[i] == LowerChar(s[i])
  {
    if s == "" then "" else [LowerChar(s[0])] + Lower(s[1..])
  }

  const RELAY_PORT_SUFFIX: string := ":21117"

  /** A relay as it is compared: lower case, with hbbr's default port filled in. */
  function Normalize(relay: string): string {
    var r := Lower(Trim(relay));
    if ':' in r then r else r + RELAY_PORT_SUFFIX
  }

  lemma LowerSpace(s: string)
    ensures Trimmed(Lower(s)) == Trimmed(s)
  {
    assert forall c :: IsSpace(LowerChar(c)) == IsSpace(c);
  }

  lemma LowerFixed(s: string)
    requires forall i :: 0 <= i < |s| ==> LowerChar(s[i]) == s[i]
    ensures Lower(s) == s
  {
  }

  /** A lower-case `host:port` with no space around it is already normal. */
  lemma NormalizeFixed(s: string)
    requires Trimmed(s) && ':' in s
    requires forall i :: 0 <= i < |s| ==> LowerChar(s[i]) == s[i]
    ensures Normalize(s) == s
  {
    LowerFixed(s);
  }

  lemma SuffixTrimmed(r: string)
    requires Trimmed(r)
    ensures Trimmed(r + RELAY_PORT_SUFFIX) && ':' in r + RELAY_PORT_SUFFIX
  {
    var n := r + RELAY_PORT_SUFFIX;
    assert n[|r|] == ':' && n[|n| - 1] == '7';
    assert n[0] == if r == "" then ':' else r[0];
  }

  lemma LowerIdempotent(s: string)
    ensures forall i :: 0 <= i < |Lower(s)| ==> LowerChar(Lower(s)[i]) == Lower(s)[i]
  {
  }

  lemma SuffixLower(r: string)
    requires forall i :: 0 <= i < |r| ==> LowerChar(r[i]) == r[i]
    ensures var n := r + RELAY_PORT_SUFFIX; forall i :: 0 <= i < |n| ==> LowerChar(n[i]) == n[i]
  {
  }

  /** Normalising twice is normalising once. */
  lemma NormalizeIdempotent(relay: string)
    ensures Normalize(Normalize(relay)) == Normalize(relay)
  {
    hide Trim, Trimmed, Lower, LowerChar;
    var t := Trim(relay);
    var r := Lower(t);
    LowerSpace(t);
    LowerIdempotent(t);
    SuffixTrimmed(r);
    SuffixLower(r);
    NormalizeFixed(Normalize(relay));
  }

  predicate AllDigits(s: string) {
    forall i :: 0 <= i < |s| ==> '0' <= s[i] <= '9'
  }

  function DigitsValue(s: string): (n: nat)
    requires AllDigits(s)
  {
    if s == "" then 0 else DigitsValue(s[..|s| - 1]) * 10 + (s[|s| - 1] as int - '0' as int)
  }

  function Pow10(k: nat): (p: nat)
    ensures p > 0
  {
    if k == 0 then 1 else 10 * Pow10(k - 1)
  }

  /** What digits, a point and digits stand for. */
  function ReadDecimal(s: string): Option<real> {
    var parts := SplitOn(s, '.');
    if |parts| == 2 && parts[0] != "" && parts[1] != "" && AllDigits(parts[0]) && AllDigits(parts[1]) then
      Some(DigitsValue(parts[0]) as real + DigitsValue(parts[1]) as real / Pow10(|parts[1]|) as real)
    else None
  }

  function Digit(d: nat): char
    requires d < 10
  {
    (d + '0' as int) as char
  }

  function NatText(n: nat): string {
    if n < 10 then [Digit(n)] else NatText(n / 10) + [Digit(n % 10)]
  }

  lemma {:induction false} NatTextDigits(n: nat)
    ensures NatText(n) != "" && forall i :: 0 <= i < |NatText(n)| ==> '0' <= NatText(n)[i] <= '9'
  {
    if n >= 10 { NatTextDigits(n / 10); }
  }

  lemma {:induction false} NatTextValue(n: nat)
    ensures AllDigits(NatText(n)) && DigitsValue(NatText(n)) == n
  {
    NatTextDigits(n);
    if n >= 10 {
      NatTextValue(n / 10);
      var t := NatText(n);
      assert t[..|t| - 1] == NatText(n / 10);
    }
  }

  predicate AllSpace(s: string) {
    forall i :: 0 <= i < |s| ==> IsSpace(s[i])
  }

  lemma {:induction false} TrimStartMeans(s: string)
    ensures forall i :: 0 <= i < |s| - |TrimStart(s)| ==> IsSpace(s[i])
  {
    hide IsSpace;
    if s != "" && IsSpace(s[0]) {
      TrimStartMeans(s[1..]);
      forall i | 0 <= i < |s| - |TrimStart(s)| ensures IsSpace(s[i]) {
        if i > 0 { assert s[i] == s[1..][i - 1]; }
      }
    }
  }

  lemma {:induction false} TrimEndMeans(s: string)
    ensures forall i :: |TrimEnd(s)| <= i < |s| ==> IsSpace(s[i])
  {
    hide IsSpace;
    if s != "" && IsSpace(s[|s| - 1]) {
      TrimEndMeans(s[..|s| - 1]);
      forall i | |TrimEnd(s)| <= i < |s| ensures IsSpace(s[i]) {
        if i < |s| - 1 { assert s[i] == s[..|s| - 1][i]; }
      }
    }
  }

  /** Trimming takes whitespace off both ends, all of it, and nothing else. */
  lemma TrimMeans(s: string) returns (before: string, after: string)
    ensures s == before + Trim(s) + after && AllSpace(before) && AllSpace(after) && Trimmed(Trim(s))
  {
    hide IsSpace, TrimStart, TrimEnd, Trimmed;
    var rest := TrimStart(s);
    var kept := TrimEnd(rest);
    assert Trim(s) == kept;
    TrimStartMeans(s);
    TrimEndMeans(rest);
    before, after := s[..|s| - |rest|], rest[|kept|..];
    CutTwice(s, rest, kept);
  }

  lemma CutTwice(s: string, rest: string, kept: string)
    requires |rest| <= |s| && rest == s[|s| - |rest|..] && |kept| <= |rest| && kept == rest[..|kept|]
    ensures s == s[..|s| - |rest|] + kept + rest[|kept|..]
  {
    assert rest == kept + rest[|kept|..];
  }

  /** The same letters, in either case. */
  predicate SameButCase(s: string, t: string) {
    |s| == |t| && forall i :: 0 <= i < |s| ==>
      || s[i] == t[i]
      || ('A' <= s[i] <= 'Z' && t[i] as int == s[i] as int + 32)
      || ('A' <= t[i] <= 'Z' && s[i] as int == t[i] as int + 32)
  }

  lemma LowerIgnoresCase(s: string, t: string)
    requires SameButCase(s, t)
    ensures Lower(s) == Lower(t)
  {
    assert |Lower(s)| == |Lower(t)|;
    assert forall i :: 0 <= i < |s| ==> LowerChar(s[i]) == LowerChar(t[i]);
  }

  /** Relay names compare without regard to case, to whitespace around them, or to whether the default port
      is written out. */
  lemma NamesCompare(s: string, t: string)
    requires Trimmed(s) && Trimmed(t)
    ensures SameButCase(s, t) ==> Normalize(s) == Normalize(t)
    ensures ':' !in s ==> Normalize(s) == Normalize(s + ":21117") == Lower(s) + ":21117"
    ensures ':' in s ==> Normalize(s) == Lower(s)
    ensures forall u :: Trim(u) == s ==> Normalize(u) == Normalize(s)
  {
    hide Trim, Lower, Trimmed, SameButCase;
    if SameButCase(s, t) { LowerIgnoresCase(s, t); }
    LowerColon(s);
    if ':' !in s { PortWrittenOut(s); }
  }

  lemma PortWrittenOut(s: string)
    requires Trimmed(s) && ':' !in s
    ensures Normalize(s + ":21117") == Lower(s) + ":21117"
  {
    hide Trim, Trimmed, Lower;
    SuffixTrimmed(s);
    LowerSuffix(s);
  }

  lemma LowerSuffix(s: string)
    ensures Lower(s + RELAY_PORT_SUFFIX) == Lower(s) + RELAY_PORT_SUFFIX
    ensures ':' in Lower(s) + RELAY_PORT_SUFFIX
  {
    hide Lower;
    var n := s + RELAY_PORT_SUFFIX;
    assert forall i :: |s| <= i < |n| ==> LowerChar(n[i]) == RELAY_PORT_SUFFIX[i - |s|];
    assert (Lower(s) + RELAY_PORT_SUFFIX)[|s|] == ':';
  }

  lemma LowerColon(s: string)
    ensures ':' in Lower(s) <==> ':' in s
  {
    if ':' in Lower(s) {
      var i :| 0 <= i < |s| && Lower(s)[i] == ':';
      assert s[i] == ':';
    }
    if ':' in s {
      var i :| 0 <= i < |s| && s[i] == ':';
      assert Lower(s)[i] == ':';
    }
  }

  /** A last line without a line ending is a line too, as it stands. */
  lemma LinesOfUnended(ls: seq<string>)
    requires ls != [] && ls[|ls| - 1] != ""
    requires forall l :: l in ls ==> '\n' !in l
    ensures Lines(Join(ls, '\n')) == StripCrs(ls[..|ls| - 1]) + [ls[|ls| - 1]]
  {
    hide SplitOn, Join, StripCrs;
    SplitJoin(ls, '\n');
  }

  function WithCrs(ls: seq<string>): (r: seq<string>)
    ensures |r| == |ls| && forall i :: 0 <= i < |ls| ==> r[i] == ls[i] + "\r"
  {
    if ls == [] then [] else [ls[0] + "\r"] + WithCrs(ls[1..])
  }

  /** Lines come out the same from either kind of line ending. */
  lemma LineEndingsAlike(ls: seq<string>)
    requires ls != [] && forall l :: l in ls ==> '\n' !in l && '\r' !in l
    ensures Lines(Join(ls, '\n') + "\n") == ls == Lines(Join(WithCrs(ls), '\n') + "\n")
  {
    hide Lines, Join, WithCrs;
    var crs := WithCrs(ls);
    forall l | l in crs ensures '\n' !in l {
      var i :| 0 <= i < |crs| && crs[i] == l;
      assert ls[i] in ls;
    }
    LinesOfText(ls);
    LinesOfText(crs);
    forall i | 0 <= i < |ls| ensures StripCr(ls[i]) == ls[i] == StripCr(crs[i]) {
      assert ls[i] in ls;
    }
  }
}
