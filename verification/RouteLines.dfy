/**
 One line of the routing file, told without the parser's own steps: where a comment starts, how entries
 may be separated, and when an entry is accepted.
 */
module RouteLines {
  import opened Basics
  import opened Text
  import opened RouteTable
  import opened RouteText

  /** What may stand between two entries. */
  predicate IsSep(c: char) { IsSpace(c) || c == ',' }

  predicate AllSep(s: string) { forall i :: 0 <= i < |s| ==> IsSep(s[i]) }

  predicate NoSep(s: string) { forall i :: 0 <= i < |s| ==> !IsSep(s[i]) }

  function FieldEnd(s: string): (n: nat)
    ensures n <= |s| && NoSep(s[..n])
    ensures n < |s| ==> IsSep(s[n])
  {
    if s == "" || IsSep(s[0]) then 0 else 1 + FieldEnd(s[1..])
  }

  /** The maximal runs of characters that separate nothing. */
  function Fields(s: string): seq<string>
    decreases |s|
  {
    if s == "" then []
    else if IsSep(s[0]) then Fields(s[1..])
    else
      var n := FieldEnd(s);
      [s[..n]] + Fields(s[n..])
  }

  lemma {:induction false} FieldEndJoin(a: string, b: string)
    requires b == "" || IsSep(b[0])
    ensures FieldEnd(a + b) == FieldEnd(a)
  {
    hide IsSep;
    if a == "" {
      assert a + b == b;
    } else {
      assert (a + b)[1..] == a[1..] + b;
      FieldEndJoin(a[1..], b);
    }
  }

  /** A text is taken apart at any separator. */
  lemma {:induction false} FieldsJoin(a: string, b: string)
    requires b == "" || IsSep(b[0])
    ensures Fields(a + b) == Fields(a) + Fields(b)
    decreases |a|
  {
    hide IsSep;
    if a == "" {
      assert a + b == b;
    } else if IsSep(a[0]) {
      assert (a + b)[1..] == a[1..] + b;
      FieldsJoin(a[1..], b);
    } else {
      var n := FieldEnd(a);
      FieldEndJoin(a, b);
      assert (a + b)[..n] == a[..n] && (a + b)[n..] == a[n..] + b;
      FieldsJoin(a[n..], b);
    }
  }

  lemma {:induction false} OneField(f: string)
    requires NoSep(f)
    ensures Fields(f) == if f == "" then [] else [f]
  {
    hide IsSep;
    if f != "" {
      assert FieldEnd(f) == |f|;
      assert f[..|f|] == f && f[|f|..] == "";
    }
  }

  lemma {:induction false} SkipSeps(seps: string, rest: string)
    requires AllSep(seps)
    ensures Fields(seps + rest) == Fields(rest)
  {
    hide IsSep;
    if seps == "" {
      assert seps + rest == rest;
    } else {
      assert (seps + rest)[1..] == seps[1..] + rest;
      SkipSeps(seps[1..], rest);
    }
  }

  function BeforeComma(s: string): (n: nat)
    requires ',' in s
    ensures n < |s| && s[n] == ',' && ',' !in s[..n]
  {
    if s[0] == ',' then 0
    else
      var n := BeforeComma(s[1..]);
      assert s[..n + 1] == [s[0]] + s[1..][..n];
      1 + n
  }

  lemma FirstComma(a: string, b: string)
    requires NoSpace(a) && ',' !in a && NonEmpty(SplitOn(b, ',')) == Fields(b)
    ensures NonEmpty(SplitOn(a + [','] + b, ',')) == Fields(a + [','] + b)
  {
    hide Fields, SplitOn;
    assert a + [','] + b == a + ([','] + b);
    assert ([','] + b)[0] == ',';
    SplitPrefix(a, ',', b);
    FieldsJoin(a, [','] + b);
    SkipSeps([','], b);
    assert NoSep(a);
    OneField(a);
    NonEmptyCons(a, SplitOn(b, ','));
  }

  lemma NonEmptyCons(a: string, rest: seq<string>)
    ensures NonEmpty([a] + rest) == (if a == "" then [] else [a]) + NonEmpty(rest)
  {
    assert ([a] + rest)[1..] == rest;
  }

  /** Splitting one word at its commas, without the empty pieces. */
  lemma {:induction false} CommaFields(w: string)
    requires NoSpace(w)
    ensures NonEmpty(SplitOn(w, ',')) == Fields(w)
    decreases |w|
  {
    hide Fields, SplitOn;
    if ',' in w {
      var n := BeforeComma(w);
      var a, b := w[..n], w[n + 1..];
      assert w == a + [','] + b;
      CommaFields(b);
      FirstComma(a, b);
    } else {
      SplitFree(w, ',');
      OneField(w);
      assert NonEmpty([w][1..]) == [];
    }
  }

  /** The entries of a text are its fields: separated by commas, whitespace, or both. */
  lemma {:induction false} EntriesAreFields(text: string)
    ensures EntriesOf(Words(text)) == Fields(text)
    decreases |text|
  {
    hide NonEmpty, SplitOn, IsSpace;
    if text == "" {
    } else if IsSpace(text[0]) {
      EntriesAreFields(text[1..]);
    } else {
      var n := WordEnd(text);
      var w, rest := text[..n], text[n..];
      assert text == w + rest;
      hide Fields;
      EntriesAreFields(rest);
      CommaFields(w);
      FieldsJoin(w, rest);
      assert ([w] + Words(rest))[1..] == Words(rest);
    }
  }

  /** Entries with separators before each, of whatever length, and perhaps after the last. */
  function Weave(seps: seq<string>, es: seq<string>, tail: string): string
    requires |seps| == |es|
  {
    if es == [] then tail else seps[0] + es[0] + Weave(seps[1..], es[1..], tail)
  }

  /** However entries are separated, they are found again. */
  lemma {:induction false} FieldsOfWoven(seps: seq<string>, es: seq<string>, tail: string)
    requires |seps| == |es| && AllSep(tail)
    requires forall i :: 0 <= i < |es| ==> es[i] != "" && NoSep(es[i]) && seps[i] != "" && AllSep(seps[i])
    ensures Fields(Weave(seps, es, tail)) == es
  {
    hide Fields, IsSep;
    if es == [] {
      assert tail + "" == tail;
      SkipSeps(tail, "");
      OneField("");
    } else {
      var rest := Weave(seps[1..], es[1..], tail);
      FieldsOfWoven(seps[1..], es[1..], tail);
      assert Weave(seps, es, tail) == seps[0] + (es[0] + rest);
      SkipSeps(seps[0], es[0] + rest);
      WovenStarts(seps[1..], es[1..], tail);
      FieldsJoin(es[0], rest);
      OneField(es[0]);
      assert [es[0]] + es[1..] == es;
    }
  }

  lemma WovenStarts(seps: seq<string>, es: seq<string>, tail: string)
    requires |seps| == |es| && AllSep(tail)
    requires forall i :: 0 <= i < |es| ==> seps[i] != "" && AllSep(seps[i])
    ensures var w := Weave(seps, es, tail); w == "" || IsSep(w[0])
  {
    hide IsSep;
  }

  /** What a line says ends where a comment starts, and has no whitespace around it. */
  lemma ContentExactly(a: string, b: string)
    requires '#' !in a
    ensures Content(a) == Trim(a) == Content(a + "#" + b)
  {
    hide SplitOn, Trim;
    SplitFree(a, '#');
    SplitPrefix(a, '#', b);
  }

  /** What a line adds: its first word is a network not seen before, and the fields after it are entries,
      at least one; the first thing wrong is what it is refused for. */
  lemma LineExactly(lib: Lib, n: nat, rules: seq<Rule>, raw: string, net: string, text: string)
    requires Content(raw) == net + text && net != "" && NoSpace(net) && (text == "" || IsSpace(text[0]))
    ensures AddLine(lib, n, rules, raw) ==
      var parsed := lib.parseNet(net);
      var costs := AddEntries(lib, n, map[], Fields(text));
      if parsed.None? then Err(NotANetwork(n))
      else if exists r :: r in rules && SameNetwork(r.net, parsed.value) then Err(AppearsTwice(n))
      else if costs.Err? then Err(costs.error)
      else if Fields(text) == [] then Err(NoRelays(n))
      else Ok(rules + [Rule(parsed.value, costs.value)])
  {
    hide Content, Fields, Words, EntriesOf, AddEntries, SameNetwork, NoSpace, IsSpace;
    WordsCons(net, text);
    EntriesAreFields(text);
    assert ([net] + Words(text))[1..] == Words(text);
    EntriesMakeCosts(lib, n, map[], Fields(text));
    var parsed := lib.parseNet(net);
    if parsed.Some? { KnownIs(rules, parsed.value); }
  }

  lemma KnownIs(rules: seq<Rule>, net: Network)
    ensures Known(rules, net) <==> exists r :: r in rules && SameNetwork(r.net, net)
  {
    hide SameNetwork;
    if i :| 0 <= i < |rules| && SameNetwork(rules[i].net, net) { assert rules[i] in rules; }
  }

  lemma EntryAdds(lib: Lib, n: nat, costs: Costs, entry: string)
    ensures AddEntry(lib, n, costs, entry).Ok? ==> AddEntry(lib, n, costs, entry).value != map[]
  {
    hide Normalize, Trim, LastIndex;
    if AddEntry(lib, n, costs, entry).Ok? {
      assert Normalize(entry[..LastIndex(entry, '=')]) in AddEntry(lib, n, costs, entry).value;
    }
  }

  lemma {:induction false} EntriesMakeCosts(lib: Lib, n: nat, costs: Costs, es: seq<string>)
    ensures AddEntries(lib, n, costs, es).Ok? ==>
      (AddEntries(lib, n, costs, es).value == map[] <==> costs == map[] && es == [])
    decreases |es|
  {
    hide AddEntry;
    if es != [] {
      match AddEntry(lib, n, costs, es[0]) {
        case Err(_) =>
        case Ok(c) =>
          EntryAdds(lib, n, costs, es[0]);
          EntriesMakeCosts(lib, n, c, es[1..]);
      }
    }
  }

  /** What one entry adds, or why it is refused: cut at its last `=`. */
  lemma EntryExactly(lib: Lib, n: nat, costs: Costs, relay: string, ms: string)
    requires '=' !in ms
    ensures AddEntry(lib, n, costs, relay + "=" + ms) ==
      match lib.parseMs(ms)
      case NotANumber => Err(BadNumber(n))
      case NotFinite => Err(BadTime(n))
      case Number(v) =>
        if v < 0.0 then Err(BadTime(n))
        else if AllSpace(relay) then Err(NoRelayName(n))
        else if Normalize(relay) in costs then Err(RelayTwice(n))
        else Ok(costs[Normalize(relay) := v])
  {
    hide Normalize, Trim, LastIndex;
    var e := relay + "=" + ms;
    assert e == relay + ['='] + ms;
    LastIndexIs(relay, '=', ms);
    assert e[|relay|] == '=' && e[..|relay|] == relay && e[|relay| + 1..] == ms;
    BlankIsBlank(relay);
  }

  lemma BlankIsBlank(s: string)
    ensures Trim(s) == "" <==> AllSpace(s)
  {
    hide IsSpace;
    var before, after := TrimMeans(s);
    var t := Trim(s);
    if t != "" {
      assert s[|before|] == t[0] && !IsSpace(t[0]);
    } else {
      assert s == before + after;
    }
  }

  /** And without one it is refused for that. */
  lemma EntryWithoutEquals(lib: Lib, n: nat, costs: Costs, entry: string)
    requires '=' !in entry
    ensures AddEntry(lib, n, costs, entry) == Err(NotRelayMs(n))
  {
  }
}
