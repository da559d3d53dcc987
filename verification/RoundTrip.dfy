/**
 The file `relay_rtt.py routes` writes, and that the parser reads back from it exactly the
 networks and costs that were written.
 */
module RoundTrip {
  import opened Basics
  import opened Text
  import opened RouteTable
  import opened RouteText
  import opened FileOrder

  /** A relay's cost from a site: the node it was measured as, and tenths of a millisecond. */
  datatype Item = Item(node: string, tenths: nat)

  /** How the tool writes a network and names a relay. */
  datatype Printer = Printer(net: Network -> string, names: map<string, string>)

  datatype OutLine = Note(text: string) | Route(net: Network, items: seq<Item>)

  /* ---------------------------------------------------------------- the printer */

  /** `{v:.1f}` of a number of tenths. */
  function TenthsText(v: nat): string {
    NatText(v / 10) + "." + [Digit(v % 10)]
  }

  predicate Named(p: Printer, items: seq<Item>) {
    forall x :: x in items ==> x.node in p.names
  }

  function ItemText(p: Printer, x: Item): string
    requires x.node in p.names
  {
    p.names[x.node] + "=" + TenthsText(x.tenths)
  }

  function ItemTexts(p: Printer, items: seq<Item>): (r: seq<string>)
    requires Named(p, items)
    ensures |r| == |items|
  {
    if items == [] then [] else [ItemText(p, items[0])] + ItemTexts(p, items[1..])
  }

  /** The entries of a line, in whatever order, joined with commas. */
  function EntryText(p: Printer, items: seq<Item>): string
    requires Named(p, items)
  {
    Join(ItemTexts(p, items), ',')
  }

  function LineText(p: Printer, l: OutLine): string
    requires l.Route? ==> Named(p, l.items)
  {
    match l
    case Note(text) => text
    case Route(net, items) => p.net(net) + "  " + EntryText(p, items)
  }

  predicate AllNamed(p: Printer, out: seq<OutLine>) {
    forall i :: 0 <= i < |out| ==> out[i].Route? ==> Named(p, out[i].items)
  }

  function LineTexts(p: Printer, out: seq<OutLine>): (r: seq<string>)
    requires AllNamed(p, out)
    ensures |r| == |out| && forall i :: 0 <= i < |out| ==> r[i] == LineText(p, out[i])
  {
    seq(|out|, i requires 0 <= i < |out| => LineText(p, out[i]))
  }

  function FileText(p: Printer, out: seq<OutLine>): string
    requires AllNamed(p, out)
  {
    Join(LineTexts(p, out), '\n') + "\n"
  }

  /* ---------------------------------------------------------------- what is assumed of the parts not seen */

  /** A lower-case `host:port` free of whitespace, comma and `#`. */
  predicate CleanName(s: string) {
    && ':' in s && NoSpace(s) && ',' !in s && '#' !in s
    && forall i :: 0 <= i < |s| ==> LowerChar(s[i]) == s[i]
  }

  predicate IsNote(text: string) {
    (text == "" || text[0] == '#') && '\n' !in text
  }

  predicate WellFormed(p: Printer, out: seq<OutLine>) {
    forall i :: 0 <= i < |out| ==>
      match out[i]
      case Note(text) => IsNote(text)
      case Route(_, items) =>
        items != [] && Named(p, items) &&
        forall x :: x in items ==> CleanName(p.names[x.node])
  }

  /** The parser's network library reads what the tool prints for a network as that network, and its
      number reader reads digits, a point and digits as the number they stand for. */
  ghost predicate Readable(lib: Lib, p: Printer) {
    && (forall n: Network :: p.net(n) != "" && NoSpace(p.net(n)) && '#' !in p.net(n))
    && (forall n: Network :: lib.parseNet(p.net(n)) == Some(n))
    && (forall s :: ReadDecimal(s).Some? ==> lib.parseMs(s) == Number(ReadDecimal(s).value))
  }

  /* ---------------------------------------------------------------- what the file means */

  predicate DistinctNames(p: Printer, items: seq<Item>)
    requires Named(p, items)
  {
    forall i, j :: 0 <= i < j < |items| ==> p.names[items[i].node] != p.names[items[j].node]
  }

  /** Relay name -> milliseconds. */
  function CostMap(p: Printer, items: seq<Item>): Costs
    requires Named(p, items)
  {
    if items == [] then map[]
    else CostMap(p, items[1..])[p.names[items[0].node] := items[0].tenths as real / 10.0]
  }

  function TableRules(p: Printer, out: seq<OutLine>): seq<Rule>
    requires AllNamed(p, out)
  {
    if out == [] then []
    else
      var rest := TableRules(p, out[1..]);
      if out[0].Route? then [Rule(out[0].net, CostMap(p, out[0].items))] + rest else rest
  }

  /* ---------------------------------------------------------------- one entry */

  lemma TenthsClean(v: nat)
    ensures TenthsText(v) != "" && NoSpace(TenthsText(v))
    ensures forall c :: c in TenthsText(v) ==> c == '.' || '0' <= c <= '9'
    ensures '0' <= TenthsText(v)[|TenthsText(v)| - 1] <= '9'
  {
    NatTextDigits(v / 10);
  }

  lemma CleanNameRead(name: string)
    requires CleanName(name)
    ensures Trim(name) == name != "" && Normalize(name) == name
  {
    NormalizeFixed(name);
  }

  lemma DigitValue(d: nat)
    requires d < 10
    ensures AllDigits([Digit(d)]) && DigitsValue([Digit(d)]) == d
  {
    assert [Digit(d)][..0] == "";
  }

  /** A printed number of tenths stands for that number of tenths. */
  lemma TenthsRead(v: nat)
    ensures ReadDecimal(TenthsText(v)) == Some(v as real / 10.0)
  {
    hide SplitOn, NatText, DigitsValue, AllDigits, Pow10;
    var whole, tenth := NatText(v / 10), [Digit(v % 10)];
    assert TenthsText(v) == whole + ['.'] + tenth;
    NatTextDigits(v / 10);
    NatTextValue(v / 10);
    DigitValue(v % 10);
    assert '.' !in whole && '.' !in tenth;
    SplitPrefix(whole, '.', tenth);
    SplitFree(tenth, '.');
    hide ReadDecimal;
    OnePlace(TenthsText(v), whole, tenth);
    TenthsSum(v);
  }

  /** With one digit after the point. */
  lemma OnePlace(s: string, whole: string, tenth: string)
    requires SplitOn(s, '.') == [whole, tenth] && whole != "" && |tenth| == 1
    requires AllDigits(whole) && AllDigits(tenth)
    ensures ReadDecimal(s) == Some(DigitsValue(whole) as real + DigitsValue(tenth) as real / 10.0)
  {
    hide SplitOn, DigitsValue, AllDigits;
    assert Pow10(1) == 10 by { assert Pow10(0) == 1; }
  }

  lemma TenthsSum(v: nat)
    ensures (v / 10) as real + (v % 10) as real / 10.0 == v as real / 10.0
  {
    assert v == v / 10 * 10 + v % 10;
  }

  lemma CostRead(lib: Lib, p: Printer, v: nat)
    requires Readable(lib, p)
    ensures lib.parseMs(TenthsText(v)) == Number(v as real / 10.0)
  {
    hide ReadDecimal, TenthsText;
    TenthsRead(v);
  }

  /** A written entry is read as its relay and cost, or refused if the relay is already there. */
  lemma EntryRead(lib: Lib, p: Printer, n: nat, costs: Costs, x: Item)
    requires Readable(lib, p) && x.node in p.names && CleanName(p.names[x.node])
    ensures AddEntry(lib, n, costs, ItemText(p, x)) ==
      if p.names[x.node] in costs then Err(RelayTwice(n))
      else Ok(costs[p.names[x.node] := x.tenths as real / 10.0])
  {
    hide TenthsText, Normalize, Trim, CleanName, Readable, LastIndex;
    CostRead(lib, p, x.tenths);
    var name, t := p.names[x.node], TenthsText(x.tenths);
    var e := ItemText(p, x);
    TenthsClean(x.tenths);
    assert e == name + ['='] + t;
    LastIndexIs(name, '=', t);
    assert e[..|name|] == name && e[|name| + 1..] == t;
    CleanNameRead(name);
  }

  ghost predicate Apart(p: Printer, items: seq<Item>, costs: Costs)
    requires Named(p, items)
  {
    forall i :: 0 <= i < |items| ==> p.names[items[i].node] !in costs
  }

  /** Entries written in any order are read exactly when no relay repeats. */
  lemma {:induction false} EntriesRead(lib: Lib, p: Printer, n: nat, costs: Costs, items: seq<Item>)
    requires Readable(lib, p) && Named(p, items)
    requires forall x :: x in items ==> CleanName(p.names[x.node])
    ensures AddEntries(lib, n, costs, ItemTexts(p, items)).Ok? <==>
      DistinctNames(p, items) && Apart(p, items, costs)
    ensures AddEntries(lib, n, costs, ItemTexts(p, items)).Ok? ==>
      AddEntries(lib, n, costs, ItemTexts(p, items)).value == costs + CostMap(p, items)
    decreases |items|
  {
    hide CleanName, Readable, AddEntry, ItemText, DistinctNames, Apart;
    if items == [] {
      assert costs + map[] == costs;
      assert DistinctNames(p, []) && Apart(p, [], costs) by { NothingClashes(p, costs); }
    } else {
      var x, rest := items[0], items[1..];
      var name := p.names[x.node];
      EntryRead(lib, p, n, costs, x);
      assert ItemTexts(p, items)[1..] == ItemTexts(p, rest);
      FirstClash(p, items, costs);
      if name !in costs {
        var c := costs[name := x.tenths as real / 10.0];
        EntriesRead(lib, p, n, c, rest);
        if DistinctNames(p, rest) && Apart(p, rest, c) {
          FirstCost(p, items, costs);
        }
      }
    }
  }

  lemma NothingClashes(p: Printer, costs: Costs)
    ensures Named(p, []) && DistinctNames(p, []) && Apart(p, [], costs)
  {
  }

  lemma FirstClash(p: Printer, items: seq<Item>, costs: Costs)
    requires items != [] && Named(p, items)
    ensures var x, rest := items[0], items[1..];
      DistinctNames(p, items) && Apart(p, items, costs) <==>
        && p.names[x.node] !in costs && DistinctNames(p, rest)
        && Apart(p, rest, costs[p.names[x.node] := x.tenths as real / 10.0])
  {
    var rest := items[1..];
    assert forall i :: 0 <= i < |rest| ==> rest[i] == items[i + 1];
    assert forall i :: 0 < i < |items| ==> items[i] == rest[i - 1];
  }

  lemma FirstCost(p: Printer, items: seq<Item>, costs: Costs)
    requires items != [] && Named(p, items)
    requires Apart(p, items[1..], costs[p.names[items[0].node] := items[0].tenths as real / 10.0])
    ensures costs[p.names[items[0].node] := items[0].tenths as real / 10.0] + CostMap(p, items[1..])
      == costs + CostMap(p, items)
  {
    var rest := items[1..];
    var name := p.names[items[0].node];
    forall i | 0 <= i < |rest| ensures p.names[rest[i].node] != name {
      assert p.names[rest[i].node] !in costs[name := items[0].tenths as real / 10.0];
    }
    CostMapKeys(p, rest, name);
  }

  lemma {:induction false} CostMapKeys(p: Printer, items: seq<Item>, name: string)
    requires Named(p, items)
    requires forall i :: 0 <= i < |items| ==> p.names[items[i].node] != name
    ensures name !in CostMap(p, items)
  {
    if items != [] {
      assert items[0] in items;
      CostMapKeys(p, items[1..], name);
    }
  }

  /** With no relay twice, the map says of each item exactly its cost, and of nothing else. */
  lemma CostMapMeans(p: Printer, items: seq<Item>)
    requires Named(p, items) && DistinctNames(p, items)
    ensures forall x :: x in items ==>
      p.names[x.node] in CostMap(p, items) && CostMap(p, items)[p.names[x.node]] == x.tenths as real / 10.0
    ensures forall k :: k in CostMap(p, items) ==> exists x :: x in items && p.names[x.node] == k
  {
    hide CostMap, DistinctNames;
    forall x | x in items
      ensures p.names[x.node] in CostMap(p, items)
      ensures CostMap(p, items)[p.names[x.node]] == x.tenths as real / 10.0
    {
      var i :| 0 <= i < |items| && items[i] == x;
      CostMapAt(p, items, i);
    }
    forall k | k in CostMap(p, items) ensures exists x :: x in items && p.names[x.node] == k {
      if forall i :: 0 <= i < |items| ==> p.names[items[i].node] != k {
        CostMapKeys(p, items, k);
      } else {
        var i :| 0 <= i < |items| && p.names[items[i].node] == k;
        assert items[i] in items;
      }
    }
  }

  lemma {:induction false} CostMapAt(p: Printer, items: seq<Item>, i: nat)
    requires Named(p, items) && DistinctNames(p, items) && i < |items|
    ensures p.names[items[i].node] in CostMap(p, items)
    ensures CostMap(p, items)[p.names[items[i].node]] == items[i].tenths as real / 10.0
  {
    if i > 0 {
      var rest := items[1..];
      assert forall k :: 0 <= k < |rest| ==> rest[k] == items[k + 1];
      CostMapAt(p, rest, i - 1);
      assert p.names[items[0].node] != p.names[items[i].node];
    }
  }

  /* ---------------------------------------------------------------- one line */

  lemma ItemTextClean(p: Printer, x: Item)
    requires x.node in p.names && CleanName(p.names[x.node])
    ensures var t := ItemText(p, x); t != "" && NoSpace(t) && ',' !in t && '#' !in t && '\n' !in t
    ensures var t := ItemText(p, x); '0' <= t[|t| - 1] <= '9'
  {
    hide TenthsText;
    TenthsClean(x.tenths);
  }

  predicate CleanText(s: string) {
    s != "" && NoSpace(s) && '#' !in s && '0' <= s[|s| - 1] <= '9'
  }

  lemma {:induction false} JoinClean(ts: seq<string>)
    requires ts != []
    requires forall t :: t in ts ==> CleanText(t)
    ensures CleanText(Join(ts, ','))
  {
    if |ts| > 1 {
      JoinClean(ts[1..]);
      assert CleanText(ts[0]);
      var rest := Join(ts[1..], ',');
      var all := Join(ts, ',');
      assert all[|all| - 1] == rest[|rest| - 1];
    }
  }

  lemma {:induction false} ItemTextsClean(p: Printer, items: seq<Item>)
    requires Named(p, items)
    requires forall x :: x in items ==> CleanName(p.names[x.node])
    ensures forall t :: t in ItemTexts(p, items) ==> CleanText(t) && ',' !in t
  {
    hide CleanName, ItemText;
    if items != [] {
      ItemTextsClean(p, items[1..]);
      ItemTextClean(p, items[0]);
    }
  }

  lemma {:induction false} NonEmptyAll(ts: seq<string>)
    requires forall i :: 0 <= i < |ts| ==> ts[i] != ""
    ensures NonEmpty(ts) == ts
  {
    if ts != [] {
      NonEmptyAll(ts[1..]);
      assert ts == [ts[0]] + ts[1..];
    }
  }

  lemma ContentOfClean(s: string)
    requires s != "" && !IsSpace(s[0]) && !IsSpace(s[|s| - 1]) && '#' !in s
    ensures Content(s) == s
  {
    SplitFree(s, '#');
  }

  /** The words of a written line are its network and its entries. */
  lemma LineWords(net: string, entry: string)
    requires net != "" && NoSpace(net) && CleanText(entry)
    ensures Words(net + "  " + entry) == [net, entry]
  {
    assert IsSpace(' ');
    hide IsSpace;
    assert net + "  " + entry == net + ("  " + entry);
    WordsCons(net, "  " + entry);
    assert ("  " + entry)[1..] == " " + entry;
    assert (" " + entry)[1..] == entry;
    assert entry + "" == entry;
    WordsCons(entry, "");
  }

  /** What is printed after the network: one word, taken apart again into the items. */
  lemma EntryTextRead(p: Printer, items: seq<Item>)
    requires items != [] && Named(p, items)
    requires forall x :: x in items ==> CleanName(p.names[x.node])
    ensures CleanText(EntryText(p, items))
    ensures EntriesOf([EntryText(p, items)]) == ItemTexts(p, items)
  {
    hide CleanName, ItemText, Join, CleanText, ItemTexts, EntriesOf;
    ItemTextsClean(p, items);
    TextsOneWord(ItemTexts(p, items));
  }

  lemma TextsOneWord(ts: seq<string>)
    requires ts != [] && forall t :: t in ts ==> CleanText(t) && ',' !in t
    ensures CleanText(Join(ts, ',')) && EntriesOf([Join(ts, ',')]) == ts
  {
    hide SplitOn, Join;
    JoinClean(ts);
    SplitJoin(ts, ',');
    forall i | 0 <= i < |ts| ensures ts[i] != "" { assert ts[i] in ts; }
    NonEmptyAll(ts);
    assert ts + [] == ts;
    assert EntriesOf([Join(ts, ',')][1..]) == [];
  }

  lemma LineClean(net: string, entry: string)
    requires net != "" && NoSpace(net) && '#' !in net && CleanText(entry)
    ensures var raw := net + "  " + entry;
      && Content(raw) == raw != "" && StripCr(raw) == raw && '\n' !in raw
      && Words(raw) == [net, entry]
  {
    hide Content, IsSpace, Words;
    var raw := net + "  " + entry;
    NoNewline(net);
    NoNewline(entry);
    LineWords(net, entry);
    assert raw[0] == net[0] && raw[|raw| - 1] == entry[|entry| - 1];
    DigitNotSpace(raw[|raw| - 1]);
    ContentOfClean(raw);
  }

  lemma RouteLineText(lib: Lib, p: Printer, net: Network, items: seq<Item>)
    requires Readable(lib, p) && items != [] && Named(p, items)
    requires forall x :: x in items ==> CleanName(p.names[x.node])
    ensures var raw := LineText(p, Route(net, items));
      && Content(raw) == raw != "" && StripCr(raw) == raw && '\n' !in raw
      && Words(raw) == [p.net(net), EntryText(p, items)]
    ensures EntriesOf([EntryText(p, items)]) == ItemTexts(p, items)
  {
    hide CleanName, Readable, Content, EntryText, Words, EntriesOf, ItemTexts, CleanText;
    EntryTextRead(p, items);
    NetTextClean(lib, p, net);
    LineClean(p.net(net), EntryText(p, items));
  }

  lemma NoNewline(s: string)
    requires NoSpace(s)
    ensures '\n' !in s
  {
  }

  lemma DigitNotSpace(c: char)
    requires '0' <= c <= '9'
    ensures !IsSpace(c) && c != '\r'
  {
  }

  lemma NetTextClean(lib: Lib, p: Printer, net: Network)
    requires Readable(lib, p)
    ensures p.net(net) != "" && NoSpace(p.net(net)) && '#' !in p.net(net) && '\n' !in p.net(net)
    ensures lib.parseNet(p.net(net)) == Some(net)
  {
  }

  /** A written route line is good exactly when it names no relay twice, and is then that rule. */
  lemma RouteLineRead(lib: Lib, p: Printer, net: Network, items: seq<Item>)
    requires Readable(lib, p) && items != [] && Named(p, items)
    requires forall x :: x in items ==> CleanName(p.names[x.node])
    ensures LineRules(lib, LineText(p, Route(net, items))) ==
      if DistinctNames(p, items) then Some([Rule(net, CostMap(p, items))]) else None
  {
    hide CleanName, Readable, Content, EntriesOf, Words, LineText, DistinctNames, CostMap;
    hide AddEntries, ItemTexts, EntryText;
    RouteLineText(lib, p, net, items);
    NetTextClean(lib, p, net);
    EntriesRead(lib, p, 0, map[], items);
    assert [p.net(net), EntryText(p, items)][1..] == [EntryText(p, items)];
    assert Apart(p, items, map[]);
    if DistinctNames(p, items) {
      var costs := CostMap(p, items);
      assert map[] + costs == costs;
      CostMapMeans(p, items);
      assert items[0] in items;
      assert costs != map[];
      assert [] + [Rule(net, costs)] == [Rule(net, costs)];
    }
  }

  lemma NoteRead(lib: Lib, text: string)
    requires IsNote(text)
    ensures LineRules(lib, StripCr(text)) == Some([]) && '\n' !in text
  {
    var t := StripCr(text);
    assert SplitOn(t, '#')[0] == "";
  }

  /* ---------------------------------------------------------------- the whole file */

  predicate AllDistinctNames(p: Printer, out: seq<OutLine>)
    requires AllNamed(p, out)
  {
    forall i :: 0 <= i < |out| ==> out[i].Route? ==> DistinctNames(p, out[i].items)
  }

  lemma {:induction false} FileLinesRead(lib: Lib, p: Printer, out: seq<OutLine>)
    requires Readable(lib, p) && WellFormed(p, out)
    ensures AllNamed(p, out)
    ensures LinesGood(lib, StripCrs(LineTexts(p, out))) <==> AllDistinctNames(p, out)
    ensures AllDistinctNames(p, out) ==> RulesOf(lib, StripCrs(LineTexts(p, out))) == TableRules(p, out)
    ensures forall i :: 0 <= i < |out| ==> '\n' !in LineText(p, out[i])
  {
    hide CleanName, Readable, LineRules, LineText, StripCr, IsNote, DistinctNames, CostMap, LinesGood;
    if out == [] {
      assert LinesGood(lib, []) by { NoLinesGood(lib); }
    } else {
      var l, rest := out[0], out[1..];
      assert forall i :: 0 <= i < |rest| ==> rest[i] == out[i + 1];
      assert forall i :: 0 < i < |out| ==> out[i] == rest[i - 1];
      FileLinesRead(lib, p, rest);
      OutLineRead(lib, p, l);
      var ls, rs := StripCrs(LineTexts(p, out)), StripCrs(LineTexts(p, rest));
      assert ls == [StripCr(LineText(p, l))] + rs;
      assert ls[1..] == rs;
      GoodCons(lib, ls);
      assert AllDistinctNames(p, out) <==>
        (l.Route? ==> DistinctNames(p, l.items)) && AllDistinctNames(p, rest);
    }
  }

  lemma NoLinesGood(lib: Lib)
    ensures LinesGood(lib, [])
  {
  }

  lemma GoodCons(lib: Lib, ls: seq<string>)
    requires ls != []
    ensures LinesGood(lib, ls) <==> LineRules(lib, ls[0]).Some? && LinesGood(lib, ls[1..])
  {
    hide LineRules;
    assert forall i :: 0 <= i < |ls| - 1 ==> ls[1..][i] == ls[i + 1];
  }

  lemma OutLineRead(lib: Lib, p: Printer, l: OutLine)
    requires Readable(lib, p) && WellFormed(p, [l])
    ensures l.Route? ==> Named(p, l.items)
    ensures '\n' !in LineText(p, l)
    ensures LineRules(lib, StripCr(LineText(p, l))) ==
      if l.Note? then Some([])
      else if DistinctNames(p, l.items) then Some([Rule(l.net, CostMap(p, l.items))])
      else None
  {
    hide CleanName, Readable, LineRules, StripCr, IsNote, DistinctNames, CostMap;
    assert [l][0] == l;
    if l.Note? {
      NoteRead(lib, l.text);
    } else {
      RouteLineText(lib, p, l.net, l.items);
      RouteLineRead(lib, p, l.net, l.items);
    }
  }

  /** Each line of the table is one of its rules. */
  lemma {:induction false} RouteInTable(p: Printer, out: seq<OutLine>, i: nat)
    requires AllNamed(p, out) && i < |out| && out[i].Route?
    ensures Rule(out[i].net, CostMap(p, out[i].items)) in TableRules(p, out)
  {
    hide CostMap;
    if i > 0 { RouteInTable(p, out[1..], i - 1); }
  }

  /** Reading back what was written: the file is accepted exactly when no network and, within a
      line, no relay appears twice, and it then holds exactly the networks and costs written. */
  lemma WrittenFileIsRead(lib: Lib, p: Printer, out: seq<OutLine>)
    requires Readable(lib, p) && WellFormed(p, out)
    requires exists i :: 0 <= i < |out| && out[i].Route?
    ensures AllNamed(p, out)
    ensures Parse(lib, FileText(p, out)).Ok? <==>
      AllDistinctNames(p, out) && DistinctNets(TableRules(p, out))
    ensures Parse(lib, FileText(p, out)).Ok? ==>
      Parse(lib, FileText(p, out)) == Ok(SortRules(TableRules(p, out)))
  {
    hide Readable, WellFormed, Lines, LineText, DistinctNets, LineRules, SortRules, DistinctNames, AddLines;
    hide LinesGood, RulesOf, AllDistinctNames, TableRules, Named;
    FileLinesRead(lib, p, out);
    var ls := LineTexts(p, out);
    LinesOfText(ls);
    var i :| 0 <= i < |out| && out[i].Route?;
    RouteInTable(p, out, i);
    FileAccepted(lib, StripCrs(ls));
  }
}
