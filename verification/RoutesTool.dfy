/**
 `relay_rtt.py routes`: naming the relays, laying out the file site by site with an optional
 catch-all, and the round trip of that file through the parser.
 */
module RoutesTool {
  import opened Basics
  import opened Text
  import opened RouteTable
  import opened RouteText
  import opened RoundTrip
  import opened Sorting

  datatype Row = Row(node: string, host: string, port: string)

  function RowName(r: Row): string { Lower(r.host + ":" + r.port) }

  /** Every measured node has the name it was measured under, and no other node has one. */
  predicate NamesRows(rows: seq<Row>, names: map<string, string>) {
    && (forall r :: r in rows ==> r.node in names && names[r.node] == RowName(r))
    && (forall n :: n in names ==> exists r :: r in rows && r.node == n)
  }

  /** node -> name, or nothing when a node was measured under two names. */
  method RelayNames(rows: seq<Row>) returns (names: Option<map<string, string>>)
    ensures names.None? <==>
      exists i, j :: 0 <= i < j < |rows| && rows[i].node == rows[j].node && RowName(rows[i]) != RowName(rows[j])
    ensures names.Some? ==> NamesRows(rows, names.value)
  {
    hide RowName;
    var m: map<string, string> := map[];
    for i := 0 to |rows|
      invariant forall k :: 0 <= k < i ==> rows[k].node in m && m[rows[k].node] == RowName(rows[k])
      invariant forall n :: n in m ==> exists k :: 0 <= k < i && rows[k].node == n
    {
      var r := rows[i];
      if r.node !in m {
        m := m[r.node := RowName(r)];
      } else if m[r.node] != RowName(r) {
        var k :| 0 <= k < i && rows[k].node == r.node;
        return None;
      }
    }
    forall n | n in m ensures exists r :: r in rows && r.node == n {
      var k :| 0 <= k < |rows| && rows[k].node == n;
      assert rows[k] in rows;
    }
    return Some(m);
  }

  predicate PlainRow(r: Row) {
    && NoSpace(r.host) && NoSpace(r.port)
    && ',' !in r.host && '#' !in r.host && ',' !in r.port && '#' !in r.port
  }

  /** A name made from a plain host and port is one the parser reads back unchanged. */
  lemma NameIsClean(r: Row)
    requires PlainRow(r)
    ensures CleanName(RowName(r))
  {
    var raw := r.host + ":" + r.port;
    var s := RowName(r);
    assert raw[|r.host|] == ':' && s[|r.host|] == ':';
    assert forall c :: IsSpace(LowerChar(c)) == IsSpace(c);
    assert forall c :: LowerChar(LowerChar(c)) == LowerChar(c);
    assert forall i :: 0 <= i < |s| ==> s[i] == LowerChar(raw[i]) && raw[i] in raw;
  }

  /* ---------------------------------------------------------------- costs as measured and as printed */

  type Millis = ms: real | ms >= 0.0 witness 0.0

  /** A relay's cost from a site, before it is rounded for printing. */
  datatype Measured = Measured(node: string, ms: Millis)

  /** The rounding of `{v:.1f}`: to the nearest tenth, and from halfway to the even one. */
  function Tenths(ms: Millis): (v: nat) {
    var t := ms * 10.0;
    var low := t.Floor;
    var over := t - low as real;
    if over < 0.5 || (over == 0.5 && low % 2 == 0) then low else low + 1
  }

  /** What is printed is within half a tenth of the cost. */
  lemma TenthsNearest(ms: Millis)
    ensures ms - 0.05 <= Tenths(ms) as real / 10.0 <= ms + 0.05
  {
  }

  /** And is the cost itself when that is a number of tenths. */
  lemma TenthsExact(v: nat)
    ensures Tenths(v as real / 10.0) == v
  {
  }

  predicate LexLe(a: string, b: string) {
    a == "" || (b != "" && (a[0] < b[0] || (a[0] == b[0] && LexLe(a[1..], b[1..]))))
  }

  predicate Before(a: Measured, b: Measured) {
    a.ms < b.ms || (a.ms == b.ms && LexLe(a.node, b.node))
  }

  function Rounded(costs: seq<Measured>): (items: seq<Item>)
    ensures |items| == |costs|
    ensures forall i :: 0 <= i < |items| ==> items[i] == Item(costs[i].node, Tenths(costs[i].ms))
  {
    if costs == [] then [] else [Item(costs[0].node, Tenths(costs[0].ms))] + Rounded(costs[1..])
  }

  /** `entry`: sorted by the cost as measured, then by node; rounded when printed. */
  function Printed(costs: seq<Measured>): seq<Item> {
    Rounded(Sort(Before, costs))
  }

  lemma {:induction false} LexLeOrders(a: string, b: string, c: string)
    ensures LexLe(a, b) || LexLe(b, a)
    ensures LexLe(a, b) && LexLe(b, c) ==> LexLe(a, c)
  {
    if a != "" && b != "" { LexLeOrders(a[1..], b[1..], if c == "" then "" else c[1..]); }
  }

  lemma BeforeOrders()
    ensures IsOrder(Before)
  {
    hide LexLe;
    forall a, b, c ensures (Before(a, b) || Before(b, a)) && (Before(a, b) && Before(b, c) ==> Before(a, c)) {
      LexLeOrders(a.node, b.node, c.node);
    }
  }

  /** Entries are printed cheapest first, equally cheap ones by node, and each of them once: the
      costs printed never go down, whatever the rounding does. */
  lemma PrintedCheapestFirst(costs: seq<Measured>)
    ensures Ordered(Before, Sort(Before, costs))
    ensures multiset(Sort(Before, costs)) == multiset(costs)
    ensures var items := Printed(costs); forall i, j :: 0 <= i < j < |items| ==> items[i].tenths <= items[j].tenths
  {
    hide Sort, Before, Tenths;
    BeforeOrders();
    SortOrders(Before, costs);
    SortPermutes(Before, costs);
    var sorted, items := Sort(Before, costs), Printed(costs);
    forall i, j | 0 <= i < j < |items| ensures items[i].tenths <= items[j].tenths {
      TenthsMonotone(sorted[i], sorted[j]);
    }
  }

  lemma TenthsMonotone(a: Measured, b: Measured)
    requires Before(a, b)
    ensures Tenths(a.ms) <= Tenths(b.ms)
  {
  }

  /** What is printed of a site is each of its costs, rounded, and nothing else. */
  lemma PrintedMembers(costs: seq<Measured>)
    ensures forall m :: m in costs ==> Item(m.node, Tenths(m.ms)) in Printed(costs)
    ensures forall x :: x in Printed(costs) ==> exists m :: m in costs && x == Item(m.node, Tenths(m.ms))
    ensures costs != [] ==> Printed(costs) != []
  {
    hide Sort, Tenths;
    var sorted := Sort(Before, costs);
    SortPermutes(Before, costs);
    SameMembers(costs, sorted);
    forall m | m in costs ensures Item(m.node, Tenths(m.ms)) in Printed(costs) {
      var i :| 0 <= i < |sorted| && sorted[i] == m;
      assert Printed(costs)[i] == Item(m.node, Tenths(m.ms));
    }
    forall x | x in Printed(costs) ensures exists m :: m in costs && x == Item(m.node, Tenths(m.ms)) {
      var i :| 0 <= i < |sorted| && Printed(costs)[i] == x;
      assert sorted[i] in costs;
    }
    if costs != [] { assert costs[0] in sorted; }
  }

  /* ---------------------------------------------------------------- the file */

  datatype Site = Site(name: string, nets: seq<Network>, costs: seq<Measured>)

  /** What to say about any other address: a note and the costs. */
  datatype CatchAll = CatchAll(note: string, costs: seq<Measured>)

  const ANY4: Network := Net(V4(0), 0)
  const ANY6: Network := Net(V6(0), 0)

  function Notes(texts: seq<string>): (r: seq<OutLine>)
    ensures |r| == |texts| && forall i :: 0 <= i < |texts| ==> r[i] == Note(texts[i])
  {
    if texts == [] then [] else [Note(texts[0])] + Notes(texts[1..])
  }

  function NetLines(nets: seq<Network>, items: seq<Item>): (r: seq<OutLine>)
    ensures |r| == |nets| && forall i :: 0 <= i < |nets| ==> r[i] == Route(nets[i], items)
  {
    if nets == [] then [] else [Route(nets[0], items)] + NetLines(nets[1..], items)
  }

  function SiteLines(sites: seq<Site>): seq<OutLine> {
    if sites == [] then []
    else
      var s := sites[|sites| - 1];
      SiteLines(sites[..|sites| - 1]) + [Note("# " + s.name)] + NetLines(s.nets, Printed(s.costs))
  }

  function CatchAllLines(d: Option<CatchAll>): seq<OutLine> {
    match d
    case None => []
    case Some(c) =>
      [Note(""), Note("# anything else: " + c.note), Route(ANY4, Printed(c.costs)), Route(ANY6, Printed(c.costs))]
  }

  function RoutesFile(header: seq<string>, sites: seq<Site>, d: Option<CatchAll>): seq<OutLine> {
    Notes(header) + SiteLines(sites) + CatchAllLines(d)
  }

  predicate GoodItems(p: Printer, items: seq<Item>) {
    items != [] && Named(p, items) && forall x :: x in items ==> CleanName(p.names[x.node])
  }

  predicate NodesNamed(p: Printer, costs: seq<Measured>) {
    forall m :: m in costs ==> m.node in p.names
  }

  predicate GoodCosts(p: Printer, costs: seq<Measured>) {
    costs != [] && NodesNamed(p, costs) && forall m :: m in costs ==> CleanName(p.names[m.node])
  }

  lemma PrintedNamed(p: Printer, costs: seq<Measured>)
    requires NodesNamed(p, costs)
    ensures Named(p, Printed(costs))
    ensures GoodCosts(p, costs) ==> GoodItems(p, Printed(costs))
  {
    hide Printed, CleanName, Tenths;
    PrintedMembers(costs);
  }

  /** What the tool has made sure of before it writes: every site has a label, networks and costs. */
  predicate GoodInput(p: Printer, header: seq<string>, sites: seq<Site>, d: Option<CatchAll>) {
    && (forall h :: h in header ==> IsNote(h))
    && sites != []
    && (forall s :: s in sites ==> '\n' !in s.name && s.nets != [] && GoodCosts(p, s.costs))
    && (d.Some? ==> '\n' !in d.value.note && GoodCosts(p, d.value.costs))
  }

  lemma {:induction false} SiteLinesGood(p: Printer, sites: seq<Site>)
    requires forall s :: s in sites ==> '\n' !in s.name && s.nets != [] && GoodCosts(p, s.costs)
    ensures WellFormed(p, SiteLines(sites))
    ensures sites != [] ==> exists i :: 0 <= i < |SiteLines(sites)| && SiteLines(sites)[i].Route?
  {
    hide GoodCosts, WellFormed, SiteBlock, SiteLines;
    if sites == [] {
      NothingIllFormed(p);
    } else {
      var n := |sites| - 1;
      var s := sites[n];
      assert s in sites;
      SiteLinesGood(p, sites[..n]);
      SiteBlockGood(p, s);
      assert sites[..n + 1] == sites;
      SiteLinesSnoc(sites, n);
      var before := SiteLines(sites[..n]);
      WellFormedJoin(p, before, SiteBlock(s));
      assert (before + SiteBlock(s))[|before| + 1] == SiteBlock(s)[1];
    }
  }

  lemma NothingIllFormed(p: Printer)
    ensures WellFormed(p, SiteLines([]))
  {
  }

  lemma SiteBlockGood(p: Printer, s: Site)
    requires '\n' !in s.name && s.nets != [] && GoodCosts(p, s.costs)
    ensures WellFormed(p, SiteBlock(s)) && |SiteBlock(s)| > 1 && SiteBlock(s)[1].Route?
  {
    hide CleanName, Printed;
    PrintedNamed(p, s.costs);
    var out := SiteBlock(s);
    assert IsNote("# " + s.name);
    forall i | 0 <= i < |out|
      ensures out[i] == if i == 0 then Note("# " + s.name) else Route(s.nets[i - 1], Printed(s.costs))
    {
    }
  }

  lemma WellFormedJoin(p: Printer, a: seq<OutLine>, b: seq<OutLine>)
    requires WellFormed(p, a) && WellFormed(p, b)
    ensures WellFormed(p, a + b)
  {
    hide CleanName, IsNote;
  }

  lemma CatchAllGood(p: Printer, d: Option<CatchAll>)
    requires d.Some? ==> '\n' !in d.value.note && GoodCosts(p, d.value.costs)
    ensures WellFormed(p, CatchAllLines(d))
  {
    hide CleanName, Printed, IsNote;
    if d.Some? {
      PrintedNamed(p, d.value.costs);
      NoteIsNote("# anything else: " + d.value.note);
      NoteIsNote("");
    }
  }

  lemma NoteIsNote(text: string)
    requires (text == "" || text[0] == '#') && '\n' !in text
    ensures IsNote(text)
  {
  }

  lemma RoutesFileGood(p: Printer, header: seq<string>, sites: seq<Site>, d: Option<CatchAll>)
    requires GoodInput(p, header, sites, d)
    ensures var out := RoutesFile(header, sites, d);
      WellFormed(p, out) && AllNamed(p, out) && exists i :: 0 <= i < |out| && out[i].Route?
  {
    hide CleanName, IsNote, SiteLines, CatchAllLines, GoodCosts;
    var h, s, c := Notes(header), SiteLines(sites), CatchAllLines(d);
    SiteLinesGood(p, sites);
    CatchAllGood(p, d);
    WellFormedJoin(p, h, s);
    WellFormedJoin(p, h + s, c);
    var k :| 0 <= k < |s| && s[k].Route?;
    assert RoutesFile(header, sites, d)[|h| + k] == s[k];
  }

  /** The file written for any good input is read back as exactly its networks and costs; it is
      refused only when a network, or a relay within a line, was given twice. */
  lemma RoutesFileIsRead(lib: Lib, p: Printer, header: seq<string>, sites: seq<Site>, d: Option<CatchAll>)
    requires Readable(lib, p) && GoodInput(p, header, sites, d)
    ensures var out := RoutesFile(header, sites, d);
      && AllNamed(p, out)
      && var parsed := Parse(lib, FileText(p, out));
      && (parsed.Ok? <==> AllDistinctNames(p, out) && DistinctNets(TableRules(p, out)))
      && (parsed.Ok? ==> parsed.value == SortRules(TableRules(p, out)))
  {
    hide Readable, GoodInput, WellFormed, Parse, DistinctNets, AllDistinctNames, FileText, RoutesFile, SortRules;
    RoutesFileGood(p, header, sites, d);
    WrittenFileIsRead(lib, p, RoutesFile(header, sites, d));
  }

  /** A row was measured for every cost. */
  predicate FromRows(rows: seq<Row>, costs: seq<Measured>) {
    costs != [] && forall m :: m in costs ==> exists r :: r in rows && r.node == m.node
  }

  lemma MeasuredGood(p: Printer, rows: seq<Row>, costs: seq<Measured>)
    requires NamesRows(rows, p.names) && (forall r :: r in rows ==> PlainRow(r)) && FromRows(rows, costs)
    ensures GoodCosts(p, costs)
  {
    hide RowName, CleanName, PlainRow;
    forall m | m in costs ensures m.node in p.names && CleanName(p.names[m.node]) {
      var r :| r in rows && r.node == m.node;
      NameIsClean(r);
    }
  }

  /** From measurements to the parser's table: for rows with plain hosts and ports, the file is read,
      unless a network or a name within a line was given twice; then every network of every site has
      its rule, and in it each relay measured from the site, under the name it was measured as, has
      the cost measured to within half a tenth of a millisecond. */
  lemma MeasuredFileIsRead(
    lib: Lib, p: Printer, rows: seq<Row>, header: seq<string>, sites: seq<Site>, d: Option<CatchAll>)
    requires Readable(lib, p) && NamesRows(rows, p.names) && forall r :: r in rows ==> PlainRow(r)
    requires (forall h :: h in header ==> IsNote(h)) && sites != []
    requires forall s :: s in sites ==> '\n' !in s.name && s.nets != [] && FromRows(rows, s.costs)
    requires d.Some? ==> '\n' !in d.value.note && FromRows(rows, d.value.costs)
    ensures var out := RoutesFile(header, sites, d);
      && AllNamed(p, out)
      && var parsed := Parse(lib, FileText(p, out));
      && (parsed.Ok? <==> AllDistinctNames(p, out) && DistinctNets(TableRules(p, out)))
      && (parsed.Ok? ==> forall s, n :: s in sites && n in s.nets ==> HasCosts(parsed.value, n, rows, s.costs))
      && (parsed.Ok? && d.Some? ==>
            && HasCosts(parsed.value, Net(V4(0), 0), rows, d.value.costs)
            && HasCosts(parsed.value, Net(V6(0), 0), rows, d.value.costs))
      && (parsed.Ok? ==> forall rule :: rule in parsed.value ==>
            || (exists s :: s in sites && rule.net in s.nets)
            || (d.Some? && rule.net in {Net(V4(0), 0), Net(V6(0), 0)}))
  {
    hide Readable, NamesRows, PlainRow, FromRows, Parse, DistinctNets, AllDistinctNames, FileText, RoutesFile;
    hide SortRules, GoodCosts, HasCosts, TableRules;
    forall s | s in sites ensures GoodCosts(p, s.costs) { MeasuredGood(p, rows, s.costs); }
    if d.Some? { MeasuredGood(p, rows, d.value.costs); }
    RoutesFileIsRead(lib, p, header, sites, d);
    var out := RoutesFile(header, sites, d);
    var parsed := Parse(lib, FileText(p, out));
    if parsed.Ok? {
      SortRulesSorts(TableRules(p, out));
      SameMembers(SortRules(TableRules(p, out)), TableRules(p, out));
      forall s, n | s in sites && n in s.nets ensures HasCosts(parsed.value, n, rows, s.costs) {
        SiteInTable(p, header, sites, d, s, n);
        SiteCostsRead(p, rows, s.costs, n, parsed.value);
      }
      if d.Some? {
        CatchAllInTable(p, header, sites, d);
        SiteCostsRead(p, rows, d.value.costs, ANY4, parsed.value);
        SiteCostsRead(p, rows, d.value.costs, ANY6, parsed.value);
      }
      forall rule | rule in parsed.value
        ensures (exists s :: s in sites && rule.net in s.nets) || (d.Some? && rule.net in {ANY4, ANY6})
      {
        var k := TableFromLines(p, out, rule);
        NetFromInput(header, sites, d, k);
      }
    }
  }

  /** Some rule of the table is for this network, and has each cost under its relay's name. */
  ghost predicate HasCosts(rules: seq<Rule>, n: Network, rows: seq<Row>, costs: seq<Measured>) {
    exists rule :: rule in rules && rule.net == n && forall r, m :: r in rows && m in costs && r.node == m.node ==>
      && RowName(r) in rule.costs
      && m.ms - 0.05 <= rule.costs[RowName(r)] <= m.ms + 0.05
  }

  lemma {:induction false} SiteLineIndex(sites: seq<Site>, s: Site, n: Network)
    returns (k: nat)
    requires s in sites && n in s.nets
    ensures k < |SiteLines(sites)| && SiteLines(sites)[k] == Route(n, Printed(s.costs))
  {
    hide Printed;
    var last := |sites| - 1;
    if s in sites[..last] {
      k := SiteLineIndex(sites[..last], s, n);
    } else {
      assert s == sites[last];
      var i :| 0 <= i < |s.nets| && s.nets[i] == n;
      k := |SiteLines(sites[..last])| + 1 + i;
    }
  }

  lemma SiteInTable(
    p: Printer, header: seq<string>, sites: seq<Site>, d: Option<CatchAll>, s: Site, n: Network)
    requires AllNamed(p, RoutesFile(header, sites, d)) && s in sites && n in s.nets
    requires AllDistinctNames(p, RoutesFile(header, sites, d))
    ensures Named(p, Printed(s.costs)) && DistinctNames(p, Printed(s.costs))
    ensures Rule(n, CostMap(p, Printed(s.costs))) in TableRules(p, RoutesFile(header, sites, d))
  {
    hide Printed, SiteLines, CatchAllLines, TableRules, CostMap, Named, DistinctNames;
    var out := RoutesFile(header, sites, d);
    var k := SiteLineIndex(sites, s, n);
    var at := |Notes(header)| + k;
    assert out[at] == Route(n, Printed(s.costs));
    RouteInTable(p, out, at);
  }

  lemma CatchAllInTable(p: Printer, header: seq<string>, sites: seq<Site>, d: Option<CatchAll>)
    requires AllNamed(p, RoutesFile(header, sites, d)) && d.Some?
    requires AllDistinctNames(p, RoutesFile(header, sites, d))
    ensures Named(p, Printed(d.value.costs)) && DistinctNames(p, Printed(d.value.costs))
    ensures Rule(ANY4, CostMap(p, Printed(d.value.costs))) in TableRules(p, RoutesFile(header, sites, d))
    ensures Rule(ANY6, CostMap(p, Printed(d.value.costs))) in TableRules(p, RoutesFile(header, sites, d))
  {
    hide Printed, SiteLines, TableRules, CostMap, Named, DistinctNames;
    var out := RoutesFile(header, sites, d);
    var at := |Notes(header) + SiteLines(sites)|;
    assert out[at + 2] == Route(ANY4, Printed(d.value.costs)) && out[at + 3] == Route(ANY6, Printed(d.value.costs));
    RouteInTable(p, out, at + 2);
    RouteInTable(p, out, at + 3);
  }

  /** Each rule comes from a line. */
  lemma {:induction false} TableFromLines(p: Printer, out: seq<OutLine>, rule: Rule) returns (k: nat)
    requires AllNamed(p, out) && rule in TableRules(p, out)
    ensures k < |out| && out[k].Route? && out[k].net == rule.net
  {
    hide CostMap;
    if out[0].Route? && out[0].net == rule.net {
      k := 0;
    } else {
      k := TableFromLines(p, out[1..], rule);
      k := k + 1;
    }
  }

  lemma NetFromInput(header: seq<string>, sites: seq<Site>, d: Option<CatchAll>, k: nat)
    requires var out := RoutesFile(header, sites, d); k < |out| && out[k].Route?
    ensures var net := RoutesFile(header, sites, d)[k].net;
      (exists s :: s in sites && net in s.nets) || (d.Some? && net in {ANY4, ANY6})
  {
    hide Printed, SiteLines;
    var out := RoutesFile(header, sites, d);
    var h, n := |header|, |SiteLines(sites)|;
    assert forall i :: 0 <= i < h ==> out[i] == Note(header[i]);
    if h <= k < h + n {
      assert out[k] == SiteLines(sites)[k - h];
      NetFromSite(sites, k - h);
    }
  }

  lemma {:induction false} NetFromSite(sites: seq<Site>, k: nat)
    requires k < |SiteLines(sites)| && SiteLines(sites)[k].Route?
    ensures exists s :: s in sites && SiteLines(sites)[k].net in s.nets
  {
    hide Printed;
    var last := |sites| - 1;
    var before := SiteLines(sites[..last]);
    var lines := SiteLines(sites);
    if k < |before| {
      assert lines[k] == before[k];
      NetFromSite(sites[..last], k);
      var s :| s in sites[..last] && before[k].net in s.nets;
      assert s in sites;
    } else {
      var s := sites[last];
      assert s in sites;
      assert k > |before|;
      assert lines[k] == Route(s.nets[k - |before| - 1], Printed(s.costs));
    }
  }

  lemma SiteCostsRead(p: Printer, rows: seq<Row>, costs: seq<Measured>, n: Network, rules: seq<Rule>)
    requires NamesRows(rows, p.names) && Named(p, Printed(costs)) && DistinctNames(p, Printed(costs))
    requires Rule(n, CostMap(p, Printed(costs))) in rules
    ensures HasCosts(rules, n, rows, costs)
  {
    hide Printed, CostMap, Named, DistinctNames, Tenths, RowName;
    var rule := Rule(n, CostMap(p, Printed(costs)));
    PrintedMembers(costs);
    CostMapMeans(p, Printed(costs));
    forall r, m | r in rows && m in costs && r.node == m.node
      ensures RowName(r) in rule.costs && m.ms - 0.05 <= rule.costs[RowName(r)] <= m.ms + 0.05
    {
      var x := Item(m.node, Tenths(m.ms));
      assert x in Printed(costs);
      TenthsNearest(m.ms);
    }
  }

  lemma LineTextsJoin(p: Printer, a: seq<OutLine>, b: seq<OutLine>)
    requires AllNamed(p, a) && AllNamed(p, b)
    ensures AllNamed(p, a + b)
    ensures LineTexts(p, a + b) == LineTexts(p, a) + LineTexts(p, b)
  {
    hide LineText, Named;
  }

  function SiteBlock(s: Site): seq<OutLine> {
    [Note("# " + s.name)] + NetLines(s.nets, Printed(s.costs))
  }

  /** The inner loop: a comment naming the site, then a line for each of its networks. */
  method SiteText(p: Printer, s: Site) returns (out: seq<string>)
    requires NodesNamed(p, s.costs)
    ensures AllNamed(p, SiteBlock(s)) && out == LineTexts(p, SiteBlock(s))
  {
    hide Named, EntryText, Printed, NetLines, LineTexts;
    PrintedNamed(p, s.costs);
    out := ["# " + s.name];
    for k := 0 to |s.nets|
      invariant |out| == k + 1 && out[0] == "# " + s.name
      invariant forall i :: 0 <= i < k ==> out[i + 1] == LineText(p, Route(s.nets[i], Printed(s.costs)))
    {
      out := out + [p.net(s.nets[k]) + "  " + EntryText(p, Printed(s.costs))];
    }
  }

  lemma SiteLinesSnoc(sites: seq<Site>, i: nat)
    requires i < |sites|
    ensures SiteLines(sites[..i + 1]) == SiteLines(sites[..i]) + SiteBlock(sites[i])
  {
    hide Printed;
    assert sites[..i + 1][..i] == sites[..i];
  }

  /** The part of `cmd_routes` that lays out and writes the file. */
  method CmdRoutes(p: Printer, header: seq<string>, sites: seq<Site>, d: Option<CatchAll>) returns (text: string)
    requires forall s :: s in sites ==> NodesNamed(p, s.costs)
    requires d.Some? ==> NodesNamed(p, d.value.costs)
    requires p.net(ANY4) == "0.0.0.0/0" && p.net(ANY6) == "::/0"
    ensures AllNamed(p, RoutesFile(header, sites, d))
    ensures text == FileText(p, RoutesFile(header, sites, d))
  {
    hide NodesNamed, Named, EntryText, Printed, SiteLines, SiteBlock, LineText, LineTexts, CatchAllLines, Join;
    var out := header;
    ghost var lines := Notes(header);
    HeaderText(p, header, sites);
    for i := 0 to |sites|
      invariant lines == Notes(header) + SiteLines(sites[..i])
      invariant AllNamed(p, lines) && out == LineTexts(p, lines)
    {
      var s := sites[i];
      assert s in sites;
      var block := SiteText(p, s);
      LineTextsJoin(p, lines, SiteBlock(s));
      SiteLinesSnoc(sites, i);
      out := out + block;
      lines := lines + SiteBlock(s);
    }
    assert sites[..|sites|] == sites;
    CatchAllText(p, d);
    LineTextsJoin(p, lines, CatchAllLines(d));
    if d.Some? {
      PrintedNamed(p, d.value.costs);
      var entry := EntryText(p, Printed(d.value.costs));
      out := out + ["", "# anything else: " + d.value.note,
                    "0.0.0.0/0" + "  " + entry, "::/0" + "  " + entry];
    }
    assert d.None? ==> out + [] == out;
    assert out == LineTexts(p, lines + CatchAllLines(d));
    assert lines + CatchAllLines(d) == RoutesFile(header, sites, d);
    text := Join(out, '\n') + "\n";
  }

  lemma HeaderText(p: Printer, header: seq<string>, sites: seq<Site>)
    ensures AllNamed(p, Notes(header)) && LineTexts(p, Notes(header)) == header
    ensures Notes(header) + SiteLines(sites[..0]) == Notes(header)
  {
  }

  lemma CatchAllText(p: Printer, d: Option<CatchAll>)
    requires d.Some? ==> NodesNamed(p, d.value.costs)
    requires p.net(ANY4) == "0.0.0.0/0" && p.net(ANY6) == "::/0"
    ensures AllNamed(p, CatchAllLines(d))
    ensures d.Some? ==> Named(p, Printed(d.value.costs))
    ensures LineTexts(p, CatchAllLines(d)) ==
      if d.None? then []
      else
        var entry := EntryText(p, Printed(d.value.costs));
        ["", "# anything else: " + d.value.note, "0.0.0.0/0" + "  " + entry, "::/0" + "  " + entry]
  {
    hide Named, EntryText, Printed;
    if d.Some? { PrintedNamed(p, d.value.costs); }
  }
}
