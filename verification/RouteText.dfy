/**
 The routing table as text: what the parser accepts, what it refuses and why, and the rules it
 ends up with.
 */
module RouteText {
  import opened Basics
  import opened Text
  import opened RouteTable

  /** What reading a number of milliseconds gives. */
  datatype Ms = NotANumber | NotFinite | Number(value: real)

  /** The library calls the parser makes: `IpNetwork::from_str` and `f64::from_str`. */
  datatype Lib = Lib(parseNet: string -> Option<Network>, parseMs: string -> Ms)

  datatype ParseError =
    | NotANetwork(line: nat) | AppearsTwice(line: nat) | NotRelayMs(line: nat)
    | BadNumber(line: nat) | BadTime(line: nat) | NoRelayName(line: nat)
    | RelayTwice(line: nat) | NoRelays(line: nat) | NoRoutes

  /* ---------------------------------------------------------------- the parser */

  /** Where the last `d` of `s` is. */
  function LastIndex(s: string, d: char): (i: nat)
    requires d in s
    ensures i < |s| && s[i] == d && d !in s[i + 1..]
  {
    if s[|s| - 1] == d then |s| - 1 else LastIndex(s[..|s| - 1], d)
  }

  lemma {:induction false} LastIndexIs(a: string, d: char, b: string)
    requires d !in b
    ensures LastIndex(a + [d] + b, d) == |a|
  {
    var s := a + [d] + b;
    if b != "" {
      assert s[|s| - 1] == b[|b| - 1];
      assert s[..|s| - 1] == a + [d] + b[..|b| - 1];
      LastIndexIs(a, d, b[..|b| - 1]);
    }
  }

  /** One `relay=ms` entry. */
  function AddEntry(lib: Lib, n: nat, costs: Costs, entry: string): Result<Costs, ParseError> {
    if '=' !in entry then Err(NotRelayMs(n))
    else
      var i := LastIndex(entry, '=');
      var relay := entry[..i];
      match lib.parseMs(entry[i + 1..])
      case NotANumber => Err(BadNumber(n))
      case NotFinite => Err(BadTime(n))
      case Number(ms) =>
        if ms < 0.0 then Err(BadTime(n))
        else if Trim(relay) == "" then Err(NoRelayName(n))
        else if Normalize(relay) in costs then Err(RelayTwice(n))
        else Ok(costs[Normalize(relay) := ms])
  }

  function AddEntries(lib: Lib, n: nat, costs: Costs, entries: seq<string>): Result<Costs, ParseError>
    decreases |entries|
  {
    if entries == [] then Ok(costs)
    else
      match AddEntry(lib, n, costs, entries[0])
      case Err(e) => Err(e)
      case Ok(c) => AddEntries(lib, n, c, entries[1..])
  }

  function NonEmpty(ss: seq<string>): seq<string> {
    if ss == [] then [] else (if ss[0] == "" then [] else [ss[0]]) + NonEmpty(ss[1..])
  }

  /** The entries after the network: separated by commas, spaces, or both. */
  function EntriesOf(tokens: seq<string>): seq<string> {
    if tokens == [] then [] else NonEmpty(SplitOn(tokens[0], ',')) + EntriesOf(tokens[1..])
  }

  predicate Known(rules: seq<Rule>, net: Network) {
    exists i :: 0 <= i < |rules| && SameNetwork(rules[i].net, net)
  }

  /** A line without its comment and the space around it. */
  function Content(raw: string): string {
    Trim(SplitOn(raw, '#')[0])
  }

  function AddLine(lib: Lib, n: nat, rules: seq<Rule>, raw: string): Result<seq<Rule>, ParseError> {
    var line := Content(raw);
    if line == "" then Ok(rules)
    else
      var tokens := Words(line);
      var netText := if tokens == [] then "" else tokens[0];
      match lib.parseNet(netText)
      case None => Err(NotANetwork(n))
      case Some(net) =>
        if Known(rules, net) then Err(AppearsTwice(n))
        else
          match AddEntries(lib, n, map[], EntriesOf(if tokens == [] then [] else tokens[1..]))
          case Err(e) => Err(e)
          case Ok(costs) => if costs == map[] then Err(NoRelays(n)) else Ok(rules + [Rule(net, costs)])
  }

  function AddLines(lib: Lib, n: nat, rules: seq<Rule>, lines: seq<string>): Result<seq<Rule>, ParseError>
    decreases |lines|
  {
    if lines == [] then Ok(rules)
    else
      match AddLine(lib, n, rules, lines[0])
      case Err(e) => Err(e)
      case Ok(rs) => AddLines(lib, n + 1, rs, lines[1..])
  }

  /** What `RouteTable::parse` returns. */
  function Parse(lib: Lib, text: string): Result<seq<Rule>, ParseError> {
    match AddLines(lib, 1, [], Lines(text))
    case Err(e) => Err(e)
    case Ok(rs) => if rs == [] then Err(NoRoutes) else Ok(SortRules(rs))
  }

  lemma {:induction false} AddEntriesSnoc(lib: Lib, n: nat, costs: Costs, es: seq<string>, e: string)
    ensures AddEntries(lib, n, costs, es + [e]) ==
      match AddEntries(lib, n, costs, es)
      case Err(x) => Err(x)
      case Ok(c) => AddEntry(lib, n, c, e)
    decreases |es|
  {
    hide AddEntry;
    if es == [] {
      assert (es + [e])[1..] == [];
    } else {
      assert (es + [e])[1..] == es[1..] + [e];
      match AddEntry(lib, n, costs, es[0]) {
        case Err(_) =>
        case Ok(c) => AddEntriesSnoc(lib, n, c, es[1..], e);
      }
    }
  }

  lemma {:induction false} AddEntriesErr(lib: Lib, n: nat, costs: Costs, es: seq<string>, fs: seq<string>)
    requires AddEntries(lib, n, costs, es).Err?
    ensures AddEntries(lib, n, costs, es + fs) == AddEntries(lib, n, costs, es)
    decreases |es|
  {
    hide AddEntry;
    assert (es + fs)[1..] == es[1..] + fs;
    match AddEntry(lib, n, costs, es[0]) {
      case Err(_) =>
      case Ok(c) => AddEntriesErr(lib, n, c, es[1..], fs);
    }
  }

  /** The entry loop of `parse`. */
  method ReadEntries(lib: Lib, n: nat, entries: seq<string>) returns (r: Result<Costs, ParseError>)
    ensures r == AddEntries(lib, n, map[], entries)
  {
    hide AddEntry;
    var costs: Costs := map[];
    var i := 0;
    while i < |entries|
      invariant 0 <= i <= |entries|
      invariant AddEntries(lib, n, map[], entries[..i]) == Ok(costs)
    {
      AddEntriesSnoc(lib, n, map[], entries[..i], entries[i]);
      assert entries[..i + 1] == entries[..i] + [entries[i]];
      match AddEntry(lib, n, costs, entries[i]) {
        case Err(e) =>
          AddEntriesErr(lib, n, map[], entries[..i + 1], entries[i + 1..]);
          assert entries[..i + 1] + entries[i + 1..] == entries;
          return Err(e);
        case Ok(c) => costs := c;
      }
      i := i + 1;
    }
    assert entries[..i] == entries;
    return Ok(costs);
  }

  /** `RouteTable::parse`: line by line, stopping at the first bad one, then sorted. */
  method ParseTable(lib: Lib, text: string) returns (r: Result<seq<Rule>, ParseError>)
    ensures r == Parse(lib, text)
  {
    hide Content, SortRules, Lines, Known;
    var lines := Lines(text);
    var rules: seq<Rule> := [];
    var i := 0;
    while i < |lines|
      invariant 0 <= i <= |lines|
      invariant AddLines(lib, 1, [], lines) == AddLines(lib, 1 + i, rules, lines[i..])
    {
      assert lines[i..][1..] == lines[i + 1..];
      var n := i + 1;
      var line := Content(lines[i]);
      i := i + 1;
      if line == "" { continue; }
      var tokens := Words(line);
      var netText := if tokens == [] then "" else tokens[0];
      var parsed := lib.parseNet(netText);
      if parsed.None? { return Err(NotANetwork(n)); }
      var known := Known(rules, parsed.value);
      if known { return Err(AppearsTwice(n)); }
      var costs := ReadEntries(lib, n, EntriesOf(if tokens == [] then [] else tokens[1..]));
      if costs.Err? { return Err(costs.error); }
      if costs.value == map[] { return Err(NoRelays(n)); }
      rules := rules + [Rule(parsed.value, costs.value)];
    }
    if rules == [] { return Err(NoRoutes); }
    return Ok(SortRules(rules));
  }
}
