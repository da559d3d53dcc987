/**
 A routing file is read line by line, and a line is refused if an earlier one named its network.
 Reordering the lines changes neither whether the file is accepted nor any answer it gives.
 */
module FileOrder {
  import opened Basics
  import opened Text
  import opened RouteTable
  import opened RouteText
  import opened Sorting

  /** What a line contributes read on its own: no rule, one rule, or a reason to refuse the file. */
  function LineRules(lib: Lib, raw: string): Option<seq<Rule>> {
    match AddLine(lib, 0, [], raw)
    case Err(_) => None
    case Ok(rs) => Some(rs)
  }

  predicate LinesGood(lib: Lib, lines: seq<string>) {
    forall i :: 0 <= i < |lines| ==> LineRules(lib, lines[i]).Some?
  }

  function RulesOf(lib: Lib, lines: seq<string>): seq<Rule>
    requires LinesGood(lib, lines)
  {
    if lines == [] then []
    else
      assert LineRules(lib, lines[0]).Some?;
      LineRules(lib, lines[0]).value + RulesOf(lib, lines[1..])
  }

  /** The line number only shows up in errors. */
  lemma {:induction false} EntriesAnyLine(lib: Lib, n: nat, m: nat, costs: Costs, es: seq<string>)
    ensures AddEntries(lib, n, costs, es).Ok? == AddEntries(lib, m, costs, es).Ok?
    ensures AddEntries(lib, n, costs, es).Ok? ==> AddEntries(lib, n, costs, es) == AddEntries(lib, m, costs, es)
    decreases |es|
  {
    hide Normalize, Trim;
    if es != [] {
      match AddEntry(lib, n, costs, es[0]) {
        case Err(_) =>
        case Ok(c) => EntriesAnyLine(lib, n, m, c, es[1..]);
      }
    }
  }

  /** Read after others, a line adds what it adds on its own, unless its network is known. */
  lemma LineAfterOthers(lib: Lib, n: nat, rules: seq<Rule>, raw: string)
    ensures LineRules(lib, raw).Some? ==> |LineRules(lib, raw).value| <= 1
    ensures AddLine(lib, n, rules, raw).Ok? <==>
      && LineRules(lib, raw).Some?
      && (forall r :: r in LineRules(lib, raw).value ==> !Known(rules, r.net))
    ensures AddLine(lib, n, rules, raw).Ok? ==>
      AddLine(lib, n, rules, raw).value == rules + LineRules(lib, raw).value
  {
    hide Content, SameNetwork, Words, EntriesOf, AddEntries;
    var tokens := Words(Content(raw));
    EntriesAnyLine(lib, n, 0, map[], EntriesOf(if tokens == [] then [] else tokens[1..]));
    assert rules + [] == rules;
  }

  lemma DistinctSnoc(rs: seq<Rule>, r: Rule)
    requires DistinctNets(rs)
    ensures DistinctNets(rs + [r]) <==> !Known(rs, r.net)
  {
    hide SameNetwork;
    if Known(rs, r.net) {
      var i :| 0 <= i < |rs| && SameNetwork(rs[i].net, r.net);
      assert SameNetwork((rs + [r])[i].net, (rs + [r])[|rs|].net);
    }
  }

  lemma DistinctPrefix(rs: seq<Rule>, ts: seq<Rule>)
    requires DistinctNets(rs + ts)
    ensures DistinctNets(rs)
  {
    hide SameNetwork;
    forall i, j | 0 <= i < j < |rs| ensures !SameNetwork(rs[i].net, rs[j].net) {
      assert (rs + ts)[i] == rs[i] && (rs + ts)[j] == rs[j];
    }
  }

  /** A run of lines is accepted exactly when each line is good and no network repeats. */
  lemma {:induction false} LinesAccepted(lib: Lib, n: nat, rules: seq<Rule>, lines: seq<string>)
    requires DistinctNets(rules)
    ensures AddLines(lib, n, rules, lines).Ok? <==>
      LinesGood(lib, lines) && DistinctNets(rules + RulesOf(lib, lines))
    ensures AddLines(lib, n, rules, lines).Ok? ==>
      AddLines(lib, n, rules, lines).value == rules + RulesOf(lib, lines)
    decreases |lines|
  {
    hide LineRules, AddLine, DistinctNets, Known;
    if lines == [] {
      assert rules + [] == rules;
    } else {
      LineAfterOthers(lib, n, rules, lines[0]);
      var good := LinesGood(lib, lines);
      assert good ==> LinesGood(lib, lines[1..]) && LineRules(lib, lines[0]).Some?;
      assert LinesGood(lib, lines[1..]) && LineRules(lib, lines[0]).Some? ==> good;
      if LineRules(lib, lines[0]).Some? {
        var added := LineRules(lib, lines[0]).value;
        if added == [] {
          assert rules + added == rules;
        } else {
          assert added == [added[0]];
          DistinctSnoc(rules, added[0]);
        }
        if DistinctNets(rules + added) {
          LinesAccepted(lib, n + 1, rules + added, lines[1..]);
          if good {
            assert rules + RulesOf(lib, lines) == rules + added + RulesOf(lib, lines[1..]);
          }
        } else if good {
          assert rules + RulesOf(lib, lines) == (rules + added) + RulesOf(lib, lines[1..]);
          if DistinctNets(rules + RulesOf(lib, lines)) {
            DistinctPrefix(rules + added, RulesOf(lib, lines[1..]));
          }
        }
      }
    }
  }

  lemma {:induction false} RulesOfSplit(lib: Lib, a: seq<string>, b: seq<string>)
    requires LinesGood(lib, a) && LinesGood(lib, b)
    ensures LinesGood(lib, a + b)
    ensures RulesOf(lib, a + b) == RulesOf(lib, a) + RulesOf(lib, b)
  {
    hide LineRules;
    if a == [] {
      assert a + b == b;
    } else {
      RulesOfSplit(lib, a[1..], b);
      assert (a + b)[1..] == a[1..] + b;
    }
  }

  lemma RulesOfAround(lib: Lib, b: seq<string>, k: nat)
    requires LinesGood(lib, b) && k < |b|
    ensures LinesGood(lib, RemoveAt(b, k)) && LineRules(lib, b[k]).Some?
    ensures multiset(RulesOf(lib, b)) ==
      multiset(LineRules(lib, b[k]).value) + multiset(RulesOf(lib, RemoveAt(b, k)))
  {
    hide LineRules, RulesOf, LinesGood;
    var left, right := b[..k], b[k + 1..];
    GoodParts(lib, b, k);
    OneLine(lib, b[k]);
    RulesOfSplit(lib, left, right);
    RulesOfSplit(lib, [b[k]], right);
    RulesOfSplit(lib, left, [b[k]] + right);
    assert left + ([b[k]] + right) == b;
  }

  lemma GoodParts(lib: Lib, b: seq<string>, k: nat)
    requires LinesGood(lib, b) && k < |b|
    ensures LinesGood(lib, b[..k]) && LinesGood(lib, b[k + 1..]) && LinesGood(lib, [b[k]])
  {
    hide LineRules;
  }

  lemma OneLine(lib: Lib, l: string)
    requires LinesGood(lib, [l])
    ensures LineRules(lib, l).Some? && RulesOf(lib, [l]) == LineRules(lib, l).value
  {
    hide LineRules;
    assert [l][0] == l;
    assert RulesOf(lib, [l][1..]) == [];
  }

  lemma GoodPermuted(lib: Lib, a: seq<string>, b: seq<string>)
    requires LinesGood(lib, a) && multiset(a) == multiset(b)
    ensures LinesGood(lib, b)
  {
    hide LineRules;
    SameMembers(a, b);
    forall i | 0 <= i < |b| ensures LineRules(lib, b[i]).Some? {
      assert b[i] in a;
    }
  }

  lemma {:induction false} RulesOfPermuted(lib: Lib, a: seq<string>, b: seq<string>)
    requires LinesGood(lib, a) && multiset(a) == multiset(b)
    ensures LinesGood(lib, b)
    ensures multiset(RulesOf(lib, a)) == multiset(RulesOf(lib, b))
    decreases |a|
  {
    hide LineRules, RulesOf, RemoveAt, LinesGood;
    GoodPermuted(lib, a, b);
    if a == [] {
      assert |multiset(b)| == 0;
      assert b == [];
    } else {
      SameMembers(a, b);
      assert a[0] in b;
      var k :| 0 <= k < |b| && b[k] == a[0];
      RulesOfAround(lib, a, 0);
      RulesOfAround(lib, b, k);
      RulesOfPermuted(lib, RemoveAt(a, 0), RemoveAt(b, k));
    }
  }

  lemma DistinctPermuted(a: seq<Rule>, b: seq<Rule>)
    requires multiset(a) == multiset(b) && DistinctNets(a)
    ensures DistinctNets(b)
  {
    ApartPermuted((x: Rule, y: Rule) => SameNetwork(x.net, y.net), a, b);
  }

  /** Two files with the same lines in any order are both accepted or both refused,
      and when accepted give every address the same rule. */
  lemma AnswersIgnoreLineOrder(lib: Lib, text: string, other: string)
    requires multiset(Lines(text)) == multiset(Lines(other))
    ensures Parse(lib, text).Ok? == Parse(lib, other).Ok?
    ensures Parse(lib, text).Ok? ==>
      forall ip :: Lookup(Parse(lib, text).value, ip) == Lookup(Parse(lib, other).value, ip)
  {
    hide Lines, DistinctNets, Lookup, SortRules, LineRules;
    if Parse(lib, other).Ok? { SameTableUpToOrder(lib, other, text); }
    if Parse(lib, text).Ok? {
      SameTableUpToOrder(lib, text, other);
      var a, b := RulesOf(lib, Lines(text)), RulesOf(lib, Lines(other));
      forall ip ensures Lookup(SortRules(a), ip) == Lookup(SortRules(b), ip) {
        LookupIgnoresFileOrder(a, b, ip);
      }
    }
  }

  lemma SameTableUpToOrder(lib: Lib, text: string, other: string)
    requires multiset(Lines(text)) == multiset(Lines(other))
    requires Parse(lib, text).Ok?
    ensures LinesGood(lib, Lines(text)) && LinesGood(lib, Lines(other))
    ensures Parse(lib, text) == Ok(SortRules(RulesOf(lib, Lines(text))))
    ensures Parse(lib, other) == Ok(SortRules(RulesOf(lib, Lines(other))))
    ensures multiset(RulesOf(lib, Lines(text))) == multiset(RulesOf(lib, Lines(other)))
    ensures DistinctNets(RulesOf(lib, Lines(text))) && DistinctNets(RulesOf(lib, Lines(other)))
  {
    hide Lines, DistinctNets, SortRules, LineRules, AddLines;
    var ls, os := Lines(text), Lines(other);
    FileAccepted(lib, ls);
    var rs := RulesOf(lib, ls);
    RulesOfPermuted(lib, ls, os);
    var ts := RulesOf(lib, os);
    DistinctPermuted(rs, ts);
    FileAccepted(lib, os);
    assert |multiset(rs)| == |multiset(ts)|;
  }

  /** A file is accepted exactly when each line is good and no network repeats. */
  lemma FileAccepted(lib: Lib, lines: seq<string>)
    ensures AddLines(lib, 1, [], lines).Ok? <==> LinesGood(lib, lines) && DistinctNets(RulesOf(lib, lines))
    ensures AddLines(lib, 1, [], lines).Ok? ==> AddLines(lib, 1, [], lines).value == RulesOf(lib, lines)
  {
    hide DistinctNets, LinesGood, RulesOf, AddLines;
    NoRulesDistinct();
    LinesAccepted(lib, 1, [], lines);
    if LinesGood(lib, lines) { assert [] + RulesOf(lib, lines) == RulesOf(lib, lines); }
  }

  /** What the parser gives: a file is accepted exactly when each line is good, no network repeats and
      there is a rule; and the table is then that of the file, sorted, still with no network twice. */
  lemma ParsedExactlyWhen(lib: Lib, text: string)
    ensures var ls := Lines(text); Parse(lib, text).Ok? <==>
      LinesGood(lib, ls) && DistinctNets(RulesOf(lib, ls)) && RulesOf(lib, ls) != []
    ensures Parse(lib, text).Ok? ==> Parse(lib, text).value == SortRules(RulesOf(lib, Lines(text)))
    ensures Parse(lib, text).Ok? ==> TableOk(Parse(lib, text).value)
  {
    hide Lines, DistinctNets, LinesGood, RulesOf, AddLines, SortRules, LongestFirst;
    FileAccepted(lib, Lines(text));
    if Parse(lib, text).Ok? {
      var rs := RulesOf(lib, Lines(text));
      SortRulesSorts(rs);
      DistinctPermuted(rs, SortRules(rs));
    }
  }

  lemma NoRulesDistinct()
    ensures DistinctNets([])
  {
  }
}
