/**
 Reading a relay list as written in `-r` / `RELAY`: which entries are used, which are set aside
 and why, and that writing the used ones out again and reading them changes nothing.
 */
module RelayList {
  import opened Basics
  import opened Text

  datatype Why = HasSpace | IsUrl | SeveralColons | NoHost | NotAPort | ListedTwice
  datatype Dropped = Dropped(entry: string, why: Why)
  datatype Sifted = Sifted(kept: seq<string>, dropped: seq<Dropped>)

  /** `parse::<u16>()` giving a number above zero; a leading `+` and leading zeros are allowed. */
  predicate IsPort(p: string) {
    var ds := if p != "" && p[0] == '+' then p[1..] else p;
    && ds != ""
    && AllDigits(ds)
    && 0 < DigitsValue(ds) <= 65535
  }

  function After(s: string, d: char): string
    requires d in s
  {
    if s[0] == d then s[1..] else After(s[1..], d)
  }

  function HostPortProblem(host: string, port: Option<string>): Option<Why> {
    if host == "" || host == ":" then Some(NoHost)
    else if port.Some? && !IsPort(port.value) then Some(NotAPort)
    else None
  }

  /** Why an entry cannot be used. A `[` with no `]` is let through, as the code does. */
  function Problem(entry: string): (why: Option<Why>)
    ensures why != Some(ListedTwice)
  {
    if !NoSpace(entry) then Some(HasSpace)
    else if '/' in entry then Some(IsUrl)
    else if entry != "" && entry[0] == '[' then
      if ']' !in entry[1..] then None
      else
        var after := After(entry[1..], ']');
        HostPortProblem(entry, if after != "" && after[0] == ':' then Some(after[1..]) else None)
    else
      var parts := SplitOn(entry, ':');
      if |parts| == 1 then HostPortProblem(entry, None)
      else if |parts| == 2 then HostPortProblem(parts[0], Some(parts[1]))
      else Some(SeveralColons)
  }

  /** An entry with no space and no `/`: the two things looked at before its form. */
  predicate Plain(entry: string) { NoSpace(entry) && '/' !in entry }

  /** `[host]:port` with something that is no port. */
  predicate BracketedBadPort(entry: string, host: string, port: string) {
    entry == "[" + host + "]:" + port && ']' !in host && !IsPort(port)
  }

  lemma BadPortRefused(entry: string, host: string, port: string)
    requires Plain(entry) && BracketedBadPort(entry, host, port)
    ensures Problem(entry) == Some(NotAPort)
  {
    hide IsPort, NoSpace, SplitOn, After;
    assert entry[1..] == host + "]" + (":" + port);
    AfterFirst(host, ']', ":" + port);
    assert (":" + port)[1..] == port;
  }

  lemma RefusedIsBadPort(entry: string)
    requires Plain(entry) && entry != "" && entry[0] == '[' && Problem(entry) != None
    ensures ']' in entry[1..] && After(entry[1..], ']') != ""
    ensures BracketedBadPort(entry, BeforeFirst(entry[1..], ']'), After(entry[1..], ']')[1..])
  {
    hide IsPort, NoSpace, SplitOn, After;
  }

  /** A bracketed entry is refused exactly when a `:` right after its first `]` is not followed by a
      port. Anything else that starts with `[` is used. */
  lemma BracketedRefusedExactlyWhen(entry: string)
    requires Plain(entry) && entry != "" && entry[0] == '['
    ensures Problem(entry) == None || Problem(entry) == Some(NotAPort)
    ensures Problem(entry).Some? <==> exists host, port :: BracketedBadPort(entry, host, port)
  {
    hide Problem, BracketedBadPort;
    if host, port :| BracketedBadPort(entry, host, port) { BadPortRefused(entry, host, port); }
    if Problem(entry) != None {
      RefusedIsBadPort(entry);
      BadPortRefused(entry, BeforeFirst(entry[1..], ']'), After(entry[1..], ']')[1..]);
    }
  }

  lemma {:induction false} AfterFirst(host: string, d: char, rest: string)
    requires d !in host
    ensures d in host + [d] + rest && After(host + [d] + rest, d) == rest
  {
    var s := host + [d] + rest;
    assert s[|host|] == d;
    if host != "" {
      AfterFirst(host[1..], d, rest);
      assert s[1..] == host[1..] + [d] + rest;
    }
  }

  function BeforeFirst(s: string, d: char): (host: string)
    requires d in s
    ensures d !in host && s == host + [d] + After(s, d)
  {
    if s[0] == d then
      assert s == [d] + s[1..];
      ""
    else
      assert s == [s[0]] + s[1..];
      [s[0]] + BeforeFirst(s[1..], d)
  }

  /** So an unclosed bracket is used, whatever follows it. */
  lemma UnclosedBracketUsed(rest: string)
    requires Plain(rest) && ']' !in rest
    ensures Problem("[" + rest) == None
  {
    assert ("[" + rest)[1..] == rest;
    assert Plain("[" + rest);
  }

  /** And so is any text after the bracket that does not start with a `:`. */
  lemma TextAfterBracketUsed(host: string, rest: string)
    requires Plain(host) && Plain(rest) && ']' !in host && (rest == "" || rest[0] != ':')
    ensures Problem("[" + host + "]" + rest) == None
  {
    var entry := "[" + host + "]" + rest;
    assert Plain(entry);
    assert entry[1..] == host + "]" + rest;
    AfterFirst(host, ']', rest);
  }

  /** A bare host is used, whatever it is, unless it is empty. */
  lemma HostUsedExactlyWhen(host: string)
    requires Plain(host) && ':' !in host && (host == "" || host[0] != '[')
    ensures Problem(host) == if host == "" then Some(NoHost) else None
  {
    SplitFree(host, ':');
  }

  /** `host:port` is used exactly when there is a host and the rest is a port. */
  lemma HostPortUsedExactlyWhen(host: string, port: string)
    requires Plain(host + ":" + port) && ':' !in host && ':' !in port && (host == "" || host[0] != '[')
    ensures Problem(host + ":" + port) ==
      if host == "" then Some(NoHost) else if IsPort(port) then None else Some(NotAPort)
  {
    hide IsPort, NoSpace, SplitOn;
    SplitPrefix(host, ':', port);
    SplitFree(port, ':');
    var entry := host + ":" + port;
    assert entry[0] == if host == "" then ':' else host[0];
    assert SplitOn(entry, ':') == [host, port];
    assert host != ":";
  }

  /** More colons than one, with no bracket, are refused for that. */
  lemma SeveralColonsRefused(host: string, port: string, rest: string)
    requires Plain(host + ":" + port + ":" + rest) && ':' !in host && ':' !in port
    requires host == "" || host[0] != '['
    ensures Problem(host + ":" + port + ":" + rest) == Some(SeveralColons)
  {
    hide NoSpace, SplitOn;
    var entry := host + ":" + port + ":" + rest;
    assert entry == host + [':'] + (port + [':'] + rest);
    SplitPrefix(host, ':', port + [':'] + rest);
    SplitPrefix(port, ':', rest);
    assert entry[0] == if host == "" then ':' else host[0];
  }

  /** Digits that stand for a number from 1 to 65535, perhaps after a `+`. */
  predicate PortDigits(p: string, ds: string) {
    (p == ds || p == "+" + ds) && ds != "" && AllDigits(ds) && 1 <= DigitsValue(ds) <= 65535
  }

  lemma PortsExactly(p: string)
    ensures IsPort(p) <==> exists ds :: PortDigits(p, ds)
  {
    hide DigitsValue;
    if ds :| PortDigits(p, ds) {
      if p == "+" + ds { assert p[1..] == ds; } else { assert '0' <= p[0] <= '9'; }
    }
    if IsPort(p) {
      var ds := if p[0] == '+' then p[1..] else p;
      assert p[0] == '+' ==> p == "+" + ds;
      assert PortDigits(p, ds);
    }
  }

  /** So the numbers from 1 to 65535, written out, are the ports. */
  lemma PortsAre(n: nat)
    ensures IsPort(NatText(n)) <==> 1 <= n <= 65535
  {
    hide NatText;
    NatTextValue(n);
    NatTextDigits(n);
  }

  /** A space anywhere, and a `/` where there is no space, are refused for that. */
  lemma NotPlainRefused(entry: string)
    ensures !NoSpace(entry) ==> Problem(entry) == Some(HasSpace)
    ensures NoSpace(entry) && '/' in entry ==> Problem(entry) == Some(IsUrl)
  {
  }

  /** The entries of a list: its comma-separated pieces, trimmed, without the empty ones. */
  function Entries(pieces: seq<string>): (es: seq<string>)
    ensures forall i :: 0 <= i < |es| ==> es[i] != "" && Trimmed(es[i])
  {
    if pieces == [] then []
    else
      var e := Trim(pieces[0]);
      (if e == "" then [] else [e]) + Entries(pieces[1..])
  }

  predicate Listed(kept: seq<string>, entry: string) {
    exists i :: 0 <= i < |kept| && Normalize(kept[i]) == Normalize(entry)
  }

  function Place(s: Sifted, entry: string): Sifted {
    match Problem(entry)
    case Some(why) => s.(dropped := s.dropped + [Dropped(entry, why)])
    case None =>
      if Listed(s.kept, entry) then s.(dropped := s.dropped + [Dropped(entry, ListedTwice)])
      else s.(kept := s.kept + [entry])
  }

  function Sift(entries: seq<string>): Sifted {
    if entries == [] then Sifted([], [])
    else Place(Sift(entries[..|entries| - 1]), entries[|entries| - 1])
  }

  function Read(list: string): Sifted {
    Sift(Entries(SplitOn(list, ',')))
  }

  function EntriesOf(ds: seq<Dropped>): (r: seq<string>)
    ensures |r| == |ds|
  {
    if ds == [] then [] else EntriesOf(ds[..|ds| - 1]) + [ds[|ds| - 1].entry]
  }

  /** What every sifting keeps: nothing lost or invented, kept ones usable and distinct, reasons true. */
  ghost predicate Sound(entries: seq<string>, s: Sifted) {
    && multiset(s.kept) + multiset(EntriesOf(s.dropped)) == multiset(entries)
    && (forall k :: k in s.kept ==> Problem(k) == None)
    && (forall i, j :: 0 <= i < j < |s.kept| ==> Normalize(s.kept[i]) != Normalize(s.kept[j]))
    && (forall d :: d in s.dropped ==> TrueReason(s.kept, d))
  }

  lemma ListedGrows(kept: seq<string>, more: seq<string>, entry: string)
    requires Listed(kept, entry)
    ensures Listed(kept + more, entry)
  {
    hide Normalize;
    var i :| 0 <= i < |kept| && Normalize(kept[i]) == Normalize(entry);
    assert (kept + more)[i] == kept[i];
  }

  /** Why an entry was set aside, told by what is kept. */
  ghost predicate TrueReason(kept: seq<string>, d: Dropped) {
    if d.why == ListedTwice then Problem(d.entry) == None && Listed(kept, d.entry)
    else Problem(d.entry) == Some(d.why)
  }

  lemma TrueReasonGrows(kept: seq<string>, e: string, d: Dropped)
    requires TrueReason(kept, d)
    ensures TrueReason(kept + [e], d)
  {
    hide Problem, Listed;
    if d.why == ListedTwice { ListedGrows(kept, [e], d.entry); }
  }

  lemma DistinctGrows(kept: seq<string>, e: string)
    requires !Listed(kept, e)
    requires forall i, j :: 0 <= i < j < |kept| ==> Normalize(kept[i]) != Normalize(kept[j])
    ensures var more := kept + [e]; forall i, j :: 0 <= i < j < |more| ==> Normalize(more[i]) != Normalize(more[j])
  {
    hide Normalize;
  }

  lemma KeepSound(entries: seq<string>, s: Sifted, e: string)
    requires Sound(entries, s) && Problem(e) == None && !Listed(s.kept, e)
    ensures Sound(entries + [e], s.(kept := s.kept + [e]))
  {
    hide Problem, Normalize, Listed, EntriesOf, TrueReason;
    DistinctGrows(s.kept, e);
    forall d | d in s.dropped ensures TrueReason(s.kept + [e], d) {
      TrueReasonGrows(s.kept, e, d);
    }
  }

  lemma EntriesOfSnoc(ds: seq<Dropped>, d: Dropped)
    ensures EntriesOf(ds + [d]) == EntriesOf(ds) + [d.entry]
  {
    assert (ds + [d])[..|ds|] == ds;
  }

  lemma DropSound(entries: seq<string>, s: Sifted, d: Dropped)
    requires Sound(entries, s) && TrueReason(s.kept, d)
    ensures Sound(entries + [d.entry], s.(dropped := s.dropped + [d]))
  {
    hide Problem, Normalize, Listed, EntriesOf, TrueReason;
    EntriesOfSnoc(s.dropped, d);
  }

  lemma NothingSound()
    ensures Sound([], Sifted([], []))
  {
  }

  lemma {:induction false} SiftSound(entries: seq<string>)
    ensures Sound(entries, Sift(entries))
  {
    hide Problem, Normalize, Listed, Sound;
    if entries == [] {
      NothingSound();
    } else {
      var n := |entries| - 1;
      var e := entries[n];
      var s := Sift(entries[..n]);
      SiftSound(entries[..n]);
      assert entries == entries[..n] + [e];
      match Problem(e) {
        case Some(why) => DropSound(entries[..n], s, Dropped(e, why));
        case None =>
          if Listed(s.kept, e) { DropSound(entries[..n], s, Dropped(e, ListedTwice)); }
          else { KeepSound(entries[..n], s, e); }
      }
    }
  }

  /** Every non-empty trimmed entry is in exactly one of kept and dropped, for a true reason. */
  lemma ReadIsSound(list: string)
    ensures Sound(Entries(SplitOn(list, ',')), Read(list))
  {
    SiftSound(Entries(SplitOn(list, ',')));
  }

  lemma {:induction false} EntriesFixed(es: seq<string>)
    requires forall i :: 0 <= i < |es| ==> es[i] != "" && Trimmed(es[i])
    ensures Entries(es) == es
  {
    hide Trim, Trimmed;
    if es != [] {
      EntriesFixed(es[1..]);
      assert [es[0]] + es[1..] == es;
    }
  }

  lemma {:induction false} SiftKeepsAll(es: seq<string>)
    requires forall e :: e in es ==> Problem(e) == None
    requires forall i, j :: 0 <= i < j < |es| ==> Normalize(es[i]) != Normalize(es[j])
    ensures Sift(es) == Sifted(es, [])
  {
    hide Problem, Normalize;
    if es != [] {
      var n := |es| - 1;
      SiftKeepsAll(es[..n]);
      assert es[..n] + [es[n]] == es;
    }
  }

  lemma {:induction false} EntriesChars(pieces: seq<string>, d: char)
    requires forall i :: 0 <= i < |pieces| ==> d !in pieces[i]
    ensures forall i :: 0 <= i < |Entries(pieces)| ==> d !in Entries(pieces)[i]
  {
    hide Trim;
    if pieces != [] {
      EntriesChars(pieces[1..], d);
      if d in Trim(pieces[0]) { TrimChars(pieces[0], d); }
    }
  }

  lemma KeptFromEntries(es: seq<string>)
    ensures forall k :: k in Sift(es).kept ==> k in es
  {
    hide Problem, Normalize;
    SiftSound(es);
    var s := Sift(es);
    forall k | k in s.kept ensures k in es {
      assert multiset(s.kept)[k] > 0;
      assert multiset(es)[k] > 0;
    }
  }

  lemma NothingListed()
    ensures Entries(SplitOn("", ',')) == []
  {
    assert Trim("") == "";
    assert Entries([""]) == Entries([""][1..]);
  }

  /** Joining the kept entries with commas and reading that keeps all of them and drops nothing. */
  lemma RereadKeepsAll(list: string)
    ensures Read(Join(Read(list).kept, ',')) == Sifted(Read(list).kept, [])
  {
    hide Problem, Normalize, Trimmed, Trim, Sift, SplitOn;
    var pieces := SplitOn(list, ',');
    var es := Entries(pieces);
    var kept := Sift(es).kept;
    forall i | 0 <= i < |pieces| ensures ',' !in pieces[i] {
      if ',' in pieces[i] { SplitChars(list, ',', i, ','); }
    }
    EntriesChars(pieces, ',');
    KeptFromEntries(es);
    SiftSound(es);
    SiftKeepsAll(kept);
    if kept == [] {
      NothingListed();
    } else {
      SplitJoin(kept, ',');
      forall i | 0 <= i < |kept| ensures kept[i] != "" && Trimmed(kept[i]) {
        assert kept[i] in es;
      }
      EntriesFixed(kept);
    }
  }

  lemma {:induction false} EntriesSnoc(pieces: seq<string>, p: string)
    ensures Entries(pieces + [p]) == Entries(pieces) + (if Trim(p) == "" then [] else [Trim(p)])
  {
    hide Trim, Trimmed;
    if pieces == [] {
      assert pieces + [p] == [p];
      assert Entries([p][1..]) == [];
    } else {
      EntriesSnoc(pieces[1..], p);
      assert (pieces + [p])[1..] == pieces[1..] + [p];
    }
  }

  lemma SiftSnoc(es: seq<string>, e: string)
    ensures Sift(es + [e]) == Place(Sift(es), e)
  {
    assert (es + [e])[..|es|] == es;
  }

  lemma NothingSifted()
    ensures Sift(Entries([])) == Sifted([], [])
  {
  }

  /** `parse_relay_list`: one pass over the pieces. */
  method ParseRelayList(list: string) returns (kept: seq<string>, dropped: seq<Dropped>)
    ensures Sifted(kept, dropped) == Read(list)
    ensures Sound(Entries(SplitOn(list, ',')), Sifted(kept, dropped))
  {
    hide Problem, Listed, Trim, Trimmed, Entries, Sift, Sound, SplitOn;
    kept, dropped := [], [];
    var pieces := SplitOn(list, ',');
    NothingSifted();
    var i := 0;
    while i < |pieces|
      invariant 0 <= i <= |pieces|
      invariant Sifted(kept, dropped) == Sift(Entries(pieces[..i]))
    {
      ghost var before := Entries(pieces[..i]);
      EntriesSnoc(pieces[..i], pieces[i]);
      assert pieces[..i + 1] == pieces[..i] + [pieces[i]];
      var entry := Trim(pieces[i]);
      i := i + 1;
      if entry == "" { assert before + [] == before; continue; }
      SiftSnoc(before, entry);
      match Problem(entry) {
        case None =>
          var twice := Listed(kept, entry);
          if twice { dropped := dropped + [Dropped(entry, ListedTwice)]; }
          else { kept := kept + [entry]; }
        case Some(why) => dropped := dropped + [Dropped(entry, why)];
      }
    }
    assert pieces[..i] == pieces;
    ReadIsSound(list);
  }
}
