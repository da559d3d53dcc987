# A model of the rendezvous and relay servers

`hbbs` introduces remote-desktop peers to each other and picks a relay for them; `hbbr` relays the
sessions that cannot go direct. This project models the parts of both that hold state over long
runs, and proves what that state guarantees on every run:

| file | part of the system |
|---|---|
| `TcpChannel.dfy` | plain TCP connections of `hbbs`: the write half that moves from the read loop to `tcp_punch` to a sender, the key exchange, and the two cipher counters |
| `WsRegistry.dfy` | the registry of websocket peers, its drop guards and the channel behind each entry |
| `Selector.dfy`, `SelectorHistory.dfy` | the relay selector (held choices, preferred relay, costs, round-robin, reloads) and its runs |
| `Choose.dfy` | the cost minimiser |
| `RouteTable.dfy`, `RouteText.dfy`, `RouteLines.dfy`, `FileOrder.dfy` | the routing table: networks and lookup, the parser, what one line means, and file order |
| `RoundTrip.dfy`, `RoutesTool.dfy` | the tool that prints the routing file, and the round trip through the parser |
| `RelayList.dfy`, `Text.dfy`, `Sorting.dfy`, `Arithmetic.dfy`, `Basics.dfy` | the relay list parser, the string functions both parsers use, the one stable sort all parts use, and facts about division |
| `HealthCheck.dfy` | the periodic probe of the relays |
| `PeerTable.dfy` | peer records in memory over the database, and the registration rules |
| `Limiters.dfy`, `PunchLog.dfy` | the rate limiters and the bounded log of punch-hole requests |
| `KeyFile.dfy` | `gen_sk` calls racing on the two key files, one file operation at a time |
| `Pairing.dfy`, `RelayLoop.dfy` | `hbbr`'s pairing map, and one relayed session |

Each stateful part is given three times over: a state and one function per operation or step; the
class or loop that carries the operations out, whose methods are proved to do exactly what those
functions say; and lemmas over arbitrary runs of the steps. Steps that are not enabled do not
happen, so "every run" means every sequence of steps.

Conventions: times are natural numbers (milliseconds where the code counts milliseconds or whole
seconds of them) that do not go back; counters do not wrap; costs are reals, rounded
to tenths of a millisecond where they are printed; an address key is what `try_into_v4` made of the address.

Findings worth knowing:

- The punch log equals the end of an unbounded log exactly when `MAX_PUNCH_REQUESTS` is 0 or at
  least 30 (`PunchLog.BoundIsFaithfulExactlyWhen`); from 1 to 29 it can record a repeat that a larger log
  would have dropped.
- Nothing parked in `tcp_punch` outlives its connection, even if two live connections share an
  address. That a parked half stays available for its answer is not so in general: another
  connection from the same ip and port takes it away by parking its own half over it, or by
  ending without a half of its own, which removes whatever is parked there. Those two are the only ways
  (`TcpChannel.StaysParkedExactlyWhen`), so on every run a connection's half is in its loop,
  parked or taken by a sender if and only if no such step met it (`TcpChannel.AtHandExactlyWhen`);
  `TcpChannel.SharedAddressRun` is a run with both losses.
- A stream parked in `hbbr` can go before its 30 seconds are over: the sleeper of an earlier
  connection with the same uuid, due before the stream's own, removes it
  (`Pairing.EarlierSleeperRemoves`; `Pairing.ReusedUuidRun` is a run in which one goes 20 seconds early). The
  exact condition for it to stay is `Pairing.StaysParkedExactlyWhen`.
- The key-file guarantees hold from any initial folder, not only an empty one. A public key file that
  was there before is left alone, and then a call returns Ok only with the key in that file
  (`KeyFile.OldPublicKeyDecides`); beside a complete private key it does not match, no call ever does
  (`KeyFile.MismatchedPairNeverReturned`).
- The comment on bracketed relay entries describes only `[v6]` and `[v6]:port`
  (src/relay_routes.rs:82), but the code lets more through: an entry with no `]` at all, and any text
  after the `]` that does not start with `:`. Among entries that start with `[` and have no space
  and no `/`, the ones refused are exactly those with a `:` right after the first `]` and then no port
  (`RelayList.BracketedRefusedExactlyWhen`).

## Model

| member | source | states |
|---|---|---|
| `TcpChannel.CiphersMatch` | src/rendezvous_server.rs:56-105 | on every run, the write half of a connection, whether in its loop, in `tcp_punch` or with a sender, has a send cipher exactly when the loop has a receive cipher, under the same key, at the number of sealed frames already sent; there is only one such half and it is in only one place |
| `TcpChannel.SentIsUnderstood` | src/rendezvous_server.rs:88-105 | on every run, what was sent on a connection is exactly what was for its client (the greeting, the answers while the loop had the half, what senders sent on it), in order: first in the clear, and then sealed so that a client starting its own cipher with the agreed key opens all of it; nothing is sealed before there is a key |
| `TcpChannel.WireIsWhatWasTold` | src/rendezvous_server.rs:1129-1157 | on every run, the messages on a connection's wire are the list of those for its client, built from the steps |
| `TcpChannel.AnswersSent` | src/rendezvous_server.rs:1140-1144 | answers go out with their own text, in order, after what is on the wire already |
| `TcpChannel.ReplyReachesAsker` | src/rendezvous_server.rs:1129-1157 | whoever takes a parked half sends its message on it to the connection that parked it, and to no other |
| `TcpChannel.ClientIsUnderstood` | src/rendezvous_server.rs:1621-1631 | from any moment at which the loop has a cipher, frames the client seals in order always open to what it sent, whatever other connections, senders and the parked half do in between |
| `TcpChannel.UnderstoodCountsUp` | patches/0001-feat-Add-KeyExchange-and-Encrypted-tcpstream.patch:161-186 | on every run, the frames that opened on a connection, up to and with the one it ended on, carry the counters 1, 2, 3, ... under the loop's key, without gap or repeat |
| `TcpChannel.StepKeepsInv` | src/rendezvous_server.rs:595-629 | every step (accept, frame, reply, send, leaving) keeps the invariant tying loops, parked halves, senders and wires together |
| `TcpChannel.RunKeepsInv` | src/rendezvous_server.rs:1608-1668 | so it holds on every run |
| `TcpChannel.SendKeepsOrder` | src/rendezvous_server.rs:88-105 | sending on a half in step with its wire leaves the wire in order and the half in step |
| `TcpChannel.ExchangedOk` | src/rendezvous_server.rs:1635-1655 | phase 2 of the key exchange gives both directions their first cipher at once, the half still being in the loop |
| `TcpChannel.ExchangeSecures` | src/rendezvous_server.rs:1635-1655 | phase 2 as the first frame of a greeted connection gives its loop the agreed key, and the connection goes on |
| `TcpChannel.OtherFrameUnsecures` | src/rendezvous_server.rs:1631-1634 | any other first frame spends the secret and leaves the channel in the clear |
| `TcpChannel.UnsecuredStays` | src/rendezvous_server.rs:1631-1655 | and it stays in the clear on every run from there |
| `TcpChannel.NotGreetedStaysClear` | src/rendezvous_server.rs:1613-1618 | a connection that was not greeted never gets a cipher |
| `TcpChannel.ReceivedLoops` | src/rendezvous_server.rs:1624-1664 | a frame changes no loop but its own, spends the handshake secret, and moves only that loop's receiving cipher |
| `TcpChannel.FinishedNotParked` | src/rendezvous_server.rs:1666-1668 | on every run, whatever is parked belongs to a connection still being read and is under that connection's address; once all have ended, `tcp_punch` is empty |
| `TcpChannel.ReceivedPunch` | src/rendezvous_server.rs:1624-1668 | what a frame does to `tcp_punch` and to the loop's half, told from what it finds: parks over whatever is there, ends without a half and removes whatever is there, or leaves the map alone |
| `TcpChannel.StaysParkedExactlyWhen` | src/rendezvous_server.rs:603-604 | through any step that neither takes it nor ends its connection, a parked half stays parked if and only if the step is not another connection from that address parking its own half or ending with none |
| `TcpChannel.AtHandExactlyWhen` | src/rendezvous_server.rs:1129-1157 | on every run, the half of a connection still being read is in its loop, parked under its address, or was taken by a sender, if and only if no such step met it while it was parked |
| `TcpChannel.InLoopParkedOrAnswered` | src/rendezvous_server.rs:1129-1157 | in particular nothing is lost while live connections have addresses of their own |
| `TcpChannel.AnsweredOnce` | src/rendezvous_server.rs:603-604 | a half that a sender took is never parked again nor back in its loop |
| `TcpChannel.SharedAddressLosesHalf` | src/rendezvous_server.rs:603-604 | of two halves parked under one address the second displaces the first, which is then neither in its loop, parked nor with a sender |
| `TcpChannel.LeavingTakesAnothersHalf` | src/rendezvous_server.rs:1666-1668 | a connection that ends without a half removes the one another connection has parked at that address, which is still being read |
| `TcpChannel.SharedAddressRun` | src/rendezvous_server.rs:603-604 | a concrete run in which an old connection loses its half to a new one from the same ip and port, and then ends and takes the new one's half with it |
| `TcpChannel.TcpPunch.Insert` | src/rendezvous_server.rs:603-604 | parking changes the entry at that address and nothing else |
| `TcpChannel.TcpPunch.Remove` | src/rendezvous_server.rs:1129-1157 | whatever is parked at the address is returned and leaves the map |
| `TcpChannel.Connection.constructor` | src/rendezvous_server.rs:1609-1623 | a new connection has its half, no cipher, and a handshake to spend if there is a key |
| `TcpChannel.Connection.End` | src/rendezvous_server.rs:1666-1668 | a loop that has no half removes what is parked at its address, one that has it removes nothing |
| `TcpChannel.Connection.Answer` | src/rendezvous_server.rs:1140-1144 | answers go out in order on the half, if the loop has it; what they say is in `TcpChannel.AnswersSent` |
| `TcpChannel.Connection.Handle` | src/rendezvous_server.rs:584-733 | what `handle_tcp` does to the loop, the wire and `tcp_punch` is the step of the model |
| `TcpChannel.Connection.Receive` | src/rendezvous_server.rs:1624-1664 | one turn of the read loop is the `Receive` step of the model |
| `WsRegistry.EntryIsLastRegistered` | src/rendezvous_server.rs:126-154 | for every interleaving, the registry has an entry at a key exactly when the last connection that registered there still has its guard, and it is that connection |
| `WsRegistry.PushNeverMeetsClosed` | src/rendezvous_server.rs:1108-1122 | a push goes into the channel of an open connection with that key, or there is no entry and nothing changes; the stale-entry branch is never taken |
| `WsRegistry.FinishedNotRegistered` | src/rendezvous_server.rs:1552-1607 | a connection whose guard has dropped is not in the registry, and once all have, the registry is empty |
| `WsRegistry.PushedIsTakenInOrder` | src/rendezvous_server.rs:1574-1580 | what a connection's loop has taken out of its channel followed by what is still queued is exactly what was pushed to it, in order |
| `WsRegistry.TakenAreFirstPushed` | src/rendezvous_server.rs:1574-1580 | each turn of the loop takes one, so what it has taken are the first of the messages pushed to it |
| `WsRegistry.WsPeers.AcceptConn` | src/rendezvous_server.rs:1556-1565 | a connection gets a serial of its own, an empty channel and a guard |
| `WsRegistry.WsPeers.RegisterWsPeer` | src/rendezvous_server.rs:1093-1103 | overwrites any older entry at the connection's key and changes nothing else |
| `WsRegistry.WsPeers.GuardDropped` | src/rendezvous_server.rs:146-154 | removes the entry only if it is the connection's own |
| `WsRegistry.WsPeers.PushToWsPeer` | src/rendezvous_server.rs:1108-1122 | queues the message last in the channel of the registered connection if its receiver is there, else drops the entry and says so |
| `WsRegistry.WsPeers.ForwardPushed` | src/rendezvous_server.rs:1574-1580 | the loop takes the oldest message of its channel |
| `SelectorHistory.PinsJustified` | src/relay_select.rs:422-456 | on every run, each held choice comes from a fresh decision for that pair, expires the time limit after that decision however often it was used, and no command or successful reload came since |
| `SelectorHistory.PinnedAnswerIsJustified` | src/relay_select.rs:335-346 | every `pinned` answer repeats a fresh decision for the same unordered pair of canonical addresses made less than the time limit earlier, with no successful reload and no `use-relay` in between, and names a relay healthy now |
| `SelectorHistory.OneRelayPerAttempt` | src/relay_select.rs:288-346 | after a fresh decision every committed pick of the pair in either order within the time limit gets the same relay, while it is healthy at each pick of the pair, nothing is reloaded or commanded, and fewer than 4096 pairs hold unexpired choices |
| `SelectorHistory.PinSurvives` | src/relay_select.rs:434-456 | a held choice survives any number of undisturbing events unchanged |
| `SelectorHistory.PickAndPins` | src/relay_select.rs:296-395 | what a pick does to the held choices: nothing, or replace the pair's own after making room |
| `SelectorHistory.ForgettingDropsAll` | src/relay_select.rs:541-582 | `use-relay` and every reload that took effect empty the held choices; a failed or unneeded reload and a new live list leave them |
| `SelectorHistory.CommandedRelayAnswers` | src/relay_select.rs:315-326 | after `use-relay r` with `r` answering, every pick among several relays answers it while it is answering, and changes nothing, until the next command |
| `SelectorHistory.AutoPrefersNone` | src/relay_select.rs:503-517 | after `use-relay auto` no pick is answered for being preferred until the next command |
| `SelectorHistory.LookedAtOnce` | src/relay_select.rs:559-568 | a file that has not changed since it was looked at is not looked at again |
| `SelectorHistory.LoadedStays` | src/relay_select.rs:552-598 | a table, database or list of locations that loaded is in force until another loads in its place, whatever fails in between |
| `SelectorHistory.LoadedTablePrices` | src/relay_select.rs:399-411 | so a table that loaded gives the costs of its longest match to every later pick |
| `SelectorHistory.PinsBounded` | src/relay_select.rs:434-456 | there are never more than 4096 held choices, on any run |
| `SelectorHistory.TurnsGoRound` | src/relay_select.rs:367-378 | while the healthy list stays the same, the answers given in turn go round it without a skip, whatever pinned, routed, preferred or dry-run picks and reloads come between |
| `SelectorHistory.CountTurns` | src/relay_select.rs:367-378 | how often one relay occurs among consecutive turns, counted by remainders |
| `SelectorHistory.RoundRobinIsFair` | src/relay_select.rs:367-378 | m answers given in turn among n distinct healthy relays give each relay m/n answers, rounded down or up |
| `Selector.KeyIgnoresOrder` | src/relay_select.rs:335-336 | a pair has one key in either order and with IPv4 addresses wrapped or not |
| `Selector.DecideIgnoresPins` | src/relay_select.rs:348-378 | held choices have no part in a fresh decision |
| `Selector.DecideIgnoresOrder` | src/relay_select.rs:348-378 | a fresh decision (relay, reason and totals) is the same with the two ends exchanged |
| `Selector.SideCostsMeans` | src/relay_select.rs:399-418 | what is known of an end is the costs of the table's longest match for its canonical address, and where no line contains it the costs of the place the database gives, else nothing |
| `Selector.DecideIsCheapest` | src/relay_select.rs:348-366 | if anything is known of an end, a fresh decision is the earliest healthy relay of least price (for each known end what is listed under its normalised name, else 1000 ms), with every relay's price and the reason that says which sources were used |
| `Selector.DecideInTurn` | src/relay_select.rs:367-378 | if nothing is known of either end it is the next in turn |
| `Selector.PickAnswersExactly` | src/relay_select.rs:296-395 | the answer to every pick, case by case: none, the only relay, the preferred one if it is answering, the held one, the cheapest, the next in turn; and a dry run changes nothing |
| `Selector.FindsFirst` | src/relay_select.rs:318-318 | the first live relay that is the same after normalising |
| `Selector.RelaySelector.SetLive` | src/relay_select.rs:281-285 | replaces the live list and nothing else |
| `Selector.RelaySelector.FindLive` | src/relay_select.rs:318-318 | the first live relay equal after normalising, or none if there is none |
| `Selector.RelaySelector.PinnedRelay` | src/relay_select.rs:422-432 | a held choice is returned only if unexpired and healthy; otherwise its entry is removed |
| `Selector.RelaySelector.PinRelay` | src/relay_select.rs:434-456 | the choice is held for the time limit, expired ones making room first and all others only if that is not enough |
| `Selector.RelaySelector.SideOf` | src/relay_select.rs:399-418 | what is known of an end: the table's line, else distances by location, else nothing |
| `Selector.RelaySelector.Decision` | src/relay_select.rs:348-378 | the cheapest by what is known of both ends with the reason that says where it came from, else the next in turn |
| `Selector.RelaySelector.Pick` | src/relay_select.rs:296-395 | answer and new state of a pick: no relay, only relay, preferred, held, decided; a dry run changes nothing |
| `Selector.RelaySelector.UseRelay` | src/relay_select.rs:481-546 | sets, clears or keeps the preferred relay, and always drops the held choices |
| `Selector.RelaySelector.ReloadRoutes` | src/relay_select.rs:552-598 | a changed file is looked at once; if it loads it replaces the table and drops the held choices, else the old table stays |
| `Selector.RelaySelector.ReloadGeo` | src/relay_select.rs:603-722 | the same for the database and the locations, each on its own |
| `Choose.ChooseBest` | src/relay_routes.rs:235-261 | the loop finds the earliest index of least total |
| `Choose.ChosenIsEarliestCheapest` | src/relay_routes.rs:230-261 | whichever healthy relay is of least total, and before any other as cheap, is the one chosen, with its total and everyone's |
| `Choose.SwappedEndsAgree` | src/relay_routes.rs:208-222 | exchanging the two ends changes nothing |
| `Choose.RemovingLoserKeepsChoice` | src/relay_routes.rs:235-261 | taking away any relay that was not chosen leaves the choice |
| `Choose.AddedRelayWinsOrNothing` | src/relay_routes.rs:235-261 | a relay put in anywhere is chosen exactly when it is cheaper, or as cheap and earlier; otherwise the choice stays |
| `Choose.ListedBeatsUnlisted` | src/relay_routes.rs:26-29 | a relay listed on every known end below 1000 costs strictly less than one listed on none, which is then never chosen |
| `RouteTable.CanonicalExactly` | src/relay_routes.rs:204-204 | exactly the IPv6 addresses whose first 96 bits are 80 zeros and 16 ones (section 2.5.5.2 of RFC 4291) become the IPv4 address in their last 32 bits; any other address is itself |
| `RouteTable.ContainsExactly` | src/relay_routes.rs:205-205 | a network contains exactly the addresses of its family that agree with it bit by bit on the prefix |
| `RouteTable.WidestAndNarrowest` | src/relay_routes.rs:205-205 | prefix 0 contains every address of its family, and a full prefix only its own address |
| `RouteTable.NetworksNest` | src/relay_routes.rs:205-205 | a network whose address lies in one of no longer prefix lies in it altogether |
| `RouteTable.SameLengthEqualOrDisjoint` | src/relay_routes.rs:150-155 | two networks of one length that share an address are the same network |
| `RouteTable.SameNetworkSameMembers` | src/relay_routes.rs:150-155 | what the parser calls a duplicate contains the same addresses |
| `RouteTable.SortRulesSorts` | src/relay_routes.rs:186-187 | sorting puts longer prefixes first and neither adds nor loses a rule |
| `RouteTable.SortRulesStable` | src/relay_routes.rs:186-187 | rules of equal prefix length stay in file order |
| `Sorting.SortOrders` | src/relay_routes.rs:187-187 | sorting by any total order orders |
| `Sorting.SortStable` | src/relay_routes.rs:186-187 | elements that may stand either way round keep their order |
| `RouteTable.FirstMatchIsLongest` | src/relay_routes.rs:119-124 | in a list sorted that way the first match is a longest match, and there is none only if no rule matches |
| `RouteTable.LongestMatchUnique` | src/relay_routes.rs:150-155 | with no network twice, at most one rule is a longest match |
| `RouteTable.LookupIsLongestMatch` | src/relay_routes.rs:201-206 | a rule is what `lookup` returns if and only if it is the longest-prefix match (section 5.1 of RFC 4632) of the canonical address in the file |
| `RouteTable.TableLookup` | src/relay_routes.rs:201-206 | the same for a table as the parser leaves it |
| `RouteTable.LookupIgnoresFileOrder` | src/relay_routes.rs:201-206 | the same rules in another order answer every address alike |
| `RouteText.ReadEntries` | src/relay_routes.rs:158-179 | the entry loop gives the costs, or the error of the first bad entry |
| `RouteText.ParseTable` | src/relay_routes.rs:137-189 | the line loop gives the sorted rules, or the error of the first bad line with its number |
| `RouteLines.EntryExactly` | src/relay_routes.rs:159-176 | an entry is cut at its last `=`; it is refused for its number, its time, its name or a repeat, in that order, and else adds the time under the normalised name |
| `RouteLines.EntriesAreFields` | src/relay_routes.rs:157-159 | the entries of a line are the runs of characters between commas and whitespace |
| `RouteLines.FieldsOfWoven` | src/relay_routes.rs:157-159 | entries separated by any mix of commas and whitespace are found again, each once, in order |
| `RouteLines.ContentExactly` | src/relay_routes.rs:141-144 | what a line says ends where a comment starts, and has no whitespace around it |
| `RouteLines.LineExactly` | src/relay_routes.rs:145-181 | what a line adds, or what it is refused for, by its first word and the fields after it |
| `FileOrder.LineAfterOthers` | src/relay_routes.rs:139-181 | a line read after others is accepted exactly when it is good on its own and its network is not known, and adds what it adds on its own |
| `FileOrder.LinesAccepted` | src/relay_routes.rs:139-181 | a run of lines is accepted exactly when each is good and no network repeats, and then gives each line's rule in order |
| `FileOrder.FileAccepted` | src/relay_routes.rs:137-185 | the same for a file read from its start |
| `FileOrder.ParsedExactlyWhen` | src/relay_routes.rs:137-189 | a file parses exactly when each line is good, no network repeats and there is a rule; the table is then sorted and has no network twice |
| `FileOrder.RulesOfPermuted` | src/relay_routes.rs:139-181 | permuting the lines permutes the rules |
| `FileOrder.AnswersIgnoreLineOrder` | src/relay_routes.rs:137-206 | two files with the same lines in any order are both accepted or both refused, and when accepted give every address the same rule |
| `RoundTrip.EntryRead` | tools/relay-rtt/relay_rtt.py:624-626 | a printed `name=cost` is read as that name and cost, or refused as a repeat |
| `RoundTrip.TenthsRead` | tools/relay-rtt/relay_rtt.py:626-626 | the digits printed for a number of tenths stand for that number of tenths |
| `RoundTrip.EntriesRead` | src/relay_routes.rs:158-179 | printed entries are accepted exactly when no relay repeats, and give the costs printed |
| `RoundTrip.CostMapMeans` | tools/relay-rtt/relay_rtt.py:624-626 | the map has exactly the printed relays, each with its own cost |
| `RoundTrip.RouteLineRead` | tools/relay-rtt/relay_rtt.py:636-637 | a printed line, its entries in any order, is good exactly when it names no relay twice, and is then that network with those costs |
| `RoundTrip.WrittenFileIsRead` | tools/relay-rtt/relay_rtt.py:628-647 | a printed file, the entries of each line in any order, parses if and only if no network and, within a line, no relay appears twice, and then to exactly the networks and costs written |
| `RoutesTool.RelayNames` | tools/relay-rtt/relay_rtt.py:524-533 | refuses exactly when some node was measured under two names; otherwise maps every node measured, and no other, to its name |
| `RoutesTool.NameIsClean` | tools/relay-rtt/relay_rtt.py:528-528 | a name made from a plain host and port is lower case, has a port and none of the characters the file format uses |
| `RoutesTool.TenthsNearest` | tools/relay-rtt/relay_rtt.py:626-626 | a cost is printed to within half a tenth of a millisecond |
| `RoutesTool.PrintedCheapestFirst` | tools/relay-rtt/relay_rtt.py:625-626 | the entries of a line are in order of cost as measured and then of node, each once, and the rounded costs printed never go down |
| `RoutesTool.PrintedMembers` | tools/relay-rtt/relay_rtt.py:625-626 | what is printed is each cost, rounded, and nothing else |
| `RoutesTool.SiteText` | tools/relay-rtt/relay_rtt.py:634-637 | the lines for one site are its comment and one line for each of its networks |
| `RoutesTool.CmdRoutes` | tools/relay-rtt/relay_rtt.py:628-647 | the text built by the loops is the file laid out header, sites, catch-all |
| `RoutesTool.RoutesFileIsRead` | tools/relay-rtt/relay_rtt.py:628-647 | that file, for any sites, costs and catch-all, goes through the parser to exactly its networks and costs, or is refused exactly for a repeat |
| `RoutesTool.MeasuredFileIsRead` | tools/relay-rtt/relay_rtt.py:576-647 | from measured rows with plain hosts and ports: the file is refused exactly for a repeat, and otherwise each network of each site, and each catch-all network, has a rule in which every relay measured from there, under the lower-case `host:port` of its row, has its measured cost to within half a tenth; and there is no rule for any other network |
| `RelayList.SiftSound` | src/relay_routes.rs:50-72 | every entry is in exactly one of kept and dropped, kept ones are usable and pairwise distinct after normalising, every reason given is true |
| `RelayList.ReadIsSound` | src/relay_routes.rs:50-72 | the same for the trimmed non-empty pieces of any list |
| `RelayList.RereadKeepsAll` | src/relay_routes.rs:50-72 | joining the kept entries with commas and reading that keeps all of them and drops nothing |
| `RelayList.BracketedRefusedExactlyWhen` | src/relay_routes.rs:81-106 | an entry starting with `[` (no space, no `/`) is refused exactly when it is `[host]:port` with something that is no port, for that reason |
| `RelayList.UnclosedBracketUsed` | src/relay_routes.rs:83-83 | `[` followed by anything without `]` is used |
| `RelayList.TextAfterBracketUsed` | src/relay_routes.rs:83-85 | so is `[host]` followed by any text that does not start with `:` |
| `RelayList.HostUsedExactlyWhen` | src/relay_routes.rs:88-88 | a bare host is used unless it is empty |
| `RelayList.HostPortUsedExactlyWhen` | src/relay_routes.rs:89-92 | `host:port` is used exactly when there is a host and the rest is a port |
| `RelayList.SeveralColonsRefused` | src/relay_routes.rs:93-98 | more than one colon without a bracket is refused for that |
| `RelayList.PortsExactly` | src/relay_routes.rs:104-107 | a port is digits, perhaps after a `+`, that stand for 1 to 65535 |
| `RelayList.PortsAre` | src/relay_routes.rs:104-107 | so the numbers from 1 to 65535, written out, are the ports |
| `RelayList.NotPlainRefused` | src/relay_routes.rs:75-80 | a space, or a `/`, is refused for that |
| `RelayList.ParseRelayList` | src/relay_routes.rs:50-110 | the loop's two lists are those |
| `Text.NormalizeIdempotent` | src/relay_routes.rs:33-40 | normalising twice is normalising once |
| `Text.NamesCompare` | src/relay_routes.rs:31-40 | names compare without regard to letter case, to whitespace around them, or to whether `:21117` is written out |
| `Text.TrimMeans` | src/relay_routes.rs:53-53 | trimming takes all whitespace off both ends and nothing else |
| `Text.LineEndingsAlike` | src/relay_routes.rs:139-139 | lines come out the same from either kind of line ending |
| `Text.LinesOfUnended` | src/relay_routes.rs:139-139 | a last line without a line ending is a line too |
| `HealthCheck.CheckRelayServers` | src/rendezvous_server.rs:1759-1789 | for every finishing order the new live list is the relays that answered in configured order, and the old list if none did |
| `HealthCheck.FinishingOrderIrrelevant` | src/rendezvous_server.rs:1780-1785 | only which probes succeeded matters |
| `HealthCheck.AnsweringMembers` | src/rendezvous_server.rs:1759-1789 | a relay is in the new list exactly when it is configured and answered |
| `PeerTable.RegisteredOk` | src/rendezvous_server.rs:739-826 | a registration keeps memory and database in agreement, loses no row and changes at most its own, never a uuid |
| `PeerTable.RunAgrees` | src/peer.rs:96-172 | on every run, memory agrees with the database on uuid, pk and ip of every persisted peer, and an id and uuid once stored stay |
| `PeerTable.StartsInAgreement` | src/peer.rs:71-94 | a server that starts on any database whose rows have a uuid starts in agreement |
| `PeerTable.PersistedPeersMatch` | src/peer.rs:139-159 | a peer both in memory and in the database has that row's guid, uuid, pk and ip |
| `PeerTable.KeyChangesOnlyFromRecordedIp` | src/rendezvous_server.rs:756-790 | a stored key changes only by a registration of that id with the stored uuid from the stored ip, and becomes the key registered |
| `PeerTable.OkMeansStored` | src/peer.rs:96-136 | after an OK the database holds exactly the id, uuid, pk and ip registered, although an update never writes the uuid column |
| `PeerTable.RestartKeepsVerdicts` | src/rendezvous_server.rs:756-790 | dropping memory and reloading leaves every uuid or pk mismatch verdict as it was |
| `PeerTable.RepliesExactly` | src/rendezvous_server.rs:739-826 | what every registration is answered: nothing for a missing field; UUID_MISMATCH for an id not of 6 to 253 characters, or where the stored row has another uuid, or another ip and another key; TOO_FREQUENT if the address is over its limit or the peer is over 2 within 6 whole seconds; OK otherwise, each if and only if |
| `PeerTable.MovedPeerAccepted` | src/rendezvous_server.rs:756-790 | the same uuid and key from another ip are accepted and the ip is stored |
| `PeerTable.OkRefreshes` | src/rendezvous_server.rs:818-824 | an accepted registration that changed something, and every one over a websocket, moves the peer and marks it seen |
| `PeerTable.AddressMovesExactlyWhen` | src/rendezvous_server.rs:831-862 | a heartbeat moves a peer exactly when it has a key and comes from the ip last known or a loopback one; only address and time change |
| `PeerTable.OkTimesAreAccepted` | src/rendezvous_server.rs:791-799 | on every run without a restart, the registrations of a peer answered OK are those its limiter let through |
| `PeerTable.AcceptedRegistrationsLimited` | src/rendezvous_server.rs:791-799 | on such a run no peer has more than 3 registrations accepted in a chain with no gap over 6 whole seconds |
| `PeerTable.PeerMap.Get` | src/peer.rs:139-159 | the record in memory, else the database row, which memory then has |
| `PeerTable.PeerMap.GetOr` | src/peer.rs:161-172 | as `get`, else a new empty record |
| `PeerTable.PeerMap.UpdatePk` | src/peer.rs:96-136 | writes the record, then inserts or updates the row |
| `PeerTable.PeerMap.HandleRegisterPk` | src/rendezvous_server.rs:739-826 | reply and new state of a registration |
| `PeerTable.PeerMap.UpdateAddr` | src/rendezvous_server.rs:831-862 | moves the address only of a peer with a key and an unchanged ip, and asks for the key otherwise |
| `Limiters.CounterIsChain` | src/rendezvous_server.rs:1197-1210 | the counter is at least the length of the unbroken chain of counted requests so far, and stays within its limit |
| `Limiters.ChainsAreShort` | src/rendezvous_server.rs:1197-1210 | so no such chain is longer than the limit allows, on any timed run |
| `Limiters.RegistrationsLimited` | src/rendezvous_server.rs:791-799 | at most 3 registrations in a chain with no gap over 6 whole seconds |
| `Limiters.AddressRequestsLimited` | src/rendezvous_server.rs:1197-1210 | at most 32 counted requests in a chain with no gap over 60 whole seconds |
| `Limiters.ThirtyTwoReached` | src/rendezvous_server.rs:1197-1210 | 32 is reached, and the next request at that moment is refused |
| `Limiters.AddressesIndependent` | src/rendezvous_server.rs:1197-1225 | on every run, each address's counter depends on its own requests alone and its id set never exceeds 301 |
| `Limiters.BlockerLimitsEachAddress` | src/rendezvous_server.rs:1197-1225 | on every run of the blocker over all addresses, no address has more than 32 requests counted, let through or not, in a chain with no gap over 60 whole seconds |
| `Limiters.VerdictExactly` | src/rendezvous_server.rs:1197-1225 | a request is let through exactly when its address has no entry, or its counter is not over 30 within 60 whole seconds and, unless the ids are over a day old, its id is known or at most 300 are kept |
| `Limiters.IdsExactly` | src/rendezvous_server.rs:1211-1220 | which ids are kept after each request |
| `Limiters.AnsweredLimited` | src/rendezvous_server.rs:1197-1225 | on every timed run, however addresses interleave, no address has more than 32 requests let through in a chain with no gap over 60 whole seconds |
| `Limiters.ThirtyThirdRefused` | src/rendezvous_server.rs:1204-1206 | of requests from one address in one instant, whatever their ids, the first 32 are let through and the 33rd is refused |
| `Limiters.ThreeReached` | src/rendezvous_server.rs:791-799 | three registrations in one instant pass and a fourth does not |
| `Limiters.IpBlocker.CheckIp` | src/rendezvous_server.rs:1197-1225 | verdict and new entries of a check |
| `PunchLog.BoundedIsEndOfFull` | src/rendezvous_server.rs:166-181 | with capacity 0 or at least 30, after any requests and clears the log is the last entries of the unbounded log |
| `PunchLog.SmallBoundDiffers` | src/rendezvous_server.rs:166-181 | for each capacity from 1 to 29, requests from one address to that many peers and one more, and then to the first again, after which it is not |
| `PunchLog.BoundIsFaithfulExactlyWhen` | src/rendezvous_server.rs:160-181 | it always is if and only if the capacity is 0 or at least 30 |
| `PunchLog.KeptRepeatsAreSpaced` | src/rendezvous_server.rs:166-181 | for every capacity, two kept entries with the same source and target less than 60 seconds apart are at least 31 positions apart |
| `PunchLog.DroppedExactlyWhen` | src/rendezvous_server.rs:166-181 | on every run, a request is dropped if and only if the capacity is 0 or the latest of the last 30 entries with its source ip and target id is less than 60 seconds old; otherwise it goes to the end, the oldest leaving a full log |
| `PunchLog.NeverOverMax` | src/rendezvous_server.rs:178-178 | the log never has more entries than its capacity |
| `PunchLog.PunchRequests.Record` | src/rendezvous_server.rs:166-181 | the search back through the tail and the push give the log of the model |
| `PunchLog.PunchRequests.Forget` | src/rendezvous_server.rs:1364-1368 | empties the log |
| `KeyFile.StepKeepsInv` | src/common.rs:225-248 | every file operation of every call keeps the invariant tying the folder to what each call relies on |
| `KeyFile.RunKeepsInv` | src/common.rs:349-390 | so it holds on every interleaving, from any initial folder |
| `KeyFile.CallsAgree` | src/common.rs:349-390 | all calls that return Ok, however they interleave, fail or die, return the same public key, that of the complete private key in place |
| `KeyFile.CompleteKeyStays` | src/common.rs:225-248 | once complete, the private key file is never overwritten or removed |
| `KeyFile.PublicAbsentOrMatching` | src/common.rs:275-347 | starting without one, the public key file is at every moment absent or all of the key matching the complete private key |
| `KeyFile.PublicNeverChanges` | src/common.rs:292-304 | a public key file that is there is never changed |
| `KeyFile.OldPublicKeyDecides` | src/common.rs:275-304 | with a public key file there before, on every run a call that returns Ok returns the key in that file, so none does if it holds no key |
| `KeyFile.MismatchedPairNeverReturned` | src/common.rs:275-304 | with a complete private key and a public key file that is not its own there before, no call returns Ok on any run |
| `KeyFile.GeneratedKeyMatches` | src/common.rs:375-386 | with no private key and a public key file that holds the key generated, a call makes the private key and returns it |
| `KeyFile.LaterCallReturnsKey` | src/common.rs:349-390 | once the folder holds a complete private key and no public key but its own, a later call that is not killed and can write, however it interleaves with others that may fail or die, never fails, returns no other key, and has returned that key after at most 7 file operations |
| `KeyFile.FirstThenSecond` | src/common.rs:349-390 | with nothing failing, a first call makes the pair and a second returns it, leaving the folder alone |
| `KeyFile.PublicOutcome` | src/common.rs:309-347 | how publishing turns out, by what is there, whether it is required and what fails |
| `KeyFile.KeyFolder.MissingPublicKey` | src/common.rs:275-290 | free, matching, or refused |
| `KeyFile.KeyFolder.CreatePrivateKey` | src/common.rs:225-248 | never touches an existing file, and leaves none after a failed write |
| `KeyFile.KeyFolder.WritePublicKey` | src/common.rs:309-347 | does what its steps do when nothing else runs |
| `KeyFile.KeyFolder.GenSk` | src/common.rs:349-390 | the same for the whole call |
| `Pairing.StepOk` | src/relay_server.rs:461-498 | every locked region of every task keeps the ownership invariant |
| `Pairing.RunOk` | src/relay_server.rs:461-498 | so it holds on every interleaving, with uuids reused and first arrivals colliding |
| `Pairing.OneOwner` | src/relay_server.rs:471-494 | a stream is with at most one of its own task, the parking map and a pair, and is parked in at most one place |
| `Pairing.PairedOnceUnderOwnUuid` | src/relay_server.rs:471-489 | a stream joins at most one pair, never with itself, and only under its own uuid |
| `Pairing.ParkedAtMostThirtySeconds` | src/relay_server.rs:490-494 | nothing stays parked more than 30 seconds after it was put there |
| `Pairing.StaysParkedExactlyWhen` | src/relay_server.rs:471-494 | over any run, a parked stream stays parked exactly while nobody takes or parks under its uuid and no sleeper with that uuid wakes, and once gone is not parked again |
| `Pairing.SecondFindsFirst` | src/relay_server.rs:471-489 | an arrival that looks any time after another parked under its uuid, that uuid untouched in between, is paired with it |
| `Pairing.EarlierSleeperRemoves` | src/relay_server.rs:491-492 | a sleeper with the uuid that is due before the parked stream's own is another stream's, and takes the parked one away before its 30 seconds are over, unpaired |
| `Pairing.ReusedUuidRun` | src/relay_server.rs:491-492 | a concrete run: a pair, then a third stream parked under the same uuid 20 seconds later, removed 10 seconds after that |
| `Pairing.RelayPeers.TakeParked` | src/relay_server.rs:471-489 | the first locked region is the `Take` step |
| `Pairing.RelayPeers.ParkOwn` | src/relay_server.rs:490-491 | the second is the `Park` step |
| `Pairing.RelayPeers.CleanUp` | src/relay_server.rs:491-492 | the removal after the sleep is the `Wake` step |
| `RelayLoop.Relay` | src/relay_server.rs:500-602 | the loop, stopping where it stops, gives the session of the model |
| `RelayLoop.Received` | src/relay_server.rs:522-567 | one wake-up: charged, counted and sent on, or the end it brings |
| `RelayLoop.EndWindow` | src/relay_server.rs:569-600 | the end of a window: speed, highest, report, downgrade |
| `RelayLoop.AverageAtMostHighest` | src/relay_server.rs:307-328 | in every usage report the integer average is at most the highest window speed |
| `RelayLoop.UsageIsReport` | src/relay_server.rs:569-588 | on every run, the usage line is the time of the windows that ended, the bits received by the last of them, their largest speed and the last one's |
| `RelayLoop.WindowIsSince` | src/relay_server.rs:533-586 | what a window counts is the bits received since the last one ended |
| `RelayLoop.ReceivedIsArrived` | src/relay_server.rs:522-567 | what counts as received is the frames that arrived while the session was going on |
| `RelayLoop.EndsExactlyWhen` | src/relay_server.rs:522-574 | a session ends by a failed send, 30 seconds of silence, a side that closed, or a window that ends with the address blocked, and in no other way |
| `RelayLoop.ChargedExactly` | src/relay_server.rs:528-533 | every bit is charged to the slow limiter if the session was downgraded or its address last seen on the black list, and to the session's own otherwise |
| `RelayLoop.SlowSessionNotDowngraded` | src/relay_server.rs:569-600 | a session whose every window stayed below the threshold is never downgraded |
| `RelayLoop.ElapsedIsLasted` | src/relay_server.rs:569-590 | on every run the elapsed time is the length of the windows that ended |
| `RelayLoop.DowngradedExactlyWhen` | src/relay_server.rs:569-600 | on every run a session is downgraded if and only if some window ended with the time of all windows above the start check as it then was and the bits received from both sides above that time times the threshold |
| `RelayLoop.DowngradeLatches` | src/relay_server.rs:586-598 | once set it stays set, and no later bit is charged to the session's own limiter |
| `RelayLoop.ForwardsInOrder` | src/relay_server.rs:522-567 | each side is sent exactly the other's non-empty frames in order, up to a send that fails; every bit is counted once and charged to exactly one of the two limiters |

## Left out

- Sockets, the task scheduler, protobuf encoding, websocket framing and SQL: only the steps and tables above stand for them.
- Sealing and key agreement are symbolic: a sealed frame opens under its own key and counter and no other. A frame that arrives sealed before the loop has a key is taken as an unknown message.
- `TcpChannel`: a sender is any step that takes what is parked at an address; which message makes it do so, and that it first tries the websocket registry, is not modelled. Handling one frame is one step.
- Great-circle distances and the GeoIP database: a database is any function from address to position and the locations any function from position to costs.
- `RoundTrip.WrittenFileIsRead`: takes as given that the Rust network library reads what the Python one prints for a network as that network, and that reading digits, a point and digits gives the number they stand for (an `f64` gives the nearest it has).
- `RoutesTool.CmdRoutes`: starts from the sites and their costs, which are not negative; reading the sites file and the statistics that give the costs are not modelled.
- `Text.NormalizeIdempotent`: lower-casing covers ASCII letters only, and so it is in every name compared; Unicode case mapping is a table of the library.
- The text of error messages: one constructor per message, with the line number where there is one.
- `Selector.RelaySelector.Pick`: is one step with one reading of the clock; finer interleavings of its locks are not modelled. Saving the preferred relay to disk is left out.
- `PeerTable`: a registration is one step, database calls succeed unless the unique index refuses, new guids are new, and the info column is its ip. The map that counts ip changes, which decides nothing, is left out.
- `KeyFile`: symbolic links and permission bits, the wait at the start of `gen_sk`, and the retry for a key without certain characters (any key may be generated). A partly written private key is one that does not decode, and a public key counts as matching after trimming.
- `Pairing`: the check of the licence key and the wait for the first frame come before the first step; a sleeping cleaner acts when its sleep is over.
- `RelayLoop`: how long a limiter makes the loop wait; the limiter shared by all sessions; the map of usage over sessions, of which one entry is modelled.
- `Limiters`: removal of an address's entry from the console.
- Token checking, console output and help, the downloader of the GeoIP database, the web interface and packaging: mostly I/O and text, and would add only easy members.
