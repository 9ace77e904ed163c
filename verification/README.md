# A verified model of the UNP network programs

This project models the parts of the repository in which the difficulty is not the system call but
the state around it, and proves what they do on every input, in every run or in every interleaving:

- the IPv6 and IPv4 address printer and parser (`Numerals`, `Pton4`, `Pton6`, `Ipv6Forms`,
  `Ipv6Language`, `Ntop`, `Ipv6Text`, `Ipv6RoundTrip`, `Aton`);
- the Internet checksum of RFC 1071 (`InCksum`);
- the reliable request over UDP with its round-trip estimators (`Rtt`, `DgSendRecv`);
- the addrinfo list that grows while it is walked (`AddrInfo`), and the lookup built on it
  (`AddrLookup`);
- the nonblocking copy loop with its two buffers and deferred FIN (`StrCli`);
- the datagram ring shared with a signal handler (`SigioEcho`) and the descriptor ring shared with
  worker threads (`Prethreaded`), both over `Ring`;
- the preforked server that passes descriptors (`Preforked`) and the connection-limited fetcher
  (`WebFetch`); `Counting` serves the fetcher and the threads;
- line reading with and without a hidden buffer (`Readline`) and length-prefixed messages
  (`Framing`), both over `Script`;
- the duplicate table and the statistics of ping (`PingTable`).

Loops and objects are loops and classes; each method is proved equal to a function of the old
state, and the properties are proved about that function. What the outside world does is a
parameter: an arbitrary script of system-call results, of network events or of scheduling choices,
so that a statement for all scripts is a statement for all runs. Where a script names something
impossible it is passed over. `real` stands for `float`; 16- and 32-bit wrap-around is written out.

Where the code and its comments or a natural expectation disagree, the model follows the code and
says exactly when the expectation holds:

- a `::` in an IPv6 address that already has eight groups is not "ignored" (comment at
  `unpv13e/libfree/inet_pton.c` line 134): every byte after it is cleared, so the address survives
  exactly when those bytes were zero (`Ipv6Forms.FullAddressGap`; seven groups `1`, `::` and `1`
  lose the last one, `Ipv6Language.FullAddressLosesTail`);
- the IPv6 parser accepts more than the grammar of section 2.2 of RFC 4291, exactly so much: groups
  with any number of leading zeros, a `::` that stands for nothing, and a single colon after a
  last group (`Ipv6Language.AcceptsExactly`);
- `inet_ntop4` compares the length without the NUL with `size` (`Ntop.InetNtop4`);
- the checksum is the one's complement sum exactly when the 32-bit accumulator does not wrap
  (`InCksum.ChecksumExactly`, `InCksum.WrapChangesChecksum`); a stored checksum verifies in any
  case (`InCksum.StoredChecksumVerifies`);
- `inet_aton` accepts more than `inet_pton4`, exactly so much (`Aton.StricterThanAton`; the text `1`,
  `Aton.ShortForm`);
- `rtt_timeout` doubles the timeout without clamping; four attempts bound it all the same
  (`DgSendRecv.CallAlarms`, `DgSendRecv.EveryAlarm`);
- `str_cli` can return with socket data not yet written to stdout, exactly when `fr` is not empty as
  the last turn begins (`StrCli.DrainedOnReturn`, `StrCli.ReturnCanLoseOutput`);
- `readline` returns one more than it stored, exactly when there is no newline within the room and
  the stream does not end before it (`Readline.CountExactly`, `Readline.CountCanBeOff`);
- the fetcher calls `Select` with an empty read set exactly when the connection limit is not
  positive (`WebFetch.EveryRun`, `WebFetch.LimitZero`);
- ping can report more packets received than transmitted, even when every reply is to a packet
  sent, because a signal handler may print the statistics in the middle of a duplicate
  (`PingTable.ReceivedExactly`, `PingTable.HonestLoss`, `PingTable.SummaryInsideReply`,
  `PingTable.StrayReply`);
- the last cell of the SIGIO histogram is never used (`SigioEcho.HandlerCounts`).

## Model

| member | source | states |
|---|---|---|
| `Numerals.DecPrefix` | unpv13e/libfree/inet_pton.c:102-105 | a decimal numeral is at least as large as each of its prefixes, so one within the limit is never rejected halfway |
| `Numerals.HexPrefix` | unpv13e/libfree/inet_pton.c:168-171 | the same for hexadecimal groups |
| `Numerals.DecReadAsHex` | unpv13e/libfree/inet_pton.c:165-171 | a decimal numeral below 1000 read as hexadecimal is at most 0x999: the first piece of an embedded dotted quad passes the 0xffff test before its dot is seen |
| `Numerals.DigitTables` | unpv13e/libfree/inet_pton.c:145-169 | the digits are exactly the characters of the tables `0123456789abcdef` and `0123456789ABCDEF`, and the value of a digit is its place there |
| `Pton4.InetPton4` | unpv13e/libfree/inet_pton.c:86-125 | accepts exactly four dot-separated nonempty decimal numerals of value at most 255, stores their values, and touches nothing otherwise |
| `Pton4.SplitMeans` | unpv13e/libfree/inet_pton.c:98-119 | the pieces the text is read as have no dots in them and give the text back when joined by dots |
| `Pton4.BadPieceStaysBad` | unpv13e/libfree/inet_pton.c:101-118 | once a piece exceeds 255 or holds a stray character no continuation of the text is a dotted quad, so rejecting early is right |
| `Pton4.DotStaysBad` | unpv13e/libfree/inet_pton.c:112-118 | the same for a misplaced or fourth dot |
| `Pton4.TracksDigit` | unpv13e/libfree/inet_pton.c:101-111 | the digit branch keeps the four counters in step with the pieces read so far |
| `Pton4.TracksDot` | unpv13e/libfree/inet_pton.c:112-116 | so does the dot branch |
| `Pton6.ScanBounds` | unpv13e/libfree/inet_pton.c:162-204 | for every text the state machine writes at most 16 bytes, and the `::` mark lies within them |
| `Pton6.ScanSteps` | unpv13e/libfree/inet_pton.c:162-204 | every branch of the character loop is one step of the reference scan |
| `Pton6.ScanLoop` | unpv13e/libfree/inet_pton.c:152-204 | the loop over an array and two pointers computes the reference scan and leaves the unused tail zero |
| `Pton6.Shift` | unpv13e/libfree/inet_pton.c:205-218 | the overlapping in-place shift moves the bytes after `::` to the end and zeroes the gap; in a full array it zeroes them |
| `Pton6.FullAddressColon` | unpv13e/libfree/inet_pton.c:134 | a `::` in a full address leaves it alone if and only if all bytes after the mark are zero |
| `Pton6.InetPton6` | unpv13e/libfree/inet_pton.c:140-224 | returns 1 and stores the parsed address exactly when the text parses; otherwise `dst` is unchanged |
| `Ipv6Forms.ScanItems` | unpv13e/libfree/inet_pton.c:162-204 | colon-separated groups, possibly ending in a dotted quad, scan to the bytes they spell |
| `Ipv6Forms.ParseFull` | unpv13e/libfree/inet_pton.c:140-224 | every full text, with or without a dotted quad, parses to its 16 bytes |
| `Ipv6Forms.ParseGap` | unpv13e/libfree/inet_pton.c:152-218 | every text with a leading, inner or trailing `::` parses to the shifted bytes |
| `Ipv6Forms.ParseCompressed` | unpv13e/libfree/inet_pton.c:205-218 | with fewer than 16 bytes written the `::` stands for exactly the missing zeros |
| `Ipv6Forms.FullAddressGap` | unpv13e/libfree/inet_pton.c:134 | eight groups around a `::` parse to what they spell if and only if everything after the `::` is zero |
| `Ipv6Language.SpellingParses` | unpv13e/libfree/inet_pton.c:140-224 | every spelling, with or without a `::`, a dotted quad at the end or a single colon after a last group, parses to the address it stands for |
| `Ipv6Language.TakeApart` | unpv13e/libfree/inet_pton.c:162-204 | whatever the state machine accepts, from any of its states, can be taken apart into groups, at most one `::`, and items |
| `Ipv6Language.ParsesOnlySpellings` | unpv13e/libfree/inet_pton.c:140-224 | every accepted text is a spelling, of the address it parses to |
| `Ipv6Language.AcceptsExactly` | unpv13e/libfree/inet_pton.c:140-224 | the language accepted and its meaning, in both directions |
| `Ipv6Language.FullAddressLosesTail` | unpv13e/libfree/inet_pton.c:134 | a text with eight groups and a `::` whose last group is lost |
| `Ntop.SearchedInvariant` | unpv13e/libfree/inet_ntop.c:135-154 | after every word the search holds the best and the current run of zeros of the words seen |
| `Ntop.BestRunIsLongestLeftmost` | unpv13e/libfree/inet_ntop.c:135-156 | the run chosen is the leftmost longest run of zero words if that has at least two words, and no run is chosen otherwise; both directions |
| `Ntop.Preprocess` | unpv13e/libfree/inet_ntop.c:126-156 | the packing loop and the search loop compute the words and that run |
| `Ntop.PrintedLength` | unpv13e/libfree/inet_ntop.c:162-183 | `n` words print to at most `5n - 1` characters |
| `Ntop.PresentationLength` | unpv13e/libfree/inet_ntop.c:162-187 | no text exceeds 39 characters, nor 22 with an embedded IPv4 address |
| `Ntop.FormatWord` | unpv13e/libfree/inet_ntop.c:162-183 | one turn of the formatting loop appends what the reference text has for that word |
| `Ntop.Format` | unpv13e/libfree/inet_ntop.c:158-187 | the formatting loop fills `tmp` with the reference text and never leaves its 46 characters |
| `Ntop.InetNtop4` | unpv13e/libfree/inet_ntop.c:85-101 | succeeds exactly when the text without its NUL fits `size`, and then writes text and NUL and nothing else |
| `Ntop.InetNtop6` | unpv13e/libfree/inet_ntop.c:109-198 | succeeds exactly when the text and its NUL fit, and then writes them and nothing else |
| `Ipv6Text.DottedExactly` | unpv13e/libfree/inet_ntop.c:174-180 | on the bytes alone: the text has a dot if and only if the address is ten zero bytes and two 255s, when it is `::ffff:` and the dotted quad of the last four bytes, or twelve zero bytes and then not two more, when it is `::` and that quad |
| `Ipv6Text.PrintsLowerCase` | unpv13e/libfree/inet_ntop.c:158-187 | every address prints in decimal and lower-case hexadecimal digits, colons and dots |
| `Ipv6RoundTrip.QuadRoundTrip` | unpv13e/libfree/inet_ntop.c:85-101 | `inet_pton4` accepts what `inet_ntop4` prints and returns the same four bytes |
| `Ipv6RoundTrip.PresentationIsCanonical` | unpv13e/libfree/inet_ntop.c:162-187 | what the loop prints is the groups before the run, `::`, and the groups or dotted quad after it |
| `Ipv6RoundTrip.CanonicalDenotes` | unpv13e/libfree/inet_ntop.c:126-187 | that form still denotes the address: leaving out the run loses nothing |
| `Ipv6RoundTrip.ParsesForm` | unpv13e/libfree/inet_pton.c:140-224 | the parser reads every such form as the address it denotes |
| `Ipv6RoundTrip.PrintsCanonical` | unpv13e/libfree/inet_ntop.c:109-198 | every address prints as its canonical form, in at most 39 characters |
| `Ipv6RoundTrip.RoundTrip` | unpv13e/libfree/inet_pton.c:140-224 | for every 16-byte address, parsing the printed text gives back exactly the same bytes |
| `Ipv6RoundTrip.PresentationInjective` | unpv13e/libfree/inet_ntop.c:109-198 | no two addresses print alike |
| `Ipv6RoundTrip.OneDoubleColon` | unpv13e/libfree/inet_ntop.c:162-187 | the text contains `::` if and only if some run of zero words is at least two long, then exactly once and with at most six groups beside it |
| `Aton.InetAton` | unpv13e/libfree/inet_aton.c:22-75 | the accumulator loop accepts exactly the texts of the reference definition, including short forms, empty pieces and 32- or 64-bit wrap of a numeral, with the bytes in network order |
| `Aton.Finish` | unpv13e/libfree/inet_aton.c:51-72 | the end of the text closes the last piece and normalises short forms |
| `Aton.AgreesWithPton4` | unpv13e/libfree/inet_aton.c:22-75 | on every text `inet_pton4` accepts, `inet_aton` succeeds with the same four bytes |
| `Aton.StricterThanAton` | unpv13e/libfree/inet_aton.c:22-75 | of the texts `inet_aton` accepts, `inet_pton4` accepts exactly those with four nonempty pieces none of which wrapped |
| `Aton.ShortForm` | unpv13e/libfree/inet_aton.c:64-67 | the text `1` is 1.0.0.0 to `inet_aton` and nothing to `inet_pton4` |
| `InCksum.InCksum` | unpv13e/libfree/in_cksum.c:3-32 | the loop over words and odd byte, in either byte order, computes the wrapped sum, folded and complemented |
| `InCksum.Fold` | unpv13e/libfree/in_cksum.c:28-31 | the two folds and the complement turn any 32-bit sum into the complement of its residue modulo 65535 |
| `InCksum.FoldedIsCanon` | unpv13e/libfree/in_cksum.c:28-29 | two folds reduce any 32-bit sum modulo 65535, with zero only for zero |
| `InCksum.OnesSumIsCanon` | unpv13e/libfree/in_cksum.c:16-31 | so does adding word by word with end-around carry, the definition in section 1 of RFC 1071 |
| `InCksum.ChecksumExactly` | unpv13e/libfree/in_cksum.c:16-31 | the checksum is the complement of the one's complement sum if and only if the exact sum is below 2^32 |
| `InCksum.NoWrap` | unpv13e/libfree/in_cksum.c:16-31 | that is so for every buffer of at most 65537 words, an odd byte counted as one |
| `InCksum.WrapChangesChecksum` | unpv13e/libfree/in_cksum.c:16-31 | one word more: 131076 bytes of 255 give another checksum, and other bytes in the two orders |
| `InCksum.OnesSumSwaps` | unpv13e/libfree/in_cksum.c:16-31 | swapping the bytes of every word swaps those of the sum, for every length, odd ones included |
| `InCksum.ByteOrderIndependent` | unpv13e/libfree/in_cksum.c:16-31 | the result's bytes in memory are the same on little- and big-endian machines when neither sum wraps |
| `InCksum.ByteOrderExactly` | unpv13e/libfree/in_cksum.c:16-31 | for buffers of any length, they are the same if and only if the lost carries correspond and the wrapped sums are zero together |
| `InCksum.StoredChecksumVerifies` | unpv13e/ping/send_v4.c:17-19 | for every length: writing the checksum into an aligned word that was zero makes the checksum of the message zero |
| `InCksum.BsdInCksum` | unpv13e/ping/bsdping.c:635-666 | on every length `pinger` can pass the signed accumulator stays in range and the answer is the same |
| `Rtt.MinMax` | unpv13e/lib/rtt.c:12-20 | below 2 the result is 2 seconds, above 60 it is 60, and otherwise it is unchanged |
| `Rtt.TimestampIsMillis` | unpv13e/lib/rtt.c:45-54 | the timestamp is the millisecond clock minus the base, modulo 2^32 |
| `Rtt.SampleIsElapsed` | unpv13e/lib/rtt.c:45-54 | two timestamps of one base differ by the time between them modulo 2^32, and exactly by it if and only if it is below 2^32 ms |
| `Rtt.RttInfo.Init` | unpv13e/lib/rtt.c:22-35 | the initial estimators and a first timeout of 3 seconds |
| `Rtt.Estimates.Start` | unpv13e/lib/rtt.c:62-67 | the timeout rounded to the nearest second |
| `Rtt.RttInfo.Stop` | unpv13e/lib/rtt.c:80-102 | Jacobson's update with gains 1/8 and 1/4, and the new timeout is the mean plus four deviations, 2 if that is below and 60 if it is above |
| `Rtt.StoppedMeans` | unpv13e/lib/rtt.c:80-102 | the update is a weighted mean, so that a bound `m` on the samples keeps `srtt` in [0, m] and `rttvar` in [0, max(0.75, m)], and the new timeout is `srtt + 4 rttvar` within 2 and 60 |
| `Rtt.RttInfo.Timeout` | unpv13e/lib/rtt.c:111-119 | doubles the timeout, unclamped, and gives up after three retransmissions |
| `DgSendRecv.Client.DgSendRecv` | unpv13e/rtt/dg_send_recv.c:18-93 | one call, with its loop of sends, waits and timeouts, leaves the state, returns the length and arms the alarms of the function `Call`, whatever the network and the clock do |
| `DgSendRecv.CallReturns` | unpv13e/rtt/dg_send_recv.c:56-92 | a call returns the length of the first reply that fits, or -1 if none does, and sends once more than alarms fired before it, or four times |
| `DgSendRecv.FirstMatchMeans` | unpv13e/rtt/dg_send_recv.c:68-86 | the reply that fits is the least event that is long enough, carries the call's number, echoes a datagram sent by then and has at most three alarms before it; there is none if and only if no event is such |
| `DgSendRecv.CallAlarms` | unpv13e/rtt/dg_send_recv.c:63-69 | the alarms armed are exactly the first timeout, three seconds after an initialisation, doubled each time and rounded to whole seconds |
| `DgSendRecv.FirstAlarm` | unpv13e/rtt/dg_send_recv.c:63 | the first alarm of any call of any run is 3 seconds if the estimators start afresh, and otherwise `srtt + 4 rttvar` to the nearest second, 2 if that is below 2 and 60 if it is above 60 |
| `DgSendRecv.EveryAlarm` | unpv13e/rtt/dg_send_recv.c:54-90 | in every call of every run the k-th alarm is between 2 and 60·2^k seconds, there are at most four, and all of them are at most 900 seconds |
| `DgSendRecv.CallSends` | unpv13e/rtt/dg_send_recv.c:60-61 | the datagrams of a call in closed form: one per alarm armed, with the call's number and the time of day in the header, the first when the call starts and each further one when an alarm fires |
| `DgSendRecv.CallTakes` | unpv13e/rtt/dg_send_recv.c:81-92 | the reply in closed form: taken when it arrives, with a sample of the time of day then minus the time in the header it echoes, in 32 bits, and exactly Jacobson's update of the estimators; without one nothing is taken and the next call initialises afresh |
| `DgSendRecv.AcceptedIsCurrent` | unpv13e/rtt/dg_send_recv.c:81-90 | an accepted reply echoes its own call if and only if fewer than 2^32 calls lie between, and the sample is then the true elapsed time if and only if that is below 2^32 ms |
| `DgSendRecv.EveryRun` | unpv13e/rtt/dg_send_recv.c:18-93 | in every run of calls, with any loss, duplication, delay or reordering and any number of re-initialisations, the results are those the events determine; every reply taken echoes its own call unless 2^32 calls lie between, and its sample is then the time that very transmission took, modulo 2^32 ms and hence exactly if and only if it is below; any bound M on the samples keeps `srtt` in [0, M] and `rttvar` in [0, max(0.75, M)] |
| `DgSendRecv.OneSecond` | unpv13e/rtt/dg_send_recv.c:18-93 | a request answered after one second: a sample of 1000 ms, an alarm of 3 seconds, `srtt` 0.125 |
| `DgSendRecv.Run` | unpv13e/rtt/dg_send_recv.c:18-93 | any sequence of calls of the program leaves the state and returns the results of the run function, with the properties of `EveryRun` |
| `AddrInfo.AddrList.GaAistruct` | unpv13e/libgai/ga_aistruct.c:8-88 | appends one entry of any family through the tail pointer, with AI_CLONE exactly if no socket type was asked for; EAI_MEMORY and, for a path that is too long, EAI_SERVICE exactly when the source returns them, with the list still linked |
| `AddrInfo.AddrList.GaClone` | unpv13e/libgai/ga_clone.c:9-30 | splices a copy with AI_CLONE off and an address buffer of its own after the given node; every other node and buffer keeps its contents |
| `AddrInfo.AddrList.Visit` | unpv13e/libgai/ga_port.c:31-65 | one turn of the walk handles one original entry and leaves the cursor behind what it inserted |
| `AddrInfo.AddrList.GaPort` | unpv13e/libgai/ga_port.c:31-65 | the walk ends, counts the entries that got the port, and leaves the list that the pass function describes, or fails exactly when memory for the clones runs out |
| `AddrInfo.AddrList.GaServ` | unpv13e/libgai/ga_serv.c:9-57 | one or two passes as service string and hint demand; success, EAI_NONAME, EAI_SERVICE and EAI_MEMORY each under its exact condition; the list is what the passes make of it or, when memory ran out, still linked |
| `AddrInfo.PassAllSkips` | unpv13e/libgai/ga_port.c:44-45 | a pass leaves entries of other socket types that are not to be cloned alone |
| `AddrInfo.PassGroup` | unpv13e/libgai/ga_port.c:31-65 | one more pass extends the group of an address by one entry and changes nothing else in it |
| `AddrInfo.GroupEntries` | unpv13e/libgai/ga_port.c:47-60 | each entry of a group is the original address with one pass's socket type and that type's port |
| `AddrInfo.PassesGrouped` | unpv13e/libgai/ga_serv.c:16-48 | after k passes with distinct nonzero types over n cloneable addresses the list has exactly k·n entries, grouped by address in the original order |
| `AddrInfo.FoundEverywhere` | unpv13e/libgai/ga_serv.c:16-56 | and the passes found k·n entries in all |
| `AddrLookup.PassPlain` | unpv13e/libgai/ga_port.c:37-62 | entry by entry, without AI_CLONE a pass gives its port to exactly the Internet entries of its socket type and changes nothing else, and finds something if and only if there is such an entry |
| `AddrLookup.PassesForMeans` | unpv13e/libgai/ga_serv.c:16-48 | a number makes one pass of the caller's type, or one for TCP and one for UDP if there is none; a name one for each protocol that has the service and is wanted, TCP first |
| `AddrLookup.ServiceMeans` | unpv13e/libgai/ga_serv.c:16-56 | what the passes make of the list that was built: each address in order with the type and port of each pass, with as many clones as there are addresses if there are two passes |
| `AddrLookup.Lookup` | unpv13e/libgai/getaddrinfo.c:133-162 | from the addresses to the caller: with a hint every entry carries that type and the service's port, without one each address has an entry per protocol; each error code under its exact condition on memory, addresses and services |
| `StrCli.Buffer.Read` | unpv13e/nonblock/strclinonb.c:59 | a read fills the free end, which is never empty, and changes nothing else |
| `StrCli.Buffer.Wrote` | unpv13e/nonblock/strclinonb.c:115-117 | a write takes bytes off the front; a drained buffer starts again at its beginning |
| `StrCli.Client.StrCli` | unpv13e/nonblock/strclinonb.c:22-123 | the loop over arrays and pointers, whatever the calls return, is a run of the transition function until the program ends |
| `StrCli.EveryRun` | unpv13e/nonblock/strclinonb.c:22-123 | in every run, what was read is what the script delivered, and what went in is what went out plus what lies between the pointers, in both directions; there was one FIN if stdin is at its end and `to` is empty and none otherwise; each buffer can be read into or drained |
| `StrCli.TurnMeans` | unpv13e/nonblock/strclinonb.c:46-122 | a turn in closed form: each read takes what was delivered as far as there is room, each write the front of what the buffer then holds as far as it is accepted, and the turn ends as the calls say |
| `StrCli.RunMoves` | unpv13e/nonblock/strclinonb.c:27-123 | over a whole run each descriptor carried the concatenation of what the turns moved |
| `StrCli.RunKeeps` | unpv13e/nonblock/strclinonb.c:27-123 | the same from any state that satisfies the invariant, which includes that an empty buffer has both pointers at its start |
| `StrCli.FinIsLast` | unpv13e/nonblock/strclinonb.c:52-53 | after the FIN nothing more is read from stdin or written to the socket, and there is no second FIN |
| `StrCli.FlushingTurn` | unpv13e/nonblock/strclinonb.c:89-122 | a turn in which everything can be written empties both buffers and sends the FIN if stdin is at its end |
| `StrCli.DrainedOnReturn` | unpv13e/nonblock/strclinonb.c:69-74 | on return everything from the socket has reached stdout if and only if `fr` was empty when the last turn began |
| `StrCli.ReturnCanLoseOutput` | unpv13e/nonblock/strclinonb.c:69-74 | a run that returns normally with a received byte never written |
| `Ring.HeldSet` | unpv13e/sigio/dgecho01.c:89-104 | writing the slot behind the elements of a ring leaves them alone and, once counted, appends to them |
| `Ring.HeldNext` | unpv13e/sigio/dgecho01.c:67-68 | advancing the read index drops the first element |
| `SigioEcho.Server.Interleave` | unpv13e/sigio/dgecho01.c:28-108 | any interleaving of the main loop, cut at every point where the handler can come in, with runs of the handler is a run of the transition function |
| `SigioEcho.MainKeeps` | unpv13e/sigio/dgecho01.c:57-73 | every step of the main loop keeps the invariant |
| `SigioEcho.ReceiveKeeps` | unpv13e/sigio/dgecho01.c:89-104 | the slot the handler writes is neither in the queue nor being sent, so the queue grows by one message and nothing else changes |
| `SigioEcho.HandlerCounts` | unpv13e/sigio/dgecho01.c:85-107 | the handler quits if and only if the datagrams waiting would fill the queue to 8; otherwise fewer than 8 are queued and its count went to a cell below the last |
| `SigioEcho.HandlerTakes` | unpv13e/sigio/dgecho01.c:85-104 | the handler takes the datagrams waiting in order until the queue holds eight, each cut to 4096 bytes and the size of the address buffer |
| `SigioEcho.StepTakes` | unpv13e/sigio/dgecho01.c:57-73 | a signal is taken everywhere but in the test of a queue that is not empty and before the decrement, and nothing else receives |
| `SigioEcho.EveryRun` | unpv13e/sigio/dgecho01.c:57-108 | in every interleaving `iput` is `iget + nqueue` modulo 8, or one less between the two updates; what was received is what arrived where the signal was not held off; it is what was echoed followed by what the ring holds, in order; the slot being sent is unchanged when the send ends |
| `SigioEcho.MainTurn` | unpv13e/sigio/dgecho01.c:57-73 | an uninterrupted turn of the main loop echoes exactly the oldest datagram waiting and goes back to its test with one fewer queued |
| `Prethreaded.Server.Interleave` | unpv13e/server/pthread08.c:20-32 | any interleaving of accepts, critical sections, signalled and spurious wakeups, counting and finished requests is a run of the transition function |
| `Prethreaded.PutConserves` | unpv13e/server/serv08.c:40-44 | a put appends to the ring, and quits if and only if 31 descriptors were in it |
| `Prethreaded.TakeConserves` | unpv13e/server/pthread08.c:24-26 | a take removes exactly the oldest descriptor from the ring and logs it as taken |
| `Prethreaded.TakesOldest` | unpv13e/server/pthread08.c:20-27 | a thread that gets the mutex gets the oldest descriptor nobody has taken, if one was put in, and sleeps otherwise |
| `Prethreaded.LastByMeans` | unpv13e/server/pthread08.c:24-30 | the descriptor a thread serves, in `EveryRun`, is that of the last entry of the log with its number |
| `Prethreaded.SignalTally` | unpv13e/server/serv08.c:45 | a signal that reaches a sleeper adds to the woken threads |
| `Prethreaded.StepKeeps` | unpv13e/server/pthread08.c:20-32 | every event keeps conservation, the threads' counts and descriptors and the wakeup invariant |
| `Prethreaded.OutsideKeeps` | unpv13e/server/pthread08.c:28-31 | a wakeup, a count and a finished request each change one thread, which can then lock the mutex or finish, and keep the invariant |
| `Prethreaded.EveryRun` | unpv13e/server/serv08.c:35-47 | in every interleaving the descriptors accepted are those taken, in that order and each by one thread, then those in the ring, then at most one in the main thread's hands; a thread with a descriptor has the one it took last; each thread has counted what it took but for one just taken; while a thread sleeps the ring holds no more descriptors than threads have been woken for; if all sleep it is empty |
| `Prethreaded.QuitExactly` | unpv13e/server/serv08.c:43-44 | the server quits exactly on putting in a 32nd descriptor that nobody has taken |
| `Preforked.Server.Interleave` | unpv13e/server/serv05.c:43-81 | any interleaving of parent and children is a run of the transition function |
| `Preforked.DispatchKeeps` | unpv13e/server/serv05.c:50-68 | a connection is accepted only when some child is available, and dispatching it keeps the invariant |
| `Preforked.ScanKeeps` | unpv13e/server/serv05.c:71-80 | a child found ready has exactly one byte in its pipe, so reading it never blocks |
| `Preforked.StepKeeps` | unpv13e/server/serv05.c:43-81 | every step of parent or child keeps the invariant |
| `Preforked.EveryRun` | unpv13e/server/serv05.c:43-81 | in every interleaving `navail` counts the children with status 0; a busy child has exactly one token, in its pipe, in service or as a ready byte, and another none; "no available children" is unreachable; the counts add up to the connections accepted, each of which was served or is with exactly one child |
| `Preforked.ScanMissesNobody` | unpv13e/server/serv05.c:77-78 | leaving the loop when the count is used up passes over no child that was ready |
| `Preforked.SelectMeans` | unpv13e/server/serv05.c:43-48 | `Select` returns if and only if a connection waits while a child is available or a child has reported, and reports exactly these |
| `Preforked.AcceptsWhenAvailable` | unpv13e/server/serv05.c:43-68 | a connection that waits while a child is available is accepted in the next two steps and goes to the first child that is not busy |
| `Preforked.ChildServes` | unpv13e/server/child05.c:40-50 | a child handed a descriptor serves that one and then reports with one byte |
| `Preforked.ScanFrees` | unpv13e/server/serv05.c:71-80 | the loop over the children makes exactly those available again that `Select` reported |
| `Preforked.ReportsAreRead` | unpv13e/server/serv05.c:43-80 | a child that has reported is available again once the parent has been round its loop, with or without a connection to accept first |
| `WebFetch.Lowest` | unpv13e/nonblock/start_connect.c:11 | a new socket gets the lowest descriptor that is not open |
| `WebFetch.Fetcher.Web` | unpv13e/nonblock/web.c:32-80 | the main loop is a run of the transition function |
| `WebFetch.ConnectKeeps` | unpv13e/nonblock/web.c:33-43 | starting connections keeps the invariant, always finds the idle file it looks for, and ends at the limit or with no idle file left |
| `WebFetch.StartSets` | unpv13e/nonblock/start_connect.c:11-30 | a started connection has a descriptor no other file uses, and the sets gain exactly it |
| `WebFetch.VisitSets` | unpv13e/nonblock/web.c:50-78 | established and finished connections change the sets by exactly their descriptor |
| `WebFetch.EveryRun` | unpv13e/nonblock/web.c:28-80 | in every run `nconn`, `nlefttoconn` and `nlefttoread` count the files in their states, `nconn` is within the limit, `rset` and `wset` are exactly the descriptors of live and connecting files, "nothing found" is unreachable, and `Select` has a descriptor to read if and only if the limit is positive |
| `WebFetch.ConnectMeans` | unpv13e/nonblock/web.c:33-43 | exactly the first idle files, as many as the limit leaves room for, are started, and are connecting exactly if their `connect` is in progress |
| `WebFetch.TurnMeans` | unpv13e/nonblock/web.c:32-80 | a turn in closed form for any file: after starting, a connecting file that is ready is being read, one being read is done exactly at its end of file, and no other changes |
| `WebFetch.LimitZero` | unpv13e/nonblock/web.c:33-47 | one file and a limit of 0: `Select` with nothing to wait for |
| `WebFetch.Finished` | unpv13e/nonblock/web.c:32-81 | a finished run has every file done, both sets empty and every descriptor closed |
| `WebFetch.Completes` | unpv13e/nonblock/web.c:32-80 | a run in which every turn moves some file finishes within `Work` turns |
| `WebFetch.WholeWork` | unpv13e/nonblock/web.c:28-29 | which at the start is two turns per file |
| `Readline.LineMeans` | unpv13e/lib/readline.c:35-45 | a call takes bytes up to the first newline, the end of the room or the end of the stream |
| `Readline.CountExactly` | unpv13e/lib/readline.c:35-48 | the count returned is the number of bytes stored if and only if there is a newline within the room or the stream ends with room to spare, and one more otherwise |
| `Readline.CountCanBeOff` | unpv13e/lib/readline.c:35-48 | two bytes without a newline and `maxlen` 2: one byte stored, 2 returned |
| `Readline.CallsLoseNothing` | unpv13e/lib/readline.c:28-49 | successive calls store the stream in order and without gaps |
| `Readline.Buffered.MyRead` | unpv13e/lib/readline.c:8-26 | delivers the next byte of buffer and stream, and keeps bytes delivered plus bytes buffered equal to bytes read |
| `Readline.Buffered.ReadLine` | unpv13e/lib/readline.c:28-49 | count, stored bytes, terminating zero, untouched rest of the buffer and bytes left, for every split; -1 if and only if a read of this call failed |
| `Readline.ReadLineByByte` | scoket编程/HEAD.h:50-78 | the same contract for the byte-at-a-time form |
| `Readline.BufferedSession` | unpv13e/lib/readline.c:28-49 | any sequence of buffered calls, up to one whose read fails, returns and stores what the reference says of the stream |
| `Readline.ByteSession` | scoket编程/HEAD.h:50-78 | any sequence of byte-at-a-time calls does too |
| `Readline.SameLines` | unpv13e/lib/readline.c:8-49 | hence the two agree, call by call, on every stream and for any two ways of splitting it |
| `Framing.BigRoundTrip` | TCP数据粘包问题处理/socket.c:86-87 | a length survives the conversion to network order and back |
| `Framing.FrameRoundTrip` | TCP数据粘包问题处理/socket.c:118-138 | the first message taken off a frame followed by anything is the message framed, and the rest is left |
| `Framing.Sender.Writen` | TCP数据粘包问题处理/socket.c:58-77 | for every way `send` cuts the data all of it is sent, in order; -1 if and only if a send of this call failed, with a prefix sent |
| `Framing.Sender.SendMsg` | TCP数据粘包问题处理/socket.c:79-97 | puts exactly the frame on the stream, or a prefix of it and -1 if a send fails; an empty message is refused and sends nothing |
| `Framing.Receiver.Readn` | TCP数据粘包问题处理/socket.c:98-117 | for every way `recv` cuts the stream, stores the bytes asked for or all there are; -1 if and only if a receive of this call failed, with what came before stored |
| `Framing.Receiver.RecvMsg` | TCP数据粘包问题处理/socket.c:118-138 | returns the next message, cut short at the end of the stream, with a zero after the announced length; a failure while the header is read goes unnoticed and never makes the buffer larger than announced |
| `Framing.ReceivesWhatWasSent` | TCP数据粘包问题处理/socket.c:79-138 | reading frames off the bytes of any list of messages gives the nonempty ones, in order |
| `Framing.Exchange` | TCP数据粘包问题处理/socket.c:58-138 | for every list of messages and every schedule of short sends and receives, `recvMsg` returns exactly the nonempty messages passed to `sendMsg`, in order, and then 0 |
| `PingTable.SetBitMeans` | unpv13e/ping/bsdping.c:93-97 | setting a bit of a byte sets that one and no other |
| `PingTable.ClrBitMeans` | unpv13e/ping/bsdping.c:93-97 | clearing does likewise |
| `PingTable.Ping.Set` | unpv13e/ping/bsdping.c:95 | in the table, `SET` adds the number to the set |
| `PingTable.Ping.Clr` | unpv13e/ping/bsdping.c:96 | `CLR` removes it |
| `PingTable.Ping.Tst` | unpv13e/ping/bsdping.c:97 | `TST` tells whether it is in the set |
| `PingTable.Ping.Interleave` | unpv13e/ping/bsdping.c:405-508 | under every interleaving of the steps of `pinger` with those of `pr_pack` the bit table agrees with a plain set of numbers |
| `PingTable.Uninterrupted` | unpv13e/ping/bsdping.c:481-508 | a reply that is not interrupted counts as received the first time and as a repeat after that; messages that are not for us change nothing |
| `PingTable.RepliesCounted` | unpv13e/ping/bsdping.c:481-508 | received plus repeats is the number of replies for us, but for one more between the two updates of a repeat |
| `PingTable.Balance` | unpv13e/ping/bsdping.c:416-508 | in every run, past 65536 requests too, the requests sent are exactly those answered, those unanswered and those whose number was reused while unanswered, less the replies to numbers never sent |
| `PingTable.ReceivedExactly` | unpv13e/ping/bsdping.c:405-508 | at any moment, inside `pr_pack` and inside `pinger` too, no more is received than sent if and only if stray replies and the one in progress are no more than what is unanswered or was reused |
| `PingTable.LossIsPercentage` | unpv13e/ping/bsdping.c:726-732 | a loss printed is between 0 and 100, and it is printed rather than the complaint under exactly that condition |
| `PingTable.HonestLoss` | unpv13e/ping/bsdping.c:484-503 | if replies come only for packets sent the count is too high by at most one, and exactly when it is looked at inside a reply with nothing unanswered and no number ever reused |
| `PingTable.StrayReply` | unpv13e/ping/bsdping.c:726-728 | one request, its reply and a reply to a number never sent: the complaint is printed |
| `PingTable.SummaryInsideReply` | unpv13e/ping/bsdping.c:484-503 | one request, its reply twice and the statistics asked for inside the second: the complaint is printed |

## Left out

- All `main` programs, daytime and echo clients and servers, SCTP, multicast, socket options, routing sockets, and the wrapper functions: system-call plumbing with little state of its own.
- Generated `protbuf/` and `rpc/` code, the JSON messages, and the muduo exercises: the behaviour lives in libraries not shown, or is unfinished.
- Rounding of `float` and `double` in the estimators: `real` is used.
- The window between `alarm` and `sigsetjmp`, and between the last `Recvmsg` and `alarm(0)`, in which a signal would jump through a stale buffer: an alarm fires only while a call waits.
- `inet_ntop6` and the checksum combine bytes into words with shifts and `|`; the model adds the disjoint parts.
- Hard errors of `select`, of `Accept`, of `connect` other than EINPROGRESS and of `Writen` in the fetcher and the servers, all of which end the program at once.
- A child of the preforked server that dies: its pipe then reads as end of file and the parent quits.
- Overflow of the `long` counters of ping, of `navail` and of the counts of threads and children.
- Fairness of scheduling: no claim is made that a runnable thread or child eventually runs.
- The text printed by the programs, signal installation and the `home_page` request.
- DNS lookups and the service database, which are inputs, and the `unlink` of a passive Unix-domain path.
- Framing.Receiver.RecvMsg: requires the announced length to be below 2^31 - 1, because a larger one indexes outside the buffer; `sendMsg` never announces one.
- A compiler that splits `SET` or `CLR` of a table byte of ping into a load and a store, between which a handler could change another bit of the byte: each macro is one step.
