# Verified models of cjet

cjet is a Jet message broker: peers connect over raw or WebSocket connections, own states and methods
("elements"), change them, call each other through the broker and fetch the states they are interested in.
This project models its algorithmic core in Dafny and proves what each part is for:

- `Hopscotch.dfy`, `Hashtable.dfy`: the hopscotch hash table, with every single store recorded, so that a
  GET that interrupts a PUT or REMOVE is a statement about each recorded table (`Bits.dfy`: its bit masks).
- `BrokerState.dfy`, `BrokerProofs.dfy`, `BrokerRuns.dfy`, `Broker.dfy`, `Groups.dfy`, `Matchers.dfy`: elements,
  fetches, the fetcher tables that index them, access groups, authentication and disconnects, as a step
  function over commands with all its runs, and as the loops that change the state in place.
- `RoutedIds.dfy`, `Router.dfy`: the routing of set and call requests to the owner, with replies, timeouts and
  peers that leave in any order, and the ids under which requests wait.
- `BufferedWrite.dfy`, `BufferedRead.dfy`: the buffered socket over a socket that takes or gives any number of
  bytes, blocks or fails at any time.
- `WebsocketMask.dfy`, `WebsocketFrame.dfy`, `WebsocketMessages.dfy`, `Words.dfy`: masking by words, framing in
  both directions and the fragmentation automaton of RFC 6455.
- `Utf8.dfy`: the byte checker against section 4 of RFC 3629, and the word checkers against the byte checker.
- `Adler32.dfy`: the deferred-modulo checksum and the checksum of a concatenation.
- `BitStream.dfy`, `MatchCopy.dfy`, `DecodeTables.dfy`, `Inffast.dfy`: the fast decoding loop of inflate against a
  token-by-token reference.
- `Canonical.dfy`, `HuffTable.dfy`, `HuffBuild.dfy`, `HuffDecode.dfy`, `Inftrees.dfy`: the construction of the Huffman
  decoding tables, sub-tables included, against the canonical codes of section 3.2.2 of RFC 1951.
- `Deflate.dfy`: both together: the fast loop with the tables of complete sets decodes the tokens that the canonical
  codes and the ranges of section 3.2.5 of RFC 1951 give.
- `JsonText.dfy`, `JsonString.dfy`, `JsonScan.dfy`, `JsonGrammar.dfy`, `JsonRoundTrip.dfy`, `JsonParser.dfy`,
  `JsonPrinter.dfy`: the JSON printer and parser.
- `HttpState.dfy`, `HttpSteps.dfy`: the record of the HTTP parser and what one byte does in each of its states, with
  the invariant behind its assertions.
- `HttpRuns.dfy`, `HttpSplit.dfy`, `HttpExample.dfy`, `HttpCounts.dfy`, `HttpLimit.dfy`: whole calls byte by byte, what
  cutting the input changes in result and in the count of header bytes, and inputs where it does.
- `HttpBodies.dfy`, `HttpTrailers.dfy`: bodies with a length, and in chunks with extensions and trailers.
- `HttpBulk.dfy`, `HttpParser.dfy`: `http_parser_execute` as the loop over the buffer with its five marks, its
  assertions and its moves over many bytes at once, and every sequence of calls to it.

Where the code changes things in place there is a class or a method with loops, proved against a function or a
grammar; the properties are then proved about that function for all inputs and all runs.

## What the proofs found

- `change`, `add` and `remove` events keep every fetch an exact mirror in every run, but when the element table is
  full, `add_element_to_peer` has told the fetching peers already: the mirrors stay right if and only if no live
  fetch would see the element (`AddElementFullMirrorsIff`, and a run in which they break: `FullTableBreaksMirror`).
- The guard on the fetch list in `handle_authentication` is what keeps the index exact; without it some new groups
  break the index exactly if a fetch of the peer matches an element with access groups (`AuthenticateAnyIff`).
- `init_peer` does not set the group masks of a peer. The memory of a socket peer is not cleared
  (src/socket_peer.c:144), so before authentication they are whatever was there; that of a websocket peer is
  (src/websocket_peer.c:152), so they are 0. They are a parameter of `Connect`, and decide what such a peer is shown
  (`UnauthenticatedGet`).
- `remove_peer_from_routing_table` empties the table of every peer and clears only the entries of the peer that
  leaves. A pending request stays armed, but its owner's reply is lost and it is answered by its timeout, whichever
  peer leaves (`RoutedUntilSomeoneLeaves`, `ThirdPeerLosesReply`).
- If the forwarding of a request fails, the requester gets an error at once and a second answer when the timer
  stops; in all other runs there is exactly one answer (`AnsweredOnce`).
- The text of a routed id is one character shorter than computed, so its last character is cut off; ids of requests
  fewer than 2^32 apart differ all the same (`DistinctIds`). A reply is found under this id only in the table of the
  peer that sends it.
- The word-wise UTF-8 checkers accept what the byte checker accepts, and more: the comparison of whole words lets
  the overlong leads C0 and C1 through (`WordLoopAcceptsOverlong`). For inputs without these bytes they agree.
- Printed JSON parses back to the same tree if and only if it is nested at most 1000 deep (`RoundTrip`). The estimate
  of `parse_string` is never exceeded, even where an invalid UTF-16 literal makes the two loops of that function
  see different escape sequences.
- Cutting the input of `http_parser_execute` in two can change its result: the loop over a header value that does not
  matter skips to the end of the line without looking for characters that must not occur in a value, but the first
  byte of a call is always looked at. `SplitRefused` is a request that is accepted in one call and refused in two.
  Both ways end alike if and only if the cut does not lie inside such a value in front of such a character
  (`SplitIff`); if the second part begins with a character that may occur in a value, or the parser is lenient, they
  do (`SplitAlike`). The callbacks are then given the same, but for a string in which an error occurs: it is dropped
  from the last cut on (`SplitItems`).
- The count that is compared with `HTTP_MAX_HEADER_SIZE` depends on the cuts: a name or a value that is cut off by the
  end of a call is counted with one byte too many. Two calls count one byte more than one call if and only if the cut
  lies in the loop over a name or a value and the headers have not ended since (`SplitCount`). `CutExceeds` is a request
  whose headers just fit in one call and do not in two. A cut costs at most one byte of the limit (`CutCosts`), and if
  the calls for any number of parts stay within it, so does one call (`ManyWithin`), which then ends alike
  (`SplitWithin`, `SplitMany`).
- A client that answers a ping masks the payload in place before its `ping_received` callback is given the same buffer,
  so that callback sees masked bytes (`HandleFrame`); the pong has the payload of the ping all the same (`PongEchoes`).
- A content length that does not wrap around is exact, and the largest one accepted is the largest number below
  2^64 - 1 that ends in 9 (`ContentLengthExact`); the digits may have blanks between them.

## Model

| member | source | states |
|---|---|---|
| `HopscotchModel.WrapIsMask` | src/hashtable.h:121-124 | masking with the table size minus one is reduction modulo the size, for negative differences too |
| `HopscotchModel.LookupHit` | src/hashtable.h:145-159 | GET returns the value of the one slot that the hop bits of the home bucket name and that holds the key |
| `HopscotchModel.LookupMiss` | src/hashtable.h:145-159 | GET finds nothing if no named slot holds the key, whatever stale keys lie in other slots |
| `HopscotchModel.ContentsIsLookup` | src/hashtable.h:145-159 | the partial map of the table is exactly what GET answers for every valid key |
| `HopscotchModel.MoveBit` | src/hashtable.h:167-196 | while an entry is displaced, every GET answers as before, although the entry is in two slots |
| `HopscotchModel.StoreUnnamed` | src/hashtable.h:198-258 | a store into a slot that no hop bit names changes no answer |
| `HopscotchModel.PublishBit` | src/hashtable.h:240-256 | setting the hop bit makes the new key visible, and nothing else |
| `HopscotchModel.InvalidatedKey` | src/hashtable.h:260-283 | after the first store of a removal the key is gone for every GET |
| `HopscotchModel.ClearedBit` | src/hashtable.h:260-283 | clearing the hop bit restores the invariant without changing an answer |
| `Hashtable.Table32.Get` | src/hashtable.h:145-159 | the loop over the hop bits returns the specified lookup |
| `Hashtable.Table32.FindCloserEntry` | src/hashtable.h:167-196 | the displaced slot is strictly nearer to the home bucket and every recorded state answers as before; it gives up only if no entry can be moved |
| `Hashtable.Table32.Put` | src/hashtable.h:198-258 | PUT updates the map, or on FULL leaves it unchanged even after displacements; FULL only when no slot is free or none can be brought near; any interruption sees the map before or the map after, switching once |
| `Hashtable.Table32.PutNear` | src/hashtable.h:238-258 | the displacement loop terminates because the free distance drops, and ends in a slot within the hop range or in FULL |
| `Hashtable.Table32.Remove` | src/hashtable.h:260-283 | REMOVE takes the key out of the map and returns its value; any interruption sees the map before or after |
| `BrokerProofs.AddFetcherEffect` | src/fetch.c:427-447 | entering a fetch names it once more and changes nothing else, whether or not the table grows |
| `BrokerProofs.RemoveFetcherEffect` | src/fetch.c:626-633 | removing a fetch takes all its entries and no other |
| `BrokerProofs.FindFetchersEffect` | src/fetch.c:656-685 | a new element's table names each fetch that sees it once, and that fetch is sent one "add" |
| `BrokerProofs.NotesReplay` | src/fetch.c:598-608 | a notification reaches a fetch as often as the table names it, for every table |
| `BrokerProofs.AddElementKeepsInv` | src/element.c:383-415 | adding an element keeps the index exact and every mirror right |
| `BrokerProofs.AddElementFullMirrorsIff` | src/element.c:402-410 | with a full element table the mirrors stay right if and only if no live fetch sees the element |
| `BrokerRuns.FullTableBreaksMirror` | src/element.c:402-410 | a run after which a full element table leaves a fetch with an element that does not exist |
| `BrokerProofs.ChangeKeepsInv` | src/element.c:246-290 | a change is sent to exactly the fetches that see the element and keeps index and mirrors |
| `BrokerProofs.DropElementKeepsInv` | src/element.c:417-423 | a removal is sent to exactly the fetches that saw the element and keeps index and mirrors |
| `BrokerProofs.FetchKeepsInv` | src/fetch.c:610-624 | a new fetch is told exactly what it sees and enters exactly those tables |
| `BrokerProofs.DropFetchKeepsInv` | src/fetch.c:645-654 | an unfetch leaves every table and touches no other fetch |
| `BrokerRuns.SetGroupsIff` | src/authenticate.c:75-80 | new groups keep the index exact if and only if every live fetch sees what it saw before |
| `BrokerRuns.AuthenticateKeepsInv` | src/authenticate.c:66-80 | with an empty fetch list any new groups keep index and mirrors |
| `BrokerRuns.AuthenticateAnyIff` | src/authenticate.c:66-68 | without the guard all new groups are harmless exactly if no fetch of the peer matches an element with access groups |
| `BrokerRuns.DisconnectKeepsInv` | src/peer.c:68-85 | a disconnect keeps the index exact and leaves no fetch, element or table entry of the peer |
| `BrokerRuns.StepKeepsInv` | src/element.c:246-459 | every command, with its error cases, keeps lists, index and mirrors |
| `BrokerRuns.EveryRun` | src/fetch.c:513-608 | after every run from the empty broker each live fetch is named once by what it sees and nowhere else, and replaying its events gives exactly the accessible matching elements with their values |
| `BrokerRuns.GetIsFetch` | src/fetch.c:532-568 | get answers exactly the states that a fetch with the same matchers is sent as "add", in order |
| `BrokerRuns.UnauthenticatedGet` | src/peer.c:87-103 | for every mask that the memory of an unauthenticated peer holds, what get shows it: an element of a group exactly if the mask happens to have its bit |
| `BrokerRuns.GetIsView` | src/fetch.c:759-789 | get answers exactly the accessible matching elements that have a value |
| `Broker.FetcherTable.AddFetch` | src/fetch.c:427-447 | the search for a free place and the doubling of the array do what the specification of the table says |
| `Broker.FetcherTable.RemoveFetch` | src/fetch.c:626-633 | the loop over the array removes exactly that fetch |
| `Broker.FetcherTable.NotifyFetchers` | src/fetch.c:598-608 | one notification for every entry, in table order |
| `Broker.Broker.FindFetchersForElement` | src/fetch.c:656-685 | the walk over all fetches of all peers gives the element its table and sends the events |
| `Broker.Broker.AddElementToPeer` | src/element.c:383-415 | add is the specified step and succeeds exactly if the path is new |
| `Broker.Broker.ChangeState` | src/element.c:246-290 | change is the specified step and succeeds exactly for the owner of a state |
| `Broker.Broker.RemoveElementFromPeer` | src/element.c:425-449 | remove is the specified step and succeeds exactly for a path in the peer's own list |
| `Broker.Broker.RemoveAllElementsFromPeer` | src/element.c:451-459 | all elements are removed one after the other, each with its events |
| `Broker.Broker.AddFetchToPeer` | src/fetch.c:687-721 | fetch is the specified step and succeeds exactly if the id is not in use |
| `Broker.Broker.AddFetchToStates` | src/fetch.c:610-624 | the walk over all elements of all peers offers the fetch to each of them once |
| `Broker.Broker.RemoveFetchFromPeer` | src/fetch.c:723-745 | unfetch is the specified step and succeeds exactly if the id is in use |
| `Broker.Broker.RemoveAllFetchersFromPeer` | src/fetch.c:747-757 | all fetches of a peer are removed from all elements |
| `Broker.Broker.HandleAuthentication` | src/authenticate.c:66-87 | authentication is the specified step: only with an empty fetch list and right credentials |
| `Broker.Broker.FreePeerResources` | src/peer.c:68-85 | the broker's part of a disconnect is the specified step |
| `Broker.Broker.InitPeer` | src/peer.c:87-103 | connecting is the specified step |
| `Broker.Broker.GetElements` | src/fetch.c:759-789 | the walk over all elements answers exactly the specified states |
| `Groups.KnownGroups.AddGroup` | src/groups.c:49-61 | a new group takes the next bit and known ones keep theirs; refused only when 32 groups are known |
| `Groups.KnownGroups.AddGroups` | src/groups.c:80-99 | on success all names are known; on failure an item is no string or the table is full |
| `Groups.KnownGroups.GetGroups` | src/groups.c:101-128 | the mask has exactly the bits of the known groups among the names |
| `Groups.AccessIsCommonGroup` | src/groups.c:130-137 | access is a known group name in both lists |
| `Matchers.MatchFunction` | src/fetch.c:79-161 | the comparisons of characters, with or without regard to case, find equality, a prefix, a suffix or an occurrence, or one of each element |
| `Matchers.CheckPath` | src/fetch.c:406-425 | the loop accepts a path exactly if all matchers match it, and always without matchers |
| `RoutedIds.HexInjective` | src/router.c:44-61 | different numbers have different hexadecimal texts |
| `RoutedIds.LastUnderscore` | src/router.c:44-61 | an id determines its parts although origin ids may contain underscores |
| `RoutedIds.SameIdSameUuid` | src/router.c:44-61 | equal ids have equal uuids whatever the origin ids and addresses are |
| `RoutedIds.DistinctIds` | src/router.c:129-158 | requests fewer than 2^32 apart have different ids, with the cut-off last character |
| `Router.AnsweredOnce` | src/router.c:178-350 | in every run a request with an id has no answer while its timer is armed and one afterwards, and one more exactly if forwarding failed |
| `Router.OnlyTheOwnerReplies` | src/router.c:240-286 | only a response of the owner under the request's id is taken as its reply |
| `Router.ReplyPassedOnIff` | src/router.c:240-286 | the owner's reply is passed on exactly if the entry is still in the owner's table |
| `Router.NeverBack` | src/router.c:317-334 | an entry that left the table never comes back |
| `Router.RoutedUntilSomeoneLeaves` | src/router.c:317-350 | a pending request stays routable exactly as long as no peer at all disconnects |
| `Router.ThirdPeerLosesReply` | src/router.c:325-330 | a run in which a third peer's departure turns the owner's reply into a timeout |
| `Router.StepKeepsInv` | src/router.c:178-350 | every event keeps the counting of answers and armed timers |
| `Router.Broker.SetOrCall` | src/element.c:292-381 | entering, arming and forwarding a request is the specified step, with each failure |
| `Router.Broker.RequestTimeout` | src/router.c:178-203 | the timeout is the specified step |
| `Router.Broker.HandleRoutingResponse` | src/router.c:240-286 | a response is the specified step |
| `Router.Broker.EmptyTable` | src/router.c:317-350 | the walk over one table takes out every entry and answers those of the leaving peer only |
| `Router.Broker.FreePeerResources` | src/peer.c:57-85 | the routing part of a disconnect is the specified step |
| `BufferedWrite.BufferedSocket.SendBuffer` | src/buffered_socket.c:42-63 | wire and buffer together stay the same for every behaviour of the socket |
| `BufferedWrite.BufferedSocket.CopyVectors` | src/buffered_socket.c:137-153 | what was not sent is buffered in order, or an error if it does not fit |
| `BufferedWrite.BufferedSocket.Writev` | src/buffered_socket.c:335-386 | wire plus buffer is all accepted vectors in order; on failure the wire is still a prefix, and without an error of the socket wire plus buffer are; the capacity is never exceeded |
| `BufferedRead.TooMuchExactly` | src/buffered_socket.c:269-289 | too much data exactly if the shortest prefix ending in the delimiter exceeds the buffer |
| `BufferedRead.ShortestGrows` | src/buffered_socket.c:269-289 | more bytes never change a delimiter already found |
| `BufferedRead.BlockStays` | src/buffered_socket.c:227-289 | a block that the bytes so far allow stays the answer when more bytes come |
| `BufferedRead.LongerStream` | src/buffered_socket.c:75-89 | the blocks delivered for a stream begin those delivered for a longer one |
| `BufferedRead.BufferedSocket.Reorganize` | src/buffered_socket.c:165-175 | compaction keeps the unread bytes |
| `BufferedRead.BufferedSocket.Fill` | src/buffered_socket.c:177-201 | consumed and unread bytes stay the received stream; too much data exactly if the count exceeds the buffer |
| `BufferedRead.BufferedSocket.GetReadPtr` | src/buffered_socket.c:227-243 | exactly the next bytes, or blocked, or too much data |
| `BufferedRead.BufferedSocket.ReadUntil` | src/buffered_socket.c:269-289 | the shortest prefix ending in the delimiter |
| `BufferedRead.BufferedSocket.Serve` | src/buffered_socket.c:75-89 | the reading loop delivers a prefix of the transcript that depends on the stream and the requests only |
| `BufferedRead.ReadIndependence` | src/buffered_socket.c:155-289 | two ways of cutting one stream into chunks deliver the same blocks |
| `WebsocketMask.MaskedTwice` | src/websocket.c:64-103 | unmasking is its own inverse |
| `WebsocketMask.UnmaskPayload` | src/websocket.c:64-103 | for every alignment the words and the bytes around them give the bytewise XOR |
| `Words.XorWordIsBytewise` | src/websocket.c:64-103 | one XOR of loaded words is the XOR of their bytes |
| `WebsocketFrame.LengthIsMinimal` | src/websocket.c:928-940 | the length is encoded in the fewest bytes and reads back |
| `WebsocketFrame.SendFrame` | src/websocket.c:911-964 | the bytes sent are the frame of section 5.2 of RFC 6455 |
| `WebsocketFrame.FrameDecodes` | src/websocket.c:336-463 | a sent frame decodes to its opcode, FIN, length and payload, and nothing is left over |
| `WebsocketFrame.WireDecodes` | src/websocket.c:336-463 | any sequence of sent frames decodes to the same sequence, in both directions |
| `WebsocketFrame.Websocket.GetControl` | src/websocket.c:336-463 | the header callbacks are the specified reader |
| `WebsocketFrame.Websocket.GetPayload` | src/websocket.c:299-334 | the payload callback unmasks in place and is the specified reader |
| `WebsocketMessages.Assembler.HandleFrame` | src/websocket.c:120-297 | the frame handler is the specified automaton, with its close codes; an accepted ping is answered by a pong, which on a client masks the buffer that the callback is given |
| `WebsocketMessages.PongEchoes` | src/websocket.c:239-253 | the other side decodes that answer to a pong with the payload of the ping |
| `WebsocketMessages.StepCompletes` | src/websocket.c:120-297 | one accepted frame and a completion of the rest make a completion of the whole |
| `WebsocketMessages.ConformingAccepted` | src/websocket.c:120-297 | conforming frames are accepted and their pieces make up the messages |
| `WebsocketMessages.AcceptedConforms` | src/websocket.c:120-297 | accepted frames can be completed to conforming ones |
| `WebsocketMessages.AcceptsExactlyConforming` | src/websocket.c:120-297 | a sequence is accepted exactly if it begins a conforming one (section 5.4 of RFC 6455), and a message is open exactly if the opcode kept is text or binary |
| `WebsocketMessages.DeliversMessages` | src/websocket.c:120-297 | the delivered pieces concatenate to the messages, with the last flag exactly at FIN |
| `Utf8.Checker.IsByteValid` | src/utf8_checker.c:41-122 | the byte checker is the specified step |
| `Utf8.Checker.IsByteSequenceValid` | src/utf8_checker.c:137-151 | the sequence checker is the specified run and resets at the end |
| `Utf8.RunMeaning` | src/utf8_checker.c:41-122 | the checker's state is the unfinished character read so far |
| `Utf8.AcceptsExactlyOctets` | src/utf8_checker.c:137-151 | complete sequences are accepted exactly if they are UTF8-octets of section 4 of RFC 3629 |
| `Utf8.AcceptsExactlyPrefixes` | src/utf8_checker.c:137-151 | incomplete sequences are accepted exactly if some bytes complete them |
| `Utf8.CheckFragments` | src/utf8_checker.c:137-151 | every fragmentation gives the verdict of the whole |
| `Utf8.Skip32Lanes` | src/utf8_checker.c:153-181 | what the comparison of a 32-bit word says about its bytes |
| `Utf8.Skip64Lanes` | src/utf8_checker.c:183-208 | what the comparison of a 64-bit word says about its bytes |
| `Utf8.WordRunIsRun` | src/utf8_checker.c:153-208 | without C0 and C1 the word checkers agree with the byte checker, state included |
| `Utf8.ValidIffWordValidAndNoOverlong` | src/utf8_checker.c:153-208 | byte validity is word validity without C0 and C1 |
| `Utf8.WordLoopAcceptsOverlong` | src/utf8_checker.c:164 | an overlong sequence that the word loop accepts |
| `Utf8.IsWordSequenceValid` | src/utf8_checker.c:153-208 | the word loop is the specified run |
| `Utf8.IsWordSequenceValidAutoAligned` | src/utf8_checker.c:210-252 | the split at word boundaries is the specified run in three parts, for valid and invalid texts alike; it accepts what the byte checker accepts, with the same state, and without C0 and C1 nothing else |
| `Utf8.PartsAgree` | src/utf8_checker.c:210-252 | without C0 and C1 the three parts give the verdict of the byte checker |
| `Adler32.BlockFits` | src/zlib/adler32.c:12-14 | within NMAX bytes no sum exceeds 32 bits |
| `Adler32.PlainIsTextbook` | src/zlib/adler32.c:63-131 | sums with the reduction deferred are the textbook sums |
| `Adler32.Adler32z` | src/zlib/adler32.c:63-131 | the checksum of section 8.2 of RFC 1950 on all four paths |
| `Adler32.Combine` | src/zlib/adler32.c:143-169 | the combination computes the specified word, and 0xffffffff for negative lengths |
| `Adler32.CombineIsConcat` | src/zlib/adler32.c:143-169 | the combined checksum is that of the concatenation |
| `BitStream.BitReader.Refill` | src/zlib/inffast.c:104-109 | the bits held stay the next bits of the stream and fit in 32 bits |
| `BitStream.BitReader.ReturnUnused` | src/zlib/inffast.c:292-296 | whole bytes read ahead go back without moving the position in the stream |
| `MatchCopy.LzRepeats` | src/zlib/inffast.c:169-264 | a match is the only continuation in which every byte equals the one its distance before |
| `MatchCopy.Output.CopyFromWindow` | src/zlib/inffast.c:199-249 | the three window cases with wrap-around append the bytes of the byte-by-byte copy |
| `MatchCopy.Output.CopyMatch` | src/zlib/inffast.c:169-264 | every length and distance gives the byte-by-byte copy from the linear history, or an error exactly if it reaches too far back |
| `Inffast.Inflater.Turn` | src/zlib/inffast.c:103-290 | one turn reads one token of the reference, at most 6 bytes of input and 258 of output |
| `Inffast.Inflater.InflateFast` | src/zlib/inffast.c:50-307 | the output is that of the reference after some tokens and the reader stands exactly behind their last bit; the loop ends at the end of a block, at an error, or when input or output are not enough for one more token |
| `Canonical.StartsWith` | src/zlib/inftrees.c:75-91 | a stream starts with a code exactly if its low bits are the bit-reversed code |
| `Canonical.BackIncIsNext` | src/zlib/inftrees.c:239-248 | the backwards increment gives the bits of the next code |
| `Canonical.PrefixFree` | src/zlib/inftrees.c:75-91 | no canonical code begins another one |
| `Canonical.NextCode` | src/zlib/inftrees.c:213-255 | in sorted order each code is the increment of the one before, with zeros appended |
| `Canonical.SomeCode` | src/zlib/inftrees.c:130-138 | in a complete set every bit string starts with a code |
| `HuffTable.SymbolGood` | src/zlib/inftrees.c:60-73 | every entry made from the constants is one the decoder can use |
| `HuffBuild.Fill` | src/zlib/inftrees.c:215-237 | filling in a symbol places it and disturbs none of those before |
| `HuffBuild.EnoughBits` | src/zlib/inftrees.c:266-274 | the sub-table is large enough for every code with its root index |
| `HuffBuild.NewTable` | src/zlib/inftrees.c:257-287 | a new sub-table and its link disturb no symbol |
| `HuffDecode.Decodes` | src/zlib/inftrees.c:106-303 | one root lookup and at most one sub-table lookup find the symbol whose code starts the stream and use exactly its bits |
| `HuffDecode.DecodesEverything` | src/zlib/inftrees.c:106-303 | in a complete set this holds at every position of every stream, for exactly one symbol |
| `HuffDecode.CompleteIsValid` | src/zlib/inftrees.c:106-303 | the tables of a complete set are ones that the fast decoding loop can use for every input |
| `Inftrees.SortSymbols` | src/zlib/inftrees.c:140-147 | the work array holds the symbols by length, then by symbol |
| `Inftrees.CodesLeft` | src/zlib/inftrees.c:130-138 | negative exactly for an over-subscribed set, positive exactly for an incomplete one |
| `Inftrees.SubTableBits` | src/zlib/inftrees.c:266-274 | the look-ahead in the counts finds a size that is enough |
| `Deflate.LengthTable` | src/zlib/inftrees.c:60-66 | the constants for lengths are the ranges of section 3.2.5 of RFC 1951 that follow each other |
| `Deflate.DistanceTable` | src/zlib/inftrees.c:67-73 | the same for distances |
| `Deflate.TokenIsCanonical` | src/zlib/inffast.c:103-290 | at every position of every stream the tables of complete sets give exactly the token of the canonical codes |
| `Deflate.DecodedIsInflated` | src/zlib/inffast.c:103-290 | any number of tokens read through the tables are those of the canonical codes |
| `Deflate.FastBlock` | src/zlib/inflate.c:1020-1048 | building both tables and running the fast loop writes the tokens of the canonical codes, up to the end of the block, a token that cannot be written, or too little input or output; it is refused only for a set that is or whose tables are too large |
| `Inftrees.InflateTable` | src/zlib/inftrees.c:32-304 | -1 exactly for the refused sets, 1 exactly if the root table and the sub-tables have more entries than there is space for, whose sizes are given by the codes; on 0 every symbol can be looked up and the tables are valid for the decoding loop |
| `JsonString.ParseHex4` | src/json/cJSON.c:609-642 | the value of four digits, or 0 |
| `JsonString.Encode` | src/json/cJSON.c:741-758 | the octets of section 3 of RFC 3629 for the code point |
| `JsonString.Utf16ToUtf8` | src/json/cJSON.c:646-764 | one sequence or a surrogate pair, exactly where it is valid |
| `JsonScan.PrintedCloses` | src/json/cJSON.c:780-802 | the scan of a printed string stops at its closing quote |
| `JsonRoundTrip.RoundTrip` | src/json/cJSON.c:1089-1166 | a printed tree parses to the same tree and the parser stops behind it, if and only if it is nested at most 1000 deep |
| `JsonRoundTrip.ValueRead` | src/json/cJSON.c:1306-1358 | a printed value inside any text is read back, or refused exactly for its nesting |
| `JsonRoundTrip.UnescapePrinted` | src/json/cJSON.c:813-868 | unescaping undoes escaping for every string |
| `JsonRoundTrip.PrintInjective` | src/json/cJSON.c:1361-1432 | different trees have different texts |
| `JsonParser.Parser.ParseString` | src/json/cJSON.c:767-893 | exactly the string that starts here, with every byte written inside the estimate |
| `JsonParser.Parser.ParseNumber` | src/json/cJSON.c:301-375 | exactly what strtod converts of at most 63 bytes |
| `JsonParser.Parser.ParseValue` | src/json/cJSON.c:1306-1358 | exactly the value that starts here |
| `JsonParser.Parser.ParseArray` | src/json/cJSON.c:1435-1530 | exactly the array that starts here, unless too deep |
| `JsonParser.Parser.ParseObject` | src/json/cJSON.c:1595-1705 | exactly the object that starts here, unless too deep |
| `JsonParser.Parser.ParseText` | src/json/cJSON.c:1089-1134 | the value behind byte order mark and white space |
| `JsonPrinter.Printer.Ensure` | src/json/cJSON.c:435-520 | room for the bytes asked for, keeping what was printed; refused only beyond INT_MAX |
| `JsonPrinter.Printer.EscapeCharacters` | src/json/cJSON.c:923-947 | the escaped length is computed exactly |
| `JsonPrinter.Printer.PrintString` | src/json/cJSON.c:896-1015 | the escaped string between quotes |
| `JsonPrinter.Printer.PrintValue` | src/json/cJSON.c:1361-1432 | the text of the value, for every text that fits |
| `JsonPrinter.PrintUnformatted` | src/json/cJSON.c:1181-1254 | the whole text of a tree |
| `HttpSteps.EveryStepSound` | src/http-parser/http_parser.c:708-2060 | whatever byte comes in whatever state, no assertion about the record fails afterwards, a byte is looked at again only in a state that comes later, and strings begin and end with their marks |
| `HttpSplit.SplitIff` | src/http-parser/http_parser.c:1506-1560 | one call and two calls end with the same record after the same number of bytes, if and only if the cut does not uncover a byte that one call would have skipped |
| `HttpSplit.SplitItems` | src/http-parser/http_parser.c:2062-2083 | the callbacks are given the same bytes and notes, but for a string in which an error occurs |
| `HttpSplit.SplitStops` | src/http-parser/http_parser.c:1836-1856 | if the first part ends the call early, the second one makes no difference |
| `HttpSplit.SplitAlike` | src/http-parser/http_parser.c:634-2091 | with a second part that begins with a character allowed in values both ways end alike, and without an error the callbacks are given the same |
| `HttpSplit.SplitMany` | src/http-parser/http_parser.c:634-2091 | the same for any number of parts |
| `HttpExample.SplitRefused` | src/http-parser/http_parser.c:1506-1560 | a request that is accepted in one call and refused in two |
| `HttpCounts.SplitCount` | src/http-parser/http_parser.c:154-161 | two calls count one header byte more than one call if and only if the cut lies in the loop over a name or a value and the headers have not ended since; otherwise the same |
| `HttpCounts.WithinLimit` | src/http-parser/http_parser.c:154-161 | a limit that neither of two calls exceeds is not exceeded by one call |
| `HttpCounts.CutCosts` | src/http-parser/http_parser.c:154-161 | a limit that one of two calls exceeds is exceeded by one call if it is smaller by one, and as it is if the cut is not in a loop |
| `HttpCounts.SplitWithin` | src/http-parser/http_parser.c:634-2091 | if neither of two calls exceeds the limit, then one call does not either and ends alike, with a count of at most one less |
| `HttpCounts.ManyWithin` | src/http-parser/http_parser.c:154-161 | a limit that the calls for any number of parts do not exceed is not exceeded by one call |
| `HttpLimit.CutExceeds` | src/http-parser/http_parser.c:1506-1690 | a request whose headers have just the largest size in one call, and one byte more in two |
| `HttpBodies.ContentLengthExact` | src/http-parser/http_parser.c:1427-1590 | the length is what its digits stand for, or refused exactly if it is larger than 18446744073709551609 |
| `HttpBodies.LengthedMessage` | src/http-parser/http_parser.c:1882-1932 | from the value of the length to the end of the message: that many bytes are given as the body, unchanged |
| `HttpBodies.IdentityBody` | src/http-parser/http_parser.c:1882-1917 | the bytes of a body with a length are given unchanged and the message ends with the last of them |
| `HttpBodies.ChunkSizeExact` | src/http-parser/http_parser.c:1934-1985 | a chunk size is what its digits stand for, or refused exactly if it is too large |
| `HttpTrailers.ChunkedBody` | src/http-parser/http_parser.c:1934-2058 | chunks of any number, size and spelling, with extensions, then trailers: the bytes are given unchanged, with the notes for each chunk, then names and values of the trailers, and the message ends with the empty line |
| `HttpParser.HttpParser.LoopName` | src/http-parser/http_parser.c:1298-1408 | the loop over a header name does what its bytes do one after the other |
| `HttpParser.HttpParser.LoopValue` | src/http-parser/http_parser.c:1506-1690 | the loop over a header value, with its search for the end of the line, does what its bytes do one after the other |
| `HttpParser.HttpParser.BodyBytes` | src/http-parser/http_parser.c:1882-2036 | the move over the bytes of a body does what its bytes do one after the other |
| `HttpParser.HttpParser.Reexecute` | src/http-parser/http_parser.c:708-2060 | a byte that is looked at again is the specified sequence of actions, with marks and callbacks, failing and pausing ones included |
| `HttpParser.HttpParser.GiveRest` | src/http-parser/http_parser.c:2062-2083 | at most one mark is set behind the last byte, and its bytes are given |
| `HttpParser.HttpParser.Execute` | src/http-parser/http_parser.c:634-2091 | if the callbacks of the call agree, it is the specified one in record, count, callbacks and bytes used, and it is refused for its size exactly if too many header bytes are counted, after the callbacks for the bytes before, unless a value is refused first; if the last callback fails, pauses or answers differently, what was given begins what the specified call gives; for every client no assertion fails |
| `HttpParser.HttpParser.Pause` | src/http-parser/http_parser.c:2446-2456 | pausing changes the error code only |
| `HttpParser.Program` | src/http-parser/http_parser.c:634-2158 | in every sequence of calls from the beginning, with every client, no assertion fails; as long as the callbacks agree the calls are the specified ones, and up to the first callback that does not, what was given begins what they give |

## Left out

- `http_parser_parse_url` and the parsing of hosts, and what the HTTP server of the broker does with a request.
- The HTTP parser is modelled with the strict checks compiled in, with the count of header bytes as an unbounded
  number, and with callbacks that fail, pause or answer but do not change the record or the settings.
- HttpParser.HttpParser.Execute: does not say what a call does behind a callback that fails or pauses, nor that a
  client that goes on after a pause is given the rest; no assertion fails then either.
- HttpSplit.SplitIff: leaves out what a record says about a header whose value is refused for a character, because that
  field then holds what was known before the loop over the value, which depends on the cut.
- HttpTrailers.ChunkedBody: trailers have names that begin with a letter of no header that the parser looks for.
- Deflate.FastBlock: says what is decoded for complete sets of lengths only, and not that the space for the tables is
  always enough.
- Sockets, the event loop, timers, signals, logging and the password file; sockets are oracles and timers are flags.
- `src/compression.c` and the deflate side of zlib: frames are modelled without an extension.
- Floating point: a JSON number is the text that is printed for it, and what strtod converts is a parameter.
- Formatted JSON printing, raw JSON items and null strings inside string items.
- Allocation failures, failing notifications and the lifetime of memory; the one failure that is modelled is a full element table.
- The broker's elements are held in a map of values, so aliasing between the lists and the tables is not captured; the fetcher table itself is an array.
- Set and call access groups, and the building of response messages.
- The hash functions and the string keys of the hash table: keys are numbers and the hash is a parameter with values inside the table.
- The routed id of a request whose client used a number as id: the number is printed with a format for strings, so that text is a parameter.
- `inflate` outside of the fast loop, and the window update: the fast loop starts from any window that the update can leave.
- Broker.Broker.AddElementToPeer: does not model the refusals for non-local peers and malformed parameters, because
  they precede every change of state; the full element table is a step of its own.
- Broker.Broker.AddFetchToPeer: does not model the refusals for a deprecated match and malformed matchers, because they
  precede every change of state.
- Router.Broker.SetOrCall: begins behind the checks for existence, fetch-only, kind and access, because they precede
  every change of state.
- Case folding in matchers covers the letters A to Z only.
