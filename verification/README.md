# Verified model of asio-ice

This project models the parts of asio-ice whose correctness is hard to see by reading one function,
and proves what they promise. `dafny verify dfyconfig.toml` checks all of it.

- **DNS messages** (`Dns*.dfy`). The mDNS codec compresses names: a writer keeps a sorted pool of
  prepared names and emits back-pointers, a parser follows them through shrinking windows. The
  encoding is a value (`DnsCompression`, `DnsMessage`); the compressor, reader and writer are
  imperative and proved against it.
- **STUN messages** (`Stun*.dfy`). Attributes are cells that either put a byte or keep the byte that
  was in the buffer (padding is never written). HMAC and CRC are arbitrary functions.
- **The ICE agent** (`Candidates`, `Roles`, `Agent*.dfy`). Pairs are shared between the agent's
  lists, so the lists hold identities and one map holds the pairs. Each method of `Agent.Agent` is a
  stretch of code between two suspensions; what can happen in between is an `Event`. Checks that are
  under way and requests that are answered but not yet acted on are part of the state, so an outcome
  may arrive in any later state. `AgentThaw`, `AgentRestart` and `AgentWitness` hold what the code
  does against its own rules when pairs are released and when a session restarts. `Roles` puts two
  roles on a network that may lose, repeat and reorder everything, and `AgentDuel` two agents.
- **Reference-counted buffers** (`BufferStore`, `BufferSpan`, `IoBuffer`) with the pool that recycles
  buffers and blocks.
- **The start/stop handshake** of asynchronous operations (`Handshake`), one atomic access a step.

`Wire`, `Order` and `Lists` hold what the others share: big-endian integers, the contracts of the
standard sorting algorithms, `find_if` and `erase_if`.

## Where the code and its promises part

- A name that repeats is remembered at its back-pointer, so every copy costs one more hop and the
  parser gives up at twenty: copies 1 to 20 of a name read back, copy 21 and later ones never do
  (`DnsLimits.CopiesReadable`). The whole-message round trip states the same limit as an equality.
- STUN PRIORITY is written as 16 bits and read as 32. `StunRoundTrip.PrioritySurvives` gives the exact
  condition under which it survives; in the zeroed buffers the agent sends from, only priority 0 does.
- An error code survives exactly when it is below 800, a method exactly when it has no class bits.
- `serialized_size` counts 16 bytes for the software text whatever its length, so a buffer of that
  size is enough exactly for texts of up to 12 bytes.
- The parser returns names that do not survive being written: the root, read from one zero byte, is
  written as three (`DnsNames.RootGrows`). Exactly the well-formed names survive
  (`DnsNames.NameSurvives`), and of those the parser returns, the ones without an empty label.
- `pick_next_pair` releases frozen pairs whose foundation has no check *in progress*; the rule in the
  comment above it also asks for none *waiting*. Two frozen pairs of one idle foundation are therefore
  both released (`AgentThaw.BothLetGo`). The code follows its rule, and releases at most one pair per
  foundation, if and only if no two listed frozen pairs share a foundation with no check in progress
  (`AgentThaw.ThawFollowsRule`, `AgentThaw.ThawsOneEach`).
- The branch of `pair_remote_candidate` for redundant peer-reflexive pairs can never be taken.
- After a restart, nominated entries of earlier generations still count; only `set_nominated` looks at
  the generation. `AgentWitness.ReconnectsOnOldPair` is a run that connects again with one component on
  its pair from before the restart, and `AgentRestart.ConnectedAfresh` says exactly when that cannot
  happen. `AgentWitness.AsksForNothing` is a run of a controlling agent that connects, restarts, finds a
  valid pair and asks for nothing, and `AgentRestart.AsksForAll` says exactly when all that ought to be
  asked for is. A restarted controlling agent with one component and a full peer, and no check in flight
  that could nominate or erase its old entry, does not connect again while it keeps its role
  (`AgentRestart.RestartNeverReconnects`).
- `prepare_front` and `prepare_back` return room in a block that other buffers may hold, so writing
  there can change what they show (`IoBuffer.SharedSpan`); `BufferSpan.SpanIsPrivate` says exactly when
  it cannot.
- A recycled buffer keeps its old head room, so `get(0, 0)` may return a buffer whose window lies
  outside its (empty) storage (`IoBuffer.Heap.Get` states when, `IoBuffer.RecycledMisfit` shows it).

## Model

| member | source | states |
|---|---|---|
| `DnsName.ReadName` | cppmdns/src/packet.cpp:59-123 | The loop-and-recursion parser computes the recursive meaning of a name for every byte string, window, offset and depth, and terminates because every back-pointer shrinks the window |
| `DnsName.ParseEncoded` | cppmdns/src/packet.cpp:59-123 | Wherever labels are correctly encoded with a given number of hops, the parser returns exactly them and the position after the encoding if the hops fit the depth limit, and refuses otherwise |
| `DnsName.EncodedFrame` | cppmdns/src/packet.cpp:59-123 | A correct encoding stays one when the bytes up to its end are kept, so later writes do not change what an earlier offset decodes to |
| `DnsCompression.WriteNameInv` | cppmdns/src/packet.cpp:491-554 | Writing a name keeps every remembered name correctly encoded at its remembered offset |
| `DnsCompression.WriteNameReads` | cppmdns/src/packet.cpp:491-554 | A name just written reads back from any buffer that extends what was written |
| `DnsCompression.NamesRoundTrip` | cppmdns/src/packet.cpp:491-579 | For any list of well-formed names through one compressor, the finished buffer read where the i-th name starts gives that name and stops where its writer stopped, if its chain of back-pointers is below the limit, and is refused otherwise |
| `DnsCompression.RepeatChain` | cppmdns/src/packet.cpp:537-538 | Each repetition of a name lengthens its chain by one |
| `DnsLimits.CopiesReadable` | cppmdns/src/packet.cpp:491-545 | Of any number of copies of a well-formed name that fit in 2^14 bytes exactly the first twenty read back |
| `DnsLimits.PointerExact` | cppmdns/src/packet.cpp:569-579 | A back-pointer leads to its offset exactly when the offset is below 2^14 |
| `DnsNames.ParsedName` | cppmdns/src/packet.cpp:59-123 | Every name the parser returns is non-empty, below 255 bytes, and has no piece over 63 bytes |
| `DnsNames.NameSurvives` | cppmdns/src/packet.cpp:491-554 | Written after any bytes through a fresh compressor, a name reads back up to where its writer stopped if and only if it is well-formed, for every byte string as name |
| `DnsNames.ParsedSurvives` | cppmdns/src/packet.cpp:59-123 | Of the names the parser returns, exactly those without an empty label survive being written and read again |
| `DnsNames.RootGrows` | cppmdns/src/packet.cpp:59-123 | The root is read from one zero byte and written as three, of which one is read |
| `DnsCompressor.NameOrder` | cppmdns/src/packet.cpp:457-461 | Comparing label sequences from the last label on is a strict total order |
| `DnsCompressor.SuffixLess` | cppmdns/src/packet.cpp:457-461 | A proper suffix of a name comes strictly before the name, which is what lets the search range only shrink |
| `DnsCompressor.NarrowedSearch` | cppmdns/src/packet.cpp:512-545 | The search in the narrowed range finds a suffix exactly when the whole pool contains it, and the position found bounds the range for the next suffix |
| `DnsCompressor.NameCompressor.Finally` | cppmdns/src/packet.cpp:481-489 | After sorting and deduplicating, the pool is strictly sorted and contains exactly the prepared names, none with an offset yet |
| `DnsCompressor.NameCompressor.LowerBound` | cppmdns/src/packet.cpp:512-545 | The binary search returns the first position not below the name |
| `DnsCompressor.NameCompressor.WriteName` | cppmdns/src/packet.cpp:491-554 | The compressor emits what a linear lookup of the suffixes would, fails exactly when that does not fit, and then remembers nothing and changes no earlier byte |
| `DnsRoundTrip.RdataReads` | cppmdns/src/packet.cpp:691-831 | Data of A, AAAA, NS, CNAME, PTR, MX, SOA, TXT and SRV records reads back, or is refused if a name in it has too long a chain |
| `DnsRoundTrip.RecordReads` | cppmdns/src/packet.cpp:230-314 | A written record reads back with its data length filled in, up to where its writer stopped |
| `DnsRoundTrip.RecordsRead` | cppmdns/src/packet.cpp:230-314 | So does a whole section |
| `DnsRoundTrip.MessageRoundTrip` | cppmdns/src/packet.cpp:833-897 | Parsing an encoded message of up to 2^14 bytes gives it back with counts and data lengths filled in if every compressed name is within the limit, and the format error otherwise |
| `DnsRoundTrip.FilledSame` | cppmdns/src/packet.cpp:833-897 | The message so recovered differs from the one written in counts and data lengths only |
| `DnsReader.ReadRecords` | cppmdns/src/packet.cpp:230-314 | The record loop computes the recursive meaning of a section |
| `DnsReader.ReadMessage` | cppmdns/src/packet.cpp:316-385 | Questions and the three record sections read in turn give the same as one list of records after the questions, with the same errors |
| `DnsReader.FastSkipName` | cppmdns/src/packet.cpp:1037-1056 | The name skipper computes its recursive meaning |
| `DnsReader.FastCheck` | cppmdns/src/packet.cpp:1058-1091 | The pre-check accepts exactly the packets whose names and fixed parts can be skipped |
| `DnsReader.PreCheckKeepsValid` | cppmdns/src/packet.cpp:1058-1091 | For every byte string, if the full parser accepts it then so does the pre-check |
| `DnsWriter.SortRecords` | cppmdns/src/packet.cpp:669-681 | A section becomes a permutation of itself ordered by reversed name and, within a name, by reversed data text |
| `DnsWriter.PutRecord` | cppmdns/src/packet.cpp:691-831 | Writing a record and patching its data length afterwards leaves exactly the record's encoding, and fails exactly when that does not fit |
| `DnsWriter.Packet.Write` | cppmdns/src/packet.cpp:833-897 | All error cases; otherwise the sections are sorted permutations, the buffer holds the message's encoding, and parsing it gives the message as the call left it |
| `StunMessage.TypeFieldRoundTrip` | src/stun.cpp:651-653 | Class and method are recovered from the type field exactly when the method has no class bits |
| `StunParser.ReadMessage` | src/stun.cpp:635-984 | The attribute loop computes the recursive meaning of a message, including the endless step of a 16-bit length that wraps |
| `StunParser.ShortBuffersEnd` | src/stun.cpp:402-409 | In a buffer below 64 KiB the loop always ends |
| `StunParser.LocateAttr` | src/stun.cpp:512-522 | The search for an attribute computes its recursive meaning |
| `StunWriter.PutIntegrity` | src/stun.cpp:1385-1421 | An integrity attribute holds the hash of all before it under a header length that ends with it, and only the length and the attribute's own bytes change |
| `StunWriter.WriteTo` | src/stun.cpp:1061-1449 | Fails exactly when a text is too long or the message does not fit; otherwise returns its size and the buffer holds header, attributes, integrities and fingerprint |
| `StunRoundTrip.ReadXorAddress` | src/stun.cpp:472-510 | An address XORed with cookie and transaction id reads back, for both families |
| `StunRoundTrip.ReadAlgorithms` | src/stun.cpp:812-846 | A padded PASSWORD-ALGORITHMS list reads back |
| `StunRoundTrip.CodeSurvives` | src/stun.cpp:171-202 | An error code survives exactly when it is below 800 |
| `StunRoundTrip.PrioritySurvives` | src/stun.cpp:1210-1219 | A priority survives exactly when its halves are equal and equal to the two bytes the write leaves alone |
| `StunRoundTrip.PriorityInZeroedBuffer` | src/stun.cpp:861-866 | In a zeroed buffer only priority 0 survives, and a check's priority does not |
| `StunRoundTrip.FoldPlain` | src/stun.cpp:635-984 | Handling every attribute the writer emits, in its order, rebuilds every field of the message |
| `StunTheorems.WrittenParses` | src/stun.cpp:1061-1449 | Parsing what was written recovers class, method, transaction id and every attribute, whatever was in the buffer before, and accepts the fingerprint |
| `StunTheorems.WrittenVerifies` | src/stun.cpp:512-600 | Every integrity attribute written passes verification on the finished buffer with the same key, for any hash functions, although the length is rewritten between them |
| `StunSize.SerializedSize` | src/stun.cpp:1559-1689 | The computed size is exact but for the software text, is a multiple of 4, and is enough exactly when that text has at most 12 bytes |
| `StunDatagram.Datagram` | src/agent_base_impl.hpp:302-315 | Writing into a zeroed buffer of the computed size fails exactly when a text is over the writer's limits or the software text over 12 bytes; otherwise the peer parses the message back, but for the shifted PRIORITY, if it is within the parser's limits, and verifies every integrity attribute |
| `StunDatagram.WrittenLooksLikeStun` | src/stun.cpp:1451-1465 | The cheap test of receivers passes a written message exactly when the two top bits of its type are clear |
| `Candidates.Nceq` | src/string_utils.cpp:6-25 | The two loops decide equality of the texts with ASCII case folded |
| `Candidates.CandidatePriorityOrder` | src/candidate.cpp:58-74 | Candidate priorities lie strictly between 0 and 2^31 and order by type, then preference, then lower component |
| `Candidates.MirroredPairsAgree` | src/candidate_pair.cpp:59-65 | The two ends of a pair compute the same priority when their roles are opposite |
| `Candidates.PairPriorityInjective` | src/candidate_pair.cpp:59-65 | For candidate priorities below 2^31 the pair priority is below 2^63 and equal exactly for equal candidates |
| `Candidates.LargePrioritiesCollide` | src/candidate_pair.cpp:59-65 | Above that range two different pairs can share a priority |
| `Candidates.FoundationSymmetric` | include/asioice/candidate_pair.hpp:39-44 | A pair's foundation does not depend on which candidate is local |
| `Roles.StepKeeps` | src/agent_base_impl.cpp:1472-1490 | Every send, delivery and late 487 keeps the invariant of the conflict at hand |
| `Roles.RoleSafety` | src/agent_base_impl.cpp:1109-1119 | Between any two points of any run from distinct tie-breakers: the agent with the larger one never turns from controlling to controlled, the other never from controlled to controlling, and complementary roles stay as they are |
| `Roles.OneExchangeSettles` | src/agent_base_impl.cpp:1249-1253 | Wherever a run has got to, one check that gets through, from either side, with its 487 if it is refused, leaves complementary roles |
| `Roles.EqualTiesCanFlip` | src/agent_base_impl.cpp:1472-1490 | With equal tie-breakers two controlling agents can both end up controlled |
| `AgentState.StatesOnlyKeeps` | src/candidate_pair.cpp:27-32 | Changing pair states keeps the whole invariant |
| `AgentState.ReprioritisedKeeps` | src/agent_base_impl.cpp:998-1010 | Recomputing the listed priorities under a new role keeps it |
| `AgentState.NoPairYet` | src/agent_base_impl.cpp:556-601 | No listed pair leads to a remote address that is not a known candidate |
| `AgentState.ReplaceKeeps` | src/agent_base_impl.cpp:516-554 | Replacing a redundant pair by a better one keeps the invariant, loses nothing without a better counterpart and keeps a pruned list pruned |
| `AgentState.EmptyMeansStalled` | src/agent_base_impl.cpp:764-843 | The scheduler has nothing to return exactly when no pair waits and every frozen one shares its foundation with a check under way |
| `AgentState.StalledMeansDecided` | src/agent_base_impl.cpp:914-952 | With no check under way that means every listed pair has succeeded or failed |
| `AgentThaw.ThawsOneEach` | src/agent_base_impl.cpp:795-806 | A thaw lets go at most one pair per foundation if and only if no two listed frozen pairs share a foundation with no check in progress |
| `AgentThaw.ThawFollowsRule` | src/agent_base_impl.cpp:784-806 | Under the same condition, and no other, the loop does what its documented rule, applied pair by pair, would |
| `AgentThaw.BothLetGo` | src/agent_base_impl.cpp:795-806 | Any two frozen pairs of one idle foundation, alone on the list, are both let go, where the rule lets go one |
| `AgentNomination.NominationKeeps` | src/agent_base_impl.cpp:1679-1710 | Nominating an entry and erasing older generations of its component keeps at most one nominated entry per component |
| `AgentNomination.FirstAsks` | src/agent_base_impl.cpp:1775-1815 | In the sorted valid list the first entry of a component without nomination has a source and the highest priority of the component |
| `AgentNomination.RestartKeeps` | src/agent_base_impl.cpp:664-695 | A restart keeps the invariant although surviving entries are of an older generation |
| `AgentNomination.FreeKeeps` | src/agent_base_impl.cpp:1845-1910 | Freeing candidates keeps it although surviving entries lose their source |
| `AgentNomination.NominatedAnyway` | src/agent_base_impl.cpp:1679-1710 | A live agent that declines to nominate an entry already has a nominated one for its component |
| `AgentNomination.CompletedSuccess` | src/agent_base_impl.cpp:865-881 | Completing a successful check changes pair states, order and queue, never who is valid or nominated |
| `AgentSteps.ValidEntryFacts` | src/agent_base_impl.cpp:1897-1901 | In every reachable state an entry that is not nominated is of the current generation and has a source |
| `AgentSteps.ValidListFacts` | src/agent_base_impl.cpp:1128-1158 | In every reachable state two entries of the valid list differ in endpoints or transport and no component has two nominated |
| `AgentSteps.CheckListFacts` | src/agent_base_impl.cpp:998-1010 | In every reachable state a listed pair has the priority its candidates give it under the current role, its remote address is a known candidate, and with trickling the list is sorted |
| `AgentSteps.ClosedForEver` | src/agent_base_impl.cpp:643-662 | Once closed, every later state of a run is closed |
| `AgentSteps.ConnectedUntilEnded` | src/agent_base_impl.cpp:643-695 | Connected is left only by closing or restarting |
| `AgentSteps.YieldsItsPart` | src/agent_base_impl.cpp:1109-1119 | The agent takes a 487 as the two-agent system says |
| `Agent.Agent.constructor` | src/agent_base_impl.cpp:132-145 | A fresh agent has empty lists and satisfies the invariant |
| `Agent.Agent.InitialState` | src/agent_base_impl.cpp:603-634 | With trickling a new pair waits exactly when it tops its foundation or its foundation has succeeded, else it is frozen |
| `Agent.Agent.PairLocal` | src/agent_base_impl.cpp:516-554 | Every known remote candidate it can pair with is listed with at least its priority, nothing is lost without a better counterpart, a pruned list stays pruned, only such pairs are new |
| `Agent.Agent.PairRemote` | src/agent_base_impl.cpp:556-601 | The same for a remote candidate about to be known; the peer-reflexive branch is dead |
| `Agent.Agent.AddRemote` | src/agent_base_impl.cpp:697-762 | A candidate is considered only while the agent listens; refused exactly when it is then new and peer-reflexive |
| `Agent.Agent.AdmitRemote` | src/agent_base_impl.cpp:739-762 | Once its address is known, in whatever phase that is, a candidate is taken exactly when its address and transport are new and its kind can be signalled, and every local candidate it can pair with is then listed with it |
| `Agent.Agent.SwitchRole` | src/agent_base_impl.cpp:998-1010 | Every listed pair gets its priority under the new role and the list is sorted by it, unless a lite peer forbids the role |
| `Agent.Agent.SetRemoteIsLite` | src/agent_base_impl.hpp:79-83 | Facing a lite peer the agent is controlling, with all priorities recomputed |
| `Agent.Agent.PickNextPair` | src/agent_base_impl.cpp:764-843 | Nothing on an empty list, else the head of the queue, else a waiting pair that none betters by priority and then lower component; nothing exactly when stalled |
| `Agent.Agent.UnfreezeInitial` | src/agent_base_impl.cpp:845-863 | One pair per foundation, before which no pair of that foundation comes by component and priority, starts waiting; no other changes |
| `Agent.Agent.SetNominated` | src/agent_base_impl.cpp:1679-1754 | When it does anything and its whole new state then; connected exactly when every component has a nominated entry, and then exactly one |
| `Agent.Agent.DefaultNominate` | src/agent_base_impl.cpp:1775-1815 | Exactly one use-candidate check per component that has a valid pair and no nominated one, in order, on the source of a highest-priority valid pair; only those pairs change state; no missing source is ever read |
| `Agent.Agent.CheckComplete` | src/agent_base_impl.cpp:865-881 | Success releases the frozen pairs of the foundation and asks for nominations; failure erases exactly the entries the pair produced |
| `Agent.Agent.ConstructValidPair` | src/agent_base_impl.cpp:1168-1225 | Whichever pair it returns joins the mapped address to the checked remote candidate |
| `Agent.Agent.Succeed` | src/agent_base_impl.cpp:1125-1166 | The steps of a successful check in order: the pair constructed, entered with this pair as source and this generation unless its ends are there, nominated if asked for, completed; so there is an entry for the mapped address, and a check that asked for it has its component nominated |
| `Agent.Agent.EndCheck` | src/agent_base_impl.cpp:1019-1166 | Every outcome of a check in every state: cancelled, failed, refused for its role up to ten times, succeeded |
| `Agent.Agent.Connect` | src/agent_base_impl.cpp:883-905 | Connecting sorts the list, starts the topmost pairs, and begins only from a state that allows it |
| `Agent.Agent.Tick` | src/agent_base_impl.cpp:914-928 | One turn of the loop starts at most one check, on what the scheduler picked, below the limit of pending checks |
| `Agent.Agent.Receive` | src/agent_base_impl.cpp:1472-1496 | Which requests are ignored, refused or accepted, and what role the agent has afterwards |
| `Agent.Agent.TriggerListed` | src/agent_base_impl.cpp:1551-1615 | A request on a succeeded pair that asks for it tries to nominate what the pair produced; one in progress, or not queued yet, is queued again and waits; nothing else changes |
| `Agent.Agent.TriggerNew` | src/agent_base_impl.cpp:1616-1626 | A request from elsewhere gets a new pair, listed, sorted in and queued |
| `Agent.Agent.Continue` | src/agent_base_impl.cpp:1496-1626 | An answered request waits for connecting, is dropped once connected or closed, and otherwise its source is known afterwards and its pair is triggered |
| `AgentSteps.ActedAnswers` | src/agent_base_impl.cpp:1513-1626 | Unless no local candidate has its transport, a request leaves the pair it points at succeeded or queued |
| `Agent.Agent.Close` | src/agent_base_impl.cpp:643-662 | The state after closing |
| `Agent.Agent.Restart` | src/agent_base_impl.cpp:664-695 | Restarts exactly when connected, and the state after it |
| `Agent.Agent.FreeCandidates` | src/agent_base_impl.cpp:1845-1910 | The state after freeing candidates |
| `Agent.Agent.Step` | src/agent_base_impl.cpp:643-1910 | Every event in every reachable state keeps the invariant, has its stated effect, never leaves closed, leaves connected only by closing or restarting, and if it connects leaves exactly one nominated valid pair for each component |
| `Agent.Agent.Run` | src/agent_base_impl.cpp:643-1910 | The same for every state and step of every sequence of events |
| `Agent.Session` | src/agent_base_impl.cpp:132-145 | And so for every run of a fresh agent |
| `Agent.Agent.AddLocals` | src/agent_base_impl.cpp:385-395 | Candidates found by gathering are added and paired in every phase, since gathering tests the phase only when it begins |
| `AgentRestart.ConnectedAfresh` | src/agent_base_impl.cpp:1740-1753 | A nomination that connects leaves every component nominated in the current generation if and only if every other component's nominated entry was of that generation before |
| `AgentRestart.AsksForAll` | src/agent_base_impl.cpp:1784-1813 | The checks added are exactly one for each component with a valid pair and no nomination of this generation if and only if none of these has an older nominated entry |
| `AgentRestart.StepStuck` | src/agent_base_impl.cpp:643-1910 | No event but another role, a lite peer or closing frees a controlling agent with one component from an old nominated entry whose source is not being checked |
| `AgentRestart.RestartNeverReconnects` | src/agent_base_impl.cpp:664-695 | In every run, a controlling agent with one component and a full peer that restarts with its nominated entry in place, and no check in flight that asks for nomination or is on that entry's source, does not become connected, nor ask for a nomination, while it keeps that role |
| `AgentRestart.FailureForgets` | src/agent_base_impl.cpp:873-880 | A failed check takes away a component's nominated entry exactly when that came from the failed pair |
| `AgentWitness.RestartedEnds` | src/agent_base_impl.cpp:681-694 | The run of `AsksForNothing` connects before the restart and ends connecting, with a valid pair of the new generation, nothing queued and nothing under way |
| `AgentWitness.AsksForNothing` | src/agent_base_impl.cpp:1784-1813 | An agent put through that run |
| `AgentWitness.HalfRestartedEnds` | src/agent_base_impl.cpp:1740-1753 | The run of `ReconnectsOnOldPair` ends connected in generation 1 with component 2 nominated only in generation 0 |
| `AgentWitness.ReconnectsOnOldPair` | src/agent_base_impl.cpp:1740-1753 | An agent put through that run |
| `AgentDuel.RoleKept` | src/agent_base_impl.cpp:643-1910 | Every event but a request and a 487 keeps role and tie-breaker |
| `AgentDuel.StepProjects` | src/agent_base_impl.cpp:1472-1490 | One step of two agents and the network between them is none, one or two steps of `Roles` |
| `AgentDuel.RunProjects` | src/agent_base_impl.cpp:1249-1253 | Every run of two full agents projects to a run of `Roles` |
| `AgentDuel.AgentsRoleSafety` | src/agent_base_impl.cpp:1109-1119 | So role safety holds between any two points of any run of two full agents with different tie-breakers |
| `AgentDuel.Converse` | src/agent_base_impl.cpp:1472-1490 | Two agents taking turns in any order, with only what was sent delivered, make such a run |
| `BufferStore.CountFacts` | src/io_buffer.cpp:24-83 | In every reachable state a block in use counts exactly the buffers on it and no buffer is on a free block |
| `BufferStore.ReleaseSettles` | src/io_buffer.cpp:28-44 | Giving up a hold restores that, whether the block stays, goes to the pool or is destroyed |
| `BufferStore.FillKeeps` | src/io_buffer.cpp:255-296 | Writing into a block with one reference changes no byte of any other buffer |
| `BufferSpan.SpanIsPrivate` | src/io_buffer.cpp:298-343 | Whatever is written into a span leaves the contents of all other buffers alone if and only if no other buffer's window meets it |
| `BufferSpan.OwnContentKept` | src/io_buffer.cpp:298-343 | Writing into the room before or after it leaves a buffer's own content alone |
| `IoBuffer.Heap.MakeRaw` | src/io_buffer.cpp:89-98 | A window on the caller's memory, which fits exactly when the caller's offset and size do |
| `IoBuffer.Heap.MakeSharedWith` | src/io_buffer.cpp:109-122 | Refused exactly when the data would not fit, else shows exactly the data |
| `IoBuffer.Heap.Copy` | src/io_buffer.cpp:124-134 | One more holder of the same bytes |
| `IoBuffer.Heap.Move` | src/io_buffer.cpp:135-151 | The hold changes hands |
| `IoBuffer.Heap.Destroy` | src/io_buffer.cpp:153-157 | The block loses a holder, and with the last one it is recycled or destroyed |
| `IoBuffer.Heap.Clone` | src/io_buffer.cpp:189-202 | A buffer of its own with the same bytes at the same place |
| `IoBuffer.Heap.EnsureShared` | src/io_buffer.cpp:234-253 | Same bytes, enough capacity, all other buffers untouched |
| `IoBuffer.Heap.Reshape` | src/io_buffer.cpp:255-296 | Same bytes, exactly the head room and at least the tail room asked for, all other buffers untouched even when bytes move in place |
| `IoBuffer.Heap.PrepareFront` | src/io_buffer.cpp:298-319 | Same bytes, enough head room, unchanged tail room, all other buffers untouched |
| `IoBuffer.Heap.PrepareBack` | src/io_buffer.cpp:321-343 | Same bytes, enough tail room, unchanged head room, all other buffers untouched |
| `IoBuffer.Heap.Write` | src/io_buffer.cpp:298-343 | The caller's write into a prepared span, through to the storage all holders share |
| `IoBuffer.Heap.CommitFront` | src/io_buffer.cpp:345-352 | Refused exactly beyond the head room; the old content is the rest of the new |
| `IoBuffer.Heap.ConsumeFront` | src/io_buffer.cpp:354-360 | Refused exactly beyond the size; drops a prefix and so undoes a commit |
| `IoBuffer.Heap.CommitBack` | src/io_buffer.cpp:362-368 | Refused exactly beyond the tail room; the old content is a prefix of the new |
| `IoBuffer.Heap.ConsumeBack` | src/io_buffer.cpp:370-375 | Refused exactly beyond the size; drops a suffix and so undoes a commit |
| `IoBuffer.Heap.GetBlock` | src/io_buffer.cpp:50-72 | The first free block that is large enough, or a new one if none is |
| `IoBuffer.Heap.Get` | src/io_buffer.cpp:391-429 | The room asked for; the window fits the storage exactly unless no room was asked for and the recycled buffer has old head room |
| `IoBuffer.Heap.Put` | src/io_buffer.cpp:432-451 | Keeps the pool's own buffers up to its limit, destroys others, and gives up the hold either way |
| `IoBuffer.SharedSpan` | src/io_buffer.cpp:298-301 | A copy sees what is written into room prepared after `consume_front` |
| `IoBuffer.RecycledMisfit` | src/io_buffer.cpp:391-451 | The excluded case happens: take, give back, take with no room |
| `Handshake.StepKeeps` | include/asioice/detail/asio2exec.hpp:723-794 | Every atomic step of either side keeps the invariant tying the word, both places and the emissions |
| `Handshake.OneEmission` | include/asioice/detail/asio2exec.hpp:723-794 | In every interleaving the signal is emitted at most once and only after I/O is initiated, and there is at most one completion |
| `Handshake.StopWinsFirst` | include/asioice/detail/asio2exec.hpp:763-776 | A stop that wins the first exchange means no I/O, no signal and exactly one completion, the stopped one |
| `Handshake.StopIsSignalled` | include/asioice/detail/asio2exec.hpp:733-745 | Once callback and start have returned, initiated I/O has been signalled exactly once, whichever exchange the stop preceded |
| `Handshake.NoStopNoSignal` | include/asioice/detail/asio2exec.hpp:733-745 | While the callback has not begun nothing is signalled |
| `Handshake.NoIoCompletesAtOnce` | include/asioice/detail/asio2exec.hpp:763-784 | An operation whose I/O was not initiated completes from within start, exactly once |
| `Handshake.StartAdvances` | include/asioice/detail/asio2exec.hpp:763-794 | Start is never stuck waiting for the callback |

## Left out

- Sockets, timers, name resolution, interface enumeration, mDNS publishing and resolving, keepalives: input and output only.
- Coroutine and sender plumbing, fibers, DTLS, SCTP, JSON, logging, SDP text, base64: thin layers or foreign code.
- HINFO data and the WKS bitmap of DNS records, which the sources mark as unfinished.
- The TURN DATA early return and reserved TURN data of the STUN writer, the security bits in NONCE, the `offset` parameter of the STUN parser.
- The accessors for format letters `l` and `L` use C++ `long`; the model uses the four bytes of the standard size. The STUN codec is modelled on a little-endian host.
- Hash functions are arbitrary functions; random values and learned foundations are inputs of the events.
- A binding request reaches the agent's model authenticated and with a priority; the 400 and 401 replies change nothing. The limit of 256 requests in hand is not modelled.
- The agent's `check_list_state` and the failure exit of the connect loop, which change nothing else; TURN permissions and channels.
- mDNS names of candidates are not kept: a candidate to be resolved enters when its address is known, and the exception of an unpublished name is not modelled.
- `stun::transaction` is seen only through its outcome: succeeded, failed, cancelled.
- Agent.Agent.SetNominated: the erase compares with the pair and component read before the list is compacted; the source reads them through an iterator into the list that is being compacted.
- Agent.Agent.Restart: transaction states are cleared, which is what the source's loop is for; its condition is inverted.
- Component counts of 255, for which the 8-bit component loops would not end.
- Roles with a lite peer beyond what `SwitchRole` keeps, and equal tie-breakers beyond `Roles.EqualTiesCanFlip`.
- Memory is not exhausted and sizes do not wrap around in the buffer model; raw buffers cover whole regions; a moved-from buffer is empty, although the size of its span is indeterminate when it was itself made by copying.
- Handshake: completion of the I/O is assumed to follow `start`, and a registered callback to run at most once, as the sources assume.
- StunWriter.WriteTo: requires a buffer below 64 KiB and a reason phrase below 64 KiB, because the header's length field has 16 bits and the writer truncates it beyond that.
- DnsReader.PreCheckKeepsValid: one direction only, since the pre-check is meant to let through more than the parser accepts.
- StunDatagram.Datagram: requires the message to be below 64 KiB with 16 bytes to spare, as `StunWriter.WriteTo` does.
- AgentRestart.RestartNeverReconnects: besides no use-candidate check in flight it asks that the nominated entry is there at the restart and that no check of the pair it came from is in flight, because such a check that fails erases the entry (`AgentRestart.FailureForgets`) and frees the agent.
