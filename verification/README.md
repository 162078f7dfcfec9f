# Verification of openvpnd

A Dafny 4.11 model of the parts of openvpnd where state, arithmetic or a printer and parser pair
carry the guarantees, with proofs. `dafny verify dfyconfig.toml` checks everything.

## What is modelled

- **SNMP agent** (`Lex`, `Oid`, `Ber`, `BerValues`, `Pdu`, `Grammar`, `Oversized`, `Mib`, `MibValues`, `Repetition`,
  `Agent`, `AgentReplies`): the BER codec from lengths to whole messages, the cursor that parses them, the grammar of
  what it accepts, the sorted MIB and its binary search, and GET, GETNEXT, GETBULK and packet handling.
- **Bandwidth enforcer** (`Shaping`, `Enforcer`, `ShapingRuns`, `SyncedHosts`, `RejectedSetup`): tc plans and their effect
  on a host, the cache of applied rules, class-id allocation, and what every run keeps.
- **Traffic and reconcile passes** (`Traffic`, `Backend`, `Passes`, `Reconciler`, `ClientRuns`, `PassEffects`,
  `MeterRuns`, `Convergence`, `EdgeEvents`, `RestartExamples`): durable counters over volatile ones, quota and
  expiry, supervision of processes against the in-memory backend, and edge events.
- **IPv4 networks** (`Addresses`, `Blocks`, `Netutil`, `Networks`): host allocation on byte arrays, CIDR
  overlap, and the choice and checking of server networks.
- **Confs** (`Fields`, `Inline`, `InlineRoundTrip`, `ConfImport`, `ConfGen`, and on them `ConfNames`, `ConfAtoms`,
  `ConfWords`, `ConfReads`, `ConfMarks`, `ConfPushed`, `ConfWhole`, `ConfRoundTrip`, `ConfSections`, `ConfExtras`,
  `ConfResult`, `ConfClient`, `ConfExact`, `ConfAngles`): quoting and splitting, inline PEM blocks, what any conf imports
  as, and rendering and importing whole server and client confs.
- **Certificates** (`Pki`, `PkiRuns`, `PkiRows`): serials, certificate rows and revocation lists.

Code that changes state is a class or a method with its loops, proved equal to a function on values; the
laws are lemmas about those functions and about runs of them. Where the code meets a property only under a
condition, an "Exactly" lemma states the condition in both directions.

## Modelling decisions

- Texts are sequences of characters. Trimming, lower-casing and field splitting treat ASCII; the one rendered
  character outside ASCII is in the title comment of a conf.
- Word sizes are explicit in the BER codec. Byte counters of clients are unbounded integers.
- The MIB takes its rows as name-ordered lists and its rates as gauges already clamped to 32 bits; the sort is
  an insertion sort, which by `Mibs.StrictOrderIsUnique` gives the same list whenever OIDs are distinct.
- The tc host is a map per device from class minor and filter preference to what was set; deletions remove
  their key whatever is there. The two map levels of the applied rules are one map with a pair as key.
- A binary that fails to resolve and a conf that fails to render are None fields of an instance. Conf hashes
  are taken to be injective, so a conf stands for its hash. Keys of samples are pairs of instance and name.
- Go leaves the iteration order of maps open: the order of peer events is any listing of the two peer sets.
- Certificates are rows with a serial; the id of a row is its position. Timestamps and file contents are numbers.
- `Expected`, `Imported...` and `WithKeys` in the conf modules say what each setting becomes: networks become
  their masked CIDR, `dh none` becomes empty, protocol and topology become lower case.
- Words that make a conf line ignored are compared in lower case, so the listed `setenv FORWARD_COMPATIBLE` of
  `internal/confimport/parse.go:81` never matches (`ConfWords.NeverLeads`); such lines are kept.
- Where code and comments disagree the model follows the code: `internal/api/handlers_pki.go:392` says that
  renewing keeps an old serial on the list, lines 407-410 say that it drops; `PkiRuns.RenewDropsOldSerial`
  shows that it stays until the next rebuild and then drops.

## Model

| member | source | states |
|---|---|---|
| `Lex.LessMeansFirstDifference` | internal/snmp/oid.go:71-91 | the order compares at the first differing arc; a proper prefix comes first |
| `Lex.LessTransitive` | internal/snmp/oid.go:71-91 | the order of OIDs is transitive |
| `Oids.Compare` | internal/snmp/oid.go:71-91 | the index loop computes the lexicographic order |
| `Oids.Equal` | internal/snmp/oid.go:50-60 | true exactly for equal OIDs |
| `Oids.IsPrefix` | internal/snmp/oid.go:94-104 | true exactly if the other OID starts with this one |
| `Oids.ParseOID` | internal/snmp/oid.go:14-33 | the parsing loop equals the specification of dotted text, skipping what is not a 32-bit number |
| `Oids.String` | internal/snmp/oid.go:35-47 | the buffer loop prints the arcs joined by dots |
| `Oids.TextRoundTrip` | internal/snmp/oid.go:14-47 | parsing a printed OID gives it back if and only if every arc fits 32 bits |
| `Oids.BadPartIsSkipped` | internal/snmp/oid.go:20-31 | a part of dotted text is an arc if and only if it is digits of a number below 2^32; any other part is passed over |
| `Ber.TlvRoundTrip` | internal/snmp/ber.go:46-65 | a wrapped TLV is read back whole if and only if its content is below 2^24 bytes (X.690 section 8.1.3) |
| `Ber.EncodeInteger` | internal/snmp/ber.go:67-89 | the trimming loop yields the INTEGER content of the value |
| `Ber.PutUint64` | internal/snmp/ber.go:67-89 | the eight big-endian bytes of a 64-bit value |
| `Ber.IntegerContentIsShortest` | internal/snmp/ber.go:67-89 | the INTEGER content is no longer than any bytes with the same two's-complement value, hence at most 8 bytes (X.690 section 8.3.2) |
| `Ber.ShortestIsIntegerContent` | internal/snmp/ber.go:67-89 | bytes without a redundant first octet are exactly the INTEGER content of their value |
| `Ber.DecodeInteger` | internal/snmp/ber.go:276-292 | the sign-extending loop equals the two's-complement value; empty and over-long contents are errors |
| `Ber.IntegerRoundTrip` | internal/snmp/ber.go:67-89 | INTEGER decoding inverts encoding if and only if the value fits 64 bits |
| `Ber.EncodeUnsigned` | internal/snmp/ber.go:91-118 | the unsigned forms of 32 and 64 bits: big-endian without redundant zeros, one zero before a set top bit |
| `Ber.DecodeUnsigned` | internal/snmp/ber.go:294-308 | the shifting loop equals the unsigned value modulo 2^64, for contents of any length |
| `Ber.UnsignedRoundTrip` | internal/snmp/ber.go:91-104 | unsigned decoding inverts encoding for every value below 2^64 |
| `Ber.Unsigned64RoundTrip` | internal/snmp/ber.go:106-118 | Counter64 decoding inverts encoding for every 64-bit value |
| `Ber.EncodeBase128` | internal/snmp/ber.go:141-160 | the digit stack loop prints an arc in base 128 with continuation bits (X.690 section 8.19) |
| `Ber.EncodeOID` | internal/snmp/ber.go:128-139 | the OID content: first two arcs packed, the others in base 128 |
| `Ber.DecodeOID` | internal/snmp/ber.go:260-274 | the byte loop reads the arcs back, shifting modulo the word size |
| `Ber.OidRoundTrip` | internal/snmp/ber.go:128-274 | OID decoding inverts encoding if and only if there are two arcs, the second is below 40 and 40a+b is at most 255; later arcs are 32-bit numbers and always fit |
| `Ber.DecodedIsEncodable` | internal/snmp/ber.go:260-274 | whatever an OID content decodes to can be encoded again |
| `BerValues.EncodeValue` | internal/snmp/ber.go:162-200 | the dispatch on the value type writes the TLV of the value, INTEGER for unknown types |
| `BerValues.ValueRoundTrip` | internal/snmp/ber.go:162-345 | value decoding inverts encoding if and only if the value is canonical |
| `BerValues.Reader.ReadByte` | internal/snmp/ber.go:211-218 | the cursor moves one byte on and returns it, or reports the end and stays |
| `BerValues.Reader.ReadLen` | internal/snmp/ber.go:220-241 | the cursor reads a short or long length, with its error cases |
| `BerValues.Reader.ReadTLV` | internal/snmp/ber.go:243-258 | the cursor reads one TLV: result and new position agree with the specification on the remaining bytes |
| `Pdus.EncodeMessage` | internal/snmp/pdu.go:205-212 | the message bytes: version, community and PDU in one sequence |
| `Pdus.EncodePDU` | internal/snmp/pdu.go:214-237 | the PDU bytes; GETBULK sends its own two fields, type 0 becomes a response |
| `Pdus.EncodeVarBind` | internal/snmp/pdu.go:239-243 | a binding is a sequence of name and value |
| `Pdus.ParseMessage` | internal/snmp/pdu.go:64-108 | the cursor-driven parse equals the specification on byte sequences, errors included |
| `Pdus.ParsePDU` | internal/snmp/pdu.go:110-179 | the cursor-driven PDU parse equals its specification |
| `Pdus.ParseBindings` | internal/snmp/pdu.go:163-179 | the loop over bindings equals its specification and stops at the first error |
| `Pdus.ParseVarBind` | internal/snmp/pdu.go:181-203 | a binding parse equals its specification |
| `Pdus.MessageRoundTrip` | internal/snmp/pdu.go:64-243 | below 2^24 bytes, decoding an encoded message gives it back if and only if it is well formed |
| `Pdus.SentMessageDecodes` | internal/snmp/pdu.go:205-243 | below 2^24 bytes every encoded message decodes, to a stated normal form of it |
| `Oversized.MessageRoundTripExactly` | internal/snmp/pdu.go:64-243 | for every message: decoding an encoded message gives it back if and only if it is well formed and its content is below 2^24 bytes |
| `Oversized.CutMessage` | internal/snmp/ber.go:46-65 | a message of 2^24 content bytes or more, cut by its own length octets, never decodes to itself |
| `Grammar.TlvExactly` | internal/snmp/ber.go:220-258 | the reader reads exactly the definite-length TLVs at the front of the bytes (X.690 section 8.1.3) |
| `Grammar.ArcIsRead` | internal/snmp/ber.go:260-274 | base-128 digits are read as their number modulo 2^64, redundant digits included; `UnfinishedIsDropped`: an arc that never ends is dropped |
| `Grammar.ValueExactly` | internal/snmp/ber.go:310-345 | what each tag and content decodes to, and that nothing else does |
| `Grammar.MessageExactly` | internal/snmp/pdu.go:64-203 | a byte string decodes to a message if and only if it is one in a grammar of TLVs with literal tags: sequence of version, community and PDU, each list and binding included |
| `Grammar.LengthIsShortest` | internal/snmp/ber.go:46-57 | below 2^24 the length octets sent are the shortest that say the length |
| `Mibs.AppendLeaves` | internal/snmp/mib.go:34-140 | the append loops produce the 10 + 11 I + 13 C leaves with their OIDs and values |
| `Mibs.BuildMIB` | internal/snmp/mib.go:34-145 | the MIB is the sorted list of those leaves |
| `MibValues.SystemDescription` | internal/snmp/mib.go:52-60 | the leaf of sysDescr and its text |
| `MibValues.SystemNumbers` | internal/snmp/mib.go:52-60 | the leaves of sysObjectID, sysUpTime and sysServices and their values |
| `MibValues.ScalarValuesAre` | internal/snmp/mib.go:74-78 | the three scalar leaves below the base and their values |
| `MibValues.InstanceTraffic` | internal/snmp/mib.go:83-104 | each traffic column of an instance row has that value at its own OID, received apart from sent |
| `MibValues.ClientTraffic` | internal/snmp/mib.go:109-140 | each traffic column of a client row has that value at its own OID, received apart from sent |
| `MibValues.TypesOnTheWire` | internal/snmp/ber.go:162-200 | the tag octet sent for each type, unknown ones as INTEGER |
| `Mibs.SortCorrect` | internal/snmp/mib.go:141-144 | the result is sorted and a permutation of the leaves |
| `Mibs.StrictOrderIsUnique` | internal/snmp/mib.go:141-144 | a strictly sorted permutation is unique, so the choice of sorting algorithm does not matter when OIDs are distinct |
| `Mibs.Search` | internal/snmp/mib.go:199-203 | binary search returns the first index whose OID is not below the argument |
| `Mibs.Get` | internal/snmp/mib.go:176-182 | returns the leaf at exactly this OID if there is one |
| `Mibs.GetNext` | internal/snmp/mib.go:185-197 | returns the first leaf whose OID is above the argument, if any (RFC 3416 section 4.2.2) |
| `Mibs.WalkVisitsAll` | internal/snmp/mib.go:185-203 | on a sorted view, a GetNext walk from the empty OID visits every leaf exactly once if and only if the OIDs are distinct and none is empty |
| `Mibs.WalkFromCursor` | internal/snmp/mib.go:185-203 | a walk from any cursor lists the leaves above it, one per distinct OID |
| `Mibs.WalkIncreases` | internal/snmp/mib.go:185-203 | the OIDs of a walk increase strictly |
| `Mibs.AgentWalk` | internal/snmp/mib.go:34-203 | the agent's view has 10 + 11 I + 13 C leaves and is walked completely, in strictly increasing order, if and only if the base is not 1.3.6.1.2.1 |
| `Agents.DoGet` | internal/snmp/agent.go:195-210 | one binding per request: the value, noSuchInstance below a known name, or noSuchObject |
| `Agents.HasPrefix` | internal/snmp/agent.go:212-219 | true exactly if some leaf lies below the name |
| `Agents.DoGetNext` | internal/snmp/agent.go:221-231 | one successor, or endOfMibView with the name asked for, per request |
| `Agents.DoGetBulk` | internal/snmp/agent.go:233-284 | non-repeaters' successors followed by the repetitions, both counts clamped |
| `Agents.Repeaters` | internal/snmp/agent.go:259-283 | the nested loops over the cursor array equal the early-stopping repetition |
| `Agents.BulkIsIteratedNext` | internal/snmp/agent.go:233-284 | GetBulk sends the full repetitions up to some row and stops early only after a row that is entirely endOfMibView, which every further row would repeat (RFC 3416 section 4.2.3) |
| `Agents.FullRowsEntry` | internal/snmp/agent.go:259-283 | entry i of row r is the successor of name i after r GetNext steps |
| `Agents.BulkListsTheWalk` | internal/snmp/agent.go:233-284 | with one repeater GetBulk lists the GetNext walk |
| `Agents.HandlePacket` | internal/snmp/agent.go:136-193 | bytes to bytes: parse, version and community checks, dispatch, and the tooBig fallback above 64000 bytes |
| `Agents.ReplyDecodes` | internal/snmp/agent.go:136-193 | every reply to a datagram decodes and carries the request's version, community and id and the bindings of the answer |
| `AgentReplies.AnswerIs` | internal/snmp/agent.go:156-284 | the answer by PDU type, from the leaves and the order alone: GET the leaf of the name, else noSuchInstance exactly if some leaf is below it, else noSuchObject; GETNEXT the least leaf above, else endOfMibView; GETBULK such successors, then rows; SET notWritable; anything else genErr |
| `AgentReplies.ReplyIs` | internal/snmp/agent.go:136-193 | the bytes sent back for a request that decodes and fits a datagram decode to a response of its version, community and id with that answer, or with tooBig and no bindings where the answer takes more than 64000 bytes |
| `Shaping.ApplyRules` | internal/bandwidth/bandwidth.go:191-199 | the loop keeps the setup commands, in order |
| `Shaping.RemoveRules` | internal/bandwidth/bandwidth.go:202-213 | the deletions, in reverse order, by an in-place swap loop |
| `Shaping.ReverseInPlace` | internal/bandwidth/bandwidth.go:209-211 | the swap loop reverses the list |
| `Shaping.PlanCommands` | internal/bandwidth/bandwidth.go:88-188 | the setup and removal commands of a plan, for each combination of limits |
| `Shaping.ForwardEffect` | internal/bandwidth/bandwidth.go:88-188 | running a plan gives the device exactly the client's class and filters and changes no other id |
| `Shaping.UndoEffect` | internal/bandwidth/bandwidth.go:202-213 | running the removal takes away exactly those of the directions that are limited |
| `Enforcers.Enforcer.Run` | internal/bandwidth/enforcer.go:416-455 | runRules: stops at the first failed setup, carries on over failed removals |
| `Enforcers.Enforcer.AllocClassID` | internal/bandwidth/enforcer.go:403-414 | the next id of the device, wrapping after 9000 |
| `Enforcers.Enforcer.RemoveClient` | internal/bandwidth/enforcer.go:274-294 | the state after Remove |
| `Enforcers.Enforcer.ApplyClient` | internal/bandwidth/enforcer.go:186-255 | the state and result after Apply, all branches |
| `Enforcers.Enforcer.DesiredOf` | internal/bandwidth/enforcer.go:125-137 | the limits wanted by name; a later entry replaces an earlier one |
| `Enforcers.Enforcer.SyncInstance` | internal/bandwidth/enforcer.go:110-183 | the state after Sync: removals, then applications, each in name order |
| `Enforcers.Enforcer.Clear` | internal/bandwidth/enforcer.go:297-317 | the state after ClearInstance |
| `ShapingRuns.EveryRunAgrees` | internal/bandwidth/enforcer.go:110-317 | over every run with fixed devices, parsing addresses, a working tc and at most 8991 ids handed out per device, the host carries exactly the rules on record and live clients of a device have distinct ids in 10..9000 |
| `ShapingRuns.StepKeepsInv` | internal/bandwidth/enforcer.go:110-317 | each operation keeps that agreement |
| `ShapingRuns.SyncReaches` | internal/bandwidth/enforcer.go:110-183 | after Sync the records are the wanted limits, and repeating it issues no command and changes nothing |
| `SyncedHosts.SyncMeets` | internal/bandwidth/enforcer.go:110-183 | after a Sync with a working tc and parsing addresses a client is on record if and only if some entry of its trimmed name has an address and a positive limit; the record, the egress class rate, and the police rate and address on the host are those of the last such entry |
| `SyncedHosts.ApplyMeets` | internal/bandwidth/enforcer.go:186-255 | after Apply of a client with limits, with a working tc, the record and the rules on the host are its address and limits, and every other record stays |
| `SyncedHosts.ForgetsExactly` | internal/bandwidth/enforcer.go:274-317 | Remove, ClearInstance and Apply without limits take exactly the records of that client or instance away |
| `SyncedHosts.BurstIs` | internal/bandwidth/bandwidth.go:369-379 | the police burst is the bytes of 50 ms at the rate, from 2 KiB to 512 KiB |
| `ShapingRuns.RemoveSparesOthers` | internal/bandwidth/enforcer.go:274-294 | removing one client leaves the rules of every other one in place |
| `ShapingRuns.AllocGives` | internal/bandwidth/enforcer.go:403-414 | the n-th id handed out on a device is 10 + n mod 8991 |
| `ShapingRuns.UnparsableAddressExactly` | internal/bandwidth/enforcer.go:208-250 | when a recorded client changes, the host agrees afterwards if and only if the new address parses as IPv4 |
| `ShapingRuns.MovedDeviceExactly` | internal/bandwidth/enforcer.go:208-209 | when a client moves to another device, ids stay distinct if and only if no live client there holds its old id |
| `ShapingRuns.WrappedIdExactly` | internal/bandwidth/enforcer.go:403-414 | past the id budget, ids stay distinct if and only if the wrapped id is free |
| `ShapingRuns.RemoveAgreesExactly` | internal/bandwidth/enforcer.go:274-294 | after a removal the host agrees if and only if tc is there and accepts every deletion |
| `RejectedSetup.NewClientAgreesExactly` | internal/bandwidth/enforcer.go:208-250 | after setting up a new client, whatever tc rejects, the host agrees if and only if tc is missing, takes every command, or never takes the client's egress class |
| `RejectedSetup.ChangedClientAgreesExactly` | internal/bandwidth/enforcer.go:186-255 | after a recorded client's address or limits change, whatever tc rejects, the host agrees if and only if tc is missing; or takes the whole setup and the deletion of all that is no longer asked for; or breaks the setup off with each old rule set again as it was or its deletion refused |
| `RejectedSetup.MovedClientAgreesExactly` | internal/bandwidth/enforcer.go:186-255 | after a recorded client's device changes, whatever tc rejects, the host agrees if and only if tc is missing; or takes every deletion and the whole setup, any holder of the id there asking for the same; or refuses every deletion and breaks the setup off with the slot of the id there as its holder asks, or bare |
| `Traffic.TakeKeepsSound` | internal/stats/accumulate.go:11-27 | each step keeps the total at most the true traffic, and never lowers it |
| `Traffic.LifetimeOverRuns` | internal/stats/accumulate.go:11-27 | over every run of traffic, session restarts, samples, daemon restarts and soft resets the total never falls, never exceeds the true traffic, and effective bytes are those counted since the last soft reset |
| `Traffic.GrowthExactly` | internal/stats/accumulate.go:11-27 | between samples without a session restart the total grows by exactly the counter difference; with one, nothing is lost if and only if the counter covers the interval and is below the last sample, or that was 0 |
| `Traffic.FirstSampleExactly` | internal/stats/accumulate.go:19-26 | in every run that lost nothing so far, the first sample of a daemon process loses nothing if and only if no byte was transferred before the current session or none since the last sample |
| `Traffic.NothingLostExactly` | internal/stats/accumulate.go:11-27 | over every run the total and what is not sampled yet are the true traffic if and only if every sample kept all, a condition on the transfers and restarts before it; a loss is never made good |
| `MeterRuns.EveryRunTracks` | internal/reconcile/reconciler.go:396-451 | in every run of passes, resets, suspensions, enrolments, session changes and restarts, the stored counters of a client are those of a metered run of its true traffic |
| `MeterRuns.CountersOverRuns` | internal/reconcile/reconciler.go:396-451 | over every such run the stored totals of a client never fall and never exceed its true traffic |
| `MeterRuns.EffectiveOverRuns` | internal/db/models.go:179-195 | over every such run the effective bytes of a client are what its stored total gained since its last soft reset |
| `MeterRuns.StoredIsTruthExactly` | internal/reconcile/reconciler.go:396-451 | over every such run the stored total and what is not sampled yet are the true traffic if and only if every sample taken of the client kept all, a condition on its transfers and restarts |
| `Traffic.UndisturbedRunsAreExact` | internal/stats/accumulate.go:11-27 | with one session and one daemon process the total equals the true traffic at every sample |
| `Traffic.SuspendsExactly` | internal/policy/policy.go:21-33 | no automatic suspension if and only if the client is suspended already or unexpired and below quota |
| `Backend.Mock.EnsureInstance` | internal/ovpnbackend/mock.go:55-85 | stops a disabled instance; starts or restarts an enabled one exactly if it is new, down, or its conf or binary changed |
| `Backend.Mock.RemoveInstance` | internal/ovpnbackend/mock.go:98-104 | forgets an instance |
| `Backend.Mock.KillClient` | internal/ovpnbackend/mock.go:181-199 | drops the live clients with that name or address and records the kill |
| `Passes.Render` | internal/confgen/render.go:264-306 | the shaper line: the highest client or instance rate in bytes per second, at least 1 |
| `PassEffects.ShaperLineIs` | internal/confgen/render.go:264-306 | the shaper line is an eighth of the highest rate that applies, at least 1, and missing exactly if no rate is positive or shaping is off |
| `PassEffects.KillEnds` | internal/ovpnbackend/mock.go:181-199 | a kill drops exactly the sessions of that name or address, leaves the others in order, and records itself once |
| `PassEffects.PassLeavesNoneSuspended` | internal/reconcile/reconciler.go:145-467 | after a pass no session of a suspended client is left on an applied, enabled server |
| `PassEffects.ReasonIs` | internal/policy/policy.go:21-33 | the reason of a suspension: expiry before quota, for clients not suspended yet |
| `PassEffects.TurnAnnouncesExactly` | internal/reconcile/reconciler.go:196-467 | one turn logs one suspension event of a client, with its reason, if and only if the turn suspends it |
| `Reconcilers.Store.SetClientSuspended` | internal/db/clients.go:222-227 | one row's suspended flag changes, nothing else |
| `Reconcilers.Store.UpdateClientRuntime` | internal/db/clients.go:230-239 | one row's counters change, nothing else |
| `Reconcilers.Store.ResetClientTraffic` | internal/db/clients.go:242-250 | one row's offsets become its totals, nothing else |
| `Reconcilers.Reconciler.SuspendDue` | internal/reconcile/reconciler.go:196-215 | the first suspension loop: rows and events afterwards |
| `Reconcilers.Reconciler.EmitPeerEdges` | internal/reconcile/reconciler.go:373-394 | a connect for each peer that came and a disconnect for each that went, in some order; the current set is recorded |
| `Reconcilers.Reconciler.SampleClients` | internal/reconcile/reconciler.go:396-472 | the sampling loop: counters, late suspension, kills, cache and samples |
| `Reconcilers.Reconciler.ApplyInstance` | internal/reconcile/reconciler.go:177-551 | applyInstance equals its function on values, with its events and its two error exits |
| `Reconcilers.Reconciler.RemoveOrphans` | internal/reconcile/reconciler.go:162-173 | exactly the running instances that are not stored are removed |
| `Reconcilers.Reconciler.RunOnce` | internal/reconcile/reconciler.go:145-175 | a pass equals the instances' turns in order, then the removal of orphans |
| `ClientRuns.AppliedStanding` | internal/reconcile/reconciler.go:196-467 | a client ends suspended if and only if it was, or failed the first or the late check; unsuspended ones are in good standing on stored counters |
| `ClientRuns.PassStanding` | internal/reconcile/reconciler.go:145-467 | after every pass each unsuspended client of a successfully applied server is unexpired and below quota on stored counters, and none was unsuspended |
| `ClientRuns.AppliedMeters` | internal/reconcile/reconciler.go:396-451 | a pass moves both counters of a client by exactly one sampling if it is connected and not at all otherwise |
| `ClientRuns.AppliedCache` | internal/reconcile/reconciler.go:447-467 | after sampling, the cached bytes are the effective bytes of the stored row, and offsets stay within the totals |
| `ClientRuns.EveryRunFits` | internal/db/clients.go:242-250 | in every run of passes, soft resets, manual suspensions, enrolments, session changes and restarts, 0 <= offset <= total for every row |
| `Convergence.PassConverges` | internal/reconcile/reconciler.go:145-175 | from any state a pass leaves up exactly the enabled instances that resolve and render, with current conf and binary; the processes of failing ones stay as they were; unstored ones are down |
| `Convergence.SettledTurns` | internal/ovpnbackend/mock.go:55-85 | a pass over settled instances starts no process and leaves every running one alone |
| `Convergence.SecondPassStartsNothing` | internal/reconcile/reconciler.go:145-175 | a second pass over the same instances starts nothing if processes and client rates are as the first left them |
| `Convergence.QuietRunStartsNothing` | internal/reconcile/reconciler.go:145-175 | after a pass, no process is started or changed by any sequence of further passes over the same instances, suspensions, soft resets, session changes and daemon restarts |
| `Convergence.DeedsKeepView` | internal/confgen/render.go:269-306 | suspending, soft-resetting, session changes and daemon restarts change no process and no rate, so they cause no restart |
| `Convergence.SameConf` | internal/confgen/render.go:269-306 | a conf depends on its clients through their rates only |
| `EdgeEvents.TurnMarks` | internal/reconcile/reconciler.go:373-546 | one turn logs exactly the edges between the recorded peers and up flag before and after it |
| `EdgeEvents.EveryRunAlternates` | internal/reconcile/reconciler.go:373-546 | in every run of one daemon process, connect and disconnect of a peer alternate starting with a connect, the last is a connect if and only if the peer is recorded, and up and down alternate; there are events of the peer if and only if some turn finds it connected, and of the instance if and only if its state differs between two turns |
| `EdgeEvents.RestartsAlternateExactly` | internal/reconcile/reconciler.go:63-84 | over every run of daemon processes the events of a peer alternate if and only if no turn of a process finds a peer connected that was recorded when an earlier process stopped |
| `EdgeEvents.RestartsRecordExactly` | internal/reconcile/reconciler.go:63-84 | over every such run they alternate and the last is a connect if and only if the peer is recorded, if and only if no process stopped while the peer was recorded |
| `EdgeEvents.RestartsRepeatExactly` | internal/reconcile/reconciler.go:538-546 | over every such run up and down events of an instance alternate if and only if each process that saw the instance change saw it first as the previous such process saw it last |
| `RestartExamples.AnnouncedTwice` | internal/reconcile/reconciler.go:373-394 | a run in which a peer that stays connected is announced twice |
| `RestartExamples.UpTwice` | internal/reconcile/reconciler.go:538-546 | a run in which an instance is reported up twice in a row |
| `Addresses.IpTextRoundTrip` | internal/netutil/ip.go:71-84 | printed addresses parse back |
| `Addresses.IpParsesExactly` | internal/netutil/ip.go:71-84 | a text parses as an address if and only if it is the printed form of that address |
| `Blocks.ContainsIsIn` | internal/instance/create.go:572-574 | membership by masking is membership in the address range |
| `Blocks.OverlapIsMeet` | internal/instance/create.go:572-574 | the two membership tests hold if and only if the address sets intersect (RFC 4632 section 3.1) |
| `Blocks.BlockFits` | internal/netutil/ip.go:134-141 | a block lies within the address space |
| `Blocks.CidrTextRoundTrip` | internal/netutil/ip.go:71-84 | printed CIDRs parse back to the same block |
| `Blocks.CidrParsesExactly` | internal/netutil/ip.go:71-84 | a text parses as a CIDR if and only if it is an address, '/' and a prefix up to 32, of that address and its masked block |
| `Netutil.IncIP` | internal/netutil/ip.go:125-132 | the carrying loop adds one modulo 2^32, in place |
| `Netutil.LastIPv4` | internal/netutil/ip.go:134-141 | setting the host bits byte by byte gives the last address of the block |
| `Netutil.AllocateNextHost` | internal/netutil/ip.go:87-123 | the byte-array search equals the search over addresses; unparsable networks are an error |
| `Netutil.NextHostIsLeast` | internal/netutil/ip.go:87-123 | for prefixes up to 30: the least unused address from network+2 to broadcast-1, and none if and only if all are used |
| `Netutil.AllocatedHostInPool` | internal/netutil/ip.go:87-123 | the returned host lies in the pool if and only if the prefix is at most 30 |
| `Netutil.PoolExhaustion` | internal/netutil/ip.go:87-123 | from an empty pool exactly 2^(32-p) - 3 allocations succeed, the i-th with network + 2 + i, and every later one fails |
| `Netutil.AllocatesLeast` | internal/netutil/ip.go:48-123 | on texts: for a parsing pool of prefix at most 30 the answer is the printed host, the least from network+2 to broadcast-1 that no used text names, with or without a prefix; no free host if and only if all are named |
| `Netutil.RunExhausts` | internal/netutil/ip.go:48-123 | allocating again and again, each answer added to the used texts, gives 2^(32-p) - 3 distinct hosts in order and then fails |
| `Networks.CheckNetworkOverlap` | internal/instance/create.go:555-570 | accepts exactly the parsable networks that clash with no parsable used one |
| `Networks.NextServerNetwork` | internal/instance/create.go:538-553 | the first of the 234 candidates free of clashes, or 10.200.0.0/24 |
| `Networks.CandidateTextIs` | internal/instance/create.go:538-553 | the candidates are the texts 10.n.0.0/24 |
| `Networks.PrepareNetwork` | internal/instance/create.go:208-223 | the chosen network, or the error of the failed check |
| `Networks.AutoNetworkExactly` | internal/instance/create.go:208-223 | an automatic request is granted if and only if some candidate clashes with no used network |
| `Networks.GrantedExactly` | internal/instance/create.go:208-223 | a network asked for by name is granted if and only if it is a CIDR of prefix 8 to 30 that shares no address with a used one; the error says which failed |
| `Networks.AutoGets` | internal/instance/create.go:538-553 | an automatic request gets 10.n.0.0/24 for the least of the numbers 8 to 11 and 20 to 249 whose network shares no address with a used one |
| `Networks.EveryRunDisjoint` | internal/instance/create.go:208-223 | after every run of creates the server networks are valid pools, pairwise disjoint as address sets |
| `Fields.SplitFields` | internal/confimport/parse.go:591-629 | the quote-state loop equals the recursive scan |
| `Fields.IndexUnquoted` | internal/confimport/parse.go:631-652 | the first unquoted occurrence, or -1 |
| `Fields.SplitUndoesQuotingExactly` | internal/confgen/render.go:92-96 | splitting the space-joined quoted form of any list of arguments gives the list back if and only if none is empty or has a backslash inside quotes |
| `Fields.SurvivesExactly` | internal/confgen/render.go:328-336 | one argument is read back if and only if it is not empty and has no backslash inside quotes |
| `Inline.ExtractInlineBlocks` | internal/confimport/inline.go:18-41 | the nested loops terminate and equal the extraction function |
| `Inline.NoBlockIsLeft` | internal/confimport/inline.go:18-41 | on any ASCII text no complete block of any listed tag remains |
| `Inline.NineNamesAreExtracted` | internal/confimport/inline.go:10-41 | only blocks of the nine names are taken out, and no complete block of any of them remains |
| `InlineRoundTrip.ExtractionUndoesWriting` | internal/confgen/profile.go:198-201 | from tag-free lines and written blocks with tag-free material, extraction returns per tag the trimmed material of its last block plus a line break, and the text with the blocks blanked |
| `ConfImport.Parse` | internal/confimport/parse.go:87-446 | the line loop equals its specification: settings, extra lines, role inference |
| `ConfImport.ParseLine` | internal/confimport/parse.go:108-388 | one line: trimming, comments, ignored words, fields and the directive switch |
| `ConfWhole.ImportIsSaid` | internal/confimport/parse.go:87-446 | what any text imports as, from the words of its lines: each setting is that of the last line that gives it, remotes, plugins, pushed routes and DNS servers come in order, extra directives are the kept push options and then the lines of no known name; it fails if and only if no line has a role and none is a remote |
| `ConfMarks.RoleIs` | internal/confimport/parse.go:133-405 | the role is that of the last `client`, `server` or `mode server` line, else that of the first `tls-server` or `tls-client`, else client exactly if there is a remote |
| `ConfMarks.RemotesAre` | internal/confimport/parse.go:212-233 | the remotes in order: host, port (1194 if absent or no number) and protocol |
| `ConfMarks.ProtoIs` | internal/confimport/parse.go:168-233 | the protocol is that of the last `proto` line, else that of the first remote that has one |
| `ConfPushed.PushIs` | internal/confimport/parse.go:500-561 | what one pushed option changes, from its words |
| `ConfWords.IgnoresExactly` | internal/confimport/parse.go:448-466 | a line is ignored if and only if it begins with one of 16 words (six of them alone or before a blank) or with `setenv opt` |
| `ConfWords.IgnoredIsOther` | internal/confimport/parse.go:448-466 | no line of a directive the import knows is ever ignored |
| `ConfAtoms.AtoiExactly` | internal/confimport/parse.go:173-178 | numbers are optionally signed digits within 64 bits |
| `ConfAtoms.NetmaskExactly` | internal/confimport/parse.go:468-493 | a network and netmask are a CIDR if and only if both are addresses and the mask is that of a prefix |
| `ConfAtoms.QuotedPayload` | internal/confimport/parse.go:563-589 | the payload of a push line in either kind of quotes is the text up to the last one; `OpenPayload`, `BarePayload`: without a closing quote, and without any |
| `ConfGen.Builder.WriteServer` | internal/confgen/render.go:338-414 | the lines renderServer writes, in order, or its error |
| `ConfGen.PluginText` | internal/confgen/render.go:88-97 | a plugin line with its arguments quoted in a loop |
| `ConfGen.Builder.PutRoutes` | internal/confgen/render.go:384-398 | the loop over push routes |
| `ConfGen.Render` | internal/confgen/render.go:79-309 | the conf text of a server, or the error for an unparsable network |
| `ConfGen.RenderClient` | internal/confgen/render.go:79-309 | the conf text of a client, or the error for a missing remote |
| `ConfGen.Builder.WriteClient` | internal/confgen/render.go:416-444 | the lines renderClient writes in order, with its loop over remotes, or its error |
| `ConfExtras.ServerRest` | internal/confgen/render.go:79-414 | exactly these lines of a server conf are kept by the import and exactly these ignored, in order |
| `ConfExtras.ClientRest` | internal/confgen/render.go:79-444 | exactly these lines of a client conf are kept by the import and exactly these ignored, in order |
| `ConfRoundTrip.NetworkRoundTrip` | internal/confimport/parse.go:468-493 | the netmask form of a network imports as its masked CIDR |
| `ConfRoundTrip.IgnoredExactly` | internal/confimport/parse.go:448-466 | a line is ignored if and only if its first word is in the list |
| `ConfRoundTrip.WordsRead` | internal/confimport/parse.go:108-388 | a rendered directive line is read as its words |
| `ConfRoundTrip.PluginRead` | internal/confgen/render.go:88-97 | a rendered plugin line is read as the plugin, its quoted arguments undone |
| `ConfRoundTrip.PushRead` | internal/confimport/parse.go:500-589 | a rendered push line is read as its option, whatever its text but double quotes and line breaks |
| `ConfSections.PushesTextRoute` | internal/confimport/parse.go:536-553 | what a pushed route that is no CIDR imports as: the CIDR of its network and netmask, else its first word if that has a '/', else its line is kept |
| `ConfSections.NetmaskRouteIs` | internal/confgen/render.go:384-398 | a route given as network and netmask comes back as their CIDR |
| `ConfExact.PluginReadExactly` | internal/confimport/parse.go:114-119 | a rendered plugin whose arguments survive quoting is read back if and only if no '#' in them is outside the quotes |
| `ConfExact.SettingReadExactly` | internal/confimport/parse.go:591-652 | the argument of a setting's line is read back if and only if it has no blank, quote or '#' and does not end in white space |
| `ConfResult.ImportUndoesRender` | internal/confimport/parse.go:87-446 | importing a rendered server conf gives back role, protocol, port, bind address, device, network, topology, key paths, ciphers, pushed routes as `ConfSections.ImportedRoute` says, DNS and domain in order, redirect flag, limits, plugins, and as extra directives the lines listed in `ConfExtras.ServerExtras`, if and only if the rendered text holds no complete inline block |
| `ConfClient.ImportUndoesClient` | internal/confimport/parse.go:87-446 | importing a rendered client conf gives back role, remotes in order with port and protocol, protocol, bind address, device, key paths, ciphers, buffers, plugins and the lines listed in `ConfExtras.ClientExtras`, if and only if the rendered text holds no complete inline block |
| `ConfClient.IntReadsExactly` | internal/confgen/render.go:429-441 | a rendered number is read back if and only if it fits 64 bits |
| `ConfAngles.AngleFreeIsUndone` | internal/confgen/render.go:79-309 | settings without '<' render to a text without inline blocks, so importing gives them back |
| `ConfResult.DeviceComesBackExactly` | internal/confimport/parse.go:184-200 | the whole conf comes back, device name included, if and only if its text holds no complete inline block and the device is not named just tun or tap |
| `Pki.Authority.NewCA` | internal/pki/pki.go:84-165 | a new CA starts its serial file at 2; an existing one is an error |
| `Pki.Authority.NextSerial` | internal/pki/pki.go:384-401 | returns the serial of the file, at least 2, and stores the next one |
| `Pki.Authority.IssueAndStore` | internal/api/handlers_pki.go:463-512 | a fresh serial and an unrevoked row for the identity; a signing failure uses up the serial |
| `Pki.Authority.FindCertificate` | internal/db/pki.go:190-223 | the row of a CA, kind and name, if any |
| `Pki.Authority.RebuildCRL` | internal/pki/crl.go:26-81 | a new list of the revoked rows under the next number |
| `Pki.Authority.RevokeCert` | internal/api/handlers_pki.go:319-357 | marks the row and rebuilds; a second revocation changes nothing |
| `Pki.Authority.RenewCert` | internal/api/handlers_pki.go:374-413 | re-issues the identity of a row; no list is rebuilt |
| `PkiRuns.RevokedIdsAre` | internal/db/pki.go:288-304 | exactly the revoked rows of the CA, each once, by revocation time and id |
| `PkiRuns.RebuildListsExactly` | internal/api/handlers_pki.go:415-461 | a rebuilt list holds an entry if and only if it is that of a revoked row with a positive serial |
| `PkiRuns.EveryRunIsSafe` | internal/api/handlers_pki.go:319-512 | over every run of create, issue, revoke, renew and rebuild: serials of a CA are distinct, increasing and not 1; list numbers strictly increase (RFC 5280 section 5.2.3); every revoked row is listed and no unrevoked one |
| `PkiRuns.DoKeepsSafe` | internal/api/handlers_pki.go:319-512 | each operation keeps these properties |
| `PkiRuns.ListedExactly` | internal/api/handlers_pki.go:374-461 | from the publication of a list until the next one of its CA, the list mentions exactly the serials of the revoked rows if and only if no successful issue or renewal since has hit a certificate revoked at that time |
| `PkiRuns.RenewDropsOldSerial` | internal/api/handlers_pki.go:391-410 | the old serial of a renewed, revoked certificate stays listed until the next rebuild, which drops it |
| `PkiRuns.LostFileExactly` | internal/pki/pki.go:384-390 | after the serial file is lost, the next serial repeats one if and only if any was handed out under that CA |
| `PkiRows.IssueWritesRow` | internal/api/handlers_pki.go:463-512 | a successful issue leaves one unrevoked row for the identity under a serial never handed out before, and changes no other row and no list |
| `PkiRows.RevokeRevokes` | internal/api/handlers_pki.go:319-357 | revoking marks exactly that row, with the time, and publishes a list of its CA that mentions its serial at that time |
| `PkiRows.RebuiltInOrder` | internal/pki/crl.go:26-81 | a rebuilt list has one entry for each revoked row of its CA, by revocation time and id, under the next number |
| `PkiRows.RevokedExactly` | internal/api/handlers_pki.go:319-413 | over every run a row is revoked if and only if some revocation hit it after the last successful issue or renewal of its identity |

## Left out

- ConfClient.ImportUndoesClient: takes fields without white space, quotes and '#', and plugins that come back, as `ConfResult.ImportUndoesRender` does.
- ConfResult.ImportUndoesRender: takes device types tun and tap as the API validates them, fields without white space, quotes and '#', plugins that come back, and push routes without double quotes and line breaks; `ConfExact.SettingReadExactly` and `ConfExact.PluginReadExactly` say exactly which fields and plugins come back.
- ShapingRuns.EveryRunAgrees: takes tc to work throughout; what one operation leaves when tc rejects commands is in `ShapingRuns.RemoveAgreesExactly` and the three "Exactly" lemmas of `RejectedSetup`.
- ShapingRuns.UnparsableAddressExactly: IPv6 addresses count as unparsable, while the original accepts them.
- Enforcers.Enforcer.Clear: does not model the removal of a device ceiling.
- Networks.EveryRunDisjoint: covers creates; updates of instances skip network validation.
- Traffic.LifetimeOverRuns: does not model the 64-bit wrap of byte counters, and speaks of one client with one live session at a time.
- MeterRuns.CountersOverRuns: takes the sessions of a client to show its true traffic whenever it is sampled, and traffic to move between passes, not within one.
- Passes.Render: renders the shaper line only; the rest of the conf is a text of the instance, rendered in `ConfGen`.
- Reconcilers.Reconciler.ApplyInstance: does not model instance totals, rates and the calls of the bandwidth enforcer.
- Reconcilers.Reconciler.RunOnce: does not model instance runtime rows and the shaping clean-up of removed instances.
- ConfImport.Parse: does not model warnings.
- ConfGen.Builder.WriteServer: does not model bridge mode.
- ConfGen.Render: does not model bridge mode, inline CA bundles and extra directives; neither does `ConfGen.RenderClient`.
- Pki.Authority.NewCA: takes the name of the CA as given, without sanitising it or falling back to the common name.
- Pki.Authority.IssueAndStore: a CA on disk without a row is an error, while the original imports it.
- ClientRuns.PassStanding: takes store writes to succeed.
- EdgeEvents.EveryRunAlternates: the branch for an unreachable management socket cannot occur with the in-memory backend, so an instance counts as up exactly when it is enabled and applied.
- IPv6 addresses and networks: treated as unparsable.
- Instance-level byte totals and rates, interface counters, PIDs stored on instance rows, traffic samples and the instance cache: the totals mix sources and carry no comparable law.
- Whole-device shaping (PlanDevice, SyncDevice): it shares class 1:10 with the first client, so the agreement does not hold beside it.
- The wiring of reconcile passes to the bandwidth enforcer, which is modelled on its own.
- CCD files, bridge mode, inline CA bundles, extra directives and the expansion and de-duplication of feature sets in rendering; import warnings and materialising inline blocks to files.
- Names and ports of new instances, name and protocol validators, webhooks, tokens, HTTP, the command line and the user interface.
- SQL, file system errors other than those named, processes, sockets, key generation, signatures and hashing.
- Deleting CAs, importing CAs from disk, a CA left empty in a request, CRL reason codes and the crl path of instances.
- Concurrency: operations run one at a time, as the locks of the original make them.
