# Verification of go-sccp

go-sccp implements SCCP, the Signalling Connection Control Part of Signalling System No. 7: a codec for its messages
and the procedures of an end node, without any I/O. This project models the three coupled cores of it in Dafny and
proves what they are for:

* **The wire codec** (`Fields`, `Address`, `Wire`, `Messages`, `Codec`, `Octets`). `Wire` defines the layout of a
  message, with its pointers, length indicators and optional part, once for all twenty message types.
  `Encoding.Encoder` appends to a buffer and back-patches its pointers, `Decoding.Decoder` follows pointers in any
  layout; both are proved against `Wire`, and `Codec` has the exact round trip and the layout independence. `Octets`
  says, by position, what each octet means, for whatever is sent or accepted.
* **Connectionless segmentation and reassembly** (`Sizes`, `References`, `Segmenting`, `Origination`, `Connectionless`,
  `Reception`, `Reassembly*`, `SegmentedDelivery`). `Reassembly` is the machine over values, one entry per key;
  `ReassemblyRuns`, `ReassemblyKeys` and `ReassemblyReturns` prove what holds over all runs of it, the last one exactly
  when and why a message is returned; `Reassemblers.Reassembler` is the class with process objects, four counters and
  timers, which refines it. `Reception` says what becomes of a received message in terms of its called address, and
  `Origination` which signalling links a history of requests uses.
* **The class 2 connection machine** (`Connections`, `Connection*`). `Connections` says what a message, a timer or a
  request does to one section, `ConnectionRuns` puts the sections of a node together, and the modules beside it prove
  properties of all runs: what the user sees, which timers run, that release ends and lost answers are repaired, that
  nothing has to be discarded because it cannot be sent, that N-DATA is a faithful queue. `ConnectionOffers`,
  `ConnectionLaws` and `ConnectionContents` say of each event, in its own terms, when a request is offered, when a
  connection ends and what its user is told, what is sent and from when timers run. `ConnectionPairs` and
  `ConnectionData` speak of two nodes over two runs, from set-up to release. `ConnectionStacks` is the class
  with section objects, six timer handles each, and counters, which refines it.

Underneath are the timer heap with its back-pointers (`Timers`) and the configuration that establishes what the
procedures assume (`Configuration`).

Time is a natural number that each call is given; it need not be monotone. What a step puts out (messages sent,
indications, discards) is a list, in order. `dafny verify dfyconfig.toml` checks the project.

Where code and comments could mislead, the model follows the code:

* `freezeConnection` leaves the state of the old section object as it is (connection_timers.go:15-22), so its guard is
  not what prevents a second decrement of `active`. What does is that no timer of the old object is left:
  `ConnectionStacks.ConnectionStack.TimersMatchStates`.
* A first segment is only checked for room (unitdata.go:722-755): a held first LUDT segment may exceed 3952 octets. The
  bound is on what has been assembled from two segments on, `Reassembly.InSequence`.
* `SegmentationThreshold` is documented to leave data of Z octets or less in one message unless it does not fit
  (stack.go:252-257); the code asks for less than Z (unitdata.go:128). `Segmenting.ThresholdMissed` has an input for
  which it matters and `Segmenting.ThresholdExact` the condition under which the promise holds.
* Some branches are never taken: the error for a segment that does not encode (unitdata.go:175-178) by
  `Segmenting.SegmentsFit`; the difference between the times that the list and the map of frozen segmentation references
  have (unitdata.go:312-319) by `References.SegmentationReferences.Valid`; and the default branch of
  `receiveEstablishedConnection` (connection_procedures.go:360-362), because CC, CREF and RLC were discarded before.

## Model

| member | source | states |
|---|---|---|
| Fields.Uint24RoundTrip | params/fields.go:301-307 | A 24-bit number survives its three octets; in which order they are is said by Octets.ParsedFixed and Octets.MarshalledFixed. |
| Fields.LeafRoundTrips | params/fields.go:24-226 | Every protocol class, local reference, importance and sequencing/segmenting value that the encoder accepts is decoded back to itself. |
| Fields.SegmentationRoundTrip | params/fields.go:262-294 | A segmentation parameter within its ranges survives encoding, its first-segment and in-sequence bits and its 24-bit reference included. |
| Fields.DecodedSegmentationEncodes | params/fields.go:284-294 | Whatever four octets are received as segmentation can be encoded again, so that a service message can carry it. |
| Address.TitleRoundTrip | params/address.go:397-449 | A valid global title of each of the four formats is read back from its header and information. |
| Address.IndicatorBits | params/address.go:75-117 | The address indicator says which elements follow, bit for bit, for every valid address. |
| Address.AddressRoundTrip | params/address.go:75-165 | A party address that the encoder accepts is decoded back to itself. |
| Address.DecodedAddressEncodes | params/address.go:130-165 | An address that was received can always be sent: decoding yields only addresses that the encoder accepts. |
| Address.EncodingInjective | params/address.go:75-117 | Two addresses with the same octets are the same address, so that the octets can key a reassembly. |
| BCD.Encode | params/address.go:483-511 | Succeeds exactly when every character is one of the sixteen address signals; signal i is in half i of the octets, with filler 0000 and the odd flag after an odd count. |
| BCD.Decode | params/address.go:516-533 | Fails exactly for no octets with an odd count; otherwise gives a character for each half-octet but the filler. |
| BCD.RoundTrip | params/address.go:483-533 | Decoding what was encoded gives the signals back, letters in upper case. |
| BCD.EncodingIdentifiesSignals | params/address.go:483-511 | Octets and parity identify the address signals up to letter case. |
| Wire.NumberRoundTrip | wire.go:67-118 | Octets hold an indicator or pointer of one or two octets, least significant first, exactly when that number is read from them. |
| Wire.VariableExact | wire.go:344-440 | A mandatory variable parameter is read as v exactly when its pointer designates, past the pointers and within the message, a length indicator and v. |
| Wire.OptionsExact | wire.go:443-479 | The optional part is read as a list of parameters exactly when they follow one another from there, up to an end octet or the end of the message. |
| Wire.ParseExact | wire.go:286-479 | Layout independence in both directions: octets decode to a frame if and only if there are offsets, in any order and with any gaps, overlaps or trailing octets, at which the pointers find its parts. |
| Wire.RenderRoundTrip | wire.go:31-265 | The canonical layout of every representable frame decodes to that frame, and its size is the sum of its parts. |
| Messages.CollectFound | wire.go:443-489 | Optional fields written in order are found by code, each with its contents, and an absent one is not found. |
| Messages.SortRaw | wire.go:236-255 | Unrecognised parameters come back unchanged and in order behind the recognised ones. |
| Messages.CRRoundTrip | connection_oriented.go:50-105 | The fields of a CR, with any of its five optional parameters, survive being put in their parts and read back. |
| Messages.CCRoundTrip | connection_oriented.go:139-190 | As for CR: class, references, credit, responding address, data and importance of a CC. |
| Messages.CREFRoundTrip | connection_oriented.go:221-266 | As for CR: cause, responding address, data and importance of a CREF. |
| Messages.RLSDRoundTrip | connection_oriented.go:297-342 | As for CR: references, cause, data and importance of an RLSD. |
| Messages.ITRoundTrip | connection_oriented.go:845-880 | References, class, sequencing/segmenting and credit of an IT survive. |
| Messages.DT1RoundTrip | connection_oriented.go:413-447 | Reference, M bit and data of a DT1 survive. |
| Messages.DT2RoundTrip | connection_oriented.go:471-502 | Reference, sequencing/segmenting and data of a DT2 survive. |
| Messages.AKRoundTrip | connection_oriented.go:527-560 | Reference, receive sequence number and credit of an AK survive. |
| Messages.ReferencesRoundTrip | connection_oriented.go:365-388 | RLC, and likewise RSC, EA and ED, whose parts are references and data, survive. |
| Messages.CauseRoundTrip | connection_oriented.go:675-816 | RSR and ERR, with their cause and unrecognised parameters, survive. |
| Messages.ExtendedRoundTrip | connectionless.go:174-451 | XUDT, XUDTS, LUDT and LUDTS survive: class or cause, hop counter, addresses, data, segmentation, importance and unrecognised parameters. |
| Messages.BasicRoundTrip | connectionless.go:42-139 | UDT and UDTS survive: class or cause, addresses and data. |
| Messages.FrameRoundTrip | sccp.go:24-30 | For each of the twenty message types, the values of every message that the encoder accepts survive being put in parts and read back. |
| Codec.AnyLayoutDecodes | wire.go:331-479 | Octets that carry the parts of a message anywhere its pointers can say decode to that message. |
| Codec.CodecRoundTrip | sccp.go:24-30 | For every message value that Marshal accepts, ParseMessage of its octets is that message; nil and empty byte slices are one value here. |
| Codec.EncodingInjective | sccp.go:140-161 | Distinct messages never share an encoding. |
| Codec.DecodesExactlyLayouts | sccp.go:168-221 | ParseMessage accepts exactly the layouts of a frame of the type that the first octet names, and yields what that frame means; every other input is rejected. |
| Encoding.Encoder.constructor | wire.go:31-33 | A new encoder: the caller's octets, the type code, nothing asked for yet. |
| Encoding.Encoder.Pointers | wire.go:67-80 | Reserves the pointers as zero octets, the last for the optional part when there can be one; what is in the buffer stays the beginning of the canonical layout. |
| Encoding.Encoder.Point | wire.go:82-98 | Back-patches pointer i with the distance from its most significant octet to the end of the buffer, or changes nothing and reports failure when the pointer cannot say it. |
| Encoding.Encoder.Variable | wire.go:120-128 | A mandatory variable parameter goes behind its length indicator and its pointer is set; contents too long, or too far for the pointer, refuse the message. |
| Encoding.Encoder.LongData | wire.go:186-202 | As Variable with a two-octet length indicator, least significant octet first. |
| Encoding.Encoder.Optional | wire.go:204-220 | An optional parameter goes at the end; the first one sets the pointer to the optional part, the others do not. |
| Encoding.Encoder.Raws | wire.go:236-255 | Unrecognised parameters are appended in order; one with a recognised or the reserved code, or too long, refuses the message. |
| Encoding.Encoder.Finish | wire.go:257-265 | Whatever sequence of calls led here, the result is the caller's octets and the canonical layout of what was asked for, end octet only with an optional part; it fails exactly when a value was refused or does not fit. |
| Append.AppendCR | connection_oriented.go:50-72 | Driving the encoder step by step for a CR yields the caller's octets and the canonical layout of the message, or a refusal exactly when the message has none. |
| Append.AppendCC | connection_oriented.go:139-158 | Driving the encoder step by step for a CC yields the caller's octets and the canonical layout of the message, or a refusal exactly when the message has none. |
| Append.AppendCREF | connection_oriented.go:221-236 | Driving the encoder step by step for a CREF yields the caller's octets and the canonical layout of the message, or a refusal exactly when the message has none. |
| Append.AppendRLSD | connection_oriented.go:297-310 | Driving the encoder step by step for an RLSD yields the caller's octets and the canonical layout of the message, or a refusal exactly when the message has none. |
| Append.AppendRLC | connection_oriented.go:365-371 | Driving the encoder step by step for an RLC yields the caller's octets and the canonical layout of the message, or a refusal exactly when the message has none. |
| Append.AppendDT1 | connection_oriented.go:413-422 | Driving the encoder step by step for a DT1 yields the caller's octets and the canonical layout of the message, or a refusal exactly when the message has none. |
| Append.AppendDT2 | connection_oriented.go:471-479 | Driving the encoder step by step for a DT2 yields the caller's octets and the canonical layout of the message, or a refusal exactly when the message has none. |
| Append.AppendAK | connection_oriented.go:527-538 | Driving the encoder step by step for an AK yields the caller's octets and the canonical layout of the message, or a refusal exactly when the message has none. |
| Append.AppendED | connection_oriented.go:583-590 | Driving the encoder step by step for an ED yields the caller's octets and the canonical layout of the message, or a refusal exactly when the message has none. |
| Append.AppendEA | connection_oriented.go:631-636 | Driving the encoder step by step for an EA yields the caller's octets and the canonical layout of the message, or a refusal exactly when the message has none. |
| Append.AppendRSR | connection_oriented.go:675-684 | Driving the encoder step by step for an RSR yields the caller's octets and the canonical layout of the message, or a refusal exactly when the message has none. |
| Append.AppendRSC | connection_oriented.go:735-741 | Driving the encoder step by step for an RSC yields the caller's octets and the canonical layout of the message, or a refusal exactly when the message has none. |
| Append.AppendERR | connection_oriented.go:783-791 | Driving the encoder step by step for an ERR yields the caller's octets and the canonical layout of the message, or a refusal exactly when the message has none. |
| Append.AppendIT | connection_oriented.go:845-854 | Driving the encoder step by step for an IT yields the caller's octets and the canonical layout of the message, or a refusal exactly when the message has none. |
| Append.AppendUDT | connectionless.go:42-51 | Driving the encoder step by step for a UDT yields the caller's octets and the canonical layout of the message, or a refusal exactly when the message has none. |
| Append.AppendUDTS | connectionless.go:102-111 | Driving the encoder step by step for a UDTS yields the caller's octets and the canonical layout of the message, or a refusal exactly when the message has none. |
| Append.AppendXUDT | connectionless.go:174-186 | Driving the encoder step by step for an XUDT yields the caller's octets and the canonical layout of the message, or a refusal exactly when the message has none. |
| Append.AppendXUDTS | connectionless.go:250-261 | Driving the encoder step by step for an XUDTS yields the caller's octets and the canonical layout of the message, or a refusal exactly when the message has none. |
| Append.AppendLUDT | connectionless.go:330-342 | Driving the encoder step by step for an LUDT yields the caller's octets and the canonical layout of the message, or a refusal exactly when the message has none. |
| Append.AppendLUDTS | connectionless.go:406-417 | Driving the encoder step by step for an LUDTS yields the caller's octets and the canonical layout of the message, or a refusal exactly when the message has none. |
| Append.MarshalAppend | sccp.go:145-161 | The caller's octets and the encoding of the message, exactly when the message alone is within the limit and has one; a refusal leaves the caller's octets as they were. What the encoding puts at which octet is said by Octets.MarshalledFixed and Octets.MarshalledParameters. |
| Decoding.Decoder.Fixed | wire.go:310-318 | The next n octets, or a refusal that leaves the offset alone when fewer are left. |
| Decoding.Decoder.Pointers | wire.go:332-342 | Succeeds exactly when the pointers lie within the message, so that every later read of one is in bounds. |
| Decoding.Decoder.Target | wire.go:344-363 | The offset a pointer designates: absent for zero, refused inside the pointers or past the end; two-octet pointers least significant octet first. |
| Decoding.Decoder.Variable | wire.go:381-440 | A mandatory variable parameter, with a one-octet or two-octet length indicator, or a refusal when pointer, indicator or contents leave the message. |
| Decoding.Decoder.OptionalFrom | wire.go:443-479 | The loop over the optional part: recognised parameters by code, each at most once, the others in order; a truncated parameter or a repeated recognised one is refused. |
| Decoding.Unmarshal | connectionless.go:53-77 | UnmarshalBinary of every message type: fixed part, pointers, variable parameters and optional part, read to the message that the layout means, or refused. |
| Decoding.Parse | sccp.go:168-221 | The first octet selects the message type; empty input, unknown types and malformed messages are refused; what is accepted is read as Octets.ParsedFixed, Octets.ParsedVariables and Octets.ParsedOptional say. |
| Octets.ParsedFixed | params/fields.go:24-307 | What a received message says, by position: the type code of its kind at octet 0; a destination reference is octet 1 plus 256 times octet 2 plus 65536 times octet 3, a source the same sum from octet 4, or 1 in a CR; class, cause, M bit, sequence numbers, credit and hop counter at the octets of each kind. |
| Octets.MarshalledFixed | sccp.go:140-161 | For every message that Marshal accepts, its octets say the same in the same places, at most as many as the limit, and bits that a receiver does not look at are 0. |
| Octets.ParsedVariables | wire.go:344-440 | Called address, calling address and data of each kind are the contents, behind a length indicator, that the pointers at its octets designate; two-octet pointers and the long data length have the less significant octet first. |
| Octets.ParsedOptional | wire.go:443-489 | The last pointer designates a list of code, length and contents; credit is 0x09, an address 0x03 or 0x04, data 0x0f, segmentation 0x10, hop counter 0x11 and importance 0x12, and a field is absent exactly when its code is not in the list. |
| Octets.MarshalledParameters | wire.go:120-265 | For every message that Marshal accepts the parameters lie in its octets as they would be read there. |
| Octets.SegmentationRead | params/fields.go:284-294 | Four octets are read as a segmentation if and only if bit 8 of the first is F, bit 7 is C, bits 1-4 are the remaining segments, and the others are the reference, least significant first. |
| Octets.SegmentationWritten | params/fields.go:262-280 | A segmentation is written as those octets, its two spare bits 0. |
| Octets.AddressRead | params/address.go:130-165 | Octets are read as an address if and only if bit 1 of the indicator announces the point code, low octet first in 14 bits, bit 2 the SSN, bits 3-6 the format of the global title, bit 7 is routing on SSN and bit 8 national use, and the title has the octets of its format. |
| Octets.AddressWritten | params/address.go:75-117 | A valid address is written as those octets, the two spare bits of the point code 0. |
| Timers.RootIsEarliest | stack.go:618-649 | The first timer of an ordered heap has the earliest deadline of all. |
| Timers.TimerQueue.Swap | stack.go:631-634 | Two timers change places and each is told its new position; nothing else changes. |
| Timers.TimerQueue.Up | stack.go:636-662 | Sifting up restores the heap order and keeps the running timers and every back-pointer. |
| Timers.TimerQueue.Down | stack.go:642-677 | Sifting down restores the heap order, or moves nothing and leaves a heap that only needs sifting up. |
| Timers.TimerQueue.Push | stack.go:636-640 | A timer joins the running ones; heap order and back-pointers hold. |
| Timers.TimerQueue.Pop | stack.go:642-649 | The timer taken out is an earliest one, its index becomes -1, and no other timer stops. |
| Timers.TimerQueue.Remove | stack.go:665-670 | Exactly the timer at that position stops running; heap order and back-pointers hold. |
| Timers.TimerQueue.Schedule | stack.go:652-662 | A fresh timer with that deadline and action runs, and all others go on. |
| Timers.TimerQueue.Stop | stack.go:665-670 | A stopped timer no longer runs, so it never fires; stopping none or a stopped one changes nothing. |
| Timers.TimerQueue.RunningByIndex | stack.go:618-649 | A timer is in the heap exactly when its index is not -1. |
| References.SearchComplete | connection.go:305-328 | One candidate more than there are references in use is enough, with wraparound: the search succeeds exactly when some reference is free. |
| References.CandidateExact | connection.go:305-328 | A reference is found if and only if capacity remains and one is free; it is never the reserved one, one in use or one frozen. |
| References.CandidateReference | connection.go:305-328 | The loop that looks for a reference ends and gives the first free one from where the last registration left off. |
| References.CandidateFirst | connection.go:305-328 | The reference found is the first one free, cyclically, from where the last registration left off; every one passed over is in use or frozen. |
| References.AllocatedExact | unitdata.go:310-335 | A segmentation reference is given out if and only if not all 2^24 are frozen, and it is never a frozen one. |
| References.AllocatedFirst | unitdata.go:310-335 | It is the first from next on that is not frozen; the search goes on behind it, wrapping at 2^24; it joins the end of the list, frozen for the configured time; and exactly the front of the list whose freeze has ended is gone. |
| References.SegmentationReferences.Allocate | unitdata.go:310-335 | The map of frozen references and the list that orders them stay in bijection; the reference given out is frozen for the configured time. |
| References.SegmentationReferences.Thaw | unitdata.go:312-319 | Exactly the front of the list whose freeze has ended leaves the list and the map. |
| References.ReusedAfterFreeze | unitdata.go:310-335 | Over any run of allocations with any clock, a reference is given out twice only if an allocation in between, or the second one, came when the freeze of the first use had ended. |
| Configuration.InitConnections | connection.go:263-302 | Accepted exactly when no timer or limit is negative and T(iar) exceeds T(ias) with defaults in; zero then means the default of Annex C.4 of ITU-T Q.714 (05/01). |
| Configuration.NewStack | stack.go:343-393 | Accepted exactly when the configuration is in range; every setting of the result is the one given or its default; and every assumption that the procedures make of them holds: sizes of 11 to 4091 octets, hop counter from 1, positive timers. |
| Sizes.SmallerFits | unitdata.go:194-228 | A frame no larger part by part than one that fits also fits, in no more octets. |
| Sizes.EncodedSize | wire.go:257-265 | The size of an encoding depends on the lengths of its parts only. |
| Sizes.ShorterFits | unitdata.go:537-567 | Fitting is downward closed in the length of the user data, for XUDT, UDTS, XUDTS and LUDTS alike. |
| Sizes.SameLengthFits | unitdata.go:202-228 | Only the length of the user data decides whether a message fits, which is why zeros can stand for it in the search. |
| Sizes.SegmentFits | unitdata.go:202-228 | A segment whose data is no longer than the probe's fits when the probe does, whatever its reference and remaining count. |
| Segmenting.SegmentCapacity | unitdata.go:202-228 | The binary search returns the greatest data length a segment of the request can carry, 0 when none fits. |
| Segmenting.CapacityExact | unitdata.go:202-228 | That capacity is the true maximum: it fits and nothing longer does. |
| Segmenting.SplitSegments | unitdata.go:232-245 | The data is cut into n chunks, the longer ones first. |
| Segmenting.ChunksJoin | unitdata.go:232-245 | The chunks joined are the data: nothing lost, repeated or reordered. |
| Segmenting.ChunkSizes | unitdata.go:232-245 | Chunks differ by one octet at most, none is longer than the capacity or the first one, and none is empty. |
| Segmenting.SegmentsFit | unitdata.go:151-182 | Once the number of segments is decided every one of them encodes: the error for a segment that does not is unreachable. |
| Segmenting.WholeFits | unitdata.go:121-150 | When a request goes whole its single message encodes, whichever of the two ways it came to go whole. |
| Segmenting.DecidePlan | unitdata.go:126-153 | The decisions of the code, in their order, make the plan that PlanExact characterises. |
| Segmenting.PlanExact | unitdata.go:126-153 | What does not go whole goes in the least number of segments, from 2 to 16, into which the data splits with none longer than the size allowed; one means whole again, and it is refused only when no number up to 16 does. |
| Segmenting.UnsendableExact | unitdata.go:136-146 | A request is refused as unsendable if and only if it neither goes whole nor splits into 16 segments or fewer. |
| Segmenting.LongerSegmentFails | unitdata.go:202-228 | A segment longer than the capacity does not encode, whatever its place and reference. |
| Segmenting.FewestSegments | unitdata.go:126-153 | Fewer segments than are sent, or any number up to 16 when the request is refused, would not do: the first one would exceed the threshold or not encode; and without a threshold the single message would not encode either. |
| Segmenting.ThresholdExact | stack.go:252-257 | Data of Z octets or less that fits one message goes whole, as documented, exactly when it is shorter than Z or also fits a segment. |
| Segmenting.AboveThreshold | stack.go:252-257 | Data longer than Z octets never goes in one message. |
| Segmenting.ThresholdMissed | unitdata.go:126-134 | The documented promise fails for 250 octets at Z = 250 between addresses with a subsystem number only and 268 octets of message: the UDT of 262 octets fits, and two segments go out. |
| Segmenting.Originator.Unitdata | unitdata.go:78-182 | An N-UNITDATA request: a refusal changes nothing; it fails exactly when it does not divide or every segmentation reference is frozen. Every message goes from this node to the DPC of the request or else the called point code, on the link of the sequence control modulo 16 in class 1 and the next in rotation in class 0. What goes out is one message or the n segments of one reference, each within the size limit. |
| Segmenting.RefusalExact | unitdata.go:78-112 | A request is refused exactly when its class is above 1, its data is empty or over 3952 octets, an address is not one that may be sent, the importance is above 7, or no destination point code is given; only the length is a segmentation failure. |
| Origination.TransfersSay | unitdata.go:151-199 | What goes out: a UDT, or an XUDT when the node uses them or an importance is asked for; or segments of class 1 of which the first alone asks for a return, with their chunk of the data, one reference and the count down to 0; the importance at most 6. |
| Origination.OneLabel | unitdata.go:114-182 | In every history of requests all messages of one request have one label, from this node to where the request goes. |
| Origination.SequenceKeepsLink | stack.go:606-616 | In-sequence delivery over every history: two class 1 requests to one node have equal labels if and only if their sequence controls agree modulo 16, whatever is requested between them. |
| Origination.LinksAdvance | stack.go:606-616 | The rotation moves by the number of accepted class 0 requests, and by nothing else. |
| Origination.RotationShares | stack.go:606-616 | Two class 0 requests use one link if and only if the class 0 requests accepted from the first to before the second are a multiple of 16. |
| Origination.SixteenLinks | stack.go:606-616 | Any 16 consecutive class 0 requests use 16 different links. |
| Connectionless.DeliveredWhere | unitdata.go:378-408 | A message is delivered exactly to the non-zero subsystem its called address names, when it routes on SSN or its global title is local with hops left. |
| Connectionless.HandleUnitdata | unitdata.go:423-467 | A received UDT, XUDT or LUDT leads to the outputs and the reassembly table of the machine over values; when it delivers, returns or discards is said by Reception.HandledExactly. |
| Connectionless.FitLongest | unitdata.go:537-567 | What is returned is the longest part of the data that fits; nothing is returned only when not one octet fits. |
| Connectionless.FitReturn | unitdata.go:537-567 | The binary search finds that part, and the octets returned are the encoding of the message with it. |
| Connectionless.ReturnMessage | unitdata.go:498-533 | The service message goes from the node that received the message to the point code of a calling address routed on SSN, or else to where the message came from, on the same link and network; an LUDT that no LUDTS can answer is answered by an XUDTS. |
| Connectionless.AnswerSwaps | unitdata.go:498-533 | A service message swaps called and calling, keeps segmentation and cause, has a fresh hop counter and nothing else, carries a non-empty prefix of the data, and fits. |
| Connectionless.AnswerLongest | unitdata.go:537-567 | No longer prefix of the data would fit the same service message. |
| Reception.RouteExact | unitdata.go:378-408 | What is decided about a called address, in terms of the address alone; delivery, each return cause and discard exclude one another. |
| Reception.HandledExactly | unitdata.go:423-488 | A message that is not one of many is delivered, with all its fields, exactly when well formed and deliverable; returned with its cause exactly when it fails and asks for it; discarded otherwise; maintenance hears exactly of an expired hop counter. One of many goes to reassembly, the failure of its subsystem with it. |
| ReassemblyRuns.StepKeepsGood | unitdata.go:674-894 | Every segment and every timeout keeps each live entry a proper beginning of one message and all four counts within their bounds. |
| ReassemblyRuns.ReachableIsGood | unitdata.go:674-894 | So in every state that any run of segments and timeouts reaches. |
| ReassemblyRuns.StepReturns | unitdata.go:835-861 | A service message comes only with an entry that has just become a failed one, at most one per step; a record that does not end returns nothing and does not change. |
| ReassemblyRuns.ReturnedOnce | unitdata.go:684-875 | Only one service message per failed message: between two returns for one key its record ended, at least T(reassembly) after the first return or at a first segment with another hash. It holds for any hash function. |
| ReassemblyRuns.NoRecordNoReturn | unitdata.go:835-848 | With no orphan record left, a message without a process is discarded and not returned. |
| ReassemblyReturns.OutcomeIs | unitdata.go:674-861 | The exact outcome of every segment and timeout for its key, and no change to any other: the new entry with its deadline, and which service message with which cause, said of the segments held and the one received. |
| ReassemblyReturns.FailedIsReturned | unitdata.go:835-861 | In every run, when the message of a key fails, it is returned if and only if one of its segments asked, the one received included: the first segment of a process, and the segment received with no process or at a collision, with the cause 8, 6, 3 or 4 of what failed. When none fails nothing is returned. |
| ReassemblyReturns.AskedExact | unitdata.go:766 | The return option that a process keeps is set exactly when one of its segments has it. |
| ReassemblyReturns.KeyExact | unitdata.go:616-625 | Two segments belong to one message exactly when routing label, calling address and segmentation reference agree. |
| ReassemblyRuns.LiveArrived | unitdata.go:674-825 | What a process holds are segments that arrived, in order, each used once. |
| ReassemblyRuns.DeliveredArrived | unitdata.go:756-823 | A delivered message consists of segments that arrived for its key, in sequence, all that the first announced, each once, the last one just now. |
| ReassemblyRuns.ExpiryConfluent | stack.go:673-677 | Whatever order equal deadlines fire in, expiry leaves the same reassembly table. |
| ReassemblyRuns.ExpiryExact | stack.go:673-677 | Expiry fires each due reassembly timer once, in order of deadlines, and no other; what timers start is not due. |
| ReassemblyRuns.TwoExpiriesDrain | unitdata.go:854-876 | Without input two expiries T(reassembly) apart empty the table: no process, no record, no octet is left. |
| ReassemblyRuns.ExpiryFreesOctets | unitdata.go:854-861 | The first of them already gives all user data back. |
| ReassemblyKeys.StepIsAlone | unitdata.go:616-825 | One step of the shared table is one step of its key alone and changes no other key. |
| ReassemblyKeys.KeysIndependent | unitdata.go:616-825 | In any interleaving of many messages in which the shared bounds never bind, each key has exactly the entry and the outputs of its own events run alone. |
| ReassemblyKeys.FedInOrderIsDelivered | unitdata.go:684-823 | A whole message fed in order to an idle key with room is delivered once, at its last segment; no check on sequence, bound or 3952 octets rejects, and the table is as before. |
| Reassemblers.Process.Started | unitdata.go:729-745 | A process started by a first segment: its expected count, bound, data and return option. |
| Reassemblers.Process.Become | unitdata.go:858 | A failed process turns in place into the record of its message and holds no data. |
| Reassemblers.Reassembler.constructor | stack.go:376-388 | An empty reassembly: no entries, counters zero. |
| Reassemblers.Reassembler.Hold | unitdata.go:887-894 | Total and per-peer octets change together; a peer at zero leaves the map. |
| Reassemblers.Reassembler.EndReassembly | unitdata.go:863-876 | The entry goes with its slot or record, octets and timer; for a process that is no longer in the table nothing happens. |
| Reassemblers.Reassembler.FailReassembly | unitdata.go:854-861 | The first segment is returned as the flags say, the data is given back, the slot kept, and the new timer ends the record. Which flags return what: ReassemblyReturns.FailedIsReturned. |
| Reassemblers.Reassembler.RejectSegment | unitdata.go:835-848 | A segment of a message without a process is returned and recorded, or only discarded when no record is left. When it is returned: ReassemblyReturns.OutcomeIs. |
| Reassemblers.Reassembler.StartProcess | unitdata.go:709-765 | A first segment with room starts a process; without room, or a later segment, is rejected. |
| Reassemblers.Reassembler.ContinueProcess | unitdata.go:709-823 | The next segment is added, completes the message, or fails the process, check by check in order. |
| Reassemblers.Reassembler.CollideProcess | unitdata.go:697-708 | A first segment for a busy reference ends the old process and rejects the new message. |
| Reassemblers.Reassembler.Reassemble | unitdata.go:674-825 | One segment takes the real counters, map, process objects and timers from one consistent state to the next, as the machine over values says, whose outcome ReassemblyReturns.OutcomeIs gives in terms of the segments. |
| Reassemblers.Reassembler.FireEarliest | stack.go:673-677 | The earliest timer leaves the heap before it acts, and fewer timers are due afterwards. |
| Reassemblers.Reassembler.Expire | stack.go:673-677 | The loop ends; every due reassembly timer has fired, none is due, and the table is what expiry makes of it in any order. |
| Reassemblers.Reassembler.TimersMatchEntries | unitdata.go:684-876 | Every entry has exactly one running timer with its deadline and action, and no timer of an ended process runs. |
| SegmentedDelivery.SegmentedIsDelivered | unitdata.go:136-182 | Segments of a request, encoded, carried, decoded and handled in order: nothing until the last, then one indication with the original data, class, return option and number of segments. |
| SegmentedDelivery.RequestIsDelivered | unitdata.go:78-182 | Whatever goes out for an accepted request, whole or segmented, comes out at the addressed subsystem as one indication of what was requested. |
| Connections.AllSent | connection.go:454-466 | All DT1 messages of an NSDU go out on the label of the section, in order. |
| ConnectionRuns.GrownBounds | connection_procedures.go:366-391 | The buffer grows to at least what is needed, at most the maximum data length, and by no more than the budget leaves; None only when the octets themselves do not fit. |
| ConnectionRuns.RefusedExactly | connection_procedures.go:366-391 | A DT1 is refused for room exactly when its exact length would not fit. |
| ConnectionRuns.StepKeepsGood | connection_procedures.go:48-396 | Every message, timeout and request keeps the bounds on sections, buffers and references. |
| ConnectionRuns.ReachableIsGood | connection.go:305-342 | In every run: sections in use at most MaxConnections, held octets the sum of the capacities and at most MaxReassemblyOctets, each capacity at most MaxDataLength, no reference the reserved one. |
| ConnectionRuns.TimersOfStates | connection_timers.go:15-135 | In every reachable state: c2 runs no timer, c3 T(conn est), c4 exactly T(ias) and T(iar), c6 T(rel) alone or T(int) with at most one repetition due strictly before it. |
| ConnectionRuns.ReleaseGivesBack | connection_procedures.go:393-396 | The step that takes a section out of data transfer lowers the octets held by its whole capacity. |
| ConnectionUsers.UserSeesGrammar | connection_procedures.go:231-363 | In every run and for every lifetime of every reference the user has seen a prefix of Connect Data* Disconnect? or (Confirm Data*)? Disconnect?, in step with the state of the section. |
| ConnectionUsers.QuietStays | connection_procedures.go:231-283 | Once the user asked for the end or was told of it, it is shown nothing more until the reference is free. |
| ConnectionUsers.SilentAfterDisconnect | connection.go:481-515 | Nothing but a maintenance indication follows an accepted disconnect, the one deferred in c3 included. |
| ConnectionUsers.EndIsTold | connection_procedures.go:231-363 | In every run, at the event at which a connection ends for its user, in c2, c3 or c4, the user is told of the end, once and of nothing else, unless the event is its own N-DISCONNECT. |
| ConnectionLaws.EndsExactly | connection_procedures.go:107-363 | An open connection ends, other than at its user's N-DISCONNECT, exactly so: in c3 when T(conn est) expires or any message for it comes but a CC of class 2; in c4 when T(iar) expires or its peer sends an RLSD, an ERR, a DT1 that does not fit or an IT with other data; in c2 at such an IT. The originator, cause, address and data that the user is then told, the RLSD or RLC that the peer is sent, and the state and timer left are those of that event. |
| ConnectionRelease.ReleaseTimer | connection_timers.go:104-135 | A release timer repeats the very RLSD that began the release, to the same node, or gives up at T(int); each repetition uses up one of those left. |
| ConnectionRelease.RepetitionsCount | connection_timers.go:125-135 | The number of repetitions left is the number of k >= 1 with k T(repeat rel) less than the time to the end of T(int). |
| ConnectionRelease.ReleaseIsBounded | connection_timers.go:104-135 | Timers send the RLSD once for T(rel) and at most once for each k >= 1 with k T(repeat rel) < T(int), always with the original cause and data. |
| ConnectionRelease.ReleaseEnds | connection_timers.go:104-124 | A section still in c6 with none of its timers due is before the end of T(int) from the first T(rel) expiry: once the timers due then have run, it is frozen. |
| ConnectionRelease.ReleaseRefuses | connection.go:481-515 | A section being released refuses every request and is unchanged by it. |
| ConnectionPeers.ReleaseIsAnswered | connection_procedures.go:84-104 | Any copy of an RLSD that arrives while the peer's reference is established, frozen or unassigned is answered by an RLC with the references swapped, to the node it came from. |
| ConnectionPeers.AnswerCompletes | connection_procedures.go:107-147 | That RLC passes the initiator's point code and source reference checks and freezes its section. |
| ConnectionPeers.ReleaseCompletes | connection_procedures.go:258-261 | One RLSD and one RLC that are not lost complete a release, whatever happened before, at a peer that has the other end or none. |
| ConnectionPeers.CrossedEnds | connection_procedures.go:258-261 | When two releases cross, each freezes the other side without an answer, and the other side is then a peer that answers repetitions. |
| ConnectionPeers.RepetitionRepairs | connection_timers.go:104-135 | A lost RLC is repaired by the repetition: the RLSD goes out again, is answered, and the answer completes the release. |
| ConnectionPairs.StepFollows | connection_procedures.go:231-363 | No event changes the peer of a section that has one: its remote reference and the label to its node stay until it is frozen. |
| ConnectionPairs.PeerStays | connection_procedures.go:231-363 | The same over every run in which the reference is not given out again. |
| ConnectionPairs.ConnectionIsPaired | connection_procedures.go:150-202 | Set-up over two runs, from the CR of Connect to the arrival of the CC of Accept, anything else in between: both ends are in data transfer and hold the reference of the other, and their messages go to the node of the other if and only if the calling address names no other node than the one that called. |
| ConnectionPairs.FacesPeer | connection_procedures.go:84-126 | An end that releases faces a peer that is free, frozen, in data transfer with it or releasing as well, in every pair of runs from set-up on, until the peer uses its reference again. |
| ConnectionPairs.ReleaseOfPairCompletes | connection_timers.go:104-135 | So the release of a paired end completes, pairing derived and not assumed: a first RLSD ends the part of a peer that releases too, and the RLSD that the next timer repeats is sent, answered and its answer freezes the section. |
| ConnectionSending.ShortMessagesFit | stack.go:195-198 | The messages without user data that the procedures send fit a maximum message size of 11 octets, for all references below the reserved one. |
| ConnectionSending.ReleaseFits | connection.go:504-511 | Whether an RLSD can be sent does not depend on its references: what was validated when a disconnect was deferred in c3 still holds after the CC. |
| ConnectionSending.RequestFits | connection.go:376-390 | Nor does whether a CR can be sent: the one that was validated with reference 0 encodes with the reference it gets. |
| ConnectionSending.ConnectExact | connection.go:350-403 | A connection request succeeds if and only if it is in order, capacity remains and a reference is free. |
| ConnectionSending.RunReady | connection.go:504-511 | In every run a deferred disconnect and a release in progress remain sendable. |
| ConnectionSending.NothingUndeliverable | connection_timers.go:85-98 | With a maximum message size of at least 11 no step of any run discards a message because it cannot be sent. |
| ConnectionOffers.OfferedExactly | connection_procedures.go:150-228 | A CR is offered, under a reference that was free, exactly when its class is 2 or 3, its source is not reserved, its called address names a subsystem here that is available, connections are fewer than the maximum and a reference is free. It is discarded when improper or incomplete, and otherwise answered by a CREF to its sender with the cause of the first condition that fails. |
| ConnectionContents.ConnectableExact | connection.go:350-390 | A connection request is in order exactly when it names a node, its called address may be sent, its importance is at most 7 and the CR that says it fits. |
| ConnectionContents.ConnectSays | connection.go:350-403 | A connection request that succeeds sends one CR of class 2 with the addresses, data and importance asked for and the hop counter of a global title, to the node named, on the next link in rotation; T(conn est) runs. |
| ConnectionContents.AcceptSays | connection.go:412-432 | A response that succeeds is for a section in c2 and sends one CC of class 2, with both references and the address, data and importance of the user, to the peer. |
| ConnectionContents.DisconnectSays | connection.go:481-515 | A disconnect that succeeds: in c2 a CREF and the freeze, in c4 an RLSD and T(rel), with the cause, data and importance of the user; in c3 the request is kept and nothing is sent. |
| ConnectionContents.RequestErrors | connection.go:405-515 | A response, data or disconnect request fails for want of a connection exactly when there is none or it is frozen, and for its state exactly in the other states; with an error nothing changes and nothing is sent. |
| ConnectionContents.ConfirmSays | connection_procedures.go:286-319 | A CC of class 2 that is waited for establishes the connection with the reference and node of the CC and an empty buffer, and the user is told its address and data. |
| ConnectionContents.ReleaseExactly | connection_timers.go:104-135 | A deferred disconnect goes out when the CC comes, with the cause, data and importance of the user. A release ends exactly at the RLSD, RLC or ERR of the peer or the expiry of T(int), which maintenance is told of; until then T(rel) and the repetition send the same RLSD. A frozen reference is free exactly when its freeze ends. |
| ConnectionContents.TimersRun | connection_timers.go:30-135 | Every deadline of every section after every event: each timer runs for its own configured time from the event that starts it, T(ias) from an IT or NSDU sent and T(iar) from a message of the peer, and no other event moves it. |
| ConnectionContents.InactivitySays | connection_timers.go:51-70 | When T(ias) runs out, one IT of class 2 with both references and nothing in its other fields goes to the peer. |
| ConnectionContents.MismatchSays | connection_procedures.go:107-147 | A message for a reference that no section has, or from another node than the peer, changes no section and is answered as Table B.2 of ITU-T Q.714 (05/01) says: without a section an RLSD by an RLC and a CC or IT by an ERR, with one an RLSD by an ERR, and anything else not at all. |
| ConnectionContents.WrongReferenceSays | connection_procedures.go:107-147 | From the peer's node with another reference than the peer's: an RLSD is answered by an ERR, an IT by an RLSD to the reference that it names, an RLC by nothing. |
| ConnectionContents.GivenInTurn | connection.go:305-333 | The reference of a new section is the first one free from where the last one given out left off, and the next search goes on behind it. |
| ConnectionContents.PlaceStays | connection.go:305-333 | No event that makes no section moves the place where the next search begins. |
| ConnectionData.PartsFit | connection.go:454-466 | Every DT1 of an NSDU is within the maximum message size. |
| ConnectionData.SendDataExact | connection.go:441-472 | An NSDU is accepted exactly when it is not empty and not longer than MaxDataLength; the error for a DT1 that does not encode is unreachable. |
| ConnectionData.SentInFullParts | connection.go:441-472 | The DT1 messages of an NSDU go to the peer; each but the last is full, 255 octets or seven less than the maximum message size, and says that more follows; and T(ias) starts anew. |
| ConnectionData.LongerDataFails | connection.go:452-457 | A DT1 with more octets than that does not encode. |
| ConnectionData.PartTaken | connection_procedures.go:323-337 | A DT1 of the peer leaves the connection in data transfer exactly when the NSDU does not become too long and the octets find room in the capacity and the budget. |
| ConnectionData.DataInOrder | connection_procedures.go:321-363 | Over every run, with timers, inactivity tests, requests and other connections in between: while a section is in data transfer its user is given exactly the NSDUs that the DT1 messages of its peer make, cut where the M bit is 0, and the buffer holds what has come of the next. |
| ConnectionData.DataJoins | connection.go:454-466 | The DT1 messages that SendData makes of an NSDU join to that NSDU, whatever the size of the parts. |
| ConnectionData.DataOnlyOnRequest | connection.go:441-472 | No message, timer or other request ever sends a DT1. |
| ConnectionData.QueueIsSent | connection.go:441-472 | Over every run: while a section is in data transfer, its data requests put out exactly the DT1 messages of the NSDUs that were accepted, in order and to its peer, and each of them encodes. |
| ConnectionData.QueueIsDelivered | connection.go:441-472 | Two runs, of two paired ends, with anything else in between: over a channel that keeps the order, what one user is given is always a prefix of the NSDUs that the other sent with success, through the octets and whatever the two maximum message sizes; and all of them, nothing held back, once everything has arrived. |
| ConnectionExpiry.FireStartsLater | stack.go:673-677 | A timer that is due after another fired was running before with the same deadline: what a firing starts is due later. |
| ConnectionExpiry.FireShrinks | stack.go:673-677 | Each firing makes the set of due timers strictly smaller, so that expiry ends. |
| ConnectionExpiry.FiresOnce | stack.go:673-677 | Within an expiry no timer fires twice and only timers due at its start fire. |
| ConnectionExpiry.FiresInOrder | stack.go:673-677 | Timers fire in the order of the deadlines they were started with. |
| ConnectionStacks.ConnectionStack.constructor | connection.go:263-302 | A stack with no sections, next reference 1, counters zero. |
| ConnectionStacks.ConnectionStack.AppendData | connection_procedures.go:366-391 | The buffer takes the octets and grows as computed, or is unchanged when there is no room; the shared counter follows. |
| ConnectionStacks.ConnectionStack.DropReassembly | connection_procedures.go:393-396 | The buffer is dropped and its capacity given back. |
| ConnectionStacks.ConnectionStack.StopTimers | connection_timers.go:30-42 | Every timer of the section stops and every handle is cleared; buffer and deferred disconnect go too, the state stays. |
| ConnectionStacks.ConnectionStack.RestartSend | connection_timers.go:51-70 | T(ias) stops, and runs anew from now in data transfer only. |
| ConnectionStacks.ConnectionStack.RestartReceive | connection_timers.go:73-82 | T(iar) stops, and runs anew from now in data transfer only. |
| ConnectionStacks.ConnectionStack.SendMessage | connection_timers.go:85-98 | A message that encodes restarts T(ias); one that does not is discarded and leaves every timer running. |
| ConnectionStacks.ConnectionStack.Release | connection_timers.go:104-124 | The section enters c6 with T(rel) as its only timer, the RLSD is kept for repetition, and the user is told unless it asked. |
| ConnectionStacks.ConnectionStack.ScheduleRepeat | connection_timers.go:125-135 | A repetition is scheduled only if it comes strictly before T(int) ends. |
| ConnectionStacks.ConnectionStack.Freeze | connection_timers.go:15-29 | A new object takes the reference until the freeze ends; no timer of the old object survives, active goes down once, the buffer is given back. |
| ConnectionStacks.ConnectionStack.ReceiveRequest | connection_procedures.go:150-202 | A CR is dropped, refused or registered under a free reference and offered to the user, as ConnectionOffers.OfferedExactly says when. |
| ConnectionStacks.ConnectionStack.ReceiveSetup | connection_procedures.go:286-319 | c3: confirmation, refusal, deferred disconnect and protocol errors. |
| ConnectionStacks.ConnectionStack.ReceiveInTransfer | connection_procedures.go:321-363 | c4: data, release, error and inactivity test, T(iar) restarted by all of them. |
| ConnectionStacks.ConnectionStack.ReceiveWrongSource | connection_procedures.go:107-147 | A message with another source reference: only an IT releases the section, and an RLSD is answered by an ERR. |
| ConnectionStacks.ConnectionStack.ReceiveInState | connection_procedures.go:231-283 | Dispatch on the five states. |
| ConnectionStacks.ConnectionStack.HandleMessage | connection_procedures.go:48-104 | Any connection-oriented message takes objects, map, counters and heap to the next consistent state with the outputs of the machine over values; ConnectionOffers.OfferedExactly and ConnectionLaws.EndsExactly say which those are. |
| ConnectionStacks.ConnectionStack.Connect | connection.go:334-403 | N-CONNECT request: refused with nothing changed, or a section in c3 with T(conn est) and a CR sent. |
| ConnectionStacks.ConnectionStack.Accept | connection.go:412-432 | N-CONNECT response: c2 to c4 with both inactivity timers and a CC sent, or an error and no change. |
| ConnectionStacks.ConnectionStack.SendData | connection.go:441-472 | N-DATA request: all DT1 messages and a restart of T(ias), or none and no change. |
| ConnectionStacks.ConnectionStack.Disconnect | connection.go:481-515 | N-DISCONNECT request: CREF in c2, deferred in c3, RLSD in c4, an error otherwise. |
| ConnectionStacks.ConnectionStack.FireEarliest | stack.go:673-677 | The timer that fires is an earliest one and belongs to the object that has the reference now; what its firing does, sends and tells the user is said by ConnectionLaws.EndsExactly, ConnectionContents.InactivitySays and ConnectionContents.ReleaseExactly. |
| ConnectionStacks.ConnectionStack.Expire | stack.go:673-677 | The re-entrant loop ends, fires connection timers in order of deadlines, and leaves none due; each firing is one step of which those laws hold. |
| ConnectionStacks.ConnectionStack.TimersMatchStates | connection_timers.go:15-135 | The heap holds exactly the timers of the states of the sections in the table, each once: none of a replaced object, so that no callback runs on a freed section. |

## Left out

- Concurrency: `RunTimers`, the wake channel, the mutex and goroutines. Each call of a public method is one atomic step.
- Each public method first runs the timers that are due; here that is a separate call, `Expire`, before the request or message, at any time.
- Reassemblers.Reassembler.Expire: the source has one heap for reassembly and connection timers; here reassembly has its own, so that order and completeness of an expiry are those of reassembly timers alone.
- ConnectionStacks.ConnectionStack.Expire: likewise for connection timers; in what order a reassembly timer and a connection timer fire in one expiry is not modelled. Neither reads what the other changes.
- Requests for unitdata and for connections rotate one signalling link selection in the source (`nextSLS`); here each half has its own, so that the value a connection gets between unitdata requests is not the one of the source.
- `HandleTransfer` (stack.go:436-497) as one entry point: its parsing, its dispatch on the message type and its checks of the label are left to the caller of `Codec.ParseMessage`, `Connectionless.HandleUnitdata` and `HandleMessage`.
- `Now` and the `LocalGlobalTitle` callback: their results are parameters of each step, `now` and `local`.
- The registry of subsystems: a map that is passed to each step.
- Subsystem management messages (scmg.go) and the N-NOTICE indication of a received service message: single branches.
- `String` methods, error texts and the wrapping of errors: refusals and discards have a reason from a short list.
- The originator that N-DISCONNECT derives from a cause: `Refuser` and `Releaser` keep the cause itself.
- `Connection` snapshots and the addresses stored for them: nothing reads them back.
- The constructors of addresses from digits (params/address.go:55-72 and 296-330), which only compose BCD and validation.
- Slices: values here are immutable sequences, so copies, aliasing and spare capacity are not modelled.
- The seeded hash of first segments is a function parameter about which nothing is assumed; that a different first segment starts a new message needs no collision.
- Integer widths of lengths, counters and durations: they are unbounded here. Every one that could matter is bounded by configuration or by the message.
- Class 3 procedures: the source has none; its messages are decoded, encoded and discarded here as there.
- The class `SectionObject` has a ghost handle for the timer that ends a freeze; in the source only the heap refers to it.
