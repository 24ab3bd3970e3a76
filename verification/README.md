# A verified model of the UPF: PFCP codec, GTP-U datapath, session pipeline, program life cycle

This Dafny project models the parts of the user plane function where correctness is hardest to see by
reading, and proves what they promise. All numbers are mathematical integers; widths, wrap-around, truncation
and byte order are written out. `dafny verify dfyconfig.toml` checks everything.

**PFCP codec** (`Wire`, `Fqdn`, `PfcpLeaf`, `PfcpLeafStream`, `PfcpTree`, `PfcpMessage` and, for the theorems,
`PfcpLeafTrip`, `PfcpTreeTrip`, `PfcpMessageTrip`, `PfcpEmpty`, `PfcpNames`, `PfcpLength`, `PfcpStop`, `CreateFarTrip`,
`PfcpOctets`, `PfcpLayouts`, `PfcpMessageOctets`). Streams are
objects with the short-read behaviour of `std::istream`. Printers and parsers are methods that move along a
stream; each is tied to a function of the stream, and round trips, lengths and termination are theorems about those
functions, for trees of any shape and depth. The last three modules
state the octets themselves, in numbers: types, widths, flag weights and field orders are not left to printer and parser agreeing.

**GTP-U datapath** (`Checksum`, `Packet`, `Gtpu`, `Entry`, `FrameOctets`). A packet is a window in an array that is overwritten in
place. Encapsulation, decapsulation, the entry parser and the checksum arithmetic are modelled separately and proved to
agree.

**Session control plane** (`RuleList`, `Rules`, `RuleValues`, `RuleStore`, `RuleSelection`, `PrecedenceList`, `Pipeline`,
`SessionTable`, `SessionManager`, `SessionRuns`). `Pipeline` is a state machine whose events are single map writes of the control plane
and single map lookups of packets; `SessionTable`, `SessionManager` and `SessionRuns` are about whole calls.

**Life cycle** (`LifeCycle`) of a BPF program, with the calls that take and give back kernel resources as a trace.

**Small codecs** (`HexText`, `Digits`).

## Where the code does not do what is expected of it

Each of these is stated with its exact condition or with a witness; the model follows the code.

- The decoder of names reads length octets as signed `char`. An octet of at least 128 moves backwards, throws, or ends
  the loop early; some names never finish (`Fqdn.DecoderHangsIffCycles`, `Fqdn.DecoderHangsIff`). A Node ID reaches that
  decoder from the network: the receiver does not return from a message if and only if the parser reaches such a Node ID
  in it (`PfcpStop.MessageHangsIff`); fourteen octets are enough (`PfcpStop.FourteenOctetsStop`), and so is a printed
  message with a name of one label of 255 characters (`PfcpNames.LongestLabelStops`,
  `PfcpNames.PrintedMessageMeetsFate`). On every other input the parser ends.
- The parser of User ID reads up to 255 octets into eight-octet fields (src/oai/pfcp/3gpp_29.244.hpp:7540 and 7556); the model says how much it consumes and nothing of the memory behind those fields.
- The encoder of names counts in eight bits: on a name of 256 or more octets without a NUL among its first 256 it goes
  round inside the name and never returns, and behind a NUL it leaves its buffer as it was
  (`Fqdn.EncoderReturnsIff`, `Fqdn.StringToDotted`). Printing a Node ID with such a name does not return
  (`PfcpLength.NewNodeIdSize`).
- The URR ID is printed in host byte order and parsed in network byte order (`PfcpStop.UrrIdRoundTripIff`).
- A new SDF Filter with a flow label or a filter identifier prints more octets than its length says, the identifier in
  decimal digits (`PfcpLength.NewSdfSizedIff`).
- A new F-TEID with CHID but without CH prints one octet more than its length says (`PfcpLength.NewFteidSizedIff`).
- The element for duplicating parameters is built empty, and an element of length zero is not parsed: a Create FAR with
  duplicating parameters cannot be read back (`CreateFarTrip.CreateFarRoundTripIff`).
- An incremental checksum update that leaves nothing but zeros beside the checksum makes a valid header invalid
  (`Checksum.Update16Iff`, `Checksum.Update32Iff`).
- `createPipeline` overwrites: a key or a session identifier already in use, or a failing write after the index was
  written, leaves the maps in disagreement with the sessions (`SessionTable.CreateKeepsAgreementIff`).
- Session identifiers are remembered whole and for ever, but sessions are removed by their low 32 bits: removing an old
  identifier can take out a session of another one (`SessionRuns.RemoveHitsIff`, `SessionRuns.StaleRemove`).
- Program identifiers are not reused, so over a whole run fewer than ten creates succeed
  (`SessionRuns.CreatesAreBounded`).
- The rule created last under an identifier already in use is not the one found (`Rules.DuplicateIsShadowed`).
- The map of linked interfaces is never cleared, a failing `load` or `attach` destroys the skeleton and leaves the
  state, and a tear-down cut short starts over (`LifeCycle.LaterLifeIsSafeIff`, `LifeCycle.DestroyedOnceIff`,
  `LifeCycle.RepeatedTearDown`).

## Model

| member | source | states |
|---|---|---|
| `Wire.Read` | src/oai/pfcp/3gpp_29.244.hpp:92-101 | a stream read, short reads included: memory it does not reach stays as it was, a failed stream reads nothing, and every non-empty read of a good stream consumes or fails |
| `Wire.BERoundTrip` | src/oai/pfcp/3gpp_29.244.hpp:310-318 | n octets in network order give a number back modulo 256^n, for all values |
| `Fqdn.EncoderReturnsIff` | src/oai/pfcp/3gpp_29.244.hpp:127-153 | the loop with its 8-bit offset ends if and only if the name has at most 255 octets or a NUL among its first 256 |
| `Fqdn.StringToDotted` | src/oai/pfcp/3gpp_29.244.hpp:127-153 | wherever it returns, the encoder that patches a length octet through a moving pointer writes the label sequence of the name up to its first NUL, and leaves its buffer behind that as it was |
| `Fqdn.ApnLabel` | src/oai/common/utils/epc.cpp:475-502 | the encoder that appends and patches by index writes the label sequence of the characters it keeps; on letters, digits, '-' and '.' both encoders agree |
| `Fqdn.DottedToString` | src/oai/pfcp/3gpp_29.244.hpp:155-177 | wherever the decoder loop returns, its answer and text are those of the iteration with signed length octets and 16-bit offset |
| `Fqdn.FuelSuffices` | src/oai/pfcp/3gpp_29.244.hpp:155-177 | the decoder loop ends within 65536 iterations or never |
| `Fqdn.DecoderHangsIffCycles` | src/oai/pfcp/3gpp_29.244.hpp:155-177 | for names of every length a Node ID can carry: the decoder never returns if and only if its offset comes back to where it was |
| `Fqdn.DecoderHangsIff` | src/oai/pfcp/3gpp_29.244.hpp:155-177 | for names of at most 65409 octets: if and only if the labels lead to a length octet that jumps to the start |
| `Fqdn.DecoderThrowsIff` | src/oai/pfcp/3gpp_29.244.hpp:155-177 | for those names: it throws if and only if the labels lead to a length octet that jumps back into the name |
| `Fqdn.DecoderHangsOnFF` | src/oai/pfcp/3gpp_29.244.hpp:155-177 | the one-octet name 0xFF keeps the decoder running for any number of iterations |
| `Fqdn.NameRoundTrip` | src/oai/pfcp/3gpp_29.244.hpp:127-177 | for every NUL-free name of at most 255 octets the encoding is one octet longer, and decoding it succeeds with that name if and only if no label exceeds 63 octets |
| `PfcpLeafStream.LoadFteidFrom` | src/oai/pfcp/3gpp_29.244.hpp:762-793 | parsing an F-TEID from a stream: length check by flags, optional TEID, addresses and choose identifier |
| `PfcpLeafStream.LoadFseidFrom` | src/oai/pfcp/3gpp_29.244.hpp:3051-3069 | parsing an F-SEID from a stream |
| `PfcpLeafStream.LoadUeIpFrom` | src/oai/pfcp/3gpp_29.244.hpp:4947-4975 | parsing a UE IP Address from a stream |
| `PfcpLeafStream.LoadNodeIdFrom` | src/oai/pfcp/3gpp_29.244.hpp:3256-3288 | parsing a Node ID from a stream, through the name decoder, including that it may throw or not return |
| `PfcpLeafStream.LoadOuterHeaderFrom` | src/oai/pfcp/3gpp_29.244.hpp:4454-4486 | parsing an Outer Header Creation from a stream, with fields chosen by the description |
| `PfcpLeafStream.LoadSdfFrom` | src/oai/pfcp/3gpp_29.244.hpp:977-1010 | parsing an SDF Filter from a stream |
| `PfcpLeafStream.LoadPolicyFrom` | src/oai/pfcp/3gpp_29.244.hpp:2175-2191 | parsing a Forwarding Policy: the inner length is checked against the outer one |
| `PfcpLeafStream.LoadRatesFrom` | src/oai/pfcp/3gpp_29.244.hpp:1168-1176 | parsing MBR and GBR: two rates of five octets |
| `PfcpLeafStream.LoadNumberFrom` | src/oai/pfcp/3gpp_29.244.hpp:1336-1344 | parsing the elements that are one number: exact width or an exception |
| `PfcpLeafStream.LoadTextFrom` | src/oai/pfcp/3gpp_29.244.hpp:829-834 | parsing the elements that are one string |
| `PfcpLeafStream.DumpFteidTo` | src/oai/pfcp/3gpp_29.244.hpp:730-760 | what printing an F-TEID appends to the stream |
| `PfcpLeafStream.DumpNodeIdTo` | src/oai/pfcp/3gpp_29.244.hpp:3237-3254 | what printing a Node ID appends, the name in label form, for every name its encoder returns on |
| `PfcpLeafStream.DumpOuterHeaderTo` | src/oai/pfcp/3gpp_29.244.hpp:4422-4452 | what printing an Outer Header Creation appends |
| `PfcpLeafStream.DumpUeIpTo` | src/oai/pfcp/3gpp_29.244.hpp:4920-4945 | what printing a UE IP Address appends |
| `PfcpLeafStream.LoadFrom` | src/oai/pfcp/3gpp_29.244.cpp:36-924 | dispatch to the parser of the type, for every type that has one |
| `PfcpLeafStream.LoadUserIdFrom` | src/oai/pfcp/3gpp_29.244.hpp:7531-7569 | what parsing a User ID consumes |
| `PfcpLeafStream.DumpFseidTo` | src/oai/pfcp/3gpp_29.244.hpp:3034-3049 | what printing an F-SEID appends |
| `PfcpLeafStream.DumpSdfTo` | src/oai/pfcp/3gpp_29.244.hpp:951-975 | what printing an SDF Filter appends, flow label and decimal identifier included |
| `PfcpMessage.PfcpMsg.SetSequenceNumber` | src/oai/pfcp/3gpp_29.244.hpp:288-290 | the sequence number is stored, nothing else changes |
| `PfcpLeafTrip.LeafRoundTrip` | src/oai/pfcp/3gpp_29.244.hpp:563-7640 | for every element that is not grouped and in order, parsing what it prints gives it back, with fields whose flag is clear reset, and consumes exactly its octets |
| `PfcpTree.DumpTo` | src/oai/pfcp/3gpp_29.244.hpp:201-206 | the nested printer: what it has written when it returns or throws, and that it then wrote the whole tree, depth first |
| `PfcpTree.PrintsIff` | src/oai/pfcp/3gpp_29.244.hpp:1377-1384 | it returns if and only if every Transport Level Marking in the tree has length two |
| `PfcpTree.NewIeFromStream` | src/oai/pfcp/3gpp_29.244.cpp:36-936 | dispatch on the type: an element, a null pointer on length zero or unknown type, or the exception of its parser, and where the stream is left; ends on every input but for the name decoder |
| `PfcpTree.LoadGroupFrom` | src/oai/pfcp/3gpp_29.244.hpp:208-221 | the loop over children with its signed counter, which children may overrun; bytes left in the stream decrease |
| `PfcpTreeTrip.IeRoundTrip` | src/oai/pfcp/3gpp_29.244.hpp:201-221 | parsing the octets of any well-formed tree, whatever follows in the stream, gives the normalised tree and stops right behind them |
| `PfcpTreeTrip.GroupRoundTrip` | src/oai/pfcp/3gpp_29.244.hpp:208-221 | the same for the children of a group from any position on |
| `PfcpTreeTrip.DumpSize` | src/oai/pfcp/3gpp_29.244.hpp:201-206 | every well-formed element prints exactly four octets more than its length |
| `PfcpTreeTrip.WfIsPrintable` | src/oai/pfcp/3gpp_29.244.hpp:201-206 | every tree of the round trips is within the demands of the printer, which then does not throw |
| `PfcpEmpty.IeParsesIff` | src/oai/pfcp/3gpp_29.244.cpp:36-936 | a tree with right lengths is read back if and only if no element in it, at any depth, has length zero |
| `PfcpMessage.PfcpMsg.SetSeid` | src/oai/pfcp/3gpp_29.244.hpp:268-274 | setting the SEID keeps the stored length right, whether or not there was one |
| `PfcpMessage.PfcpMsg.AddIe` | src/oai/pfcp/3gpp_29.244.hpp:382-390 | adding an element keeps the stored length right modulo 2^16 |
| `PfcpMessage.PfcpMsg.DumpTo` | src/oai/pfcp/3gpp_29.244.hpp:498-503 | printing a message: bit-packed header, then its elements, up to the first that throws |
| `PfcpMessage.PfcpMsg.LoadFrom` | src/oai/pfcp/3gpp_29.244.hpp:504-530 | loading a message: the loop with the wrapping 16-bit counter and the comparison at its end |
| `PfcpMessageTrip.HeaderReadsBack` | src/oai/pfcp/3gpp_29.244.hpp:294-339 | the header survives, spare bits and absent priority cleared, the sequence number modulo 2^24 |
| `PfcpMessageTrip.MessageRoundTrip` | src/oai/pfcp/3gpp_29.244.hpp:294-530 | for every well-formed message, loading what it dumped succeeds with the normalised message and consumes exactly its octets; a message without elements when the stream ends there |
| `PfcpMessageTrip.DumpIsInjective` | src/oai/pfcp/3gpp_29.244.hpp:498-503 | two well-formed messages with the same octets are the same, up to what is not sent |
| `PfcpLength.ElementSize` | src/oai/pfcp/3gpp_29.244.hpp:196-206 | a printed tree built by constructors and `add_ie` is its length plus four octets, exactly within 16 bits and modulo 2^16 beyond, even where leaves compute their length again |
| `PfcpLength.MessageSize` | src/oai/pfcp/3gpp_29.244.hpp:268-503 | a printed message built by any mix of `set_seid` and `add_ie` is exactly 4 + length octets within 16 bits, and congruent to it beyond |
| `PfcpLength.GroupedIe.AddIe` | src/oai/pfcp/3gpp_29.244.hpp:196-199 | `add_ie` of a group appends and keeps its length the sum of its children's |
| `PfcpLength.GroupStaysSized` | src/oai/pfcp/3gpp_29.244.hpp:196-199 | the invariant behind it |
| `PfcpLength.NewFteidSizedIff` | src/oai/pfcp/3gpp_29.244.hpp:672-699 | a new F-TEID has the right length if and only if CHID implies CH; otherwise it prints one octet too many |
| `PfcpLength.NewFseid` | src/oai/pfcp/3gpp_29.244.hpp:2993-3009 | a new F-SEID has the right length for every combination of addresses |
| `PfcpLength.NewUeIp` | src/oai/pfcp/3gpp_29.244.hpp:4869-4892 | so has a new UE IP Address |
| `PfcpLength.NewNodeIdSize` | src/oai/pfcp/3gpp_29.244.hpp:3185-3254 | printing a new Node ID returns if and only if the encoder does on its name, and then writes as many octets as its length says |
| `PfcpLength.NewOuterHeader` | src/oai/pfcp/3gpp_29.244.hpp:4369-4401 | so has a new Outer Header Creation, for every description |
| `PfcpLength.NewSdfSizedIff` | src/oai/pfcp/3gpp_29.244.hpp:865-909 | a new SDF Filter has the right length if and only if it has no flow label and no filter identifier |
| `PfcpLength.NewText` | src/oai/pfcp/3gpp_29.244.hpp:808-812 | a new string element has the right length if and only if the string fits 16 bits |
| `PfcpStop.NodeIdHangsIff` | src/oai/pfcp/3gpp_29.244.hpp:3256-3288 | exactly which Node IDs, of any length, the parser does not return on |
| `PfcpStop.ElementHangsIff` | src/oai/pfcp/3gpp_29.244.cpp:36-936 | an element's parser, with everything nested in it, does not return if and only if the element is such a Node ID or a group in which it reaches one |
| `PfcpStop.GroupHangsIff` | src/oai/pfcp/3gpp_29.244.hpp:208-221 | the same for the loop over children with its signed counter |
| `PfcpStop.MessageHangsIff` | src/oai/pfcp/3gpp_29.244.hpp:504-530 | for every octet string: `pfcp_msg::load_from` does not return if and only if one of the elements it reaches, at any depth, is such a Node ID; otherwise it ends, although counters wrap and children overrun |
| `PfcpStop.NodeIdMessageHangs` | src/oai/pfcp/3gpp_29.244.hpp:504-530 | a message whose first element is such a Node ID stops the receiver, whatever its header and whatever follows |
| `PfcpStop.FourteenOctetsStop` | src/oai/pfcp/3gpp_29.244.hpp:504-530 | fourteen octets that do |
| `PfcpStop.MessageReturns` | src/oai/pfcp/3gpp_29.244.hpp:504-530 | a message of octets below 128 is returned from, as long as memory exposed by short reads is below 128 too |
| `PfcpNames.NameFateIff` | src/oai/pfcp/3gpp_29.244.hpp:127-177 | for printable names: decoding the label form never ends, or throws, exactly by where its length octets lead |
| `PfcpNames.LongestLabelStops` | src/oai/pfcp/3gpp_29.244.hpp:127-177 | a name of one label of 255 characters never ends |
| `PfcpNames.IeMeetsFate` | src/oai/pfcp/3gpp_29.244.cpp:36-936 | parsing a printed tree with names of any kind: read to its end, thrown out of or never returned from, as its first bad name decides |
| `PfcpNames.PrintedMessageMeetsFate` | src/oai/pfcp/3gpp_29.244.hpp:498-530 | the same for every printed message and its receiver |
| `PfcpStop.UrrIdRoundTripIff` | src/oai/pfcp/3gpp_29.244.hpp:4255-4269 | a URR ID comes back if and only if its octets read the same in both directions |
| `PfcpStop.UrrIdOneIsChanged` | src/oai/pfcp/3gpp_29.244.hpp:4255-4269 | a printed URR ID 1 is parsed as another number |
| `PfcpOctets.NullIff` | src/oai/pfcp/3gpp_29.244.cpp:36-936 | an element is answered with a null pointer if and only if its length is zero or its type is not among the 63 listed by number; four octets are consumed |
| `PfcpOctets.VendorIsNull` | src/oai/pfcp/3gpp_29.244.hpp:89-98 | a type of 0x8000 and above is followed by a vendor number, and is answered with a null pointer behind it |
| `PfcpOctets.VendorPrinted` | src/oai/pfcp/3gpp_29.244.hpp:77-87 | and is printed with it |
| `PfcpOctets.NumberWidthIff` | src/oai/pfcp/3gpp_29.244.cpp:135-734 | for every type that is one number, given with its one, two or four octets: it is read if and only if the length is that many, and otherwise thrown out before anything is read |
| `PfcpOctets.NumberParsed` | src/oai/pfcp/3gpp_29.244.cpp:135-734 | every such element, type and length in front, is parsed to the number its octets are in network order |
| `PfcpOctets.NumberPrinted` | src/oai/pfcp/3gpp_29.244.hpp:1329-1334 | and printed as these octets, behind the stored length or, for three types, the length computed again |
| `PfcpOctets.UrrIdOctets` | src/oai/pfcp/3gpp_29.244.hpp:4255-4260 | the URR ID is printed with its lowest octet first |
| `PfcpOctets.NumberCut` | src/oai/pfcp/3gpp_29.244.hpp:617-645 | a number the stream ends in: what is missing is 255, zero or memory, by type |
| `PfcpOctets.GroupOctets` | src/oai/pfcp/3gpp_29.244.cpp:41-134 | the types 1 to 18 and 83 are groups: one around a FAR ID, octet by octet, parsed and printed |
| `PfcpOctets.GroupLoads` | src/oai/pfcp/3gpp_29.244.hpp:208-221 | for every one of them the children are read from behind the length on |
| `PfcpOctets.TextParsed` | src/oai/pfcp/3gpp_29.244.hpp:829-834 | network instance, application identifier and the names of predefined rules, type and length in front |
| `PfcpOctets.TextPrinted` | src/oai/pfcp/3gpp_29.244.hpp:824-827 | and printed: two with the stored length, two with their size |
| `PfcpOctets.MarkingOctets` | src/oai/pfcp/3gpp_29.244.hpp:1377-1394 | a Transport Level Marking has two octets; with another length parser and printer throw |
| `PfcpOctets.RatesParsed` | src/oai/pfcp/3gpp_29.244.hpp:1168-1176 | MBR and GBR: five octets uplink, five downlink, and no other length |
| `PfcpOctets.RatesPrinted` | src/oai/pfcp/3gpp_29.244.hpp:1162-1166 | printed in this order |
| `PfcpOctets.PolicyParsed` | src/oai/pfcp/3gpp_29.244.hpp:2175-2191 | a Forwarding Policy: an octet with the size of the identifier, and the identifier |
| `PfcpOctets.PolicyPrinted` | src/oai/pfcp/3gpp_29.244.hpp:2167-2173 | printed as stored |
| `PfcpLayouts.FteidParsed` | src/oai/pfcp/3gpp_29.244.hpp:762-793 | F-TEID for every flag octet: V4, V6, CH and CHID have weights 1, 2, 4 and 8; fields, values, length and exception |
| `PfcpLayouts.FteidPrinted` | src/oai/pfcp/3gpp_29.244.hpp:730-760 | what it prints for every flag octet, with a choose identifier that is not counted where CH is clear |
| `PfcpLayouts.FteidConstructed` | src/oai/pfcp/3gpp_29.244.hpp:672-699 | octets of a new F-TEID for every core value |
| `PfcpLayouts.FseidParsed` | src/oai/pfcp/3gpp_29.244.hpp:3051-3069 | F-SEID for every flag octet: V6 has weight 1 and V4 weight 2, the SEID comes first, then the IPv4 address |
| `PfcpLayouts.FseidPrinted` | src/oai/pfcp/3gpp_29.244.hpp:3034-3049 | what it prints |
| `PfcpLayouts.FseidConstructed` | src/oai/pfcp/3gpp_29.244.hpp:2993-3009 | octets of a new F-SEID |
| `PfcpLayouts.UeIpParsed` | src/oai/pfcp/3gpp_29.244.hpp:4947-4975 | UE IP Address for every flag octet: V6, V4, S/D and IPv6D have weights 1, 2, 4 and 8 |
| `PfcpLayouts.UeIpPrinted` | src/oai/pfcp/3gpp_29.244.hpp:4920-4945 | what it prints |
| `PfcpLayouts.UeIpConstructed` | src/oai/pfcp/3gpp_29.244.hpp:4869-4892 | octets of a new UE IP Address |
| `PfcpLayouts.CreationParsed` | src/oai/pfcp/3gpp_29.244.hpp:4454-4486 | Outer Header Creation for every description: 0x0100 and 0x0200 bring a TEID, 0x0100 and 0x0400 an IPv4 address, 0x0200 and 0x0800 an IPv6 address, 0x0400 a port, in this order; only lengths below four are thrown out |
| `PfcpLayouts.CreationPrinted` | src/oai/pfcp/3gpp_29.244.hpp:4422-4452 | what it prints for every description |
| `PfcpLayouts.CreationConstructed` | src/oai/pfcp/3gpp_29.244.hpp:4369-4401 | octets of a new Outer Header Creation for every description |
| `PfcpLayouts.FourTunnels` | src/oai/pfcp/3gpp_29.244.hpp:4369-4452 | the four descriptions with one bit: their octets written out |
| `PfcpLayouts.NodeIdParsed` | src/oai/pfcp/3gpp_29.244.hpp:3256-3288 | Node ID with an address: kind 0 is IPv4, kind 1 IPv6, the upper half of the octet is kept |
| `PfcpLayouts.NodeIdNamed` | src/oai/pfcp/3gpp_29.244.hpp:3237-3288 | Node ID of kind 2: a name of two labels as octets, parsed to the labels with a dot between them and printed |
| `PfcpLayouts.NodeIdConstructed` | src/oai/pfcp/3gpp_29.244.hpp:3185-3210 | octets of a new Node ID with an address or without anything |
| `PfcpLayouts.SdfParsed` | src/oai/pfcp/3gpp_29.244.hpp:977-1010 | SDF Filter for every flag octet, flow label and filter identifier included, whatever the length says |
| `PfcpLayouts.SdfPrinted` | src/oai/pfcp/3gpp_29.244.hpp:951-975 | what it prints |
| `PfcpLayouts.SdfConstructed` | src/oai/pfcp/3gpp_29.244.hpp:865-909 | octets of a new SDF Filter, with a length that does not count the last two fields |
| `PfcpLayouts.DecimalDigits` | src/oai/pfcp/3gpp_29.244.hpp:972-974 | the filter identifier is printed as decimal digits that stand for it |
| `PfcpLayouts.CorrelationOctets` | src/oai/pfcp/3gpp_29.244.hpp:1287-1296 | QER Correlation ID: a length of one, four octets consumed |
| `PfcpLayouts.VolumesOctets` | src/oai/pfcp/3gpp_29.244.hpp:1507-1526 | the volume thresholds read the counters that uninitialised memory selects |
| `PfcpLayouts.FailedRuleOctets` | src/oai/pfcp/3gpp_29.244.hpp:6000-6030 | Failed Rule ID: a length of one, an octet more for rule 4, two kinds of exception for the others |
| `PfcpLayouts.IpResourceOctets` | src/oai/pfcp/3gpp_29.244.hpp:6222-6247 | User Plane IP Resource Information: what is consumed for every flag octet |
| `PfcpLayouts.UserIdOctets` | src/oai/pfcp/3gpp_29.244.hpp:7531-7569 | User ID: a length of one, and four counted strings by flag |
| `PfcpMessageOctets.HeaderPrinted` | src/oai/pfcp/3gpp_29.244.hpp:294-324 | octets of a message header for every value of its fields: S and MP have weights 1 and 2, the version the upper three bits, priority the upper half of the last octet |
| `PfcpMessageOctets.HeaderParsed` | src/oai/pfcp/3gpp_29.244.hpp:325-339 | the header fields read from any octets |
| `PfcpMessageOctets.ForwardingPrinted` | src/oai/pfcp/3gpp_29.244.hpp:8305-8346 | octets of Forwarding Parameters: the types, lengths and order of five children |
| `PfcpMessageOctets.CreateFarPrinted` | src/oai/pfcp/3gpp_29.244.hpp:8462-8488 | octets of a Create FAR for every record, Apply Action bit by bit |
| `CreateFarTrip.BuildForwarding` | src/oai/pfcp/3gpp_29.244.hpp:8305-8346 | the Forwarding Parameters element made by `add_ie` of the present fields |
| `CreateFarTrip.BuildCreateFar` | src/oai/pfcp/3gpp_29.244.hpp:8462-8488 | the Create FAR element made by `add_ie`, with an empty group for duplicating parameters |
| `CreateFarTrip.ToCreateFar` | src/oai/pfcp/3gpp_29.244.hpp:8494-8504 | the visitor loop that fills a record from parsed children |
| `CreateFarTrip.ForwardingReadsBack` | src/oai/pfcp/3gpp_29.244.hpp:8305-8358 | visiting the children built from forwarding parameters gives every coded field back and leaves the others absent |
| `CreateFarTrip.CreateFarRoundTripIff` | src/oai/pfcp/3gpp_29.244.hpp:8459-8505 | from record to octets and back: a Create FAR is parsed if and only if it has a field, no duplicating parameters and no empty group or string; the record then comes back with every field that has an element |
| `CreateFarTrip.FarTakenIff` | src/oai/pfcp/3gpp_29.244.hpp:8494-8498 | filling a record from the children of a received Create FAR throws if and only if one of them, or one inside its forwarding or duplicating parameters, has no field there |
| `CreateFarTrip.DuplicatingChildSets` | src/oai/pfcp/msg_pfcp.hpp:2367-2382 | which field of duplicating parameters each kind of child sets, and that it leaves the others |
| `CreateFarTrip.LastChildCounts` | src/oai/pfcp/3gpp_29.244.hpp:8381-8385 | with several outer headers among the children the last one is the one taken |
| `Checksum.FoldComplements` | src/bpf/utils/csum.h:52-58 | folding twice is enough for every 32-bit sum: the result complements its 16-bit one's complement value |
| `Checksum.AddIsSum` | src/bpf/utils/csum.h:60-65 | the 32-bit addition adds in one's complement and gives zero only from zeros |
| `Checksum.FreshChecksumValid` | src/bpf/far_bpf.c:156-158 | a checksum computed from scratch over any header that is not all zeros makes it valid |
| `Checksum.ValidInEitherOrder` | src/bpf/utils/csum.h:52-77 | a header is valid in one byte order if and only if it is in the other |
| `Checksum.Update16Iff` | src/bpf/utils/csum.h:97-106 | replacing a 16-bit word of a valid header keeps it valid if and only if something beside zeros is left, or word and checksum were both 0xFFFF |
| `Checksum.Update32Iff` | src/bpf/utils/csum.h:97-106 | replacing a 32-bit word keeps it valid if and only if something beside zeros is left |
| `Packet.Xdp.AdjustHead` | src/bpf/far_bpf.c:75-79 | head adjustment moves the start of the packet or, without room, changes nothing |
| `Packet.Xdp.L3CsumReplace` | src/bpf/utils/csum.h:79-110 | every error condition and its code, and otherwise the new checksum stored and nothing else changed |
| `Gtpu.CreateOuterHeader` | src/bpf/far_bpf.c:62-161 | what the stores leave in the buffer, given up or not and head adjustment failing included, and when the last line is reached |
| `Gtpu.PushedIsEncapsulated` | src/bpf/far_bpf.c:75-158 | with head room the result is the new MAC address, the rest of the Ethernet header, outer IPv4, UDP and GTP-U headers and the untouched inner packet, although the old Ethernet header was overwritten on the way |
| `Gtpu.RemoveOuterHeader` | src/bpf/far_bpf.c:205-229 | decapsulation in place: answers and frame for every frame |
| `Gtpu.FarApply` | src/bpf/far_bpf.c:171-259 | which of drop, pass, encapsulate and decapsulate a rule does, and the frame it leaves in every case |
| `Gtpu.DecapsulationUndoesEncapsulation` | src/bpf/far_bpf.c:75-227 | for every frame of at least 34 octets the round trip gives the frame back byte for byte but for the destination MAC address, which is the inner destination's, and drops if that is unknown |
| `Gtpu.OuterHeaderValid` | src/bpf/far_bpf.c:107-158 | for every rule and inner packet the outer IPv4 header checks out in both byte orders |
| `Entry.LookedUpIff` | src/bpf/upf_xdp_bpf.c:61-240 | the layered parser against a flat description: exactly which packets are looked up and under which key |
| `Entry.RejectedIff` | src/bpf/upf_xdp_bpf.c:61-240 | exactly which packets are aborted and which are dropped |
| `Entry.EncapsulatedIsLookedUpIff` | src/bpf/upf_xdp_bpf.c:61-240 | the parser looks an encapsulated frame up under the rule's TEID, ACCESS and outer source if and only if it is untagged IPv4, the port is 2152 and the inner version is 4 |
| `Entry.NestedLengthsAgreeIff` | src/bpf/far_bpf.c:107-154 | IP, UDP and GTP-U lengths agree if and only if the inner packet has at most 65499 octets |
| `FrameOctets.EncapsulatedOctets` | src/bpf/far_bpf.c:107-154 | every octet of an encapsulated frame but the checksum, in numbers: Ethernet, outer IPv4 with time to live 64 and protocol 17, UDP from port 2152, GTP-U with 0x30 and 0xff, the frame that came |
| `FrameOctets.EncapsulatedSum` | src/bpf/far_bpf.c:156-158 | the ten words of its outer IPv4 header add up to a multiple of 65535 |
| `FrameOctets.GivenUpOctets` | src/bpf/far_bpf.c:81-137 | the octets left where there is no address for the other end |
| `FrameOctets.LookedUpOctets` | src/bpf/upf_xdp_bpf.c:61-240 | which octets make the parser look a packet up, and under which key, in numbers |
| `FrameOctets.RejectedOctets` | src/bpf/upf_xdp_bpf.c:61-240 | which octets make it abort or drop |
| `Gtpu.DownlinkEncapsulates` | src/bpf/far_bpf.c:75-158 | with 36 octets of head room and a known address the frame sent to the access side is the encapsulated one |
| `Pipeline.StepKeeps` | src/SessionProgramManager.cpp:46-124 | every single write and lookup keeps: each map entry, session, call in progress and packet in flight goes back to one creation |
| `Pipeline.BornAtACall` | src/programs/BPFProgram.cpp:4-11 | every program of a run was created by a call of that run, when its identifier was the counter |
| `Pipeline.DispatchIsSafe` | src/bpf/upf_xdp_bpf.c:30-49 | over every interleaving of map writes, failures and lookups, a packet runs only a program created for its key, with that call's FAR |
| `SessionTable.CreateIsARun` | src/SessionProgramManager.cpp:46-102 | an uninterrupted create is a run of single writes, whichever of them fails |
| `SessionTable.RemoveIsARun` | src/SessionProgramManager.cpp:104-124 | so is an uninterrupted remove |
| `SessionTable.CreateChangesOneKey` | src/SessionProgramManager.cpp:70-101 | a create changes the answer for its own key only, and how at each point of failure |
| `SessionTable.CreateKeepsAgreementIff` | src/SessionProgramManager.cpp:70-101 | exactly when a create succeeds, and exactly when it leaves index, programs and FARs in agreement with the sessions |
| `SessionTable.RemoveKeepsAgreementIff` | src/SessionProgramManager.cpp:104-124 | a remove keeps the agreement if and only if its erasure does not fail, and changes no other key's answer |
| `SessionManager.ProgramManager.UpdateIndex` | src/wrappers/BPFMap.hpp:87-103 | a map update: throws on a new key in a full map, otherwise stores |
| `SessionManager.ProgramManager.CreatePipeline` | src/SessionProgramManager.cpp:46-102 | the object's create is the create of the model, at every point of failure |
| `SessionManager.ProgramManager.RemovePipeline` | src/SessionProgramManager.cpp:104-124 | and its remove the remove of the model |
| `SessionManager.Manager.CreateBpfSession` | src/SessionManager.cpp:77-80 | the identifier is cut to 32 bits for the pipeline and remembered whole |
| `SessionManager.Manager.RemoveBpfSession` | src/SessionManager.cpp:83-92 | the check on 64 bits before the removal on 32 |
| `SessionRuns.IndexRefinesTable` | src/SessionManager.cpp:77-92 | after every run with 64-bit identifiers of creates with unused low half and key and of removes that hit what they name, throwing creates included, the maps give exactly the FAR of the session registered under a key and a miss for every other key |
| `SessionRuns.RemoveHitsIff` | src/SessionManager.cpp:83-92 | a remove takes out exactly the session named if and only if its identifier is unknown, or live itself, or no live session has its low half |
| `SessionRuns.WrongSessionIsHit` | src/SessionProgramManager.cpp:104-124 | otherwise it returns normally and the packets of another session pass from then on |
| `SessionRuns.SameLowIff` | src/SessionManager.cpp:77-80 | two identifiers are one to the pipeline if and only if they differ by a multiple of 2^32 |
| `SessionRuns.StaleRemove` | src/SessionManager.cpp:83-92 | a run of four calls in which that happens |
| `SessionRuns.CreatesAreBounded` | src/bpf/next_prog_rule_map.h:8-13 | over every run, whatever is removed, no more creates succeed than identifiers below ten were left |
| `RuleList.AppendStored` | src/oai/pfcp/pfcp_session.cpp:35-65 | an appended rule is found if and only if its identifier is new |
| `RuleList.EraseLeavesIff` | src/oai/pfcp/pfcp_session.cpp:67-93 | after a removal the identifier is still found if and only if it occurred again |
| `Rules.AcceptedIff` | src/oai/pfcp/pfcp_session.cpp:95-286 | a request is accepted if and only if it is complete and its identifier known; a rejected one changes nothing and gives a rejecting cause; an accepted create appends one rule |
| `Rules.OffendingIsMissing` | src/oai/pfcp/pfcp_session.cpp:121-220 | the IE a rejected create names is one it lacks, and every create that lacks one is rejected |
| `Rules.HandleRefines` | src/oai/pfcp/pfcp_session.cpp:35-286 | one request on the lists is the same request on two maps |
| `Rules.ListsRefineMaps` | src/oai/pfcp/pfcp_session.cpp:35-286 | over every run with fresh identifiers the lists are two maps: a search gives the latest value, and nothing after removal |
| `Rules.DuplicateIsShadowed` | src/oai/pfcp/pfcp_session.cpp:158-262 | a create is what a search then finds if and only if its identifier was free or the rule there is the same |
| `Rules.ReachableAreUsable` | src/oai/pfcp/pfcp_session.cpp:161-178 | every PDR of every reachable session has a precedence and a PDI |
| `RuleValues.FarUpdateLeaves` | src/oai/pfcp/pfcp_far.cpp:33-48 | an Update FAR for a known identifier, field by field: what the request has is set to its value, what it has not is as before, redirect information, proxying and the flags of the groups stay, and no other rule changes |
| `RuleValues.PdrUpdateLeaves` | src/oai/pfcp/pfcp_pdr.cpp:35-46 | the same for an Update PDR; the SEID and predefined rules stay |
| `RuleValues.HandoverHolds` | src/oai/pfcp/msg_pfcp.hpp:2154-2165 | over every run: from an update with a new outer header on, until the next request that updates or removes that FAR, the session has exactly the new tunnel |
| `RuleValues.FarStays` | src/oai/pfcp/pfcp_session.cpp:95-286 | every request that does not update or remove a FAR, accepted or not, leaves the one that is found as it is |
| `RuleValues.PdrCreateStores` | src/oai/pfcp/pfcp_pdr.hpp:69-80 | which field of a Create PDR each field of the stored rule holds, and the SEID of the session |
| `RuleValues.FarCreateStores` | src/oai/pfcp/pfcp_far.hpp:52-58 | the same for a Create FAR |
| `RuleValues.RejectionNumbers` | src/oai/pfcp/pfcp_session.cpp:121-262 | cause and offending element of every rejected create, by number and in the order of the checks |
| `RuleValues.UnknownNumbers` | src/oai/pfcp/pfcp_session.cpp:67-119 | cause 73 for unknown identifiers, 66 for missing ones |
| `RuleStore.Pdr.Update` | src/oai/pfcp/pfcp_pdr.cpp:35-46 | the update of a PDR object in place |
| `RuleStore.Far.Update` | src/oai/pfcp/pfcp_far.cpp:33-48 | the update of a FAR object in place, parameters behind their flags |
| `RuleStore.Session.GetPdr` | src/oai/pfcp/pfcp_session.cpp:46-55 | the search loop finds the first rule with the identifier |
| `RuleStore.Session.GetFar` | src/oai/pfcp/pfcp_session.cpp:35-44 | likewise for FARs |
| `RuleStore.Session.Create` | src/oai/pfcp/pfcp_session.cpp:158-262 | creating a PDR on the object is the request of the model |
| `RuleStore.Session.Update` | src/oai/pfcp/pfcp_session.cpp:108-119 | so is updating one, through the shared pointer in the list |
| `RuleStore.Session.Remove` | src/oai/pfcp/pfcp_session.cpp:276-286 | and removing one |
| `RuleStore.Session.CreateAction` | src/oai/pfcp/pfcp_session.cpp:121-156 | creating a FAR |
| `RuleStore.Session.UpdateAction` | src/oai/pfcp/pfcp_session.cpp:95-106 | updating a FAR |
| `RuleStore.Session.RemoveAction` | src/oai/pfcp/pfcp_session.cpp:264-274 | removing a FAR |
| `RuleSelection.LowestIsDeployed` | src/SessionManager.cpp:47-77 | whatever order the sort gives equal precedences, the deployed PDR has the lowest precedence value and the deployed FAR is the one it names |
| `RuleSelection.HeadIsDeployedIff` | src/SessionManager.cpp:51-77 | a session is deployed if and only if its first PDR has an F-TEID, source interface, UE address and the identifier of a FAR of the session; the key and the far then have the fields of that PDR and that FAR |
| `RuleSelection.DeployedRuleActs` | src/SessionProgramManager.cpp:77-96 | from rule to packet: with FORW, destination 0 and description 0x0100 frames leave on port 0 in the tunnel of the rule, with FORW, destination 1 and 0x0400 they leave on port 1 without their tunnel, and every other rule passes them as they are |
| `RuleSelection.DeployedIsDetermined` | src/SessionManager.cpp:47-77 | with one PDR of lowest value the deployment does not depend on the sort |
| `RuleSelection.DeployedTunnel` | src/SessionProgramManager.cpp:77-96 | from rule to packet: frames encapsulated for a deployed rule carry the rule's address, port and TEID, and the parser finds them under that TEID |
| `RuleSelection.CreateBpfSession` | src/SessionManager.cpp:32-81 | the vector is left sorted with the same rule objects, and what is deployed, or thrown, follows from its first PDR |
| `PrecedenceList.Session.AddPdr` | src/pfcp/Session.cpp:15-20 | adding keeps the list a stable sort of everything added |
| `PrecedenceList.HeadIsFirstLowest` | src/pfcp/Session.cpp:39-49 | the head of a stably sorted list is the first-added rule among those of lowest value |
| `PrecedenceList.Session.GetHighestPrecedencePdr` | src/pfcp/Session.cpp:45-49 | and that is what is returned |
| `LifeCycle.ProgramLifeCycle.OpenProgram` | src/programs/ProgramLifeCycle.hpp:127-144 | opening: a null skeleton is destroyed at once and counts as opened |
| `LifeCycle.ProgramLifeCycle.LoadProgram` | src/programs/ProgramLifeCycle.hpp:146-160 | loading: a failure destroys and leaves the state |
| `LifeCycle.ProgramLifeCycle.AttachProgram` | src/programs/ProgramLifeCycle.hpp:162-175 | attaching, likewise |
| `LifeCycle.ProgramLifeCycle.DestroyProgram` | src/programs/ProgramLifeCycle.hpp:269-279 | destroying, unless idle |
| `LifeCycle.ProgramLifeCycle.LinkProgram` | src/programs/ProgramLifeCycle.hpp:177-227 | linking: unknown interface, unknown section, failing link with tear-down, or one more entry of the section |
| `LifeCycle.ProgramLifeCycle.TearDownPrograms` | src/programs/ProgramLifeCycle.hpp:229-279 | the nested unlink loops, stopped at any failing unlink, then destroy |
| `LifeCycle.FirstLifeIsSafe` | src/programs/ProgramLifeCycle.hpp:128-279 | over every first life from IDLE with distinct sections, any links and one or more tear-downs: every interface linked is unlinked exactly once and the skeleton destroyed exactly once |
| `LifeCycle.LifeIsInOrder` | src/programs/ProgramLifeCycle.hpp:177-279 | every life that is torn down links first, then unlinks, and destroys a skeleton that is there behind the last unlink |
| `LifeCycle.FailedLinkLeavesNothing` | src/programs/ProgramLifeCycle.hpp:202-206 | a link failing midway leaves nothing linked |
| `LifeCycle.LaterLifeIsSafeIff` | src/programs/ProgramLifeCycle.hpp:229-279 | in a later life exactly its own interfaces are unlinked if and only if earlier lives left no entries or nothing was linked |
| `LifeCycle.RepeatedTearDown` | src/programs/ProgramLifeCycle.hpp:251-258 | after a tear-down cut short by a failing unlink, the next one unlinks everything again |
| `HexText.HexaToAscii` | src/oai/common/utils/conversions.cpp:57-67 | two digits an octet, nothing else written |
| `HexText.AsciiToHex` | src/oai/common/utils/conversions.cpp:69-94 | answers 1 if and only if the text up to its NUL, white space aside, is an even number of hexadecimal digits, and then has stored their values |
| `HexText.HexRoundTrip` | src/oai/common/utils/conversions.cpp:57-94 | every rendering with white space put in anywhere reads back as the octets rendered |
| `HexText.RenderingIsPlain` | src/oai/common/utils/conversions.cpp:57-94 | the rendering itself, terminated, is such a text |
| `HexText.SpaceIsSkipped` | src/oai/common/utils/conversions.cpp:69-94 | white space put in anywhere before the NUL is not seen |
| `HexText.DigitCharacters` | src/oai/common/utils/conversions.cpp:36-55 | the digits by character: lower case out, either case in |
| `Digits.ToString` | src/oai/common/3gpp_29.274.h:426-440 | the digits up to the first half octet above 9, for every eight octets |
| `Digits.LowHalfFirst` | src/oai/common/3gpp_29.274.h:426-440 | two digits an octet, the low half first, up to the first half above nine |
| `Digits.ToImsi64` | src/oai/common/3gpp_29.274.h:443-461 | the decimal value of those digits, below 10^16, without overflow of 64 bits |
| `Digits.EncodeRate` | src/oai/pfcp/3gpp_29.244.hpp:1123-1135 | the encoding loop writes the five low octets in network order |
| `Digits.DecodeRate` | src/oai/pfcp/3gpp_29.244.hpp:1148-1160 | the decoding loop reads them |
| `Digits.RateRoundTrip` | src/oai/pfcp/3gpp_29.244.hpp:1123-1230 | a rate survives modulo 2^40, for all inputs |

## Left out

- Elements as shared objects: an element is a value, so a child changed after it was added to a group, or shared by two groups, is not captured; groups, messages and streams are objects.
- Elements whose printer and parser do not match (the volume thresholds, QER Correlation ID, Failed Rule ID, User ID, User Plane IP Resource Information): only what their parsers consume is modelled, and they are not printed; types without a parser are unknown types.
- PfcpLeafTrip.LeafRoundTrip: SDF Filters with a flow label or a filter identifier, which printer and parser do not agree on; they are printed and parsed apart.
- Uninitialised memory a parser may expose after a short read is one arbitrary octet, repeated.
- `to_core_type` visitors and constructors of grouped elements other than Create FAR and Forwarding Parameters, and the message constructors: the same pattern again.
- PfcpTree.DumpTo: names with a NUL in them, behind which the encoder leaves memory; `PfcpLeafStream.DumpNodeIdTo` prints them. Names on which the encoder does not return are not printed at all.
- PfcpMessage.PfcpMsg.DumpTo: the same names.
- PfcpStop.MessageReturns: short reads that expose memory of 128 and above; `PfcpStop.MessageHangsIff` decides them.
- The redirect itself, the ARP table's maintenance, the statistics and the duplicate of the forwarding code in `session_bpf.c`.
- Pipeline.DispatchIsSafe: program identifiers are not cut to 32 bits, so it holds until 2^32 programs have been created; control calls are made one after the other.
- The padding of the index key is taken to be zero on both sides.
- RuleSelection.CreateBpfSession: `std::sort` is any sort that meets its contract, and logging, singletons and interface names are not modelled.
- LifeCycle.ProgramLifeCycle.constructor: the state is IDLE at the start, which the C++ constructor leaves to its member; concurrent tear-downs are one after the other, as the mutex makes them.
- LifeCycle.FirstLifeIsSafe: unlinking does not fail there; `LifeCycle.RepeatedTearDown` says what happens when it does.
- The HTTP interface, signal handling, logging and the association logic.
