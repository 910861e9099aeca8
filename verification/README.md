# Verified model of the E-LMI protocol engine and the IMI configuration engine

This project models two parts of the NE software and proves properties of the models with Dafny 4.11.

**E-LMI (`nesoft/src/elmid`)** is the Ethernet Local Management Interface of MEF 16. A provider edge port (UNI-N)
holds a database: one UNI, a list of EVCs and a list of CE-VLAN/EVC maps. A customer port (UNI-C) polls it, either
with short periodic checks or with Full Status enquiries, and learns the database. A database that does not fit one
1500-octet frame travels in "Full Status Continued" frames cut between elements, the provider remembering in a small
cursor where it stopped. Both ends drive an UP/DOWN state from missed and accepted messages.

**IMI (`nesoft/src/imi`)** is the configuration engine: the registry of protocol-module connections, the allocator of
terminal lines, the replay of the start-up file merged with configuration IMI holds itself, the printer of line
configuration, and the reader that passes a module's show output on line by line.

## How the model is built

Each end of the protocol has a transition function on values (`UniNSpec`, `UniCSpec`) and a class in the form of the
source (`UniN.Port`, `UniC.Port`): fields updated in place, encoders and decoders that advance a cursor and a size
counter (`Tlv`), loops over lists. Every method of a class is proved to compute its transition function; what the
protocol promises is proved about the functions, for all inputs and all runs. The IMI modules follow the same plan:
`LineConfig.LineTable`, `StartupReplay.Replayer`, `ShowReader.Buffer`, `Registry.Server` (a real doubly linked list)
and `LineAllocator.Master` carry the state the source carries.

| module | contents |
|---|---|
| `Octets`, `Tlv`, `Wire` | octets, cursors, the layout and length code of information elements |
| `Bandwidth`, `VlanBitmap`, `Greedy`, `Hysteresis` | mantissa/exponent coding, the VLAN bitmap, greedy filling, the UP/DOWN counters |
| `UniNSpec`, `Fragmentation`, `Cuts`, `Serving` | the provider's transitions, cutting a database into frames, what an exchange puts on the wire |
| `UniCSpec`, `RoundTrip`, `Delivery`, `Aftermath`, `NodeLists`, `Learning`, `Transfer`, `Undeliverable`, `Interference` | the customer's transitions, decode after encode, what is learnt, whole exchanges, when they fail, and what comes of changes and stale enquiries on the way |
| `Polling`, `PollVerification`, `ClosedLoop`, `ChangeDetection` | runs of either end, both ends over an unreliable channel, noticing changes |
| `DatabaseOps`, `Provisioning`, `Encoders`, `UniN`, `UniC` | database updates, the entry each one leaves, and the imperative forms |
| `LineConfig`, `StartupReplay`, `ShowReader`, `Registry`, `LineAllocator` | the IMI parts |

Inputs of the model: link state and success of a send (`Channel`), arrival of frames and expiry of timers (events of a
run), NSM and ONM messages (operations), the command parser and the sequencer table (`StartupReplay.Config`), what a
module answers, and how much a read returns.

Terms used below. A database is *orderly* if its lists are strictly ascending by non-zero reference id, no EVC has
per-class bandwidth, every map fits one information element, and the total length is below 65536; `DatabaseOps` shows
that the order holds after any sequence of operations while no reference id is zero. It is *legal* if in addition it
has a UNI with a defined map type, a map with the same id for every EVC, the New bit on every EVC and legal flags.

## Model

| member | source | states |
|---|---|---|
| `Transfer.Exchange` | nesoft/src/elmid/elmi_uni_n.c:1508-1745 | From any earlier state of both ends, the loss-free exchange opened by a FULL_STATUS enquiry ends, after as many rounds as answers are planned, with the provider's database learnt if and only if a condition on element lengths holds (`Deliverable`) and the data instance is not a multiple of 256; an undeliverable database leaves the customer with nothing learnt, an unreadable data instance with what it had, its EVCs asleep |
| `Transfer.ExchangeFrom` | nesoft/src/elmid/elmi_uni_n.c:1572-1745 | From any point of an exchange on, whatever list of elements the customer has seen so far, it ends with everything announced learnt if and only if no later answer repeats UNI Status, every map announced from there on belongs to a known EVC and every EVC has a known map; otherwise with nothing learnt |
| `Transfer.EnabledDelivers` | nesoft/src/elmid/elmi_api.c:490-521 | With a provider port just enabled the exchange delivers if and only if the database is deliverable, with no condition on the data instance, and the customer then holds data instance 1 |
| `Interference.ChangedMeanwhile` | nesoft/src/elmid/elmi_uni_n.c:1572-1656 | When the database changes in any way between two frames, the exchange ends with the splice of both databases (what was sent of the old one, what lies beyond it in the new one) under the new data instance, or, exactly if a later answer repeats UNI Status or EVCs and maps do not fit together, with nothing learnt |
| `Interference.ChangeMissed` | nesoft/src/elmid/elmi_uni_n.c:632-660 | After such an exchange an EVC is known as the new database has it exactly if its id lies beyond the last one sent before the change (or its record would be the same), and the next periodic check finds nothing changed |
| `Interference.StaleEnquiry` | nesoft/src/elmid/elmi_uni_n.c:1572-1656 | When a copy of a continued enquiry reaches the provider first and its answer is lost, the exchange ends with the database less the elements of the frame skipped, or, exactly if a later answer repeats UNI Status or EVCs and maps do not fit together, with nothing learnt |
| `Interference.StaleUnnoticed` | nesoft/src/elmid/elmi_uni_n.c:1572-1656 | A customer that knew every EVC and map before accepts that exchange: exactly the EVCs of the skipped frame vanish, and the next periodic check finds nothing changed |
| `Interference.StaysUnderWay` | nesoft/src/elmid/elmi_uni_n.c:1572-1656 | Every continued answer with UNI Status in its place leaves an exchange in the position the two lemmas above start from |
| `Learning.EvcsExact` | nesoft/src/elmid/elmi_uni_c.c:1260-1619 | The EVCs of a delivered database are exactly the provider's; each record has the status, type (three bits), identifier (100 octets, a lone zero if empty), level and profile that were sent, and the values computed from the profile; stale EVCs are gone |
| `Learning.UniExact` | nesoft/src/elmid/elmi_uni_c.c:1087-1256 | The UNI of a delivered database has the provider's map type, identifier (64 octets) and profile, zeros if no profile per UNI is set |
| `Learning.MapsExact` | nesoft/src/elmid/elmi_uni_c.c:1622-2003 | A delivered map has the flags announced, and maps not announced are as before |
| `Learning.VidsExact` | nesoft/src/elmid/elmi_uni_c.c:1622-2003 | A delivered map has exactly the VLANs sent if and only if none learnt before for that EVC was withdrawn since |
| `Learning.MapNodesOnce` | nesoft/src/elmid/elmi_uni_c.c:1985-2003 | After a delivery a map's list node is single if and only if it was not listed before, since every announcement adds one |
| `Learning.SweepNodes` | nesoft/src/elmid/elmi_uni_c.c:2160-2209 | If the customer's EVC list had one node for each record, after the closing sweep it is the provider's ascending list of reference ids without duplicates |
| `Transfer.ContdRound` | nesoft/src/elmid/elmi_uni_c.c:2213-2310 | A continued answer with UNI Status in its place adds exactly its elements to what has been learnt and is followed by a continued enquiry if every map it holds belongs to a known EVC; otherwise the customer drops everything |
| `Transfer.ClosingRound` | nesoft/src/elmid/elmi_uni_c.c:2072-2209 | A closing answer ends the exchange with everything announced transferred if and only if every map it holds belongs to a known EVC and every EVC announced has a map; otherwise the customer drops everything |
| `Transfer.RepeatRound` | nesoft/src/elmid/elmi_uni_c.c:1648-1672 | A continued answer that repeats UNI Status makes the customer drop everything it has learnt |
| `Transfer.EmptyRound` | nesoft/src/elmid/elmi_uni_c.c:1287-1340 | A database without EVCs is accepted if and only if the UNI name has at most nine octets |
| `Learning.LearntName` | nesoft/src/elmid/elmi_uni_c.c:1215-1235 | The identifier read back from the learnt field is the one sent, cut at the field width |
| `Learning.SweepRefuses` | nesoft/src/elmid/elmi_uni_c.c:2160-2209 | The closing sweep drops everything if and only if an EVC announced has no map, announced or known before |
| `Learning.UniBwArrives` | nesoft/src/elmid/elmi_port.c:768-862 | The UNI profile NSM configures is learnt with its flags, its rates within 1/6553, and its burst sizes within 1/25 if and only if they are below 2 560 000 000 |
| `Learning.EvcBwArrives` | nesoft/src/elmid/elmi_port.c:929-1020 | The same for the profile of an EVC |
| `Serving.ExchangeOnTheWire` | nesoft/src/elmid/elmi_uni_n.c:861-945 | For every orderly database and any enquiry numbers, the frames sent in answer to a FULL_STATUS enquiry and the continued ones after it are the planned answers encoded: 46 to 1500 octets each, all but the last of type FULL_STATUS_CONTD, carrying every EVC once and then every map once in ascending reference id |
| `Serving.AnswerSent` | nesoft/src/elmid/elmi_uni_n.c:1660-1745 | One enquiry is answered by exactly the planned frame, quoting the enquiry's number, and leaves the cursor ready for the next |
| `Serving.ResumedSent` | nesoft/src/elmid/elmi_uni_n.c:1572-1656 | A continued enquiry is answered by the frame made from the cursor and the present database |
| `Serving.CheckForgets` | nesoft/src/elmid/elmi_uni_n.c:778-793 | A periodic check in the middle of an exchange is answered by a bare padded header and makes the provider forget the last reference id it sent, and nothing else of the exchange |
| `Serving.CheckRestarts` | nesoft/src/elmid/elmi_uni_n.c:390-770 | A continued enquiry behind such a check starts the list over: from the first EVC, or from the first map with no EVC if the exchange had come to the maps |
| `Fragmentation.ExactlyOnce` | nesoft/src/elmid/elmi_uni_n.c:390-770 | Concatenating the answers of an exchange gives every EVC once and then every map once, in list order; only the last answer is FULL_STATUS |
| `Fragmentation.FirstFollowsPlan` | nesoft/src/elmid/elmi_uni_n.c:1508-1568 | Whatever state earlier exchanges left in the cursor, the first answer is the one planned by index, and so is the cursor behind it |
| `Fragmentation.NextFollowsPlan` | nesoft/src/elmid/elmi_uni_n.c:1572-1656 | A continued answer driven by the last id and element type is the one planned by index from the first element not yet sent |
| `Fragmentation.ResumedAnswer` | nesoft/src/elmid/elmi_uni_n.c:1572-1656 | A cursor set for one database and used with another makes the next answer start behind the last id sent, in the list it was sent from, and fill its frame; UNI Status is repeated exactly if the last frame ended right before the first map |
| `Fragmentation.BeyondSent` | nesoft/src/elmid/elmi_uni_n.c:632-660 | In a strictly ascending list, skipping ids up to the last one sent leaves exactly the elements not sent |
| `Fragmentation.RemainingAt` | nesoft/src/elmid/elmi_uni_n.c:1580-1625 | The octets counted as still to be sent are exactly those of the elements from the cursor on |
| `Fragmentation.PlanWellFilled` | nesoft/src/elmid/elmi_uni_n.c:696-708 | Every answer fits its frame and only the last leaves 254 octets or more unused |
| `Fragmentation.PlanLeavesRest` | nesoft/src/elmid/elmi_uni_n.c:1601-1652 | Every continued answer carries at least one element and leaves at least one: the exchange terminates |
| `Fragmentation.FrameBound` | nesoft/src/elmid/elmi_uni_n.c:463-473 | Every continued answer carries at least 1147 octets not sent before, which bounds the number of frames by the size of the database |
| `Fragmentation.FullStatusWhenItFits` | nesoft/src/elmid/elmi_uni_n.c:799-857 | A FULL_STATUS request is answered by FULL_STATUS if and only if the whole database fits 1500 octets |
| `Fragmentation.FrameSize` | nesoft/src/elmid/elmi_uni_n.c:1116-1122 | A frame has as many octets as the length code says, padded to at least 46 and at most 1500 |
| `Cuts.RepeatsIsCut` | nesoft/src/elmid/elmi_uni_n.c:868-945 | A later answer repeats UNI Status if and only if greedy cutting by lengths begins a frame at the first map and the maps exceed one frame |
| `Undeliverable.CutInFirstFrame` | nesoft/src/elmid/elmi_uni_n.c:868-945 | A sufficient instance of that condition: the EVCs fill the first frame up to the first map |
| `Undeliverable.ExampleIsNotDelivered` | nesoft/src/elmid/elmi_uni_n.c:868-945 | A concrete legal database of eleven EVCs with which every exchange with a readable data instance, from any earlier state of both ends, leaves the customer without anything learnt |
| `ClosedLoop.SequenceSafety` | nesoft/src/elmid/elmi_uni_c.c:471-504 | Over any loss, duplication, delay and reordering, a numbered response the customer accepts answers an enquiry congruent to its latest modulo 255, hence the latest itself unless it lies 255 or more enquiries back |
| `ClosedLoop.NetInvAfter` | nesoft/src/elmid/elmi_uni_n.c:303-310 | Every frame ever sent keeps its meaning: the k-th enquiry carries its number and each answer quotes the number of the enquiry it answers |
| `ClosedLoop.AnswerQuotes` | nesoft/src/elmid/elmi_uni_n.c:1483-1504 | The provider quotes in its answer the number of the enquiry answered |
| `ChangeDetection.ChangesNoticed` | nesoft/src/elmid/elmi_uni_c.c:2007-2068 | A customer holding the database learns at its next periodic check of the changes made since, by any sequence of operations, if and only if neither their number nor the data instance they lead to is a multiple of 256 |
| `ChangeDetection.CheckIs` | nesoft/src/elmid/elmi_uni_c.c:2007-2068 | A periodic check is answered by a response the customer accepts if and only if the provider's data instance is not a multiple of 256, and then reports a change exactly if its low octet differs from the one stored |
| `ChangeDetection.EnabledAnswers` | nesoft/src/elmid/elmi_api.c:490-521 | A provider port just enabled answers its first periodic check, and the customer sees a change unless it holds data instance 1 |
| `ChangeDetection.InstanceSinceEnabling` | nesoft/src/elmid/elmi_api.c:490-521 | After operations with k counted changes since enabling the data instance is 1 + k modulo 2^32 |
| `ChangeDetection.UniDropUnnoticed` | nesoft/src/elmid/elmi_port.c:677-707 | Deleting the UNI does not move the data instance: the next periodic check finds nothing changed |
| `ChangeDetection.DataInstanceCounts` | nesoft/src/elmid/elmi_port.c:390-1240 | The data instance counts, in 32 bits, exactly the successful operations of any sequence other than status reports and deletions of the UNI |
| `Polling.Conservation` | nesoft/src/elmid/elmi_uni_c.c:347-356 | In every run of the customer, validated solicited responses never outnumber enquiries sent, with one to spare while a request is open |
| `Polling.RetryUntilComplete` | nesoft/src/elmid/elmi_timer.c:68-143 | Once a FULL_STATUS or continued enquiry has been sent, no ECHECK enquiry is sent before a Full Status response has been accepted |
| `Polling.PollCounter` | nesoft/src/elmid/elmi_timer.c:111-135 | In every run the polling counter lies in 1..N391 and counts down from each multiple of N391 |
| `Polling.FullAtEveryN391` | nesoft/src/elmid/elmi_timer.c:111-143 | In every run every N391-th expiry asks for FULL_STATUS |
| `Polling.SequenceNumbers` | nesoft/src/elmid/elmi_uni_c.c:115-126 | In every run the k-th enquiry carries ((k-1) mod 255)+1, never zero |
| `Polling.QuotedNumbers` | nesoft/src/elmid/elmi_uni_c.c:471-504 | In every run every enquiry quotes, in octet 8, the provider's number from the last numbered response accepted by then, and zero before there is one |
| `Polling.OperationalState` | nesoft/src/elmid/elmi_timer.c:71-110 | In every run of the customer, taking every expiry whose enquiry was not answered as a miss and every message accepted as an accept, the state is DOWN exactly from the N393-th miss in a row until the N393-th accept in a row; NSM hears UP first, then alternating states, and always knows the current one |
| `Polling.RunIsDue` | nesoft/src/elmid/elmi_timer.c:71-110 | What the counters are told in a run is exactly what is due from events and outputs: a miss at an expiry if no answer was accepted since the last enquiry, an accept at each message accepted |
| `Polling.RunIsCoreRun` | nesoft/src/elmid/elmi_uni_c.c:2399-2493 | Every run of the full customer state machine is a run on its few protocol fields: what the messages contain matters only through six outcomes |
| `PollVerification.OperationalState` | nesoft/src/elmid/elmi_timer.c:154-213 | In every run of the provider, taking every expiry with no enquiry heard since the last frame sent as a miss and every frame sent as an accept, the state is DOWN exactly from the N393-th miss in a row until the N393-th accept in a row; NSM hears UP first, then alternating states |
| `PollVerification.HistoryIsDue` | nesoft/src/elmid/elmi_timer.c:170-201 | What the counters are told in a run is exactly what is due, as defined from the events alone: a miss at each expiry with no acceptable enquiry heard since the last frame sent, an accept at each frame sent while the verification timer is enabled |
| `PollVerification.SilenceGoesDown` | nesoft/src/elmid/elmi_timer.c:170-201 | A customer never heard from: after m expiries the port is UP if and only if m < N393, and NSM has been told DOWN once from then on |
| `PollVerification.ArrivalTakesEffect` | nesoft/src/elmid/elmi_uni_n.c:1660-1745 | A frame that is no enquiry changes nothing; an acceptable one is answered exactly if link and socket let it |
| `PollVerification.ProviderNumbers` | nesoft/src/elmid/elmi_uni_n.c:1060-1180 | In every run the k-th frame the provider builds carries ((k-1) mod 255)+1, the number of the enquiry it answers, and the data instance |
| `Hysteresis.RefinesHistory` | nesoft/src/elmid/elmi_timer.c:175-201 | For every history of misses and accepts the wrapping 8-bit counters give exactly the state specified by runs of N393 |
| `Hysteresis.TransitionInstants` | nesoft/src/elmid/elmi_uni_c.c:2467-2489 | UP turns to DOWN exactly at the N393-th miss since the last accept, DOWN to UP exactly at the N393-th accept since the last miss |
| `Hysteresis.NotesAlternate` | nesoft/src/elmid/elmi_api.c:458-521 | Notifications strictly alternate starting with UP and the last one is the current state |
| `Bandwidth.Code16Accurate` | nesoft/src/elmid/elmi_api.c:694-716 | 16-bit coding never truncates, has magnitude at most 5, and reads back within 1/6553 below the value |
| `Bandwidth.Code8Accurate` | nesoft/src/elmid/elmi_api.c:718-740 | 8-bit coding reads back within 1/25 if and only if the value is below 2 560 000 000; magnitude is at most 6 if and only if it is below 256 000 000 |
| `Bandwidth.CodeIdempotent` | nesoft/src/elmid/elmi_uni_c.c:27-41 | Coding a value that was read back reads back as the same value |
| `Bandwidth.MantissaExponent16` | nesoft/src/elmid/elmi_api.c:694-716 | The loop computes the 16-bit code about which accuracy is proved |
| `Bandwidth.MantissaExponent8` | nesoft/src/elmid/elmi_api.c:718-740 | The loop computes the 8-bit code, the cut to eight bits included |
| `Bandwidth.NumberFromExponent` | nesoft/src/elmid/elmi_uni_c.c:27-41 | The loop computes multiplier times ten to the magnitude in 32 bits |
| `VlanBitmap.Bitmap.Set` | nesoft/src/elmid/elmi_types.h:211-215 | Adds one VLAN to the set the words stand for and nothing else |
| `VlanBitmap.Bitmap.Unset` | nesoft/src/elmid/elmi_types.h:217-221 | Removes one VLAN from the set and nothing else |
| `VlanBitmap.Bitmap.Iterate` | nesoft/src/elmid/elmi_types.h:184-193 | Visits every member once in ascending order |
| `VlanBitmap.CountShared` | nesoft/src/elmid/elmi_port.c:1380-1396 | Counts the VLANs common to EVC and port |
| `VlanBitmap.CollectShared` | nesoft/src/elmid/elmi_port.c:1380-1412 | The array filled after counting holds exactly the common VLANs, ascending, without unused or overrun slot |
| `Wire.EvcLengthExact` | nesoft/src/elmid/elmi_uni_n.c:30-74 | The computed EVC length equals the octets emitted if and only if there is no per-class profile; no 8-bit sum wraps |
| `Wire.EvcLengthOctet` | nesoft/src/elmid/elmi_uni_n.c:685-700 | The length octet of an EVC Status element counts what follows it |
| `Wire.CosOctets` | nesoft/src/elmid/elmi_uni_n.c:218-256 | Where each value of a per-class profile stands, and that its length octet says 12 where 19 octets follow |
| `Wire.MapLengthOctets` | nesoft/src/elmid/elmi_uni_n.c:561-622 | For a map that fits one element, computed length and both length octets equal the octets they count |
| `Wire.FlattenLength` | nesoft/src/elmid/elmi_uni_n.c:799-857 | The sum of computed lengths is the number of octets written |
| `Wire.EmptyBwIeIsZero` | nesoft/src/elmid/elmi_uni_n.c:104-154 | Every absent bandwidth profile travels as the all-zero profile |
| `RoundTrip.HeaderValidates` | nesoft/src/elmid/elmi_uni_c.c:213-390 | A response header passes validation exactly when a request of the matching kind is open |
| `RoundTrip.SeqDiRoundTrip` | nesoft/src/elmid/elmi_uni_c.c:394-575 | Number and data instance of a response are accepted if and only if the number quoted is that of the latest enquiry and the data instance is not a multiple of 256; only the low octet of the data instance survives |
| `RoundTrip.PlainSeqDi` | nesoft/src/elmid/elmi_uni_c.c:394-575 | Octet by octet, which numbers and data instances any response is refused for |
| `RoundTrip.PlainResponse` | nesoft/src/elmid/elmi_uni_c.c:213-390 | Octet by octet, which responses pass validation in which state of the request |
| `RoundTrip.ResponseRepeats` | nesoft/src/elmid/elmi_uni_c.c:213-390 | A repeated version or message type only moves what follows |
| `RoundTrip.EnquiryRoundTrip` | nesoft/src/elmid/elmi_uni_n.c:1186-1479 | The provider reads from an enquiry the report type and number the customer put into it, and refuses report type or number zero |
| `RoundTrip.PlainEnquiry` | nesoft/src/elmid/elmi_uni_n.c:1186-1479 | Octet by octet, which enquiries of any sender are acceptable |
| `RoundTrip.EnquiryRepeats` | nesoft/src/elmid/elmi_uni_n.c:1186-1479 | A repeated version or message type is skipped |
| `RoundTrip.SequenceRepeats` | nesoft/src/elmid/elmi_uni_n.c:1186-1479 | A repeated sequence number element of any length is skipped |
| `RoundTrip.UniBwRoundTrip` | nesoft/src/elmid/elmi_uni_c.c:579-759 | A UNI bandwidth profile decodes to the profile encoded |
| `RoundTrip.EvcBwRoundTrip` | nesoft/src/elmid/elmi_uni_c.c:763-1083 | An EVC bandwidth profile decodes to the profile encoded |
| `RoundTrip.UniRoundTrip` | nesoft/src/elmid/elmi_uni_c.c:1087-1256 | A UNI Status element decodes to what was encoded if and only if its map type is one of the three defined |
| `RoundTrip.EvcRoundTrip` | nesoft/src/elmid/elmi_uni_c.c:1260-1619 | An EVC Status element with the New bit replaces whatever was known under its id by exactly what was encoded |
| `RoundTrip.EvcsRoundTrip` | nesoft/src/elmid/elmi_uni_c.c:1260-1619 | A run of EVC Status elements is learnt element by element and the last id remembered |
| `RoundTrip.EvcTurnRefuses` | nesoft/src/elmid/elmi_uni_c.c:1260-1619 | An EVC Status element of any sender is refused if and only if its reference id is zero or descends, its status or type is out of range, or it is a point-to-point EVC partially active |
| `RoundTrip.VidsRoundTrip` | nesoft/src/elmid/elmi_uni_c.c:1942-1962 | The VLAN ids of a map decode to the set encoded |
| `RoundTrip.MapRoundTrip` | nesoft/src/elmid/elmi_uni_c.c:1622-2003 | A map element is learnt, its VLANs added to those known, if and only if its EVC is known |
| `RoundTrip.MapsRoundTrip` | nesoft/src/elmid/elmi_uni_c.c:1622-2003 | A run of map elements is learnt element by element if and only if every EVC in it is known |
| `RoundTrip.MapRefuses` | nesoft/src/elmid/elmi_uni_c.c:1622-2003 | A map element of any sender is refused if and only if its EVC is unknown, its reference id descends, it is a second default EVC or one the map type forbids, or untagged with all-to-one bundling |
| `Delivery.FrameSections` | nesoft/src/elmid/elmi_uni_n.c:861-945 | An encoded answer, padding included, is laid out as the decoders expect it |
| `Delivery.ContdTaken` | nesoft/src/elmid/elmi_uni_c.c:2213-2310 | The decoder of a continued answer learns exactly the elements laid out if the EVC of every map is known, and otherwise clears everything |
| `Delivery.FullTaken` | nesoft/src/elmid/elmi_uni_c.c:2072-2209 | The decoder of a closing answer learns exactly the elements laid out and sweeps if the EVC of every map is known, and otherwise clears everything |
| `Delivery.RepeatCleared` | nesoft/src/elmid/elmi_uni_c.c:1648-1672 | A UNI Status element where maps are expected clears what was learnt, whatever its contents except one name length and reference id |
| `Delivery.EmptyTaken` | nesoft/src/elmid/elmi_uni_c.c:1287-1340 | An answer without elements is accepted exactly if two octets of padding follow UNI Status |
| `Delivery.AsyncTaken` | nesoft/src/elmid/elmi_uni_c.c:2314-2396 | An asynchronous status message for a known EVC sets that record's status and changes no other record, field or list; for an unknown one it changes nothing |
| `Delivery.RefusedAtOnce` | nesoft/src/elmid/elmi_uni_c.c:1260-1340 | An answer that begins with an EVC out of order: a continued one is dropped and leaves what is known, a closing one clears everything |
| `NodeLists.LearnEvcsTidy` | nesoft/src/elmid/elmi_uni_c.c:1430-1590 | Learning EVCs keeps one list node for each record, ascending |
| `NodeLists.LearnMapsCounts` | nesoft/src/elmid/elmi_uni_c.c:1985-2003 | Learning maps adds one list node for each map announced |
| `Aftermath.FullAllOrNothing` | nesoft/src/elmid/elmi_uni_c.c:2072-2209 | Whatever its octets, a closing answer changes nothing if its number or data instance is wrong, leaves nothing learnt if it is refused for anything else, and otherwise leaves only EVCs seen in the exchange, each listed one with a map |
| `Aftermath.ContdLeaves` | nesoft/src/elmid/elmi_uni_c.c:2213-2310 | Whatever its octets, a continued answer changes nothing if its number is wrong, clears everything or at most adds to the known EVCs if it is refused, and otherwise is followed by the next continued enquiry |
| `Aftermath.CheckLeaves` | nesoft/src/elmid/elmi_uni_c.c:2007-2068 | The answer to a periodic check leaves what has been learnt and the data instance; with a differing data instance everything is asked for anew |
| `Aftermath.EnquiryLeaves` | nesoft/src/elmid/elmi_uni_c.c:49-206 | An enquiry quotes the number and data instance held and touches at most the marks of the EVCs: it takes them back exactly when it asks for everything and goes out |
| `Aftermath.EnabledAsks` | nesoft/src/elmid/elmi_api.c:458-521 | A customer port just enabled asks for everything with number 1, quoting no number and data instance zero; UNI and maps learnt before stay, and no EVC counts as seen |
| `Aftermath.ExpiryLeaves` | nesoft/src/elmid/elmi_timer.c:46-151 | A timer expiry does no more than that to what has been learnt |
| `Aftermath.SweepLeaves` | nesoft/src/elmid/elmi_uni_c.c:2160-2209 | The closing sweep succeeds if and only if every listed EVC seen in the exchange has a map, and keeps exactly the EVCs seen, unchanged |
| `Aftermath.OtherReports` | nesoft/src/elmid/elmi_uni_c.c:2399-2493 | A valid message of an unknown report type counts as heard, closes the request and does nothing else |
| `Aftermath.VidsExactly` | nesoft/src/elmid/elmi_uni_c.c:1942-1962 | The VLANs read from a map element are the words below 4096 among its entries |
| `Aftermath.ClassesLearnt` | nesoft/src/elmid/elmi_uni_c.c:763-1083 | A run of per-class profiles in the standard's layout is skipped as a whole and sets only the level |
| `DatabaseOps.AlwaysWellKept` | nesoft/src/elmid/elmi_port.c:234-1315 | After any sequence of the NSM operations on EVCs, UNI and bandwidth profiles and of ONM status reports the lists are strictly ascending, every EVC has its map, and every EVC keeps its New bit |
| `DatabaseOps.WellKeptIsSorted` | nesoft/src/elmid/elmi_port.c:234-410 | Such a database is sorted as exactly-once needs it if and only if no reference id is zero |
| `DatabaseOps.OthersUntouched` | nesoft/src/elmid/elmi_port.c:234-1315 | No operation changes an EVC or map other than the one it names; those on the UNI name none |
| `DatabaseOps.AddKeeps` | nesoft/src/elmid/elmi_port.c:234-410 | Adding keeps the invariant and adds exactly one id |
| `DatabaseOps.ChangeKeeps` | nesoft/src/elmid/elmi_port.c:412-519 | Changing succeeds exactly for known EVCs and keeps invariant and ids |
| `DatabaseOps.StatusKeeps` | nesoft/src/elmid/elmi_port.c:1245-1315 | A status report keeps invariant and ids |
| `DatabaseOps.DropKeeps` | nesoft/src/elmid/elmi_port.c:522-606 | Deleting keeps the invariant; the id disappears exactly if it was there and the link is up |
| `DatabaseOps.DropRemoves` | nesoft/src/elmid/elmi_port.c:522-606 | With the link up a deleted EVC and its map are gone |
| `DatabaseOps.ProfilesKeep` | nesoft/src/elmid/elmi_port.c:608-1240 | Operations on the UNI and on bandwidth profiles keep invariant and ids |
| `Provisioning.Added` | nesoft/src/elmid/elmi_port.c:234-410 | After an EVC is added, its record has the message's type and cut name, the New bit, no bandwidth level and the former profiles; its map has exactly the former VLANs and the message's (modulo 4096) and the message's flags; the data instance has moved by one |
| `Provisioning.Changed` | nesoft/src/elmid/elmi_port.c:412-519 | After a change the fields in the message are set, those absent stay, VLANs are added or replaced as the message says, and the data instance has moved by one; an unknown EVC changes nothing |
| `Provisioning.Reported` | nesoft/src/elmid/elmi_port.c:1245-1315 | After a status report the record has the E-LMI code of the CFM status with its New bit kept; the data instance stays |
| `Provisioning.Dropped` | nesoft/src/elmid/elmi_port.c:522-606 | A deletion takes EVC and map with the link up, nothing with it down, and counts in either case if the EVC was there |
| `Provisioning.EvcProfileSet` | nesoft/src/elmid/elmi_port.c:929-1020 | A profile set on an EVC is there coded value by value, both levels are per EVC, and all else is kept |
| `Provisioning.EvcProfileCleared` | nesoft/src/elmid/elmi_port.c:1022-1079 | A profile removed from an EVC is gone with the port's level, and all else is kept |
| `Provisioning.ClassProfileSet` | nesoft/src/elmid/elmi_port.c:1081-1180 | The profile of a class is stored in its slot and no other; class 0 is refused |
| `Provisioning.ClassProfileCleared` | nesoft/src/elmid/elmi_port.c:1182-1240 | Removing the profile of a class empties its slot and removes the profile of the EVC |
| `Provisioning.UniAdded` | nesoft/src/elmid/elmi_port.c:608-675 | Adding the UNI sets the map type of its service attribute and the cut name, keeps a profile, and moves the data instance |
| `Provisioning.UniChanged` | nesoft/src/elmid/elmi_port.c:709-766 | Updating the UNI sets what the message carries and keeps the rest; without a UNI nothing happens |
| `Provisioning.UniProfileSet` | nesoft/src/elmid/elmi_port.c:768-862 | A profile set on the UNI is there coded value by value with the level per UNI |
| `Provisioning.UniProfileCleared` | nesoft/src/elmid/elmi_port.c:864-927 | A profile removed from the UNI is gone; without one the request is refused |
| `UniN.Port.constructor` | nesoft/src/elmid/elmi_api.c:405-524 | Enabling a provider port gives the state every run starts from, in which a first exchange delivers and a first check is answered (Transfer.EnabledDelivers, ChangeDetection.EnabledAnswers) |
| `UniN.Port.HandleFrame` | nesoft/src/elmid/elmi_uni_n.c:1660-1745 | Handling a frame changes the port and sends frames exactly as the provider's transition function, the subject of the run theorems |
| `UniN.Port.Tx` | nesoft/src/elmid/elmi_uni_n.c:1056-1180 | Transmission with the link or socket down changes exactly what the transition function says |
| `UniN.Port.BuildFrame` | nesoft/src/elmid/elmi_uni_n.c:1056-1122 | Writing through cursor and size counter yields the planned frame and cursor |
| `UniN.Port.SendFullStatus` | nesoft/src/elmid/elmi_uni_n.c:861-905 | Writes header and payload of a FULL_STATUS answer and resets the cursor |
| `UniN.Port.SendFullStatusContd` | nesoft/src/elmid/elmi_uni_n.c:908-945 | Writes header and payload of a continued answer and moves the cursor |
| `UniN.Port.SendEcheck` | nesoft/src/elmid/elmi_uni_n.c:778-793 | Writes a bare header and clears the last id |
| `UniN.Port.EncodeEvcs` | nesoft/src/elmid/elmi_uni_n.c:632-770 | The in-place list loop writes exactly the greedy prefix of the EVCs pending and records where it stopped |
| `UniN.Port.EncodeMaps` | nesoft/src/elmid/elmi_uni_n.c:390-628 | The in-place list loop writes exactly the greedy prefix of the maps pending and records where it stopped |
| `UniN.Port.ProcessFullStatus` | nesoft/src/elmid/elmi_uni_n.c:1508-1568 | A FULL_STATUS enquiry restarts the exchange and is answered as the transition function says |
| `UniN.Port.ProcessFullStatusContd` | nesoft/src/elmid/elmi_uni_n.c:1572-1656 | A continued enquiry is answered from the cursor as the transition function says |
| `UniN.Port.ProcessEcheck` | nesoft/src/elmid/elmi_uni_n.c:1483-1504 | An ECHECK enquiry is answered as the transition function says |
| `UniN.Port.ComputeTotalLen` | nesoft/src/elmid/elmi_uni_n.c:799-857 | The 16-bit sum over both lists is the length of the whole database modulo 65536 |
| `UniN.Port.RemainingLen` | nesoft/src/elmid/elmi_uni_n.c:1580-1625 | The 16-bit sum over what the cursor leaves is the remaining length modulo 65536 |
| `UniN.Port.VerificationTimer` | nesoft/src/elmid/elmi_timer.c:154-213 | An expiry changes counters and state as the transition function does, about whose runs HistoryIsDue says that it misses exactly when no enquiry was heard |
| `UniN.Port.EvcAdd` | nesoft/src/elmid/elmi_port.c:234-410 | Look-up, update in place or sorted insertion of EVC and map amount to the operation on values about which Provisioning.Added says what entry it leaves |
| `UniN.Port.EvcUpdate` | nesoft/src/elmid/elmi_port.c:412-519 | The same for an update; an unknown EVC changes nothing |
| `UniN.Port.UpdateEvcStatus` | nesoft/src/elmid/elmi_port.c:1245-1315 | The same for a status report |
| `UniN.Port.EvcDelete` | nesoft/src/elmid/elmi_port.c:522-606 | The same for a deletion, with the link up or down |
| `UniN.Port.AddUni` | nesoft/src/elmid/elmi_port.c:608-675 | Creating or overwriting the UNI is the operation on values; an existing profile stays |
| `UniN.Port.DeleteUni` | nesoft/src/elmid/elmi_port.c:677-707 | The same for deleting the UNI, which leaves the data instance alone |
| `UniN.Port.UpdateUni` | nesoft/src/elmid/elmi_port.c:709-766 | The same for updating the UNI; without one nothing changes |
| `UniN.Port.UniBwAdd` | nesoft/src/elmid/elmi_port.c:768-862 | The same for the profile of the UNI, its four values coded |
| `UniN.Port.UniBwDel` | nesoft/src/elmid/elmi_port.c:864-927 | The same for removing it; refused if there is none |
| `UniN.Port.EvcBwAdd` | nesoft/src/elmid/elmi_port.c:929-1020 | The same for the profile of an EVC, which also sets both bandwidth levels |
| `UniN.Port.EvcBwDel` | nesoft/src/elmid/elmi_port.c:1022-1079 | The same for removing it |
| `UniN.Port.CosBwAdd` | nesoft/src/elmid/elmi_port.c:1081-1180 | The same for the profile of one class; class 0 is refused |
| `UniN.Port.CosBwDel` | nesoft/src/elmid/elmi_port.c:1182-1240 | The same for removing it, together with the profile of the EVC |
| `UniN.CodeProfile` | nesoft/src/elmid/elmi_api.c:694-740 | Codes the four values of a profile as the operations on values do |
| `UniN.Port.EvcLookUp` | nesoft/src/elmid/elmi_api.c:626-655 | Index of the first EVC with an id, or the length of the list |
| `UniN.Port.MapLookUp` | nesoft/src/elmid/elmi_api.c:660-692 | Index of the first map with an id, or the length of the list |
| `UniN.ValidateRcvdPdu` | nesoft/src/elmid/elmi_uni_n.c:1186-1479 | The cursor-driven validation of an enquiry finds report type and number exactly when the enquiry is acceptable |
| `Encoders.EncodeUniStatus` | nesoft/src/elmid/elmi_uni_n.c:327-386 | Appends exactly one UNI Status element |
| `Encoders.EncodeEvcStatus` | nesoft/src/elmid/elmi_uni_n.c:632-770 | Appends exactly one EVC Status element |
| `Encoders.EncodeMap` | nesoft/src/elmid/elmi_uni_n.c:561-622 | Appends exactly one CE-VLAN map element, VLANs ascending from the bitmap |
| `Encoders.EncodeUniBwProfile` | nesoft/src/elmid/elmi_uni_n.c:104-154 | Appends the profile, or zeros when none applies |
| `Encoders.EncodeEvcBwProfile` | nesoft/src/elmid/elmi_uni_n.c:157-266 | Appends the profile, zeros, or one element for each class |
| `Encoders.EncodePadding` | nesoft/src/elmid/elmi_uni_n.c:1116-1122 | Pads what has been written to 46 octets |
| `Tlv.Writer.PutW` | nesoft/src/lib/tlv.h:75-120 | Appends the two octets of a word and uses up two octets of the size counter |
| `Tlv.Reader.GetW` | nesoft/src/lib/tlv.h:160-200 | Reads a word, zero beyond the frame, and advances by two |
| `UniC.Port.constructor` | nesoft/src/elmid/elmi_api.c:405-524 | A customer port is made with nothing received, the polling counter at N391 and the learnt data it is given; Enable does the rest |
| `UniC.Port.Enable` | nesoft/src/elmid/elmi_api.c:458-521 | Enabling a port just made notifies UP and sends the first FULL_STATUS enquiry as the initial step of every run does |
| `UniC.Port.HandleFrame` | nesoft/src/elmid/elmi_uni_c.c:2399-2493 | Handling a frame changes the port, sends enquiries and notifies exactly as the customer's transition function, the subject of the run theorems |
| `UniC.Port.Tx` | nesoft/src/elmid/elmi_uni_c.c:49-206 | Transmission advances the number even when sending fails, and opens a request only when it succeeds |
| `UniC.Port.PollingTimer` | nesoft/src/elmid/elmi_timer.c:46-151 | An expiry changes the port as the transition function says |
| `UniC.Port.DecodeUniStatus` | nesoft/src/elmid/elmi_uni_c.c:1087-1256 | The cursor-driven decoder learns a UNI exactly when the element is acceptable, its 8-bit length arithmetic included |
| `UniC.Port.DecodeEvcStatus` | nesoft/src/elmid/elmi_uni_c.c:1260-1619 | The cursor-driven loop learns, fails or finds nothing exactly as the transition function says |
| `UniC.Port.DecodeMaps` | nesoft/src/elmid/elmi_uni_c.c:1622-2003 | The cursor-driven loop over map elements learns or fails exactly as the transition function says |
| `UniC.Port.ParseStatusPdu` | nesoft/src/elmid/elmi_uni_c.c:2007-2068 | An ECHECK response is accepted, and a changed data instance answered by a FULL_STATUS enquiry, as the transition function says |
| `UniC.Port.ParseFullStatusPdu` | nesoft/src/elmid/elmi_uni_c.c:2072-2209 | A Full Status response is parsed as the transition function says |
| `UniC.Port.ParseFullStatusContdPdu` | nesoft/src/elmid/elmi_uni_c.c:2213-2310 | A continued response is parsed and followed up as the transition function says |
| `UniC.Port.ParseAsyncEvcPdu` | nesoft/src/elmid/elmi_uni_c.c:2314-2396 | An asynchronous status message changes the status of a known EVC and nothing else |
| `UniC.SweepNodes` | nesoft/src/elmid/elmi_uni_c.c:2160-2209 | The sweep over the node list keeps exactly the active EVCs and reports exactly whether one of them has no map |
| `UniC.AddSort` | nesoft/src/lib/linklist.c:92-133 | Inserts in front of the first larger node |
| `UniC.DeleteNode` | nesoft/src/lib/linklist.c:325-352 | Removes the first node of a record |
| `UniC.DecodeSeqAndDataInstance` | nesoft/src/elmid/elmi_uni_c.c:394-575 | Reads number and data instance exactly when both are acceptable |
| `UniC.ValidateRcvdPdu` | nesoft/src/elmid/elmi_uni_c.c:213-390 | The cursor-driven validation accepts exactly the responses the state allows |
| `LineConfig.PrintReplay` | nesoft/src/imi/imi_config.c:840-938 | Printing what any sequence of commands has left and replaying it on fresh lines restores every line in front of the first hole and touches no other |
| `LineConfig.RestoredIs` | nesoft/src/imi/imi_cli.c:560-625 | Privilege, timeout, history limit and login mode survive printing and replaying; the whole record does if and only if the timeout was not set away from its default and back |
| `LineConfig.RestoredExactly` | nesoft/src/imi/imi_config.c:840-938 | A line comes back as it was if and only if it lies in front of the first hole and its timeout was not set away from the default and back, or, behind a hole, is as the target has it already |
| `LineConfig.HoleExample` | nesoft/src/imi/imi_config.c:896-938 | A line changed behind a hole is not printed at all |
| `LineConfig.PrintedRuns` | nesoft/src/imi/imi_config.c:896-938 | What is printed is one block for each of the maximal runs of equal lines in front of the first hole, and the runs partition them |
| `LineConfig.AllReachableKept` | nesoft/src/imi/imi_cli.c:304-625 | Every reachable line satisfies the value ranges and flag relations replay depends on |
| `LineConfig.SettingActs` | nesoft/src/imi/imi_cli.c:392-625 | Every settings command acts on each line of the selected range and nothing else: it sets its own fields to the values given, or to those of a new line for a `no` form, whatever they were, and leaves the fields of the other groups; with a number out of range it does nothing |
| `LineConfig.SelectingActs` | nesoft/src/imi/imi_cli.c:305-350 | Selecting a range keeps its lines and creates the missing ones with default settings |
| `LineConfig.FreeingActs` | nesoft/src/imi/imi_cli.c:352-390 | Freeing a range empties its slots and keeps the other lines |
| `LineConfig.LaterCounts` | nesoft/src/imi/imi_cli.c:392-625 | Of two commands of a group, such as the three login forms, only the later one counts |
| `LineConfig.NoFormPrints` | nesoft/src/imi/imi_config.c:840-895 | After a `no` form no command of its group is printed |
| `LineConfig.LineTable.constructor` | nesoft/src/imi/imi_line.c:17-43 | New lines carry the default settings |
| `LineConfig.LineTable.LineGet` | nesoft/src/imi/imi_line.c:80-89 | Finds or creates a line; the vector grows as needed |
| `LineConfig.LineTable.SelectVty` | nesoft/src/imi/imi_cli.c:305-350 | Selecting a range creates the missing lines and nothing else |
| `LineConfig.LineTable.FreeVty` | nesoft/src/imi/imi_cli.c:352-390 | Freeing a range empties exactly its slots |
| `LineConfig.LineTable.Run` | nesoft/src/imi/imi_cli.c:304-625 | Executing a command in place is the command's effect on values, about which SettingActs, SelectingActs and FreeingActs say what it is |
| `LineConfig.LineTable.TypeEncode` | nesoft/src/imi/imi_config.c:896-938 | The loop over the vector with its minimum, maximum and last line prints what the run description prints |
| `StartupReplay.OrderedMerge` | nesoft/src/imi/imi_server.c:734-881 | Over any file the IMI blocks sent are exactly the IMI-held types up to the largest index stamped on a parsed line, each once, in increasing sequencer order |
| `StartupReplay.StampedLines` | nesoft/src/imi/imi_server.c:775-881 | A stamped file line is passed on if and only if its type is not IMI-held, only passed lines are sent, and by then every IMI type of smaller index has gone out |
| `StartupReplay.LineIs` | nesoft/src/imi/imi_server.c:775-881 | In any run, with any answers of the module: which type a line is stamped with, when it is passed on, that it is sent exactly if it is passed on, concerns the module and no mode is awaited, and the mode it leaves |
| `StartupReplay.AllAnswered` | nesoft/src/imi/imi_server.c:478-524 | As long as the module carries out all it is sent, it is sent exactly the lines passed on of which some module other than IMI is its own |
| `StartupReplay.HeldBack` | nesoft/src/imi/imi_server.c:478-524 | Behind a line refused in a mode it would have left nothing is sent until that mode is back, a line is parsed in CONFIG mode or a section begins; a refused line that stays in its mode holds nothing back |
| `StartupReplay.BlockIs` | nesoft/src/imi/imi_server.c:660-724 | An IMI block reaches the module as exactly its parsed commands that concern it and are not held back, in order; as all of them if the module carries out what it is sent |
| `StartupReplay.BlockHeldBack` | nesoft/src/imi/imi_server.c:478-524 | Behind a command of a block refused in a mode it would have left none is sent until one leaves that mode behind |
| `StartupReplay.RetriedInConfig` | nesoft/src/imi/imi_server.c:412-472 | A line is parsed if and only if it is in its mode or, failing there, in CONFIG mode; an empty line is not tried again |
| `StartupReplay.ImiIndicesAre` | nesoft/src/lib/cfg_seq.c:171-200 | The indices a catch-up visits are the IMI-held ones of its range, each once, ascending |
| `StartupReplay.Replayer.SendConfigToPm` | nesoft/src/imi/imi_server.c:734-881 | The file loop produces the replay's records, and what reaches the module is exactly what they say, blocks and lines in order; when the connection is lost, a prefix of that |
| `StartupReplay.Replayer.SendImiConfigCmds` | nesoft/src/imi/imi_server.c:660-724 | An IMI block is sent as specified, or a prefix of it when the connection is lost, and the file line and its mode are restored either way |
| `StartupReplay.Replayer.CatchUp` | nesoft/src/imi/imi_server.c:847-858 | The sequencer sends the blocks in between and nothing else, or a prefix when the connection is lost |
| `StartupReplay.Replayer.SendConfigCmd` | nesoft/src/imi/imi_server.c:478-524 | The command is written to the module exactly if Send says so, about which LineIs and BlockIs say when that is |
| `StartupReplay.Replayer.ParseConfigCmd` | nesoft/src/imi/imi_server.c:412-472 | A command that does not parse is tried once more in CONFIG mode |
| `ShowReader.Buffer.ShowProtocol` | nesoft/src/imi/imi_cli.c:1028-1065 | However the reads are cut, the lines shown are the newline-terminated lines of the stream up to the first that does not fit the buffer |
| `ShowReader.ShownExactly` | nesoft/src/imi/imi_cli.c:1028-1065 | For a stream without NUL the lines are shown unchanged, and all of them if and only if each is shorter than the buffer |
| `ShowReader.LinesSplit` | nesoft/src/imi/imi_cli.c:1044-1058 | The lines and the unterminated tail are a splitting of the stream: nothing is lost, invented or reordered |
| `ShowReader.Buffer.Scan` | nesoft/src/imi/imi_cli.c:1044-1058 | One pass over the buffer shows its complete lines and finds where the unfinished one starts |
| `Registry.AlwaysFaithful` | nesoft/src/imi/imi_server.c:1062-1110 | After any history of registrations and departures each module's list holds exactly its members, each once, in the order they joined, and modules without members have none |
| `Registry.Server.ClientConnect` | nesoft/src/imi/imi_server.c:1062-1110 | Linking a connection keeps every list well-formed, its slot and global bit set, and the privileged router's map equal to the global map within its configuration; a second registration changes nothing |
| `Registry.Server.Disconnect` | nesoft/src/imi/imi_server.c:1274-1308 | Unlinking keeps the same invariant; the last connection of a module takes slot and bits with it |
| `Registry.Server.PmSet` | nesoft/src/imi/imi_server.c:28-46 | Sets the module in the global map and in each router configured for it |
| `Registry.Server.PmUnset` | nesoft/src/imi/imi_server.c:48-63 | Clears the module in the global map and in each router |
| `Registry.Client.Append` | nesoft/src/imi/imi_server.c:1080-1091 | Appends to a doubly linked list in place |
| `Registry.Client.Remove` | nesoft/src/imi/imi_server.c:85-102 | Removes from anywhere in a doubly linked list in place |
| `LineAllocator.ExclusiveUnlessOther` | nesoft/src/imi/imi_server.c:961-1022 | In any run, lines in use and live sessions correspond one to one at the end if and only if no session ever took a line under a key other than console or virtual terminal |
| `LineAllocator.GivenBack` | nesoft/src/imi/imi_server.c:983-987 | A session gives its line back on leaving if and only if its key was the console's or the virtual terminals' |
| `LineAllocator.FirstFreeTaken` | nesoft/src/imi/imi_server.c:961-1022 | A session asking for a line gets the first one not in use among the consoles for the console key and among the virtual terminals for any other: every lower slot is in use or a hole; nothing else changes, and a session that has a line or finds none is closed |
| `LineAllocator.Joining` | nesoft/src/imi/imi_line.c:80-89 | A new connection has no line; a line asked for is created unused in its slot, the vector growing with holes, and one that is there stays |
| `LineAllocator.Master.SetSessionContext` | nesoft/src/imi/imi_server.c:961-1022 | The scan takes the first free line of the vector for the key, or closes the session |
| `LineAllocator.Master.CloseSession` | nesoft/src/imi/imi_server.c:1158-1182 | Closing a session frees the line it remembers |
| `LineAllocator.Master.GetLine` | nesoft/src/imi/imi_line.c:80-89 | A missing line is created free, existing ones stay as they are |

## Findings

Properties the code was expected to have and does not have in general. Each is proved to hold exactly under the
condition given.

| property | source | holds exactly when | members |
|---|---|---|---|
| A Full Status exchange delivers the database | nesoft/src/elmid/elmi_uni_n.c:868-945, nesoft/src/elmid/elmi_uni_c.c:2213-2310 | the data instance is not a multiple of 256 and no frame begins with the first map while the maps exceed 1484 octets (UNI Status is then repeated in a continued answer and the customer clears everything); without EVCs, the data instance is not a multiple of 256 and the UNI name has at most nine octets | `Transfer.Exchange`, `Cuts.RepeatsIsCut`, `Undeliverable.ExampleIsNotDelivered` |
| After an exchange during which the database changed, and which delivered, an EVC is known as the provider has it now | nesoft/src/elmid/elmi_uni_n.c:632-660 | its reference id lies beyond the last one sent before the change, or its record is as before; the periodic check finds nothing changed either way | `Interference.ChangedMeanwhile`, `Interference.ChangeMissed` |
| An exchange accepted after a duplicated continued enquiry teaches every EVC | nesoft/src/elmid/elmi_uni_n.c:1572-1656 | (EVC by EVC, for a customer that knew all before) the EVC is not in the frame whose answer was lost | `Interference.StaleEnquiry`, `Interference.StaleUnnoticed` |
| A learnt map has the VLANs announced | nesoft/src/elmid/elmi_uni_c.c:1942-1962 | every VLAN learnt before for the EVC is still announced: old bits are never cleared | `Learning.VidsExact` |
| The customer's map list has one node for each map | nesoft/src/elmid/elmi_uni_c.c:1985-2003 | the map was not listed before the exchange | `Learning.MapNodesOnce` |
| The response to a periodic check is accepted | nesoft/src/elmid/elmi_uni_c.c:545-575 | the provider's data instance is not a multiple of 256 | `ChangeDetection.CheckIs` |
| Counted changes at the provider are noticed at the next check | nesoft/src/elmid/elmi_uni_c.c:2007-2068 | neither the number of counted changes nor the data instance they lead to is a multiple of 256 | `ChangeDetection.ChangesNoticed` |
| 8-bit bandwidth coding is within 1/25 | nesoft/src/elmid/elmi_api.c:718-740 | the value is below 2 560 000 000 | `Bandwidth.Code8Accurate` |
| The EVC length code is exact | nesoft/src/elmid/elmi_uni_n.c:30-74, 218-256 | the EVC has no per-class profile | `Wire.EvcLengthExact` |
| A terminal line is given back when its session ends | nesoft/src/imi/imi_server.c:983-987 | the session's key is console or virtual terminal | `LineAllocator.GivenBack`, `LineAllocator.ExclusiveUnlessOther` |
| Printing and replaying on fresh lines restores a line | nesoft/src/imi/imi_config.c:840-938, nesoft/src/imi/imi_cli.c:560-625 | the line lies in front of the first hole and its timeout was not set away from its default and back; a line behind a hole is not printed and is as before only if the target has it so already | `LineConfig.PrintReplay`, `LineConfig.RestoredExactly`, `LineConfig.HoleExample` |
| All lines of a show output without NUL are shown | nesoft/src/imi/imi_cli.c:1028-1065 | each is shorter than the buffer | `ShowReader.ShownExactly` |

The code and its comments disagree in two places, and the model follows the code: sequence numbers run through 255
values, not 256, and the data instance is compared in eight bits although the message carries 32.

## Left out

- Multi-element CE-VLAN maps: the branch for maps longer than one information element (nesoft/src/elmid/elmi_uni_n.c:481-559) drops the remainder and is excluded by the orderly condition.
- Per-class bandwidth: encoded and its length analysed, but left out of the exchanges, because encoder and decoder do not agree on its layout (nesoft/src/elmid/elmi_uni_n.c:218-256).
- Transfer.Exchange: assumes that no frame is lost and no timer expires during the one exchange, and, for databases with EVCs that are not delivered and UNI names of 17 octets, that no EVC has reference id 0x5111, which the map decoder would read out of the UNI Status element. Interference has one change, or one stale enquiry, for each exchange.
- Interference.ChangedMeanwhile: both databases are legal, and the flags of the new maps agree with the map type already learnt.
- Interference.StaleEnquiry: a stale enquiry that fetches the closing answer resets the provider's place; only those that fetch a continued one are covered.
- UniN.Port.HandleFrame: full answers are for lists without per-class profiles and with maps of one element (`Regular`), since the two encoders leave their buffer or drop VLANs otherwise.
- UniN.Port.Tx: full answers for the same lists.
- UniN.Port.BuildFrame: full answers for the same lists.
- UniN.Port.SendFullStatus: for the same lists.
- UniN.Port.SendFullStatusContd: for the same lists.
- UniN.Port.EncodeEvcs: for the same lists.
- UniN.Port.EncodeMaps: for the same lists.
- UniN.Port.ProcessFullStatus: for the same lists.
- UniN.Port.ProcessFullStatusContd: for the same lists.
- Encoders.EncodeEvcStatus: for EVCs without per-class profiles.
- Encoders.EncodeMap: for maps of one element.
- UniN.Port.UpdateEvcStatus: the notification that the source sends or queues at this point is not modelled.
- UniN.Port.EvcDelete: the notification queue is taken as empty, and an EVC kept because the link was down is not marked inactive.
- UniN.Port.CosBwAdd: classes 0 to 7, the size of the source's array.
- UniN.Port.CosBwDel: the slot counts as empty afterwards, where the source keeps the freed profile's address.
- Fragmentation.FullStatusWhenItFits: totals of 65536 octets and more, where the 16-bit sums wrap, are outside the orderly databases.
- Accesses outside arrays and buffers: reads beyond octet 1500 give zero, VLAN ids of 4096 and more are ignored, identifiers are copied into unbounded sequences, and negative signed lengths (identifier or skipped lengths of 128 and more) are refused, where the source would read or write out of bounds.
- Memory lifetime: list nodes are reference ids, not pointers, so nodes left dangling are not distinguished; an EVC refused in the middle of its element leaves no half-written record.
- Asynchronous notifications: their queue, pacing timer and sending (nesoft/src/elmid/elmi_port.c:578-598, nesoft/src/elmid/elmi_timer.c:215-277) are not modelled.
- Run-time changes of N391 and N393 and disabling the verification timer: configuration is fixed within a run.
- Statistics counters, logging, show commands and option parsing.
- Sockets, timers and the NSM, ONM and IMI message transports are inputs; list creation with the bridge is taken as done.
- Coupling and colour flags of bandwidth profiles are booleans; identifiers are strings without NUL.
- LineConfig.PrintReplay: commands are values, not text, and a line's identity is its index.
- LineAllocator.ExclusiveUnlessOther: one virtual router, no line freed while in use; line vectors for keys beyond the three types are not accessed.
- Registry.Server.ClientConnect: routers are fixed and only the privileged one is claimed to match its configuration; the replay started by a new connection is the subject of StartupReplay.
- StartupReplay.Replayer.SendConfigToPm: the module's answers are one function of the line number and one of the sequencer index and the command's place in its block.
- ShowReader.Buffer.ShowProtocol: the copy of the unfinished line is taken as correct for overlapping areas, and the stream ends where reading ends.
