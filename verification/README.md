# DVB applications: protocol and text models

A Dafny model of the parts of a DVB tool collection that carry state or formats, with proofs of what
they promise. It verifies with `dafny verify dfyconfig.toml`.

- **Conditional access modules (EN 50221).** `Connection`, `Transport`, `TransportCallbacks` and
  `TransportObject` model the transport layer: slots, connections, send queues, timers, chained packets;
  `SendQueue` is one send queue with its pointers. `Session`, `CamStack`, `CamNotices` and `SessionObject`
  put the session layer on top. `TransportMeaning` and `SpduFormat` say in octets and plain arithmetic what
  the two layers do with each TPDU, each turn of the poll loop and each SPDU, independently of the functions
  the steps are made of. `StackInvariant` and `RoundTrip` are about both layers together, `CamRuns` has runs
  that reach the exceptions. `Asn1`, `CaPmt`, `CaPmtFormatter`, `MmiText`, `Mmi` and `MmiObject` are the
  length field, the CA_PMT formatter and the reassembly of menus and texts.
- **MPEG sections (ISO/IEC 13818-1).** `SectionBuffer` reassembles sections from transport payloads,
  `Crc32` and `Section` are the CRC and the in-place codec, `PsiTable` tracks versions and numbers.
- **The scan tool.** `FilterList` is its intrusive list, `Schedule` the scheduler of section filters on
  values, `ScanScheduler` the same on rings and poll arrays. `SectionBitmap`, `SectionCompleteness`
  and `SectionFilterObject` record which sections of a table have been seen; `SectionOctets` reads them off
  the octets.
- **Channel files.** `ZapText`, `ZapChannel`, `ZapTables`, `ZapRoundTrip` and `ZapFile` print and parse
  them; `ZapLines` is about lines written by hand.

What changes step by step in C is a class or a method on arrays here (`TransportLayer`, `SessionLayer`,
`StreamRecord`, `SectionBuf`, `PsiTableState`, `Filter`, `Scheduler`, `SegmentRecord`, `SectionFilter`,
`Line`, `SessionRecord`, `MmiApp`, `MessageQueue`). The slots, connections and sessions inside
`TransportLayer` and `SessionLayer` are sequences of values that the methods reassign, updated with the
operations of `Connection` and `Session`; their linked send queues are modelled with pointers in `SendQueue`
alone. Each method is proved to compute a function on values, and the lemmas
are about those functions and about runs of them. Connections and sessions carry a history of events, from
which the statements about whole runs are read off by independent definitions.

Input, output, the clock, the device and the callbacks of the application are parameters of the steps.

## Model

| member | source | states |
|---|---|---|
| `Transport.DeleteHandshake` | dvb-apps-997424a1799e/lib/libdvben50221/en50221_transport.c:425-487 | after every run a `T_DELETE_T_C` in a send queue is its last element and its only one and implies ACTIVE_DELETEQUEUED, IN_DELETION implies an empty queue, a chain buffer exists only in the two active states (so allocating an idle connection discards no fragment), and in the whole history no data, poll or `T_RCV` TPDU is written after a written `T_DELETE_T_C` until the connection is allocated again |
| `Transport.StopAndWait` | dvb-apps-997424a1799e/lib/libdvben50221/en50221_transport.c:430-487 | over every run: between two writes from the queue or polls on one connection the module sent a TPDU that cleared `tx_time` (or the slot was destroyed) |
| `Transport.Fifo` | dvb-apps-997424a1799e/lib/libdvben50221/en50221_transport.c:1284-1296 | over every run: the messages queued are those that left the queue followed by those still queued; without a failed write or a destroyed slot, those that left it are those written, in order |
| `Transport.Reassembly` | dvb-apps-997424a1799e/lib/libdvben50221/en50221_transport.c:1106-1211 | for every interleaving of TPDUs over the connections of a slot, what an active connection has received, and holds of a packet, is exactly the joined `T_DATA_MORE`\* `T_DATA_LAST` groups addressed to it |
| `TransportCallbacks.CallbackIsDelivery` | dvb-apps-997424a1799e/lib/libdvben50221/en50221_transport.c:832-945 | after any TPDU, in any state: the data callback is called for a connection, and with which octets, exactly as its history says |
| `TransportCallbacks.CallbacksAreTheGroups` | dvb-apps-997424a1799e/lib/libdvben50221/en50221_transport.c:1106-1211 | over every run the data callback of an active connection is called with exactly the joined `T_DATA_MORE`\* `T_DATA_LAST` groups addressed to it, in order |
| `Transport.FragmentsJoin` | dvb-apps-997424a1799e/lib/libdvben50221/en50221_transport.c:1144-1211 | a packet cut into any fragments arrives as if sent in one piece if the last fragment is not empty; with an empty last fragment it is swallowed |
| `Transport.StepOnActive` | dvb-apps-997424a1799e/lib/libdvben50221/en50221_transport.c:832-945 | one step of any kind leaves an active connection active and its half-received packet and deliveries as they were, except that a data TPDU for it advances its own assembly |
| `Transport.NextGood` | dvb-apps-997424a1799e/lib/libdvben50221/en50221_transport.c:333-509 | every step of the transport layer (host call, TPDU, poll, slot removal) keeps the delete handshake and the agreement of each connection with its history |
| `Transport.RunGood` | dvb-apps-997424a1799e/lib/libdvben50221/en50221_transport.c:333-509 | the same invariant after every run |
| `Transport.DataTpduRoundTrip` | dvb-apps-997424a1799e/lib/libdvben50221/en50221_transport.c:565-589 | the data TPDU of `en50221_tl_send_data` parses back to its connection and data, whatever follows it, exactly when the data with its connection octet is within the 16-bit length |
| `TransportObject.TransportLayer.constructor` | dvb-apps-997424a1799e/lib/libdvben50221/en50221_transport.c:136-204 | a new layer has all slots free and all connections idle |
| `TransportObject.TransportLayer.RegisterSlot` | dvb-apps-997424a1799e/lib/libdvben50221/en50221_transport.c:247-281 | takes the first free slot, or fails and changes nothing |
| `TransportObject.TransportLayer.Destroy` | dvb-apps-997424a1799e/lib/libdvben50221/en50221_transport.c:283-331 | the slot and all its connections become unused, with the callback for every slot number below the maximum, registered or not; for any other number nothing happens |
| `TransportObject.TransportLayer.PollConnection` | dvb-apps-997424a1799e/lib/libdvben50221/en50221_transport.c:425-503 | the method takes exactly the poll step of the model: first the queue, then a poll if it is due, then the timeout; what that step is, in plain arithmetic, is `TransportMeaning.PollMeans` |
| `TransportObject.TransportLayer.PollSlot` | dvb-apps-997424a1799e/lib/libdvben50221/en50221_transport.c:424-504 | the connection loop is a run of poll steps in order, ended early only by an error |
| `TransportObject.TransportLayer.Send` | dvb-apps-997424a1799e/lib/libdvben50221/en50221_transport.c:530-593 | the new state and the result are those of the model's send step for every slot, connection and state |
| `TransportObject.TransportLayer.SendVector` | dvb-apps-997424a1799e/lib/libdvben50221/en50221_transport.c:595-679 | sending a vector is sending the concatenation of its parts |
| `TransportObject.TransportLayer.NewConnection` | dvb-apps-997424a1799e/lib/libdvben50221/en50221_transport.c:681-725 | the step of `en50221_tl_new_tc` with its two error results |
| `TransportObject.TransportLayer.DeleteConnection` | dvb-apps-997424a1799e/lib/libdvben50221/en50221_transport.c:727-778 | the step of `en50221_tl_del_tc` with its error results |
| `TransportObject.TransportLayer.Handle` | dvb-apps-997424a1799e/lib/libdvben50221/en50221_transport.c:832-1257 | the dispatch on a TPDU takes the model's step and ends with the same callback |
| `TransportObject.TransportLayer.HandleCreateReply` | dvb-apps-997424a1799e/lib/libdvben50221/en50221_transport.c:947-974 | opens a connection IN_CREATION, in no other state |
| `TransportObject.TransportLayer.HandleDelete` | dvb-apps-997424a1799e/lib/libdvben50221/en50221_transport.c:976-1020 | the reply, the state and the callback, and what a failed write leaves |
| `TransportObject.TransportLayer.HandleDeleteReply` | dvb-apps-997424a1799e/lib/libdvben50221/en50221_transport.c:1022-1040 | ends a connection IN_DELETION, in no other state |
| `TransportObject.TransportLayer.HandleMore` | dvb-apps-997424a1799e/lib/libdvben50221/en50221_transport.c:1106-1142 | appends to the chain buffer of an active connection |
| `TransportObject.TransportLayer.HandleLast` | dvb-apps-997424a1799e/lib/libdvben50221/en50221_transport.c:1144-1211 | the joined packet and its callback, skipped for an empty last block |
| `TransportObject.TransportLayer.HandleSb` | dvb-apps-997424a1799e/lib/libdvben50221/en50221_transport.c:1213-1257 | clears `tx_time` or asks for the waiting data, as `TransportMeaning.SbMeans` says in octets |
| `TransportObject.TransportLayer.HandleRequestTc` | dvb-apps-997424a1799e/lib/libdvben50221/en50221_transport.c:1042-1104 | the two replies to `T_REQUEST_T_C` and the connection it allocates |
| `TransportMeaning.PollMeans` | dvb-apps-997424a1799e/lib/libdvben50221/en50221_transport.c:424-504 | one turn of the poll loop: a queued message is sent if no answer is outstanding; otherwise `[0xA0, 1, id]` is written if and only if the connection is ACTIVE, `tx_time` is 0 and now is later than the last poll by more than the slot's delay; the error is a timeout if and only if the state is ACTIVE or ACTIVE_DELETEQUEUED and now is later than `tx_time` by more than the slot's timeout; IN_CREATION and IN_DELETION end under the same deadline |
| `TransportMeaning.TurnSends` | dvb-apps-997424a1799e/lib/libdvben50221/en50221_transport.c:430-473 | a turn that sends takes the oldest message, sets the timer, and on a T_DELETE_T_C starts the deletion; if the write fails the message is lost |
| `TransportMeaning.SbMeans` | dvb-apps-997424a1799e/lib/libdvben50221/en50221_transport.c:1213-1257 | T_SB on an active connection: with bit 7 set the host writes `[0x81, 1, id]` and sets the timer, or fails with nothing changed; with bit 7 clear nothing is written and the timer is cleared |
| `TransportMeaning.CreateReplyMeans` | dvb-apps-997424a1799e/lib/libdvben50221/en50221_transport.c:947-974 | T_C_T_C_REPLY opens a connection that is being created |
| `TransportMeaning.DeleteMeans` | dvb-apps-997424a1799e/lib/libdvben50221/en50221_transport.c:976-1020 | T_DELETE_T_C ends an active or closing connection with `[0x85, 1, id]`, and the callback if it could be written |
| `TransportMeaning.DeleteReplyMeans` | dvb-apps-997424a1799e/lib/libdvben50221/en50221_transport.c:1022-1040 | T_D_T_C_REPLY ends a connection that is being deleted |
| `TransportMeaning.MoreMeans` | dvb-apps-997424a1799e/lib/libdvben50221/en50221_transport.c:1106-1142 | T_DATA_MORE is kept behind what came before it |
| `TransportMeaning.LastMeans` | dvb-apps-997424a1799e/lib/libdvben50221/en50221_transport.c:1144-1211 | T_DATA_LAST gives the callback what was kept and its own octets, or nothing if it has none |
| `TransportMeaning.RequestGranted` | dvb-apps-997424a1799e/lib/libdvben50221/en50221_transport.c:1042-1104 | T_REQUEST_T_C: `[0x87, 2, id, new]` and `[0x82, 1, new]`, the timers, the callback, and what each failed write leaves, also when a connection is given to itself |
| `TransportMeaning.RequestRefused` | dvb-apps-997424a1799e/lib/libdvben50221/en50221_transport.c:1042-1104 | with no connection left the reply is `[0x77, 2, id, 1]` |
| `TransportMeaning.OtherwiseRefused` | dvb-apps-997424a1799e/lib/libdvben50221/en50221_transport.c:832-945 | every other TPDU, and every known one in another state, is an error that changes nothing |
| `TransportMeaning.ReceivedBy` | dvb-apps-997424a1799e/lib/libdvben50221/en50221_transport.c:832-945 | a TPDU goes to the connections of its own slot; one for a slot that is not registered does nothing |
| `TransportMeaning.NewTcMeans` | dvb-apps-997424a1799e/lib/libdvben50221/en50221_transport.c:681-725 | the first unused connection gets `[0x82, 1, id]` into its queue and is IN_CREATION without kept data |
| `TransportMeaning.DelTcMeans` | dvb-apps-997424a1799e/lib/libdvben50221/en50221_transport.c:727-778 | `[0x84, 1, id]` goes behind what is queued and the state is ACTIVE_DELETEQUEUED |
| `TransportMeaning.RegisterMeans` | dvb-apps-997424a1799e/lib/libdvben50221/en50221_transport.c:247-281 | the first free slot gets the parameters and keeps its connections |
| `TransportMeaning.DestroyMeans` | dvb-apps-997424a1799e/lib/libdvben50221/en50221_transport.c:283-331 | every connection of the slot is as at the start; no other slot changes |
| `TransportMeaning.CallsFail` | dvb-apps-997424a1799e/lib/libdvben50221/en50221_transport.c:530-778 | which error each call gives: slot, then connection, then state |
| `TransportMeaning.CreatedMeans` | dvb-apps-997424a1799e/lib/libdvben50221/en50221_transport.c:136-204 | a new layer: no slot registered, every connection idle with nothing queued, kept or timed |
| `SendQueue.MessageQueue.Enqueue` | dvb-apps-997424a1799e/lib/libdvben50221/en50221_transport.c:1284-1296 | the linked queue gets the message at its end, and head, tail and next pointers fit again |
| `SendQueue.MessageQueue.Dequeue` | dvb-apps-997424a1799e/lib/libdvben50221/en50221_transport.c:437-445 | the oldest message is taken off, and head and tail are both null exactly when none is left |
| `SendQueue.MessageQueue.Flush` | dvb-apps-997424a1799e/lib/libdvben50221/en50221_transport.c:309-317 | the loop visits every queued message once, in order, and leaves an empty queue |
| `StackInvariant.CrossLayerStep` | dvb-apps-997424a1799e/lib/libdvben50221/en50221_session.c:869-1024 | a step of the two layers keeps every session in use on a registered slot and an ACTIVE connection if and only if it is neither `en50221_tl_del_tc` on a connection in use nor a `T_DELETE_T_C` on one whose reply cannot be written |
| `StackInvariant.CrossLayerRun` | dvb-apps-997424a1799e/lib/libdvben50221/en50221_session.c:195-236 | the same after every run without those two kinds of step |
| `StackInvariant.SeversBreaks` | dvb-apps-997424a1799e/lib/libdvben50221/en50221_transport.c:727-778 | each of the two exceptions does leave a session whose connection is gone |
| `CamRuns.DanglingSession` | dvb-apps-997424a1799e/lib/libdvben50221/en50221_transport.c:727-778 | both exceptions are reached: registering, connecting and opening a session, then either step, leaves a session without its connection |
| `StackInvariant.SessionBinding` | dvb-apps-997424a1799e/lib/libdvben50221/en50221_session.c:771-867 | over every run: a session in use is not number 0 and is still what it was allocated as, and every APDU its callback got came from its own slot and connection between its opening and its closing |
| `StackInvariant.BindingIsStable` | dvb-apps-997424a1799e/lib/libdvben50221/en50221_session.c:1026-1055 | no step changes the resource, slot, connection or callback of a session that stays in use |
| `CamNotices.NoticesTell` | dvb-apps-997424a1799e/lib/libdvben50221/en50221_session.c:869-971 | whatever the transport layer reports, the session callback hears about a session exactly if it became open and exactly if it ended, with its own slot and resource; only the module's answer to a close of the host goes unreported, and CAMCONNECTFAIL is never used |
| `CamNotices.OtherSlot` | dvb-apps-997424a1799e/lib/libdvben50221/en50221_session.c:912-941 | what arrives on one slot leaves a session of another slot unchanged if and only if it does not close a connection with the number of the session's own |
| `CamRuns.OtherModuleEndsSession` | dvb-apps-997424a1799e/lib/libdvben50221/en50221_session.c:912-941 | a run from the start of the program in which the module in slot 1 deletes its connection and ends the session of slot 0, whose own connection stays active |
| `CamNotices.CloseNoticesMean` | dvb-apps-997424a1799e/lib/libdvben50221/en50221_session.c:919-969 | the closing loops tell of exactly the sessions they end |
| `StackInvariant.StackRunGood` | dvb-apps-997424a1799e/lib/libdvben50221/en50221_session.c:869-1024 | every run of host calls and TPDUs keeps the transport invariant and the honesty of every session's history |
| `StackInvariant.NewStackGood` | dvb-apps-997424a1799e/lib/libdvben50221/en50221_session.c:107-149 | new layers start in the invariant and with every session idle |
| `Session.HonestMeans` | dvb-apps-997424a1799e/lib/libdvben50221/en50221_session.c:847-859 | the event behind a delivered APDU: a binding and an opening before it and neither a new binding, an end nor a closing in between |
| `RoundTrip.SplitOfJoined` | dvb-apps-997424a1799e/lib/libdvben50221/en50221_session.c:826-866 | the splitter gives joined APDUs back one by one |
| `RoundTrip.JoinOfSplit` | dvb-apps-997424a1799e/lib/libdvben50221/en50221_session.c:826-866 | for any octets the APDUs split off are well formed, joined they are a prefix of the octets, and no further APDU starts behind them |
| `RoundTrip.MadeIsApdu` | dvb-apps-997424a1799e/lib/libdvben50221/en50221_session.c:826-866 | tag, encoded length and body make a well-formed APDU, from which tag and body are read back |
| `RoundTrip.PackageArrives` | dvb-apps-997424a1799e/lib/libdvben50221/en50221_session.c:771-867 | one package TPDU reaches the session callback as exactly its APDUs, in order, and leaves session and connection ready for the next |
| `RoundTrip.SendQueues` | dvb-apps-997424a1799e/lib/libdvben50221/en50221_session.c:280-318 | `en50221_sl_send_data` on an open session queues exactly one TPDU |
| `RoundTrip.SendsQueue` | dvb-apps-997424a1799e/lib/libdvben50221/en50221_session.c:280-318 | any number of sends on an open session all succeed and queue their TPDUs one behind the other, behind what was queued before, and leave every session as it was |
| `RoundTrip.TpdusArrive` | dvb-apps-997424a1799e/lib/libdvben50221/en50221_session.c:771-867 | package TPDUs laid end to end and read in one link read reach the callback as exactly the APDUs in them |
| `RoundTrip.StackRoundTrip` | dvb-apps-997424a1799e/lib/libdvben50221/en50221_session.c:280-318 | the octets that any number of sends of any lists of well-formed APDUs have queued, read back in one link read at a session with the same number and connection, reach its callback as exactly those APDUs in order with every octet consumed |
| `SessionObject.SessionLayer.AllocNewSession` | dvb-apps-997424a1799e/lib/libdvben50221/en50221_session.c:1026-1055 | binds the first idle session, never number 0, or changes nothing |
| `SessionObject.SessionLayer.CreateSession` | dvb-apps-997424a1799e/lib/libdvben50221/en50221_session.c:195-236 | takes the model's step on both layers and returns its number or error |
| `SessionObject.SessionLayer.DestroySession` | dvb-apps-997424a1799e/lib/libdvben50221/en50221_session.c:238-278 | takes the model's step on both layers and returns its result |
| `SessionObject.SessionLayer.SendData` | dvb-apps-997424a1799e/lib/libdvben50221/en50221_session.c:280-318 | takes the model's step on both layers and returns its result |
| `SessionObject.SessionLayer.SendVector` | dvb-apps-997424a1799e/lib/libdvben50221/en50221_session.c:320-364 | sending a vector is sending the concatenation of its parts |
| `SessionObject.SessionLayer.HandleOpenRequest` | dvb-apps-997424a1799e/lib/libdvben50221/en50221_session.c:398-539 | the lookup with the slot and the resource asked for, the response, the application's answer, its consequences and the notices before and after; the octets are those of `SpduFormat.OpenRequestRefused` and `SpduFormat.OpenRequestTakes` |
| `SessionObject.SessionLayer.HandleCloseRequest` | dvb-apps-997424a1799e/lib/libdvben50221/en50221_session.c:541-625 | the response status for every state and owner of the session, and the notice if it ends |
| `SessionObject.SessionLayer.HandleCreateResponse` | dvb-apps-997424a1799e/lib/libdvben50221/en50221_session.c:627-709 | the response with the offsets the code uses, and the notice of success or failure |
| `SessionObject.SessionLayer.HandleCloseResponse` | dvb-apps-997424a1799e/lib/libdvben50221/en50221_session.c:711-769 | the response with the offsets the code uses |
| `SessionObject.SessionLayer.HandlePackage` | dvb-apps-997424a1799e/lib/libdvben50221/en50221_session.c:771-867 | the package goes to its session only if slot, connection and state fit, one callback for each APDU |
| `SessionObject.SessionLayer.HandleConnectionClose` | dvb-apps-997424a1799e/lib/libdvben50221/en50221_session.c:911-941 | ends every session in use with that connection number, whatever its slot, and no other, with one notice each |
| `SessionObject.SessionLayer.HandleSlotClose` | dvb-apps-997424a1799e/lib/libdvben50221/en50221_session.c:943-973 | ends every session in use on that slot, and no other, with one notice each |
| `SessionObject.SessionLayer.TransportCallback` | dvb-apps-997424a1799e/lib/libdvben50221/en50221_session.c:869-1024 | the new state of both layers and the notices, for every reason and every SPDU |
| `SessionObject.SessionLayer.ProcessData` | dvb-apps-997424a1799e/lib/libdvben50221/en50221_transport.c:832-945 | the TPDU loop with the session layer as its callback computes the model's run over the octets |
| `SpduFormat.OpenRequestTakes` | dvb-apps-997424a1799e/lib/libdvben50221/en50221_session.c:398-539 | an open request, octet by octet: the lookup is asked for the resource in it, high octet first; the answer carries tag 0x92, length 7, the status, the resource found modulo 2^32 and the number of the first idle session, high octets first; the session is bound to that slot and connection and is ACTIVE if the status is 0 and idle otherwise |
| `SpduFormat.OpenRequestRefused` | dvb-apps-997424a1799e/lib/libdvben50221/en50221_session.c:398-539 | without a lookup callback, with a negative answer, or with no session idle the answer has status F0, F0, F2 or F1 and session number FFFF, and no session changes |
| `SpduFormat.OpenedExactly` | dvb-apps-997424a1799e/lib/libdvben50221/en50221_session.c:456-539 | the status octet sent is 0 if and only if a session opens, or the lookup callback gave an answer other than 0 that is a multiple of 256, which its documentation does not provide for |
| `SpduFormat.OpenRequestUnheard` | dvb-apps-997424a1799e/lib/libdvben50221/en50221_session.c:456-539 | on a connection that is not active nothing is sent and no session opens |
| `SpduFormat.CloseRequestAnswered` | dvb-apps-997424a1799e/lib/libdvben50221/en50221_session.c:541-625 | a close request, octet by octet: status 0 and the end of the session if it is open or closing and belongs to that connection, status F0 and no change otherwise |
| `SpduFormat.CreateResponseObeyed` | dvb-apps-997424a1799e/lib/libdvben50221/en50221_session.c:627-709 | a create response opens or ends a session that is being created; its number is read one octet before its place |
| `SpduFormat.CloseResponseObeyed` | dvb-apps-997424a1799e/lib/libdvben50221/en50221_session.c:711-769 | a close response ends a session that is being closed, whatever its status |
| `SpduFormat.PackageObeyed` | dvb-apps-997424a1799e/lib/libdvben50221/en50221_session.c:771-867 | a package reaches nobody but an open session of that connection |
| `SpduFormat.MalformedIgnored` | dvb-apps-997424a1799e/lib/libdvben50221/en50221_session.c:398-867 | SPDUs that are too short, have another length octet or another tag change nothing |
| `SpduFormat.ClosesEnd` | dvb-apps-997424a1799e/lib/libdvben50221/en50221_session.c:912-969 | the loops of CONNECTIONCLOSE and SLOTCLOSE end exactly the sessions in use with that number |
| `SpduFormat.CreateSends` | dvb-apps-997424a1799e/lib/libdvben50221/en50221_session.c:195-236 | the first idle session and a create request with tag 0x93, length 6, resource and number, high octets first |
| `SpduFormat.CreateFails` | dvb-apps-997424a1799e/lib/libdvben50221/en50221_session.c:195-236 | it fails, with nothing sent and no session taken, if and only if no session is idle or the connection is not active |
| `SpduFormat.DestroySends` | dvb-apps-997424a1799e/lib/libdvben50221/en50221_session.c:238-278 | the close request with tag 0x95, length 2 and the number |
| `SpduFormat.DestroyFails` | dvb-apps-997424a1799e/lib/libdvben50221/en50221_session.c:238-278 | exactly when it fails and what becomes of the session then |
| `SpduFormat.DataSends` | dvb-apps-997424a1799e/lib/libdvben50221/en50221_session.c:280-318 | the package with tag 0x90, length 2, number and data on the session's connection, or an error and no change |
| `SpduFormat.NewStackMeans` | dvb-apps-997424a1799e/lib/libdvben50221/en50221_session.c:95-168 | a new layer: every session idle |
| `CamNotices.QuestionsAsked` | dvb-apps-997424a1799e/lib/libdvben50221/en50221_session.c:456-475 | the session callback is asked about the first idle session, with slot and resource found, exactly when the lookup succeeds and there is one |
| `Asn1.LengthRoundTrip` | dvb-apps-997424a1799e/lib/libdvben50221/asn_1.c:26-83 | an encoded length decodes to itself and its own size, whatever follows |
| `Asn1.EncodingIsShortest` | dvb-apps-997424a1799e/lib/libdvben50221/asn_1.c:56-83 | the encoder's field is the shortest the decoder accepts for that length, and the decoder looks at nothing behind the field |
| `Asn1.Encode` | dvb-apps-997424a1799e/lib/libdvben50221/asn_1.c:56-83 | writes the field or, exactly when the room is too small, fails without writing; the rest of the array is unchanged |
| `CaPmt.HoistingKeepsMeaning` | dvb-apps-997424a1799e/lib/libdvben50221/en50221_app_ca.c:439-497 | moving CA descriptors to the programme level keeps every stream's type, PID and descriptors in force and never makes the object longer; descriptors move if and only if the programme has none and all streams, at least one, have the same, at least one, and then no stream keeps any |
| `CaPmt.CaOfMeans` | dvb-apps-997424a1799e/lib/libdvben50221/en50221_app_ca.c:302-437 | the descriptors taken are exactly those with tag 9, in their order |
| `CaPmt.LengthIsExact` | dvb-apps-997424a1799e/lib/libdvben50221/en50221_app_ca.c:499-544 | the length calculated is the number of octets written |
| `CaPmt.ObjectRoundTrip` | dvb-apps-997424a1799e/lib/libdvben50221/en50221_app_ca.c:231-279 | a decoder written from EN 50221 section 8.4.3.4 recovers programme, version, streams and descriptors in order if and only if every descriptor loop with its command identifier is shorter than 4096 octets |
| `CaPmtFormatter.FormatPmt` | dvb-apps-997424a1799e/lib/libdvben50221/en50221_app_ca.c:201-308 | fails, writing nothing, exactly when the object needs more room than given; otherwise the object fills the start of the buffer and the rest is unchanged |
| `CaPmtFormatter.ExtractStreams` | dvb-apps-997424a1799e/lib/libdvben50221/en50221_app_ca.c:358-437 | one record for each stream, with its CA descriptors only |
| `CaPmtFormatter.TryMove` | dvb-apps-997424a1799e/lib/libdvben50221/en50221_app_ca.c:439-497 | the in-place loops compute the hoisting |
| `CaPmtFormatter.CalculateLength` | dvb-apps-997424a1799e/lib/libdvben50221/en50221_app_ca.c:499-544 | the loops compute the total and each loop length |
| `SectionBuffer.AddJoined` | dvb-apps-997424a1799e/lib/libucsi/section_buf.c:41-110 | for every buffer state, adding `x` then `y` gives the same buffer, header flag, status and consumption as adding `x + y` |
| `SectionBuffer.AnyFragmentation` | dvb-apps-997424a1799e/lib/libucsi/section_buf.c:41-110 | the same for any number of pieces |
| `SectionBuffer.AddKeeps` | dvb-apps-997424a1799e/lib/libucsi/section_buf.c:41-110 | consumption stays within the input, the count within the maximum, what was collected stays, and the status says exactly whether the section is finished or too big |
| `SectionBuffer.AddPayloadKeeps` | dvb-apps-997424a1799e/lib/libucsi/section_buf.c:112-173 | the same bounds for transport payloads with any pointer field |
| `SectionBuffer.FirstPayload` | dvb-apps-997424a1799e/lib/libucsi/section_buf.c:112-173 | a first payload with a valid pointer field skips what precedes the section and collects what it holds of it |
| `SectionBuffer.PayloadRoundTrip` | dvb-apps-997424a1799e/lib/libucsi/section_buf.c:112-173 | a section that fits and does not start with padding, cut anywhere into payloads with the first one flagged, is rebuilt octet for octet, with status 1 exactly from its last octet on |
| `SectionBuffer.ClosingPayload` | dvb-apps-997424a1799e/lib/libucsi/section_buf.c:138-162 | a payload that starts a new section completes the one before it if and only if its pointer field covers exactly what was missing |
| `SectionBuffer.PassedOver` | dvb-apps-997424a1799e/lib/libucsi/section_buf.c:112-173 | while the buffer waits for the start of a section, unflagged payloads are passed over and change nothing |
| `SectionBuffer.WaitsExactly` | dvb-apps-997424a1799e/lib/libucsi/section_buf.c:112-173 | after a payload the buffer waits if and only if it was refused, or it waited and the payload was not flagged |
| `SectionBuffer.NewBufferWaits` | dvb-apps-997424a1799e/lib/libucsi/section_buf.c:28-39 | a new buffer waits |
| `SectionBuffer.CompleteStays` | dvb-apps-997424a1799e/lib/libucsi/section_buf.c:41-173 | a complete section stays, and nothing is taken, until it is removed |
| `SectionBuffer.PointerTooFar` | dvb-apps-997424a1799e/lib/libucsi/section_buf.c:112-173 | a pointer field that points behind the payload is an error, and the buffer waits again |
| `SectionBuffer.TooBigRefused` | dvb-apps-997424a1799e/lib/libucsi/section_buf.c:41-173 | a section that announces more than the buffer holds is refused with the payload it starts in, and the buffer waits |
| `SectionBuffer.PaddingSkipped` | dvb-apps-997424a1799e/lib/libucsi/section_buf.c:41-110 | octets FF in front of a section are skipped |
| `SectionBuffer.AnnouncedMeans` | dvb-apps-997424a1799e/lib/libucsi/section_buf.c:41-110 | the announced length is the twelve bits behind four flags, and the header |
| `SectionBuffer.SectionBuf.AddFragment` | dvb-apps-997424a1799e/lib/libucsi/section_buf.c:41-110 | the object's fields change as the value model says, with its result and status |
| `SectionBuffer.SectionBuf.AddTransportPayload` | dvb-apps-997424a1799e/lib/libucsi/section_buf.c:112-173 | the object's fields change as the value model says, with its result and status |
| `Crc32.TableEqualsDivision` | dvb-apps-997424a1799e/lib/libucsi/crc32.h:43-52 | the table-driven loop equals bit-serial division by 0x04C11DB7 on every buffer and start value |
| `Crc32.UpdateIsShift8` | dvb-apps-997424a1799e/lib/libucsi/crc32.c:23-89 | each of the 256 table entries is the one that makes a step equal to eight bit steps |
| `Crc32.BurstDetected` | dvb-apps-997424a1799e/lib/libucsi/crc32.h:43-52 | two buffers that differ only within four consecutive octets, one octet included, have different CRCs |
| `Crc32.CrcInjective` | dvb-apps-997424a1799e/lib/libucsi/crc32.h:43-52 | different registers stay different over any buffer |
| `Crc32.ZeroResidue` | dvb-apps-997424a1799e/lib/libucsi/section.h:130-147 | the CRC over a buffer and four more octets is zero if and only if those are the buffer's CRC, high octet first |
| `Crc32.CheckValue` | dvb-apps-997424a1799e/lib/libucsi/crc32.h:31-52 | the check value of CRC-32/MPEG-2 for the characters 123456789, from the start value of the program |
| `Crc32.Compute` | dvb-apps-997424a1799e/lib/libucsi/crc32.h:43-52 | the loop computes the function the lemmas are about |
| `Section.EncodeThenDecode` | dvb-apps-997424a1799e/lib/libucsi/section.h:157-204 | encoding with a CRC and decoding with a check always succeeds and restores every octet but the four of the CRC |
| `Section.CheckAccepts` | dvb-apps-997424a1799e/lib/libucsi/section.h:130-172 | decoding with a check succeeds if and only if the section syntax bit is set and the last four octets are the CRC of the rest |
| `Section.DamageDetected` | dvb-apps-997424a1799e/lib/libucsi/section.h:130-172 | a section that passes the check passes it no more after any damage behind its first three octets that is confined to four consecutive octets |
| `Section.ReceivedSection` | dvb-apps-997424a1799e/lib/libucsi/section.h:108-172 | a section as received that passes `section_codec` is accepted by the checked decoder if and only if it ends with the CRC of its octets as received |
| `Section.OctetsDecoded` | dvb-apps-997424a1799e/lib/libucsi/section.h:84-172 | octets as received: when the length fits, when the syntax is extended, and which fields are brought into host order |
| `Section.OctetsEncoded` | dvb-apps-997424a1799e/lib/libucsi/section.h:180-204 | encoding without a new CRC brings the field back into transmitted order |
| `Section.CodecInPlace` | dvb-apps-997424a1799e/lib/libucsi/section.h:108-121 | the header swap and the length test |
| `Section.DecodeInPlace` | dvb-apps-997424a1799e/lib/libucsi/section.h:157-172 | the in-place swaps and the check leave the buffer as the value model says |
| `Section.EncodeInPlace` | dvb-apps-997424a1799e/lib/libucsi/section.h:180-204 | the in-place swaps and the CRC leave the buffer as the value model says |
| `PsiTable.TrackFromReset` | dvb-apps-997424a1799e/lib/libucsi/section.h:211-247 | from a reset state the first section accepted is number 0 of a new table and each later one is the next of the same version or number 0 of another |
| `PsiTable.Numbered` | dvb-apps-997424a1799e/lib/libucsi/section.h:223-247 | between two new-table events the accepted sections share one version, are numbered without gaps, and none comes after the table is complete |
| `PsiTable.InOrderCompletes` | dvb-apps-997424a1799e/lib/libucsi/section.h:223-247 | sections in order are all accepted and complete the table, and then nothing of that version is accepted |
| `PsiTable.PsiTableState.ResetState` | dvb-apps-997424a1799e/lib/libucsi/section.h:211-214 | only the version is reset |
| `PsiTable.PsiTableState.CheckUseful` | dvb-apps-997424a1799e/lib/libucsi/section.h:223-247 | the in-place update is the step of the model |
| `Schedule.SchedulerRun` | dvb-apps-997424a1799e/util/scan/scan.c:1316-1465 | over every run, whatever the device answers: a filter is in a list if and only if it was there or was added and has not finished, then in exactly one of the two, once; what came is what is held and what has finished; at most 27 run; those who wait stand in the order they were added |
| `Schedule.RunConserves` | dvb-apps-997424a1799e/util/scan/scan.c:1410-1429 | over every run, whatever the device answers, no filter is lost or doubled, as an equation of bags |
| `Schedule.FairExactly` | dvb-apps-997424a1799e/util/scan/scan.c:1410-1429 | over every run filters start in the order added and wait only while 27 are running, at every moment, if and only if the device opens whenever it matters: for a filter added while there is room, and for the first that waits when one finishes |
| `Schedule.AlwaysServed` | dvb-apps-997424a1799e/util/scan/scan.c:1410-1429 | a device that never fails meets that condition |
| `Schedule.RefusedOnce` | dvb-apps-997424a1799e/util/scan/scan.c:1410-1415 | an input for the other case: one refused open, and a later filter starts while the earlier one waits |
| `Schedule.EmptyIsSound` | dvb-apps-997424a1799e/util/scan/scan.c:1283-1288 | the program start is sound and fair |
| `Schedule.NextSound` | dvb-apps-997424a1799e/util/scan/scan.c:1410-1429 | every addition and removal keeps the lists free of repeats and bounded, whatever the device answers |
| `Schedule.NextFair` | dvb-apps-997424a1799e/util/scan/scan.c:1410-1429 | an addition or removal keeps first-come-first-served order and a full running list while anything waits, if and only if the device opens when it matters |
| `Schedule.AddMeans` | dvb-apps-997424a1799e/util/scan/scan.c:1410-1415 | with fewer than 27 running and a device that opens a new filter goes to the front of the running list, otherwise to the end of the waiting list |
| `Schedule.RefillMeans` | dvb-apps-997424a1799e/util/scan/scan.c:1423-1428 | the filters started are the first of the waiting ones, as many as there is room for and as the device opens without refusing one, each to the front of the running list |
| `Schedule.FinishedIsGone` | dvb-apps-997424a1799e/util/scan/scan.c:1418-1429 | a filter that is removed is in neither list |
| `FilterList.AddBetween` | dvb-apps-997424a1799e/util/scan/list.h:34-43 | inserting between two neighbours of a ring gives the ring with the new element at that place |
| `FilterList.Add` | dvb-apps-997424a1799e/util/scan/list.h:52-55 | right behind the head |
| `FilterList.AddTail` | dvb-apps-997424a1799e/util/scan/list.h:65-68 | right before the head |
| `FilterList.Del` | dvb-apps-997424a1799e/util/scan/list.h:77-93 | the ring without the element; the element keeps its stale links |
| `FilterList.DelInit` | dvb-apps-997424a1799e/util/scan/list.h:98-102 | the ring without the element, which becomes a ring of its own |
| `FilterList.IsEmpty` | dvb-apps-997424a1799e/util/scan/list.h:108-111 | true exactly for the ring of the head alone |
| `FilterList.Relinked` | dvb-apps-997424a1799e/util/scan/list.h:34-43 | the four pointer writes of an insertion give a well-formed ring |
| `FilterList.Unlinked` | dvb-apps-997424a1799e/util/scan/list.h:77-81 | the two pointer writes of a deletion give a well-formed ring |
| `ScanScheduler.Scheduler.constructor` | dvb-apps-997424a1799e/util/scan/scan.c:1283-1288 | the program start: two empty rings and cleared poll arrays |
| `ScanScheduler.Scheduler.UpdatePollFds` | dvb-apps-997424a1799e/util/scan/scan.c:1316-1341 | none of its three `fatal` calls is reached, and the poll arrays mirror the running ring position by position |
| `ScanScheduler.Scheduler.StartFilter` | dvb-apps-997424a1799e/util/scan/scan.c:1343-1393 | rings, counter and poll arrays stay consistent, the lists change as in the abstract scheduler, and a filter that starts has its handle, its start time and `sectionfilter_done` cleared |
| `ScanScheduler.Scheduler.StopFilter` | dvb-apps-997424a1799e/util/scan/scan.c:1396-1407 | rings, counter and poll arrays stay consistent and the filter leaves the running list |
| `ScanScheduler.Scheduler.AddFilter` | dvb-apps-997424a1799e/util/scan/scan.c:1410-1415 | the addition of the abstract scheduler |
| `ScanScheduler.Scheduler.Refill` | dvb-apps-997424a1799e/util/scan/scan.c:1423-1428 | the loop starts waiting filters from the head until one fails, as the abstract scheduler does |
| `ScanScheduler.Scheduler.RemoveFilter` | dvb-apps-997424a1799e/util/scan/scan.c:1418-1429 | the removal of the abstract scheduler |
| `ScanScheduler.Scheduler.Poll` | dvb-apps-997424a1799e/util/scan/scan.c:1432-1439 | after poll() every place of the running list has its answer |
| `ScanScheduler.Scheduler.Visit` | dvb-apps-997424a1799e/util/scan/scan.c:1440-1463 | one turn of the pass: the filter in its place gets exactly one addition for each filter found if it was ready, and is removed if and only if it runs once and it was ready and is done, or its time is over; then it is in no list |
| `ScanScheduler.TurnMeans` | dvb-apps-997424a1799e/util/scan/scan.c:1440-1463 | what a turn tells: a filter finishes in it if and only if it is that of the turn, runs once, and was ready and is done or has had its time; filters are added only if it was ready, one for each found, with what the device said |
| `ScanScheduler.Scheduler.ReadFilters` | dvb-apps-997424a1799e/util/scan/scan.c:1432-1465 | a pass, turn by turn: the filter that runs in that place when the turn comes, ready if poll() said so and the running list has not changed since, is read and removed exactly as `Visit` says, with the time it was started; no `fatal` call is reached; the whole is a run of the abstract scheduler, which loses and doubles no filter and keeps the waiting ones in order whatever the device answers, and is first come, first served throughout if and only if the device opens whenever it matters |
| `ScanScheduler.Scheduler.ValidIsSound` | dvb-apps-997424a1799e/util/scan/scan.c:1283-1465 | the rings of every consistent state are two lists without repeats, as in the abstract scheduler |
| `SectionBitmap.EachSectionOnce` | dvb-apps-997424a1799e/util/scan/scan.c:1143-1169 | over every run of `read_sections`: between two sections of the same extension, version and number that both go to a table parser there is one of another version (or, on an unsegmented filter, extension) |
| `SectionCompleteness.FlagIsRight` | dvb-apps-997424a1799e/util/scan/scan.c:1167-1218 | after a section that is read `sectionfilter_done` says truthfully whether 0 to its last number are recorded, if and only if it neither raises the last number of a complete segment beyond what is recorded nor repeats a recorded section with a last number that leaves nothing missing; on an unsegmented filter only the second can happen |
| `SectionCompleteness.RightThroughout` | dvb-apps-997424a1799e/util/scan/scan.c:1143-1218 | the flag is right after every section of an epoch if and only if each section fits those before it: a condition on the headers received, the last number before and the next header |
| `SectionCompleteness.CompleteExactly` | dvb-apps-997424a1799e/util/scan/scan.c:1100-1280 | over every run of `read_sections`, with any traffic for other segments and tables: the numbers recorded, the value of the flag, and the condition above for the epoch the run has reached |
| `SectionCompleteness.SetUpExactly` | dvb-apps-997424a1799e/util/scan/scan.c:1100-1280 | the same for every filter `setup_filter` leaves; for an unsegmented one the flag is right throughout if and only if no section comes again with a last number that leaves nothing missing, so it may wait too long but is never complete too early |
| `SectionCompleteness.RunRecords` | dvb-apps-997424a1799e/util/scan/scan.c:1100-1280 | over every run of `read_sections` a segment has recorded exactly the numbers of its epoch, which on an unsegmented filter ends with the section that completes it, and the flag is set exactly if some section was new when it came and left nothing missing up to its own last number |
| `SectionCompleteness.CompleteMeansAll` | dvb-apps-997424a1799e/util/scan/scan.c:1212-1217 | with a constant last section number a segment is complete if and only if all sections from 0 to it are recorded |
| `SectionCompleteness.GrowingLastIsMissed` | dvb-apps-997424a1799e/util/scan/scan.c:1212-1217 | an input for the first way to go wrong, on a segmented filter: the last number grows after the segment was complete, and its flag stays set (the program reads the flag of unsegmented filters only) |
| `SectionCompleteness.ShrinkingLastIsMissed` | dvb-apps-997424a1799e/util/scan/scan.c:1167-1168 | an input for the second, on an unsegmented filter: the last number shrinks with a section that is on record, and the filter waits for sections it has |
| `SectionBitmap.RunSound` | dvb-apps-997424a1799e/util/scan/scan.c:1123-1141 | over every run of `read_sections` the segments of a chain have pairwise different extensions |
| `SectionBitmap.AllReadExactly` | dvb-apps-997424a1799e/util/scan/scan.c:1233-1280 | on an unsegmented filter `read_sections` answers 1 if and only if the filter is complete then |
| `SectionBitmap.TruncatedIsNotRecorded` | dvb-apps-997424a1799e/util/scan/scan.c:1160-1165 | a section shorter than its header and CRC is answered 0 and records nothing |
| `SectionFilterObject.SegmentRecord.SetBit` | dvb-apps-997424a1799e/util/scan/scan.c:1089-1092 | the bitmap operation adds exactly that number |
| `SectionFilterObject.BitmapSet` | dvb-apps-997424a1799e/util/scan/scan.c:1084-1092 | setting one bit of the 32 octets changes the answer of `get_bit` for that number only |
| `SectionFilterObject.SectionFilter.Choose` | dvb-apps-997424a1799e/util/scan/scan.c:1123-1141 | the search along the chain and the new segment at its end |
| `SectionFilterObject.SectionFilter.Parse` | dvb-apps-997424a1799e/util/scan/scan.c:1100-1230 | bitmaps, chain, answer and dispatch are those of the value model on the header octets, which `SectionOctets.FrontReads` gives field by field |
| `SectionFilterObject.SectionFilter.ReadSections` | dvb-apps-997424a1799e/util/scan/scan.c:1233-1280 | the guard for a filter that is complete, the failed and malformed reads, the octets left in the buffer, and the answer of `parse_section` handed on |
| `SectionOctets.FrontReads` | dvb-apps-997424a1799e/util/scan/scan.c:1112-1121 | for every table id, length, extension, version, indicator, number and last number, the octets of ISO/IEC 13818-1 section 2.4.4 are read back to exactly those fields |
| `SectionOctets.SectionReceived` | dvb-apps-997424a1799e/util/scan/scan.c:1233-1280 | a section read in one piece is taken with exactly the fields in its octets |
| `SectionOctets.NothingReceived` | dvb-apps-997424a1799e/util/scan/scan.c:1233-1266 | reads that bring no section: a complete filter is not read, a failed read leaves everything, too few octets or another number than announced stay in the buffer and are answered -1 |
| `SectionOctets.ShortestSection` | dvb-apps-997424a1799e/util/scan/scan.c:1160-1280 | sections below twelve octets go to no table parser; from twelve on the first of its number does |
| `SectionOctets.OtherTable` | dvb-apps-997424a1799e/util/scan/scan.c:1110-1111 | a section of another table is answered -1 by `parse_section`, 0 by `read_sections`, and changes nothing |
| `SectionOctets.TableInOrder` | dvb-apps-997424a1799e/util/scan/scan.c:1100-1280 | the octets of sections 0 to last of a table, in order, with any flags and bodies: each goes to a table parser, and the answer is 1 exactly at the last |
| `ZapRoundTrip.FileRoundTrip` | dvb-apps-997424a1799e/lib/libdvbcfg/dvbcfg_zapchannel.c:230-499 | saving any legal channels and parsing the file gives, in order, those whose settings are told apart again, as a file keeps them; it gives the same list if and only if every channel is exact |
| `ZapRoundTrip.LineRoundTrip` | dvb-apps-997424a1799e/lib/libdvbcfg/dvbcfg_zapchannel.c:230-499 | a saved channel is one line, and parses back to what the file keeps of it, or is skipped exactly if its settings are not told apart again |
| `ZapRoundTrip.LastFieldOptional` | dvb-apps-997424a1799e/lib/libdvbcfg/dvbcfg_zapchannel.c:387-404 | the service identifier may be missing or unreadable and is 0 then; every other field must be right |
| `ZapLines.CommentIgnored` | dvb-apps-997424a1799e/lib/libdvbcfg/dvbcfg_zapchannel.c:240-246 | what comes behind a hash, a newline or a zero is not looked at |
| `ZapLines.LongNameSkipped` | dvb-apps-997424a1799e/lib/libdvbcfg/dvbcfg_zapchannel.c:193-216 | a line with a name of 128 characters or more is skipped |
| `ZapLines.PolarizationLetter` | dvb-apps-997424a1799e/lib/libdvbcfg/dvbcfg_zapchannel.c:311-341 | the polarization is one of the letters h, v, l and r in either case, the first of its field, and DVB-S frequencies are in units of a thousand |
| `ZapRoundTrip.FrontendRoundTrip` | dvb-apps-997424a1799e/lib/libdvbcfg/dvbcfg_zapchannel.c:257-393 | the same for the settings of each of the four frontend types |
| `ZapRoundTrip.KindMeans` | dvb-apps-997424a1799e/lib/libdvbcfg/dvbcfg_zapchannel.c:257-268 | the frontend type inferred by substring search is a matter of how whole fields start and end |
| `ZapRoundTrip.GapsAreSkipped` | dvb-apps-997424a1799e/lib/libdvbcfg/dvbcfg_zapchannel.c:76-84 | an ATSC channel with QAM and a DVB-T channel with an automatic constellation are lost |
| `ZapRoundTrip.ExactMeans` | dvb-apps-997424a1799e/lib/libdvbcfg/dvbcfg_zapchannel.c:310-341 | the condition under which nothing about a frontend is lost, in terms of its fields |
| `ZapText.IntRoundTrip` | dvb-apps-997424a1799e/lib/libdvbcfg/dvbcfg_zapchannel.c:119-141 | every 32-bit number printed with `%i` scans back to itself under the prefix rules of `%i` |
| `ZapLines.NumberForms` | dvb-apps-997424a1799e/lib/libdvbcfg/dvbcfg_zapchannel.c:119-141 | numbers in hand-written files: white space, a sign, and digits to base 16 behind `0x`, base 8 behind `0`, base 10 otherwise, wrapped to 32 bits |
| `ZapLines.NoNumber` | dvb-apps-997424a1799e/lib/libdvbcfg/dvbcfg_zapchannel.c:119-141 | text that does not begin like a number is refused |
| `ZapText.PrintMeans` | dvb-apps-997424a1799e/lib/libdvbcfg/dvbcfg_zapchannel.c:420-499 | numbers are printed without a leading zero, with a sign only if negative |
| `ZapText.ContainsMeans` | dvb-apps-997424a1799e/lib/libdvbcfg/dvbcfg_zapchannel.c:257-268 | a pattern with a colon at one end occurs in joined fields exactly when a field starts, or ends, with the rest of it |
| `ZapText.TakeField` | dvb-apps-997424a1799e/lib/libdvbcfg/dvbcfg_zapchannel.c:193-216 | reading one field off joined fields leaves the joined rest |
| `ZapTables.SettingRoundTrip` | dvb-apps-997424a1799e/lib/libdvbcfg/dvbcfg_zapchannel.c:167-228 | a printed setting is found again under its value, and one without a name is found nowhere |
| `ZapTables.InversionsEnumerate` | dvb-apps-997424a1799e/lib/libdvbcfg/dvbcfg_zapchannel.c:38-43 | exactly these names are found and printed, each with its place in the enumeration of `dvbfe.h` |
| `ZapTables.FecsEnumerate` | dvb-apps-997424a1799e/lib/libdvbcfg/dvbcfg_zapchannel.c:45-57 | exactly these names are found and printed, each with its place in the enumeration of `dvbfe.h` |
| `ZapTables.DvbcModulationsEnumerate` | dvb-apps-997424a1799e/lib/libdvbcfg/dvbcfg_zapchannel.c:59-67 | exactly these names are found and printed, each with its place in the enumeration of `dvbfe.h` |
| `ZapTables.BandwidthsEnumerate` | dvb-apps-997424a1799e/lib/libdvbcfg/dvbcfg_zapchannel.c:69-75 | exactly these names are found and printed, each with its place in the enumeration of `dvbfe.h` |
| `ZapTables.ConstellationsEnumerate` | dvb-apps-997424a1799e/lib/libdvbcfg/dvbcfg_zapchannel.c:77-85 | exactly these names are found and printed, each with its place in the enumeration of `dvbfe.h` |
| `ZapTables.TransmissionModesEnumerate` | dvb-apps-997424a1799e/lib/libdvbcfg/dvbcfg_zapchannel.c:87-92 | exactly these names are found and printed, each with its place in the enumeration of `dvbfe.h` |
| `ZapTables.GuardIntervalsEnumerate` | dvb-apps-997424a1799e/lib/libdvbcfg/dvbcfg_zapchannel.c:94-101 | exactly these names are found and printed, each with its place in the enumeration of `dvbfe.h` |
| `ZapTables.HierarchiesEnumerate` | dvb-apps-997424a1799e/lib/libdvbcfg/dvbcfg_zapchannel.c:103-110 | exactly these names are found and printed, each with its place in the enumeration of `dvbfe.h` |
| `ZapTables.AtscModulationsEnumerate` | dvb-apps-997424a1799e/lib/libdvbcfg/dvbcfg_zapchannel.c:112-118 | exactly these names are found and printed, each with its place in the enumeration of `dvbfe.h` |
| `ZapFile.Line.Cut` | dvb-apps-997424a1799e/lib/libdvbcfg/dvbcfg_zapchannel.c:125-132 | ending a field in place leaves exactly the field in front and the rest behind |
| `ZapFile.Line.TakeInt` | dvb-apps-997424a1799e/lib/libdvbcfg/dvbcfg_zapchannel.c:119-141 | value, cursor and failure as the value model says |
| `ZapFile.Line.TakeChar` | dvb-apps-997424a1799e/lib/libdvbcfg/dvbcfg_zapchannel.c:143-165 | value, cursor and failure as the value model says |
| `ZapFile.Line.TakeSetting` | dvb-apps-997424a1799e/lib/libdvbcfg/dvbcfg_zapchannel.c:167-191 | value, cursor and failure as the value model says |
| `ZapFile.Line.TakeName` | dvb-apps-997424a1799e/lib/libdvbcfg/dvbcfg_zapchannel.c:193-216 | value, cursor and failure as the value model says |
| `ZapFile.Line.ParseRecord` | dvb-apps-997424a1799e/lib/libdvbcfg/dvbcfg_zapchannel.c:237-404 | the in-place parse of one line computes the value model |
| `ZapFile.Parse` | dvb-apps-997424a1799e/lib/libdvbcfg/dvbcfg_zapchannel.c:230-418 | the channels of the file are delivered in order up to the first one that is not answered with zero, and the result follows from that answer |
| `ZapFile.Save` | dvb-apps-997424a1799e/lib/libdvbcfg/dvbcfg_zapchannel.c:420-499 | the text written is the concatenation of the channels' lines, and the result follows from the callback's last answer |
| `Mmi.LastGivesTheObject` | dvb-apps-997424a1799e/lib/libdvben50221/en50221_app_mmi.c:1172-1301 | a last fragment gives the concatenation of all fragments of its session and family since the previous one, whatever happened in between on other sessions and families |
| `Mmi.RunKeepsFragments` | dvb-apps-997424a1799e/lib/libdvben50221/en50221_app_mmi.c:1172-1301 | over every run each session has one entry, which keeps exactly what is outstanding of each family |
| `Mmi.ObjectArrives` | dvb-apps-997424a1799e/lib/libdvben50221/en50221_app_mmi.c:841-1009 | a menu or list cut into fragments anywhere reaches the application with all its texts when the last fragment arrives |
| `Mmi.TagsMean` | dvb-apps-997424a1799e/lib/libdvben50221/en50221_app_mmi.c:586-680 | which tag is which object, and whether its fragment is the last |
| `Mmi.ReceivedByTag` | dvb-apps-997424a1799e/lib/libdvben50221/en50221_app_mmi.c:586-680 | the tag is in the first three octets, high octet first, and the object behind it |
| `Mmi.DeliveredAs` | dvb-apps-997424a1799e/lib/libdvben50221/en50221_app_mmi.c:841-1082 | an object in one piece: menus and lists to their own callbacks with their texts, subtitles and downloads to theirs as they are, a first fragment kept |
| `Mmi.DefragmentMeans` | dvb-apps-997424a1799e/lib/libdvben50221/en50221_app_mmi.c:1172-1301 | one fragment changes what is kept for its own session and family only |
| `Mmi.ClearMeans` | dvb-apps-997424a1799e/lib/libdvben50221/en50221_app_mmi.c:207-236 | clearing a session empties its chains and no others |
| `MmiText.TextRoundTrip` | dvb-apps-997424a1799e/lib/libdvben50221/en50221_app_mmi.c:1303-1397 | a chain of text blocks gives its joined text and takes exactly its own octets, whatever follows |
| `MmiText.BlocksMean` | dvb-apps-997424a1799e/lib/libdvben50221/en50221_app_mmi.c:1303-1397 | a text ends with the block that has tag 9F 88 03 and goes on behind one with 9F 88 04; any other tag is an error |
| `MmiText.CountedTexts` | dvb-apps-997424a1799e/lib/libdvben50221/en50221_app_mmi.c:892-935 | the first octet counts the choices behind the three texts, or is FF for items of another coding |
| `MmiText.ItemsRoundTrip` | dvb-apps-997424a1799e/lib/libdvben50221/en50221_app_mmi.c:892-935 | all texts of an object are recovered if and only if it has at most 252 choices or items of another coding; the count wraps for 253 and 254 |
| `MmiText.TextsStayInside` | dvb-apps-997424a1799e/lib/libdvben50221/en50221_app_mmi.c:918-935 | texts that are recovered lie one behind the other inside the object, each reaching to the start of the next, and the rest is what is behind the last |
| `MmiText.OverrunExactly` | dvb-apps-997424a1799e/lib/libdvben50221/en50221_app_mmi.c:1313-1396 | the code would read behind its octets if and only if a text block that claims more than is left comes first or behind complete blocks with more to follow |
| `MmiText.OutsideExactly` | dvb-apps-997424a1799e/lib/libdvben50221/en50221_app_mmi.c:918-935 | the text loop comes to such a block if and only if the texts before it are taken off and one is still wanted |
| `MmiObject.MmiApp.Defragment` | dvb-apps-997424a1799e/lib/libdvben50221/en50221_app_mmi.c:1172-1301 | the list of session records and the outcome are those of the value model |
| `MmiObject.MmiApp.ClearSession` | dvb-apps-997424a1799e/lib/libdvben50221/en50221_app_mmi.c:207-236 | the list of session records is that of the value model |
| `MmiObject.MmiApp.Message` | dvb-apps-997424a1799e/lib/libdvben50221/en50221_app_mmi.c:841-1082 | the list of session records and the delivery are those of the value model, where a text block that claims too much is an outcome of its own |
| `MmiObject.MmiApp.Receive` | dvb-apps-997424a1799e/lib/libdvben50221/en50221_app_mmi.c:586-680 | the tag is read and the message handled as the value model says |
| `MmiObject.DefragmentText` | dvb-apps-997424a1799e/lib/libdvben50221/en50221_app_mmi.c:1303-1397 | the loop with its cursors computes the value model, and stops where the code would read behind its octets |
| `MmiObject.ParseItems` | dvb-apps-997424a1799e/lib/libdvben50221/en50221_app_mmi.c:892-935 | the text loop computes the value model, and stops where the code would read behind its octets |

## Left out

- Re-entrant callbacks: a callback that calls back into the stack before it returns.
- TransportObject.TransportLayer.Send: the queue is a sequence here; that linking a message at the tail
  pointer appends to it is proved for `SendQueue.MessageQueue`, which the layer object does not contain.
- SessionObject.SessionLayer.ProcessData: the notices of the single TPDUs are those of `ProcessTpdu`; they are
  not collected over the octets of one read.
- ScanScheduler.Scheduler.StartFilter: the PID, table and extension masks given to the demultiplexer are not
  modelled, they would only add an easy member.
- Locking, including the lock that `en50221_app_mmi_clear_session` keeps when it finds its session.
- Running out of memory; a `realloc` to size zero counts as success.
- The outer loop of `en50221_tl_poll` with the link read: a poll is modelled as a run of steps, each with
  the outcome of its write as a parameter. The error slot and error number are the returned status only.
- The chance that the clock reads zero, which the code would take for "no timer running".
- `en50221_sl_broadcast_data`, the registration functions of both layers, and the slot and connection
  getters: single look-ups or loops over modelled calls.
- Without a lookup callback the code leaves a resource identifier unset; it is zero in the model.
- `tx_time` and the send queue are not reset where the code does not reset them, so a connection that is
  reused may find both; nothing is claimed about a fresh timer or queue.
- Create and close *responses* are read at the offsets the code uses, which differ from those it writes;
  there is no round trip for them.
- The 32-bit sums of `en50221_ca_calculate_length` are unbounded; a PMT section is too short to reach them.
- The PMT itself is a value with descriptors and streams; its parser (libucsi) is not part of this model.
- SectionBuffer.AddKeeps: states of a `section_buf` other than those its own operations reach are excluded.
- SectionBuffer.AddPayloadKeeps: a flagged payload without an octet for its pointer field is excluded; the
  code would read past it.
- Section.EncodeThenDecode: sections shorter than 9 octets, whose CRC would overlap the header, are excluded.
- `section.h` is modelled for a little-endian host; on a big-endian one the swaps are empty.
- Table and descriptor parsers of the scan tool, tuning and output: dispatch targets that may add filters.
- The list node embedded in a filter and the filter are one object; `list_entry` is the identity.
- ScanScheduler.Scheduler.AddFilter: a filter that was stopped keeps stale links and must not be added
  again, as in the program, which sets up every filter once.
- ZapRoundTrip.FileRoundTrip: names with a colon, hash, newline or more than 127 characters, and other
  polarizations than h, v, l and r, are excluded, as the record's declaration does.
- ZapText.IntRoundTrip: numbers in hand-written files beyond 32 bits wrap in the model; the C library's
  treatment of those beyond 64 bits, and of `0x` without digits (zero here), is not claimed.
- A signed product that overflows (a DVB-S symbol rate of 2147484000 or more) wraps; C leaves it undefined.
  A null pointer under `%s` prints `(null)`, as in the GNU library. Failed `fprintf` calls are left out.
- MmiObject.DefragmentText: what the code does once it reads behind its octets. The inputs that get there are
  exactly those of `MmiText.OverrunExactly`; they are an outcome of their own here.
- MmiObject.ParseItems: the same for a text of a menu or list; its inputs are those of `MmiText.OutsideExactly`.
- MmiObject.MmiApp.Message: the same for a message that completes such a menu or list.
- Display, keypad, scene and enquiry messages of the MMI resource, and the other application resources:
  single-message encoders and decoders.
- Device drivers, the driver interface library, DiSEqC tables and the other command-line tools.
