# Verified models of the Bluetooth stack

A Dafny model of the parts of this Bluetooth stack whose behaviour is hardest to see from the code: the
audio-link (SCO) state machine and the AT command parser of the Audio Gateway, the media path of A2DP, the
A2DP stream of the audio HAL, and the two GATT servers of the service daemon. `dafny verify dfyconfig.toml`
checks the whole project.

The model keeps the form of the code. Control blocks, servers and streams are classes whose methods update
fields in place, with the loops of the source; each method is proved equal to a specification function on
values, and the theorems are about runs of those functions. What the code calls but does not define (the
lower stack, sockets, alarms, the application) is a parameter: every theorem holds for every answer.

| file | models |
|---|---|
| `AtText`, `AtParser`, `AtMeaning` | `utl_strucmp`, `utl_str2int`; the AT command interpreter; what a line means |
| `ScoModel`, `ScoMachine` | the SCO state machine: specification, and the class that follows the source |
| `ScoRuns`, `ScoPosts`, `ScoPlay` | safety over whole runs; the message queue between callbacks and the machine; runs played on the class |
| `ScoCells`, `ScoTransfer` | what every request and report does in every state; who gets the link at the end of a transfer |
| `ScoFallback` | the codec fallback chain |
| `ScoSwallowedClose`, `ScoReachable` | reports that go unheard; runs from start-up that lead there |
| `IndicatorMask` | the AT+BIA mask loop |
| `MediaFragments`, `MediaQueue` | A2DP payload fragmentation; the queue of a stream |
| `EndpointSearch`, `Reconfigure` | the capability search; the retries of a reconfigure |
| `A2dpStream`, `A2dpSuspension`, `A2dpCells`, `Downmix` | the HAL streams; suspension and standby over runs; how each state of a stream is entered; stereo to mono in place |
| `BtAddress`, `GattIndex`, `GattIndications`, `GattServer`, `GattPlay` | the GATT server: address printing, connection indexes, indications, the server itself, runs played on it |
| `ServiceTable` | posting a service and reading it back |
| `BlobModel`, `BlobReads`, `BlobSetup`, `BlobServer`, `BlobPlay` | sectioned blob attributes of the older server; runs played on it |
| `Transducers`, `Collections`, `Division`, `Bytes` | runs of machines in general; optional values and sequences of sequences; division; octets |

## What the proofs found

Where a property that one would expect is false of the code, the model keeps the code, a lemma gives an
input or a run that breaks it, and another lemma gives the exact condition.

- A reported link loss should bring the SCO machine to rest. It does if and only if the block does not want
  a retry or the machine is at rest already (`LinkLossRestsIff`): `bta_ag_sco_conn_close` turns the loss
  into a reopen event, which every state but OPENING ignores. So a transfer can be lost with the machine
  waiting for a link that no longer exists (`LostTransferIsReachable`), and the machine can stay OPEN
  without a link (`OpenWithoutLinkIsReachable`); both by runs from start-up through the message queue.
- `+BCS` announces CVSD when the application asked for no codec, and then refuses the headset's
  confirmation of it (`AnnouncedIsConfirmedIff`).
- An AT line that is too long is not discarded: what remains of it modulo the room in the buffer is executed
  (`OverlongLineExecutesRemainder`). The bounds test on the argument pointer in `bta_ag_process_at` can
  never succeed.
- A HAL write that fails closes the stream's current data socket, which after a standby and a restart is not
  the one it wrote to (`ClosesForeignSocket`; `ClosesOwnSocketIff` gives the exact condition).
- A disconnect that names another address than its connect leaves the two connection indexes different
  (`DisconnectKeepsIff`).
- A split media payload gets an RTP marker on its last packet even when the marker option is off, and an
  unsplit one then has none, so packets can be told apart again only under the condition of `ReassemblyIff`.
- A service is always read back as primary and without its included services (`RoundTrip`).
- Two connections of one device may wait under the same request id, and then the answer to the earlier one
  goes to the later (`AskAndAnswer` gives the exact condition).
- A blob read in sections is torn by the requests of other clients that `Tears` lists and by no others
  (`IntactIff`), and no value over 131072 octets can be read whole (`OutOfReach`).

Where code and documentation differ the model follows the code: `bta_ag_sco.cc:198` stores an enumerator of
the SCO states into the connection state of the block, which is modelled by the connection state with that
number.

## Model

| member | source | states |
|---|---|---|
| `AtText.StrUpperCompare` | bta/sys/utl.cc:79-97 | true exactly when the pattern is a prefix of the upper-cased text; never reads past the terminating NUL |
| `AtText.StringToInt` | bta/sys/utl.cc:43-64 | the decimal value after leading spaces if digits alone follow and it is at most 32767, and -1 otherwise |
| `AtText.DigitsToInt` | bta/sys/utl.cc:51-63 | the digit loop computes the decimal value of the digits, with its early exit |
| `AtText.DecimalGrows` | bta/sys/utl.cc:51-63 | more digits never make a number smaller, so the early exit loses nothing |
| `AtParser.MatchesArePrefixes` | bta/sys/utl.cc:79-97 | two table entries that match one line are prefixes of each other |
| `AtParser.OrderDoesNotMatter` | bta/ag/bta_ag_at.cc:80-90 | in a table in which no entry is the beginning of another, the same entries in any order answer every line alike |
| `AtParser.AtInterpreter.constructor` | bta/ag/bta_ag_at.cc:46-50 | starts without a buffer and with no text pending |
| `AtParser.AtInterpreter.Reinit` | bta/ag/bta_ag_at.cc:63-66 | drops the buffer and the pending text, and makes no callback |
| `AtParser.AtInterpreter.ProcessAt` | bta/ag/bta_ag_at.cc:80-159 | the callback is that of the first matching table entry for the whole line, for every line and every table; `AtMeaning.LineMeans` says which that is on the text itself |
| `AtParser.AtInterpreter.Respond` | bta/ag/bta_ag_at.cc:93-151 | the argument is classified, range-checked and reported as the table entry asks, for every argument text; the kinds are those of `AtMeaning.LineMeans` |
| `AtParser.AtInterpreter.TakeOctet` | bta/ag/bta_ag_at.cc:183-208 | one turn of the inner loop is one step of the octet-at-a-time transducer, inside the buffer |
| `AtParser.AtInterpreter.FollowOctet` | bta/ag/bta_ag_at.cc:183-208 | a turn of the loop keeps the interpreter in step with the transducer |
| `AtParser.AtInterpreter.Fill` | bta/ag/bta_ag_at.cc:183-209 | the inner loop stays in step with the transducer until the data ends or the buffer is full |
| `AtParser.AtInterpreter.Parse` | bta/ag/bta_ag_at.cc:173-218 | for every input the buffer loops end, stay in bounds, and leave the lines and the pending text of the octet-at-a-time transducer |
| `AtParser.AnyChunking` | bta/ag/bta_ag_at.cc:173-218 | any cutting of the octets into calls gives the lines and pending text of one call with all of them |
| `AtParser.SameRoomSameStep` | bta/ag/bta_ag_at.cc:210-216 | a full buffer and an emptied one behave alike on the next octet, so it does not matter when it is emptied |
| `AtParser.StepCallback` | bta/ag/bta_ag_at.cc:188-207 | an octet produces one callback if it ends an accepted line or is an escape, and none otherwise |
| `AtParser.OneCallbackEach` | bta/ag/bta_ag_at.cc:182-217 | the number of callbacks of any input is the number of accepted lines and escape octets in it |
| `AtParser.OverlongLine` | bta/ag/bta_ag_at.cc:182-217 | a line of any length without control octets leaves in the buffer its last octets, as many as `ResidueLength` says |
| `AtParser.ResidueLength` | bta/ag/bta_ag_at.cc:182-217 | that is the length of the line modulo the room in the buffer, a full buffer standing for no remainder |
| `AtParser.OverlongLineExecutesRemainder` | bta/ag/bta_ag_at.cc:182-217 | at the end of the line that remainder is executed if it starts with AT, and nothing if not |
| `AtMeaning.LineMeans` | bta/ag/bta_ag_at.cc:86-151 | on the text: a command alone asks for nothing, with `?` it reads, with `=?` it tests, with `=` and a value it sets that value, and any other text behind it is handed over as it is; each is answered exactly if the first matching entry allows that kind, a number also has to be within the limits of the entry, and all else is an error |
| `AtMeaning.FirstAnswers` | bta/ag/bta_ag_at.cc:86-104 | the first matching entry answers, whatever entries follow it |
| `AtMeaning.CommandIsMatched` | bta/sys/utl.cc:79-97 | an entry without small letters is matched by its own text with anything behind it |
| `AtMeaning.CaseIsIgnored` | bta/sys/utl.cc:79-97 | a line is matched in small letters exactly if it is in its own |
| `AtMeaning.NumberIsRead` | bta/sys/utl.cc:43-64 | a printed number is read back, after any blanks, if it is at most 32767, and is refused if it is larger |
| `AtMeaning.OnlyNumbersAreRead` | bta/sys/utl.cc:43-64 | no other text is read as a number |
| `AtMeaning.CommandLineIsRead` | bta/ag/bta_ag_at.cc:182-217 | a line of AT in any case and a command is one command, of the text behind the AT |
| `AtMeaning.OtherLineIsIgnored` | bta/ag/bta_ag_at.cc:182-217 | a line without AT or with nothing behind it is no command |
| `AtMeaning.EscapeEndsLine` | bta/ag/bta_ag_at.cc:182-217 | either escape octet hands on the text up to and with it as an error |
| `AtMeaning.NulSkippedInFront` | bta/ag/bta_ag_at.cc:182-217 | a NUL is skipped in front of a line and kept inside it |
| `ScoModel.Event` | bta/ag/bta_ag_sco.cc:601-1088 | no event in any state, with any answers of the lower stack, loses the transfer target of a transfer state; where each request and report leads in each state is stated by the `ScoCells` rows |
| `ScoModel.ConnRequest` | bta/ag/bta_ag_sco.cc:275-330 | a headset's own link request never leaves a transfer state without target |
| `ScoModel.LinkDown` | bta/ag/bta_ag_sco.cc:157-233 | a link-down callback never leaves a transfer state without target |
| `ScoMachine.ScoControl.HandleEvent` | bta/ag/bta_ag_sco.cc:601-1088 | the event switch, state by state with its nested calls, moves the control block and calls the lower stack as `Event` says, in all eleven states and for all nine events; the `ScoCells` rows say what that is |
| `ScoMachine.ScoControl.RemoveLink` | bta/ag/bta_ag_sco.cc:246-263 | removes the link of a block, and says whether its disconnection was started |
| `ScoMachine.ScoControl.CreateLink` | bta/ag/bta_ag_sco.cc:361-460 | creates a link with the codec and settings that the block stands at, or fails as the lower stack says |
| `ScoMachine.ScoControl.CreatePendingLink` | bta/ag/bta_ag_sco.cc:474-525 | creates the link prepared before, with the codec negotiated |
| `ScoMachine.ScoControl.NegotiateCodec` | bta/ag/bta_ag_sco.cc:558-589 | proposes a codec to a headset that negotiates, and otherwise goes on at once |
| `ScoMachine.ScoControl.NegotiationResult` | bta/ag/bta_ag_sco.cc:1205-1218 | an agreed codec creates the link, a refused one closes |
| `ScoMachine.ScoControl.RespondToRequest` | bta/ag/bta_ag_sco.cc:1311-1332 | answers a headset's link request |
| `ScoMachine.ScoControl.OpenAudio` | bta/ag/bta_ag_sco.cc:1156-1171 | an open request opens, or transfers from another block |
| `ScoMachine.ScoControl.CloseAudio` | bta/ag/bta_ag_sco.cc:1183-1193 | a close request closes a link or ends a negotiation, and does nothing otherwise |
| `ScoMachine.ScoControl.OnConnOpen` | bta/ag/bta_ag_sco.cc:1245-1256 | a link report opens the machine and remembers the block |
| `ScoMachine.ScoControl.OnConnClose` | bta/ag/bta_ag_sco.cc:1268-1299 | a loss report is a reopen if the block wants a retry, and a close otherwise |
| `ScoMachine.ScoControl.OnLinkUp` | bta/ag/bta_ag_sco.cc:119-145 | a link-up callback posts a report for the current block, or for the block of the peer, or drops the link |
| `ScoMachine.ScoControl.OnLinkDown` | bta/ag/bta_ag_sco.cc:157-233 | a link-down callback steps the codec settings down and posts a loss report |
| `ScoMachine.ScoControl.StepDown` | bta/ag/bta_ag_sco.cc:186-217 | a failed mSBC attempt goes from T2 to T1, and from T1 to the CVSD fallback |
| `ScoMachine.ScoControl.OnConnRequest` | bta/ag/bta_ag_sco.cc:275-330 | a headset's link request is answered, or starts a transfer, or is rejected |
| `ScoMachine.ScoControl.OnAtBcs` | bta/ag/bta_ag_cmd.cc:1244-1272 | AT+BCS passes the result of the comparison with the codec that was sent |
| `ScoMachine.ScoControl.OnAtBac` | bta/ag/bta_ag_cmd.cc:1208-1242 | AT+BAC records the headset's codecs and renegotiates if a negotiation is on |
| `ScoMachine.ScoControl.OtherOpen` | bta/ag/bta_ag_main.cc:493-519 | finds whether any other block has a service connection |
| `ScoMachine.ScoControl.IndexByAddr` | bta/ag/bta_ag_main.cc:468-481 | finds the first block in use with the address |
| `ScoPlay.Handle` | bta/ag/bta_ag_sco.cc:119-1332 | any one input, handed to the control block, is one step of the runs below |
| `ScoPlay.Play` | bta/ag/bta_ag_sco.cc:119-1332 | any run on a control block from start-up ends as specified; a transfer state has its target; and if reports come through the message queue, an open machine had its link announced by a callback |
| `ScoCells.OpenCell` | bta/ag/bta_ag_sco.cc:1156-1181 | an open request negotiates with its block if the machine listens, takes a close back that waits, is kept for after a close under way, and changes nothing otherwise |
| `ScoCells.TransferCell` | bta/ag/bta_ag_sco.cc:1156-1181 | a request for a link that another block has makes its own block the target of a transfer, and an open link is removed, exactly in the states that allow a transfer |
| `ScoCells.CloseCell` | bta/ag/bta_ag_sco.cc:1183-1203 | where a close request leads in each of the eleven states, and whose link it removes |
| `ScoCells.ShutdownCell` | bta/ag/bta_ag_sco.cc:1230-1243 | where a shutdown request leads in each of the eleven states: the current block is waited for, another one is removed at once, and the machine stops with the last open block |
| `ScoCells.ListenCell` | bta/ag/bta_ag_sco.cc:1140-1154 | a headset that joins is listened for in exactly the states that allow it, and only a shut-down machine changes state |
| `ScoCells.UpCell` | bta/ag/bta_ag_sco.cc:1245-1266 | a link report opens the machine exactly while it waits for a link; where the link is not wanted any more it is removed |
| `ScoCells.LossCell` | bta/ag/bta_ag_sco.cc:1268-1299 | where a loss that is not retried leads in each of the eleven states, who listens, who is answered and who is served next |
| `ScoCells.RetriedIff` | bta/ag/bta_ag_sco.cc:1268-1299 | a link lost while it is set up is tried again exactly if its headset is connected and the fallback codec or the safe mSBC settings are next, and otherwise the machine listens |
| `ScoCells.CreatedIndex` | bta/ag/bta_ag_sco.cc:361-512 | a link that the lower stack creates is known by its index, one to connect is the current one, and a refused one leaves none |
| `ScoCells.LossPrefersT2` | bta/ag/bta_ag_sco.cc:1268-1299 | after a loss that is not retried the preferred mSBC settings are restored |
| `ScoCells.AcceptCell` | bta/ag/bta_ag_sco.cc:843-851 | at the end of a transfer that a headset asked for, that headset is accepted and no other, is current with its own link, and the transfer is over |
| `ScoCells.HandOverCell` | bta/ag/bta_ag_sco.cc:1007-1017 | at the end of a transfer that the application asked for, the link that the target listens on is removed, and the target, and no other block, is proposed its codec or given a link with it |
| `ScoCells.StopCell` | bta/ag/bta_ag_sco.cc:1028-1084 | when the link of a shutdown is gone the machine stops exactly if no block is open, and an open block listens again |
| `ScoCells.NegotiationCell` | bta/ag/bta_ag_sco.cc:558-589 | a negotiation proposes exactly if the headset negotiates and the codec is new or the fallback, and otherwise creates the link, in either case with the codec of that block |
| `ScoCells.UpCallback` | bta/ag/bta_ag_sco.cc:119-145 | a link that comes up is reported to the current block if there is one, else to the connected headset with that address, and else is disowned |
| `ScoCells.DownCallback` | bta/ag/bta_ag_sco.cc:157-233 | a link that goes down is reported to the current block exactly if it may be its own |
| `ScoCells.AnswerCell` | bta/ag/bta_ag_sco.cc:275-330 | a headset that asks for a link while nobody holds one is answered |
| `ScoCells.RequestedTransferCell` | bta/ag/bta_ag_sco.cc:275-330 | if somebody holds one, the headset becomes the target of a transfer exactly if the removal of that link is under way, and is answered at once if not |
| `ScoCells.RejectionCell` | bta/ag/bta_ag_sco.cc:275-330 | a headset that is not the connected active device is rejected |
| `ScoCells.RequestsHeard` | bta/ag/bta_ag_sco.cc:1156-1203 | open requests are heard only while audio is allowed and are transfers exactly if another block has the link; close requests only for a block with a link or in negotiation |
| `ScoCells.CodecsDecideProposal` | bta/ag/bta_ag_cmd.cc:1208-1242 | a headset that lists its codecs during its own negotiation is proposed the best one listed |
| `ScoCells.CodecsRemembered` | bta/ag/bta_ag_cmd.cc:1208-1242 | at any other time they are remembered and nothing is sent |
| `ScoTransfer.WaitStep` | bta/ag/bta_ag_sco.cc:821-1026 | a machine that waits to hand its link over goes on waiting for the same target exactly through the inputs that do not end the wait, and in that time proposes to, connects and answers nobody else |
| `ScoTransfer.TransferReachesTarget` | bta/ag/bta_ag_sco.cc:983-1026 | over every run: after the application asked for another block, through any inputs that do not end the wait, the reported loss of the old link turns the machine to exactly that block, which is proposed its codec or given the link, and in all that time no other block is |
| `ScoTransfer.RequestIsAnswered` | bta/ag/bta_ag_sco.cc:821-856 | over every run: the headset that asked for the link itself is answered when the loss of the old link is reported, is current with its own link, and no other headset is answered in that time |
| `ScoRuns.LinkLossRestsIff` | bta/ag/bta_ag_sco.cc:1268-1299 | a loss report ends in SHUTDOWN, LISTEN, CODEC or OPENING if and only if the block wants no retry or the machine was in one of them |
| `ScoRuns.ConnCloseRests` | bta/ag/bta_ag_sco.cc:601-1088 | a close event brings every state to rest |
| `ScoRuns.ReopenOnlyWhileOpening` | bta/ag/bta_ag_sco.cc:735-739 | a reopen event changes nothing except while opening |
| `ScoRuns.EnteringOpen` | bta/ag/bta_ag_sco.cc:725-776 | no step enters OPEN other than a link report |
| `ScoRuns.StayingOpen` | bta/ag/bta_ag_sco.cc:1268-1299 | an open machine stays open over a loss report exactly when the block wants a retry |
| `ScoRuns.OpenMeansLinkUp` | bta/ag/bta_ag_sco.cc:601-1088 | after every run that ends in OPEN a link was reported up, and since then no loss was reported except for blocks that wanted a retry |
| `ScoPosts.EventLogs` | bta/ag/bta_ag_sco.cc:601-1088 | no event in any state posts a link-up report |
| `ScoPosts.StepLogs` | bta/ag/bta_ag_sco.cc:119-145 | of all inputs only the link-up callback posts a link-up report, and at most one |
| `ScoPosts.PostedBy` | bta/ag/bta_ag_sco.cc:119-145 | every link-up report in the queue was posted by a link-up callback of the run, at the step where it is next in order |
| `ScoPosts.OpenMeansCallback` | bta/ag/bta_ag_sco.cc:119-1299 | in every run of the message queue that ends in OPEN, a link-up callback came, the report of that very callback was handled later, and no loss was reported since except for blocks that wanted a retry |
| `ScoRuns.RefusalMakesNoLink` | bta/ag/bta_ag_sco.cc:1205-1218 | a refused codec creates no link and posts nothing |
| `ScoRuns.AgreementMakesLink` | bta/ag/bta_ag_sco.cc:474-512 | a confirmed codec creates at most one link, to that headset, with exactly that codec |
| `ScoRuns.BcsLinkUsesNamedCodec` | bta/ag/bta_ag_cmd.cc:1244-1272 | in every state AT+BCS creates a link exactly under the stated conditions, with the codec the headset named |
| `ScoRuns.AnnouncedIsConfirmedIff` | bta/ag/bta_ag_cmd.cc:1741-1768 | a headset that repeats the announced codec is heard if and only if the gateway asked for a codec or is falling back |
| `ScoFallback.OpenStarts` | bta/ag/bta_ag_sco.cc:627-674 | an open request proposes mSBC or tries it with T2 at once |
| `ScoFallback.ProposalConfirmed` | bta/ag/bta_ag_sco.cc:474-512 | the confirmed proposal is tried with T2 |
| `ScoFallback.T2Fails` | bta/ag/bta_ag_sco.cc:186-217 | a failed T2 attempt is repeated with T1 |
| `ScoFallback.T1Fails` | bta/ag/bta_ag_sco.cc:186-217 | a failed T1 attempt makes the gateway propose CVSD |
| `ScoFallback.FallbackConfirmed` | bta/ag/bta_ag_sco.cc:388-408 | the confirmed fallback is tried with CVSD |
| `ScoFallback.CvsdFails` | bta/ag/bta_ag_sco.cc:1268-1299 | a failed CVSD attempt is the last: the machine listens again |
| `ScoFallback.RoundsAdvance` | bta/ag/bta_ag_sco.cc:735-739 | from any stage, any number of failures moves along the chain and stops at its end |
| `ScoFallback.FallbackIsOrderedAndBounded` | bta/ag/bta_ag_sco.cc:558-589 | after an open request, failures however many, the links tried are a prefix of mSBC T2, mSBC T1, CVSD, all three after five rounds |
| `ScoFallback.NextConnectionRenegotiates` | bta/ag/bta_ag_sco.cc:388-408 | the connection after an exhausted chain proposes mSBC and tries T2 again |
| `ScoSwallowedClose.TransferIsLost` | bta/ag/bta_ag_sco.cc:983-1026 | a failed T1 retry during a transfer leaves the machine waiting for a link that does not exist |
| `ScoSwallowedClose.OpenWithoutLink` | bta/ag/bta_ag_sco.cc:157-233 | the retry's link comes up and goes down before either is reported: the block is marked while the machine is still opening, and so it stays open over the reported loss, without a link |
| `ScoReachable.RetryIsReachable` | bta/ag/bta_ag_sco.cc:186-217 | from start-up a headset connects, listens, is opened, confirms mSBC and fails once: the retry is under way and every report is handled |
| `ScoReachable.LostTransferIsReachable` | bta/ag/bta_ag_sco.cc:983-1026 | a run from start-up through the message queue, in which another headset connects during the retry and asks for the link, ends in the lost transfer with that headset still connected |
| `ScoReachable.OpenWithoutLinkIsReachable` | bta/ag/bta_ag_sco.cc:1268-1299 | a run from start-up with one headset, its reports handled in the order of the callbacks that posted them, ends in OPEN without a link |
| `IndicatorMask.ParseMask` | bta/ag/bta_ag_cmd.cc:1165-1189 | the loop accepts exactly lists of at most twenty fields, each empty, 0 or 1, a final empty field ignored, and computes the mask field by field |
| `IndicatorMask.IndicatorControl.OnAtBia` | bta/ag/bta_ag_cmd.cc:1165-1196 | an accepted list sets or clears bit k by field k and keeps bits of empty fields; a rejected one leaves the stored mask alone |
| `IndicatorMask.SplitJoins` | bta/ag/bta_ag_cmd.cc:1165-1189 | the fields of a list with commas between them are the list, and none has a comma in it |
| `MediaFragments.CutJoins` | bta/av/bta_av_aact.cc:2146-2189 | the pieces of a payload concatenate to it, for every length and MTU |
| `MediaFragments.CutSizes` | bta/av/bta_av_aact.cc:2146-2189 | no piece is longer than the MTU, none of a non-empty payload is empty, all but the last are full |
| `MediaFragments.CutCount` | bta/av/bta_av_aact.cc:2146-2150 | their number is the rounded-up quotient |
| `MediaFragments.CountExtra` | bta/av/bta_av_aact.cc:2146-2150 | the computed number of extra fragments is one less than the number of pieces |
| `MediaFragments.WriteBuffer` | bta/av/bta_av_aact.cc:2146-2189 | the pointer-advancing loop writes exactly the pieces in order, with the marker on the last of several |
| `MediaFragments.WriteAll` | bta/av/bta_av_aact.cc:2165-2189 | the marker of a split payload is on its last packet only |
| `MediaFragments.BufferArrives` | bta/av/bta_av_aact.cc:2146-2189 | a receiver that goes by the marker gets a buffer as one payload exactly when it was split or the marker is in use |
| `MediaFragments.ReassemblyIff` | bta/av/bta_av_aact.cc:2146-2189 | any sequence of buffers is recovered, whole and in order, if and only if the marker is in use or every buffer was split |
| `MediaQueue.AudioChannel.SendNext` | bta/av/bta_av_aact.cc:2097-2208 | one data-path call fetches, writes, keeps or drops; `DataPathWritesIff`, `DataPathTakesIff` and `DataPathDropsIff` say exactly when and which buffer |
| `MediaQueue.AudioChannel.Enqueue` | bta/av/bta_av_main.cc:1126-1153 | a copied buffer joins the queue, the oldest leaving a full one |
| `MediaQueue.AudioChannel.DropAll` | bta/av/bta_av_aact.cc:1947-1953 | stopping drops every waiting buffer in order |
| `MediaQueue.StepConserves` | bta/av/bta_av_aact.cc:2097-2208 | no operation loses or duplicates a buffer |
| `MediaQueue.StepInOrder` | bta/av/bta_av_aact.cc:2097-2208 | no operation lets a buffer overtake another |
| `MediaQueue.ChannelIsFifo` | bta/av/bta_av_aact.cc:2097-2208 | over every run each buffer is exactly one of written, waiting or dropped, and written-then-waiting is a subsequence of the arrivals |
| `MediaQueue.DataPathDropsIff` | bta/av/bta_av_aact.cc:2191-2208 | a data-path call drops exactly when it is not congested, the lower layer is full and four buffers were waiting, and then the oldest |
| `MediaQueue.DataPathWritesIff` | bta/av/bta_av_aact.cc:2097-2190 | a data-path call writes exactly when it is not congested, fewer than five buffers, counted in eight bits, are in the lower layer and one waits or is fetched; it is then the oldest waiting one, or the fetched one, and the channel is congested exactly then |
| `MediaQueue.DataPathTakesIff` | bta/av/bta_av_aact.cc:2097-2208 | the codec is asked exactly when nothing waits; what comes in is written or waits, and the list loses its oldest buffer exactly when one is written or dropped |
| `MediaQueue.RoundsDeliver` | bta/av/bta_av_aact.cc:2097-2190 | over every run of n data-path calls with room, each after congestion has cleared, the n buffers that waited longest are written in their order, and nothing else changes |
| `MediaQueue.NothingLostInOrder` | bta/av/bta_av_aact.cc:2097-2208 | over every run that drops nothing, written-then-waiting is what it was followed by all that came in, in order and without a gap |
| `MediaQueue.CopyDropsIff` | bta/av/bta_av_main.cc:1126-1153 | a copy joins at the end, and the oldest buffer leaves exactly when the limit is passed |
| `MediaQueue.StopDropsAll` | bta/av/bta_av_aact.cc:1947-1953 | stopping gives up all that waits, in order, and nothing else |
| `MediaQueue.QueueBounded` | bta/av/bta_av_main.cc:1126-1153 | over every run no more buffers wait than the largest limit of a copy |
| `MediaQueue.Play` | bta/av/bta_av_aact.cc:2097-2208 | any run on a channel object ends as specified, conserving the buffers and their order |
| `EndpointSearch.SearchControl.NextGetCap` | bta/av/bta_av_aact.cc:351-387 | asks the next free endpoint of the right kind, or reports failure if there is none |
| `EndpointSearch.SearchControl.DiscResults` | bta/av/bta_av_aact.cc:1436-1481 | counts the sinks and sources and asks the first candidate |
| `EndpointSearch.SearchControl.GetCapResults` | bta/av/bta_av_aact.cc:1693-1767 | opens a usable endpoint, and otherwise moves on to the next candidate and to no other |
| `EndpointSearch.AllAsked` | bta/av/bta_av_aact.cc:351-387 | after n refusals exactly the first n + 1 candidates have been asked, in order and once each; when all refuse a failure is reported |
| `EndpointSearch.StopsAtFirstUsable` | bta/av/bta_av_aact.cc:1693-1767 | the first usable endpoint is opened and none after it is asked |
| `EndpointSearch.RunSearch` | bta/av/bta_av_aact.cc:1436-1481 | whatever the peer answers, the handlers together make exactly the requests of that search |
| `EndpointSearch.CountsCandidates` | bta/av/bta_av_aact.cc:1436-1481 | the sinks and sources that are counted are as many as the endpoints that the search will try, for either role, and none for any other |
| `Reconfigure.ReconfigControl.Reconfig` | bta/av/bta_av_aact.cc:2010-2018 | a request starts the count anew |
| `Reconfigure.ReconfigControl.RcfgFailed` | bta/av/bta_av_aact.cc:2653-2679 | a failed open retries, or reports failure when the count is used up |
| `Reconfigure.ReconfigControl.RcfgConnect` | bta/av/bta_av_aact.cc:2690-2703 | a closed stream is connected again, or the failure reported |
| `Reconfigure.ReconfigControl.RcfgDisconnected` | bta/av/bta_av_aact.cc:2714-2735 | a lost connection is set up again, or the failure reported |
| `Reconfigure.AtMostSevenRetries` | bta/av/bta_av_aact.cc:2653-2735 | however the three handlers interleave, one of the first eight reports failure |
| `Reconfigure.SevenRetriesHappen` | bta/av/bta_av_aact.cc:2653-2679 | seven retries do happen, so the bound is exact |
| `Reconfigure.CallIsExpected` | bta/av/bta_av_aact.cc:2653-2735 | in every interleaving, up to the report of failure, what the k-th event leads to depends on k and on what it finds alone: a failed open is reported from the eighth event on, a close or disconnect from the seventh on, and before that each is retried with the call for what it finds |
| `Reconfigure.Play` | bta/av/bta_av_aact.cc:2653-2735 | any interleaving of the handlers on a control block ends as specified, with a failure report among the first eight calls |
| `A2dpStream.AudioStream.StartAudioDatapath` | audio_a2dp_hw/src/audio_a2dp_hw.cc:834-867 | a start that fails at either point leaves state and socket as they were |
| `A2dpStream.AudioStream.StopAudioDatapath` | audio_a2dp_hw/src/audio_a2dp_hw.cc:869-891 | only a negative result fails; otherwise the stream is stopped and its socket closed |
| `A2dpStream.AudioStream.SuspendAudioDatapath` | audio_a2dp_hw/src/audio_a2dp_hw.cc:893-912 | a stopping stream is not suspended; a stream is suspended, or put on standby, exactly as `A2dpSuspension.SuspendedEnteredIff` and `A2dpCells.StandbyEnteredIff` say |
| `A2dpStream.AudioStream.OutWriteBegin` | audio_a2dp_hw/src/audio_a2dp_hw.cc:920-962 | a write before it blocks: autostart, or frames counted without being sent |
| `A2dpStream.AudioStream.OutWriteEnd` | audio_a2dp_hw/src/audio_a2dp_hw.cc:964-988 | a write after it blocked, in whatever state it finds the stream |
| `A2dpStream.AudioStream.InReadBegin` | audio_a2dp_hw/src/audio_a2dp_hw.cc:1498-1525 | a read before it blocks: to the stream it is a write of no frames |
| `A2dpStream.AudioStream.InReadEnd` | audio_a2dp_hw/src/audio_a2dp_hw.cc:1525-1554 | a read after it blocked: a failure disconnects as a failed write does, and failures and time-outs give a full buffer |
| `A2dpStream.AudioStream.OutStandby` | audio_a2dp_hw/src/audio_a2dp_hw.cc:1141-1160 | standby suspends unless suspended already, and restarts the rendered count |
| `A2dpStream.AudioStream.OutSetParameters` | audio_a2dp_hw/src/audio_a2dp_hw.cc:1162-1197 | "closing" and the suspend flag change the state as specified; `A2dpSuspension.SuspendedEnteredIff`, `SuspendedLeftIff` and `A2dpCells.StoppingEnteredIff` say exactly when |
| `A2dpStream.AudioStream.CloseStream` | audio_a2dp_hw/src/audio_a2dp_hw.cc:1682-1709 | a started or stopping stream is stopped before it is freed |
| `A2dpStream.SocketMatchesState` | audio_a2dp_hw/src/audio_a2dp_hw.cc:834-988 | in every interleaving, with the lock dropped during writes, a started stream has its socket, and a stream with a socket is started or stopping |
| `A2dpStream.SuspendedLeftIff` | audio_a2dp_hw/src/audio_a2dp_hw.cc:1162-1197 | a suspended stream leaves that state by set-parameters and nothing else, and exactly when that closes or resumes |
| `A2dpSuspension.SuspendedEnteredIff` | audio_a2dp_hw/src/audio_a2dp_hw.cc:1162-1197 | a stream becomes suspended exactly by set-parameters that asks for it without closing, on a started stream, when the stack does not refuse |
| `A2dpSuspension.NoStartWhileSuspended` | audio_a2dp_hw/src/audio_a2dp_hw.cc:1162-1197 | in every interleaving, from that call on the stream stays suspended and no start command is issued, whatever is written, read or put on standby, before set-parameters closes or resumes |
| `A2dpSuspension.NextWriteStarts` | audio_a2dp_hw/src/audio_a2dp_hw.cc:920-962 | in every interleaving, a stream on standby is started by the next write or read, whatever comes between short of a close |
| `A2dpSuspension.StartableUntil` | audio_a2dp_hw/src/audio_a2dp_hw.cc:920-1197 | only a write, a read, a "closing" or a close makes a stopped or standing-by stream one that the next write does not start |
| `A2dpSuspension.PlaySuspended` | audio_a2dp_hw/src/audio_a2dp_hw.cc:834-1709 | any interleaving on a stream object after a suspension that nothing closes or resumes ends suspended and has issued no start command since |
| `A2dpCells.StandbyEnteredIff` | audio_a2dp_hw/src/audio_a2dp_hw.cc:1141-1197 | standby is entered exactly by a standby call that is not refused on a stream neither suspended nor stopping, or by resuming a suspended one |
| `A2dpCells.StartedEnteredIff` | audio_a2dp_hw/src/audio_a2dp_hw.cc:920-962 | a stream is started exactly by a write or read in a stopped or standing-by one that the stack accepts and that has a socket |
| `A2dpCells.StoppingEnteredIff` | audio_a2dp_hw/src/audio_a2dp_hw.cc:1162-1197 | a stream is stopping exactly from "closing" on |
| `A2dpCells.StoppedEnteredIff` | audio_a2dp_hw/src/audio_a2dp_hw.cc:964-988 | a stream stops exactly when a write or read fails on it, unless it is suspended or stopping, or when closing it is not refused |
| `A2dpCells.CommandsIssued` | audio_a2dp_hw/src/audio_a2dp_hw.cc:834-1709 | each of the three commands is issued in exactly the stated situations, once per call, and no call takes one back |
| `A2dpCells.SocketConnectedIff` | audio_a2dp_hw/src/audio_a2dp_hw.cc:834-867 | a data socket is connected exactly when a start is accepted and the stream has none, and it is then the one that was connected |
| `A2dpCells.BlocksIff` | audio_a2dp_hw/src/audio_a2dp_hw.cc:920-962 | a write or read goes on to the socket exactly if the stream is started or it starts it, and its frames are counted as handed over |
| `A2dpCells.RenderedSinceStandby` | audio_a2dp_hw/src/audio_a2dp_hw.cc:964-1160 | the rendered frames restart at zero with every standby call and otherwise grow with the presented ones, which never shrink |
| `A2dpStream.NoStartAfterClosing` | audio_a2dp_hw/src/audio_a2dp_hw.cc:1162-1197 | after "closing" no start command is ever issued, whatever writes are under way |
| `A2dpStream.FramesConserved` | audio_a2dp_hw/src/audio_a2dp_hw.cc:920-988 | in every interleaving frames presented and frames in blocked writes add up to the frames handed over |
| `A2dpStream.ClosesOwnSocketIff` | audio_a2dp_hw/src/audio_a2dp_hw.cc:964-972 | whatever happens while a call is blocked, the stream's socket, which a failing call closes, is the one it began on if and only if no call closed that meanwhile |
| `A2dpStream.BlocksOnOwnSocket` | audio_a2dp_hw/src/audio_a2dp_hw.cc:920-962 | a write that blocks does so on the socket that the stream then holds |
| `A2dpStream.ClosesForeignSocket` | audio_a2dp_hw/src/audio_a2dp_hw.cc:964-972 | with a standby and a restart in between, the failure of the first write closes the socket of the second and stops the stream |
| `A2dpStream.Handle` | audio_a2dp_hw/src/audio_a2dp_hw.cc:834-1709 | any one critical section, on the stream object, is one step of the interleavings above |
| `A2dpStream.Play` | audio_a2dp_hw/src/audio_a2dp_hw.cc:834-1709 | any interleaving of writers, readers and callers on a stream object ends as specified: state and socket agree, frames add up, and no start command follows "closing" |
| `Downmix.Mix` | audio_a2dp_hw/src/audio_a2dp_hw.cc:946-957 | the mixed sample is the average rounded down, between the two and so in 16-bit range |
| `Downmix.MixInPlace` | audio_a2dp_hw/src/audio_a2dp_hw.cc:946-957 | although the loop overwrites what it reads, every frame is the mix of its two original samples |
| `BtAddress.PrintIsInjective` | service/logging_helpers.cc:143-149 | two addresses that print alike are equal |
| `GattIndex.ConnectKeeps` | service/gatt_server.cc:238-286 | a new connection id keeps the indexes consistent |
| `GattIndex.DisconnectKeepsIff` | service/gatt_server.cc:238-286 | a disconnect keeps them consistent if and only if it names an unknown id or the address its connect named |
| `GattIndex.AlwaysConsistent` | service/gatt_server.cc:238-286 | after every run both indexes hold the same connections, each once, under its own id and its own printed address |
| `GattIndex.KnownIff` | service/gatt_server.cc:238-286 | after every run a connection is known under its id exactly if it is open, and is the one that was opened |
| `GattIndex.OpenedByIs` | service/gatt_server.cc:238-286 | that is the first connect for the id after its last disconnect, and nothing has ended it since |
| `GattIndex.OldestFirst` | service/gatt_server.cc:238-286 | after every run the list of a device is in the order in which its connections were opened |
| `GattIndications.SendSound` | service/gatt_server.cc:196-235 | sending overwrites no pending entry and keeps the record sound |
| `GattIndications.SendIff` | service/gatt_server.cc:196-235 | for every record, list and answers an indication is recorded as sent on exactly the listed connections that have nothing pending and that the stack accepts, exactly these newly wait for it, and nothing else changes |
| `GattIndications.UniqueMeansLast` | service/gatt_server.cc:508-530 | the reference count is one exactly when this is the last connection to confirm |
| `GattIndications.ConfirmSound` | service/gatt_server.cc:508-530 | a confirmation keeps the record sound |
| `GattIndications.CallbackRunsOnce` | service/gatt_server.cc:174-236 | over every run a callback runs at most once, exactly when every connection it was sent on has confirmed, and reports no error exactly when one confirmed success |
| `GattIndications.RunsOnlyOnLast` | service/gatt_server.cc:508-530 | a confirmation runs a callback exactly when it is the last of that indication, and tells it of no error if any succeeded and of this last status if none did |
| `GattIndications.StuckUntilConfirmed` | service/gatt_server.cc:196-235 | over every run, a connection with an indication to confirm is sent no other one, and the callback of that one does not run, before a confirmation for its id comes |
| `GattIndications.ConfirmedAsHeard` | service/gatt_server.cc:508-530 | over every run a connection has confirmed an indication as soon as a confirmation for it has come, and with success exactly if the first one was |
| `GattIndications.CallbackAfterAll` | service/gatt_server.cc:174-530 | over every run after an indication was sent, its callback has run, once, exactly if a confirmation has come for every connection it went out on, and was told of no error exactly if one of the first ones was a success |
| `GattServer.Server.constructor` | service/gatt_server.cc:32-33 | starts with empty indexes and nothing pending |
| `GattServer.Server.ConnectionCallback` | service/gatt_server.cc:238-286 | a connect enters the connection in both indexes, a disconnect takes it out of both, and the delegate, if there is one, hears of it; other servers and repeated ids change nothing |
| `GattServer.Server.RemoveFirst` | service/gatt_server.cc:257-264 | the removal loop takes out the first connection with the id and nothing else |
| `GattServer.Server.GetConnection` | service/gatt_server.cc:536-559 | finds a connection exactly when id and address agree and the request is new |
| `GattServer.Server.OnRequest` | service/gatt_server.cc:330-506 | a request is taken once, on its own connection, remembered with its handle if it is to be answered, and passed on to the delegate with everything it carries |
| `GattServer.Server.FindAddressed` | service/gatt_server.cc:131-144 | finds the last connection of the device that waits for the request, and none only if none waits |
| `GattServer.Server.SendResponse` | service/gatt_server.cc:104-172 | hands the stack exactly one answer to a waiting request, with its error, handle, offset and value, and removes that request and no other; a failed call removes none |
| `GattServer.AskAndAnswer` | service/gatt_server.cc:104-172 | the answer to a request reaches the connection that asked, with the handle it asked for, if and only if no later connection of the same device waits under the same request id; otherwise the request goes on waiting |
| `GattServer.Ask` | service/gatt_server.cc:330-506 | a request is left waiting on the connection that made it, at its place in the list of its device, and nowhere else |
| `GattServer.Answer` | service/gatt_server.cc:104-172 | a response goes to the last connection of the device that waits under its id and takes that request away, and no other |
| `GattServer.Server.SendNotification` | service/gatt_server.cc:174-236 | succeeds if and only if some connection of the device has nothing pending and is accepted by the stack; exactly those newly wait, all for the one new indication, and every pending entry stays; what the stack is asked is stated by `AskedIff` |
| `GattServer.Server.SendToAll` | service/gatt_server.cc:200-227 | the loop over the shared object makes the calls and the record of all its turns, which `GattIndications.SendIff` describes, and counts zero exactly if nothing was sent |
| `GattServer.Server.SendOn` | service/gatt_server.cc:200-227 | one turn of the loop: a connection with something pending is not asked, one that the stack refuses is not recorded, and any other waits for this indication |
| `GattServer.PendingIsNotAsked` | service/gatt_server.cc:202-209 | the stack is not asked to send anything to a connection that has something pending |
| `GattServer.AskedIff` | service/gatt_server.cc:200-227 | the stack is asked to send to exactly the connections of the device that have nothing pending, each time with the handle, the flag and the value that were given |
| `GattServer.SentOnReached` | service/gatt_server.cc:196-235 | an indication is sent on some connection exactly if one of the device has nothing pending and is accepted |
| `GattServer.Server.IndicationSent` | service/gatt_server.cc:508-530 | a confirmation updates the shared object and runs the callback as the record specifies |
| `GattServer.UniqueObjects` | service/gatt_server.cc:519-529 | no other entry holds the object exactly when no other connection waits for the indication |
| `GattPlay.Handle` | service/gatt_server.cc:174-530 | any one connection, notification or confirmation call on a server object is one step of the two specifications |
| `GattPlay.Play` | service/gatt_server.cc:174-530 | after any run on a server object the indexes agree as long as disconnects name the address of their connect, and every callback has been called as it should, at most once |
| `GattPlay.Hear` | service/gatt_server.cc:508-530 | confirmations that come in on a server object take it through the run of those confirmations |
| `GattPlay.IndicateAndHear` | service/gatt_server.cc:174-530 | on a server object, after an indication and any confirmations, the callback has run if and only if some connection of the device was free and accepted and every such connection has confirmed |
| `ServiceTable.Post` | service/gatt_server.cc:69-88 | the loops post the service, every characteristic followed by its descriptors, then the included services |
| `ServiceTable.ServiceAdded` | service/gatt_server.cc:300-317 | the loop reads every table that has a meaning as specified |
| `ServiceTable.CharacteristicsReturn` | service/gatt_server.cc:300-317 | posted characteristics are read back in order, each with its own descriptors and handles |
| `ServiceTable.RoundTrip` | service/gatt_server.cc:69-317 | whatever handles the stack assigns, characteristics and descriptors come back in order with the handles of their own attributes; the service is the posted one if and only if that was primary and included none |
| `ServiceTable.PostedAlikeIff` | service/gatt_server.cc:69-88 | two services are posted as the same table if and only if they agree on being primary, on the UUID, on the handles of the included services and, but for handles, on all characteristics and descriptors in order |
| `BlobModel.LongWriteIsValue` | service/gatt_server_old.cc:250-268 | the writes of a long value, however cut, leave exactly that value |
| `BlobModel.WrittenAt` | service/gatt_server_old.cc:250-268 | after a write each octet is the old one before the offset, zero where there was none, and the written one from the offset on |
| `BlobReads.IntactIff` | service/gatt_server_old.cc:207-304 | a request of anyone leaves a read in progress whole if and only if it is none of: a read at the start of section 0 while a value waits that does not begin with what was read, a write of other octets over what was read, a write that makes a control attribute name another section |
| `BlobReads.WriteKeepsIff` | service/gatt_server_old.cc:266-268 | a write leaves what the client has in place if and only if it starts behind it or repeats it |
| `BlobReads.ReadsAreUntorn` | service/gatt_server_old.cc:207-248 | through every run without such requests the client holds the beginning of one single value |
| `BlobReads.LatchedValueIsHeld` | service/gatt_server_old.cc:207-304 | until someone starts over while a value waits, or writes into it, or selects another section of it, that value is the one latched, whatever values are set and whatever else is read and written |
| `BlobReads.WalkCompletes` | service/gatt_server_old.cc:207-304 | a walk over sections and offsets, with others acting before every step and replies cut off anywhere, ends with the whole value that was there at its start |
| `BlobReads.WalkReadsLatchedValue` | service/gatt_server_old.cc:207-304 | from every state, a client that selects section 0, reads and walks on ends with exactly the value its first read latched, if that has at most 131072 octets, whatever values are set in between |
| `BlobReads.CurrentIsKept` | service/gatt_server_old.cc:207-304 | through every run in which the attribute is neither set nor written, whatever is read and selected, the value that the next reader sees stays the same |
| `BlobReads.WalkReadsSetValue` | service/gatt_server_old.cc:700-715 | a value that is set, with anything after it but another set of or a write to that attribute, is exactly what a client that selects section 0, reads and walks on ends with |
| `BlobReads.NothingBeyondReach` | service/gatt_server_old.cc:270-276 | no run reads past section 255 |
| `BlobReads.OutOfReach` | service/gatt_server_old.cc:270-276 | a longer value is read whole by no run |
| `BlobSetup.EveryBlobIsControlled` | service/gatt_server_old.cc:143-205 | for every sequence of declarations and all new handles, the control attribute of every blob controls the value of that blob, both set up as declared |
| `BlobSetup.PlainControlsNothing` | service/gatt_server_old.cc:143-205 | no value attribute and no plain attribute controls anything |
| `BlobSetup.ControlReadsZero` | service/gatt_server_old.cc:179-186 | the first read of a control attribute gives one zero octet |
| `BlobServer.Server.AddCharacteristic` | service/gatt_server_old.cc:502-510 | a declaration is appended to those pending |
| `BlobServer.Server.AddBlob` | service/gatt_server_old.cc:635-656 | appends value and control and remembers the position of the control |
| `BlobServer.Server.ServiceAdded` | service/gatt_server_old.cc:143-205 | the loop enters and links the attributes as specified and clears what was pending |
| `BlobServer.Server.RequestRead` | service/gatt_server_old.cc:207-248 | latches on a fresh read and replies with the window from the offset |
| `BlobServer.Server.RequestWrite` | service/gatt_server_old.cc:250-304 | resizes and copies, selects the section of a controlled blob, says who is told, and echoes the written value if a response is needed |
| `BlobServer.Server.WriteLong` | service/gatt_server_old.cc:250-327 | prepared writes followed by an execute leave exactly the chunks together, change nothing else but a selected section, and tell the application of this attribute, unless they are one octet for a control attribute |
| `BlobServer.Server.SetCharacteristicValue` | service/gatt_server_old.cc:700-715 | a new value waits beside the current one, and connections are told if the attribute notifies |
| `BlobServer.Server.GetCharacteristicValue` | service/gatt_server_old.cc:717-723 | gives the current value, not the waiting one, and changes no attribute |
| `BlobPlay.Handle` | service/gatt_server_old.cc:207-304 | any one request or call on a server object is one step of the runs above |
| `BlobPlay.Play` | service/gatt_server_old.cc:207-304 | any run on a server object ends as specified, and a read that nobody tears is whole |
| `BlobPlay.ReadBlob` | service/gatt_server_old.cc:207-304 | a client that walks over a blob on a server object, among the steps of others, returns exactly the value that its first read latched |

## Left out

- The bodies of calls into the lower stack (BTM, AVDTP, L2CAP, RFCOMM, HAL, sockets, pipes) and into the application; their results are parameters.
- Alarms and clocks: the negotiation timer is an input that may come at any time, and emulated delays are not modelled.
- Liveness of the SCO machine: that the loss of an old link is reported depends on code that is not part of this model; ScoTransfer.TransferReachesTarget says what happens when it is.
- The code that changes an Audio Gateway block outside bta_ag_sco.cc is one input of the SCO runs that may rewrite a block in any way; the SCO state itself is changed by that file alone.
- AtParser.AtInterpreter.constructor: asks for a buffer of at least two octets, because with less the loops of the source never end; the gateway uses 512 (bta/ag/bta_ag_act.cc:46).
- IndicatorMask.ParseMask: is stated for text without NUL, since the parser hands over a C string.
- The other AT commands of bta_ag_cmd.cc: each is a short independent branch.
- ScoFallback.FallbackIsOrderedAndBounded: assumes that the headset confirms every proposal, that it stays active and connected, and that the lower stack accepts every attempt and then fails it, because otherwise there is no chain.
- The contents of the buffer that a HAL read returns: data from the socket, or zeros.
- A2dpStream.AudioStream.CloseStream: a stop that fails on close leaves the data socket open in a stream that is then freed, as in the source; no property of the socket is claimed after that.
- Reassembly of media packets happens in the peer; the receiver in MediaFragments is a definition to state what fragmentation preserves.
- EndpointSearch.SearchControl.GetCapResults: the configuration callout leaves the endpoint index alone unless it succeeds, as btif/co/bta_av_co.cc:976-1090 does.
- The table of bta_ag_main.cc that says which inputs a block accepts in which connection state: in the runs every block in use accepts all of them, so the safety results hold of more runs than the code has; a block not in use accepts none (bta/ag/bta_ag_main.cc:423-438).
- Pending indications survive a disconnect in the source, and so in the model; what that means for a connection id that is used again is stated by GattIndications.StuckUntilConfirmed.
- GattIndex.AlwaysConsistent: is stated for runs in which a disconnect names the address its connect named; GattIndex.DisconnectKeepsIff says what happens otherwise.
- ServiceTable.ServiceAdded: is stated for tables in which no descriptor comes before the first characteristic; the source's behaviour on others is undefined, and ServiceTable.RoundTrip shows that posted tables never are.
- BlobServer.Server.AddCharacteristic: the wait for the stack in the public AddCharacteristic and the notify flag set after it are not modelled.
- Scanning, advertising, connection management of the older GATT server, and the GATT client, adapter and low-energy classes: wrappers with little state.
- The hearing-aid HAL: a near copy of the A2DP HAL.
