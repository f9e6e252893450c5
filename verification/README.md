# Verified model of the Wolf streaming core

Wolf streams games to Moonlight clients.  This project models, in Dafny, the parts of it in
which a wrong step is hard to see, and proves what they promise:

- `VideoRtp`, `VideoFec`, `VideoSequence`, `VideoReassembly`, `VideoPay`, `VideoReceiver`, `VideoRecovery`: one encoded
  frame becomes RTP packets with Reed-Solomon parity, in one block or three.  A receiver gets the picture back, reads the
  block's counts from any packet's header, and sees consecutive sequence numbers over whole runs;
  each of the three holds exactly under a stated condition on the settings.  With any erasure code it gets the
  picture back from any packets of each block that are as many as the block has data packets.
- `Sender`, `SenderPacing`, `VideoDatagrams`: the retrying `sendmmsg` loop, the millisecond-window scheduler above it, and the rate it keeps the video to.
  The kernel always holds a prefix of the frame, a send fails only for a cause, no packet is released before its
  window, and none is held for longer.
- `Lobbies`, `LobbyRuns`, `LobbyDevices`, `LobbyConservation`, `LobbyRouting`, `LobbyPresence`, `LobbyOutcomes`,
  `LobbyHandlers`: re-entrant lobby events and the routing of virtual joypads between containers.
- `Pairing`, `PairingRuns`, `PairingLaws`, `PairingStory`, `PairingClient`, `PairingServer`: the four-phase pairing protocol under any interleaving of clients.
- `Rtsp`, `RtspRoundTrip`, `RtspWire`: the RTSP grammar, its actions, and the printer; what a strict reader sees of
  printed messages, and what becomes of the messages that clients write.
- `Audio`, `AudioPay`, `AudioReceiver`: audio packets, the ring of rows behind their parity, and what a receiver restores.
  `Erasure` says what a receiver asks of the code.
- `Base64`, `Sse`, `Hex`, `Progress`, `ProgressRuns`, `ProgressStory`: codecs and stream trackers.  `Bits` holds byte layouts and bitwise arithmetic.

Code that updates state in place is a class or a method with loops, proved equal to a specification
function; the laws are lemmas about that function.  The network, the clock, random numbers, cryptography,
JSON and Reed-Solomon arithmetic are parameters or nondeterministic methods.  `Wrappers` holds the option type.

## What turned out false of the code

- A receiver that trusts `fecInfo` loses the shard index, the data count or the percentage when the percentage
  was raised so far that it no longer fits its field, or was rounded down too far.  `ReceiverRecoversCounts`
  and `ReassemblyExact` give the exact conditions, `HighMinimumLosesPackets` an instance.
- With FEC off the video sequence counter stands still between frames (`RunSequence`), so the second of two frames
  repeats the first one's numbers (`UnprotectedRunRepeats`).
- The comment in `src/moonlight-server/gst-plugin/video.hpp:335-336` names 100 data shards as the limit;
  the code splits above 90, and the model follows the code.
- A joypad that is unplugged from a container while its plug event still waits in that container's queue is
  plugged in again by the next drain.  `DevicesConserved` shows that this, and forgetting a session before
  it has left its lobby, are the only ways to lose the one-container rule; `JoinBeforeDrain` is an instance.
- An RTSP request for the bare target `/` is parsed (`BareTargetRead`) but printed as a URI without protocol, which
  is not parsed again (`ParsedIsStable`).
- Pairing phase 3 or 4 sent too early is neither refused nor answered (`AnswersByPhase`).
- The pace is computed from the packet size, but the payloader's packets are 16 bytes longer.  `VideoRate` gives
  the exact condition for staying within 80% of a gigabit; 1024-byte packets exceed it (`VideoExceedsRate`).
- Launch progress can go backwards: a mutex is released between the ratchet and the sending, so a follower can
  overtake the event that started it (`FollowerOvertakes`).  `NeverBackwardsExactly` says when it does not, and
  `InTurnNeverBackwards` gives an order of the sending that rules it out.
- A session that is forgotten before its lobby's handler runs stays on the lobby's list, which then keeps the
  lobby alive with nobody in it (`GhostsComeFromForgetting`).
- A printed message with a negative sequence number is not parsed again (`RoundTripExactly`).
- A packet size above 64 KiB makes the batch size zero, and the scheduler would not end (`BatchNeverEmpty`).

## Model

| member | source | states |
|---|---|---|
| VideoReassembly.ReassemblyExact | src/moonlight-server/gst-plugin/video.hpp:82-141 | for every frame, joining the packets whose index is below their data count and cutting the last to `last_payload_len` gives short header and frame, if and only if the settings leave every data index recognisable |
| VideoReceiver.PictureRestored | src/moonlight-server/gst-plugin/video.hpp:82-111 | what a receiver reassembles is, byte by byte, the short header (type 1, frame type 2 for a key frame and 1 otherwise, length of the last payload without padding) and the whole picture, if and only if the settings leave every data index recognisable |
| VideoReceiver.DefaultPicture | src/moonlight-server/gst-plugin/video.hpp:91-108 | with at most 2 required parity packets that holds for every frame below 1024 packets |
| VideoReceiver.StartAndEndMarked | src/moonlight-server/gst-plugin/video.hpp:61-75 | of a recoverable frame SOF marks exactly the first data packet and EOF exactly the last, and the stream packet index counts on from the sequence number the frame began with |
| VideoReceiver.FrameOnWire | src/moonlight-server/gst-plugin/video.hpp:168-211 | how many packets a frame becomes, parity included, for every size; each says its frame and, in a frame of more than 90 packets, which of three blocks it belongs to; the next frame has the next number |
| VideoReceiver.FramesInOrder | src/moonlight-server/gst-plugin/video.hpp:326-348 | over any run the packets come frame by frame, each with its frame's number |
| VideoReceiver.FecWord | src/moonlight-server/gst-plugin/video.hpp:152-152 | where data count, shard index and percentage lie in the packed word |
| VideoRecovery.BlockRecovered | src/moonlight-server/gst-plugin/video.hpp:224-268 | with an encoder that codes columns, any packets of a block as many as it has data packets give back flags and payload of each of its data packets |
| VideoRecovery.LossesRepaired | src/moonlight-server/gst-plugin/video.hpp:331-343 | a frame in one block: its picture is restored from any packets as many as its data packets |
| VideoRecovery.ThirdsRepaired | src/moonlight-server/gst-plugin/video.hpp:281-317 | a frame in three blocks: its picture is restored from as many packets of each block as it has data packets |
| VideoReassembly.DefaultRecoverable | src/moonlight-server/gst-plugin/gstrtpmoonlightpay_video.cpp:96-136 | with at most 2 required parity packets every frame below 1024 packets is recoverable |
| VideoReassembly.HighMinimumLosesPackets | src/moonlight-server/gst-plugin/video.hpp:152-177 | 200 required parity packets and 33 data packets are not recoverable |
| VideoReassembly.IndicesReadBelow | src/moonlight-server/gst-plugin/video.hpp:152-152 | every data index of a block is read back below the data count if and only if that count is a multiple of the power of two that the percentage's bits above the eighth span |
| VideoReassembly.BlocksCover | src/moonlight-server/gst-plugin/video.hpp:292-296 | the three sub-lists of a large frame are non-empty and cover it in order without overlap |
| VideoReassembly.MultiKept | src/moonlight-server/gst-plugin/video.hpp:281-317 | what a receiver keeps of a three-block frame is its data packets in order, if all indices survive, and otherwise fewer of them |
| VideoFec.ReceiverRecoversCounts | src/moonlight-server/gst-plugin/video.hpp:143-159 | every packet of a protected block gives back index, data count, percentage and parity count if and only if the percentage fits its field and rounds back up |
| VideoFec.ProtectedFields | src/moonlight-server/gst-plugin/video.hpp:192-272 | sequence number, index, counts and unchanged content of each packet of a protected block, bits shared between index and percentage included |
| VideoFec.FecInfoUnpacks | src/moonlight-server/gst-plugin/video.hpp:152-152 | what the three fields of the packed 32-bit word read back as, for all values |
| VideoFec.DefaultCountsFit | src/moonlight-server/gst-plugin/video.hpp:168-183 | every block of at most 100 packets with at most 2 required parity packets qualifies |
| VideoSequence.RunSequence | src/moonlight-server/gst-plugin/video.hpp:326-348 | over any run of frames the numbers in emission order are consecutive modulo 65536 if and only if each frame that is followed by another had FEC on or a multiple of 65536 packets |
| VideoSequence.FecKeepsSequence | src/moonlight-server/gst-plugin/video.hpp:331-343 | with FEC on the numbering never breaks, also where FEC is skipped for some blocks |
| VideoSequence.UnprotectedRunRepeats | src/moonlight-server/gst-plugin/video.hpp:331-348 | for every two frames, the first without FEC and below 65528 bytes, the second starts with the number of the first one's first packet, and the run is not consecutive |
| VideoSequence.FrameSequence | src/moonlight-server/gst-plugin/video.hpp:331-343 | one frame is consecutive from the carried counter, and when the counter ends at the next number |
| VideoSequence.StaysInStep | src/moonlight-server/gst-plugin/video.hpp:292-311 | skipped blocks come before protected ones, so the counter is where a skipped block was numbered from |
| VideoSequence.SkippingGrows | src/moonlight-server/gst-plugin/video.hpp:204-211 | a block larger than a skipped one is skipped |
| VideoRtp.FloatCeilAgrees | src/moonlight-server/gst-plugin/video.hpp:118-118 | a correctly rounded single-precision quotient, rounded up, is the exact ceiling for every frame below 1024 packets |
| VideoPay.DataShardIsPacket | src/moonlight-server/gst-plugin/video.hpp:213-229 | row `i` of the flat buffer is packet `i` extended with zeros |
| VideoPay.PaddedUnfold | src/moonlight-server/gst-plugin/video.hpp:213-217 | padding the joined packets at their end extends the one short packet, the last |
| VideoPay.BuildShards | src/moonlight-server/gst-plugin/video.hpp:213-222 | the flat buffer has exactly one row per shard, data first, parity zeroed |
| VideoPay.Encode | src/moonlight-server/gst-plugin/video.hpp:224-232 | encoding reads the data rows and writes the parity rows and nothing else |
| VideoPay.UpdateFecInfo | src/moonlight-server/gst-plugin/video.hpp:143-159 | the header is rewritten in place and no other byte of the buffer changes |
| VideoPay.Unfold | src/moonlight-server/gst-plugin/utils.hpp:69-79 | the packets end to end |
| VideoPay.RtpMoonlightPayVideo.ListSub | src/moonlight-server/gst-plugin/utils.hpp:85-95 | the packets from start up to end |
| VideoPay.RtpMoonlightPayVideo.GenerateRtpPackets | src/moonlight-server/gst-plugin/video.hpp:115-141 | the loop builds the specified packets |
| VideoPay.RtpMoonlightPayVideo.GenerateFecPackets | src/moonlight-server/gst-plugin/video.hpp:192-272 | one block comes out stamped and followed by its parity, or untouched when it is too large |
| VideoPay.RtpMoonlightPayVideo.GenerateFecMultiBlocks | src/moonlight-server/gst-plugin/video.hpp:281-317 | three blocks one after the other, with the counter advanced after each |
| VideoPay.RtpMoonlightPayVideo.SplitIntoRtp | src/moonlight-server/gst-plugin/video.hpp:326-348 | packets and both counters after one frame are those of the specification that the laws above are about |
| Sender.SendBatch | src/core/src/platforms/linux/batched_send/batched_send.cpp:107-196 | the kernel has accepted a prefix of the blocks, in order and once each; true exactly when it has all of them; it is false only for an invalid socket, a call that failed, or ten polls in a row without room, and true only if no call failed; no system calls but one for each batch of 64 and one for each call that was cut short, interrupted or found no room |
| Sender.Transmit | src/core/src/platforms/linux/batched_send/batched_send.cpp:148-193 | the retry loop hands over a prefix, true exactly when it is all; it gives up only after a failed call or ten polls in a row without room, and ends provided the kernel interrupts it or falsely reports room only finitely often |
| Sender.BuildBatch | src/core/src/platforms/linux/batched_send/batched_send.cpp:119-146 | the messages of a batch are its blocks, in both buffer modes |
| Sender.BlocksAreTheBuffer | src/core/src/platforms/linux/batched_send/batched_send.cpp:129-141 | in fixed-size mode the messages are the whole blocks of the buffer end to end, otherwise the buffers themselves |
| Sender.BufferForPayloadOffset | src/core/src/core/batched_send.hpp:55-67 | the returned region is what lies at that offset of the joined buffers, and is empty only past their end |
| SenderPacing.UDPSink.SendBufferBatched | src/moonlight-server/streaming/streaming.cpp:229-314 | the kernel gains a prefix of the frame, all of it exactly on success, nothing if a buffer cannot be mapped; it fails only for that, an invalid socket, a call that failed or ten polls in a row without room; large frames are handed over window by window, no packet before its window and none after a sleep beyond it, in the fewest batches; small ones are never delayed |
| SenderPacing.UDPSink.SendPaced | src/moonlight-server/streaming/streaming.cpp:268-301 | the scheduler ends, hands no packet to `send_batch` before its window nor sleeps past that window's start, the kernel accepts none before it was handed over, and the next frame's start is set |
| SenderPacing.LaterIsPaced | src/moonlight-server/streaming/streaming.cpp:287-297 | packets accepted after a paced hand-over are themselves paced |
| SenderPacing.UDPSink.constructor | src/moonlight-server/streaming/streaming.cpp:404-412 | the computed batch and window sizes let the scheduler end if and only if packets are at most 64 KiB |
| SenderPacing.BatchNeverEmpty | src/moonlight-server/streaming/streaming.cpp:287-287 | a batch holds a packet if and only if packets are at most 64 KiB |
| SenderPacing.SizesChosen | src/moonlight-server/streaming/streaming.cpp:408-411 | a window is the most packets that 800000 bits hold, but at least one; a batch is the most packets up to 16 that 64 KiB hold |
| SenderPacing.PacedRelease | src/moonlight-server/streaming/streaming.cpp:268-298 | at every time the packets handed over, or accepted, are at most the window size times the windows begun |
| SenderPacing.RateIsCapped | src/moonlight-server/streaming/streaming.cpp:408-410 | frames of datagrams no longer than the packet size keep to 80% of a gigabit at all times if and only if the packet size is at most 100000 bytes |
| SenderPacing.PacedBits | src/moonlight-server/streaming/streaming.cpp:263-301 | at every time a paced frame has released at most a window of its largest datagrams, in bits of the datagrams themselves, for each window begun |
| SenderPacing.RateExactly | src/moonlight-server/streaming/streaming.cpp:406-411 | frames of datagrams up to a size keep to 80% of a gigabit at all times if and only if one full window of that size fits into a millisecond |
| SenderPacing.SentBits | src/moonlight-server/streaming/streaming.cpp:263-301 | the kernel's own log and acceptance times of one frame keep to that bound, whether the frame was paced or small enough to go out at once |
| VideoDatagrams.StreamFrame | src/moonlight-server/streaming/streaming.cpp:229-314 | one frame from the payloader through the sink to the kernel: a prefix of its packets, all of them exactly on success, and at every time no more bits than a window of packets with 16 bytes more than the packet size for each window begun since a start that is neither before the call nor before the previous frame's end |
| VideoDatagrams.BatchWithinWindow | src/moonlight-server/streaming/streaming.cpp:408-411 | a batch is never larger than a window |
| VideoDatagrams.FrameSizes | src/moonlight-server/gst-plugin/video.hpp:168-183 | no packet of a frame is longer than the payload size and 16 bytes; with padding each is exactly as long |
| VideoDatagrams.VideoRate | src/moonlight-server/streaming/streaming.cpp:392-410 | the paced video keeps to the rate if and only if a window of packets with those 16 bytes does |
| VideoDatagrams.PaddedBurst | src/moonlight-server/streaming/streaming.cpp:268-298 | what a padded frame has released when it starts: a whole window of such packets |
| VideoDatagrams.VideoExceedsRate | src/moonlight-server/streaming/streaming.cpp:408-410 | for packets of 1024 bytes the rate is exceeded |
| VideoDatagrams.DefaultWithinRate | src/moonlight-server/streaming/streaming.cpp:408-410 | for packets of 1392 bytes it is kept |
| LobbyRouting.DevicesConserved | src/moonlight-server/sessions/lobbies.cpp:17-53 | over every run each live container holds exactly the joypads at home there, at all times, if and only if every event was clean: nothing was taken from a container while waiting in its queue, and no session with joypads was forgotten while in a lobby |
| LobbyRouting.StepConserves | src/moonlight-server/sessions/lobbies.cpp:216-246 | the same for each single event, from any reachable state |
| LobbyRouting.PluggedOnce | src/moonlight-server/runners/docker.cpp:252-283 | a joypad of a running session is plugged into its home and no other live container once queues are drained |
| LobbyRouting.JoinBeforeDrain | src/moonlight-server/sessions/lobbies.cpp:227-246 | a join before the session's container has drained its queue leaves the joypad in both containers |
| LobbyRouting.RemoveConserves | src/moonlight-server/control/input_handler.cpp:625-638 | removing a joypad conserves if and only if it does not still wait at its home |
| LobbyRouting.AddConserves | src/moonlight-server/control/input_handler.cpp:204-219 | a new joypad always reaches the home of its session and nothing else |
| LobbyRouting.StopStreamConserves | src/moonlight-server/sessions/moonlight.cpp:60-69 | for both orders of the two stop handlers, when a stopped stream conserves |
| LobbyConservation.JoinConserves | src/moonlight-server/sessions/lobbies.cpp:193-253 | a join conserves if and only if none of the session's joypads waits in its own queue |
| LobbyConservation.LeaveConserves | src/moonlight-server/sessions/lobbies.cpp:17-65 | a leave conserves if and only if the lobby stops or none of the joypads waits in its queue |
| LobbyConservation.StopConserves | src/moonlight-server/sessions/lobbies.cpp:274-299 | stopping a lobby always brings all joypads home |
| LobbyRuns.StopCascade | src/moonlight-server/sessions/lobbies.cpp:274-299 | the stop ends with the lobby unlisted, its running members out, every other lobby unchanged; a second stop does nothing |
| LobbyRuns.LobbiesStayOccupied | src/moonlight-server/sessions/lobbies.cpp:210-271 | over every run and handler order a single-user lobby has at most one entry, and no listed lobby that stops with its last session is empty once joined |
| LobbyPresence.GhostsComeFromForgetting | src/moonlight-server/sessions/lobbies.cpp:331-351 | over every run all sessions on listed lobbies' lists are running, at all times, if and only if every stopped stream had its lobby handler first and was in no other lobby |
| LobbyPresence.SomebodyIsThere | src/moonlight-server/sessions/lobbies.cpp:61-64 | in such runs a listed, once joined lobby that stops with its last session has a running member |
| LobbyPresence.ForgottenStaysListed | src/moonlight-server/sessions/moonlight.cpp:60-69 | a session forgotten first stays on its lobby's list |
| LobbyOutcomes.JoinOutcomes | src/moonlight-server/sessions/lobbies.cpp:193-219 | a running session gets into a lobby that is shared or empty, last on its list, and nothing else changes; otherwise nothing changes at all, and the refusal says full or not found as the case is |
| LobbyOutcomes.JoinUnknown | src/moonlight-server/sessions/lobbies.cpp:201-208 | events about a lobby that is not listed change nothing |
| LobbyOutcomes.LeaveOutcomes | src/moonlight-server/sessions/lobbies.cpp:17-65 | a running session that leaves is off the list and all others stay; the lobby ends exactly when it is to stop with its last session and nobody else is on its list |
| LobbyOutcomes.StopOutcomes | src/moonlight-server/sessions/lobbies.cpp:274-299 | a stopped lobby is gone without running members, and every other one stays with its members |
| LobbyOutcomes.OverOutcomes | src/moonlight-server/sessions/lobbies.cpp:331-351 | the end of a stream is a leave of the one lobby its session is in; a stopped session is no longer running and has no queue |
| LobbyOutcomes.JoypadOutcomes | src/moonlight-server/control/input_handler.cpp:204-219 | a joypad is added under a free number and removed by its number |
| LobbyOutcomes.DrainOutcomes | src/moonlight-server/runners/docker.cpp:252-278 | a drained queue is empty and its container has exactly the devices that were addressed to it besides its own |
| LobbyHandlers.AppState.LobbyById | src/moonlight-server/state/sessions.hpp:39-53 | the first lobby with the id |
| LobbyHandlers.AppState.LobbyByConnectedSession | src/moonlight-server/state/sessions.hpp:55-68 | the first listed lobby the session is connected to |
| LobbyHandlers.AppState.OnJoinLobby | src/moonlight-server/sessions/lobbies.cpp:193-253 | the handler's whole new state, and its refusals |
| LobbyHandlers.AppState.LeaveLobby | src/moonlight-server/sessions/lobbies.cpp:17-65 | the whole new state, nested stop included |
| LobbyHandlers.AppState.OnStopLobby | src/moonlight-server/sessions/lobbies.cpp:274-299 | the whole new state through the re-entrant cascade, which ends |
| LobbyHandlers.AppState.FirePlug | src/moonlight-server/sessions/moonlight.cpp:71-86 | a plug event reaches the lobby's queue, or else the session's own |
| LobbyHandlers.AppState.FireUnplug | src/moonlight-server/sessions/lobbies.cpp:319-329 | an unplug is repeated for the session's lobby |
| LobbyHandlers.AppState.OnStopStream | src/moonlight-server/sessions/lobbies.cpp:331-351 | the whole new state for either handler order |
| LobbyHandlers.AppState.DrainQueue | src/moonlight-server/runners/docker.cpp:252-278 | the container gains exactly the queued devices addressed to it, and the queue is empty |
| PairingLaws.PairedOnlyInOrder | src/moonlight-server/rest/endpoints.hpp:107-213 | over every interleaving, before each pairing stand in this order a request with that certificate, the PIN entered for it and its first write, from where on phases 2 and 3 are the only changes of the entry; the response, decrypted with the first 16 bytes of the hash of salt and PIN, is the hash of the server's challenge, the certificate's signature and the first 16 bytes of the secret, which has 256 bytes at least and is verified by the certificate |
| PairingStory.PairedHasStory | src/moonlight-server/rest/endpoints.hpp:215-304 | over every interleaving each paired certificate has six events in order: a request with it, the PIN entered under the secret which that request showed, the continuation, and the requests of phases 2, 3 and 4 of the same client, whose response and secret fit PIN, salt, challenge and certificate as `client_pair` demands |
| PairingStory.EventOf | src/moonlight-server/rest/endpoints.hpp:215-304 | every line of the history was written by an event that says the same |
| PairingLaws.OnePairingPerPin | src/moonlight-server/rest/servers.cpp:49-52 | over every interleaving a request gets at most one PIN, and one PIN entry leads to at most one pairing |
| PairingLaws.PairedAreLogged | src/moonlight-server/rest/endpoints.hpp:289-294 | the paired certificates are exactly those the history says were paired |
| PairingLaws.FieldsFollowPhase | src/moonlight-server/state/data-structures.hpp:139-152 | the last phase of an entry determines which optional fields it has |
| PairingLaws.AnswersByPhase | src/moonlight-server/rest/endpoints.hpp:251-303 | what each later request is answered, by the phase reached: the proof and challenge of phase 2, the signed secret of phase 3, exactly when the hash and signature of the last phase are accepted, when refused with the entry gone, and when left unanswered |
| PairingLaws.OtherAnswers | src/moonlight-server/rest/endpoints.hpp:224-257 | a request without an id, or a later one under an unknown key, is refused and changes nothing; a first phase waits or is refused |
| PairingLaws.OthersUndisturbed | src/moonlight-server/rest/endpoints.hpp:233-234 | a request, PIN or continuation of one key leaves the cache entry of another unchanged |
| PairingLaws.PendingDropped | src/moonlight-server/rest/servers.cpp:73-90 | a pending request is dropped exactly by its PIN or by a new first phase from its address or under its secret |
| PairingClient.HonestClientIsPaired | src/moonlight-server/rest/endpoints.hpp:215-304 | from every reachable state, after a retry if an old entry exists, and with any events of other clients between its steps that do not drop its pending request, a client that knows the PIN and its private key gets paired once its continuation has run |
| PairingClient.ServerProvesItself | src/moonlight-protocol/moonlight.cpp:92-135 | a client that knows the PIN finds in the answers of phases 2 and 3, with any events of others between, a hash over its own nonce, and then what the hash was made of, signed by the server |
| PairingClient.RetryClears | src/moonlight-server/rest/endpoints.hpp:114-119 | a first phase that finds an old entry clears it |
| PairingServer.Server.OnPairSignal | src/moonlight-server/rest/servers.cpp:73-90 | dangling requests of the same address are dropped, all others stay, the new one is added |
| PairingServer.Server.OnPin | src/moonlight-server/rest/servers.cpp:39-56 | a known secret resolves its request once and is forgotten; an unknown one changes nothing |
| PairingServer.Server.OnPinResolved | src/moonlight-server/rest/endpoints.hpp:129-142 | the continuation writes the first-phase entry |
| PairingServer.Server.OnPair | src/moonlight-server/rest/endpoints.hpp:215-304 | the whole new state and the reply, phase by phase |
| RtspRoundTrip.RoundTripExactly | src/moonlight-protocol/rtsp/parser.hpp:61-215 | parsing what is printed gives the same message back if and only if the packet is well formed, its sequence number not negative |
| RtspRoundTrip.ParsedIsStable | tests/testRTSP.cpp:84-84 | printing a parsed message loses nothing, and prints the same again, if and only if its target was not `/` |
| RtspRoundTrip.ParsedShape | src/moonlight-protocol/rtsp/parser.hpp:67-117 | every parsed packet is well formed but for the bare target |
| RtspRoundTrip.BareTargetLost | src/moonlight-protocol/rtsp/parser.hpp:187-191 | what is printed for the bare target is not a message |
| RtspRoundTrip.BareTargetRead | src/moonlight-protocol/rtsp/parser.hpp:67-84 | every command with the bare target and any sequence number is parsed |
| RtspRoundTrip.AssignKeeps | src/moonlight-protocol/rtsp/parser.hpp:154-158 | assigning an option keeps the map sorted, replaces the key and keeps the rest |
| RtspRoundTrip.OptionsRead | src/moonlight-protocol/rtsp/parser.hpp:96-99 | printed options are read back, in order, and no more |
| RtspRoundTrip.PayloadsRead | src/moonlight-protocol/rtsp/parser.hpp:101-104 | printed payloads are read back, in order |
| RtspRoundTrip.StatusIsNoRequest | src/moonlight-protocol/rtsp/parser.hpp:68-71 | a status line fails as a request, and what that attempt leaves in the packet |
| RtspWire.PrintedLines | src/moonlight-protocol/rtsp/parser.hpp:182-215 | cut at its line ends a printed packet is the start line with version 1.0, the sequence number, one line `key: value` for each option, an empty line, and one line `key=value` for each payload |
| RtspWire.ClientMessageRead | src/moonlight-protocol/rtsp/parser.hpp:67-117 | every message with line ends of either kind, blanks after the separators, options in any order and rubbish at the end is read: same start line and number, the last value of each option, all payloads in order |
| RtspWire.AssignedLast | src/moonlight-protocol/rtsp/parser.hpp:154-158 | the map holds for each key what was written last under it |
| RtspWire.NumberTaken | src/moonlight-protocol/rtsp/parser.hpp:134-141 | the number that leads a token is read, and as zero if it does not fit |
| RtspWire.KnownClasses | src/moonlight-protocol/rtsp/parser.hpp:96-104 | the characters of keys, option values and payloads |
| Rtsp.ToString | src/moonlight-protocol/rtsp/parser.hpp:182-215 | the stream writes the specified text |
| Audio.ParityPerGroup | src/moonlight-server/gst-plugin/audio.hpp:111-148 | after n packets exactly two parity packets per complete group of four were sent |
| Audio.BaseIsFirst | src/moonlight-server/gst-plugin/audio.hpp:56-85 | a parity header carries number and time of the group's first packet and its own following number, also across the wrap |
| Audio.EqualSizes | src/moonlight-server/gst-plugin/audio.hpp:125-133 | with packets of one size parity is computed from the last four packets themselves |
| AudioReceiver.InputRestored | src/moonlight-server/gst-plugin/audio.hpp:87-104 | each input comes first in what is sent for it, under its number and time, and a client with the key gets it back: deciphered with the vector of that number if the stream is encrypted, and as it is otherwise |
| AudioReceiver.ParityReads | src/moonlight-server/gst-plugin/audio.hpp:56-85 | every byte of a parity packet's header |
| AudioReceiver.GroupRecovered | src/moonlight-server/gst-plugin/audio.hpp:123-148 | with packets of one size and an encoder that codes columns, any four of a group's six packets give back the payloads of its four data packets |
| AudioPay.RtpMoonlightPayAudio.CopyIntoRow | src/moonlight-server/gst-plugin/utils.hpp:12-19 | the packet overwrites the start of its row and nothing else |
| Audio.WrapKeepsGroup | src/moonlight-server/gst-plugin/audio.hpp:112-112 | the wrap of the 16-bit counter keeps groups aligned |
| AudioPay.RtpMoonlightPayAudio.SplitIntoRtp | src/moonlight-server/gst-plugin/audio.hpp:111-151 | over the whole history, for packets of any sizes that fit a row, the ring holds the last four over what longer ones left, and each call emits the packet and, at a group's end, the parity of those rows |
| AudioPay.RtpMoonlightPayAudio.EncodeRows | src/moonlight-server/gst-plugin/audio.hpp:128-133 | the parity rows are filled from the data rows, which stay |
| Base64.Base64Decode | src/fake-udev/fake-udev/fake-udev.hpp:65-82 | for every input the output is the complete octets in the bits of its leading alphabet characters, the accumulator wrapping at 32 bits |
| Base64.DecodesEncoded | src/fake-udev/fake-udev/fake-udev.hpp:65-82 | decoding undoes the standard padded encoding of every byte string |
| Base64.KnownTexts | src/fake-udev/fake-udev/fake-udev.hpp:67-69 | the encoder that is undone is the standard one, by its test vectors |
| Base64.Accumulates | src/fake-udev/fake-udev/fake-udev.hpp:74-75 | after a shift the low bits of the wrapping accumulator are the undelivered bits and the six new ones |
| Base64.Table | src/fake-udev/fake-udev/fake-udev.hpp:67-69 | the table holds each character's place in the alphabet, and -1 elsewhere |
| Sse.ChunksDoNotMatter | altc/src/wolf.rs:138-156 | any chunking yields the frames and the rest of reading the whole stream at once |
| Sse.EveryEventDelivered | altc/src/wolf.rs:199-210 | every event the server writes is delivered once and in order, among any keepalives and under any chunking |
| Sse.EventsDelivered | altc/src/wolf.rs:199-210 | with names and data free of outer white space the reader's frames are the events themselves, in order |
| Sse.TrimIs | altc/src/wolf.rs:199-210 | trimming takes off white space at both ends and nothing else |
| Sse.EmitsNone | src/moonlight-server/api/unix_socket_server.cpp:337-346 | a keepalive is no frame |
| Sse.ReadsWritten | src/moonlight-server/api/unix_socket_server.cpp:362-364 | a written event ends at its first blank line and reads back as sent |
| Sse.EventStream.OnChunk | altc/src/wolf.rs:138-156 | the buffer loop emits the completed frames and keeps the rest |
| Sse.ReadFrame | altc/src/wolf.rs:199-210 | one frame's kind and data, if it has both |
| Hex.RoundTrip | src/moonlight-protocol/crypto/src/crypto.cpp:29-85 | decoding undoes encoding for every byte string |
| Hex.DecodedAt | src/moonlight-protocol/crypto/src/crypto.cpp:61-77 | every pair of digits, in either case and the letters beyond F included, is read as the byte it stands for |
| Hex.EncodedAt | src/moonlight-protocol/crypto/src/crypto.cpp:29-39 | every byte is written as its two capital digits, the higher first |
| Hex.OddDropped | src/moonlight-protocol/crypto/src/crypto.cpp:54-58 | a digit too many at the front is dropped |
| Hex.SeparatorsDoNotMatter | src/moonlight-protocol/crypto/src/crypto.cpp:68-78 | putting separators anywhere into any input changes nothing, in both directions |
| Hex.HexToStr | src/moonlight-protocol/crypto/src/crypto.cpp:41-85 | for every input the digits paired from the right, or those reversed; the cursor stays inside the input |
| Hex.StrToHex | src/moonlight-protocol/crypto/src/crypto.cpp:29-39 | two digits for each byte |
| Hex.ReverseInPlace | src/moonlight-protocol/crypto/src/crypto.cpp:80-82 | the array holds its contents reversed |
| ProgressRuns.NeverBackwardsExactly | altc/src/events.rs:95-126 | over every interleaving of the bridge and the followers, consecutive percentages of a client start anew or rise if and only if each was accepted after the one sent before it, if of the same session, and is larger, if one of another session lags behind |
| ProgressRuns.InTurnNeverBackwards | altc/src/events.rs:110-126 | over every interleaving they do if each client's percentages are sent in the order in which they passed the ratchet, with none left out, whatever the values and across sessions |
| ProgressRuns.PromptInTurn | altc/src/events.rs:110-126 | they are sent in that order whenever no percentage is put to the ratchet while another of its client waits to be sent |
| ProgressRuns.OverlapInTurn | altc/src/events.rs:88-107 | a schedule in which one waits while another passes, and they are sent in that order all the same |
| ProgressRuns.PromptNeverBackwards | altc/src/events.rs:110-126 | percentages never go backwards whenever no percentage is put to the ratchet while another of its client waits to be sent |
| ProgressRuns.FollowerOvertakes | altc/src/events.rs:88-107 | a follower started by an event can send 10 before that event's 5 |
| ProgressRuns.SessionRises | altc/src/events.rs:112-126 | within a session accepted percentages rise |
| ProgressRuns.ResumedAfterPaused | altc/src/events.rs:67-87 | over every interleaving a resumption sent answers a pause with no resumption or stop between |
| ProgressStory.SentComesFrom | altc/src/events.rs:62-153 | over every interleaving whatever a client is sent comes from a Wolf event of its own, by name, or from a report of the runner in a container created for it, and says what that means: state, percentage and app |
| ProgressStory.AlwaysTold | altc/src/events.rs:171-185 | under any name space pauses, new sessions and ends are always told, and resumptions after a pause |
| ProgressStory.StartTold | altc/src/events.rs:171-185 | a started runner and a created container are told as 3 and 5 percent to a client that has seen less |
| ProgressStory.FailureTold | altc/src/events.rs:136-153 | a failure that the runner reports is told as one |
| ProgressStory.PercentTold | altc/src/events.rs:136-153 | a reported percentage is told if it starts anew or is larger than the client's last, as running from 100 on |
| ProgressStory.FollowedOnce | altc/src/events.rs:128-134 | a container is followed from its first event on, for its client and app, and not twice |
| ProgressStory.AppRemembered | altc/src/events.rs:73-85 | an event without an app is about the one named last for its client, until it stops |
| Progress.LeafOf | altc/src/events.rs:171-173 | the leaf of a qualified name is its last part, whatever the name space |
| Progress.EventHub.OnReceive | altc/src/events.rs:62-94 | the whole new state up to the ratchet: pauses, remembered apps, followed containers, the event in hand or none |
| Progress.EventHub.Advances | altc/src/events.rs:112-126 | when a percentage passes the ratchet, and where that leaves it |
| Progress.EventHub.Publish | altc/src/events.rs:62-108 | the three steps of a publication when nothing comes between |
| Progress.EventHub.OnReports | altc/src/events.rs:136-153 | exactly which runner updates are accepted or dropped, and as what event |
| Progress.EventHub.OnRunnerSends | altc/src/events.rs:154-154 | the accepted update is sent, and nothing else changes |

## Left out

- Reed-Solomon, AES, RSA, SHA-256, X.509 and JSON arithmetic: parameters of the model.
- The float `ceil` in the video payloader is modelled as exact ceiling division; `FloatCeilAgrees` justifies it for frames below 1024 packets (for a correctly rounded division of two exact operands), and frames of 1024 packets or more are modelled with the exact ceiling.
- GStreamer buffers: packets are values in a list, so sharing of memory between a list and its sub-list, reference counts and copied timestamps are not captured; the flat shard buffer and the header rewritten in it are an array.
- `packetType` and time stamp bytes of video parity packets, which the code leaves as the encoder wrote them.
- Payload sizes of 16 bytes or less, which the registered range allows but which leave no room for payload.
- `generate_fec_multi_blocks` takes its data count from the list, as its one caller passes it.
- An error from the Reed-Solomon encoder is only logged by the code; a parity that was never computed is covered by the encoder being any function of the data. The laws about repair ask of the encoder that it codes each column by itself and that enough symbols solve a column; `Erasure.RepetitionSolves` has an instance.
- Repair of audio groups whose packets differ in size, for which the code makes no provision.
- The kernel interrupts a call, or reports room it does not have, some finite number of times; the code puts no bound on these retries.
- `sendmmsg` returning zero, control messages for the source address, and opening the socket.
- A rate bound across frames: the first window of a frame is not delayed.
- Integer overflow of `packet_size * 8` for packets beyond 256 MiB.
- Compositor, audio sink, pipelines and runner start-up of lobbies and sessions; mouse, keyboard, touch and pen devices.
- Handlers of one event run to completion before the next event from outside; races between threads inside a handler are not modelled. A container's stop is not a step of its own: the containers of unlisted lobbies and ended sessions no longer count as live.
- `LobbyRouting.Enabled`: a session joins a lobby only while it is in none, which the handler itself does not check, and lobby ids and joypad devices are new when they first appear.
- The unpair request, the server certificate in the first reply, and the other text of the HTTP replies; a broken PIN promise of a dropped request has no effect.
- Repeated resolution of one PIN promise by two simultaneous posts.
- RTSP: the semantics of cpp-peglib (white space skipped after each literal and token, actions run as soon as their rule matches, committed ordered choice) is written out by hand; packrat memory and invalid UTF-8 in the trailing rubbish are not modelled.
- Audio: packets of more than 1400 bytes, which do not fit a row of the ring; time stamps cannot wrap within the registered duration range.
- SSE: the server starts its `async_write`s without waiting for the one before, on a string passed by reference that is partly a temporary (src/moonlight-server/api/unix_socket_server.cpp:343-364). The model assumes that whole writes reach a socket one after the other, with the text they were started with.
- SSE: chunks end at character boundaries, so the lossy UTF-8 decoding changes nothing.
- Progress: the pause and app memories are touched by the one bridge task only and so are updated in one step; the database, library and routes around the hub are absent.
- The altc server's SQL and web routes, configuration loading, pointer, pen and motion input, and the web UI.
