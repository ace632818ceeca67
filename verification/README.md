# Voice relay and radio audibility: a Dafny model

This project models the voice path of a radio add-on: a UDP relay (`voice-server`) that keeps a table of
sessions and passes voice frames and radio announcements on, and the client side of it
(`addon/extensions/task_force_radio_pipe/src`), which rebuilds the roster, announces its own transmissions,
times out other people's, buffers, conceals, mixes and resamples their voices, and works out who is heard
over which radio, speaker and tower.

Everything the code updates in place is a class whose methods are proved against a step function on values;
the properties below are proved about those functions over every run. Pure computations are functions.

| file | what it holds |
|---|---|
| `Relay.dfy`, `RelayServer.dfy` | the relay's table as a transition system, and the server object that follows it |
| `RosterView.dfy`, `VoiceSession.dfy`, `ClientRoster.dfy` | the roster folded from the relay's messages, the session that keeps it and applies audibility, and their agreement |
| `NetClient.dfy` | the client's worker loop, restart detection and keepalive |
| `RadioSender.dfy`, `RadioReceiver.dfy`, `RadioRelay.dfy` | announcing, expiring, and end-to-end delivery of a radio transmission |
| `Transmit.dfy`, `JitterBuffer.dfy`, `Rendering.dfy` | a talkspurt from the gate to rendered samples |
| `Interpolation.dfy`, `Capture.dfy`, `Playback.dfy` | the push and the pull resampler |
| `Towers.dfy`, `Reception.dfy` | radio towers, and the radio and speaker paths of one sender |
| `Utf8.dfy`, `Wire.dfy`, `Messages.dfy`, `Codec.dfy` | strings, bytes, messages and their encoders on both sides |
| `RelayService.dfy`, `RelayWire.dfy` | what the relay does for its clients, and its table steps in terms of those bytes |
| `Text.dfy` | the legacy text protocol |
| `Pacing.dfy`, `Numbers.dfy`, `Sequences.dfy`, `Wrappers.dfy` | shared helpers |

Conventions. Times are milliseconds. Samples, gains, distances and levels are reals. Resampling cursors are
exact numerators over the fixed rate. One packet, or one swept session, is one step of the relay.
The order in which an unordered container is visited is an input wherever it can be observed. The two
packet writers and readers of client and relay are one class each, with a string method for either side;
a failed call stands for the exception the code throws. A string is the sequence of its Unicode scalar values;
byte limits are limits on its UTF-8 encoding. The roster's keys, which the client keeps as bytes, are the strings
they decode to.

Findings. Where the code does not have a property one would expect, the model says exactly when it does.

- Two uids on one endpoint: the endpoint index is overwritten (`RelayServer.cs:166`), so the bijection of the
  three indexes holds if and only if no admitted request takes an endpoint over (`Relay.StepThreeWayIff`,
  reached in `Relay.TakeoverReachable`).
- A sweep that is not atomic can delete the uid entry of a session that has just reconnected, and the endpoint
  entry of one that has come to its endpoint (`Relay.StaleSweepIff`, reached in `Relay.StaleSweepReachable`).
- Of two clients on one endpoint the later one loses its endpoint entry when the earlier one is dropped, and
  from then on its pings do not count (`Liveness.KeptIff`, `Liveness.Unheard`, reached in
  `Liveness.EvictionReachable`). Clients that have their endpoint to themselves are not affected
  (`Liveness.KeepAlive`).
- When two sessions share a name and the one announced later leaves, the earlier one is no longer found by
  name (`ClientRoster.NameLookupIff`).
- A client without a name and with a uid of more than 32 bytes is never learnt of: the other clients reject the
  string, and beyond 36 bytes the relay's own buffer is too small. Then the admission of every later client stops
  half way, and clients stop agreeing with the relay: exactly when is `RosterView.StepAgreesIff` for a step and
  `RosterView.RunAgreesIff` for a run; `RelayWire.HiddenReachable` reaches it. Requests that can be announced
  (`RelayWire.AnnounceableIff`) never cause it. `ClientRoster.RunExactIff` says when all clients know all others.
- A client whose server address is cleared while connected does not notice that the server is gone until an
  address is there again (`NetClient.LeavesIff`).
- An encoder failure can leave an end frame with no data before it: when a talkspurt has lost all its data, and
  only then (`Transmit.TalkspurtsIff`, reached in `Transmit.TalkspurtsNeedTheEncoder`).
- A stop never reaches the audibility state as such; it only ends the cache entry, and the state ages out within
  1500 ms. But it ends the entry of its own session only, and a departure ends none (`VoiceSession.cpp:49-64`): who
  reconnects in mid-transmission and stops is kept talking by the entry of the old session
  (`RadioReceiver.StopIgnored`). Exactly when a stop is respected is `RadioReceiver.StopIff`.
- `State.h:146-149` says that an unresolved own uid is empty; the code (`State.cpp:405-420`) falls back to the
  nickname, and `State.cpp:445-448` resolves such a uid as a client's nickname (`RadioReceiver.NameOfIff`).

## Model

| member | source | states |
|---|---|---|
| `Relay.RunInv` | voice-server/src/Tfrs.VoiceServer/RelayServer.cs:106-323 | In every reachable state the id and uid indexes hold the same sessions, one per uid, every endpoint entry leads to a live session with that endpoint, ids are fresh, and there are never more sessions than the configured maximum. |
| `Relay.StepThreeWayIff` | voice-server/src/Tfrs.VoiceServer/RelayServer.cs:145-168 | All three indexes stay in bijection across a step if and only if the step is not an admitted request from an endpoint registered under another uid. |
| `Relay.RunThreeWay` | voice-server/src/Tfrs.VoiceServer/RelayServer.cs:106-323 | Over every run without such a request the three indexes are in bijection. |
| `Relay.TakeoverReachable` | voice-server/src/Tfrs.VoiceServer/RelayServer.cs:166 | Two admitted requests of different uids from one endpoint lose the bijection. |
| `Relay.KnownUidAdmitted` | voice-server/src/Tfrs.VoiceServer/RelayServer.cs:145-168 | In every reachable state a uid that has a session gets a new one at its new endpoint, under a fresh id and without changing the count: it is never refused as ServerFull. |
| `Relay.StaleSweepIff` | voice-server/src/Tfrs.VoiceServer/RelayServer.cs:313-323 | Sweeping a session that is no longer registered keeps the id and uid indexes in agreement if and only if its uid has not been registered again meanwhile, and all three in bijection if and only if its endpoint has not been either. |
| `Relay.StaleSweepReachable` | voice-server/src/Tfrs.VoiceServer/RelayServer.cs:313-323 | One client that reconnects from another endpoint between the snapshot and the removal makes the sweep of its old session break the indexes. |
| `Relay.StepTargets` | voice-server/src/Tfrs.VoiceServer/RelayServer.cs:185-246 | Every packet a step sends goes to a live session, or answers the ConnectRequest being handled. |
| `Relay.SilentUntilConnect` | voice-server/src/Tfrs.VoiceServer/RelayServer.cs:185-286 | Over every run an endpoint without a session gets none and is sent nothing until it asks to connect. |
| `RelayService.AnswerIff` | voice-server/src/Tfrs.VoiceServer/RelayServer.cs:106-168 | Exactly who is turned away and why, always with the table unchanged: VersionMismatch for a wrong version, BadRequest for a malformed request or an empty uid, BadPassword for a wrong password, ServerFull for a new uid when all places are taken; and who is accepted. |
| `RelayService.Accepted` | voice-server/src/Tfrs.VoiceServer/RelayServer.cs:153-173 | A request that is let in has a session under the next id, its endpoint, its uid and its name, or the uid for want of one. |
| `RelayService.EverybodyAsked` | voice-server/src/Tfrs.VoiceServer/RelayServer.cs:139-168 | Over every run each session goes back to a request from its endpoint, with its uid, a uid that is not empty, and the right password. |
| `RelayService.SessionsIff` | voice-server/src/Tfrs.VoiceServer/RelayServer.cs:106-323 | After a step there are, unchanged, exactly the sessions that no request of their uid, no disconnect from their endpoint and no sweep that found them silent has ended, and the one just let in. |
| `RelayService.HeardIff` | voice-server/src/Tfrs.VoiceServer/RelayServer.cs:197-286 | A session is stamped exactly by pings with a timestamp, voice packets and transmissions from its endpoint, even when they do not parse, and by its admission. |
| `RelayService.PassedOnToOthers` | voice-server/src/Tfrs.VoiceServer/RelayServer.cs:217-286 | A voice packet of at most 500 bytes, or a transmission, goes once to every other session and not to the sender, with its fields and the sender's id; any other to nobody. |
| `RelayService.RosterAnswered` | voice-server/src/Tfrs.VoiceServer/RelayServer.cs:185-195 | A registered requester is sent one announcement of every other session, if all fit the buffer; nobody else is sent any. |
| `RelayService.UpToFirstOverrun` | voice-server/src/Tfrs.VoiceServer/RelayServer.cs:175-194 | Announcing the others goes on exactly up to the first in the order of visits that does not fit. |
| `RelayService.PingEchoed` | voice-server/src/Tfrs.VoiceServer/RelayServer.cs:197-215 | A ping with a timestamp is answered to a registered sender with that timestamp, and otherwise not at all. |
| `RelayServer.Server.HandleConnectRequest` | voice-server/src/Tfrs.VoiceServer/RelayServer.cs:106-183 | Drops, refuses, replaces or admits as the table step says, and sends exactly its packets in order, also when the announcements are cut short. |
| `RelayServer.Server.DropExisting` | voice-server/src/Tfrs.VoiceServer/RelayServer.cs:145-151 | Removes the old session of the uid from all indexes and tells the remaining sessions. |
| `RelayServer.Server.Register` | voice-server/src/Tfrs.VoiceServer/RelayServer.cs:159-168 | Gives out the next id, names a nameless client after its uid, and enters the session in all three indexes. |
| `RelayServer.Server.Announce` | voice-server/src/Tfrs.VoiceServer/RelayServer.cs:170-182 | Accept to the newcomer, then one Joined per other session to it up to the first that overruns the buffer, then, if none did, its own Joined to all others. |
| `RelayServer.Server.SendClientJoined` | voice-server/src/Tfrs.VoiceServer/RelayServer.cs:355-364 | Sends the announcement if its names fit the 79-byte buffer, and otherwise sends nothing and fails. |
| `RelayServer.Server.SendRoster` | voice-server/src/Tfrs.VoiceServer/RelayServer.cs:175-179 | Announces the other sessions in order up to the first that does not fit, and says whether all did. |
| `RelayServer.Server.BroadcastClientJoined` | voice-server/src/Tfrs.VoiceServer/RelayServer.cs:366-374 | Announces a session to everybody else, or to nobody if it does not fit. |
| `RelayServer.Server.HandleRosterRequest` | voice-server/src/Tfrs.VoiceServer/RelayServer.cs:185-195 | Sends a registered requester every other session once, up to the first that does not fit, changes nothing, and answers nobody else. |
| `RelayServer.Server.HandlePing` | voice-server/src/Tfrs.VoiceServer/RelayServer.cs:197-215 | Stamps a registered sender and echoes its timestamp; silence for anybody else and for a ping without one. |
| `RelayServer.Server.HandleVoiceUp` | voice-server/src/Tfrs.VoiceServer/RelayServer.cs:217-246 | Stamps the sender even when the frame is dropped, and passes a frame of at most 500 bytes to everybody else. |
| `RelayServer.Server.HandleRadioTxUpdate` | voice-server/src/Tfrs.VoiceServer/RelayServer.cs:251-286 | Stamps the sender even when the packet is malformed, and passes the transmission to everybody else. |
| `RelayServer.Server.HandleDisconnect` | voice-server/src/Tfrs.VoiceServer/RelayServer.cs:288-297 | Removes the session found through the endpoint from all indexes and tells the others. |
| `RelayServer.Server.SweepOne` | voice-server/src/Tfrs.VoiceServer/RelayServer.cs:313-323 | Removes a session last heard from before the cutoff, and only such a one, and tells the others. |
| `RelayServer.Server.Handle` | voice-server/src/Tfrs.VoiceServer/RelayServer.cs:78-104 | Every event takes the object state and the packets sent along exactly as the table step does, so that all properties of runs hold of the server. |
| `RelayServer.Server.constructor` | voice-server/src/Tfrs.VoiceServer/RelayServer.cs:19-22 | A new server has empty indexes and hands out id 1 first. |
| `RosterView.RosterAgreement` | voice-server/src/Tfrs.VoiceServer/RelayServer.cs:145-195 | Over every run without an endpoint takeover in which every admitted request can be announced, folding the packets sent to a live client gives exactly the relay's other sessions: source ids and uid lookup are equal to them, name entries never mislead; through reconnects, timeouts and roster replies. |
| `RosterView.StepAgreesIff` | voice-server/src/Tfrs.VoiceServer/RelayServer.cs:106-323 | A step keeps the indexes in bijection and every live client in agreement with the table on the sessions that can be announced if and only if it neither takes over an endpoint nor is an admission whose announcements are cut short. |
| `RosterView.RunAgreesIff` | voice-server/src/Tfrs.VoiceServer/RelayServer.cs:106-323 | Along a run the indexes stay in bijection and all clients agree after every step if and only if no step of it takes over an endpoint or is cut short. |
| `RosterView.AdmitAgreesIff` | voice-server/src/Tfrs.VoiceServer/RelayServer.cs:170-182 | An admission keeps everybody in agreement if and only if no session that does not fit stops it before an announceable newcomer, or another announceable session, was announced. |
| `RosterView.ExactIff` | voice-server/src/Tfrs.VoiceServer/RelayServer.cs:355-364 | A client in agreement knows all other sessions if and only if all of them can be announced. |
| `ClientRoster.RunExactIff` | voice-server/src/Tfrs.VoiceServer/RelayServer.cs:106-323 | Along a run the indexes are in bijection and every live client knows exactly the other sessions after every step if and only if no step takes over an endpoint or is cut short, and at no time a session that cannot be announced has another one beside it. |
| `RelayWire.JoinedOnWire` | addon/extensions/task_force_radio_pipe/src/Voice/VoiceNetworkClient.cpp:324-330 | An announcement goes out if and only if its names fit the buffer together, and the client reads it if and only if each is within its own limit, with the bytes of both names. |
| `RelayWire.UpdateIsRead` | addon/extensions/task_force_radio_pipe/src/Voice/VoiceNetworkClient.cpp:324-330 | A view takes notice of an announcement if and only if the client can read its bytes. |
| `RelayWire.StepFits` | voice-server/src/Tfrs.VoiceServer/RelayServer.cs:355-364 | Every announcement a step of the relay sends fits its buffer. |
| `RelayWire.LeftsRead` | voice-server/src/Tfrs.VoiceServer/RelayServer.cs:376-382 | Every departure a step announces is that of a session the step removed, and its bytes are read by the clients as such, as long as ids fit 32 bits. |
| `RelayWire.AnnounceableIff` | voice-server/src/Tfrs.VoiceServer/RelayServer.cs:112-138 | A request a client sends with well-formed names can be announced if and only if its name is not empty or its uid, cut to 40 bytes, has at most 32. |
| `RelayWire.HiddenReachable` | voice-server/src/Tfrs.VoiceServer/RelayServer.cs:170-182 | One admitted client without a name and with a uid of 40 characters cuts the next admission short. |
| `ClientRoster.RunTruthful` | voice-server/src/Tfrs.VoiceServer/RelayServer.cs:145-182 | Over every run the announcements of a session never contradict each other, and say of a live session what the table says. |
| `ClientRoster.FollowsFold` | addon/extensions/task_force_radio_pipe/src/Voice/VoiceSession.cpp:37-64 | Along any message log of the relay the client, erasing only the first matching entry it happens to visit, has the roster of the view that erases all. |
| `ClientRoster.ClientAgrees` | addon/extensions/task_force_radio_pipe/src/Voice/VoiceSession.cpp:37-64 | Over every run without an endpoint takeover in which every admitted request can be announced, the sources and the uid lookup the client itself ends up with are exactly the relay's other sessions. |
| `ClientRoster.UndisturbedClientAgrees` | addon/extensions/task_force_radio_pipe/src/Voice/VoiceSession.cpp:37-64 | Over every run without a takeover or a cut-short admission the client's own lookups hold exactly the relay's other sessions that can be announced. |
| `ClientRoster.NameLookupIff` | addon/extensions/task_force_radio_pipe/src/Voice/VoiceSession.cpp:41-63 | In such a run a name leads the client to a session if and only if that session was the last to be announced readably under the name since the accept and is still registered. |
| `VoiceSession.JoinsRoster` | addon/extensions/task_force_radio_pipe/src/Voice/VoiceSession.cpp:37-48 | A join has on the session's roster the effect the folded view has. |
| `VoiceSession.VoiceSession.OnRemoteJoined` | addon/extensions/task_force_radio_pipe/src/Voice/VoiceSession.cpp:37-48 | A new source starts silent (or forced audible in debug mode), a known one keeps its paths; uid and non-empty name lead to the session. |
| `VoiceSession.VoiceSession.FindKey` | addon/extensions/task_force_radio_pipe/src/Voice/VoiceSession.cpp:69-79 | Finds a key that leads to the session whenever there is one, whatever the order of visits. |
| `VoiceSession.VoiceSession.OnRemoteLeft` | addon/extensions/task_force_radio_pipe/src/Voice/VoiceSession.cpp:49-64 | Removes the source and one matching entry of each lookup, if there is one. |
| `VoiceSession.VoiceSession.OnConnectionStateChanged` | addon/extensions/task_force_radio_pipe/src/Voice/VoiceSession.cpp:106-116 | Losing the connection empties sources, lookups and the transmission cache and ends debug mode. |
| `VoiceSession.VoiceSession.GroupBySession` | addon/extensions/task_force_radio_pipe/src/Voice/VoiceSession.cpp:153-184 | Each session some row resolves to gets exactly the paths of its rows, in order. |
| `VoiceSession.VoiceSession.SetGroups` | addon/extensions/task_force_radio_pipe/src/Voice/VoiceSession.cpp:186-191 | Existing sources take over their group, sessions without a source are remembered as seen all the same. |
| `VoiceSession.VoiceSession.SilenceMissing` | addon/extensions/task_force_radio_pipe/src/Voice/VoiceSession.cpp:193-200 | Sources of the last snapshot that are missing now lose all paths, no other source changes. |
| `VoiceSession.VoiceSession.ApplyAudibility` | addon/extensions/task_force_radio_pipe/src/Voice/VoiceSession.cpp:145-201 | The whole new state of sources and last-active sessions; nothing at all in debug mode. |
| `VoiceSession.FullReplaceIff` | addon/extensions/task_force_radio_pipe/src/Voice/VoiceSession.cpp:186-201 | Outside debug mode every snapshot makes every source exact if and only if no source outside the last snapshot can be heard. |
| `VoiceSession.AudibilityIsFullReplace` | addon/extensions/task_force_radio_pipe/src/Voice/VoiceSession.cpp:145-201 | Over every run of joins, departures, reconnects and snapshots, a snapshot outside debug mode leaves every source's list exactly the subsequence of rows that resolve to it, uid first, and empty without such rows; debug mode may have been on before, if it did not end in front of sources. |
| `VoiceSession.SnapshotIs` | addon/extensions/task_force_radio_pipe/src/Voice/VoiceSession.cpp:145-201 | After a snapshot outside debug mode the list of a source is made of the paths, in order, of exactly the rows whose uid leads to it, or whose uid leads nowhere and whose nickname leads to it. |
| `VoiceSession.DebugForcesAudible` | addon/extensions/task_force_radio_pipe/src/Voice/VoiceSession.cpp:106-108 | In debug mode every source is heard at full gain, unmuted, whatever snapshots say. |
| `VoiceSession.ReportedEndsEmpty` | addon/extensions/task_force_radio_pipe/src/Voice/VoiceNetworkClient.cpp:471-492 | As the worker loop reports, a connection only after none and joins only during one, debug mode never ends in front of sources. |
| `RadioSender.RadioAnnouncer.OnTick` | addon/extensions/task_force_radio_pipe/src/Extension.cpp:124-166 | Announces exactly on a change, on a due refresh while active, or on an owed repeat of a stop, and remembers what it announced. |
| `RadioSender.RefreshedWhileActive` | addon/extensions/task_force_radio_pipe/src/Extension.cpp:131-146 | While active, announcements follow each other within 500 ms plus one tick, the last one is less than 500 ms old at the last tick, and all say active. |
| `RadioSender.StopsThenSilent` | addon/extensions/task_force_radio_pipe/src/Extension.cpp:137-142 | After going inactive a stop goes out on each of the next ticks until three are out, then nothing. |
| `RadioSender.AnnouncesIff` | addon/extensions/task_force_radio_pipe/src/Extension.cpp:119-166 | Over every run a tick announces the local state, field by field, unless the last announcement says the same and is less than 500 ms old, or, when not transmitting, nothing was ever announced or three stops in a row were. |
| `RadioSender.UpToDate` | addon/extensions/task_force_radio_pipe/src/Extension.cpp:124-166 | After every tick the last announcement has the activity, frequency, clamped range and subtype of the local radio. |
| `RadioSender.ClampRange` | addon/extensions/task_force_radio_pipe/src/Extension.cpp:121-122 | The announced range is the range without its fraction, 0 below and 65535 above the 16-bit values. |
| `RadioReceiver.ForwardIs` | addon/extensions/task_force_radio_pipe/src/State.cpp:432-463 | A tick leaves a name as the last entry filed under it says, dated now, dropped if that entry lacks a frequency, and alone if there is none. |
| `RadioReceiver.NameOfIff` | addon/extensions/task_force_radio_pipe/src/State.cpp:437-449 | A uid resolves if and only if it was reported for some name or is a client's nickname; to such a name if there is one, to itself otherwise. |
| `RadioReceiver.FirstNamedIff` | addon/extensions/task_force_radio_pipe/src/State.cpp:437-444 | Of the names the uid was reported for the one visited first is taken. |
| `RadioReceiver.FilesIff` | addon/extensions/task_force_radio_pipe/src/State.cpp:432-463 | Unless something under the name lacks a frequency, a tick files the name if and only if some session announced as active less than 1500 ms before, and not stopped since, resolves to it. |
| `RadioReceiver.CurrentIff` | addon/extensions/task_force_radio_pipe/src/Voice/VoiceSession.cpp:212-221 | The entries forwarded are exactly the cached ones received less than 1500 ms ago. |
| `RadioReceiver.CurrentInOrder` | addon/extensions/task_force_radio_pipe/src/Voice/VoiceSession.cpp:212-221 | They are listed in the order of visits, each session once per visit. |
| `RadioReceiver.CountsOnlyIfHeard` | addon/extensions/task_force_radio_pipe/src/State.cpp:602-606 | Over every run a name counts only if an active announcement, of a uid that resolved to that name at the tick that filed it, was delivered less than 1500 ms before that tick and less than 3000 ms before. |
| `RadioReceiver.CountsIff` | addon/extensions/task_force_radio_pipe/src/State.cpp:451-462 | Over every run a name counts at a time if and only if some tick less than 1500 ms before filed it, and neither the end of the mission nor an entry without frequency has dropped it since. |
| `RadioReceiver.CachedIff` | addon/extensions/task_force_radio_pipe/src/Voice/VoiceSession.cpp:80-94 | Over every run a session is cached if and only if its last announcement was active and the connection was not lost since, with that announcement's content and date. |
| `RadioReceiver.StopRespected` | addon/extensions/task_force_radio_pipe/src/Voice/VoiceSession.cpp:82-93 | Once a stop is delivered, and as long as the session is not heard transmitting again and no tick finds another session whose announcement resolves to the name, the name does not count from 1500 ms on. |
| `RadioReceiver.StopIff` | addon/extensions/task_force_radio_pipe/src/Voice/VoiceSession.cpp:49-94 | From 1500 ms after a stop of a session not heard transmitting since, in any run, a name counts if and only if a tick since the stop filed under it what another session had announced. |
| `RadioReceiver.StopIgnored` | addon/extensions/task_force_radio_pipe/src/Voice/VoiceSession.cpp:49-64 | The stop of one who came back under a new session does not silence the name: the entry of the old session, which a departure leaves cached, keeps it counted 1500 ms later. |
| `RadioReceiver.CuesAlternate` | addon/extensions/task_force_radio_pipe/src/Voice/VoiceSession.cpp:95-104 | However often announcements are repeated, the cues of a session are starts and ends in turn, beginning with a start, and the last one is a start exactly while the session is cached. |
| `RadioReceiver.CueSubtypes` | addon/extensions/task_force_radio_pipe/src/Voice/VoiceSession.cpp:95-104 | A start is cued in the subtype announced, an end in that of the last active announcement. |
| `RadioReceiver.CountsWhileHeard` | addon/extensions/task_force_radio_pipe/src/State.cpp:451-462 | With ticks within T and each tick within 3000 - T ms of the last delivery, the name counts at every tick from the first delivery on. |
| `RadioRelay.HeardBefore` | addon/extensions/task_force_radio_pipe/src/Extension.cpp:120-169 | A receiver of whose announcements one in every window arrives goes without one for at most the window's refresh intervals, their ticks and the jitter. |
| `RadioRelay.NoDropout` | addon/extensions/task_force_radio_pipe/src/Extension.cpp:120-169 | End to end: while the sender keeps transmitting, its name counts at every receiver tick from the first delivered announcement on, if the lossy gaps and one receiver tick fit into the two expiries. |
| `RadioRelay.FourMayBeLost` | addon/extensions/task_force_radio_pipe/src/Extension.cpp:120-169 | With ticks of at most 83 ms and a constant delay any four announcements in a row may be lost. |
| `VoiceSession.VoiceSession.OnRadioTx` | addon/extensions/task_force_radio_pipe/src/Voice/VoiceSession.cpp:65-105 | Caches an active announcement under its session, forgets it on a stop, and cues a beep only on a change, the end in the cached subtype; ignores a session that is not in the roster. |
| `VoiceSession.VoiceSession.CurrentRadioTx` | addon/extensions/task_force_radio_pipe/src/Voice/VoiceSession.cpp:212-221 | Lists the unexpired cache entries in the order of visits. |
| `VoiceSession.RemoteTransmissions.SetRemoteTx` | addon/extensions/task_force_radio_pipe/src/State.cpp:432-463 | Files a transmission under the name its uid resolves to, dated now, erases it when the frequency is empty, ignores what does not resolve. |
| `VoiceSession.RemoteTransmissions.ResolveName` | addon/extensions/task_force_radio_pipe/src/State.cpp:437-449 | The first reported name with the uid in the order of visits, and failing that the uid itself if it is a client's nickname. |
| `VoiceSession.RemoteTransmissions.HandleUid` | addon/extensions/task_force_radio_pipe/src/State.cpp:255-261 | Reports a uid for the converted name, and ignores an empty name or uid. |
| `VoiceSession.RemoteTransmissions.EndMission` | addon/extensions/task_force_radio_pipe/src/State.cpp:325-343 | Forgets transmissions and clients, and keeps the reported uids. |
| `VoiceSession.RemoteTransmissions.Poll` | addon/extensions/task_force_radio_pipe/src/Extension.cpp:167-169 | One tick takes cache and transmissions along exactly as the receiver step does and leaves the talking set of the new state. |
| `VoiceSession.RemoteTransmissions.RebuildTalking` | addon/extensions/task_force_radio_pipe/src/State.cpp:820-827 | The talking set afterwards is exactly the unexpired names, whatever it held before. |
| `NetClient.VoiceNetworkClient.PumpReceive` | addon/extensions/task_force_radio_pipe/src/Voice/VoiceNetworkClient.cpp:407-442 | Drains at most 256 datagrams, each resetting the watchdog. |
| `NetClient.VoiceNetworkClient.LoopTurn` | addon/extensions/task_force_radio_pipe/src/Voice/VoiceNetworkClient.cpp:444-523 | One turn of the worker: reconnects on changed settings, drains, pings when due, and gives up on a silent server. |
| `NetClient.VoiceNetworkClient.KeepAlive` | addon/extensions/task_force_radio_pipe/src/Voice/VoiceNetworkClient.cpp:502-522 | Pings exactly when 5 s have passed and disconnects exactly when more than 15 s have passed since the last datagram. |
| `NetClient.WatchdogIff` | addon/extensions/task_force_radio_pipe/src/Voice/VoiceNetworkClient.cpp:514-522 | If no turn was late so far, the client is connected after the next one if and only if that one is not late either: a turn is late if it finds settings and comes more than 15 s after the last datagram. |
| `NetClient.LeavesIff` | addon/extensions/task_force_radio_pipe/src/Voice/VoiceNetworkClient.cpp:456-522 | Whatever turns with and without a server address a run mixes, a client with unchanged settings leaves the connected state if and only if some turn is late. |
| `NetClient.SettingsCurrent` | addon/extensions/task_force_radio_pipe/src/Voice/VoiceNetworkClient.cpp:456-492 | A turn without an address or a port changes nothing, and any other that ends connected does so with the settings it found. |
| `NetClient.ReconnectsIff` | addon/extensions/task_force_radio_pipe/src/Voice/VoiceNetworkClient.cpp:98-109 | A connection is given up for other settings exactly when address, port or password changed, or the own uid is known and changed. |
| `NetClient.FreshConnection` | addon/extensions/task_force_radio_pipe/src/Voice/VoiceNetworkClient.cpp:477-522 | A handshake starts both timers: without datagrams the client stays connected for 15 s and pings from 5 s on. |
| `NetClient.SilenceDetected` | addon/extensions/task_force_radio_pipe/src/Voice/VoiceNetworkClient.cpp:514-522 | A client that hears nothing leaves the connected state within 15 s and the time between two turns that find a server address, and not earlier; turns without one may come in between. |
| `NetClient.UnconfiguredNeverLeaves` | addon/extensions/task_force_radio_pipe/src/Voice/VoiceNetworkClient.cpp:456-468 | As long as no turn finds a server address the client stays as it is. |
| `NetClient.PingsRegular` | addon/extensions/task_force_radio_pipe/src/Voice/VoiceNetworkClient.cpp:503-513 | A client that stays connected pings with gaps below 5 s plus one turn. |
| `NetClient.PingsNotSooner` | addon/extensions/task_force_radio_pipe/src/Voice/VoiceNetworkClient.cpp:503-513 | No two pings of a client that stays connected are less than 5 s apart. |
| `Liveness.RestartDetected` | addon/extensions/task_force_radio_pipe/src/Voice/VoiceNetworkClient.cpp:498-522 | Whatever a relay without the client's session handles, a client that does not reconnect leaves the connected state within 15 s of its last datagram plus the time between two turns that find a server address. |
| `Liveness.KeptWhileHeard` | voice-server/src/Tfrs.VoiceServer/RelayServer.cs:299-325 | A session that has its endpoint to itself, and whose sweeps always find a recent enough ping, stays in all indexes over the run. |
| `Liveness.KeptIff` | voice-server/src/Tfrs.VoiceServer/RelayServer.cs:145-151 | Without the endpoint to itself, it stays in all indexes over the run if and only if no other session at its endpoint is dropped. |
| `Liveness.EvictionReachable` | voice-server/src/Tfrs.VoiceServer/RelayServer.cs:145-168 | Two clients behind one endpoint, the first of which reconnects from elsewhere: the second is no longer found through its endpoint. |
| `Liveness.Unheard` | voice-server/src/Tfrs.VoiceServer/RelayServer.cs:197-215 | From then on, until its client connects again, no ping changes when the relay last heard from the session, in any run. |
| `Liveness.PingsSweptInTime` | voice-server/src/Tfrs.VoiceServer/RelayServer.cs:313-316 | Regular pings of which one in three arrives are recent enough at every sweep, if three gaps and the delays fit into the timeout. |
| `Liveness.KeepAlive` | addon/extensions/task_force_radio_pipe/src/Voice/VoiceNetworkClient.cpp:502-513 | If 3 (5 s + turn) and the delays fit into the 20 s timeout, a connected client that sends nothing but pings, one in any three of which arrives, keeps its session in all indexes if and only if no other session at its endpoint is dropped, and always if it has the endpoint to itself. |
| `Transmit.TransmitController.OnFrameCaptured` | addon/extensions/task_force_radio_pipe/src/Voice/TransmitController.cpp:76-184 | A captured frame updates gain, gate and hangover and emits data, an end frame or nothing exactly as the sender step does. |
| `Transmit.TransmitController.DetermineShouldTransmit` | addon/extensions/task_force_radio_pipe/src/Voice/TransmitController.cpp:59-74 | The gate: override first, then mute, then the mode; only voice activation moves the hangover. |
| `Transmit.TransmitController.UpdateGain` | addon/extensions/task_force_radio_pipe/src/Voice/TransmitController.cpp:104-115 | The gain falls fast, rises slowly and only on voice, and ignores near-silence. |
| `Transmit.SentIsTalkspurts` | addon/extensions/task_force_radio_pipe/src/Voice/TransmitController.cpp:166-183 | With a succeeding encoder the wire carries (data+ last)* data* and the sender knows whether a talkspurt is open. |
| `Transmit.TalkspurtsIff` | addon/extensions/task_force_radio_pipe/src/Voice/TransmitController.cpp:166-183 | Whatever the encoder does, the wire carries (data+ last)* data* if and only if no end frame goes out unless a data frame has gone out since the last one. |
| `Transmit.OpenIff` | addon/extensions/task_force_radio_pipe/src/Voice/TransmitController.cpp:166-183 | A talkspurt is open exactly when the last frame on the wire is a data frame. |
| `Transmit.TalkspurtsNeedTheEncoder` | addon/extensions/task_force_radio_pipe/src/Voice/TransmitController.cpp:166-183 | A failing encode at the start of a talkspurt puts an end frame on the wire with no data before it. |
| `Transmit.GainBounded` | addon/extensions/task_force_radio_pipe/src/Voice/TransmitController.cpp:104-115 | The gain stays within [1, 12] over every run. |
| `Transmit.GainConverges` | addon/extensions/task_force_radio_pipe/src/Voice/TransmitController.cpp:108-115 | At a steady voice level the distance to the desired gain decays geometrically, without overshoot. |
| `Transmit.VoiceActivationIff` | addon/extensions/task_force_radio_pipe/src/Voice/TransmitController.cpp:50-57 | Under voice activation a frame goes out if and only if it, or one less than 300 ms before it, was voice-like. |
| `Transmit.SentIff` | addon/extensions/task_force_radio_pipe/src/Voice/TransmitController.cpp:59-184 | Over every run an encoded frame goes out as data if and only if the override, or else the mute, the mode, the button and the loudness of the last 300 ms let it, and as an end frame if and only if they let the frame before and not it. |
| `Transmit.GateIff` | addon/extensions/task_force_radio_pipe/src/Voice/TransmitController.cpp:50-74 | The gate is open exactly as the override says, never when muted, and otherwise always, while the button is held, or for a frame that is loud or follows a loud one within 300 ms. |
| `Transmit.LevelReached` | addon/extensions/task_force_radio_pipe/src/Voice/TransmitController.cpp:104-115 | A steady voice within the reach of the gains is brought to the target level 0.08: a frame leaves 60 % of the distance from above and 95 % from below. |
| `JitterBuffer.RunInv` | addon/extensions/task_force_radio_pipe/src/Voice/RemoteVoiceSource.cpp:62-159 | Over every run pending is the suffix of the enqueued frames without a fate and at most 10 long, every other frame was played, evicted or drained, exactly once, and the decoder saw the played ones in order. |
| `JitterBuffer.RunConcealment` | addon/extensions/task_force_radio_pipe/src/Voice/RemoteVoiceSource.cpp:133-159 | Concealment never runs more than 10 in a row and each row starts right after a decoded frame that is not a last frame. |
| `JitterBuffer.DecodesIff` | addon/extensions/task_force_radio_pipe/src/Voice/RemoteVoiceSource.cpp:103-131 | Over every run an audible pull with frames pending decodes the oldest if and only if the source is playing, four frames are there, or one of them is a last frame; otherwise it is silent and all stay. |
| `JitterBuffer.StartsWithFour` | addon/extensions/task_force_radio_pipe/src/Voice/RemoteVoiceSource.cpp:62-131 | Of a talkspurt without an end that arrives frame by frame, the first three pulls are silent and from the fourth on every pull decodes one frame, in order; none is evicted. |
| `JitterBuffer.PlayingIff` | addon/extensions/task_force_radio_pipe/src/Voice/RemoteVoiceSource.cpp:73-159 | Over every run the source is playing exactly when the last thing but concealment was a decoded frame that was not a last one. |
| `JitterBuffer.ConcealsTen` | addon/extensions/task_force_radio_pipe/src/Voice/RemoteVoiceSource.cpp:133-159 | When frames stop coming in mid-talkspurt ten pulls are concealed and all later ones silent. |
| `JitterBuffer.EvictsIff` | addon/extensions/task_force_radio_pipe/src/Voice/RemoteVoiceSource.cpp:62-66 | An arrival pushes out the oldest frame, and no other, if and only if ten are pending. |
| `JitterBuffer.InaudibleDrains` | addon/extensions/task_force_radio_pipe/src/Voice/RemoteVoiceSource.cpp:86-101 | A pull without an audible path empties the queue and ends the talkspurt. |
| `JitterBuffer.DrainsOnePerPull` | addon/extensions/task_force_radio_pipe/src/Voice/RemoteVoiceSource.cpp:103-159 | A queue that ends with an end frame decodes one frame per pull, in order. |
| `JitterBuffer.SilentAfterEnd` | addon/extensions/task_force_radio_pipe/src/Voice/RemoteVoiceSource.cpp:133-159 | With nothing pending after an end frame the source is not playing and every further pull is silent. |
| `JitterBuffer.EmptiesAfterEnd` | addon/extensions/task_force_radio_pipe/src/Voice/RemoteVoiceSource.cpp:73-159 | After an end frame as many pulls as frames are pending empty the queue and end the talkspurt for good. |
| `JitterBuffer.TalkspurtDelivered` | addon/extensions/task_force_radio_pipe/src/Voice/RemoteVoiceSource.cpp:73-159 | From microphone to decoder: once the sender is idle, as many pulls as frames are pending decode the rest; without overflow and always audible every sent frame is decoded once, in order, and no concealment follows. |
| `JitterBuffer.ClosedWireDelivered` | addon/extensions/task_force_radio_pipe/src/Voice/RemoteVoiceSource.cpp:73-159 | The same whatever the encoder did, as long as no talkspurt is open on the wire. |
| `Rendering.RemoteVoiceSource.EnqueueOpusFrame` | addon/extensions/task_force_radio_pipe/src/Voice/RemoteVoiceSource.cpp:62-66 | Appends, and evicts from the front beyond 10. |
| `Rendering.RemoteVoiceSource.ActivePaths` | addon/extensions/task_force_radio_pipe/src/Voice/RemoteVoiceSource.cpp:78-84 | Keeps exactly the unmuted paths with positive gain, in order. |
| `Rendering.RemoteVoiceSource.TakeFrame` | addon/extensions/task_force_radio_pipe/src/Voice/RemoteVoiceSource.cpp:86-159 | Drains while inaudible, holds back a short talkspurt, decodes, conceals or stays silent as the buffer step says. |
| `Rendering.RemoteVoiceSource.TryProduceNextFrame` | addon/extensions/task_force_radio_pipe/src/Voice/RemoteVoiceSource.cpp:73-193 | One attempt: a new frame from the decoder's history and the active paths, or nothing and an unchanged position. |
| `Rendering.RemoteVoiceSource.RenderInto` | addon/extensions/task_force_radio_pipe/src/Voice/RemoteVoiceSource.cpp:201-219 | Fills a request of any size as the recursive rendering does. |
| `Rendering.RenderNeverReplays` | addon/extensions/task_force_radio_pipe/src/Voice/RemoteVoiceSource.cpp:201-219 | Whatever the request size, what is heard continues the produced frames without skipping or repeating a sample. |
| `Rendering.RunNeverReplays` | addon/extensions/task_force_radio_pipe/src/Voice/RemoteVoiceSource.cpp:62-219 | Over every run of arrivals and requests, what was heard is a prefix of the produced frames. |
| `Rendering.RenderLength` | addon/extensions/task_force_radio_pipe/src/Voice/RemoteVoiceSource.cpp:201-219 | A request is always filled completely. |
| `Rendering.SilentOnlyWhenDry` | addon/extensions/task_force_radio_pipe/src/Voice/RemoteVoiceSource.cpp:201-219 | A request contains silence only if its last attempt to produce a frame came to nothing and the frame before is used up. |
| `Rendering.ActiveIs` | addon/extensions/task_force_radio_pipe/src/Voice/RemoteVoiceSource.cpp:78-84 | The paths heard are exactly the unmuted ones with positive gain, in order. |
| `Rendering.WholeFrameRequest` | addon/extensions/task_force_radio_pipe/src/Voice/PlaybackMixer.cpp:124-127 | The mixer's 960-frame request makes exactly one attempt and leaves the source at a frame boundary again. |
| `Capture.CaptureEngine.AppendNativeSamples` | addon/extensions/task_force_radio_pipe/src/Voice/WasapiCaptureEngine.cpp:59-72 | Extends the mono stream of the session by the means over the channels, whatever the buffer has already given up. |
| `Capture.MixDown` | addon/extensions/task_force_radio_pipe/src/Voice/WasapiCaptureEngine.cpp:67-71 | Each mono sample is the mean of its frame's channels. |
| `Capture.CaptureEngine.ResampleAndEmit` | addon/extensions/task_force_radio_pipe/src/Voice/WasapiCaptureEngine.cpp:74-107 | Afterwards the emitted frames and a leftover below 960 are the one cut of the one-shot resampling of the whole stream so far. |
| `Capture.CaptureEngine.DropConsumed` | addon/extensions/task_force_radio_pipe/src/Voice/WasapiCaptureEngine.cpp:100-106 | Dropping consumed samples and shifting the cursor changes nothing the session has computed or will compute. |
| `Capture.CaptureSession` | addon/extensions/task_force_radio_pipe/src/Voice/WasapiCaptureEngine.cpp:59-107 | A whole session emits the 960-sample cut of the one-shot resampling of the concatenated recording, and that is linear interpolation of its channel means, with one sample for each 48 kHz position before the last recorded one. |
| `Capture.SessionLinear` | addon/extensions/task_force_radio_pipe/src/Voice/WasapiCaptureEngine.cpp:74-107 | Said of the emitted samples alone: each is its two recorded neighbours weighted by how near it is to either, straight lines p i + q become p k rate / 48000 + q, and at 48 kHz the recording passes through without its last sample. |
| `Capture.MonoIsMean` | addon/extensions/task_force_radio_pipe/src/Voice/WasapiCaptureEngine.cpp:64-71 | Wherever a frame stands in a recording, its mono sample times the number of channels is the sum of its channels. |
| `Capture.ToMono` | addon/extensions/task_force_radio_pipe/src/Voice/WasapiCaptureEngine.cpp:59-72 | One channel passes as it is, more are mixed down. |
| `Capture.PacketisationIndependent` | addon/extensions/task_force_radio_pipe/src/Voice/WasapiCaptureEngine.cpp:74-107 | However a recording is cut into packets, the emitted frames and the leftover are the same. |
| `Capture.CutUnique` | addon/extensions/task_force_radio_pipe/src/Voice/WasapiCaptureEngine.cpp:93-97 | A signal has one cut into 960-sample frames and a shorter rest. |
| `Capture.DownmixConcat` | addon/extensions/task_force_radio_pipe/src/Voice/WasapiCaptureEngine.cpp:67-71 | Mixing down does not see packet boundaries. |
| `Playback.GenerateChunk` | addon/extensions/task_force_radio_pipe/src/Voice/PlaybackMixer.cpp:120-169 | Every frame of a chunk is, in either ear, the sum of all sources and the local beep, times the volume, limited to x / (1 + |x|), or silence when muted. |
| `Playback.MixedFrameMixes` | addon/extensions/task_force_radio_pipe/src/Voice/PlaybackMixer.cpp:120-169 | The same of each frame by itself. |
| `Playback.LimitOrder` | addon/extensions/task_force_radio_pipe/src/Voice/PlaybackMixer.cpp:141-149 | What is louder before the limiter stays louder behind it. |
| `Playback.StreamAt` | addon/extensions/task_force_radio_pipe/src/Voice/PlaybackMixer.cpp:330-332 | Frame i of chunk k stands at place 960 k + i of what is played. |
| `Playback.AddRender` | addon/extensions/task_force_radio_pipe/src/Voice/PlaybackMixer.cpp:124-127 | Adds one source to the mix sample by sample. |
| `Playback.ChunkInside` | addon/extensions/task_force_radio_pipe/src/Voice/PlaybackMixer.cpp:141-149 | Every sample of a chunk lies strictly inside (-1, 1). |
| `Playback.PlaybackEngine.Refill` | addon/extensions/task_force_radio_pipe/src/Voice/PlaybackMixer.cpp:330-332 | Generates chunks until the cursor has both neighbours, and not one more, and ends. |
| `Playback.PlaybackEngine.Request` | addon/extensions/task_force_radio_pipe/src/Voice/PlaybackMixer.cpp:329-383 | Delivers the next frames of the one-shot resampling of the chunk stream, whatever was delivered and dropped before. |
| `Playback.PlaybackEngine.DropConsumed` | addon/extensions/task_force_radio_pipe/src/Voice/PlaybackMixer.cpp:376-382 | Dropping consumed frames and shifting the cursor changes nothing that was or will be played. |
| `Playback.PlaybackSession` | addon/extensions/task_force_radio_pipe/src/Voice/PlaybackMixer.cpp:329-383 | For every device rate and every sequence of requests the output is the linear interpolation, in each ear by itself, of the concatenated chunks, each generated once and only when needed; as many frames as requested, and no sample reaches full scale. |
| `Playback.ReadOffLinear` | addon/extensions/task_force_radio_pipe/src/Voice/PlaybackMixer.cpp:333-341 | Said of the output alone: in each ear every sample is its two neighbours weighted by how near it is to either, so that straight lines are kept but for the change of rate, and at 48 kHz everything passes through. |
| `Playback.LazyUnique` | addon/extensions/task_force_radio_pipe/src/Voice/PlaybackMixer.cpp:330-332 | How many chunks are generated depends only on how many frames were delivered. |
| `Playback.LookAhead` | addon/extensions/task_force_radio_pipe/src/Voice/PlaybackMixer.cpp:330-332 | Unread look-ahead never exceeds 961 frames. |
| `Playback.OneShotInside` | addon/extensions/task_force_radio_pipe/src/Voice/PlaybackMixer.cpp:337-340 | Interpolating between limited frames never reaches full scale. |
| `Interpolation.OneShotExtends` | addon/extensions/task_force_radio_pipe/src/Voice/WasapiCaptureEngine.cpp:82-98 | More input never changes outputs already computed. |
| `Interpolation.ReadOffBetween` | addon/extensions/task_force_radio_pipe/src/Voice/WasapiCaptureEngine.cpp:85-91 | Every output read off a stream is its two neighbours weighted by how near the position is to either. |
| `Interpolation.RampKept` | addon/extensions/task_force_radio_pipe/src/Voice/WasapiCaptureEngine.cpp:82-91 | Resampling stretches a straight line and does nothing else to it. |
| `Interpolation.Passthrough` | addon/extensions/task_force_radio_pipe/src/Voice/WasapiCaptureEngine.cpp:77-91 | At equal rates nothing is changed. |
| `Interpolation.AtShifted` | addon/extensions/task_force_radio_pipe/src/Voice/WasapiCaptureEngine.cpp:100-106 | Dropping input and shifting the cursor by it leaves the interpolated value and its readiness alone. |
| `Interpolation.NextOutput` | addon/extensions/task_force_radio_pipe/src/Voice/PlaybackMixer.cpp:330-341 | The next output read through a dropped prefix is the next output of the one-shot form, and is ready when that is. |
| `Towers.RadioTowers.HandleAddRadioTowers` | addon/extensions/task_force_radio_pipe/src/State.cpp:276-302 | Each well-formed line replaces the tower with its id in place or is appended; malformed lines and empty ids are skipped. |
| `Towers.RadioTowers.HandleDelRadioTowers` | addon/extensions/task_force_radio_pipe/src/State.cpp:304-318 | Each listed id loses its first match. |
| `Towers.RadioTowers.AntennaLoss` | addon/extensions/task_force_radio_pipe/src/State.cpp:538-562 | The loop computes the loss over the towers, with its sentinel when none is usable. |
| `Towers.PutRefines` | addon/extensions/task_force_radio_pipe/src/State.cpp:290-300 | Replacing in place or appending is an update of the table by id, and keeps ids unique. |
| `Towers.EraseRefines` | addon/extensions/task_force_radio_pipe/src/State.cpp:304-318 | Erasing the first match removes the id from the table. |
| `Towers.LineRead` | addon/extensions/task_force_radio_pipe/src/State.cpp:281-288 | A line put together from fields reads as the tower with that id, range and position, or is skipped unless it has three fields and an id. |
| `Towers.PayloadRead` | addon/extensions/task_force_radio_pipe/src/State.cpp:276-302 | A payload put together from such lines reads as the towers they describe, in order. |
| `Towers.AddedAre` | addon/extensions/task_force_radio_pipe/src/State.cpp:290-300 | After a list of towers there are, of every id, the last tower of the list, or the one there was if the list has none. |
| `Towers.DeletedAre` | addon/extensions/task_force_radio_pipe/src/State.cpp:304-318 | After a list of ids exactly the towers with one of them are gone. |
| `Towers.VectorRefinesTable` | addon/extensions/task_force_radio_pipe/src/State.cpp:276-343 | Under any messages the vector holds each id once and stands for the table those messages describe. |
| `Towers.LossIsLeast` | addon/extensions/task_force_radio_pipe/src/State.cpp:538-562 | The loss is the least over all usable towers with a loss below 1, attained by one of them, or 7. |
| `Towers.LossIs` | addon/extensions/task_force_radio_pipe/src/State.cpp:538-562 | The loss is 7 without a range or a tower in reach of both, and otherwise the least sum of the shares of tower range and sender range over the towers in reach of both, if that is below 1. |
| `Towers.LossFromTable` | addon/extensions/task_force_radio_pipe/src/State.cpp:538-562 | The loss depends only on which towers there are, not on their order. |
| `Towers.PutLoss` | addon/extensions/task_force_radio_pipe/src/State.cpp:290-300 | Adding or moving a tower leaves the better of it and the others. |
| `Reception.AddRadio` | addon/extensions/task_force_radio_pipe/src/State.cpp:617-673 | At most one path in the listener's own radio, and whether ducking is asked for. |
| `Reception.AddSpeakers` | addon/extensions/task_force_radio_pipe/src/State.cpp:685-748 | One path for each audible speaker tuned to the sender, in order. |
| `Reception.AddTransmission` | addon/extensions/task_force_radio_pipe/src/State.cpp:601-750 | Adds nothing if the sender spectates or is neither within the range nor connected over a tower, and otherwise one unit in the radio if a tuned set hears it, then one for each speaker that does, each unit described; and says when the intercom is ducked. |
| `Reception.HeardAdds` | addon/extensions/task_force_radio_pipe/src/State.cpp:601-750 | The same of the units by themselves. |
| `Reception.RadioPathIff` | addon/extensions/task_force_radio_pipe/src/State.cpp:622-672 | The radio hears a transmission if and only if the set that wins, the usable long-range one before the short-range one, is not the one transmitted with in half duplex, the subtype is one of five, and the volume is positive; with its stereo side, a tenth as loud under a lowered headset, and with the lesser of distance share and loss for error. |
| `Reception.SpeakerPathIff` | addon/extensions/task_force_radio_pipe/src/State.cpp:687-747 | A speaker sounds if and only if it is somebody else's, tuned to the frequency, at a known place above water, and its gain is positive. |
| `Reception.SpeakerGainIs` | addon/extensions/task_force_radio_pipe/src/State.cpp:709-739 | A speaker is heard through air from the own vehicle or between hardly isolated ones, and muffled otherwise, by at most 0.99. |
| `Reception.UnderWaterCounts` | addon/extensions/task_force_radio_pipe/src/State.cpp:652-662 | Under water a metre counts as many as the range has in what the waves leave of 300 m. |
| `Reception.DuckingIff` | addon/extensions/task_force_radio_pipe/src/State.cpp:670 | Ducking is asked for by a usable long-range set turned above 2 that is not transmitted with. |
| `Reception.NearerHelps` | addon/extensions/task_force_radio_pipe/src/State.cpp:611-750 | A smaller effective distance takes no path away and raises no error. |
| `Reception.LowerLossHelps` | addon/extensions/task_force_radio_pipe/src/State.cpp:617-750 | A smaller loss takes no path away and gives none more error. |
| `Reception.NewTowerHelps` | addon/extensions/task_force_radio_pipe/src/State.cpp:601-750 | A new tower never removes a radio or speaker path of anybody and never raises its error level. |
| `Utf8.TruncateUtf8` | addon/extensions/task_force_radio_pipe/src/Voice/Protocol.cpp:9-19 | On any bytes it ends with a prefix within the limit. |
| `Utf8.TruncatedIsLongest` | addon/extensions/task_force_radio_pipe/src/Voice/Protocol.cpp:9-19 | Of a well-formed text exactly the longest prefix of whole code points that fits is kept. |
| `Utf8.LongestUnique` | addon/extensions/task_force_radio_pipe/src/Voice/Protocol.cpp:9-19 | There is only one such prefix. |
| `Utf8.TruncatedValid` | addon/extensions/task_force_radio_pipe/src/Voice/Protocol.cpp:9-19 | A truncated well-formed text is well-formed. |
| `Utf8.DecodeEncode` | voice-server/src/Tfrs.VoiceServer/Protocol.cs:93-98 | Decoding gives back every text that was encoded. |
| `Utf8.EncodeDecode` | voice-server/src/Tfrs.VoiceServer/Protocol.cs:147-156 | What decodes is the encoding of what it decodes to. |
| `Utf8.ValidIff` | voice-server/src/Tfrs.VoiceServer/Protocol.cs:147-156 | The byte sequences of the grammar in section 4 of RFC 3629 are exactly the encodings of section 3. |
| `Wire.PacketWriter.WriteByte` | addon/extensions/task_force_radio_pipe/src/Voice/Protocol.cpp:25-28 | Appends the byte, or refuses and changes nothing when the buffer is full. |
| `Wire.PacketWriter.WriteUInt16` | addon/extensions/task_force_radio_pipe/src/Voice/Protocol.cpp:30-34 | Appends two bytes, or refuses and changes nothing. |
| `Wire.PacketWriter.WriteUInt32` | addon/extensions/task_force_radio_pipe/src/Voice/Protocol.cpp:36-42 | Appends four bytes, or refuses and changes nothing. |
| `Wire.PacketWriter.WriteString8` | addon/extensions/task_force_radio_pipe/src/Voice/Protocol.cpp:44-55 | Appends length and bytes, or refuses a string over 255 bytes or too long for the buffer and changes nothing. |
| `Wire.PacketWriter.WriteBytes` | addon/extensions/task_force_radio_pipe/src/Voice/Protocol.cpp:57-63 | Appends the bytes, or refuses and changes nothing. |
| `Wire.PacketWriter.WriteText` | voice-server/src/Tfrs.VoiceServer/Protocol.cs:93-98 | The relay's string: length byte and encoding, refused when the buffer is too small. |
| `Wire.PacketReader.ReadByte` | addon/extensions/task_force_radio_pipe/src/Voice/Protocol.cpp:69-72 | Takes the next byte, or fails where it stands. |
| `Wire.PacketReader.ReadUInt16` | addon/extensions/task_force_radio_pipe/src/Voice/Protocol.cpp:74-80 | Takes a little-endian value, or fails where it stands. |
| `Wire.PacketReader.ReadUInt32` | addon/extensions/task_force_radio_pipe/src/Voice/Protocol.cpp:82-90 | Takes a little-endian value, or fails where it stands. |
| `Wire.PacketReader.ReadString8` | addon/extensions/task_force_radio_pipe/src/Voice/Protocol.cpp:92-99 | Takes a string within the limit, or fails behind its length byte. |
| `Wire.PacketReader.ReadText` | voice-server/src/Tfrs.VoiceServer/Protocol.cs:147-156 | The relay's string: decoded, too long or cut off, or without a length byte. |
| `Wire.PacketReader.ReadRemaining` | addon/extensions/task_force_radio_pipe/src/Voice/Protocol.cpp:101-106 | Takes everything that is left. |
| `Wire.TakePutU16` | addon/extensions/task_force_radio_pipe/src/Voice/Protocol.cpp:74-80 | A 16-bit value reads back in front of anything. |
| `Wire.TakePutU32` | addon/extensions/task_force_radio_pipe/src/Voice/Protocol.cpp:82-90 | A 32-bit value reads back in front of anything. |
| `Wire.LittleEndian` | addon/extensions/task_force_radio_pipe/src/Voice/Protocol.cpp:30-42 | The low byte of a number comes first. |
| `Wire.TakePutStr8` | addon/extensions/task_force_radio_pipe/src/Voice/Protocol.cpp:92-99 | A string reads back in front of anything if and only if it is within the reader's limit. |
| `Codec.EncodeRadioTx` | addon/extensions/task_force_radio_pipe/src/Voice/VoiceNetworkClient.cpp:387-400 | The update always fits its 38-byte buffer and is the layout of the truncated fields. |
| `Codec.EncodeVoice` | addon/extensions/task_force_radio_pipe/src/Voice/VoiceNetworkClient.cpp:366-385 | A frame of 1 to 500 bytes fits its buffer; nothing is sent for any other. |
| `Codec.EncodeConnectRequest` | addon/extensions/task_force_radio_pipe/src/Voice/VoiceNetworkClient.cpp:190-204 | The request always fits its buffer and is the layout of the truncated identity. |
| `Codec.HandlePacket` | addon/extensions/task_force_radio_pipe/src/Voice/VoiceNetworkClient.cpp:306-355 | Reads each message kind field by field and drops malformed datagrams. |
| `Codec.ParseConnectRequest` | voice-server/src/Tfrs.VoiceServer/RelayServer.cs:106-138 | Tells a wrong version, a malformed request, a packet that is dropped and a complete request apart. |
| `Codec.EncodeClientJoined` | voice-server/src/Tfrs.VoiceServer/RelayServer.cs:355-364 | The announcement, or nothing when its strings overrun the 79-byte buffer. |
| `Codec.RelayVoice` | voice-server/src/Tfrs.VoiceServer/RelayServer.cs:224-246 | The relayed frame fits its buffer, or the packet is dropped. |
| `Codec.EncodeBroadcast` | voice-server/src/Tfrs.VoiceServer/RelayServer.cs:271-279 | The broadcast, or nothing when its strings overrun the 42-byte buffer. |
| `Codec.RelayRadioTx` | voice-server/src/Tfrs.VoiceServer/RelayServer.cs:251-286 | From the update's bytes to the broadcast's bytes, or nothing. |
| `Messages.TransmissionThroughRelay` | voice-server/src/Tfrs.VoiceServer/RelayServer.cs:251-286 | A transmission with well-formed strings reaches the other clients with the fields it was announced with, cut to the limits, and the sender's id. |
| `Messages.VoiceThroughRelay` | voice-server/src/Tfrs.VoiceServer/RelayServer.cs:217-246 | A voice frame reaches the other clients with its sequence, end flag and payload, and the sender's id. |
| `Messages.RequestRoundTrip` | voice-server/src/Tfrs.VoiceServer/RelayServer.cs:106-138 | The relay reads hash, uid and name of a request as they were sent. |
| `Messages.RequestRead` | voice-server/src/Tfrs.VoiceServer/RelayServer.cs:106-138 | Byte by byte, when a request is dropped, of a wrong version, malformed or complete, and where its hash, uid and name stand. |
| `Messages.IdentityThroughRelayIff` | voice-server/src/Tfrs.VoiceServer/RelayServer.cs:159-165 | The other clients learn uid and name of an accepted request if and only if the name is not empty or the uid is at most 32 bytes; otherwise they learn nothing. |
| `Messages.LeftRoundTrip` | voice-server/src/Tfrs.VoiceServer/RelayServer.cs:376-382 | A departure reads back with its session id. |
| `Messages.VoiceBytes` | addon/extensions/task_force_radio_pipe/src/Voice/VoiceNetworkClient.cpp:366-385 | A voice packet is its type, on the way down the sender, then sequence, flags and frame. |
| `Messages.TransmissionBytes` | addon/extensions/task_force_radio_pipe/src/Voice/VoiceNetworkClient.cpp:387-400 | A transmission is its type, on the way down the sender, then activity, frequency, range and subtype. |
| `Messages.RosterBytes` | voice-server/src/Tfrs.VoiceServer/RelayServer.cs:355-382 | A request is type, version, hash, uid and name; an announcement type, id, uid and name; a departure type and id. |
| `Text.Split` | addon/extensions/task_force_radio_pipe/src/Util.cpp:64-76 | The loop computes the tokens of the string. |
| `Text.SplitLimit` | addon/extensions/task_force_radio_pipe/src/Util.cpp:78-93 | The first tokens of the unlimited split, as many as allowed. |
| `Text.TokensIff` | addon/extensions/task_force_radio_pipe/src/Util.cpp:64-76 | The tokens are the one sequence of delimiter-free pieces that joins to the string. |
| `Text.JoinInjective` | addon/extensions/task_force_radio_pipe/src/Util.cpp:64-76 | Delimiter-free pieces can be recovered from their joining. |
| `Text.ConvertNickname` | addon/extensions/task_force_radio_pipe/src/Util.cpp:109-125 | Outer spaces, and only those, become underscores; the length stays. |
| `Text.ConvertIdempotent` | addon/extensions/task_force_radio_pipe/src/Util.cpp:109-125 | Converting twice is converting once. |
| `Text.SpeakingPair` | addon/extensions/task_force_radio_pipe/src/State.cpp:345-368 | Two characters for the converted name: the first is 1 if that client is talking on the radio, or is oneself with the button pressed or transmitting; the second if it is being received, or anything is if it is oneself; 00 for a stranger. |
| `Text.BulkReply` | addon/extensions/task_force_radio_pipe/src/CommandProcessor.cpp:109-119 | The answers for the names after the command, each followed by a tab. |
| `Text.BulkReplySplits` | addon/extensions/task_force_radio_pipe/src/CommandProcessor.cpp:109-119 | The reply to n names is 3n characters long and splits back into n pairs and one empty token. |
| `Text.BulkRoundTrip` | addon/extensions/task_force_radio_pipe/src/CommandProcessor.cpp:109-119 | For a query put together from n names without tabs the k-th answer stands at position 3k. |

## Left out

- Relay: session ids do not wrap at 32 bits, the clock is monotone, and the handling of one packet is not interleaved with another or with the sweep.
- Relay: a transmission whose ill-formed text no longer fits the broadcast's buffer is the same event as one that does not parse.
- RosterView.RosterAgreement: assumes lossless in-order delivery; under reordering a late ClientJoined can leave a ghost entry that a roster reply does not remove.
- NetClient: the handshake is an input (its outcome and time), each turn of the loop reads the clock once, and socket errors as well as thread start and stop are not modelled.
- RadioReceiver.CountsOnlyIfHeard: each tick reads the clock once, where the code reads it once for the cache and once per forwarded entry.
- RadioReceiver: which uid a session has is an input of a delivery (`VoiceSession.VoiceSession.OnRadioTx` finds it), and the reported names and known clients are an input of a tick.
- VoiceSession.VoiceSession.OnRadioTx: which clip a cue plays, and that it plays none without a source or a clip, is not modelled.
- Transmit: levels arrive as root mean squares and the encoder as the payload it returned; noise suppression, PCM conversion and log lines are left out.
- Rendering.RemoteVoiceSource.RenderInto: the decoder and effect chains are one given function of what was decoded so far and the active paths, audible paths do not change inside one call, and the beep overlay is not modelled.
- Playback.GenerateChunk: what each source renders for a chunk is an input; 16-bit output conversion and the phantom-audio log are left out.
- Capture, Playback: floating-point rounding of samples and of the cursor is not modelled.
- Reception: distances, the attenuation, muffling and azimuth formulas, extrapolated positions and the underwater distance are given functions; volume settings are integers.
- Reception: direct speech, the intercom and the spectator rules before them do not depend on towers and are left out, and so is the ducking a louder long-range reception causes one tick later.
- Towers: reading a number or a vector out of a payload field is a given function.
- Utf8, Wire: what the relay's decoder makes of ill-formed bytes is a given function.
- Messages: the accept, reject, ping and pong messages and the password hash computation are left out; they would add only easy members.
- Text: command dispatch, the not-connected grace period and the settings commands are left out; they would add only easy members.
- Audio devices, logging, configuration files, SQF scripts and server option parsing are left out.
