# A verified model of MPCC

MPCC is a chat server with one thread per client, and its client program. This project models
both in Dafny 4.11 and proves what they promise: over all interleavings of any number of
clients, over all byte strings on the wire and in the registry file, and over all schedules of
the two ends of a connection. `dafny verify dfyconfig.toml` checks everything.

## How it is built

Programs that change state step by step are classes whose methods are proved against functions;
the lemmas are about these functions.

- **Wire** (`Messages`, `Cipher`, `Streams`): frames, the XOR cipher, and `recv_line`, which both
  programs share. Bytes are characters below 256.
- **Accounts** (`FileIo`, `Directories`, `Registry`, `Accounts`): the file that is rewritten on
  every registration refines a map that only grows, over failing writes and restarts.
- **Tables** (`Sessions`, `ClientTables`, `Broadcast`, `RoomTables`, `RoomManager`,
  `ThreadGroup`, `Server`): sessions, client list with name index, rooms, threads.
- **Concurrency** (`ServerSystem`, `ServerInvariant`, `ServerSteps`, `ServerTheorems`,
  `ServerRuns`): handlers and the main thread as a step system. A critical section is one step; the
  compare-and-swap, the `::close` and the reset of a descriptor are separate steps. The room and
  client tables change by the very functions that the classes are proved against. Ghost histories
  record closes, deletes, menus, deliveries and joins. On top of it: `ServerSpeech` (whom a line is
  for), `ServerHearing` (handlers do what their clients say, once and in order), `ServerPresence`
  (who is connected, and for how long), `ServerOrder` (order of delivery, progress).
- **Authentication** (`AuthProtocol`, `Lockstep`, `Interference`): client and server as two
  machines over FIFO channels of encrypted bytes, in which the lines of other handlers arrive as
  well once the session is listed. `Dialogue` and `ClientDialogue` run one machine to its end, and
  `ClientHandler` and `Client` are proved to do what these runs say. `Admission` proves who gets in
  and who does not; `ServerLogins` ties its attempts to those of the step system.
- **Chat** (`ChatCommands`, `Delivery`, `ChatSessions`, `ClientHandler`, `Client`,
  `Conversation`): what a typed line means to the server, where it takes the session, what every
  session receives and what its client shows.

The class contracts describe a handler that no other thread interrupts; the interleavings are the
business of the step system. In the handler's contracts the ghost parameter `p` is any session, so
they hold for all of them.

Outside events are parameters: what `::recv`, `::send`, `::accept`, `::mkdir` and the disk return,
what the user types, and whether a thread was created.

## Where code and expectation differ

- `ServerTheorems.IndexIsExactIff`: distinct names of the connected sessions do not make the name
  index exact. If a user logs in twice and the newer session leaves, the older one stays connected
  but gets no private messages (`ClientTables.OlderLoginLosesItsEntry`). The index is exact all
  along a run iff each login finds no entry under its name.
- `Interference.AlignedIffUndisturbed`: the server lists a session before it sends OK, so a line of
  another user can reach the client in between. The client takes it for a refusal and goes back to
  its menu while the server is in the chat; OK then comes in the menu slot, and what the user types
  next is relayed as chat (`Interference.ClientMissesOk`, `Interference.FailingRun`,
  `Interference.StrayChoiceIsSaid`). `ServerSystem` has the same window: at `Entering` a session
  takes deliveries. The two programs keep in step in exactly the runs without such a line.
- `Lockstep.GoodbyeIsLast`: the server may give up while the client is still reading; the client
  finds the goodbye where it expects a fourth menu, asks the user once more and gets no answer.
- `Messages.ParseSerialiseRoundTrip`: `Message::parse` strips every trailing CR and LF, although
  `include/mpcc/core/message.h` speaks of one newline, so payloads that end in CR or LF change.
- The room tag is added by the handler and again by the room manager; the payload carries it twice.
- `Registry.FoundAfterRegistration`: the registry accepts names with a colon or a newline but can
  never find them again; the handler's name check keeps them out.
- `recv_line` gives "" for a blank line as for a lost peer, so a blank line ends the chat.

## Model

| member | source | states |
|---|---|---|
| ServerSteps.StepKeepsInv | src/server/client_handler.cpp:331-366 | every step of any handler or of the main thread, from any state in which program counters, room table, client list, name index, descriptors, inboxes and thread group agree, leads to such a state |
| ServerSteps.ReachableInv | src/server/client_handler.cpp:63-78 | that agreement holds in every reachable state, for any number of clients and every interleaving |
| ServerTheorems.AtMostOneRoom | src/server/client_handler.cpp:205-305 | a session in a room has that room as its current room, is in no other, and no room in the table is empty |
| ServerTheorems.ChattersAreInTheirRoom | src/server/client_handler.cpp:214-304 | between two commands a session is a member of exactly its current room, or of none when that is empty |
| ServerTheorems.ReferencedIsAlive | src/server/client_handler.cpp:354-366 | no client list, name index, room or running shutdown sweep ever refers to a session that is being closed by its handler, being destroyed or deleted |
| ServerTheorems.RoomsAreDetermined | src/server/room_manager.cpp:23-54 | in reachable states the positions of the handlers determine the room table, whatever led there |
| ServerTheorems.ClosedOnce | src/core/session.cpp:27-65 | a descriptor is never closed twice, never worked on by handler and sweep at once, and is closed exactly once when the handler is done |
| ServerTheorems.NothingIsLeft | src/server/client_handler.cpp:354-366 | when all handlers are done the tables are empty and each session was deleted once and its descriptor closed once |
| ServerTheorems.ShutdownIsComplete | src/server/server.cpp:83-98 | shutdown ends only after every handler thread was joined exactly once, in order of arrival, and nothing is left |
| ServerTheorems.VisibleIsAuthenticated | src/server/client_handler.cpp:133-202 | whoever is connected or in a room has a valid name that belongs to an account |
| ServerPresence.ListIsWhoIsConnected | src/server/broadcast_manager.cpp:32-55 | until shutdown clears it the client list holds exactly the sessions between add_client and remove_client |
| ServerOrder.WhoIsLetInGetsIn | src/server/client_handler.cpp:166-171 | over every run whoever the registry lets in keeps the name and reaches the client list before any cleanup |
| ServerLogins.AttemptRefinesSteps | src/server/client_handler.cpp:336-347 | an attempt on the wire and the steps of the concurrent handler decide alike: chat under the same name, next menu or end, and the same accounts in file and step system |
| ServerLogins.NoMenuNoChat | src/server/client_handler.cpp:116-352 | over every run a handler whose menu cannot be sent, or whose attempts are used up, cleans up and does nothing else |
| ServerTheorems.HandlerBounds | src/server/client_handler.cpp:331-352 | at most three menus and one add_client per handler, and no room membership before it |
| ServerTheorems.NamesNeverChange | src/core/session.cpp:94-105 | along a run a session keeps its name and accounts keep their passwords |
| ServerTheorems.NameIndex | src/server/broadcast_manager.cpp:32-55 | the index has an entry for u iff the session added last under u is still connected; the entry is that session and the last of its name in a list without duplicates |
| ServerTheorems.IndexIsExactIff | src/server/broadcast_manager.cpp:32-55 | along a run the index is exactly the index of the client list in every state iff every add_client finds no entry under its name |
| ServerTheorems.RoomSnapshot | src/server/client_handler.cpp:297-303 | the lookup of the speaker's room never misses, and every member in the snapshot is alive and has that current room (that the line goes to this snapshot: RoomLineGoesToTheRoom) |
| ServerTheorems.DeliveredOnce | src/server/broadcast_manager.cpp:107-120 | a line that is out has a fate at each member of its audience, is in the inbox once where it was sent and nowhere else |
| ServerSpeech.LineIsSnapshot | src/server/client_handler.cpp:282-302 | over every run each line was taken at one event, whose handler it names as speaker, under the session's name then, with scope, text and audience read off the state before it |
| ServerSpeech.RoomLineGoesToTheRoom | src/server/room_manager.cpp:64-73 | over every run the audience of a room line is exactly the room's members when it was said: all have it as their current room, and whoever is in recv_line with that current room is among them |
| ServerSpeech.LineGoesToEverybody | src/server/broadcast_manager.cpp:63-73 | over every run the audience of a line said in no room is exactly the active connected sessions of another name |
| ServerSpeech.PmGoesToTheIndexed | src/server/broadcast_manager.cpp:86-95 | over every run the audience of a private line is exactly the session that the index gave, which was active |
| ServerHearing.HandlersDoAsTheyHear | src/server/client_handler.cpp:214-304 | over every run a handler in recv_line has as current room the one its lines lead to from the lobby, what it moves to or says is what its last line asks for, and it cleans up after the first quit only |
| ServerHearing.EachLineIsSaidOnce | src/server/client_handler.cpp:297-303 | over every run the lines a handler has said, each to the room it was in, are those its lines ask for, in order, but for one that it is about to say |
| ServerOrder.ArrivesInOrder | src/server/broadcast_manager.cpp:107-120 | over every run one user's lines arrive at any session in the order in which they were said |
| ServerPresence.NothingArrivesAfterAFailure | src/core/session.cpp:36-55 | over every run a failed send is the last one that is tried: nothing arrives at the session afterwards |
| ServerRuns.DeliveredByOneEvent | src/server/broadcast_manager.cpp:107-120 | over every run: each member of a finished line's audience is tried by exactly one event, and has the line once iff just before that event it was alive, active and (in a room) no namesake, and the send succeeded |
| ServerRuns.OnlyTheAudience | src/server/broadcast_manager.cpp:107-120 | over every run nobody outside the audience is tried or has the line |
| ServerTheorems.RoomLinesAreUnambiguous | src/server/room_manager.cpp:75-79 | in every reachable state two room lines with equal payload have the same sender, room and text |
| ServerTheorems.HandlerNeverStuck | src/server/client_handler.cpp:63-78 | a handler that is not done can take a step, except that during the shutdown sweep those about to lock the client list wait: add_client, remove_client, a private message, a broadcast without a room |
| ServerTheorems.AnythingCanHappen | src/server/client_handler.cpp:113-233 | no menu result, choice, registry answer, line, send result, new client or shutdown is excluded where it can come |
| ServerOrder.EveryStepGetsOn | src/server/client_handler.cpp:205-366 | in every reachable state each step of a handler but the reading of a line, and the failure of an answer, which moves nothing, brings it nearer to recv_line or to its end |
| ServerOrder.ShutdownGetsOn | src/server/server.cpp:83-98 | every step of shutdown lowers a measure |
| ServerOrder.ShutdownOnlyWaitsForJoins | src/server/server.cpp:83-98 | in every reachable state shutdown can go on, or waits for a thread that is not done |
| ServerPresence.ShutdownReachesEverybody | src/server/broadcast_manager.cpp:128-142 | over every run whoever is in the client list when shutdown begins is inactive when the sweep is over |
| ServerTheorems.CleanupGoesOn | src/server/client_handler.cpp:354-366 | whatever happens, a handler that cleans up stays at it, and each step of its own brings it nearer to the end |
| ServerRuns.CleanupIsShort | src/server/client_handler.cpp:354-366 | in every run a handler that has begun to clean up is done after ten steps of its own at most, and until then it can take the next one, unless it waits for the client list during the sweep; so the join of its thread returns |
| ServerTheorems.SweepFinishes | src/server/broadcast_manager.cpp:128-142 | the sweep under the lock always has a next step and each makes it shorter |
| ServerTheorems.RegistryFileRefinesSteps | src/server/user_registry.cpp:101-135 | on a file that stands for the accounts, register_user and authenticate give the answers and the accounts of the step system |
| ServerRuns.FileIsTheAccounts | src/server/user_registry.cpp:101-135 | along every run of racing handlers and failing writes the text of the registry file stands for the accounts |
| ServerRuns.RegisteredOnce | src/server/user_registry.cpp:101-119 | over every run at most one event registers a name, and its password stays |
| ServerRuns.FileRemembersRegistration | src/server/user_registry.cpp:121-135 | after that event the file lets the name in with exactly that password, at every later point of the run |
| Handlers.ClientHandler.TryAuthenticate | src/server/client_handler.cpp:331-352 | up to three attempts: the dialogue is that of the protocol's server machine, to its end or to the message in which the connection broke; a refused client leaves no trace; what the machine decides is the subject of the rows of Admission |
| Handlers.ClientHandler.Authenticate | src/server/client_handler.cpp:331-352 | what was written is a prefix of what that machine writes, and all of it iff the connection holds; whoever gets in, even if the welcome breaks off, leaves input and file as the machine does, and on a well-formed file has, in the resulting one, an account whose password is the last line read before the chat (after a registration a new and valid name) |
| Handlers.ClientHandler.Converses | src/server/client_handler.cpp:331-352 | the same dialogue, for any registry file |
| Admission.LoginIsJudged | src/server/client_handler.cpp:175-202 | at each of the three menus a name and password that match the map are let in with the welcome, everything else is refused and leads to the next menu |
| Admission.RegistrationIsJudged | src/server/client_handler.cpp:133-172 | an acceptable name and password are let in iff the name is new and the file can be written; then the map has exactly this account more |
| Admission.BadNameIsRefused | src/server/client_handler.cpp:139-143 | any other name is refused before a password is asked for |
| Admission.BadPasswordIsRefused | src/server/client_handler.cpp:149-153 | so is a password over 128 bytes or with a colon |
| Admission.OtherChoiceIsRefused | src/server/client_handler.cpp:337-346 | neither 1 nor 2: refused and asked again, or the end if negative |
| Admission.LostAnswerEndsTheAttempt | src/server/client_handler.cpp:145-147 | without a password the attempt ends in silence |
| Admission.ThreeAttemptsOnly | src/server/client_handler.cpp:349-351 | in place of a fourth menu comes the goodbye |
| Admission.OneAttempt | src/server/client_handler.cpp:336-347 | any attempt ends in the chat, at the next menu or at the end; it lets in exactly those whose last three lines are a choice, a name and its password, and changes the file for a new account only |
| Admission.WhoGetsIn | src/server/client_handler.cpp:331-352 | from any menu on, whoever gets in has an account in the resulting file whose password is the last line before the chat, and whoever does not leaves the file as it was |
| Handlers.ClientHandler.Tell | src/server/client_handler.cpp:83-87 | a message goes out as the machine's, or the dialogue stops in the middle of it for good |
| Handlers.ClientHandler.PresentMenu | src/server/client_handler.cpp:113-130 | the menu and the understanding of the answer are one exchange of the server machine; -1 if it breaks |
| Handlers.ClientHandler.HandleRegister | src/server/client_handler.cpp:133-172 | an attempt to register follows the machine or breaks off, lists the session under its new name on success only, and leaves the file alone on failure |
| Handlers.ClientHandler.HandleLogin | src/server/client_handler.cpp:175-202 | an attempt to log in follows the machine, whose verdict LoginIsJudged is about, or breaks off, and lists the session on success only |
| Handlers.ClientHandler.Enrol | src/server/client_handler.cpp:155-162 | the registry's verdict on the encrypted password is the machine's |
| Handlers.ClientHandler.Admit | src/server/client_handler.cpp:166-171 | name, then listing, then OK |
| Handlers.ClientHandler.DoJoin | src/server/client_handler.cpp:253-258 | moves the session to the room, leaves every other membership as it was, and only answers the own client |
| Handlers.ClientHandler.DoLeave | src/server/client_handler.cpp:262-268 | takes the session out of its room, or answers that it is in none |
| Handlers.ClientHandler.DoPrivate | src/server/client_handler.cpp:282 | any session p gets the private frame iff the index gives p for the addressee |
| Handlers.ClientHandler.SayInRoom | src/server/client_handler.cpp:297-300 | any session p gets the doubly tagged frame iff it is a member of the room and not a namesake of the sender |
| Handlers.ClientHandler.DoSay | src/server/client_handler.cpp:297-303 | any session p gets exactly its share of what is said, in the room or to everybody |
| Handlers.ClientHandler.HearNext | src/server/client_handler.cpp:214-233 | one turn of the loop changes neither the final room nor the total that p is due; p takes its part of it, or a proper part if a send fails |
| Handlers.ClientHandler.Listen | src/server/client_handler.cpp:214-304 | the final room and, for any session p, the own one included, all bytes p takes are determined by the lines received, whose meaning is the subject of the rows of ChatCommands; p is active in the end iff it was and all of them went out |
| Handlers.ClientHandler.RecvLoop | src/server/client_handler.cpp:205-305 | the same from join_room of the current room and the greeting on, which the own client takes before its answers |
| Handlers.ClientHandler.CleanupAndExit | src/server/client_handler.cpp:354-366 | out of all rooms, off the list, descriptor closed once |
| Handlers.ClientHandler.Run | src/server/client_handler.cpp:63-78 | a whole client: rooms and list end as they began, the index loses at most this name's entry, the descriptor is closed once, the file is the machine's or untouched, any other session p took exactly what the client's lines send it, and the client itself its dialogue, then the greeting and the answers, as far as its connection held |
| ChatSessions.LeaveUndoesJoin | src/server/room_manager.cpp:23-40 | leave_room takes back join_room of an absent session, emptied room included |
| ChatSessions.LeaveAllUndoesJoin | src/server/room_manager.cpp:42-54 | so does leave_all, wherever the session is |
| ChatSessions.LastMoveDecides | src/server/client_handler.cpp:253-268 | after "/leave" the session is in no room, after "/join r" in r and no other, whatever came before |
| ChatSessions.HalfLineIsNotObeyed | src/server/client_handler.cpp:214-220 | of a line that does not arrive whole nothing is obeyed, and nothing after it |
| ClientTables.AddThenRemove | src/server/broadcast_manager.cpp:32-55 | a session that comes and goes leaves the list as it was and its name unindexed, whoever had it before |
| Lockstep.RunIsInStep | src/client/client.cpp:92-173 | in every state of every run in which no other handler's line falls between listing and OK, the two programs and the lines in both channels are in one of the agreed positions |
| Lockstep.SlotsMatch | src/client/client.cpp:96-149 | in such runs, in each of the three rounds, also when the server has already given up, the client reads a MENU in the menu slot, prompts in the prompt slots and OK or ERR in the result slot |
| Lockstep.GoodbyeIsLast | src/server/client_handler.cpp:349-351 | in such runs, after the third round the only line left is the server's goodbye, an ERR in the place of a fourth menu |
| Lockstep.OneLineInFlight | src/server/client_handler.cpp:113-202 | in such runs at most one line is under way to the server |
| Lockstep.AuthenticatedTogether | src/server/client_handler.cpp:331-352 | in such runs the client is authenticated only if the server is, and if the server is, OK is what the client reads next |
| Lockstep.StopsInAgreement | src/client/client.cpp:92-124 | no deadlock: such a run stops only with both authenticated or both given up |
| Lockstep.RunsAreShort | src/server/client_handler.cpp:331-352 | in such runs authentication takes at most 72 steps of the two together, however many lines other handlers send afterwards |
| Interference.AlignedIffUndisturbed | src/server/client_handler.cpp:166-171 | for every run: in all its states the slots match and the two are authenticated together, iff no other handler's line falls between add_client and OK |
| Interference.ClientMissesOk | src/client/client.cpp:168-172 | whenever such a line comes, OK and one read of the client later the server is in the chat and the client at the menu, where OK is the next line it finds |
| Interference.FailingRun | src/server/broadcast_manager.cpp:57-81 | for every key and every line there is a run that ends so: one user logs in at the first attempt while another one speaks |
| Interference.StrayChoiceIsSaid | src/server/client_handler.cpp:222-303 | the choice that this user then types is relayed as a chat line |
| Interference.ClientIsNeverAhead | src/client/client.cpp:145-149 | in every run, disturbed or not, the client is authenticated only if the server is in the chat |
| AuthProtocol.ServerGetsOn | src/server/client_handler.cpp:331-352 | every step of the server machine brings it closer to its end |
| AuthProtocol.StoiReadsBack | src/server/client_handler.cpp:125-129 | blanks, sign, decimal digits and a rest are read as that number if it is an int, else as 0 |
| AuthProtocol.ChoiceIsRead | src/server/client_handler.cpp:121-126 | a CHOICE frame is read as the number in it, a line without a colon as the number it is |
| ClientProgram.Client.SendEncrypted | src/client/client.cpp:254-269 | exactly the bytes that the results of ::send let through go out, over partial writes and EINTRs; it succeeds iff that is all of them |
| ClientProgram.Client.TypeNext | src/client/client.cpp:110-114 | a typed line is one step of the client's run, sent in full or not; without one nothing happens |
| ClientProgram.Client.Credentials | src/client/client.cpp:126-173 | name, password and result follow the client's run, also when the user stops typing |
| ClientProgram.Client.AuthLoop | src/client/client.cpp:92-124 | outcome, bytes read, bytes written and lines used are those of the client's run to its end, for every input, every server and all results of ::send |
| ClientDialogue.StepIsProtocol | src/client/client.cpp:92-173 | a step of that run in which a due line suits the place and gets through is a step of the protocol's client machine |
| ClientDialogue.PushTakesAllItCan | src/client/client.cpp:260-268 | what goes out is everything, or all that ::send takes before its first failure |
| ClientDialogue.ChoiceGoesOut | src/client/client.cpp:97-123 | the choice goes out as a CHOICE frame; 1 and 2 lead to the name prompt, anything else back to the menu |
| ClientDialogue.CredentialsGoOut | src/client/client.cpp:129-145 | name and password go out as typed, each after its prompt |
| ClientDialogue.ResultDecides | src/client/client.cpp:145-149 | OK authenticates, anything else leads back to the menu |
| ClientDialogue.ClientStops | src/client/client.cpp:97-111 | without a menu the client gives up; without a line to type it stops at the menu |
| ClientProgram.Client.SendLoop | src/client/client.cpp:178-223 | exactly the bytes of the typed lines' frames that the results of ::send let through go out, each frame whether or not the earlier ones did; all of them if no send fails, none if the receiving thread cannot be created; the greeting's first line is shown |
| ClientProgram.SentWhole | src/client/client.cpp:196-216 | unless a send fails, that is the encrypted stream of the frames |
| ClientProgram.FailuresDoNotMatter | src/client/client.cpp:196-216 | whatever failed before, frames for which ::send takes enough go out whole |
| ClientProgram.QuitIsTheLast | src/client/client.cpp:208-211 | after the first line that quits, which goes out as EXIT, nothing typed is read or sent |
| ClientProgram.Client.RecvLoop | src/client/client.cpp:234-249 | what is shown is what the messages in the incoming bytes display, up to the first empty line or until running is cleared |
| Conversation.CommandsOfTyped | src/client/client.cpp:196-216 | the server understands from the bytes exactly the commands in the typed lines, up to the first that quits |
| Conversation.HeardIsInbox | src/server/broadcast_manager.cpp:57-120 | the bytes that the handler makes p take, the own session or another, are the encrypted stream of the messages for p |
| Conversation.InboxIsShown | src/client/client.cpp:234-249 | all these messages survive the wire and are of a kind that the client shows |
| Conversation.TypedIsShown | src/server/client_handler.cpp:205-305 | from keyboard to screen: p sees, in order, exactly what the typed lines say to it |
| Conversation.LineReachesTheRoom | src/server/client_handler.cpp:222-303 | from the bytes of a relayed line to the screens: other users in the room see "[sender]: [room] [room] text" once, everybody else nothing |
| Conversation.LineReachesEverybody | src/server/client_handler.cpp:301-303 | said in no room, "[sender]: text" once to every other user in the client list, and nothing to the rest |
| Conversation.PmReachesOne | src/server/client_handler.cpp:270-283 | "/pm u t" shows "[sender]: [PM from sender]: t" once to the session indexed under u, and nothing to anybody else |
| Conversation.LeaveIsAnswered | src/server/client_handler.cpp:261-268 | "/leave": the session is in no room and its user reads "Left current room.", or "Not in a room." when it was in none |
| Conversation.JoinIsAnswered | src/server/client_handler.cpp:247-259 | "/join r": the session is in r and in no other room and its user reads "Joined room: r" |
| Conversation.RefusalIsAnswered | src/server/client_handler.cpp:238-292 | a refused line moves nobody and is answered by its usage or error, an empty one by nothing |
| Conversation.OwnIsShown | src/server/client_handler.cpp:211-304 | the user's own screen: the first line of the greeting, then the answers to the typed lines, in order, and nothing of the second line |
| Conversation.GoodbyeIsShownLast | src/server/client_handler.cpp:225-233 | for whoever quits the last of them is the goodbye |
| Delivery.LineIsSaidIff | src/server/client_handler.cpp:222-303 | a MSG frame is relayed iff its CR/LF-stripped text is non-empty, no slash command, not exit or quit, and at most 4096 bytes |
| Delivery.RoomPayloadIsUnambiguous | src/server/room_manager.cpp:75-79 | a room payload determines sender, room and text, for registered names and one-word rooms |
| Delivery.RoomPayloadIsNotPrivate | src/server/broadcast_manager.cpp:97-101 | no room payload equals a private one |
| ChatCommands.PmReadsBack | src/server/client_handler.cpp:270-284 | "/pm u t" is read as (u, t) iff u is a word and t non-empty and newline-free |
| ChatCommands.PmInFrameReadsBack | src/server/client_handler.cpp:223-284 | in a MSG frame iff, besides, t does not end in CR |
| ChatCommands.JoinReadsBack | src/server/client_handler.cpp:247-260 | "/join r" selects r iff r is a word |
| ChatCommands.JoinInFrameReadsBack | src/server/client_handler.cpp:223-260 | the same in a MSG frame |
| ChatCommands.JoinTakesOneWord | src/server/client_handler.cpp:247-251 | after any blanks the first word is the room and the rest is ignored; without a word the usage is the answer |
| ChatCommands.PmNeedsText | src/server/client_handler.cpp:270-280 | without addressee or text the usage is the answer; one blank before the text is dropped |
| ChatCommands.LeaveReadsBack | src/server/client_handler.cpp:261-269 | "/leave" followed by s is the command iff s is empty or starts with white space |
| ChatCommands.LeaveInFrameReadsBack | src/server/client_handler.cpp:223-269 | the same in a MSG frame |
| ChatCommands.OtherWordsAreUnknown | src/server/client_handler.cpp:285-287 | a slash word is unknown iff it is none of the three |
| ChatCommands.PlainTexts | src/server/client_handler.cpp:225-303 | what any other text means: a goodbye, nothing, too long, or something to say |
| ChatCommands.QuitIff | src/server/client_handler.cpp:225-233 | a line ends the chat iff it is or carries exit or quit, or is an EXIT frame |
| ChatCommands.SaidText | src/server/client_handler.cpp:223-236 | a typed line is understood as the command in its text less its line ends (LeaveReadsBack, PmReadsBack, JoinReadsBack, OtherWordsAreUnknown and PlainTexts say which) |
| Messages.ParseSerialiseRoundTrip | src/core/message.cpp:18-53 | parse(serialise(m)) == m iff the type has no colon and the body is empty or ends in neither CR nor LF |
| Messages.Serialise | src/core/message.cpp:18-29 | the frame whose reading back ParseSerialiseRoundTrip settles |
| Messages.Parse | src/core/message.cpp:34-53 | the loop strips every trailing CR and LF, then splits at the first colon |
| Streams.RecvLine | src/server/client_handler.cpp:89-110 | the byte-at-a-time loop yields the first line, or "" when the peer is lost on the way, as ReadLineOfWire and HalfLineIsLost have it |
| Streams.HalfLineIsLost | src/server/client_handler.cpp:97-102 | when the peer is lost before a newline has come, the result is "" whatever was read of the line |
| Streams.ReadLineOfWire | src/server/client_handler.cpp:89-110 | an encrypted line arrives as it is, and the rest of the stream stays for the next call |
| Streams.StreamRoundTrip | src/client/client.cpp:271-288 | repeated recv_line and parse give back exactly the list of messages sent, for every key and every schedule of arrivals |
| Streams.SingleFrameRoundTrip | src/core/message.cpp:18-53 | a frame sent alone comes back as a non-blank line that parses to it iff it is wire-safe, non-empty and newline-free |
| Ciphers.XorIsBitwise | src/core/cipher.cpp:18-26 | each bit of each byte is set afterwards iff it is set in exactly one of byte and key |
| Ciphers.XorInvolution | src/core/cipher.cpp:18-32 | decrypting what was encrypted gives the text back, for every key |
| Ciphers.XorInjective | src/core/cipher.cpp:18-26 | equal ciphertexts come from equal texts only |
| Ciphers.Cipher.Encrypt | src/core/cipher.cpp:18-26 | the loop computes the bytewise XOR of XorIsBitwise |
| Ciphers.Cipher.Decrypt | src/core/cipher.cpp:29-32 | its result encrypts to the given data |
| Registry.HexRoundTrip | src/server/user_registry.cpp:31-51 | from_hex undoes to_hex on every byte string |
| Registry.Hex | src/server/user_registry.cpp:31-39 | the text has two characters for each byte, all of them in 0-9A-F |
| Registry.ToHex | src/server/user_registry.cpp:31-39 | the loop computes that text |
| Registry.FromHex | src/server/user_registry.cpp:41-51 | the loop reads pairs of digits |
| Registry.CaseDoesNotMatter | src/server/user_registry.cpp:41-51 | lower-case digits read the same |
| Registry.RecordRoundTrip | src/server/user_registry.cpp:56-82 | records with clean names and newline-free values come back from the file text, in order |
| Registry.UserRegistry.LoadRecords | src/server/user_registry.cpp:56-68 | the records of the file |
| Registry.JunkIsSkipped | src/server/user_registry.cpp:59-65 | a line without a colon, blank or not, changes nothing wherever it stands |
| Registry.UserRegistry.SaveRecords | src/server/user_registry.cpp:73-82 | all records or the old content |
| Registry.UserRegistry.FindUserLocked | src/server/user_registry.cpp:146-157 | the first record of that name, if any |
| Registry.UserRegistry.RegisterUser | src/server/user_registry.cpp:101-119 | answer and new file text are those that RegisterRefines is about |
| Registry.UserRegistry.Authenticate | src/server/user_registry.cpp:121-135 | the answer that AuthenticateRefines is about |
| Registry.RegisterRefines | src/server/user_registry.cpp:101-119 | on a file written by the registry, a clean name is inserted iff it is new and the write succeeds, otherwise the map is unchanged; the file stays well formed |
| Registry.AuthenticateRefines | src/server/user_registry.cpp:121-135 | true iff the map holds exactly that password |
| Registry.LookupRefines | src/server/user_registry.cpp:146-157 | the linear search is the map lookup |
| Registry.EmptyFileIsWellFormed | src/server/user_registry.cpp:85-91 | an empty file stands for the empty map |
| Registry.FoundAfterRegistration | src/server/user_registry.cpp:101-135 | after a successful registration the user can log in iff the name has no colon or newline |
| Accounts.ValidateUsername | src/server/client_handler.cpp:310-317 | accepts exactly 1 to 64 letters, digits and underscores |
| Accounts.ValidatePassword | src/server/client_handler.cpp:319-325 | accepts exactly 1 to 128 bytes without a colon |
| Accounts.ServeRefines | src/server/client_handler.cpp:133-202 | one request keeps the file well formed and every account in it; an accepted sign-up was for a new name |
| Accounts.AccountsAreStable | src/server/client_handler.cpp:133-202 | over every run with failing writes and restarts a name is registered at most once and from then on logs in with exactly that password |
| FileIo.ReadBack | src/core/file_io.cpp:58-84 | reading back gives the written lines iff none holds a newline |
| FileIo.LastLineCounts | src/core/file_io.cpp:58-68 | a text that does not end in a newline reads as one line more |
| FileIo.File.ReadAllLines | src/core/file_io.cpp:58-68 | the lines of the text, a last one without newline included |
| FileIo.File.AtomicWriteLines | src/core/file_io.cpp:70-84 | all lines, or the file as it was |
| Broadcast.BroadcastManager.AddClient | src/server/broadcast_manager.cpp:32-39 | the new table, on which AddKeepsIndexed is proved |
| Broadcast.BroadcastManager.RemoveClient | src/server/broadcast_manager.cpp:41-55 | the erase loop gives the table on which RemoveKeepsIndexed is proved |
| Broadcast.BroadcastManager.Snapshot | src/server/broadcast_manager.cpp:63-73 | each active session of another name, once |
| Broadcast.BroadcastManager.Broadcast | src/server/broadcast_manager.cpp:57-81 | one send to each connected session of another name, nothing to namesakes or anybody else |
| Broadcast.BroadcastManager.SendPrivate | src/server/broadcast_manager.cpp:83-102 | one send to the session indexed under the name, nothing to anybody else |
| Broadcast.BroadcastManager.BroadcastToRecipients | src/server/broadcast_manager.cpp:107-120 | one send to each recipient of another name, nothing to the others |
| Broadcast.BroadcastManager.ShutdownAll | src/server/broadcast_manager.cpp:128-142 | every connected session ends inactive, those that were active are closed once, and both tables are empty |
| ClientTables.AddKeepsIndexed | src/server/broadcast_manager.cpp:32-39 | adding keeps list, index and login history in agreement |
| ClientTables.RemoveKeepsIndexed | src/server/broadcast_manager.cpp:41-55 | so does removing, for any session |
| ClientTables.IndexedIsLast | src/server/broadcast_manager.cpp:32-55 | an entry is the last connected session of its name |
| ClientTables.AddIsCompleteIff | src/server/broadcast_manager.cpp:32-39 | add_client keeps an exact index exact iff it finds no entry under the name, that is, iff no connected session bears it |
| ClientTables.RemoveKeepsComplete | src/server/broadcast_manager.cpp:41-55 | remove_client always keeps it exact |
| ClientTables.OlderLoginLosesItsEntry | src/server/broadcast_manager.cpp:49-54 | two logins of one user, the newer one leaves: the older stays connected and unindexed |
| RoomManagement.RoomManager.JoinRoom | src/server/room_manager.cpp:23-28 | the table of JoinMembers |
| RoomManagement.RoomManager.LeaveRoom | src/server/room_manager.cpp:30-40 | the table of LeaveMembers |
| RoomManagement.RoomManager.LeaveAllRooms | src/server/room_manager.cpp:42-54 | the erase-while-iterating loop gives the table of LeaveAllMembers, in any order of the rooms |
| RoomManagement.RoomManager.BroadcastToRoom | src/server/room_manager.cpp:56-80 | one send to each member of another name, nothing to the others, nothing if there is no such room |
| RoomTables.JoinMembers | src/server/room_manager.cpp:23-28 | adds one membership and keeps all others |
| RoomTables.LeaveMembers | src/server/room_manager.cpp:30-40 | removes one membership, keeps all others and leaves no empty room |
| RoomTables.LeaveAllMembers | src/server/room_manager.cpp:42-54 | removes all memberships of one session, keeps all others and leaves no empty room |
| RoomTables.LeaveAllIsLeaveEach | src/server/room_manager.cpp:30-54 | leave_all equals leave_room over all rooms in any order |
| Sessions.UniqueFd.Reset | include/mpcc/core/unique_fd.h:40-45 | closes what it owned |
| Sessions.UniqueFd.MoveFrom | include/mpcc/core/unique_fd.h:23-29 | closes what it owned; the other descriptor changes hands unclosed |
| Sessions.Session.SendMsg | src/core/session.cpp:36-55 | takes nothing when inactive; otherwise takes a prefix and stays active iff the prefix is everything |
| Sessions.Session.CloseSession | src/core/session.cpp:57-65 | the first call closes the descriptor, later ones leave it alone |
| Sessions.Session.Destroy | src/core/session.cpp:27-31 | whatever happened before, the descriptor ends closed exactly once |
| Sessions.Session.SetUsername | src/core/session.cpp:94-105 | only the first name sticks |
| ServerProgram.Server.AcceptLoop | src/server/server.cpp:153-225 | each client whose thread was created has a session of its own that owns its descriptor, and its thread is tracked, in order |
| ServerProgram.StartedInOrder | src/server/server.cpp:153-225 | these are the clients of all returns of ::accept, in order |
| ServerProgram.StartedAlone | src/server/server.cpp:164-219 | namely those that came and got a thread |
| ServerProgram.Server.Shutdown | src/server/server.cpp:83-98 | all clients closed, the listening descriptor closed once, every tracked thread joined |
| Threads.JoinableThread.Start | include/mpcc/util/thread_handler.h:76-87 | a second start does nothing; a failed one leaves nothing to join |
| Threads.JoinableThread.Join | include/mpcc/util/thread_handler.h:89-95 | joins a started thread once |
| Threads.ThreadGroup.JoinAll | include/mpcc/util/thread_handler.h:137-148 | joins everything tracked and forgets it |
| Threads.NoThreadIsLost | include/mpcc/util/thread_handler.h:125-148 | however adding and joining alternate, joined plus tracked threads are the added ones, in order |
| Threads.EachIsJoinedOnce | include/mpcc/util/thread_handler.h:137-148 | after a last join_all every added thread was joined exactly once |
| Directories.FileSystem.EnsureDirRecursive | src/core/file_io.cpp:27-50 | over a set of directories with the root and the start directory in it: it succeeds iff none of the listed mkdirs is refused, has then made the directory and all above it, and otherwise stops at the first refusal |
| Directories.FileSystem.EnsureParentDir | src/core/file_io.cpp:52-56 | the same for the directory of a file, which then has all directories it needs |
| Directories.TriedIff | src/core/file_io.cpp:27-50 | the prefixes tried are exactly those that end before a slash past the first byte, and the whole path |
| Directories.TriedInOrder | src/core/file_io.cpp:41-48 | they are tried in strictly increasing length |
| Directories.WalkTriesInOrder | src/core/file_io.cpp:41-48 | in any tree the calls made are the listed ones in order, all of them on success |
| Directories.UntilIsFirstRefusal | src/core/file_io.cpp:43-45 | the last call made is the first refusal, if there is one |
| Directories.ParentsComeFirst | src/core/file_io.cpp:41-48 | in this order no mkdir fails for want of a parent directory |
| Directories.WalkWithPlaces | src/core/file_io.cpp:27-50 | a walk on which no parent is missing succeeds iff nothing is refused, and then makes every listed directory |
| Directories.AncestorsExist | src/core/file_io.cpp:27-50 | these directories leave none missing on the path |

## Left out

- Sockets, signals, timeouts and socket options: replaced by arbitrary results of the calls.
- Sends after a lock was released: nothing pins a session between snapshot and send. The step
  system gives a recipient whose destructor has begun the fate `Freed` and claims nothing about it.
- Frames of two threads that write to one session at once: a send is one step in the step system;
  partial writes are modelled where one thread writes.
- ServerSystem: `Choose` stands for a whole prompt dialogue without its bytes;
  `ServerLogins.AttemptRefinesSteps` ties it to the dialogue on the wire for one handler at a time.
- Handlers.ClientHandler.Run: describes a handler that no other thread interrupts, because
  interference is modelled in `ServerSystem`.
- Lockstep.StopsInAgreement: assumes, as the other results on runs of `AuthProtocol` do, that the
  user types 1 or 2, acceptable names for registration and non-empty lines without a newline, that
  the channels lose nothing, that every line arrives before the server's 60-second receive timeout,
  and that each line is written whole. That no other handler's line falls between listing and OK is
  an explicit condition, exact by `Interference.AlignedIffUndisturbed`. Without the others the two
  programs may part.
- Late write errors: a stream that is good after the last line counts as written.
- `pthread_create` failures leave a session that nobody deletes; lifetime is claimed for spawned
  handlers only.
- Registry.FromHex: pairs that are not hexadecimal digits, which the registry never writes, read as
  the library's `>>` is taken to read them.
- Directories: names are compared as text, so ".." is a name like any other and links do not exist;
  what ::mkdir reports as existing counts as a directory.
- Descriptor numbers are not reused by the operating system in the model.
- The unused REG and LOGIN frames, the ban list that nothing fills, `user_exists`, `client_count`,
  logging, timestamps, console layout, argument parsing and the Makefile: easy or without effect.
- Null session pointers, which no caller passes.
