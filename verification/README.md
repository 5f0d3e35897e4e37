# CellBridge: verified models of its protocols

CellBridge puts a cellular modem behind a SIP gateway: an AT client talks to the
modem's serial port, a SIP server rings and bridges the phones, an SMS engine
submits and lists messages, and a few stand-alone programs move audio samples,
push files to the module over ADB and re-arm the module's audio route. This
project models the protocols inside those parts in Dafny and proves what each of
them is there to guarantee, over all texts, all fragmentations of a byte stream,
all interleavings and all runs.

| file | what it models |
|---|---|
| `Text.dfy` | Go's string operations on ASCII text: search, trim, split, words, decimal numbers |
| `SipMessages.dfy` | printing SIP messages and reading headers back with the gateway's own parser |
| `SipDialogs.dfy` | what a response owes its request, a CANCEL its INVITE, a BYE its dialog |
| `SipRinging.dfy` | ringing the registered clients: invite passes, sweeps and teardowns in any interleaving |
| `SipContents.dfy` | what stands in a response and in the INVITE that rings a client beside the dialog headers |
| `SipTeardown.dfy` | ending a dialled or answered call at every address its account is reached at |
| `SipSessions.dfy` | the session map and the life of a session under any number of handler goroutines |
| `SipModemEvents.dfy` | which session a modem event is about |
| `AtLines.dfy` | the incremental line parser and the readers of command replies and prompts |
| `AtPortLock.dfy` | the serial port shared by any number of goroutines |
| `SmsInbox.dfy` | reading the stored messages back from a listing |
| `SmsSubmit.dfy` | one message through port, adapter and engine, and the status recorded for it |
| `ModemEvents.dfy` | bounded event queues and the fan-out |
| `CallLine.dfy` | the adapter's bookkeeping of the one active call |
| `ActiveCall.dfy` | the wrapper that relabels modem ids to logical call ids |
| `RingBuffer.dfy` | the circular sample buffer |
| `AdbFraming.dfy` | ADB messages over bulk transfers, sync push, the shell status marker |
| `RouteRearm.dfy` | the route re-arm script |

Objects whose fields the source updates are classes; their methods are proved
against functions of the old state, and the lemmas about runs are about those
functions. Where goroutines interleave, each atomic stretch is one step of a
transition system and a run is any sequence of enabled steps. Clocks, deadlines,
UUIDs, the socket's and the serial port's verdicts and the contents of the
registrar are parameters or free choices of a step. Text is ASCII.

## Where the code keeps less than it is described to keep

Each of these is stated as the exact condition under which the promise holds, and
a lemma shows an input or a run where it does not.

- `SipDialogs.OutboundDialogAgrees`: responses and BYE agree on the gateway's tag
  exactly when the INVITE's To carries no "tag=". An INVITE with a tagged To under
  an unknown Call-ID is dialled like a new call, and its BYE names a tag the client
  never saw (`ReInviteDisagrees`).
- `SipDialogs.NamelessInviteDisagrees`: an INVITE without a Call-ID is dialled under a
  made-up one, which the BYE carries and no response does.
- `SipRinging.AnsweredDialogAgrees`: the contact invited last, not the one that
  answers, decides the From of the BYE, which fits exactly when the gateway reaches
  both from one address (`LastInvitedWins`). The client's tag is kept exactly until a
  pass that was under way at the answer stores one more invitation's plan over the
  answered one (`InvitationOverwritesAnswer`).
- `SipSessions.BridgeRunsIff`: an ended session's bridge still runs exactly when it
  was started after the hangup stopped it (`EndedStillBridging`).
- `SipSessions.TwoCallsNeedAnEarlyDelete`: one Call-ID has at most one call up unless
  its map entry is removed before the call lets go, and then it can have two
  (`EarlyDeleteAdmitsSecondCall`).
- `SipDialogs.CancelKeepsViaIff`: the comment over `cancelMessage` says the CANCEL
  copies the top Via. The code copies the branch and prints the address that
  reaches the client at the time of the CANCEL; the Via is the same exactly when
  that address is and the branch survives being read back
  (`SipRinging.MovedGatewayChangesVia`).
- `SipRinging.PassReaches`: an address is claimed before the write, so one whose
  write was refused is never invited again (`RefusedIsNeverRetried`).
- `AtPortLock.StuckOnlyBehindAReader`: everyone waits exactly when one goroutine
  waits for an answer (`SilentModemBlocksEveryone`).
- `AtLines.VerdictOfReply`: a final line that also reads like a call's end, such as an
  error text with BUSY in it, is filed as unsolicited and ends no reply.
- `SmsSubmit.PduLength`: the announced length is that of the message proper as long as
  the service centre's field has at most 127 octets; a longer one is counted in.
- `SmsInbox.ListSmsRecoversStorage`: a listed message is lost or misfiled when its
  PDU line is empty or its alpha text reads like the end of a call, and only then
  (`EmptyPduIsDropped`, `BusySenderIsLost`, `BusySenderIsMisfiled`). In the second
  case listing the messages also ends the active call (`LostHeaderEndsTheCall`).
- `SmsSubmit.AcceptedYetFailed`: a message the modem accepted counts as failed when
  no id can be drawn (`AcceptedTextWithoutId`).
- `ActiveCall.EndedKeepsItsLogicalId`: an ended event without an id, arriving before
  the call's own end, costs the call its logical id (`NamelessEndLosesTheLabel`). A
  call that rings between the two ends of another is forgotten
  (`RingingCallIsForgotten`, `RingBetweenIsLost`).
- `CallLine.FirstRingOpensACall`: a RING takes over the id of a dial accepted in
  between, or of a call that an earlier call's late hangup left active
  (`RingUnderADialledCall`, `LateHangupAnnouncesTwice`).
- `CallLine.IncomingBehindItsEnd`: an incoming event is published for a call that is
  over exactly when the call ends while the event waits for the caller's number
  (`EndOvertakesIncoming`).
- `AdbFraming.PushGoesThroughIff`: a push is cut for chunks of 4088 bytes whatever
  limit the module announced, so it is refused behind the name when a frame exceeds
  the limit (`LongFileIsCutOff`).
- `AdbFraming.WhatTheChecksumCatches`: an exchange of two payload bytes is accepted.
- `AdbFraming.StatusCutShort`: output that ends right behind the status digits loses the
  last of them, so 12 is read as 1.
- `RouteRearm.UsedRouteUnderACall`: a batch leaves a used route under a call exactly
  when its own re-arm fails (`FailedRearmUnderACall`).

## Model

| member | source | states |
|---|---|---|
| SipMessages.ScanForHeader | gateway-patched/internal/sip/server.go:732-739 | the lookup loop returns what the lookup below is about: the value of the first line that matches, and "" when none does |
| SipMessages.SpellingRead | gateway-patched/internal/sip/server.go:732-739 | a header is read under every spelling of its name, `call-id` as well as `Call-ID`, with or without a blank behind the colon, with lines behind it or none; its value comes back trimmed |
| SipMessages.OtherLinePassed | gateway-patched/internal/sip/server.go:732-739 | a line that begins with no spelling of the name and a colon is passed over |
| SipMessages.BlockReads | gateway-patched/internal/sip/server.go:732-739 | of any list of printed headers the first with the name, in any case, is the one read, and what follows them is searched if none has it |
| SipMessages.ParsedIsLine | gateway-patched/internal/sip/server.go:732-739 | for every message text and name, a parsed value holds no line break and has no blank at either end |
| SipMessages.HeadersParse | gateway-patched/internal/sip/server.go:1159 | behind any start line that no dialog header can match, the five printed dialog headers read back as printed, whatever follows them |
| SipMessages.ViaTextParse | gateway-patched/internal/sip/server.go:1323-1334 | the branch read out of a printed Via is the printed branch up to the first delimiter; the address cannot be mistaken for the parameter |
| SipMessages.BranchReads | gateway-patched/internal/sip/server.go:1323-1334 | for any Via text the branch is what stands between the first "branch=" and the next semicolon, comma, blank or tab, or the end |
| SipMessages.RequestLineParse | gateway-patched/internal/sip/server.go:1312-1319 | a printed request line reads back to its method and its Request-URI |
| SipMessages.CSeqTextParse | gateway-patched/internal/sip/server.go:1419-1429 | a printed CSeq reads back to its number, for every 64-bit number, and to its method |
| SipMessages.NumberlessCSeqIsZero | gateway-patched/internal/sip/server.go:1419-1429 | a CSeq that does not begin with a number counts as zero |
| SipMessages.RequestReads | gateway-patched/internal/sip/server.go:1307-1308 | a printed CANCEL or BYE reads back as one, in its request line and its CSeq, with the Request-URI, whole Via, dialog headers and number it was printed from, seventy hops and no body |
| SipDialogs.ResponseEchoesRequest | gateway-patched/internal/sip/server.go:1147-1160 | for every request text, well formed or not, the response re-parses to the request's Via, From, Call-ID and CSeq, and to its To with the tag the rules call for (section 8.2.6.2 of RFC 3261, top Via) |
| SipDialogs.StatusReads | gateway-patched/internal/sip/server.go:1159 | the status line of a response reads back to the protocol and to its code, for every 64-bit code |
| SipContents.ResponseReads | gateway-patched/internal/sip/server.go:1147-1160 | for every request text a response reads back to its status code, to each extra header it was given, to the length of its body and to the body |
| SipDialogs.CancelMirrorsInvite | gateway-patched/internal/sip/server.go:1294-1309 | for every INVITE text a CANCEL can be derived from, the CANCEL is one, by the first word of its first line and the second of its CSeq, and re-parses to the same Request-URI, branch, From, To, Call-ID and CSeq number (section 9.1 of RFC 3261) |
| SipDialogs.CancelReads | gateway-patched/internal/sip/server.go:1307-1308 | a printed CANCEL reads back as a CANCEL and to exactly the seven values it was printed from, with no body |
| SipDialogs.CancelExistsIff | gateway-patched/internal/sip/server.go:1294-1306 | an INVITE has a CANCEL if and only if its Request-URI, branch, From, To, Call-ID and CSeq can all be read and the address is known |
| SipDialogs.TeardownCases | gateway-patched/internal/sip/server.go:1347-1376 | which message ends a call: a CANCEL exactly for an inbound call that still rings, a 480 exactly for a dial not answered yet whose INVITE is at hand, a BYE exactly for a call that was answered, is up or ended, and none without an address or a Call-ID |
| SipDialogs.FallbackCancelReads | gateway-patched/internal/sip/server.go:1359-1363 | without a usable INVITE the CANCEL of a ringing call is made from the plan, and its method, address, branch, dialog headers and number read back |
| SipDialogs.CancelKeepsViaIff | gateway-patched/internal/sip/server.go:1283-1309 | the CANCEL of a rung INVITE keeps the whole Via if and only if the gateway's address for the client is unchanged and the branch holds nothing its reader stops at, for any user name and caller number |
| SipDialogs.InviteReads | gateway-patched/internal/sip/server.go:402 | the INVITE that rings a client reads back as an INVITE and to the values it was printed from, for any fields without line breaks, any identity headers and any body |
| SipDialogs.InviteReadsExactly | gateway-patched/internal/sip/server.go:400-402 | with blank-free fields and a delimiter-free branch nothing is lost: Request-URI, whole Via, branch, From and Call-ID read back unchanged |
| SipContents.InviteCarries | gateway-patched/internal/sip/server.go:400-402 | it carries the gateway's Contact, the offer with its type and length as the body, and the caller's number in both identity headers when there is one |
| SipContents.CallerIsRead | gateway-patched/internal/sip/server.go:1407-1416 | the user in its From is the caller's number, for any number of digits and signs, or "unknown" |
| SipContents.OfferLines | gateway-patched/internal/sip/server.go:400 | the offer line by line: the gateway's address, the media port and the one codec |
| SipDialogs.RungInviteHasCancel | gateway-patched/internal/sip/server.go:402-408 | a CANCEL can be derived from the bytes of every INVITE the gateway rings a client with, however odd the user name or the caller number |
| SipDialogs.OutboundDialogAgrees | gateway-patched/internal/sip/server.go:951-964 | for every INVITE text that names its call: every response with the pinned tag and the later BYE agree on the gateway's side of the dialog if and only if the To had no "tag="; the client's side and the Call-ID agree always, the BYE goes to the packet's address with the Request-URI of the INVITE's Contact, and its number is the INVITE's plus one, in 64-bit arithmetic (section 12.2.1.1 of RFC 3261) |
| SipDialogs.ContactUriReads | gateway-patched/internal/sip/server.go:1381-1390 | for every Contact text: the URI is what stands from the first "sip:" to the next angle bracket or semicolon, or the end; the packet's address plays no part |
| SipDialogs.MadeUpUri | gateway-patched/internal/sip/server.go:1381-1395 | the user at the packet's address is made up for exactly when the Contact holds no "sip:" |
| SipDialogs.SipUserCases | gateway-patched/internal/sip/server.go:1431-1445 | the user of the first SIP address of a text: up to an at sign, else up to a closing bracket, else its first word |
| SipDialogs.NamelessInviteDisagrees | gateway-patched/internal/sip/server.go:910-913 | for every INVITE text without a Call-ID: the BYE names the made-up one, the responses name none |
| SipDialogs.ReInviteDisagrees | gateway-patched/internal/sip/server.go:1145-1159 | a concrete INVITE with a tagged To for which the 200 and the BYE disagree |
| SipDialogs.UnansweredDialGetsPinnedTag | gateway-patched/internal/sip/server.go:1364-1368 | the teardown of an unanswered dial is a 480 that echoes the INVITE and carries the pinned tag |
| SipContents.UnansweredDialGets480 | gateway-patched/internal/sip/server.go:1364-1368 | that response reads back as a 480 without a body |
| SipDialogs.ByeReads | gateway-patched/internal/sip/server.go:1369-1375 | a printed BYE reads back as a BYE and to the Request-URI, Via, dialog values and number it was printed from, with no body |
| SipDialogs.PlanByeReads | gateway-patched/internal/sip/server.go:1369-1375 | the BYE built from any stored plan with clean texts reads back as a BYE to the plan's Request-URI, with the plan's From, To and Call-ID and the number after its INVITE's |
| SipDialogs.InboundDialogAgrees | gateway-patched/internal/sip/server.go:662-670 | as long as the answered plan is the one stored, the BYE of an inbound call against the INVITE the answering client saw, another contact having been invited last: Call-ID and number fit, the To of the 200 OK is taken over; the From fits if and only if both contacts are reached from one address, and without a To in the 200 OK the To if and only if the user is the same too |
| SipDialogs.ContactUriIsLine | gateway-patched/internal/sip/server.go:1381-1395 | a Request-URI taken from any Contact, or made up in its place, holds no line break |
| SipDialogs.ExtractedUserIsLine | gateway-patched/internal/sip/server.go:1431-1445 | a user name taken out of any header value holds no line break |
| SipRinging.InviteRecord.RememberInvite | gateway-patched/internal/sip/session.go:309-325 | an invitation is recorded, last, if and only if it has an address and a text, no recorded one has that address, and fewer than eight are recorded |
| SipRinging.Ringer.InviteContact | gateway-patched/internal/sip/server.go:388-431 | inviting one contact is the claim, the stored plan and the write of the step machine, in that order |
| SipRinging.Ringer.FoldAnswer | gateway-patched/internal/sip/server.go:662-670 | folding a 200 OK into the plan gives the answered plan: the packet's address, the To of the 200 OK or the old one, and the URI of its Contact, read as `ContactUriReads` and `MadeUpUri` say; a To without a user to read leaves the plan as it was |
| SipRinging.Ringer.InviteRegistered | gateway-patched/internal/sip/server.go:386-434 | a whole pass is that over the registrar in order, and the number returned is the number of datagrams written |
| SipRinging.PassReaches | gateway-patched/internal/sip/server.go:386-434 | who has an INVITE on the wire after a pass, exactly: those who had one, and each address whose first registration is unclaimed, finds the limit of eight not used up by those before it, and has its write accepted |
| SipRinging.RefusedIsNeverRetried | gateway-patched/internal/sip/server.go:403-429 | in every run an address whose one INVITE the socket refused is never invited again, though it stays claimed |
| SipRinging.Ringer.CancelAttempt | gateway-patched/internal/sip/server.go:1254-1280 | the two copies of one CANCEL, and when an attempt gets none |
| SipRinging.Ringer.CancelInvitations | gateway-patched/internal/sip/server.go:1247-1281 | the cancel loop is the step machine's over the snapshot of recorded invitations, with the dialog's own fields when none is recorded |
| SipRinging.StepKeeps | gateway-patched/internal/sip/server.go:364-434 | no step of a pass, a plan, a write, a state change, a snapshot or a cancel write breaks the invariant |
| SipRinging.InvitesAreOneTransaction | gateway-patched/internal/sip/server.go:375-405 | in every run, with any registrar changes and interleavings: at most one INVITE per address, at most eight in all, all read back as INVITEs to one branch made of the first eight characters of the modem's id, the Call-ID "in-" with that id, and CSeq 1 INVITE |
| SipRinging.CancelsNameTheirInvite | gateway-patched/internal/sip/server.go:1254-1258 | in every run a CANCEL only goes to an address in the snapshot of the teardown that sent it; it reads as a CANCEL in its request line and its CSeq, and re-parses to the fields of the very INVITE rendered for that address, the only one ever sent there |
| SipRinging.SnapshotIsWhatWasRecorded | gateway-patched/internal/sip/server.go:1248-1253 | in every run the snapshot of a teardown is what was recorded at the step that took it, and is not empty; a later sweep does not change it |
| SipRinging.RefusedMeansRefused | gateway-patched/internal/sip/server.go:1254-1280 | in every run a teardown gives an attempt up only at a step of its own at which the socket refuses that attempt's first CANCEL |
| SipRinging.TeardownReachesSnapshot | gateway-patched/internal/sip/server.go:1247-1281 | in every run a finished teardown has put its own CANCEL for each invitation of its non-empty snapshot on the wire, except where the run has a step at which the socket refuses the first one |
| SipRinging.TeardownSendsTwice | gateway-patched/internal/sip/server.go:1254-1280 | with every write accepted the CANCEL of every invitation goes out twice, in the order the invitations were recorded |
| SipRinging.TeardownStartsIff | gateway-patched/internal/sip/server.go:1179-1189 | CANCELs are begun exactly for a call that still rings and has a stored plan |
| SipRinging.RungHasCancel | gateway-patched/internal/sip/server.go:1258-1269 | for a recorded invitation the CANCEL is the one derived from its own bytes; the fallback is never needed |
| SipRinging.CancelTextFromPlan | gateway-patched/internal/sip/server.go:1258-1269 | for an attempt without an INVITE to derive from, the CANCEL comes out of the plan's own INVITE, else field by field out of the plan; without an address there is none |
| SipRinging.PlanAfterAnswer | gateway-patched/internal/sip/server.go:413-425 | in every run the plan stored at any time after an answer is the answered one exactly until a pass stores the plan of an invitation it claimed, and an invitation's from then on |
| SipRinging.AnsweredDialogAgrees | gateway-patched/internal/sip/server.go:661-670 | in every run, for the BYE built at any time after an answer, whichever contact answered: its Request-URI and address are those of the 200 OK while the answered plan stands, and those of the invitation stored since otherwise; a tagged To of the 200 OK is kept if and only if no pass has stored an invitation's plan since, any To if and only if that or the two are the same text; the From is that of the INVITE the client saw if and only if it is reached from the same address as the contact whose plan was read or stored last |
| SipRinging.AnswerWithoutPlan | gateway-patched/internal/sip/server.go:1347-1350 | an answer that finds no plan leaves nothing to end the call with until a pass stores one |
| SipRinging.MovedGatewayChangesVia | gateway-patched/internal/sip/server.go:1258 | a rung INVITE and an address change after which its CANCEL has another Via |
| SipRinging.LastInvitedWins | gateway-patched/internal/sip/server.go:412-425 | a run with two contacts reached from different addresses: the one invited first answers, and the BYE has another From than its INVITE |
| SipRinging.InvitationOverwritesAnswer | gateway-patched/internal/sip/server.go:404-425 | a run with one client at two ports, same user and same address: its second invitation is claimed, the first is answered, the second's plan is stored, and the BYE lacks the client's tag |
| SipTeardown.FindTargets | gateway-patched/internal/sip/server.go:1192-1213 | the addresses a teardown goes to, as the loop over the registrar collects them |
| SipTeardown.CollectsExactly | gateway-patched/internal/sip/server.go:1192-1213 | they are the dialog's own, first, and those the account is registered at, each once, and no other |
| SipTeardown.SendDialogTeardown | gateway-patched/internal/sip/server.go:1179-1236 | what is written, target by target: the message twice, the second copy only behind a first that went out |
| SipTeardown.ByeGoesToEveryTarget | gateway-patched/internal/sip/server.go:1215-1236 | each target gets two, one or no copies by what the socket accepted, nobody else any, and every copy is a BYE for the same dialog under the same Request-URI, with the number after the INVITE's |
| SipTeardown.EndReachesTheAccount | gateway-patched/internal/sip/server.go:1179-1236 | so with every write accepted an address gets its two BYEs if and only if it is the dialog's or one its account is registered at |
| SipTeardown.PlansNameTheAccount | gateway-patched/internal/sip/server.go:951-964 | every plan the gateway stores names its account; without a name every registered address would be a target |
| SipSessions.SessionMap.ClaimSession | gateway-patched/internal/sip/server.go:884-887 | the first caller for a Call-ID wins and is stored; a later one changes nothing |
| SipSessions.CallSession.Dial | gateway-patched/internal/sip/session.go:97-144 | a dial leaves the initial state before anything else; only a call the client dials depends on modem, route and ATD, and records the modem's id for its leg exactly when ATD was taken |
| SipSessions.CallSession.AwaitBridge | gateway-patched/internal/sip/session.go:150-172 | the bridge is started only after the answer, and the call is active exactly when it started |
| SipSessions.CallSession.BeginAnswer | gateway-patched/internal/sip/session.go:178-186 | a pickup is won exactly in the initial state and leaves it |
| SipSessions.CallSession.AnswerInbound | gateway-patched/internal/sip/session.go:197-221 | ATA first, then the modem's id is recorded, then the bridge; the call is active exactly when both worked |
| SipSessions.CallSession.Hangup | gateway-patched/internal/sip/session.go:225-242 | a hangup cancels the session's context, stops the bridge, tells the modem, closes the media, and only then marks the session ended, whether or not the modem obeys |
| SipSessions.StepKeeps | gateway-patched/internal/sip/server.go:972-1020 | no step of any handler breaks the invariant that ties map, log, sessions and goroutines together |
| SipSessions.OneOwnerPerCallID | gateway-patched/internal/sip/server.go:884-887 | in every run two wins of one Call-ID have a delete of it in between, which need not be the owner's |
| SipSessions.TwoCallsNeedAnEarlyDelete | gateway-patched/internal/sip/server.go:972-1014 | in every run two dialled sessions of one Call-ID that both still have their media mean that the map entry of one of them was removed before it let them go |
| SipSessions.EarlyDeleteAdmitsSecondCall | gateway-patched/internal/sip/server.go:1009-1014 | such a removal is enough, even by the handler of an older session of that Call-ID: the next INVITE is dialled beside the call that is up |
| SipSessions.EachOnlyOnce | gateway-patched/internal/sip/server.go:640-690 | in every run, however many INVITEs and 200 OKs are repeated: only a session that won its Call-ID is dialled, acknowledged, answered or bridged, each at most once, and a bridge comes after the one dial or after the one ACK and the one ATA |
| SipSessions.NoneLeftBehind | gateway-patched/internal/sip/server.go:972-1020 | in every run every session is in the hands of some goroutine, or it is up, ended or ringing, or it was given up with its media closed and its Call-ID let go: no outcome of a claim, dial, wait, pickup or bridge leaves one behind |
| SipSessions.NobodyIsStuck | gateway-patched/internal/sip/server.go:972-1020 | in every run every busy goroutine has a step it can take |
| SipSessions.StateMeans | gateway-patched/internal/sip/session.go:97-242 | in every run the state tells what was done: a dialing session was dialled, an answering one is inbound, an active one had its bridge tried on a recorded leg, and for an initial one nothing was done yet |
| SipSessions.LegWasRecorded | gateway-patched/internal/sip/session.go:97-221 | in every run the leg a session names is the one its own dial or pickup was given |
| SipSessions.FirstOkAnswers | gateway-patched/internal/sip/server.go:652-690 | from any state, the first 200 OK for a ringing call leads to one ACK, one answer with the leg it is given, and the bridge, and touches nothing else |
| SipSessions.RepeatedOkIsQuiet | gateway-patched/internal/sip/session.go:178-186 | a repeated 200 OK changes nothing |
| SipSessions.EndedIsLetGo | gateway-patched/internal/sip/session.go:197-242 | in every run an ended session has its context cancelled, the modem told to hang up and its media closed; a bridge is tried once at most, and only in a session that recorded its cellular leg |
| SipSessions.BridgeRunsIff | gateway-patched/internal/sip/session.go:165-171 | in every run a session's bridge runs, whether it ended or not, if and only if it was started after the last hangup stopped it |
| SipSessions.EndedStillBridging | gateway-patched/internal/sip/session.go:225-242 | a run in which a hangup between the answer and the start of the bridge leaves an ended session with its bridge running and no goroutine to stop it |
| SipSessions.InitIsLeftForGood | gateway-patched/internal/sip/session.go:97-242 | no step takes a session back to its initial state or changes its Call-ID or direction |
| SipSessions.WorkersStayApart | gateway-patched/internal/sip/session.go:174-186 | no two goroutines ever carry the same session forward |
| SipModemEvents.SessionForModemEvent | gateway-patched/internal/sip/server.go:307-332 | the walk over the map finds the session under the event's own key, else the one with the recorded modem id, else the first one carrying audio, and never an ended one |
| SipModemEvents.ByModemID | gateway-patched/internal/sip/server.go:319-322 | finds a live session with the recorded id whenever one is there |
| SipModemEvents.LookupPrefers | gateway-patched/internal/sip/server.go:307-332 | the session under the event's key goes before one with its modem id, and that before one carrying audio |
| SipModemEvents.StaleEventsSpareNewCalls | gateway-patched/internal/sip/server.go:288-332 | a found session that is not carrying audio matched by key or by its own modem id, so a left-over event cannot end a call being set up |
| SipModemEvents.WalkOrderPlaysNoPart | gateway-patched/internal/sip/server.go:313-331 | with distinct modem ids and at most one active session the result is the same for every iteration order of the map |
| SipModemEvents.NothingFoundMeansNothingThere | gateway-patched/internal/sip/server.go:307-332 | nothing is found if and only if no live session could be meant |
| AtLines.Parser.Feed | gateway-patched/internal/modem/at/parser.go:27-42 | returns the complete non-blank lines of the kept bytes and the chunk, and keeps exactly the unfinished last line, which holds no line feed |
| AtLines.LinesConcat | gateway-patched/internal/modem/at/parser.go:27-42 | the lines of two joined streams are those of the first and those of its unfinished line joined with the second |
| AtLines.FeedIgnoresChunking | gateway-patched/internal/modem/at/parser.go:21-42 | however a stream is cut into reads, the lines are those of the whole stream |
| AtLines.ScanPartitions | gateway-patched/internal/modem/at/parser.go:133-148 | echo, unsolicited and reply lines are an order-preserving partition of the lines up to the first final one |
| AtLines.ScanStopsAtFinal | gateway-patched/internal/modem/at/parser.go:141-147 | the scan ends if and only if a final reply line turns up; it is the last line used, the last of the reply, and the first of its kind |
| AtLines.LaterBytesDoNotMatter | gateway-patched/internal/modem/at/parser.go:125-157 | scanning a longer stream is scanning its head and, only if that is not complete, the rest |
| AtLines.AnswerIgnoresFragmentation | gateway-patched/internal/modem/at/parser.go:116-157 | two fragmentations of a stream that holds a final line get the same reply, unsolicited lines and verdict, whatever follows and however the reading would have ended |
| AtLines.Reader.ReadReply | gateway-patched/internal/modem/at/parser.go:116-157 | the loop over reads, deadlines, errors and cancellation returns the answer defined on the stream |
| AtLines.VerdictOfReply | gateway-patched/internal/modem/at/parser.go:44-53 | for any lines that close nothing, followed by one of the four final ones, cut up in any way and whatever follows: accepted if that is OK, refused with that very line if it is ERROR, +CME ERROR or +CMS ERROR; the reply and the unsolicited lines are those before it, in order |
| AtLines.OpenReply | gateway-patched/internal/modem/at/parser.go:116-157 | while nothing closes the reply, reading goes on until the deadline, an error or the end of the context, and that is the verdict; unsolicited lines heard by then are not lost |
| AtLines.UnsolicitedIff | gateway-patched/internal/modem/at/parser.go:355-373 | a line is unsolicited if and only if it is RING, begins with +CLIP:, +CMTI: or +CMT:, or holds NO CARRIER, BUSY or NO ANSWER |
| AtLines.KindIs | gateway-patched/internal/modem/at/parser.go:133-141 | the echo of the command is skipped in any case, what comes unasked is handed on, and all else is the reply |
| AtLines.StreamOf | gateway-patched/internal/modem/at/parser.go:122-157 | bytes that come together with an error or before the end of the context are read, and why the reading stops is what happened then |
| AtLines.Reader.ReadPrompt | gateway-patched/internal/modem/at/parser.go:315-353 | waiting for the prompt: it counts in the first chunk that shows it, unless an earlier chunk completed a final line |
| AtLines.PromptComes | gateway-patched/internal/modem/at/parser.go:315-353 | with no closing line in an earlier chunk, the first chunk with a prompt ends the wait, whatever else it holds |
| AtLines.PromptTooLate | gateway-patched/internal/modem/at/parser.go:329-343 | a prompt after a complete answer is never reached |
| AtPortLock.StepKeeps | gateway-patched/internal/modem/at/parser.go:78-87 | no step of any goroutine breaks the invariant on lock, calls and writes |
| AtPortLock.OneHolder | gateway-patched/internal/modem/at/parser.go:78-114 | in every run the port never has two holders; everything taken was given back in order, once and by the call or idle reader it was taken for, except what the one holder still has, and all of it when there is none; no call takes it twice |
| AtPortLock.SubmissionsKeepTheirMode | gateway-patched/internal/modem/at/parser.go:165-260 | in every run, with any number of goroutines, cancellations and write errors: the writes of a call are contiguous, and the last mode command before a submission is the one that very call wrote, in its own mode (sections 3.2.3, 3.5.1 and 4.3 of 3GPP TS 27.005) |
| AtPortLock.PayloadFollowsItsCommand | gateway-patched/internal/modem/at/parser.go:188-202 | in every run a payload stands right behind the submission command of its own call, both of the same script |
| AtPortLock.SubmissionTexts | gateway-patched/internal/modem/at/parser.go:178-260 | what a call writes, text by text: a command alone; a submission's mode, in text mode the alphabet, the command with its number or destination, and the message with its Ctrl-Z; nothing for what cannot be submitted |
| AtPortLock.DryRunNeverSends | gateway-patched/internal/modem/at/parser.go:188-193 | in every run a submission command that delivers was written while dry runs were off |
| AtPortLock.DryRunIsTheLatest | gateway-patched/internal/modem/at/parser.go:95-99 | in every run whether they are is what was last set, off at the start |
| AtPortLock.FreeForAll | gateway-patched/internal/modem/at/parser.go:78-99 | in every run a waiting call can take the port, and the idle reader have its turn, if and only if nobody holds it; a dry run is switched exactly while no call is inside |
| AtPortLock.WritesTakeTurns | gateway-patched/internal/modem/at/parser.go:116-157 | in every run two writes of one call come from one goroutine that has heard an answer in between; a failed write is its last |
| AtPortLock.GivenUpIsGone | gateway-patched/internal/modem/at/parser.go:78-86 | in every run a call that gave up waiting never gets the port and never writes |
| AtPortLock.StuckOnlyBehindAReader | gateway-patched/internal/modem/at/parser.go:78-157 | in every run, while anybody is busy: no goroutine can move by itself if and only if exactly one reads for an answer inside the lock and every other busy one waits for the port |
| AtPortLock.SilentModemBlocksEveryone | gateway-patched/internal/sip/session.go:228-233 | a run that gets stuck so: a hangup the modem never answers, and a dial waiting behind it |
| SmsInbox.HexRoundTrip | gateway-patched/internal/modem/at/adapter.go:353-357 | decoding undoes printing octets as hex, for every octet sequence |
| SmsInbox.DecodesIff | gateway-patched/internal/modem/at/adapter.go:353-357 | a text decodes if and only if it is an even number of hex digits, in small or capital letters alike |
| SmsInbox.ListSms | gateway-patched/internal/modem/at/adapter.go:316-362 | the loop pairs each readable header with the next line that can be its PDU, in order, and returns the index of the last readable header as the cursor |
| SmsInbox.OtherLinesPlayNoPart | gateway-patched/internal/modem/at/adapter.go:346-352 | a line that begins with a plus and is no header, or is final, changes nothing wherever it stands |
| SmsInbox.BrokenLines | gateway-patched/internal/modem/at/adapter.go:332-361 | a line that is no PDU uses up the header before it; a header without a number leaves the one before it in force |
| SmsInbox.CursorIsTheLastIndex | gateway-patched/internal/modem/at/adapter.go:332-361 | the cursor is the number of the last header that has one |
| SmsInbox.HeaderKind | gateway-patched/internal/modem/at/parser.go:355-373 | a header line is filed as unsolicited if and only if its alpha text reads like the end of a call, and is never taken for an echo or a final line |
| SmsInbox.LostHeaderEndsTheCall | gateway-patched/internal/modem/at/adapter.go:596-614 | a header that reaches the handler of unsolicited lines ends the active call if its alpha text reads like the end of a call, and does nothing else |
| SmsInbox.HeaderIndexReads | gateway-patched/internal/modem/at/adapter.go:337-345 | the index read from a header line is the one printed into it, whatever its alpha text |
| SmsInbox.EntriesOfListing | gateway-patched/internal/modem/at/adapter.go:332-361 | from the lines of a listing that are heard the loop recovers each PDU under the last header heard before it, in order, and nothing else |
| SmsInbox.ListingWithNoise | gateway-patched/internal/modem/at/parser.go:133-148 | with echo and unsolicited lines merged into a listing in any way, the reply is the listing as far as it is heard, and the unsolicited lines are the lost headers merged into those, all in order |
| SmsInbox.ListingIsScanned | gateway-patched/internal/modem/at/parser.go:133-148 | the exchange does not end before the listing's own OK |
| SmsInbox.ListSmsRecoversStorage | gateway-patched/internal/modem/at/adapter.go:316-362 | from the bytes on the port, for every list and alpha texts, any merge of other lines, any fragmentation and anything behind it: exactly the stored messages come back, in order, if and only if each has a PDU and no alpha text reads like the end of a call; the handler gets the unsolicited lines in order, merged with the headers that were lost, and nothing else |
| SmsInbox.WholeListIff | gateway-patched/internal/modem/at/adapter.go:332-361 | the same condition on the loop's result alone, whatever it makes of the other lists |
| SmsInbox.BusySenderIsLost | gateway-patched/internal/modem/at/parser.go:372 | a message from a sender the phone book calls BUSY is lost |
| SmsInbox.BusySenderIsMisfiled | gateway-patched/internal/modem/at/adapter.go:352-359 | behind a message with an empty PDU, its PDU is filed under that message's index |
| SmsInbox.EmptyPduIsDropped | gateway-patched/internal/modem/at/adapter.go:352-359 | a message whose PDU line is empty is dropped |
| SmsSubmit.SendPduLocked | gateway-patched/internal/modem/at/parser.go:178-209 | writes exactly the parts of the script it gets to, and returns the verdict and the unsolicited lines that follow from what was read |
| SmsSubmit.SendTextLocked | gateway-patched/internal/modem/at/parser.go:227-260 | the same for text mode with its two setup commands |
| SmsSubmit.CtrlZOutMeans | gateway-patched/internal/modem/at/parser.go:178-206 | the payload goes out if and only if every write went out and every answer before it let the submission go on |
| SmsSubmit.SetupGoesOn | gateway-patched/internal/modem/at/parser.go:178-187 | a setup lets the submission go on if and only if OK is what closes its reply, its own echo left out |
| SmsSubmit.CommandGoesOn | gateway-patched/internal/modem/at/parser.go:188-202 | a submission command lets it go on when the prompt comes in a chunk before anything that closes a reply |
| SmsSubmit.NoneHeardIsLost | gateway-patched/internal/modem/at/parser.go:178-209 | the unsolicited lines a submission hands on are those heard behind each of its writes, in order |
| SmsSubmit.SendSms | gateway-patched/internal/modem/at/adapter.go:274-314 | the adapter submits, refuses and reports as the next four say, and writes exactly the parts of the script it gets to |
| SmsSubmit.TextModeIff | gateway-patched/internal/modem/at/adapter.go:275-282 | text mode is used if and only if the trimmed destination has at most six characters and the body is not empty and in the module's alphabet; it is given the trimmed destination |
| SmsSubmit.PduLength | gateway-patched/internal/modem/at/adapter.go:297-302 | for every service centre field of at most 127 octets and every message proper, the PDU is announced with the octets of the message proper; a longer field is counted in |
| SmsSubmit.LengthOfAnyPdu | gateway-patched/internal/modem/at/adapter.go:289-305 | for every first octet: it is taken off the announced length as long as it is below 128, and a PDU of which nothing is left is refused |
| SmsSubmit.PduOnTheWire | gateway-patched/internal/modem/at/parser.go:188-204 | the command on the wire carries that number, and what is sent off behind it decodes to the PDU |
| SmsSubmit.Record.PersistStatus | gateway-patched/internal/sms/engine.go:125-135 | the copy in memory changes exactly when the row does |
| SmsSubmit.Send | gateway-patched/internal/sms/engine.go:137-182 | parts go out in order and none after the first that is not confirmed; whatever the database does, the copy follows the row and the row never claims more than was confirmed; with every write taken the row is the status defined on the parts' results |
| SmsSubmit.StatusMeans | gateway-patched/internal/sms/engine.go:160-182 | the status is sent if and only if every part was confirmed in order; submitted if and only if the first part not confirmed is in doubt after its Ctrl-Z; failed if and only if it never got that far, was refused by an error line, or got no id; and never queued |
| SmsSubmit.PayloadReplyDecides | gateway-patched/internal/sms/engine.go:160-182 | a first unconfirmed part whose payload an error line answers, however it is cut up, makes the message failed; one that nothing answers leaves it submitted; OK confirms its part if there is an id |
| SmsSubmit.EarlyRefusalFails | gateway-patched/internal/sms/engine.go:160-182 | a setup or submission command that is refused, or that nothing answers, or that cannot be written, keeps the payload back and makes the message failed |
| SmsSubmit.AcceptedYetFailed | gateway-patched/internal/modem/at/adapter.go:286-313 | a message all of whose parts the modem accepts is recorded as failed if and only if some part got no id, and is then cut off behind the first such part |
| SmsSubmit.AcceptedTextWithoutId | gateway-patched/internal/modem/at/adapter.go:280-288 | a short text the modem accepts and the engine records as failed |
| ModemEvents.FanOut | gateway-patched/internal/modem/fanout.go:19-34 | every sink ends as if it alone had been offered the whole source, and closed |
| ModemEvents.SinkGetsItsOwnStream | gateway-patched/internal/modem/fanout.go:5-34 | a sink gets the source with the events that found it full left out, in order; received plus dropped is the source's length; it gets all if and only if none was dropped, and none is dropped where there is room |
| CallLine.ClipNumberReads | gateway-patched/internal/modem/at/adapter.go:650-658 | the number in a +CLIP line is read back whatever fields follow it, for every number without a quote |
| CallLine.LineKindIff | gateway-patched/internal/modem/at/adapter.go:552-615 | what a line is, from its text between the blanks: a caller's number, RING, or one that tells of a call's end, and nothing else |
| CallLine.CallAdapter.HandleURC | gateway-patched/internal/modem/at/adapter.go:552-615 | what each unsolicited line does to the active call, the incoming flag, the stashed number and the event queue |
| CallLine.CallAdapter.StartDial | gateway-patched/internal/modem/at/adapter.go:217-223 | a dial gets as far as its ATD exactly when no call is active |
| CallLine.CallAdapter.FinishActive | gateway-patched/internal/modem/at/adapter.go:681-699 | a local hangup clears the call it names, always resets the incoming flag, and publishes the end |
| CallLine.CallAdapter.EmitIncoming | gateway-patched/internal/modem/at/adapter.go:627-646 | a scheduled incoming event is published once, with the number known by then, which is used up |
| CallLine.CallAdapter.DialDone | gateway-patched/internal/modem/at/adapter.go:231-241 | an accepted dial makes its new id the active call, whatever became active meanwhile; a refused one changes nothing |
| CallLine.CallAdapter.StartHangup | gateway-patched/internal/modem/at/adapter.go:671-679 | a hangup gets as far as its ATH exactly for the active call, or for any when it names none |
| CallLine.CallAdapter.HangupDone | gateway-patched/internal/modem/at/adapter.go:252-261 | an accepted hangup finishes the call it was started for, whatever is active by then; a refused one changes nothing |
| CallLine.IncomingSentMeansActive | gateway-patched/internal/modem/at/adapter.go:576-607 | in every run, with dials and hangups split around their exchange, the flag that an incoming event was sent for implies an active call, and every published incoming event carries an id that was handed out |
| CallLine.ConsumerGetsWhatIsOwed | gateway-patched/internal/modem/at/adapter.go:596-646 | in every run the consumer gets, in order and each once, the end of the active call in the modem's own words for every line that tells of one, the end of the call each accepted hangup was for, and each incoming event; only what finds 32 events waiting is dropped |
| CallLine.IncomingCarriesNumber | gateway-patched/internal/modem/at/adapter.go:627-646 | in every run an incoming event carries the number of the latest +CLIP line if no end and no other incoming event came in between, and none if one did |
| CallLine.DialsAndHangupsBeganRightly | gateway-patched/internal/modem/at/adapter.go:217-261 | in every run an accepted dial began while no call was active and a finished hangup while the call it names was, or any when it names none; nothing else is asked of either |
| CallLine.StaysActive | gateway-patched/internal/modem/at/adapter.go:217-261 | in every run a call stays the active one exactly until it ends or an accepted dial takes its place |
| CallLine.IncomingBehindItsEnd | gateway-patched/internal/modem/at/adapter.go:624-646 | in every run an incoming event is published behind the end of its own call if and only if that call ended while the event waited for the number; without a dial accepted meanwhile, if and only if it is no longer the active call |
| CallLine.EndOvertakesIncoming | gateway-patched/internal/modem/at/adapter.go:627-646 | a run in which the caller gives up during that wait: the end is published, then the incoming event of the call that is over |
| CallLine.OneIncomingPerCall | gateway-patched/internal/modem/at/adapter.go:583-595 | between two ends exactly one incoming event is scheduled if the modem rang at all, however often, and none if one was outstanding |
| CallLine.FirstRingOpensACall | gateway-patched/internal/modem/at/adapter.go:686-693 | the first RING after an end is never swallowed; it opens a call under an id no earlier state knew if and only if the end left no call active and no dial was accepted in between |
| CallLine.RingUnderADialledCall | gateway-patched/internal/modem/at/adapter.go:231-241 | a run in which a call that rings in right after an accepted dial is announced under the dialled id |
| CallLine.LateHangupAnnouncesTwice | gateway-patched/internal/modem/at/adapter.go:252-261 | a run in which the far end ends a call while our hangup of it waits for the modem, and the hangup's end makes the next call be announced twice |
| ActiveCall.ActiveCallAdapter.ForwardEvent | gateway-patched/internal/modem/call_adapter.go:161-190 | one turn of the forwarding loop: the new bookkeeping, and the relabelled event unless the queue is full |
| ActiveCall.ActiveCallAdapter.HangupAnswered | gateway-patched/internal/modem/call_adapter.go:69-80 | the end of a hangup moves the live ids to the last ones, and a refused one changes nothing |
| ActiveCall.ActiveCallAdapter.DialAccepted | gateway-patched/internal/modem/call_adapter.go:52-63 | an accepted dial forgets the last call |
| ActiveCall.EndedKeepsItsLogicalId | gateway-patched/internal/modem/call_adapter.go:161-190 | for a call dialled under a logical id, its ended event and its hangup in either order, any other events before the first and any at all in between: the ended event is published under the logical id if and only if no ended event without an id came before; then no other call's event is relabelled, and the bookkeeping ends empty, at the cost of a call adopted in between |
| ActiveCall.RingingCallIsForgotten | gateway-patched/internal/modem/call_adapter.go:69-80 | the second of the two ends takes a ringing call from the wrapper, so that it can be neither answered nor hung up, if and only if the events in between leave one adopted |
| ActiveCall.RingBetweenIsLost | gateway-patched/internal/modem/call_adapter.go:170-183 | a call that rings between the two ends of another and is lost so, in either order |
| ActiveCall.NamelessEndLosesTheLabel | gateway-patched/internal/modem/call_adapter.go:176-183 | a run in which an ended event without an id comes first and the call's own end keeps the modem's id |
| ActiveCall.WhatEndsTheLiveCall | gateway-patched/internal/modem/call_adapter.go:176-183 | an ended event clears the live call if and only if it names it or names no call |
| RingBuffer.Ring.Write | voice_audio_bridge.swift:31-40 | afterwards the buffer holds the newest capacity - 1 of what was unread and what was written |
| RingBuffer.Ring.Read | voice_audio_bridge.swift:42-52 | takes the oldest samples in order, as many as asked for or there are, and writes nothing else |
| RingBuffer.PushWindow | voice_audio_bridge.swift:34-37 | one store at the write position, the oldest sample making room, is one append to a bounded queue |
| RingBuffer.RunIsFaithful | voice_audio_bridge.swift:19-53 | after any run of writes and reads of any sizes: what is unread is the newest part of what was written, at most capacity - 1 samples; what was delivered was written, once each and in that order; and a sample neither unread nor delivered was pushed out by capacity - 1 newer ones |
| RingBuffer.StepStaysFaithful | voice_audio_bridge.swift:31-52 | a write loses samples only by filling the buffer to its last place |
| AdbFraming.AdbClient.ReadExactly | module-tools/voice_runtime.py:170-179 | the read loop over transfers, timeouts and surplus bytes |
| AdbFraming.ReadTakesTheFirstBytes | module-tools/voice_runtime.py:170-179 | a read gets the first bytes of all that comes in, whatever the transfers, and fails exactly when there are too few; it takes no transfer behind the one that fills it, and what that one brings beyond is gone |
| AdbFraming.AdbClient.ReceiveMessage | module-tools/voice_runtime.py:181-189 | header, length limit, payload and checksum, in that order |
| AdbFraming.BadMessagesAreTold | module-tools/voice_runtime.py:181-189 | a message over 4096 bytes is refused by its header alone; one that breaks off in its header or its payload times out |
| AdbFraming.HeaderFields | module-tools/voice_runtime.py:160-163 | the fields read out of a packed header are those packed into it, for all 32-bit values |
| AdbFraming.HeaderBytes | module-tools/voice_runtime.py:160-163 | the six words of a header, least significant byte first: command, arguments, length, byte sum, and the command with every bit flipped |
| AdbFraming.CommandsAreNames | module-tools/voice_runtime.py:31-36 | the bytes of the two stream commands spell WRTE and OKAY |
| AdbFraming.ReadBlock | module-tools/voice_runtime.py:170-179 | reading a block's length out of any fragmentation gives the block and leaves the others untouched |
| AdbFraming.ReceiveUndoesSend | module-tools/voice_runtime.py:165-189 | any messages with payloads up to the limit come back as sent, under every fragmentation that respects the ends of transfers, with timeouts anywhere |
| AdbFraming.ChecksumDecides | module-tools/voice_runtime.py:186-188 | the byte sum cannot wrap, and a payload put in place of the sent one is accepted if and only if its byte sum is the same |
| AdbFraming.WhatTheChecksumCatches | module-tools/voice_runtime.py:186-188 | every change of a single byte is rejected; an exchange of two bytes is accepted |
| AdbFraming.AdbClient.WriteStream | module-tools/voice_runtime.py:249-257 | a chunk over the announced limit writes and reads nothing; any other is written as one message and accepted only by its own acknowledgement |
| AdbFraming.AdbClient.PushFrames | module-tools/voice_runtime.py:322-330 | how many frames go out, whether all were acknowledged and what is left to read, and that what was written is exactly those frames |
| AdbFraming.FramesReassemble | module-tools/voice_runtime.py:326-329 | every DATA frame has at most 4096 bytes, and together they are the file |
| AdbFraming.DataFrameAt | module-tools/voice_runtime.py:326-329 | the i-th DATA frame names itself, carries its length and holds the i-th 4088 bytes of the file, the last one the rest |
| AdbFraming.PushBytes | module-tools/voice_runtime.py:322-330 | a push byte by byte: SEND with the name's length and the name, the DATA frames, DONE with the time |
| AdbFraming.PushArrives | module-tools/voice_runtime.py:324-330 | a push whose frames all went out arrives as the name, the whole file and the time, in that order, under every fragmentation |
| AdbFraming.PushFitsIff | module-tools/voice_runtime.py:249-257 | no frame of a push is too long if and only if the first frame and the longest DATA frame fit the announced limit |
| AdbFraming.PushGoesThroughIff | module-tools/voice_runtime.py:322-330 | with every acknowledgement in, a push goes through if and only if the name frame and the longest DATA frame fit the announced limit; with too long a name it sends nothing, with too long a DATA frame the name alone |
| AdbFraming.PushNeedsEveryAcknowledgement | module-tools/voice_runtime.py:249-257 | whatever comes in, a push goes through if and only if every frame fits and the next messages in are one empty OKAY of its own stream for each |
| AdbFraming.PushStopsAtLongFrame | module-tools/voice_runtime.py:249-257 | with every acknowledgement in, a push stops exactly at the first frame that is too long |
| AdbFraming.LongFileIsCutOff | module-tools/voice_runtime.py:326-329 | to a module that announces 1024 bytes, a file of more than 1016 is not sent at all, though its name is |
| AdbFraming.StatusSurvivesAnyOutput | module-tools/voice_runtime.py:301-310 | the text and the exit status are recovered whatever the command printed, even the marker itself |
| AdbFraming.StatusCutShort | module-tools/voice_runtime.py:306-310 | output that ends right behind the digits gives the status divided by ten, or none below ten |
| AdbFraming.NoMarkerNoStatus | module-tools/voice_runtime.py:301-305 | output without the marker gives no status |
| RouteRearm.Rearmer.Rearm | route-rearm.sh:83-95 | a re-arm that works clears the used mark and notes the time; one that fails sets the mark |
| RouteRearm.Rearmer.Replay | route-rearm.sh:132-180 | the line-by-line replay decides by what the batch holds: a call that starts on a used route, else an end that used the route up, else nothing; and leaves the three variables so |
| RouteRearm.SeenStartReadsTheLog | route-rearm.sh:147-160 | in every run a start counts as seen if and only if the log so far ends in one: neither the batches nor the outcome of re-arms plays a part |
| RouteRearm.SeenEndIsServed | route-rearm.sh:139-157 | in every run an end whose start was seen, in whatever batch, is followed by a re-arm at the end of its own batch, and by a fresh route if that works |
| RouteRearm.PendingMeansUsed | route-rearm.sh:83-95 | in every run the used mark is set if and only if a call ended after the last re-arm that worked, or none has worked |
| RouteRearm.StaleStartIsServed | route-rearm.sh:159-172 | in every run a batch is refreshed ahead of a call if and only if one of its calls starts on a route used by an earlier one, including ends the window passed over |
| RouteRearm.UsedRouteUnderACall | route-rearm.sh:159-176 | after a batch, a used route and a seen start stand together if and only if the log ends in a start and the batch's own re-arm failed |
| RouteRearm.FailedRearmUnderACall | route-rearm.sh:83-95 | a batch whose re-arm fails and leaves the next call on the used route |
| RouteRearm.NoCallOnAUsedRoute | route-rearm.sh:132-180 | with re-arms working, no batch boundary has both marks set, after a cold start that may have failed |
| RouteRearm.RepeatedEndsAreQuiet | route-rearm.sh:144-155 | a batch of ends without seen starts is passed over if and only if all of them fall inside the window after a re-arm that worked |

## Left out

- Sockets, serial devices, USB, CoreAudio, adb shell scripts, installers and push notifications: a datagram or a serial write is appended to a trace, and whether it is accepted is a parameter.
- The HTTP interface, registration, MESSAGE and OPTIONS handling, SDP parsing, the RTP target and the text of the ACK.
- SipTeardown.SendDialogTeardown: the session's state is taken once for all targets, and a registration is given with its contact resolved to an address; the source reads the state again for each message.
- The PDU encoder and the multipart assembler are not part of this model: a message is any non-empty list of encoded parts, and whether a body fits the module's alphabet is a parameter.
- Header names and commands outside ASCII, where Go's lower-casing and folding can change byte lengths.
- SipDialogs.ExtractSipUser: the source stops with a run-time error on a header that ends after "sip:" and blanks; the model returns no user, and an answer with such a To is not folded in.
- SipDialogs.InboundDialogAgrees: the fresh UUID in a BYE's branch and the user name in a made-up Request-URI are arbitrary texts.
- Timers and deadlines are free choices of the environment; nothing is said about how long anything takes.
- SipRinging.TeardownReachesSnapshot: an invitation sent by a sweep after the snapshot gets no CANCEL from it, as in the source.
- SipRinging.AnsweredDialogAgrees: in the model a pass may also begin after the answer; in the source only one that began before it can still be running.
- SipSessions: a bridge that starts after a hangup makes the session active again, as in the source, so no claim is made that an ended session stays ended; the reaping of stale sessions and of ghost calls appears only as hangup and delete steps, which any handler may take at any time.
- AtLines.Reader.ReadPrompt: its result depends on where chunks end; it is proved for the chunks given, and no independence of them is claimed.
- AtLines.AnswerIgnoresFragmentation: lines behind the final one in the same chunk are discarded by the source and appear in no result.
- SmsInbox.ListSmsRecoversStorage: the three exchanges of a listing are not atomic as a group; the lemma is about the listing's own exchange.
- SmsSubmit.SendSms: the bytes a failing write may leave on the port are only modelled in AtPortLock.
- CallLine.CallAdapter.HandleURC: each line is handled in one atomic step; in the source a RING takes the mutex twice.
- CallLine.CallAdapter.EmitIncoming: the wait for the caller's number is a free choice of when it ends.
- ActiveCall: clearing the bookkeeping after ghost calls were reaped.
- RingBuffer: samples are of any type; the lock around each method is what makes it one step.
- AdbFraming: the connect, open and close handshakes and the reply to a finished push.
- RouteRearm: the log is given as batches of start and end lines; counting and re-reading the file are not a snapshot in the source.
