# HID-Fi: a verified model

HID-Fi is an ESP32-S3 board that acts as a keyboard and mouse, and a companion app that pairs
with it over the network. This project models the parts whose correctness is hardest to see by
reading: how the two agree on a key, how the board survives an update, which network it joins,
and the small fixed-size tables that live under a 32-bit millisecond clock. It holds:

- **Pairing** (`PairingBoard`, `PairingTables`, `PairingHistory`, `PairingExpiry`, `PairingAnswers`,
  `Session`, `Agent`, `PairingSystem`, `PairingAgreement`, `PairingKeys`, `PairingScreen`,
  `PairingRun`). Both sides are state machines. Board
  handlers and app steps are functions from a state to a state and an answer; the classes
  `Companion` and `Agent` keep the state in arrays and fields, as the sources do, and every
  method is proved to compute that function; `Agent` also carries the history of what it sent.
  Over all runs - requests and replies lost, other computers, restarts, wipes and expiries in
  between - a pairing in the table has its whole story, codes agree, keys agree exactly when
  the entry is this attempt's own, a code on the screen is the one the board waits for, a request
  lasts exactly as long as it is renewed, and the app neither pesters nor reuses a dead key. What
  the board answers is told by one computer's standing alone. Runs that
  complete, that end in disagreement and that acknowledge an attempt twice are constructed for
  every choice of keys.
- **Heartbeats and tickets** (`Challenges`, `Heartbeats`, `HeartbeatRuns`, `HeartbeatBoard`,
  `ChallengeRuns`, `TicketNonces`, `TicketRuns`). Four challenge slots per computer, told both in wrapped and in
  true time. What a run accepts is stated in terms of its events.
- **Over-the-air updates** (`OtaLogic`, `OtaDevice`, `OtaTruth`, `OtaBoard`, `OtaInstall`). Two
  slots, the bootloader's rollback states and the flash record, with every flash write its own
  step so that power may fail between any two; what the board reports, and exactly when completing or
  choosing an image keeps it truthful; when an image that was not installed, or was cancelled, can
  run; and the download loop over flash that can only clear bits, on arrays, which says what is
  left in the slot however it ends.
- **Which network to join** (`NetLogic`, `NetMoves`). The loops refine functions; the four
  decisions agree with each other, and moving stops.
- **Smaller members**: versions and release notes read by three programs (`Versions`,
  `Release`), hexadecimal and the texts that proofs cover (`Hex`, `Proofs`), DNS names (`Dns`),
  finding boards (`Locate`), decimal and dotted text (`Decimal`, `Dotted`), the wrapping clock
  and the cryptography's laws (`Common.dfy`).

Cryptography is a record of functions with two laws: Diffie-Hellman commutes (section 6.1 of RFC
7748) and a commitment opens one way; schemes with these laws, and with distinct keys for
distinct attempts, exist (`Crypto.LawsCanHold`, `Session.KeysCanDiffer`). Random values, clocks,
the network's answers and the success of flash writes are parameters or non-deterministic
choices. A fixed-length byte string is read as a number. Requests arrive at once or never.

## What the code does that one might not expect

- **Keys agree exactly when the board's entry is this attempt's own** (`PairingKeys.KeysAgree`). A
  computer that paired, was reset and asks again can reach the code step, let the attempt lapse
  and be told "paired" for the older entry: it takes a key the board does not have
  (`PairingRun.OlderPairingMisleads`), and drops it at the next refusal. `CodesAgree` needs no
  condition.
- **A wrapped clock looks like a restart.** The board tells its uptime from its 32-bit clock. An app
  whose request was turned down, and that asks after the clock passed 2^32 ms, takes the board
  for restarted and asks again (`PairingRun.WrapAsksAgain`; `PairingAgreement.MisreadExactly`).
- **Online is a 32-bit notion.** A computer silent for 2^32 ms counts as online again
  (`TicketRuns.OnlineComesBack`, in a run `SilentComesBack`), and a heartbeat in the one millisecond where the clock reads 0
  does not count (`OnlineIs`). Within 2^32 ms the answer is exact.
- **Challenges issued in one millisecond** may evict the newest instead of the oldest
  (`Challenges.SameTimeEvictsNewest`); the first one of its millisecond survives the next three.
- **The choice of a network looks at sixteen saved networks** (`NetMoves.SeventeenthIsMissed`);
  the board saves five.
- **Moving is decided on one scan and the network is chosen on another.** Moving stops as long as
  what a move left for is still there at the second scan (`NetMoves.MovingStops`); when targets
  keep dropping out in between, the board can go back and look again without end
  (`NetMoves.LookingCanRepeat`).
- **Every board can be made to report falsely.** One update beside a proven version is enough: its
  cancel fails at the last write, another download is stopped after its last byte, and resets come
  at the wrong moments (`OtaTruth.LiesFromFactory`). The board then reports UPDATED for a version
  that was given up, or takes up a closed record again for an image nobody installed since. The
  exact conditions are tests on the state in which an image is completed and in which it is
  chosen; the code makes neither (`OtaTruth.SafeIsExact`). Both can only fail after a cancel cut
  off or refused before its confirmation (`OtaTruth.ConfirmedIsCareful`); such a cancel can also
  make the board report UPDATED for the version it always ran (`OtaTruth.UpdatedForTheOld`).
- **A cancelled update can run after all.** When its cancel fails after the erase and the image is
  downloaded again, stopping that download too does not keep it from starting
  (`OtaDevice.CancelledCanRun`). Whether an image that is complete but not installed can run is
  told by the boot data at that moment (`OtaDevice.HiddenIsExact`); after a cancel that completed
  it cannot (`OtaDevice.CancelLeavesNoProbation`).
- **An unknown update act may share its text with a known one**
  (`Proofs.UnknownActsAreAmbiguous`); the board refuses it by the act.
- The board's version reader takes a trailing dot, the release tool a single number
  (`Versions.EachReadsMore`); both take a text exactly when it is two or three numbers of up to
  six digits (`Versions.BothReadExactly`).
- A release note that was shortened is not always the last one: where the cut dropped white space there
  is room again (`Release.ShortenedGoesOn`).
- An app that gave up an attempt is quiet until its user asks - or restarts it
  (`Session.RestartAsks`).
- `companion/DESIGN.md` says that the app polls `hello` while it waits; the code polls `state` once
  its request was acknowledged. The model follows the code.

## Model

| member | source | states |
|---|---|---|
| PairingTables.Companion.OnHello | hid_fi/companion.h:238-270 | the array loops compute exactly the specified table: one request per computer and per address, the first free place, the refusals |
| PairingTables.Companion.OnState | hid_fi/companion.h:405-416 | a waiting request is renewed only by its own computer's address, and the answer says where it stands |
| PairingTables.Companion.OnReveal | hid_fi/companion.h:279-305 | a nonce that does not open the commitment, or a low-order key, drops the request; otherwise code and key are derived and the secret is wiped |
| PairingTables.Companion.OnApprove | hid_fi/companion.h:470-500 | approval needs a PIN and a waiting request, and puts the board's fresh key and nonce in it |
| PairingTables.Companion.OnCode | hid_fi/companion.h:501-553 | six digits compared with the code, the third wrong one aborts, the right one becomes a pairing in memory and flash or, when flash fails, nothing |
| PairingTables.Companion.OnUnpair | hid_fi/companion.h:555-565 | the request and the pairing of the computer go, from flash too |
| PairingTables.Companion.OnTick | hid_fi/companion.h:170-176 | requests older than two minutes by the wrapped clock are wiped, at most once a second |
| PairingTables.Companion.OnRestart | hid_fi/companion.h:94-116 | requests are forgotten, pairings are what flash holds |
| PairingTables.Companion.OnWipe | hid_fi/companion.h:141-147 | nothing is left in memory or flash |
| PairingBoard.HandleKeepsTables | hid_fi/companion.h:94-147 | every event keeps ids and addresses of requests distinct, paired ids distinct, and flash equal to the pairings in memory |
| PairingBoard.RepeatedHello | hid_fi/companion.h:247-255 | asking again with the same keys changes nothing and gets the same answer |
| PairingBoard.ClearedSpec | hid_fi/companion.h:256-262 | a new attempt clears exactly the requests of its computer and of its address |
| PairingAnswers.HelloAnswers | hid_fi/companion.h:238-277 | hello is refused exactly for its version, its name or want of room, with nothing changed; the same attempt hears where it stands; a new one waits with its name cleaned and no secret drawn |
| PairingAnswers.HelloSparesOthers | hid_fi/companion.h:256-262 | another computer keeps its request, except when a new attempt is taken from its own address |
| PairingAnswers.StateAnswers | hid_fi/companion.h:220-236 | the answer is exactly where the computer stands, the request before the pairing; a waiting request is renewed only from its own address |
| PairingAnswers.RevealAnswers | hid_fi/companion.h:279-305 | which refusal comes when, what is dropped by it, and the request at the code step with its secret forgotten |
| PairingAnswers.ApproveAnswers | hid_fi/companion.h:470-500 | which refusal comes when, and the approved request with the board's fresh key and nonce |
| PairingAnswers.WrongCodeAnswers | hid_fi/companion.h:507-531 | each wrong code costs one of three tries; the third leaves only what tells the app that the attempt is given up |
| PairingAnswers.RightCodeAnswers | hid_fi/companion.h:532-553 | the right code makes an entry in the own or a free place, nothing at all when flash fails, and no change without a place |
| PairingAnswers.CodeRefused | hid_fi/companion.h:474-506 | without a PIN, a request or the code step a code changes nothing, and the answer says which is missing |
| PairingHistory.RunKeepsTables | hid_fi/companion.h:41-80 | the table invariants hold after every run from the factory on |
| PairingHistory.RequestHasStory | hid_fi/companion.h:238-305 | a live request was announced, approved and opened as far as its phase says, in that order, in one place, and its count of tries is the number of wrong codes since |
| PairingHistory.PairingHasStory | hid_fi/companion.h:470-553 | provenance: every pairing comes from one attempt announced, approved with a PIN, opened with the committed nonce and confirmed with the exact code, after at most two wrong codes and with no wipe or restart between |
| PairingHistory.PairingIsNamed | hid_fi/companion.h:263-268 | a pairing bears the name its attempt was announced with, control characters made spaces |
| PairingExpiry.HasRenewal | hid_fi/companion.h:170-176 | every request's stamp is the time of the last event that renewed it: its announcement, its own computer's question while it waits, its approval, its opening, or the third wrong code |
| PairingExpiry.TickExactly | hid_fi/companion.h:170-176 | over every run a sweep forgets a request if and only if it is due and more than two minutes, modulo 2^32 ms, passed since that event |
| PairingExpiry.PolledSurvives | hid_fi/companion.h:405-416 | a request whose computer asks at least every two minutes stays until a person, a new attempt, a restart or a wipe ends it |
| PairingSystem.HandleEffect | hid_fi/companion.h:238-305 | what each board event does to one computer's request and key, as its app could tell |
| PairingAgreement.ApplyKeeps | companion/crates/hidfi-agent/src/session.rs:283-398 | every event of app, board and network keeps the two-party invariant |
| PairingAgreement.RunKeepsInv | companion/crates/hidfi-agent/src/session.rs:283-398 | the two-party invariant holds in every reachable state |
| PairingAgreement.CodesAgree | hid_fi/companion.h:279-305 | whenever the board waits for the code of the app's live attempt, both hold the same code and the same key |
| PairingScreen.ApplyKeepsScreen | companion/crates/hidfi-agent/src/session.rs:283-398 | every event of app, board and network keeps a code on the screen equal to the code the board waits for |
| PairingScreen.ScreenIsRight | companion/crates/hidfi-agent/src/session.rs:327-356 | in every reachable state in which the app shows a code for its live request, the board is at the code step and of all texts exactly the one shown counts |
| PairingScreen.ToldMeansShown | companion/crates/hidfi-agent/src/session.rs:345-356 | after a poll heard as code_shown, or a reveal that came through, the app shows the code if it still has the attempt |
| PairingScreen.HeardIsTrue | companion/crates/hidfi-agent/src/session.rs:317-398 | over every run a poll whose answer the app heard leaves its phase and status where the board stands |
| PairingScreen.RevealIsTaken | hid_fi/companion.h:279-305 | the board never finds the app's own reveal broken: it comes to the code step on both sides, unless the key can not be used |
| PairingScreen.TypingPairs | hid_fi/companion.h:532-553 | from every such state, typing what is shown makes this attempt's entry where there is a place, and the next answer heard makes the app take that very key |
| PairingKeys.KeysAgree | companion/crates/hidfi-agent/src/session.rs:357-366 | when the app takes a key after "paired", it is the key in the board's table if and only if the code of this very attempt made that entry |
| PairingKeys.CleanAgrees | hid_fi/companion.h:532-545 | an attempt accepted while the board held no entry of the computer ends with the board's key |
| PairingKeys.KeeperHasStory | hid_fi/companion.h:532-545 | the attempt that counts as the entry's maker had its code typed in an earlier event, whose key has stood in the table unchanged since |
| PairingKeys.ApplyKeepsFacts | hid_fi/companion.h:279-305 | every event keeps whose request, whose entry and which derived keys there are |
| PairingAgreement.AcknowledgedOnce | companion/crates/hidfi-agent/src/session.rs:300-321 | one attempt's hello is acknowledged at most once unless in between the board restarted, or was asked for its uptime after its clock passed a multiple of 2^32 ms |
| PairingAgreement.MisreadExactly | companion/crates/hidfi-agent/src/session.rs:371-385 | a board that never restarted is taken for restarted exactly when its wrapped uptime is over a second short of the wait, for which the clock must have wrapped since, and whenever it wrapped over a second after |
| PairingRun.PairingCompletes | hid_fi/companion.h:532-553 | for all keys, nonces and names, six events lead from a fresh app and board to a pairing with one key |
| PairingRun.OlderPairingMisleads | hid_fi/companion.h:220-236 | for all keys, fourteen events from the factory lead a re-pairing computer to a key the board does not have, which it drops at the first refusal |
| PairingRun.WrapAsksAgain | hid_fi/hid_fi.ino:3733 | for every attempt and time of wrapping, seven events without a restart acknowledge one attempt twice |
| Session.EndsInIdle | companion/crates/hidfi-agent/src/session.rs:367-398 | none without a restart, aborted and a broken proof end the attempt in idle |
| Session.QuietWhileIdle | companion/crates/hidfi-agent/src/session.rs:198-213 | while idle no run of steps sends anything until the user asks |
| Session.NeverPesters | companion/crates/hidfi-agent/src/session.rs:168-180 | after an answer that ended the attempt nothing is sent, whatever else happens, until the user asks or restarts the app |
| Session.RestartAsks | companion/crates/hidfi-agent/src/session.rs:121-137 | an app restarted without a key announces a new attempt at its first step |
| Session.StepNoneDead | companion/crates/hidfi-agent/src/session.rs:219-269 | a step never comes to hold a key the board rejected, the one it just lost included, and its heartbeats use the key it held |
| Session.RejectedKeyIsDead | companion/crates/hidfi-agent/src/session.rs:219-269 | a key the board rejected, at the challenge or at the heartbeat, is dropped at once and in no later heartbeat |
| Session.OpsKeepKeys | companion/crates/hidfi-agent/src/session.rs:357-366 | over every run each heartbeat is proved with a key that one of the app's attempts derived |
| Session.ErrorTells | companion/crates/hidfi-agent/src/session.rs:219-269 | what each error leaves and how long it waits, entirely: which drop the key, end the attempt, change only the status, or nothing |
| Session.BacksOff | companion/crates/hidfi-agent/src/session.rs:219-231 | out of reach, the n-th wait is one second times two to the n, at most 30 s, with phase and key kept |
| Session.AnsweredWaits | companion/crates/hidfi-agent/src/session.rs:198-213 | an answered step waits a minute when idle, a second while the attempt goes on, not at all to use a key or ask a restarted board again, and starts the back-off anew |
| Session.BeatAnswered | companion/crates/hidfi-agent/src/session.rs:400-433 | an answered heartbeat has announced its nonce, says online and waits 20 s |
| Session.HelloUntilHeard | companion/crates/hidfi-agent/src/session.rs:297-321 | an attempt says hello until the board has answered it and only asks after that; unheard, its phase is as it was |
| Session.RevealsToUsable | companion/crates/hidfi-agent/src/session.rs:327-344 | the nonce is revealed exactly to a board whose key can be used; a low-order one ends the attempt |
| Session.UptimeTells | companion/crates/hidfi-agent/src/session.rs:371-385 | a forgotten attempt is announced anew exactly when the board has been up for over a second less than the wait, else it expired |
| Session.AskingStarts | companion/crates/hidfi-agent/src/session.rs:175-180 | asked to pair, only an idle app starts anew, with a hello at its next step |
| Agent.Agent.Step | companion/crates/hidfi-agent/src/session.rs:198-213 | the step sends, waits and ends as specified; and over the object's whole history no heartbeat used a key rejected before it, and nothing was sent since it fell idle |
| Agent.Agent.PollPairing | companion/crates/hidfi-agent/src/session.rs:283-398 | hello or state, then at most a reveal or an uptime question, as specified |
| Agent.Agent.BeatOnce | companion/crates/hidfi-agent/src/session.rs:400-433 | the nonce is announced before the heartbeat that names it |
| Agent.Agent.HandleError | companion/crates/hidfi-agent/src/session.rs:219-269 | the back-off, the status and the dropped key of every kind of error |
| Decimal.TypedIsShown | hid_fi/companion.h:507-515 | a typed text counts as the code exactly when it is the six digits the computer shows |
| Clock32.SinceIsAge | hid_fi/companion.h:86-88 | the wrapped difference is the true age modulo 2^32 |
| Clock32.BeforeIsOrder | hid_fi/companion.h:312 | the sign of the wrapped difference is the true order for times less than 2^31 ms apart |
| Challenges.OldestIsOldest | hid_fi/companion.h:308-317 | among slots less than 2^31 ms apart, the one the signed comparisons pick is truly the oldest, lowest slot first |
| Challenges.SameTimeEvictsNewest | hid_fi/companion.h:308-317 | with equal times the newest challenge can be the one replaced |
| Challenges.Slots.IssueChallenge | hid_fi/companion.h:308-317 | the loop with its early exit takes the first dead slot, else the oldest |
| Challenges.Slots.TakeChallenge | hid_fi/companion.h:321-328 | accepted exactly when a live slot not 30 s old holds it, and every such slot is used up |
| Challenges.Slots.ExpireOld | hid_fi/companion.h:176-178 | exactly the live slots over 30 s old are wiped |
| HeartbeatBoard.Computer.OnBeat | hid_fi/companion.h:355-372 | a heartbeat uses up its challenge whatever its proof: stale, refused or accepted, each exactly when, and only the accepted one sets nonce and time |
| HeartbeatBoard.Computer.OnTicket | hid_fi/companion.h:569-600 | a ticket names the last heartbeat's nonce, exactly when a dashboard of a board with a PIN asks while the computer counts as online; else which refusal comes first |
| HeartbeatBoard.RunBeats | hid_fi/companion.h:344-383 | in a run, a heartbeat changes its own computer's entry that way and no other entry |
| HeartbeatBoard.AnswerIsExact | hid_fi/companion.h:355-383 | over every run: stale exactly when no challenge was taken, refused exactly when it was and the proof is wrong, accepted exactly when it becomes the computer's last good heartbeat |
| HeartbeatBoard.RightBeatIsAccepted | hid_fi/companion.h:307-328 | a right heartbeat with the first challenge of its millisecond, within 30 s and with at most three given after it, is never refused |
| Heartbeats.AgeIsTrue | hid_fi/companion.h:170-179 | with regular sweeps the wrapped age of every live slot is its true age |
| Heartbeats.PickIsOldest | hid_fi/companion.h:308-317 | while every slot is alive the one reused is truly the oldest |
| Heartbeats.EvictsExactly | hid_fi/companion.h:308-317 | an issue gives up a good challenge exactly when all four are good and it is the oldest, lowest slot among equals |
| Heartbeats.EvictedIsFourth | hid_fi/companion.h:308-317 | the first challenge of its millisecond, given up alive, has three younger ones beside it |
| Heartbeats.IssueKeeps | hid_fi/companion.h:308-317 | issuing loses no challenge that was first in its millisecond and has fewer than four after it |
| Heartbeats.TakeKeeps | hid_fi/companion.h:321-328 | what is taken was issued at most 30 s before and not taken before |
| Heartbeats.ExpireKeeps | hid_fi/companion.h:170-179 | sweeping keeps what is accepted and loses none of these before its 30 s |
| HeartbeatRuns.DoKeeps | hid_fi/companion.h:330-383 | every event of the board and its computers' apps keeps the invariant |
| HeartbeatRuns.RunKeepsInv | hid_fi/companion.h:330-383 | the invariant holds in every reachable state |
| ChallengeRuns.AcceptedWasIssued | hid_fi/companion.h:321-328 | over every run an accepted challenge was issued to the same computer by an earlier event at most 30 s of true time before |
| ChallengeRuns.NeverAcceptedAgain | hid_fi/companion.h:355-357 | over every run no challenge is accepted twice, for any computer |
| ChallengeRuns.GivenOnce | hid_fi/companion.h:314-316 | over every run a challenge is given to one computer, once |
| ChallengeRuns.SurvivesThree | hid_fi/companion.h:307-317 | over every run a challenge presented within 30 s is accepted if it was the first its computer was given in that millisecond, at most three were given after it, and the entry was not wiped |
| ChallengeRuns.KnownExactly | hid_fi/companion.h:330-356 | over every run the board knows a computer, and takes its proofs, exactly from its pairing to its removal, restarts included |
| TicketNonces.QueueIsNewest | companion/crates/hidfi-agent/src/session.rs:57-61 | the queue is the last eight announcements, newest first |
| TicketNonces.LiveIsRecent | companion/crates/hidfi-agent/src/session.rs:63-67 | a nonce is live exactly when it was announced under 90 s ago with fewer than eight since |
| TicketNonces.TicketNonces.AnnounceNonce | companion/crates/hidfi-agent/src/session.rs:57-61 | push and truncate keep the queue that of the history |
| TicketNonces.TicketNonces.CheckLive | companion/crates/hidfi-agent/src/session.rs:63-67 | the search answers in terms of the history of announcements |
| TicketRuns.OnlineIs | hid_fi/companion.h:86-88 | online exactly when the last good heartbeat is under a minute old modulo 2^32 ms and was not stamped 0 |
| TicketRuns.OnlineIsExact | hid_fi/companion.h:86-88 | within 2^32 ms of that heartbeat, online says under a minute |
| TicketRuns.OnlineComesBack | hid_fi/companion.h:86-88 | a silent computer is offline until 2^32 ms have passed, and then online again |
| TicketRuns.SilentComesBack | hid_fi/companion.h:86-88 | for every computer a run has it heard once, offline for weeks and online again 2^32 ms later with no heartbeat between |
| TicketRuns.BeatHasStory | hid_fi/companion.h:367-372 | over every run the last good heartbeat's nonce was announced and signed by the computer's app before the board learned it |
| TicketRuns.TicketStaysGood | hid_fi/companion.h:583-600 | over every run a ticket given while online is accepted by the app for 30 s less the heartbeat's delay, with fewer than eight newer nonces |
| TicketRuns.TicketGoodExactly | companion/crates/hidfi-agent/src/session.rs:63-67 | in a run with distinct nonces the app accepts a ticket, at any later time and after any later nonces, if and only if fewer than eight followed and its nonce is under 90 s old |
| OtaLogic.SelfTestSound | hid_fi/ota_logic.h:73-85 | it passes if and only if a minute is up, USB is ready and a network it needs is back; it fails exactly at its deadlines, with the reason of the first that is missed; else it waits |
| OtaLogic.InstallsExactly | hid_fi/ota_logic.h:153-165 | a release may be installed if and only if its versions can be read, it is for this chip, fits, can update what runs and is newer, or older and asked for; and which refusal each failing test gives |
| OtaLogic.OutcomeExactly | hid_fi/ota_logic.h:114-128 | every outcome with its exact condition, by the slot where it is known and by the version where it is not |
| OtaLogic.CancelExactly | hid_fi/ota_logic.h:206-215 | what a cancel may do in each step of an install |
| OtaDevice.RunKeepsPhases | hid_fi/ota.h:66-160 | in every run the running slot can start and each place between two flash writes fits what is in flash |
| OtaTruth.ApplyKeeps | hid_fi/ota.h:66-160 | every flash write, reset and start keeps the invariant on slots and record, as long as an image is completed only when safe and chosen only when safe |
| OtaTruth.RunKeepsInv | hid_fi/ota.h:66-160 | the invariant holds after every run in which images were completed and chosen safely, however downloads and cancels were cut off |
| OtaTruth.FirstReportIsTrue | hid_fi/ota.h:66-113 | in such runs the first start off probation reports UPDATED exactly when the recorded slot runs, which then passed its self-test and was marked valid; otherwise ROLLED_BACK |
| OtaTruth.SafeIsExact | hid_fi/ota.h:505-573 | writing the last byte of an image, or choosing it, is safe if and only if no continuation with safe events ever reports falsely or opens a closed record again |
| OtaTruth.UnsafeLies | hid_fi/ota.h:505-573 | after any image completed or chosen when unsafe, explicit resets lead to a false report or a reopened record |
| OtaTruth.LiesFromFactory | hid_fi/ota.h:505-577 | from every factory state there is a run with a single install, itself safe, that ends in such a start |
| OtaTruth.ConfirmedIsCareful | hid_fi/ota.h:714-724 | if every switch-back is confirmed at once, every image of the run is completed and chosen safely |
| OtaTruth.UpdatedIsInstalled | hid_fi/ota.h:128-141 | UPDATED speaks of the slot the last install chose if and only if the running version was not chosen back since, and of the very image if nothing was written since |
| OtaTruth.UpdatedForTheOld | hid_fi/ota.h:714-724 | a cancel cut off before its confirmation makes the version that always ran report UPDATED |
| OtaTruth.ReportStays | hid_fi/ota.h:87-113 | in careful runs the report is the same at every later start until something is installed, downloads stopped at any byte included |
| OtaTruth.FailedGoesBack | hid_fi/ota.h:142-159 | in careful runs a failed self-test is recorded with its reason and takes the board to the other version if and only if that may be chosen and can start; the failed one is given up, or stays off probation |
| OtaTruth.PassedIsKept | hid_fi/ota.h:128-141 | in careful runs a passed self-test, once marked, leaves the running version proven, reported and recorded as updated, and nothing else changed |
| OtaDevice.TestedMeansPassed | hid_fi/ota.h:119-159 | a slot that counts as tested passed its self-test in an earlier event and was not written since, or came so from the factory |
| OtaDevice.CancelledNeverRuns | hid_fi/ota.h:708-731 | from the erase of a cancel on, whatever is cut or reset, the other slot never runs before the next install, unless a later download wrote a whole image there while the boot data did not hide it |
| OtaDevice.CancelledCanRun | hid_fi/ota.h:547-577 | from every factory state: a cancel that fails after the erase, the same image fetched again and stopped after its last byte, and a reset runs it |
| OtaDevice.HiddenIsExact | hid_fi/ota.h:547-566 | a whole image that is not installed never runs, whatever else happens, if and only if the boot data hides it when its last byte is written |
| OtaDevice.CancelLeavesNoProbation | hid_fi/ota.h:714-731 | after a completed cancel, whatever is downloaded, the same version runs, chosen and proven, until something is installed |
| OtaDevice.StartSays | hid_fi/ota.h:66-113 | what a start reports and writes from what is in flash: nothing exactly when no image is on probation, none is recorded and none was given up |
| OtaDevice.SilentBeforeUpdates | hid_fi/ota.h:66-113 | over every run each start before the first install says nothing and records nothing, unless the other slot came given up, which it calls a rollback |
| OtaDevice.SilentAfterCancel | hid_fi/ota.h:714-731 | over every run each start after a completed cancel says nothing, until something is installed |
| OtaBoard.OtaBoard.Restart | hid_fi/ota.h:66-113 | a reset and otaBoot together are the two specified steps |
| OtaBoard.OtaBoard.KeepVersion | hid_fi/ota.h:128-141 | a passed self-test marks the image, then closes the record |
| OtaBoard.OtaBoard.GoBack | hid_fi/ota.h:142-159 | a failed one writes the record first, then rolls back or stays |
| OtaBoard.OtaBoard.Tick | hid_fi/ota.h:119-160 | the verdict decides between waiting, keeping and going back |
| OtaBoard.OtaBoard.Switch | hid_fi/ota.h:561-577 | the boot choice and the record name the other slot |
| OtaBoard.OtaBoard.Cancel | hid_fi/ota.h:696-731 | refused while the boot choice is made, stopping a running job, undoing a ready update or failing to, and nothing else |
| OtaBoard.OtaBoard.SwitchBack | hid_fi/ota.h:708-731 | erase, choose, confirm, forget, stopping at the first write that fails |
| OtaInstall.EnsureErased | hid_fi/ota.h:428-445 | sector by sector up to the target, nothing below the frontier touched |
| OtaInstall.Program | hid_fi/ota.h:505-513 | programming, which only clears bits, stores the data because every byte was erased first |
| OtaInstall.WriteChunk | hid_fi/ota.h:505-519 | a chunk is hashed and stored, or a cancel while erasing leaves slot, frontier and hash in step |
| OtaInstall.Receive | hid_fi/ota.h:483-521 | after every chunk the bytes in flash are the bytes hashed, which are what was there and the next bytes of the stream, and everything up to the frontier is still erased |
| OtaInstall.Download | hid_fi/ota.h:464-535 | at most eight connections, resumed or started over; on success the slot holds what was hashed, the image whenever the server serves one; with working flash and nobody cancelling it succeeds if and only if one of the connections completes what the earlier ones kept |
| OtaInstall.TogetherIsEnough | hid_fi/ota_logic.h:222-226 | from a server that honours ranges no byte is lost with its connection: the image arrives if and only if eight connections together bring it |
| OtaInstall.OneIsEnough | hid_fi/ota.h:464-535 | one connection of the eight that brings all it is asked for is enough, whatever the others do |
| OtaInstall.ReadBack | hid_fi/ota.h:549-559 | the second hash is over the slot as it is in flash |
| OtaInstall.VerifySlot | hid_fi/ota.h:547-560 | accepted only if what is in flash has the signed digest, and always when what arrived has it and the flash works |
| OtaInstall.Updater.Check | hid_fi/ota.h:336-411 | an update is offered if and only if its manifest is signed and ours, and the release is newer than what runs, for this chip, fitting and able to update it; up to date and each error have their exact conditions too |
| OtaInstall.Updater.Install | hid_fi/ota.h:447-577 | the boot choice moves only to a newer release whose bytes in the other slot hash to the digest of its signed manifest, and does move when nothing goes wrong; the running slot keeps its contents; every other end says whether the slot was untouched, is unstartable or holds an image that can start, and is that run of device events |
| NetLogic.PickBest | hid_fi/net_logic.h:19-33 | one nested pass finds the eligible network with the strongest result, ties to the lowest index |
| NetLogic.FindPreferred | hid_fi/net_logic.h:64-71 | anchored networks first, then the most used, ties to the lowest index |
| NetLogic.FindHome | hid_fi/net_logic.h:87-97 | the strongest workable member of the preferred network's class |
| NetLogic.ChooseNetwork | hid_fi/net_logic.h:102-119 | home, else tier by tier, as specified |
| NetLogic.DecideMove | hid_fi/net_logic.h:124-144 | coming home, looking elsewhere or staying, as specified |
| NetLogic.WorthScanning | hid_fi/net_logic.h:150-159 | the cheap test as specified |
| NetMoves.ChooseSpec | hid_fi/net_logic.h:102-119 | for up to sixteen networks the choice is the strongest workable member of the preferred network, else the strongest of the best tier in range, and -1 only if nothing usable is in range |
| NetMoves.MoveSpec | hid_fi/net_logic.h:124-144 | the whole decision: never with an owner here; home if and only if off the preferred network and a member is workable; looking if and only if nobody used this network, the time has passed and an untried one is in range; each to the strongest; else it stays |
| NetMoves.SeventeenthIsMissed | hid_fi/net_logic.h:102-119 | a usable network beyond the sixteenth is not chosen |
| NetMoves.ChoiceIsStable | hid_fi/net_logic.h:124-144 | after choosing, the same scan keeps the board where it is under the looking time, and for ever at home |
| NetMoves.NoMoveMissed | hid_fi/net_logic.h:150-159 | whenever some scan would move the board, the cheap test asks for one |
| NetMoves.NeedsLookIsExact | hid_fi/net_logic.h:150-159 | the cheap test is true if and only if some scan would move the board with no owner present |
| NetMoves.MoveLands | hid_fi/hid_fi.ino:2190-2227 | whatever the second scan shows otherwise, a move ends at home or leaves a marked, unused network for an untried one if that is still there to choose |
| NetMoves.LandsExactly | hid_fi/hid_fi.ino:2190-2227 | away from home and with no password refused, it does so if and only if that is still there |
| NetMoves.LandsInGeneral | hid_fi/hid_fi.ino:2190-2227 | without those conditions: it lands if and only if home is in reach at the second scan, or the strongest of the best tier there is of home or untried after a marked, unused network |
| NetMoves.TargetKeepsIt | hid_fi/hid_fi.ino:2190-2227 | it is still there whenever the network decided on stays in range, usable and not refused |
| NetMoves.HomeIsAbsorbing | hid_fi/net_logic.h:124-144 | over any scans at all, no run of moves leaves the preferred network's class |
| NetMoves.MovingStops | hid_fi/hid_fi.ino:2190-2227 | among n networks any run of moves, each choosing on a fresh scan that still shows what it left for, is shorter than n, however networks become usable or refused |
| NetMoves.LookingCanRepeat | hid_fi/hid_fi.ino:2190-2227 | without that, journeys of every length go back and forth to a tried network |
| Versions.ParseInPlace | hid_fi/ota_logic.h:16-41 | the pointer loop reads exactly the versions the specification does |
| Versions.BoardReads | hid_fi/ota_logic.h:16-41 | a version of two or three parts of up to six digits reads as its numbers |
| Versions.PrintedReadsBack | hid_fi/ota_logic.h:16-41 | parsing a printed version returns its numbers |
| Versions.CompareIsOrder | hid_fi/ota_logic.h:43-48 | otaCompare is a total order |
| Versions.ToolReads | tools/ota_release.py:112-114 | vtuple gives the same three numbers |
| Versions.AppReads | companion/crates/hidfi-companion/src/handover.rs:39-44 | the app's parts are the same numbers |
| Versions.NewerInPlace | companion/crates/hidfi-companion/src/handover.rs:39-56 | the loop finds the first difference |
| Versions.ThreeAgree | companion/crates/hidfi-companion/src/handover.rs:39-56 | board, release tool and app order any two agreed versions alike |
| Versions.BothReadExactly | tools/ota_release.py:109-114 | board and release tool both take a text for a version if and only if it is two or three numbers of one to six digits |
| Versions.EachReadsMore | hid_fi/ota_logic.h:16-41 | the board alone takes a trailing dot, the tool alone a single number |
| Versions.ReadsExactly | hid_fi/ota_logic.h:16-41 | the board reads a version exactly from a name up to the first "_v" if any, a v or none, two or three numbers of up to six digits, perhaps a dot, and a suffix with - or +; and reads those numbers |
| Versions.AppPartExactly | companion/crates/hidfi-companion/src/handover.rs:39-43 | a part counts as its number exactly when it is digits below 2^64, white space around and one plus sign apart; anything else is 0 |
| Versions.NewerIsFirstDifference | companion/crates/hidfi-companion/src/handover.rs:45-54 | newer means greater at the first difference, a missing part being 0 |
| Versions.LessIsFirstDifference | tools/ota_release.py:112-114 | Python's order on tuples: smaller at the first difference, or a proper beginning |
| Release.CollectInPlace | tools/ota_release.py:129-138 | the release tool's loop, with its cap, computes the specified list |
| Release.ShowInPlace | hid_fi/ota.h:383-393 | the board's loop keeps exactly the sections newer than what runs |
| Release.BoardShowsWhatItLacks | hid_fi/ota.h:383-393 | below the cap, what the board shows of a manifest is what the release tool would have collected from the running version on |
| Release.BoardShowsTheManifest | tools/ota_release.py:117-141 | for a board older than the release, filtering a manifest's notes gives what changelog_since makes from the running version, the release's own section included |
| Release.ManifestExactly | tools/ota_release.py:128-141 | below the cap a manifest holds exactly the sections after min_from and up to the release, whole and in order; it is refused exactly when the release has no section or is no newer than min_from |
| Release.CutIs | tools/ota_release.py:132-133 | a text that fits is kept whole, any other ends where the room does, white space left off, and says so |
| Release.NotesAreCapped | tools/ota_release.py:129-138 | with the cap: the first so many wanted sections, each cut to the room the ones before leave, as many as there is room for, and at most the notice over |
| Release.ShortenedGoesOn | tools/ota_release.py:132-138 | a shortened section that ends in dropped white space leaves room, and another section follows it |
| Hex.HexParse | hid_fi/companion_crypto.h:40-56 | accepts exactly 2n lowercase digits and fills n bytes with their values |
| Hex.HexPrint | hid_fi/companion_crypto.h:66-70 | fills 2n digits and a terminating zero |
| Hex.DecodeOfEncode | hid_fi/companion_crypto.h:40-70 | decoding what was encoded gives the bytes back |
| Hex.EncodeOfDecode | hid_fi/companion_crypto.h:40-70 | one spelling: encoding what was decoded gives the text back |
| Proofs.BoardChecksWhatWasSigned | hid_fi/companion.h:359-366 | every accepted request's text fits its buffer and is, byte for byte, the text the app signed |
| Proofs.KindsAreDisjoint | companion/crates/hidfi-core/src/pairing.rs:109-141 | no text of one kind equals one of another |
| Proofs.OtaIsUnambiguous | hid_fi/ota.h:878-881 | for known acts the text determines id, act, url and challenge, bars in the url included |
| Proofs.Unambiguous | hid_fi/companion.h:591-596 | over heartbeats, tickets, update requests and resets, equal texts mean equal requests |
| Proofs.UnknownActsAreAmbiguous | hid_fi/ota.h:886-907 | an unknown act can share its text with a known one |
| Dns.ReadName | tools/hidfi.py:116-129 | the loop with its recursion returns what the specification does, on every buffer |
| Dns.ReadIsExact | tools/hidfi.py:116-129 | a name and an end are returned if and only if the packet spells that name there through at most twenty pointers |
| Dns.PointedReads | tools/hidfi.py:123-127 | a two-byte pointer to any offset below 2^14 reads as the name there |
| Dns.ExpandedReadsTheSame | tools/hidfi.py:116-129 | a compressed name reads the same as its labels written out, in any packet |
| Dns.RoundTrip | tools/hidfi.py:105-106 | encoding a dotted ASCII name with labels of 1 to 63 and reading it back anywhere gives the name and the offset past it |
| Dns.CycleIsRefused | tools/hidfi.py:119-126 | a name that runs into any pointer cycle is refused |
| Locate.Candidates | companion/crates/hidfi-agent/src/locate.rs:82-105 | every address once, remembered first, then browsed, then names |
| Locate.AddAllIsDistinct | companion/crates/hidfi-agent/src/locate.rs:87-92 | the same addresses, each once, in the order of their first mention |
| Locate.AskedExactly | companion/crates/hidfi-agent/src/locate.rs:173-193 | an address is asked exactly when it worked before for a board plugged in, was browsed or is such a board's name; the remembered ones first, none again after them |
| Locate.FindAll | companion/crates/hidfi-agent/src/locate.rs:173-223 | every USB MAC is here at its first answer or offline, here is strictly sorted, elsewhere counts the distinct other boards, misses are listed, and no USB board means no request |

## Left out

- SHA-256, HMAC, HKDF, X25519 and ECDSA: uninterpreted functions and a trusted signature predicate.
- HTTP, TLS, JSON, WebSocket, NVS and flash drivers: only their results appear.
- Races on the update job's plain flags between worker and loop: they decide only whether an early cancel wins; a cancel is a non-deterministic choice wherever the code looks at it.
- The sequence numbers and checksums of the boot data: replaced by a chosen slot and a state per slot, as the bootloader reads them; choosing a slot takes the place of the slot's earlier choice.
- An erase that fails in a cancel leaves the slot as it was, as far as starting is concerned.
- The keys of one record in flash (step, version, reason, slot) are written together; power is cut before or after them.
- Power cut inside storing or forgetting one pairing (three flash keys): the tables are compared after each completed handler.
- A cable install that writes a slot without a record.
- PairingKeys.KeysAgree: the half "agreement only if" takes as given that distinct attempts derive distinct keys.
- TicketRuns.TicketStaysGood: one true time for both clocks, within 2^32 ms of the last heartbeat, and one process of the app, which keeps its nonces in memory.
- Session.RejectedKeyIsDead: takes as given that distinct attempts derive distinct keys.
- NetMoves.LandsExactly: stated with home out of range and no password refused; NetMoves.LandsInGeneral has the condition without these.
- Versions.ThreeAgree: versions of two or three parts of one to six digits, the form releases have.
- White space other than the space, the tab and the two line ends, where texts are trimmed.
- Python's int() beyond plain digits (signs, spaces, underscores): the release tool's pattern refuses them first.
- Cutting CHANGELOG text into sections, and the text of the shortening notice.
- The rate limiter, the retry delays, the daily check, the dashboards' listings: easy members.
- The factory reset beyond the text its proof covers.
- parse_mdns around the names it reads, and mdns_query.
- should_take_over and the request files of the hand-over.
- Reading USB serial numbers and sorting the MACs before boards are looked for.
- The waits while somebody types, and the quiet time before an update restarts the board.
