# Verified model of the flakelet deploy relay

A Dafny project that models how a deploy travels through the flakelet relay and
proves what users of it may rely on. A client posts a request with waves of
targets, the relay plans it and runs the waves, agents on the hosts run one unit
for each flakelet and send its output back, and the client prints it, over
connections that may break at any time.

`dafny verify dfyconfig.toml` checks everything.

How the files follow the program:

| module | program | content |
|---|---|---|
| `JobTable`, `JobInvariants`, `JobRecovery`, `JobRuns`, `Jobs` | `src/agent/jobs.rs` | the agent's job table: each locked section as a step on values with the writes it makes; the invariant of all steps; crashes between any two saves and recovery; whole runs; and the class with the program's loops, each method proved to be its step |
| `JobResults`, `JobNews` | `src/agent/jobs.rs`, `src/relay/state.rs` | what becomes of a job over whole runs, how starts are answered, and what relays know of it |
| `Links`, `LinkOrder`, `LinkAgents`, `LinkResults` | `src/agent/conn.rs`, `src/relay/agent_conn.rs` | one target over any number of connections, from the agent's table to the wave's channel; and every run of the agent seen as a run of that link |
| `Telling`, `Waves`, `Deploys` | `src/relay/api.rs` | what frames amount to for a client, the wave engine, the run of all waves |
| `Plans`, `PlanMeanings` | `src/relay/api.rs`, `src/relay/state.rs` | from a request to the planned targets, and what these have to do with what was asked |
| `Registry`, `Summaries` | `src/relay/state.rs` | connected agents and subscriptions, the list of deploys |
| `Printers` | `src/bin/flakelet-push.rs` | following a deploy over several streams |
| `EndToEnd` | all of these | from the unit's output to the terminal |
| `Policies`, `Glob` | `src/auth/policy.rs` | who may be or deploy what |
| `Srv`, `SrvWire`, `SrvMessages` | `src/srv.rs` | SRV answers, compressed names and whole responses (RFC 1035 sections 4.1.1 to 4.1.4, RFC 2782) |
| `Sse`, `SseCuts`, `SseLines` | `src/sse.rs` | server-sent events and their incremental parser, on any chunks of bytes and any lines |
| `Form`, `FormMeanings` | `src/oidc.rs`, `src/relay/ui.rs` | the form encoder and the percent decoder (RFC 3986 section 2) |
| `Utf8`, `Cuts` | the standard library | UTF-8, its lossy reading (RFC 3629), and texts that come in chunks |
| `Proto`, `Wrappers`, `Sorting`, `Text`, `Bytes` | `src/proto.rs` and the standard library | shared types and helpers |

What stands outside the program is a parameter: the time, the lines a unit
writes, the results it may end with, the frames that arrive on a channel and their order, whether
a host could be reached, how many events a client takes before it leaves, and
how many frames arrive before a deadline. Every property is stated for all of
them. In particular:

- A unit's output is a fixed list of lines that can be read again from the start
  after a crash, as the journal is from the saved cursor. A unit ends after its
  last line.
- A run begins when its list of jobs is fixed, as section "Agent protocol" of
  `docs/DESIGN.md` means by "the first run that begins after they arrived": jobs
  that arrive while a unit is being prepared wait for the next one.
- `docs/DESIGN.md` promises that lines logged while a link was down still reach
  the client. The code keeps that promise if the replay precedes live frames on
  each connection, see `LinkOrder.LinkIsComplete`. Otherwise a live line or a
  live result may overtake the replay and lines get lost, see
  `LinkOrder.LiveFrameFirst` and `LinkOrder.LiveResultFirst`. The exact condition
  is `LinkOrder.RunMissesNothingIff`.
- The parser of server-sent events is meant to be fed bytes. It reads each chunk
  as text by itself, so a chunk that begins inside a character changes the text:
  `Utf8.ChunksIff` is the exact condition for the text, `SseCuts.ArrivesIff` the
  one for the events, and `Sse.CutInsideLetter` an event that arrives as another
  one.
- The percent decoder of the dashboard stops the program on some texts:
  `Form.TextStopsIff` says exactly which, `Form.StopsHere` is one.
- Following a deploy by its id is meant to follow the targets whose agent knows
  it. A candidate for which nothing but the relay's own refusal was heard, because
  its connection was lost and its agent did not come back in time, is followed
  too: `Deploys.FollowedIff` is the exact condition, `Deploys.LostConnection` an
  input. An agent that comes back and answers in time decides for itself, see
  `Deploys.Reconnected`. Whichever way, a candidate that could not be reached and
  is followed makes the deploy fail: `Deploys.LostFails`.

## Model

| member | source | states |
|---|---|---|
| `Links.LinkIsSafe` | src/relay/api.rs:505-575 | over every run of recorded lines, cut and new connections, re-sent starts, refusals, replays and agent crashes, the client is sent lines with strictly increasing numbers, each the agent's own line of that number, and nothing after the one result |
| `Links.StepKeepsGenuine` | src/agent/conn.rs:132-167 | no event on the link puts a line into a queue, on a wire or into the wave's channel that is not the unit's own line of that number, also when the unit's output is read again after a crash |
| `Links.NextLine` | src/agent/jobs.rs:539-561 | what recording a line broadcasts is the next line of the full log, or nothing once the log is cut off |
| `Links.LogIsOutput` | src/agent/jobs.rs:539-561 | the log is the unit's output line by line, cut off if and only if the output exceeds the cap, then as much of it as fits and the marker |
| `LinkOrder.LinkIsComplete` | src/agent/jobs.rs:360-378 | if on every connection the replay is written before any live frame, the client has a gapless beginning of the unit's log at any time and all of it before the result, however often connections are cut and the agent crashes |
| `LinkOrder.StepKeepsOrder` | src/agent/conn.rs:132-167 | the invariant behind it: on every connection each line is at most one above what that connection delivered before, and a result only follows the last line |
| `LinkOrder.FramesClimb` | src/agent/jobs.rs:360-378 | a replay climbs line by line from wherever the stream stands to the last recorded line |
| `LinkOrder.LiveFrameFirst` | src/agent/conn.rs:132-167 | the assumption cannot be dropped: a run in which an agent that reconnects writes a live line before it handles the re-sent start, and an earlier line never reaches the client |
| `LinkOrder.LiveResultFirst` | src/agent/conn.rs:132-167 | nor does it suffice that no line jumps: a run in which a live result overtakes the replay, and none of the recorded lines reaches the client |
| `LinkOrder.NothingMissingIff` | src/relay/api.rs:505-530 | the exact condition: a client misses no line, neither in between nor at the end, if and only if no arriving line jumps over one the relay has not seen and no result or refusal arrives before the last line |
| `LinkOrder.NoHoleIff` | src/relay/api.rs:505-530 | what the first half of it is worth alone: no hole among the lines shown, whatever is missing at the end |
| `LinkOrder.RunMissesNothingIff` | src/agent/conn.rs:132-167 | the same for every run of the link, with refusals, cuts and crashes |
| `LinkAgents.StepIsMove` | src/agent/jobs.rs:383-562 | every locked section of the agent is, seen from one job, one move of the link or none, and a start is answered with what the agent answers |
| `LinkAgents.LineIsHeard` | src/agent/jobs.rs:539-561 | of what a line broadcasts for all jobs of a run, a job gets what the link's move broadcasts |
| `LinkAgents.DoneIsHeard` | src/agent/jobs.rs:506-519 | the end of a run is broadcast once for each of its jobs |
| `LinkAgents.CrashIsMove` | src/agent/jobs.rs:200-213 | a crash between any two saves leaves of a job what the link's crash leaves before the step's move or after it |
| `LinkAgents.BootIsNoMove` | src/agent/jobs.rs:99-136 | a restart that keeps the job changes nothing the link sees |
| `LinkAgents.AgentRunIsLinkRun` | src/agent/jobs.rs:99-562 | every run of the agent with crashes and restarts anywhere is a run of the link, as long as the job stays in the table with its log |
| `LinkAgents.LogsAreOutput` | src/agent/jobs.rs:539-562 | so in every reachable state a job's log is what its unit has printed, cut off at the cap, and all of it once the job is done, and its result is one the unit ended with, however often the agent crashed |
| `LinkResults.DeliversResult` | src/agent/jobs.rs:504-535 | over every run of the link, each result that is delivered is the body of a completion of that run, or the result the job had at its beginning, whatever was replayed, cut or crashed |
| `LinkResults.TellsWhatEnded` | src/relay/api.rs:533-567 | and each result a client is told is one the unit ended with, or the failure that comes with a refusal |
| `EndToEnd.TerminalShowsLog` | src/bin/flakelet-push.rs:402-435 | over any streams of deploys or followed deploys, from any relays, what the printer of a deploy has shown is the unit's log from its first line without a gap or a repetition, and all of it once a result is shown that is not a refusal, given orderly links |
| `EndToEnd.TerminalShowsResult` | src/bin/flakelet-push.rs:518-531 | over the same streams, the result the terminal shows for a target came in one of them and is one its unit ended with, just as its agent reported it, or the failure of a target that stream says was refused |
| `EndToEnd.RelayShows` | src/relay/api.rs:348-407 | the events of a target among all a relay sends are the beginning of what one link told it, or the relay's own refusal if the host could not be reached |
| `EndToEnd.DeployIsStream` | src/relay/api.rs:348-407 | what a deploy leaves its client with is such a stream, if the target is live in one wave at most |
| `EndToEnd.RequestIsStream` | src/relay/api.rs:221-263 | so is the stream of every accepted request, whatever it asks for |
| `EndToEnd.PlannedOnce` | src/relay/api.rs:120-163 | because no name is live in two waves of an accepted plan, nor twice in one |
| `EndToEnd.FollowingIsStream` | src/relay/api.rs:606-664 | so is what following a deploy leaves its client with, for all connected agents with proper names |
| `Telling.TellIsTidy` | src/relay/api.rs:505-575 | whatever arrives for a target, repeated, reordered or late, the events carry rising line numbers and one result, which is last; line zero, a refusal, is followed by the result only |
| `Telling.TellsResult` | src/relay/api.rs:533-567 | what a client is told last of a target is the first result that arrived, its body as the agent reported it; for a refusal it is a failure, and before it a line numbered zero with the agent's reason; before that, what the earlier frames amount to |
| `Telling.TellsOpen` | src/relay/api.rs:519-532 | until a result arrives none is told, and each sign of life is |
| `Telling.ToldSeparately` | src/relay/api.rs:505-575 | however the frames of the targets interleave, the events of each target depend on its own frames alone |
| `Telling.StatusesAreResults` | src/relay/api.rs:553-568 | the statuses returned are those of the results sent, in order |
| `Telling.StatusIsReported` | src/relay/api.rs:553-568 | the status of a target is that of the first result that arrived for it, or a failure if that was a refusal |
| `Telling.StatusWasReported` | src/relay/api.rs:553-568 | and every status is that of such a target |
| `Telling.OneResultEach` | src/relay/api.rs:505-575 | at any moment the targets with a result and the open ones together are those the wave began with, each once |
| `Telling.EveryTargetOnce` | src/relay/api.rs:505-575 | a wave that ended has exactly one result for each target |
| `Telling.NothingFollows` | src/relay/api.rs:511-518 | once all targets have a result, further frames change neither events nor statuses |
| `Telling.KnownByLastAnswer` | src/relay/api.rs:471-492 | a target's own frames decide what a probe knows: nothing without any, else its last answer counts, and without an answer any frame vouches for it |
| `Telling.VouchedIff` | src/relay/api.rs:479-491 | a probe keeps a target if and only if something was heard for it and each error was followed by an acceptance |
| `Telling.ProbeThenStream` | src/relay/api.rs:471-492 | reading any frames through the probe first and then streaming what it left and what follows gives the same events, statuses and open targets as streaming all of it |
| `Waves.Wave.Probe` | src/relay/api.rs:471-492 | it reads a prefix of the channel, up to the deadline or exactly until every target was heard from, leaves the frames that are not mere answers, and drops exactly the targets their own frames do not vouch for |
| `Waves.Learn` | src/relay/api.rs:479-486 | what one frame teaches a probe and whether the stream still gets it |
| `Waves.Wave.Next` | src/relay/api.rs:510-515 | frames left by the probe come first, then new ones, none lost or repeated |
| `Waves.Wave.Stream` | src/relay/api.rs:505-575 | on every channel: it stops exactly when each open target has its result, never reads past that, and has sent exactly what the frames read amount to; a client that leaves has received a prefix |
| `Waves.Translate` | src/relay/api.rs:519-551 | the events and the result of one frame |
| `Waves.Client.Send` | src/relay/api.rs:344-346 | an event reaches a client that is still there |
| `Waves.SendAll` | src/relay/api.rs:569-573 | all events are sent in order, or a prefix of them to a client that left |
| `Deploys.Open` | src/relay/api.rs:425-467 | exactly the targets whose connection takes it are sent their first frame, and exactly the others have a refusal on the channel, among what arrives meanwhile |
| `Deploys.RefusalFirst` | src/relay/api.rs:445-457 | on the channel a target has what its agent sends, and before that the relay's refusal if and only if it could not be reached |
| `Deploys.Partition` | src/relay/api.rs:372-380 | a wave's offline targets and its live ones, in order; what status the former get is stated by Deploys.WaveReports |
| `Deploys.RunWave` | src/relay/api.rs:369-395 | a finished wave has one status for each target, offline ones first, then the results of the frames read from its channel, and the client was told exactly what these amount to; what each status is, is stated by Deploys.WaveReports |
| `Deploys.WaveReports` | src/relay/api.rs:372-395 | of each planned target a finished wave reports offline if it was, else the status its agent reported first, or a failure if it was refused |
| `Deploys.DeployReports` | src/relay/api.rs:372-395 | so does the deploy, of the targets of each finished wave; an offline target makes its wave count as not gone well |
| `Deploys.TranscriptAt` | src/relay/api.rs:361-371 | each begun wave is announced by its number, after all that is told of the waves before |
| `Deploys.RunJob` | src/relay/api.rs:348-407 | whenever a Result is sent, reported and skipped targets are the planned ones, each once, and each reported one has the status its agent reported first, failed if it was refused, or offline if it was; the verdict is ok if and only if every status is updated or unchanged, so only if no target was offline; no wave is begun after one with an offline target or one that did not end well; skipped are exactly the targets of the waves after it; starts go to exactly the reachable live targets of begun waves; at any end the client has a prefix of what the waves that were begun amount to, in order |
| `Deploys.EachTargetOnce` | src/relay/api.rs:361-396 | reported and skipped targets together are the planned targets as a multiset |
| `Deploys.OpenJob` | src/relay/api.rs:606-664 | for the caller whom some readable job recorded under the client id, or else the requester, it asks all flakelets the caller may read, and follows exactly those that what was read before the deadline vouches for, nobody exactly if no agent vouches and none was only refused; it reports each once, with the status that arrived first, is ok if and only if all of these are updated or unchanged, and tells the client what it would be told had nothing been read by the probe |
| `Deploys.FindCaller` | src/relay/api.rs:611-613 | whose deploy is followed: somebody's whom a job recorded that a rule grants the requester, or else the requester's |
| `Deploys.LinesAre` | src/relay/api.rs:613 | the requester is named by its principals, one to a line |
| `Summaries.JobCaller` | src/relay/state.rs:208-221 | a caller recorded by a readable job with the client id, and none exactly if there is no such job |
| `Deploys.FindCandidates` | src/relay/api.rs:615-629 | the nested loops over agents and flakelets |
| `Deploys.CandidatesAre` | src/relay/api.rs:615-629 | they find exactly the advertised flakelets the caller has a rule for, with that rule |
| `Deploys.CandidatesDistinct` | src/relay/api.rs:615-629 | and none twice, given proper host and flakelet names |
| `Deploys.ReachedByAgent` | src/relay/api.rs:445-457 | a candidate whose connection takes the query goes by what its agent sends and nothing else |
| `Deploys.LostIsFollowed` | src/relay/api.rs:445-457 | one whose connection was lost hears the relay's own refusal first, and goes by it if its agent stays silent |
| `Deploys.FollowedIff` | src/relay/api.rs:479-491 | the exact condition, for every candidate: it is followed as its agent vouches for it, except if nothing but the relay's refusal was heard for it, and then it is followed although no agent knows the job |
| `Deploys.NobodyFollowedIff` | src/relay/api.rs:634-641 | so the job counts as unknown if and only if no agent vouches for its candidate and none was only refused |
| `Deploys.Reconnected` | src/relay/agent_conn.rs:135-137 | an agent that reconnects in time and does not know the job has the last word: its candidate is dropped although the refusal was read |
| `Deploys.LostFails` | src/relay/api.rs:645-662 | a candidate that could not be reached and is followed is reported failed, and with it the whole deploy, whatever the other agents say |
| `Deploys.LostConnection` | src/relay/api.rs:606-664 | the smallest input on which a job no agent knows is followed, and fails |
| `Deploys.Attach` | src/relay/api.rs:645-662 | the events of following an open wave: accepted, wave zero, the stream, the result |
| `Plans.ExpandPattern` | src/relay/state.rs:290-314 | the loop over the configuration computes the hosts a pattern stands for; who they are is stated by PlanMeanings.AskedIff |
| `Plans.AddTarget` | src/relay/api.rs:127-158 | the targets of one request entry are added unless their name was seen |
| `Plans.Expand` | src/relay/api.rs:120-163 | the nested loops compute, wave by wave, the targets whose name did not occur before |
| `Plans.PlanIsFresh` | src/relay/api.rs:120-163 | the whole plan is the first-occurrence filter of the naive expansion, so no target appears twice in a request |
| `Plans.EarliestWaveOnly` | src/relay/api.rs:117-119 | a target is planned in a wave if and only if that is the earliest wave that names or matches it, and once there |
| `Plans.Plan` | src/relay/api.rs:221-263 | the answer to a request: the plan, or the first kind of failure with all targets that fail it |
| `PlanMeanings.AskedIff` | src/relay/api.rs:120-163 | what one entry of a request stands for: the target it spells out, or each configured host its pattern stands for and the caller may deploy to, as offline if the host is not connected, else if it has the flakelet; what is not host/flakelet has no host; the rule is the first that grants it |
| `PlanMeanings.PlanIsAsked` | src/relay/api.rs:117-163 | each planned target is asked for by an entry of its wave, and by none before that entry, nothing asked for is left out, and the targets are in the order of the entries, connected hosts first and in the order of the configuration |
| `PlanMeanings.RefusedFor` | src/relay/api.rs:187-263 | the answer to every request: refused for its form, then for an option, then if it asks for nothing, then with the first kind of failure of any target and exactly the targets that have it, in order; otherwise the plan |
| `Plans.AcceptedPlan` | src/relay/api.rs:190-219 | every planned target has its matching rule and a configured host, and is on a connected host that advertises the flakelet or on a matched host that is not connected |
| `Plans.AcceptedIff` | src/relay/api.rs:221-263 | a request is accepted if and only if it is well formed, stands for some host and each of its targets passes each check |
| `Plans.NoProbing` | src/relay/api.rs:187-189 | a request with a malformed or forbidden target is refused in the same words whatever hosts are configured or connected |
| `Jobs.Jobs.constructor` | src/agent/jobs.rs:99-136 | on any directory: unreadable files are dropped, jobs of a state the program does not know are kept, the rest is pruned and resumed as the recovery theorem says; from a directory a crash may leave, the invariant is restored |
| `Jobs.Jobs.Load` | src/agent/jobs.rs:103-121 | the loop over the directory keeps exactly the readable files |
| `Jobs.Jobs.Save` | src/agent/jobs.rs:200-213 | one write of the job's file and one job frame, if the job exists |
| `Jobs.Jobs.Start` | src/agent/jobs.rs:383-434 | refuse, replay or add; the new state, the write, the frames returned and broadcast, keeping the invariant |
| `Jobs.Jobs.Add` | src/agent/jobs.rs:402-433 | the new job in the table and on disk, and in a new run or the followup list |
| `Jobs.Jobs.Enqueue` | src/agent/jobs.rs:420-428 | a busy flakelet's followup list grows, an idle one's next run begins with the job |
| `Jobs.Jobs.SpawnRun` | src/agent/jobs.rs:436-439 | one more run of the flakelet is live, under the next number |
| `Jobs.Jobs.Replay` | src/agent/jobs.rs:355-358 | acknowledgement, log and result of a known job, nothing for another |
| `Jobs.Jobs.MarkAllRunning` | src/agent/jobs.rs:456-465 | every job of the run is marked with the unit and saved, in order, one write and one frame each |
| `Jobs.Jobs.MarkAllDone` | src/agent/jobs.rs:506-519 | every job of the run is done and saved, in order, with its two frames each |
| `Jobs.Jobs.RecordAll` | src/agent/jobs.rs:539-561 | a line is recorded and broadcast for each job that is not cut off, the marker in its place at the cap |
| `Jobs.Jobs.Launch` | src/agent/jobs.rs:451-465 | the step that starts a unit, with its writes and frames, keeping the invariant |
| `Jobs.Jobs.RecordLog` | src/agent/jobs.rs:484-499 | the step that records a line for a run, keeping the invariant |
| `Jobs.Jobs.Complete` | src/agent/jobs.rs:504-535 | the end of a run: jobs done, the followup list becomes the next run or the slot is freed, and the slot is always there |
| `Jobs.Jobs.RecordLocal` | src/agent/jobs.rs:261-322 | a foreign switch of generation is recorded once, with its write and frames |
| `Jobs.Jobs.Refresh` | src/agent/jobs.rs:242-258 | foreign switches are recorded one after the other with their writes and frames, the flakelets are remembered, and broadcast if and only if they changed |
| `Jobs.RecordedOnce` | src/agent/jobs.rs:261-278 | each switch is recorded once: the same look again records, saves and broadcasts nothing |
| `JobResults.SwitchesAreRecorded` | src/agent/jobs.rs:261-322 | a look at the flakelets changes no job, records each switch that others made with the status, generation and revision it led to, and adds no other job |
| `JobResults.SwitchIsRecorded` | src/agent/jobs.rs:261-322 | one such switch: recorded unless the agent made it or it is known |
| `Jobs.Jobs.Prune` | src/agent/jobs.rs:141-167 | retention as a step, with its removals, rewrites and frames in order, keeping the invariant |
| `Jobs.Jobs.FinishedJobs` | src/agent/jobs.rs:146-152 | the finished jobs, each once, by creation time and then id |
| `Jobs.Jobs.DropAndStrip` | src/agent/jobs.rs:153-166 | what is dropped, stripped and left alone |
| `Jobs.Jobs.Resume` | src/agent/jobs.rs:169-198 | slots and runs for any listing of the table, with the invariant restored |
| `Jobs.Jobs.SortJobs` | src/agent/jobs.rs:174-186 | the first loop: running jobs by flakelet with the unit of the last one met, pending ones behind |
| `Jobs.Jobs.StartWaiting` | src/agent/jobs.rs:187-192 | the second loop: where nothing runs, waiting jobs make up a fresh run |
| `Jobs.Jobs.SpawnAll` | src/agent/jobs.rs:194-197 | the first run of each resumed flakelet |
| `JobInvariants.StepKeeps` | src/agent/jobs.rs:383-562 | every locked section keeps the invariant: one live run for each busy slot, no unfinished job stranded or listed twice, equal and capped logs in a run, files that lag behind memory only by the logs of unfinished jobs |
| `JobInvariants.CompleteKeeps` | src/agent/jobs.rs:504-535 | the end of a run keeps it |
| `JobInvariants.StartKeeps` | src/agent/jobs.rs:383-434 | the arrival of a job keeps it |
| `JobInvariants.LaunchKeeps` | src/agent/jobs.rs:451-465 | the start of a unit keeps it |
| `JobInvariants.LineKeeps` | src/agent/jobs.rs:539-561 | a line keeps it |
| `JobInvariants.LocalKeeps` | src/agent/jobs.rs:261-322 | a foreign switch keeps it |
| `JobInvariants.PruneKeeps` | src/agent/jobs.rs:141-167 | retention keeps it |
| `JobInvariants.PruneWritesAre` | src/agent/jobs.rs:153-166 | the state directory after the first few finished jobs were looked at |
| `JobRecovery.CrashConsistent` | src/agent/jobs.rs:200-213 | a crash between any two saves of any step leaves a directory in which unfinished jobs have no log and the running jobs of a flakelet name one unit |
| `JobRecovery.Recovers` | src/agent/jobs.rs:99-136 | load, prune and resume put every pending or running job into exactly one reattached run, fresh run or followup list, and no other job, finished or of a state the program does not know, into any, and restore the invariant |
| `JobRecovery.ResumeSorts` | src/agent/jobs.rs:169-198 | what resuming makes of a flakelet, stated without the loops |
| `JobRecovery.ListingIsIrrelevant` | src/agent/jobs.rs:174-186 | the order in which the table is listed changes neither which runs exist nor their jobs and units |
| `JobRecovery.OnePlaceEach` | src/agent/jobs.rs:421-428 | an unfinished job is in the live run or in the followup list, never both |
| `JobRuns.EveryReachableState` | src/agent/jobs.rs:441-536 | the invariant holds in every state reachable with crashes between any two saves and any number of restarts |
| `JobRuns.ReachableAgent` | src/agent/jobs.rs:421-428 | in every reachable state a slot is busy if and only if one run of the flakelet is live, a followup list implies that, and the slot is there when a run ends |
| `JobRuns.LogsOfARun` | src/agent/jobs.rs:539-562 | all jobs of a run have the same log, numbered from one without gaps, capped, with the marker last |
| `JobRuns.CountsEndedRuns` | src/agent/jobs.rs:520-535 | a flakelet's runs end one by one, only by the step that completes them |
| `JobRuns.FinishedByFirstRunAfterArrival` | src/agent/jobs.rs:421-428 | absent a crash, a job is finished by the first run that begins after it arrived, at the latest when a run of its flakelet ends for the second time; then it is done unless retention dropped it, and in no later run; before, it is kept and unfinished |
| `JobRuns.FinishedOnce` | src/agent/jobs.rs:504-535 | a finished job is done and part of no live run |
| `JobResults.ResultStays` | src/agent/jobs.rs:504-519 | from the step that completes a run on, whatever happens, crashes and restarts included, as long as retention keeps the job: its result is the one of that step, every answer to its start and every replay ends with it and contains no other |
| `JobResults.StartStays` | src/agent/jobs.rs:402-419 | who asked for a job, for which flakelet and when, stays as it was when the job was added |
| `JobResults.StartAnswers` | src/agent/jobs.rs:383-400 | how a start is answered: refused with its reason for an unknown flakelet or a job of another one, with the job's result last if it is done, and without any if it is not |
| `JobResults.FramesAre` | src/agent/jobs.rs:360-378 | a replay is the acknowledgement, the log line by line and the result if there is one |
| `JobResults.EndIsTold` | src/agent/jobs.rs:504-519 | the end of a run is broadcast for each of its jobs, with the result and an entry that says it |
| `JobResults.LaunchIsTold` | src/agent/jobs.rs:451-465 | so is the start of a unit, which changes a job's state and unit only |
| `JobResults.StartIsTold` | src/agent/jobs.rs:402-433 | and a new job |
| `JobNews.StepIsTold` | src/agent/jobs.rs:200-213 | a relay that lists an agent's jobs as they are still does once it heard what any step broadcasts |
| `JobNews.Refs` | src/agent/jobs.rs:338-352 | the sort and the loop over all jobs compute what an agent advertises when it connects |
| `JobNews.AdvertisedAre` | src/agent/jobs.rs:338-352 | jobs are advertised as they are, and a job is left out only if it is finished and 50 others of its flakelet are no older |
| `JobNews.RelayIsCurrent` | src/relay/state.rs:123-142 | so after any steps the relay's entry lists every job it ever heard of as it is now, and no unfinished job is missing |
| `JobRuns.PruneDropsOldest` | src/agent/jobs.rs:141-167 | retention removes exactly a prefix of the finished jobs, none before an older one; a job whose days are not over only as long as there are more than may be kept, so within the limit none; afterwards no finished job is past its days, the table is within the limit unless unfinished jobs alone exceed it, and every kept job is as it was but for the log of a finished one past the days of logs |
| `Printers.Printer.Print` | src/bin/flakelet-push.rs:495-560 | one event is shown unless its line or result was shown before, and ends the deploy if it is the verdict |
| `Printers.Printer.Follow` | src/bin/flakelet-push.rs:564-587 | a stream is shown up to its first verdict, or all of it if it breaks or falls silent |
| `Printers.Deploy` | src/bin/flakelet-push.rs:402-435 | what is shown over any number of streams is a prefix of them joined, ending with the verdict if there is one: that of the result, or success at the first wave if detached |
| `Printers.PrintsOnce` | src/bin/flakelet-push.rs:484-493 | over any number of resumed streams no numbered line and no result is shown twice, and numbers rise |
| `Printers.RowsMean` | src/bin/flakelet-push.rs:495-560 | every row on the terminal says what some event said: a result is the first of its target, and as offline appear exactly the targets so reported |
| `Printers.EventsMarked` | src/bin/flakelet-push.rs:495-560 | every event but a sign of life leaves its row or finds it there |
| `Printers.ShownInOrder` | src/bin/flakelet-push.rs:495-560 | in the order of the events, the verdict last |
| `Printers.StreamsComplete` | src/bin/flakelet-push.rs:484-493 | if every stream shows the beginning of a log, the terminal shows it as far as the longest of them, each line once |
| `Registry.EntryIsRegistered` | src/relay/state.rs:80-142 | for every interleaving of connections, a host's entry is the registered connection's hello overwritten by its own reports in order; what that comes to is stated by Registry.EntrySays |
| `Registry.EntrySays` | src/relay/state.rs:80-142 | read off the trace alone: each job is as the connection last reported it, or as its hello had it, and no other is there; the flakelets are those of its last list or its hello, each with the generation and revision of the last finished job of its name since that gives one; it was heard from when it last said so |
| `Registry.OthersChangeNothing` | src/relay/state.rs:99-142 | ops of other connections and other hosts leave the entry alone; a late unregister never evicts a successor |
| `Registry.RemovedByOwn` | src/relay/state.rs:99-105 | an entry disappears only by its own connection's unregister |
| `Registry.ReplacedAfterSilence` | src/relay/state.rs:84-97 | a connection is replaced only if nothing was heard from it for 45 seconds |
| `Registry.Relay.Register` | src/relay/state.rs:84-97 | registration as an op of the trace: refused, changing nothing, if and only if the present connection is alive, and else the host's entry is the hello |
| `Registry.Relay.Unregister` | src/relay/state.rs:99-105 | as an op of the trace |
| `Registry.Relay.Seen` | src/relay/state.rs:107-113 | as an op of the trace |
| `Registry.Relay.RecordFlakelets` | src/relay/state.rs:115-121 | as an op of the trace |
| `Registry.Relay.RecordJob` | src/relay/state.rs:125-142 | as an op of the trace, with the search for the job's flakelet; afterwards the present connection's job is as reported, whatever was there |
| `Registry.Update` | src/relay/state.rs:130-139 | the first flakelet of the job's name takes over what the job reports, the others stay |
| `Registry.Relay.Connect` | src/relay/agent_conn.rs:114-137 | a connection after its hello: refused, or registered with what the hello says and sent every start still waiting for the host, each once |
| `Registry.Relay.Subscribe` | src/relay/state.rs:324-329 | the subscription of a host and job is set, whoever held it before |
| `Registry.Relay.Unsubscribe` | src/relay/state.rs:331-336 | it is removed, and no other |
| `Registry.Relay.PendingStarts` | src/relay/state.rs:339-346 | the starts of a host's subscriptions, each once, in any order |
| `Registry.Relay.Dispatch` | src/relay/state.rs:349-357 | a frame goes to the subscriber of its host and job only, and a subscriber that is gone is forgotten |
| `Sorting.Sort` | src/relay/state.rs:258-262 | the sorting used for summaries, their targets and finished jobs: in order, and the same elements |
| `Summaries.JobSummaries` | src/relay/state.rs:225-264 | one summary for each deploy with a job that a rule grants the caller to read: a target for each such job with its host, state, status and generation, created with the first, finished with the last if all are, targets by name, deploys newest first and then by id |
| `Summaries.Values` | src/relay/state.rs:258-261 | the groups in any order, each once, with sorted targets |
| `Summaries.OrderIsIrrelevant` | src/relay/state.rs:225-264 | the order in which hosts and jobs are visited changes no summary but for the spelling of the caller's name |
| `Srv.ReadName` | src/srv.rs:70-92 | total; it succeeds if and only if labels and pointers of fewer than 128 steps lead from the position to a zero byte, and returns them as text, with replacement characters for malformed UTF-8, and the position behind the name; otherwise its error says where the message breaks off, or that there are 128 steps |
| `Srv.ReadAnswer` | src/srv.rs:120-136 | it decodes exactly the answer that lies at a position, or says what is cut off |
| `Srv.ParseResponse` | src/srv.rs:99-139 | total; it returns exactly the SRV records of a message laid out as a response, in order, and succeeds on no other message; each header error if and only if the header calls for it, and any other error with the question or answer in which the message breaks off |
| `Srv.NameIsUnique` | src/srv.rs:70-92 | at most one name lies at a position |
| `Srv.ResponseIsUnique` | src/srv.rs:99-139 | a message has at most one reading |
| `SrvWire.PlainNameRoundTrip` | src/srv.rs:70-92 | a name written label by label lies where it was written, with its text and end, whatever surrounds it |
| `SrvWire.CompressedNameRoundTrip` | src/srv.rs:70-92 | so does a name that ends in a pointer, and its end does not depend on where the pointer leads |
| `SrvMessages.ResponseRoundTrip` | src/srv.rs:99-139 | a whole response written with a header, any questions, answers of any types, names written out or ending in a pointer to the first question, and anything behind them, is laid out as it was written, and its records are those written |
| `SrvMessages.ParseWritten` | src/srv.rs:99-139 | so the decoder gives back exactly the SRV records of every written response, in order |
| `SrvMessages.NameRead` | src/srv.rs:70-92 | every name of it is read where it was written, with its text and end |
| `Glob.MatchesIffFilled` | src/auth/policy.rs:124-139 | a pattern matches if and only if some runs of characters in place of its stars give the text |
| `Policies.RuleFor` | src/auth/policy.rs:48-60 | the first rule, by name, that allows the target, and none if and only if no rule does |
| `Policies.RuleForIff` | src/auth/policy.rs:48-89 | a caller is allowed a target if and only if some rule shares a principal with it and has a target, cut at its first slash, whose host part stands for the host, or names a group with a member that does, and whose flakelet part stands for the flakelet |
| `Policies.SeesHostIff` | src/auth/policy.rs:62-83 | a caller sees a host if and only if such a rule has a target whose host part stands for it |
| `Policies.RulesOnlyAllow` | src/auth/policy.rs:48-72 | more principals never lose a target, and whoever may deploy to a host may see it |
| `Policies.Hits` | src/auth/policy.rs:33-38 | the hosts whose entry shares a principal with the caller |
| `Policies.Validate` | src/auth/policy.rs:91-121 | a configuration is accepted if and only if all rule targets are well formed and no principal is listed for two hosts |
| `Policies.CheckTarget` | src/auth/policy.rs:94-107 | what is said to be wrong with a target is: no slash, two slashes, or a group that is not there |
| `Policies.WellFormedIff` | src/auth/policy.rs:94-107 | a rule target is well formed if and only if it is a host part, one slash and a flakelet part, and a group it names exists |
| `Policies.HostForIff` | src/auth/policy.rs:31-46 | a caller with any number of principals is a host if and only if exactly one entry shares a principal with it, and ambiguous if and only if two do |
| `Policies.DisjointIffUnambiguous` | src/auth/policy.rs:31-46 | the load-time check holds exactly when no single principal can be taken for two hosts |
| `Policies.AmbiguousIsMixed` | src/auth/policy.rs:31-46 | after it, only a caller with different principals of different hosts is ambiguous |
| `Sse.Parser.Push` | src/sse.rs:20-41 | the buffering parser does what a character by character automaton does with the text a chunk of bytes reads as, on any chunk |
| `Sse.ChunkingIsIrrelevant` | src/sse.rs:20-41 | cutting a text into chunks, but not inside a character, changes neither events nor state |
| `SseLines.StreamMeans` | src/sse.rs:20-41 | on event streams of any sender: line breaks with any number of carriage returns, data in several lines joined by line breaks, other fields passed over, an event whose data cannot be decoded dropped |
| `SseLines.EncodedLines` | src/sse.rs:5-9 | what the relay writes is such an event: its name, its data and a blank line |
| `Utf8.ChunksIff` | src/sse.rs:20-22 | the exact condition: a text that comes in chunks is read as it was written if and only if no chunk begins inside a character |
| `Sse.CutInsideLetter` | src/sse.rs:20-41 | a stream cut inside a character, whose event arrives as another one |
| `SseCuts.StreamRead` | src/sse.rs:20-41 | on any stream in any chunks, cut inside characters or not: each event arrives as what its data are read as, in order, comments bring nothing, the parser ends in its first state, and the data of an event are misread exactly if some chunk begins inside one of their characters |
| `SseCuts.ArrivesIff` | src/sse.rs:20-41 | so a stream brings its events unchanged if and only if no chunk begins inside a character of the data of one; comments and names may be cut anywhere |
| `Cuts.TwoTexts` | src/sse.rs:20-22 | what chunks of two texts read as is what the chunks of each read as, with the cuts inside characters where they were |
| `Sse.StreamRoundTrip` | src/sse.rs:6-41 | events and comments written one after the other and cut anywhere but inside a character are read back |
| `Utf8.ReadsCutOff` | src/sse.rs:20-22 | bytes that break off anywhere in a text read as its first characters and at most one replacement character |
| `Utf8.RoundTrip` | src/sse.rs:20-22 | a text encoded and read is that text |
| `Utf8.TakenIff` | src/sse.rs:20-22 | reading any bytes takes the character they begin with, or replaces as many as some character could begin with, at least one |
| `Sse.BrokenStream` | src/sse.rs:20-41 | a stream cut short, be it inside a character, yields a prefix of its events |
| `Form.FormEncode` | src/oidc.rs:82-102 | the nested loops compute the encoding of the fields |
| `Form.PushEncoded` | src/oidc.rs:92-98 | the byte loop appends the encoding of a text |
| `Form.PushPair` | src/oidc.rs:88-99 | one field is appended |
| `FormMeanings.TextEncoded` | src/oidc.rs:92-98 | letters, digits and four signs stand for themselves, every other byte is a percent sign and two upper-case digits |
| `FormMeanings.FieldsEncoded` | src/oidc.rs:82-102 | a form is its fields joined by ampersands, each a name, an equals sign and a value |
| `Form.PercentDecode` | src/relay/ui.rs:92-112 | the index loop computes the decoding, as text, unless it stops the program |
| `FormMeanings.DecodedIff` | src/relay/ui.rs:92-112 | on all bytes: what is decoded is what the bytes spell, piece by piece, a plus sign a space, a percent sign and two digits a byte, a plus sign and a digit taken for two, and any other byte itself |
| `Form.StopsIffCuts` | src/relay/ui.rs:98 | on all bytes: it stops the program if and only if some percent sign has two more bytes behind it that cannot be cut out as text |
| `Form.TextStopsIff` | src/relay/ui.rs:98 | on text: if and only if the second byte behind some percent sign belongs to a character that goes on |
| `Form.StopsHere` | src/relay/ui.rs:98 | a text of three characters on which it does |
| `Form.DecodeUndoesEncode` | src/relay/ui.rs:92-112 | decoding gives back all encoded bytes, and the encoding contains neither separator |
| `Form.TextRoundTrip` | src/relay/ui.rs:92-112 | and every encoded text |
| `Form.FormRoundTrip` | src/oidc.rs:82-102 | cutting an encoded form at its separators and decoding gives back every field in order |
| `Form.QueryFindsField` | src/relay/ui.rs:85-90 | a lookup by encoded name finds the first field of that name, and nothing if there is none |
| `FormMeanings.QueryIff` | src/relay/ui.rs:85-90 | in any query, a lookup gives the decoded value of the first piece with that name, and nothing exactly if there is none |
| `Form.PlainKey` | src/relay/ui.rs:85-90 | a name is its own encoding if and only if none of its bytes is reserved |
| `Form.PlainLookupIff` | src/relay/ui.rs:85-90 | so a lookup by the plain name finds the field in every form if and only if none of its bytes is reserved |

## Left out

- Links.LinkIsSafe: assumes that the job stays in the agent's table with its log while the relay waits for it, and that at most one open wave waits for a host and id.
- LinkOrder.LinkIsComplete: does not cover a lagging broadcast receiver, refusals, or frames that arrive before the wave subscribed. `LinkOrder.RunMissesNothingIff` covers refusals.
- EndToEnd.TerminalShowsLog: assumes orderly links of the same unit for all streams.
- Deploys.CandidatesDistinct: assumes that host names have no slash and that no agent advertises a flakelet twice, which the program does not check. `EndToEnd.FollowingIsStream` assumes the same.
- SseCuts.ArrivesIff: assumes of JSON that the text of an event, misread because it was cut inside a character, is not the text of the same event. `SseCuts.StreamRead` does not.
- Deploys.OpenJob: takes the connected agents, their flakelets and their jobs as lists in any order, and the derivation of job ids as a parameter.
- Waves.Wave.Stream: does not capture waiting. Where the program waits for a frame that never comes, the model returns that it is still waiting, and the deadline of a probe is a number of frames.
- Plans.Plan: does not model HTTP status codes, messages and counters, and the capability check `docs/DESIGN.md` describes for options, which the code replaces by refusing every option.
- Plans.AcceptedPlan: assumes that host names are not empty and have no slash, and that rules have a name. The program does not check that.
- Plans.NoProbing: assumes the same.
- Jobs.Jobs.Refresh: models a look at the flakelets without other steps in between. Each recorded switch is a step of its own in the runs of `JobRuns`.
- Jobs.Jobs.Launch: models a unit that cannot be started as launched, one line and a failed end, which is what the program records.
- Registry.Relay.Connect: does not model versions and capabilities of agents and the dashboard's change notifications.
- Failed and partial writes of the agent. A save is one atomic write, as writing a temporary file and renaming it is meant to be.
- The by-file that attributes a generation, the progress tick in the agent's table, and the names by which local switches are listed, which are a parameter.
- Wrap-around of 64-bit times and sequence numbers.
- Job ids are numbers in the order of their spelling. Their derivation is a parameter of the deploy.
- The JSON encoding, a pair of inverse functions that writes no raw newline.
- The order of relays by priority and weight, retries and backoff of the push client, its argument parser.
- Authentication, sessions, TLS, web sockets, HTTP, HTML pages, metrics, systemd and journal calls.
