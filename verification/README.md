# Bug-triage service: a verified model

The service investigates bug tickets: a human or a poller starts an investigation, a human accepts or
rejects its verdict, background threads post to Jira, a dry run proposes a patch that a merge request
commits, an indexer summarises the code graph, and a ledger keeps what it all cost. This project models
those parts in Dafny and proves what they promise. `dafny verify dfyconfig.toml` checks everything.

## How it is modelled

**Review lifecycle.** `ReviewStore` is the `reviews` table: one method per conditional UPDATE. `ReviewApp`
holds the request handlers and background threads as methods over the table, the Jira comments and the live
threads. Each is proved to make exactly the step `Lifecycle` gives it. `Lifecycle` is the transition system
of one ticket: handlers are atomic, threads stop after every store or Jira call, Jira calls may fail, and the
process may restart at any moment. `HandlerAnswers` says when each handler goes through, `JobOutcomes` and
`InvestigationOutcomes` how each thread ends. `LifecycleSafety`, `JobSlot`, `AutoComment` and `CommentRisks` are
the theorems over all runs of it, and `ThreadRuns` the runs they build from thread calls alone.

**Auto-RCA.** `AutorunRules` is the settings panel and the eligibility rules, `AutorunTick` one poll,
`PollerCaps` many tickets, ticks and other writers interleaved under a clock, and `TickRefinement` ties the
sequential tick to that system. `PanelEdits` says which edits are taken and what they store, `AutorunLaunches`
that no eligible issue is passed over.

**Code graph.** `GraphBuilder` is the syntax-tree visitor with its two stacks, `GraphLinker` call resolution,
`CodeGraph` the name index and the two searches, `Reachability` the walks they are measured against.
`SourceTrees` says what a file defines and calls, `CallLinks` which calls become which edges; `SelfCalls` and
`EdgeTrust` what whole files make of self calls and of the trusted label.

**Patches.** `ExactPatch` has `str.count`, the reviewing applier and the committing applier; `FixCommit` goes
from the model's edits to the commit.

**Text and money.** `MarkedText` and `Summary` are the regenerated summary and its human block, with
`SummaryContents` on what it shows of the graph; `RunMeter` is the token meter; `CostLedger` the ledger and its statistics; `TriageList` the list a ticket never leaves.
`Basics`, `Sorting`, `Grouping` and `PyText` are Python's dict, `sorted`, `setdefault(...).append` and string
operations.

## Where the code does not do what it promises

Each of these has an exact condition, or a run that shows the failure, in the table below.

- `/reset` frees the job slot under any live job thread; `_refuse_if_posting` stops it only while an automatic
  comment is recorded. Afterwards a reject can start beside the old job, and one overwrites what the other
  decided. From a sound slot, all runs ahead keep one decider iff the step taken is not a reset that goes
  through while a job is live (`JobSlot.SafeAheadIff`). Every such reset leads there by rejects and thread calls
  alone (`JobSlot.ResetUnderJobIsFatal`), and a new ticket reaches one without any posting job
  (`JobSlot.ResetUnderFixJobBreaksTheSlot`).
- Automatic comments: at most one per ticket, never lost, none left on a rejected ticket. /rca, /reset and an
  unclear decision never endanger this. Exactly three kinds of step do, each by thread calls alone
  (`CommentRisks.SafeAheadIff`, `CommentRisks.UndisciplinedIsFatal`), and every new ticket can get to each:
  - The poller's claim looks at the row only. It is unsafe beside an investigation that has yet to read the
    trigger, and beside a posting job that has yet to decide. /reset is what makes a row claimable under such a
    thread (`CommentRisks.ClaimAfterResetIff`): /rca, /reset and a claim can post two comments
    (`CommentRisks.NewTicketCanPostTwice`). A claim beside a reject can leave a comment on a rejected ticket
    (`CommentRisks.ClaimSafeIffNoLiveReject`, `CommentRisks.NewTicketCanBeStranded`).
  - Accept and reject do not look for an investigation that may still post. It then comments on a ticket that
    is decided (`CommentRisks.NewTicketCanPostAfterReject`).
  - A crash between an automatic post and its recording orphans the comment, and only such a crash does
    (`AutoComment.CrashKeepsIff`, `CommentRisks.NewTicketCanBeOrphaned`).
- Accept and reject do not look for a running investigation either. A decision stands against everything but /rca
  and /reset iff none is running when it is made: one that is puts the ticket back to 'rca_ready'
  (`LifecycleSafety.DecisionStaysIff`, `LifecycleSafety.NewTicketCanLoseItsDecision`).
- "Poll now" can start a tick beside the poller's. All later runs keep both caps iff no tick under way can still
  claim (`PollerCaps.BeginIsSafeIff`). Whatever the caps are, two ticks at once can launch twice the smaller one
  (`PollerCaps.OverlappingTicksBreakTheCaps`); serialised ticks keep both (`PollerCaps.CapsHold`).
- "Not unique" is tested with `str.count`, which does not see overlapping occurrences. The test means
  uniqueness on every text iff the snippet has no border (`ExactPatch.CountTestsUniquenessIff`).
- The human block survives a re-index iff the human start marker is in none of the project, the sha, the date,
  the file paths and the qualnames the run is given (`Summary.ReindexPreservesIff`). Strings without '<' always
  meet this (`Summary.PlainIsUntainted`); a file named like the marker does not (`Summary.MarkerPathLosesBlock`).
- A call that resolves uniquely always has its edge, but the edge can read "ambiguous": the first call between
  the two decides (`GraphLinker.UniqueCallHasItsEdge`). A file with `f()` before `self.f()` shows it
  (`EdgeTrust.UniqueCallLosesTrust`).
- A self call is looked up by splitting the caller's id at its first "::". The caller's qualname comes back iff
  its file path has no "::" and does not end in ':' (`GraphLinker.QualnameRecoveredIff`). Self calls of a file
  stay in their class, whatever the files, iff the text between the first "::" of its path and its last dot does
  not read as a class (`SelfCalls.SelfCallsStayIff`), as "pkg" does in `a::pkg.py`.
- `transitive_callers` never looks for roots in its first round, so the last caller on a returned chain is not
  a root (`CodeGraph.CallersAreChains`).
- A ledger import repeats without a trace iff every row has a source reference
  (`CostLedger.ImportTwiceIff`); the backfill's rows all have one.
- The repository's README.md:204 says Auto-RCA never posts to Jira. The code has an `auto_post` switch, and
  the model follows the code.

## Model

| member | source | states |
|---|---|---|
| LifecycleSafety.NeverWedged | rca_agent/webapp/db.py:152-161 | In every interleaving, resets and restarts included, status 'running' has a live investigation behind it and job status 'running' a live job |
| LifecycleSafety.RcaThreadEnds | rca_agent/webapp/app.py:235-292 | In every run, whatever else happens in between, an investigation makes at most five calls of its own, fewer the further it has come, and once they are made its thread is gone |
| LifecycleSafety.RcaLeavesRunning | rca_agent/webapp/app.py:235-262 | The first call of an investigation takes its row out of 'running', and it stays out until that run claims it anew |
| LifecycleSafety.JobThreadEnds | rca_agent/webapp/app.py:628-694 | In every run, whatever else happens in between, an action job makes at most six calls of its own, and once they are made its thread is gone |
| LifecycleSafety.JobLeavesRunning | rca_agent/webapp/db.py:302-316 | A job that makes its last call leaves its row out of 'running', until a new job of that run starts |
| JobOutcomes.JobOutcome | rca_agent/webapp/app.py:628-694 | A job from its start to its last call, whatever else happens in between: its row then reads done iff none of its calls raised and failed otherwise. A posting job that is done decided in exactly one call, by its kind, with the comment id Jira had handed it; a failed job and a fix job changed neither status nor comment in any call |
| JobOutcomes.PostingJobSucceeds | rca_agent/webapp/app.py:628-694 | A posting job alone whose calls all succeed ends as done, the ticket accepted or rejected by its kind, with the new id Jira handed out as its comment and on Jira |
| JobOutcomes.FixJobSucceeds | rca_agent/webapp/app.py:365-396 | A fix job alone whose calls succeed on a ticket with a verdict ends as done and decides nothing |
| JobOutcomes.JobFails | rca_agent/webapp/app.py:628-694 | Any job alone one of whose calls raises ends as failed and decides nothing |
| InvestigationOutcomes.SuccessfulRunEnds | rca_agent/webapp/app.py:235-309 | A run that succeeds stores its verdict. It makes five calls iff it is automatic with the switch on, and then records either the id of its comment, which is on Jira, or why there is none; otherwise it posts nothing |
| InvestigationOutcomes.FailedRunEnds | rca_agent/webapp/db.py:420-441 | A failed run makes one call, loses no verdict, keeps its reason and posts nothing: the ticket is failed if it had no verdict and ready if it had |
| LifecycleSafety.VerdictSurvives | rca_agent/webapp/db.py:420-441 | Without /reset a verdict stored once is there at the end of every run: it is what the last successful agent run of it saved while still investigating, or the old one if there was none |
| LifecycleSafety.DecisionStaysIff | rca_agent/webapp/app.py:570-601 | For a decided ticket: every run without /rca and /reset keeps it decided iff no live investigation is still running |
| LifecycleSafety.NewTicketCanLoseItsDecision | rca_agent/webapp/app.py:570-581 | Every new ticket has a run to where it is accepted with an investigation running |
| LifecycleSafety.ReadyHasVerdict | rca_agent/webapp/db.py:230-235 | In every run a row reading 'rca_ready' has a verdict |
| LifecycleSafety.AutoRunOnce | rca_agent/webapp/db.py:345-358 | Over any run at most one automatic claim succeeds, none once the row is stamped, and the stamp never changes |
| JobSlot.SlotStep | rca_agent/webapp/app.py:547-553 | From a sound slot a step leaves it sound iff it is not a reset that goes through under a live job |
| JobSlot.SlotAlwaysSound | rca_agent/webapp/db.py:290-316 | Runs in which no reset goes through under a live job keep the slot sound: one job, named in the row, undecided while it posts; refused resets are allowed |
| JobSlot.OnePostingJob | rca_agent/webapp/app.py:646-710 | In such runs a posting job is the only live job and never overwrites a human decision |
| JobSlot.SafeAheadIff | rca_agent/webapp/app.py:508-523 | After a step from a sound slot, no run in which resets respect live jobs ever has two posting jobs or an overwritten decision, iff the step is not itself a reset that goes through under a live job |
| JobSlot.ResetUnderJobIsFatal | rca_agent/webapp/app.py:508-523 | From a sound slot, every reset that goes through under a live job of any kind and phase is followed by a run without resets in which a second posting job is about to overwrite the first one's decision |
| JobSlot.ResetUnderFixJobBreaksTheSlot | rca_agent/webapp/app.py:508-523 | A run from any new ticket whose resets are all taken while no posting job is live, and that still ends with one posting job about to overwrite what another decided |
| AutoComment.AutoCommentsAccounted | rca_agent/webapp/app.py:295-325 | From a new ticket, runs with /rca, /reset and unclear decisions at any moment post at most one automatic comment; one still on Jira is recorded, accepted or in the hands of the thread about to record it; a rejected ticket has none recorded and shows none a human did not accept; one an accepted ticket records was accepted. Claims, accepts, rejects and crashes are limited as SafeAheadIff shows they must be |
| AutoComment.DisciplinedRunKeeps | rca_agent/webapp/app.py:570-601 | Every such run keeps the whole comment invariant: at most one live investigation may still post, and beside it the ticket is neither accepted nor rejected and no posting job has yet to decide |
| AutoComment.CrashKeepsIff | rca_agent/webapp/db.py:152-161 | A restart keeps the invariant iff no posted comment is known only to a live thread |
| CommentRisks.NewTicketCanBeOrphaned | rca_agent/webapp/app.py:295-309 | Every new ticket has a disciplined run after which a crash leaves an automatic comment on Jira that nothing accounts for |
| CommentRisks.SafeAheadIff | rca_agent/webapp/app.py:295-325 | From any ticket that keeps the invariant and for every step: all disciplined runs after it keep the promise iff the step is disciplined. Undisciplined are only a crash with an unrecorded post on Jira, a claim that goes through beside an investigation that has yet to read the trigger or a posting job that has yet to decide, and an accept or reject that goes through beside an investigation that may still post |
| CommentRisks.UndisciplinedIsFatal | rca_agent/webapp/app.py:265-309 | Every undisciplined step is followed by a run of thread calls alone that breaks the promise |
| CommentRisks.ClaimAfterResetIff | rca_agent/webapp/app.py:508-523 | After a reset that goes through, under whatever threads, the next claim is safe iff the ticket had been claimed before or no thread is live that has yet to read the trigger or to decide |
| CommentRisks.NewTicketCanPostTwice | rca_agent/webapp/app.py:508-523 | For every new ticket: /rca, /reset and the poller's claim, then thread calls alone, put two automatic comments on Jira |
| CommentRisks.NewTicketCanPostAfterReject | rca_agent/webapp/app.py:584-601 | For every new ticket: a claim, its verdict and a local reject, then thread calls alone, leave a rejected ticket with an automatic comment on Jira and in the row that nobody accepted |
| CommentRisks.ClaimSafeIffNoLiveReject | rca_agent/webapp/db.py:345-358 | The threads live after an automatic claim can never lead to a rejected ticket with an automatic comment iff no undecided reject is live |
| CommentRisks.NewTicketCanBeStranded | rca_agent/webapp/db.py:345-358 | For every new ticket: a reject and a claim, then thread calls alone, leave a rejected ticket that records an automatic comment |
| PollerCaps.CapsHold | rca_agent/webapp/db.py:345-394 | With serialised ticks, whatever else is interleaved, no IST day holds more than the daily cap of claims and running automatic rows stay within max(before, max_parallel) |
| PollerCaps.SerialisedRunKeeps | rca_agent/webapp/autorun.py:346-390 | The invariant behind the caps, kept by every action of every serialised run: at most one tick can still claim, and its slots fit both caps |
| PollerCaps.OverlappingTicksBreakTheCaps | rca_agent/webapp/app.py:764-772 | For all caps of at least one: two ticks that count before either claims, from an empty table, leave twice the smaller cap of automatic runs in flight and of claims that day |
| PollerCaps.BeginIsSafeIff | rca_agent/webapp/autorun.py:329-390 | For any table and any ticks under way, each either spent or led to a claim by its own next calls: if a tick starts now, all later runs without a further overlap keep both caps iff every tick under way is spent |
| PollerCaps.StampsStayPast | rca_agent/webapp/db.py:345-358 | In every run no claim is stamped later than the clock |
| PollerCaps.SinceMidnightIst | rca_agent/webapp/db.py:370-376 | The day start is the last 18:30 UTC, and a time is at or after it iff its IST day is not before today's |
| TickRefinement.TickIsASerialisedRun | rca_agent/webapp/autorun.py:329-390 | What a sequential tick leaves in the table is the end of a serialised run of the interleaved system |
| TickRefinement.TickStaysWithinCaps | rca_agent/webapp/autorun.py:346-352 | So a tick leaves both caps respected |
| AutorunTick.LaunchesObeyTheRules | rca_agent/webapp/autorun.py:215-243 | Every launch is an AUT issue of an allowed type, not done, not QA, created at or after the watermark, none twice, in creation order, within the slots |
| AutorunTick.ByCreatedSorts | rca_agent/webapp/autorun.py:360-364 | Sorting the hits keeps each one, orders them by creation time and leaves equal times in Jira's order |
| AutorunTick.Poller.Tick | rca_agent/webapp/autorun.py:329-390 | One poll launches exactly the first min(slots, n) distinct issues that meet the rules of AutorunLaunches.EligibleIff, in creation order: it leaves exactly their synced and claimed rows, one new investigation thread for each, and the state the panel shows; it raises iff it gets to search and the search fails, and then writes nothing |
| AutorunTick.Poller.LaunchFrom | rca_agent/webapp/autorun.py:362-386 | The launch loop leaves the rows and the threads of the first `slots` candidates, in order |
| AutorunTick.Poller.Offer | rca_agent/webapp/autorun.py:366-384 | One hit is launched iff it meets the rules of AutorunLaunches.EligibleIff against its stored row: then it is synced, claimed and given a thread; otherwise rows and threads are untouched |
| AutorunTick.OneInvestigationEach | rca_agent/webapp/autorun.py:379-380 | After a tick every launched ticket has exactly one investigation more, under its own id, and every other ticket has the threads it had |
| AutorunLaunches.EligibleIff | rca_agent/webapp/autorun.py:215-243 | `is_eligible` says ok iff the key starts with AUT-, the type is allowed, the issue is neither done nor QA, was created at or after the watermark, and has no row or a pending one without verdict and stamp |
| AutorunLaunches.EligibleIsLaunched | rca_agent/webapp/autorun.py:329-390 | Nobody is passed over: the first hit of its key in creation order that meets each of these rules is launched, unless as many automatic runs are on as max_parallel, or as many were started that IST day as the cap, counting this tick's launches, none of which was created later |
| AutorunLaunches.LaunchedRowIs | rca_agent/webapp/autorun.py:374-384 | After a tick each launched row is running, automatic and stamped with its own claim, without verdict or error and with Jira's type and status; every other row is as it was |
| AutorunLaunches.StateAfter | rca_agent/webapp/autorun.py:331-358 | The state the panel shows, by the rule that stopped the poll; Jira is searched iff none did |
| AutorunRules.EligibleIsClaimable | rca_agent/webapp/autorun.py:215-243 | An eligible issue, once synced, passes the claim's WHERE clause |
| AutorunRules.EditsStayValid | rca_agent/webapp/autorun.py:104-137 | From valid settings every history of panel edits leaves valid settings: ranges, non-empty duplicate-free known types, clean tokens, a watermark when enabled |
| AutorunRules.DefaultsValid | rca_agent/webapp/autorun.py:43-55 | The defaults are the listed values, valid and switched off |
| AutorunRules.UpdateKeepsValid | rca_agent/webapp/autorun.py:104-137 | An accepted update keeps settings valid |
| AutorunRules.WatermarkIsLatestSwitchOn | rca_agent/webapp/autorun.py:131-136 | The watermark is the time of the last off-to-on edit |
| AutorunRules.WatermarkOtherwiseStays | rca_agent/webapp/autorun.py:131-136 | Without an off-to-on edit the watermark never moves |
| AutorunRules.CleaningIsIdempotent | rca_agent/webapp/autorun.py:90-101 | Cleaned tokens are clean, duplicate-free and cleaned to themselves |
| AutorunRules.CleanTokens | rca_agent/webapp/autorun.py:90-101 | The loop raises iff some non-empty value is no token, else returns the distinct tokens in first-seen order |
| AutorunRules.ApplyUpdate | rca_agent/webapp/autorun.py:104-137 | The panel's update is refused iff a field is out of bounds, unknown or unclean; else every field is as specified |
| AutorunRules.ApplyLimits | rca_agent/webapp/autorun.py:109-115 | The numeric fields are refused or stored together |
| AutorunRules.ApplyExcludes | rca_agent/webapp/autorun.py:125-127 | The exclude lists are refused or stored cleaned |
| AutorunRules.CleanTypes | rca_agent/webapp/autorun.py:116-124 | Work types are refused iff empty or unknown, else stripped and de-duplicated |
| PanelEdits.TakenIff | rca_agent/webapp/autorun.py:57-137 | An edit is taken iff each number is within its limits, a list of types names at least one and only the nine work types, and every exclude value comes down to nothing or to a token of 1 to 40 of a-z, 0-9, _ and - |
| PanelEdits.EditStores | rca_agent/webapp/autorun.py:104-137 | A taken edit stores every field it gives, auto_post included, lists cleaned and without repeats, and leaves the others; the watermark moves iff it switches on what was off |
| PanelEdits.TokensInOrder | rca_agent/webapp/autorun.py:90-101 | Tokens stay in the order in which they were first given |
| PanelEdits.LookbackIsHeld | rca_agent/webapp/autorun.py:159-166 | The query is refused iff a type is unknown or there is none; its look-back is held between 1 and 168 hours |
| AutorunRules.EditedSettingsSearch | rca_agent/webapp/autorun.py:159-166 | After any edits from the defaults the search is never refused and its look-back never clamped |
| CodeGraph.CallersAreChains | rca_agent/graph.py:96-116 | A node is returned iff some call chain of 1 to max_depth usable edges leads from it to a root and its last caller is no root |
| CodeGraph.CallersOnEdges | rca_agent/graph.py:96-116 | The same on the edges themselves: chains of edges, none ambiguous unless asked for, whose last caller is no root |
| CodeGraph.NonRootCallers | rca_agent/graph.py:96-116 | A node that is no root is returned iff any walk of 1 to max_depth usable edges leads to a root |
| CodeGraph.RootCallers | rca_agent/graph.py:96-116 | A root is returned only via a walk of at least two edges back to a root |
| CodeGraph.CallersSaturate | rca_agent/graph.py:96-116 | A depth past the number of distinct edge sources changes nothing |
| CodeGraph.RepoGraph.TransitiveCallers | rca_agent/graph.py:96-116 | By default a node that is no root is returned iff 1 to max_depth edges, none of them labelled ambiguous, lead from it to a root, each starting where the one before ended; with include_ambiguous iff any edges do. For all nodes, roots included, the result is the bounded caller set |
| CodeGraph.RepoGraph.SearchCallers | rca_agent/graph.py:101-114 | The frontier loop, with its early end, finds exactly the ids from which 1 to max_depth edges lead to a root, none ambiguous unless asked for, the last one not out of a root |
| CodeGraph.RepoGraph.CallersOfFrontier | rca_agent/graph.py:105-112 | One round finds exactly the new sources of edges into the frontier, ambiguous ones left out unless asked for |
| Reachability.BallIsWalks | rca_agent/graph.py:118-141 | The ids within k rounds are exactly those with a walk of at most k arcs to a start |
| Reachability.BallSaturates | rca_agent/graph.py:96-116 | After as many rounds as there are other sources the reached set is final |
| CodeGraph.RepoGraph.GetSubgraph | rca_agent/graph.py:118-141 | Missing iff the symbol has no node; else the nodes within undirected distance depth and exactly the edges with both ends among the kept ids |
| CodeGraph.SubgraphOnEdges | rca_agent/graph.py:118-141 | The kept ids are exactly those at most depth edges away from a root, whichever way each edge points |
| CodeGraph.RepoGraph.Around | rca_agent/graph.py:122-132 | Stopping at an empty frontier loses nothing: the result is the full ball |
| CodeGraph.SubgraphGrows | rca_agent/graph.py:118-141 | Kept ids and edges both grow with depth |
| CodeGraph.EdgesInsideAre | rca_agent/graph.py:133-136 | The kept edges are exactly the graph's edges with both ends kept |
| CodeGraph.RepoGraph.Reindex | rca_agent/graph.py:62-67 | After re-indexing, every name looks up exactly the nodes bearing it, once each, in node order |
| CodeGraph.RepoGraph.Resolve | rca_agent/graph.py:69-76 | An id resolves to itself, anything else to what the linear scan finds |
| CodeGraph.RootsAreBearers | rca_agent/graph.py:69-76 | An id names its node alone, any other symbol exactly the nodes whose name or qualname it is |
| CodeGraph.RepoGraph.CallersOf | rca_agent/graph.py:78-85 | The callers with provenance, edge by edge in order |
| CodeGraph.RepoGraph.CalleesOf | rca_agent/graph.py:87-94 | The callees with provenance, edge by edge in order |
| CodeGraph.CallersInAre | rca_agent/graph.py:78-85 | A pair is among the callers iff an edge of that provenance leads from that node into the symbol |
| CodeGraph.CalleesInAre | rca_agent/graph.py:87-94 | A pair is among the callees iff an edge of that provenance leads from the symbol into that node |
| CodeGraph.RepoGraph.HasEdge | rca_agent/graph.py:162-166 | True iff an edge joins the two symbols' nodes |
| CodeGraph.GuardrailAgrees | rca_agent/graph.py:78-166 | On a closed graph has_edge, callers_of and callees_of answer the same question alike |
| GraphBuilder.FileVisitor.Visit | rca_agent/graph.py:209-264 | Visiting a tree records its definitions and calls in order, each call under its innermost enclosing function, and restores both stacks |
| GraphBuilder.TopOfStack | rca_agent/graph.py:247-254 | The top of the function stack is the innermost enclosing function |
| SourceTrees.DefinitionsAre | rca_agent/graph.py:221-245 | A file defines exactly the classes and functions of its tree: id and qualname from the classes on the way down to it, a class, a method if any class stands above it, else a function |
| SourceTrees.CallsAre | rca_agent/graph.py:247-255 | The recorded calls are exactly those by name or on an attribute, each under the function nearest above it, on self iff the receiver is |
| SourceTrees.AllCallsAre | rca_agent/graph.py:274-288 | The calls resolved are exactly those made inside a function of a .py file that parses |
| SourceTrees.AllNodesAre | rca_agent/graph.py:274-283 | The ids of the graph are exactly those of the definitions in .py files that parse |
| SourceTrees.LastDefinitionWins | rca_agent/graph.py:226-242 | Of several definitions with one id, in one file or in many, the one read last is kept |
| GraphLinker.GraphIsSound | rca_agent/graph.py:267-323 | For any files: edge ends are nodes, (src, dst) pairs are unique, provenance is extracted or ambiguous, every edge is witnessed by a call inside its source |
| GraphLinker.EdgesForFacts | rca_agent/graph.py:294-321 | A call yields at most three edges, all between nodes and from its caller; a self call at most one; another call none back to its caller; the label says extracted iff it yields just one. CallLinks says which calls yield which |
| CallLinks.CallByNameAsks | rca_agent/graph.py:305-314 | A call by name asks for an edge to each other node the name can mean when those are one to three, and for none otherwise: extracted when there is one, ambiguous when there are two or three |
| CallLinks.SelfCallAsks | rca_agent/graph.py:295-304 | A self call asks for one edge at most: extracted, to the method of that name in the same file whose class stands in the caller's id between its first "::" and its last dot |
| CallLinks.LinkedIff | rca_agent/graph.py:267-323 | The finished graph of any files joins two nodes iff some call made in the first is taken, by these rules, to mean the second |
| CallLinks.FewCandidatesAreLinked | rca_agent/graph.py:305-321 | A name that can mean one, two or three other nodes is linked to every one of them |
| CallLinks.LabelOf | rca_agent/graph.py:292-321 | Each edge reads as the first call between its two nodes asked: extracted iff that was a self call or had one candidate |
| GraphLinker.SelfCallStaysInClass | rca_agent/graph.py:296-304 | For paths without an earlier "::" a self-call edge stays in the caller's file and joins two members of one class: both qualnames are that class, a dot and their own name |
| GraphLinker.QualnameRecoveredIff | rca_agent/graph.py:298 | An id gives back the qualname it was made with iff the file path has no "::" and does not end in ':' |
| SelfCalls.SelfCallsStayIff | rca_agent/graph.py:296-304 | For a path ending in .py: every self-call edge of that file, in every graph built from named sources, stays in its class iff the path does not read as a class between its first "::" and its last dot |
| SelfCalls.StrayPathLeavesClass | rca_agent/graph.py:267-323 | For every such path there is a source file with a plain function whose self call resolves to a method, and the finished graph links the two |
| GraphLinker.UniqueCallHasItsEdge | rca_agent/graph.py:305-321 | A uniquely resolved call has an edge, and that edge reads extracted iff the first call between the pair was unique |
| EdgeTrust.UniqueCallLosesTrust | rca_agent/graph.py:292-321 | For any names: a source whose `self.f()` has exactly one candidate, while the graph links the pair without the trusted edge, because a bare `f()` came first |
| GraphLinker.MergedByFirst | rca_agent/graph.py:292-321 | Every edge is the one its first asking call proposed |
| GraphLinker.BuildGraph | rca_agent/graph.py:267-323 | The builder's loops compute exactly the specified nodes and edges, those of SourceTrees.AllNodesAre and CallLinks.LinkedIff |
| ExactPatch.CountTestsUniquenessIff | rca_agent/fix_agent.py:125-133 | Counting one means occurring once on every text iff the snippet does not overlap itself |
| ExactPatch.ReviewedIsCommitted | rca_agent/fix_mr.py:35-48 | Re-applying exactly the edits the review applied, to the reviewed text, gives the reviewed content and no error |
| ExactPatch.LengthIsAccountedFor | rca_agent/fix_agent.py:168-176 | The length changes by the sum of after minus before over the applied edits |
| ExactPatch.AppliedInPlace | rca_agent/fix_agent.py:125-133 | An applied edit replaces the leftmost occurrence and leaves the text around it alone |
| ExactPatch.ApplyOneIff | rca_agent/fix_agent.py:125-133 | An edit is applied iff its snippet is not empty, occurs, and does not occur again past its first occurrence, whatever it is replaced with; each refusal has its own condition and changes nothing |
| ExactPatch.ReapplyOneIff | rca_agent/fix_mr.py:35-48 | At commit an edit is applied, missing or ambiguous by the same test on the text the edits before it have left |
| ExactPatch.ReviewKeepsEdits | rca_agent/fix_agent.py:168-181 | The review answers every edit, in order |
| ExactPatch.ReviewFile | rca_agent/fix_agent.py:168-176 | The reviewing loop equals its specification |
| ExactPatch.ReapplyFile | rca_agent/fix_mr.py:35-48 | The committing loop equals its specification |
| FixCommit.EditsKeptInOrder | rca_agent/fix_agent.py:151-182 | Each file's fix lists exactly that file's edits in the model's order, and no file has two fixes |
| FixCommit.EveryEditAnswered | rca_agent/fix_agent.py:151-182 | Over all files there are as many outcomes as edits |
| FixCommit.FetchedOrNot | rca_agent/fix_agent.py:161-182 | A file that could not be fetched has no edit applied and no diff, every one saying so; a diff shows the fetched text and a different one |
| FixCommit.BuildFiles | rca_agent/fix_agent.py:151-182 | The grouping and review loops compute exactly the specified fixes |
| FixCommit.GroupByProject | rca_agent/fix_mr.py:74-84 | The applied edits are grouped per project in order; files without a path or an applied edit are left out, files without a project only reported |
| FixCommit.RebuildFiles | rca_agent/fix_mr.py:110-122 | The rebuild loop commits exactly the files that change and skips exactly the others |
| FixCommit.CommittedOrSkipped | rca_agent/fix_mr.py:110-122 | Each file is committed or skipped: committed with what re-applying its edits makes of it iff that is a change |
| FixCommit.CommitIsWhatWasShown | rca_agent/fix_mr.py:110-122 | On an unmoved branch a project's commit holds exactly the contents shown in the review, in order |
| FixCommit.EditsToCommit | rca_agent/fix_mr.py:51-122 | The same from the model's edits to the commit |
| MarkedText.PreservesIff | rca_agent/summarize.py:27-33 | A regeneration preserves every human block iff the machine block does not contain the start marker |
| MarkedText.RegenerationsKeep | rca_agent/summarize.py:95-99 | Any number of regenerations with such machine blocks leave the human block as it was |
| MarkedText.ExtractedIsClean | rca_agent/summarize.py:27-33 | What is extracted has no space at its ends and no end marker inside |
| Summary.ReindexPreservesIff | rca_agent/summarize.py:50-99 | For any run: every human block survives iff the start marker is in none of the project, the sha, the date, the file paths and the qualnames it is given |
| Summary.ReindexingKeepsHuman | rca_agent/summarize.py:50-99 | Any number of re-indexes of inputs without the marker leave the human block as it was |
| Summary.PlainIsUntainted | rca_agent/summarize.py:50-99 | Inputs without '<' in their strings never hold the marker |
| Summary.MarkerPathLosesBlock | rca_agent/summarize.py:50-99 | For any project: a graph of one symbol, in a file named like the marker, whose re-index changes or drops some human block |
| Summary.OneAreaPerFile | rca_agent/summarize.py:55-64 | The areas are the distinct files of the nodes, alphabetically, one line each |
| Summary.AreasCoverTheGraph | rca_agent/summarize.py:55-64 | Every symbol stands on exactly one area line |
| SummaryContents.EntryPointsAre | rca_agent/summarize.py:66-71 | The entry points are exactly the functions and methods that no edge leads into |
| SummaryContents.AreasAre | rca_agent/summarize.py:55-64 | The area lines are exactly one for each file, with its symbols |
| SummaryContents.SymbolsTopDown | rca_agent/summarize.py:62 | The symbols of a file stand by line, each once |
| SummaryContents.KeywordsAre | rca_agent/summarize.py:36-47 | The keywords are exactly the telling parts of names and of paths without their trailing "py", in lower case, once each, in text order |
| SummaryContents.SplitCuts | rca_agent/summarize.py:40-43 | A split cuts at every separator and nowhere else |
| SummaryContents.BlockShows | rca_agent/summarize.py:73-93 | Every area, every entry point and the keywords have their line in the block |
| SummaryContents.BlockOpens | rca_agent/summarize.py:52-83 | The block opens with project, sha and date, "unknown" where one is missing, and the repository's name |
| SummaryContents.HumanBlockComesLast | rca_agent/summarize.py:95-99 | A kept human block ends the summary, between its own two markers |
| Summary.RenderAreas | rca_agent/summarize.py:55-64 | The grouping loop renders exactly the specified area lines |
| Summary.GenerateSummary | rca_agent/summarize.py:50-99 | The summary is the rendered block followed by the human block found in the old one, if any |
| RunMeter.TotalsAre | rca_agent/usage.py:77-128 | The totals of any stream: the last reported usage, else the first usage-bearing message of each id and all without an id, up to the first result |
| RunMeter.ReplayChangesNothing | rca_agent/usage.py:100-106 | A replayed message, inserted anywhere in any stream, changes no token, turn, cost or duration |
| RunMeter.MeterRemembers | rca_agent/usage.py:90-128 | The meter is final iff a result came, and has seen exactly the usage-bearing ids before it |
| RunMeter.FinishedCost | rca_agent/usage.py:130-141 | A finished cost is the SDK's iff some result named one, an estimate from the counted tokens iff none did and there are tokens and a price, and otherwise absent; finishing changes no count and fills in only a missing duration |
| RunMeter.EstimateByKind | rca_agent/usage.py:38-44 | A million input, output, cache-read or cache-write tokens cost the model's own price for that kind, and estimates add up |
| RunMeter.OpusPrices | rca_agent/usage.py:20-35 | Every Opus id has the older Opus price unless it is the newest Opus |
| RunMeter.SonnetPrices | rca_agent/usage.py:20-35 | Every Sonnet id has the older Sonnet price unless it is the newest Sonnet |
| RunMeter.HaikuAndFablePrices | rca_agent/usage.py:20-35 | Haiku and Fable ids have the listed prices |
| RunMeter.TurnsAndDurationAre | rca_agent/usage.py:107-126 | Turns and duration of any stream are the last non-zero ones reported; before any report a turn is a usage block counted once |
| RunMeter.ModelIsLastNamed | rca_agent/usage.py:94-119 | The model of a run is the one named last: by a result its busiest, by a message only before the first result |
| RunMeter.BusiestIs | rca_agent/usage.py:115-119 | The busiest model is the first of those with the most output |
| RunMeter.PriceIsLongestMatch | rca_agent/usage.py:30-35 | The price is that of the unique longest prefix in the table, none iff no prefix matches |
| RunMeter.TableOrderIsIrrelevant | rca_agent/usage.py:30-35 | Tables with the same entries give the same price in whatever order they are written |
| RunMeter.LookUpPrice | rca_agent/usage.py:30-35 | The loop over the sorted prefixes finds that price |
| RunMeter.RunUsage.Observe | rca_agent/usage.py:90-128 | One message changes the meter's fields exactly as specified |
| RunMeter.RunUsage.Finish | rca_agent/usage.py:130-141 | Finishing fills in duration and estimate exactly as specified |
| RunMeter.Measure | rca_agent/usage.py:77-141 | A whole stream through one meter is the fold of its messages |
| CostLedger.Ledger.GetCostStats | rca_agent/webapp/db.py:619-679 | For any rows and range, runs, every token sum, cost and no_cost of the total equal their sums over by_kind, by_trigger, by_model and by_day, and each group is the tally of its rows; the groups are the values there are, 'unknown' for none, in order; the cost per ticket is that of the investigations and fixes over their distinct tickets |
| CostLedger.AggIs | rca_agent/webapp/db.py:634-645 | A tally column by column: each token count and the cost summed with what is missing as nothing, the runs counted, and those without a cost |
| CostLedger.SelectedAre | rca_agent/webapp/db.py:624-632 | The rows of a range are exactly the runs whose start, or end if that is all there is, lies in its IST days, newest first |
| CostLedger.Breakdown | rca_agent/webapp/db.py:647-651 | A breakdown has one tally per key, in key order, and they add up to the whole |
| CostLedger.TicketsAreApart | rca_agent/webapp/db.py:653-667 | Ticket spend and the rest make up the whole |
| CostLedger.AdjoiningRangesAddUp | rca_agent/webapp/db.py:626-632 | The tallies of two adjoining date ranges add up to that of the joined range |
| CostLedger.ImportTwiceIff | rca_agent/webapp/db.py:594-603 | Importing a list twice leaves the ledger as importing it once does iff all its rows have a source reference |
| CostLedger.ImportAppends | rca_agent/webapp/db.py:126-149 | An import never drops or reorders what the ledger held |
| CostLedger.Ledger.RecordRun | rca_agent/webapp/db.py:594-603 | A run is appended, or ignored when its source reference is there; the answer tells which |
| CostLedger.Ledger.ImportAll | scripts/backfill_costs_from_phoenix.py:116-119 | The import loop appends exactly the new rows and counts them |
| TriageList.StaysOnTheList | rca_agent/webapp/db.py:168-187 | A ticket once synced as Bug or Incident keeps its creation date and is on every later list whose range covers it, whatever was written since |
| TriageList.Perform | rca_agent/webapp/db.py:168-465 | Each of the writes this ranges over is what the store's own method does to the table |
| TriageList.Triage.ListTickets | rca_agent/webapp/app.py:98-138 | A successful list shows exactly Jira's hits and the pinned rows of the range, each once, newest first. A hit is shown as synced; every other pinned ticket as stored after the search for its own fifty if that search returned it, and as last known otherwise. No row, date or pin is lost |
| TriageList.RefreshCovers | rca_agent/webapp/app.py:125-137 | The chunks cover all pinned rows, whatever each search answers, and lose no pin |
| TriageList.RefreshShows | rca_agent/webapp/app.py:127-137 | The i-th pinned row is shown as stored after answer i/50 if that answer holds a hit of its key, and as last known otherwise |
| TriageList.SyncSets | rca_agent/webapp/app.py:141-160 | After a batch a ticket has the type and status of its last hit, where given, with the done flag that came with the status; its date, review status and verdict are as they were, and a new one is pending |
| TriageList.SyncPins | rca_agent/webapp/db.py:168-187 | After a batch a ticket is pinned iff it was or some hit of it is a Bug or an Incident |
| TriageList.OnListIff | rca_agent/webapp/db.py:190-202 | A ticket is on the list iff Jira returned it or it is a pinned AUT ticket created in the range |
| TriageList.FailedRefreshShowsLastKnown | rca_agent/webapp/app.py:134-137 | When the searches fail the rows are shown as last known |
| TriageList.SyncDictRows | rca_agent/webapp/app.py:121-133 | The row a sync answers for a key is the row the whole batch leaves in the table |
| TriageList.Triage.GetDashboardTickets | rca_agent/webapp/db.py:190-202 | The query returns exactly the pinned AUT rows of the range, each once, newest first |
| TriageList.Triage.SyncIssues | rca_agent/webapp/app.py:141-160 | Syncing a batch leaves the specified table and answers the specified rows |
| TriageList.Triage.RefreshExtras | rca_agent/webapp/app.py:127-137 | The chunk loop equals the specification that RefreshShows and RefreshCovers are about |
| TriageList.Triage.GetPeriodStats | rca_agent/webapp/db.py:552-569 | The six counts are the pinned tickets of the clamped range, those accepted, rejected and unclear, those undecided with an RCA and those undecided without; they add up to `raised` |
| TriageList.PeriodIsPartition | rca_agent/webapp/db.py:559-569 | The difference reported as not_run is the number of undecided rows without an RCA |
| ReviewApp.App.RunRca | rca_agent/webapp/app.py:328-341 | /rca makes the ticket's click step: one claim and one new thread, or nothing |
| HandlerAnswers.ClaimAnswers | rca_agent/webapp/app.py:328-341 | /rca starts a manual investigation iff none is running; the poller's claim one iff the ticket is pending without verdict or stamp |
| ReviewApp.App.AutoRun | rca_agent/webapp/autorun.py:374-384 | The poller's claim and spawn are one step, taken iff the claim succeeds |
| ReviewApp.App.WithdrawAutoPost | rca_agent/webapp/app.py:312-325 | The automatic comment is deleted and forgotten, or the request refused with nothing changed |
| ReviewApp.App.ResetRca | rca_agent/webapp/app.py:508-523 | /reset makes the reset step: refused under a posting job, else the comment goes and the row is cleared |
| HandlerAnswers.ResetAnswers | rca_agent/webapp/app.py:508-523 | /reset is refused iff there is an unaccepted automatic comment and a posting job is on or Jira does not delete it; else everything but stamp, trigger and comment record is cleared, and that comment off Jira |
| ReviewApp.App.AcceptRca | rca_agent/webapp/app.py:570-581 | /accept adopts the automatic comment and decides, or refuses |
| HandlerAnswers.AcceptAnswers | rca_agent/webapp/app.py:570-581 | /accept goes through iff there is an undecided verdict and no posting job; the automatic comment becomes the record |
| ReviewApp.App.RejectLocally | rca_agent/webapp/app.py:584-601 | A local reject withdraws the comment and decides, or refuses |
| HandlerAnswers.RejectLocalAnswers | rca_agent/webapp/app.py:584-601 | A local reject goes through iff there is an undecided verdict, no posting job, and the automatic comment, if any, is deleted |
| ReviewApp.App.MarkUnclear | rca_agent/webapp/app.py:604-625 | The unclear decision, or its refusals |
| HandlerAnswers.UnclearAnswers | rca_agent/webapp/app.py:604-625 | An unclear decision goes through iff there is feedback, an undecided verdict and no posting job |
| ReviewApp.App.AcceptAndPostRca | rca_agent/webapp/app.py:646-661 | Accept-and-post adopts an automatic comment at once, else starts the posting job |
| HandlerAnswers.AcceptAndPostAnswers | rca_agent/webapp/app.py:646-661 | Accept-and-post adopts an automatic comment iff no posting job is on, and otherwise starts its job iff none of any kind is |
| ReviewApp.App.RejectRca | rca_agent/webapp/app.py:697-710 | Reject refuses decided tickets and empty texts, else starts the posting job |
| HandlerAnswers.RejectAnswers | rca_agent/webapp/app.py:697-710 | A reject needs a text and an undecided ticket, no verdict, and a free slot |
| ReviewApp.App.SuggestFixFor | rca_agent/webapp/app.py:410-422 | The fix suggestion starts a job iff there is an RCA and the slot is free |
| HandlerAnswers.SuggestFixAnswers | rca_agent/webapp/app.py:410-422 | A fix suggestion needs a verdict, decided on or not, and a free slot |
| ReviewApp.App.RcaThread | rca_agent/webapp/app.py:235-292 | One call of an investigation is one step of its phase: save the verdict or the failure, then the automatic post |
| ReviewApp.App.MaybeAutoPost | rca_agent/webapp/app.py:295-309 | After the verdict: one call is one step through trigger, switch, post and record |
| ReviewApp.App.JobThread | rca_agent/webapp/app.py:628-694 | One call of a job is one step of its phase: delete, clear, post, mark, and the end as done or failed that JobOutcomes is about |
| ReviewApp.App.ProcessRestart | rca_agent/webapp/db.py:152-161 | A restart kills every thread and recovers every row |
| HandlerAnswers.RestartRepairs | rca_agent/webapp/db.py:114-161 | A restart leaves no row saying that anything is at work, and every verdict, comment and stamp as it was |
| ReviewStore.Store.InitDb | rca_agent/webapp/db.py:114-161 | Recovery pins worked-on tickets and fails what was running, row by row |
| ReviewStore.Store.UpsertTicket | rca_agent/webapp/db.py:168-187 | A sync inserts or refreshes one row; the pin is never taken off and the creation date never moved |
| ReviewStore.Store.SaveRca | rca_agent/webapp/db.py:230-235 | Saving a verdict changes that row's verdict, status and error only |
| ReviewStore.Store.MarkFailed | rca_agent/webapp/db.py:420-441 | A failed run fails a row without a verdict and leaves one with a verdict ready |
| ReviewStore.Store.ClaimRunning | rca_agent/webapp/db.py:332-342 | The claim succeeds iff the row exists and is not running |
| ReviewStore.Store.ClaimAutoRun | rca_agent/webapp/db.py:345-358 | The claim succeeds iff the row is pending without verdict or stamp, and stamps it |
| ReviewStore.Store.StartJob | rca_agent/webapp/db.py:290-299 | The slot is taken iff it is not running |
| ReviewStore.Store.EndJob | rca_agent/webapp/db.py:302-316 | Ending a job sets its status on that row only |
| ReviewStore.Store.SetAutoComment | rca_agent/webapp/db.py:238-242 | Recording an automatic post clears an earlier error |
| ReviewStore.Store.SetAutoPostError | rca_agent/webapp/db.py:245-247 | A failed automatic post leaves its reason |
| ReviewStore.Store.ClearAutoComment | rca_agent/webapp/db.py:250-254 | Forgetting the automatic post clears id and error |
| ReviewStore.Store.MarkDecided | rca_agent/webapp/db.py:444-465 | A decision sets the status; only accept and reject set the comment |
| ReviewStore.Store.Reset | rca_agent/webapp/app.py:508-523 | A reset clears verdict, job and automatic comment but never the stamp |
| Sorting.SortOrders | rca_agent/webapp/autorun.py:360-364 | Python's sorted orders by the key and keeps equal keys in their places |
| Grouping.GroupsConserve | rca_agent/webapp/db.py:647-651 | Grouping conserves every commutative sum, in whatever order the groups are listed |
| Grouping.GroupBy | rca_agent/webapp/db.py:647-651 | The setdefault-append loop files each item under its key, keys in order of first appearance |
| Basics.FirstsInOrder | rca_agent/webapp/autorun.py:124 | Removing repeats keeps the order of first appearance |

## Left out

- Jira, GitLab, New Relic, Postgres, Mongo, Tavily and Phoenix clients, the agent loop, prompts and judge: foreign calls. Jira is a set of comments whose posts and deletes may fail.
- Store failures ("database is locked"), and `get_settings` raising before a thread's `try` (rca_agent/webapp/app.py:240).
- Request handlers are atomic; database and Jira calls of background threads are not.
- The columns title, description, turns_used, human_rca, human_rca_draft, review_note, unclear_reasons, job_error, job_result, bot_fix_json and updated_at.
- `mark_running` (rca_agent/webapp/db.py:361-367), which nothing calls; the ledger write at the end of a thread; the poller's timestamps, error texts and skip log.
- A missing and an empty comment id are one; Jira's ids are non-empty and new.
- Times are whole seconds with the fixed +5:30 offset; parsing and printing of dates, JSON and JQL text are not modelled. A creation date counts as a day of the printed time, and an unreadable one is not modelled.
- `is_qa_env` is a given answer per issue; a work type or token is a string, an update's integers are integers; `lower()` is the ASCII one.
- The syntax tree has classes, functions, calls and other nodes; Python's parser, imports and the file-level dependents query are not part of this model.
- `search_symbols`, `to_json`, `from_json` and other formatting of the graph.
- `_check_file` (diff text and syntax check) and the GitLab requests of `raise_mr`.
- Set-valued queries promise no order beyond what the source sorts by; ties in SQLite's ORDER BY are open.
- Rounding of costs: sums are over the reals, before rounding. `backfill_start` and `tracking_start` of the statistics.
- A run without any time has no day; unreadable time texts in the ledger are not modelled.
- Scoreboard, quality statistics, masking, ranking helpers, verdict wording: easy beside the core.
- HTML front end, deploy units, frontend indexer, evaluation harness.
- AutoComment.AutoCommentsAccounted: holds for disciplined runs only, since every other step does open a run that breaks it (CommentRisks.SafeAheadIff).
- PollerCaps.BeginIsSafeIff: leaves open a tick that has begun but not counted while all parallel slots are busy and the day is not used up.
- PollerCaps.CapsHold: holds for serialised ticks with fixed caps, since overlapping ticks do break it.
