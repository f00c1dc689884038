# worldPing: checks, probes, alerting and migrations

worldPing keeps endpoints and the checks on them, hands the checks to remote probes, and turns what
the probes report into alert states. This project models the four stateful parts of that service
and proves what holds of them over every input, every order and every run.

* **The check store and its indexes** (`Database`, `RouteIndex`, `CheckBatches`, `Rows`, `TagDiff`,
  `EndpointStore`, `ReadBack`, `Routing`). A check is routed by a list of probe ids or a list of tags. Two index
  tables mirror the routes, and every edit keeps them in step by difference. "Which probes run this
  check" is answered from the route, "which checks run on this probe" from the indexes; the two agree.
* **Probes and the distribution of checks over their sessions** (`ProbeRows`, `ProbeStore`,
  `Dispatch`, `Refinement`, `Notification`, `Races`, `Sockets`). A session of a probe gets its checks
  by full refresh, or by events computed from what an endpoint was before and after an edit.
  `Refinement` says exactly when the events of one change do what the refresh would do, for sessions
  of stored and of deleted probes; `Notification` says it of runs of changes whose handlers run in
  goroutines of their own, at any time and in any order, and `Races` which of them can get in each
  other's way.
* **Runs and corners** (`Runs`, `Scenes`, `Corners`). Whole runs of the store from an empty database,
  and the conditions of the main theorems met or failed by concrete inputs.
* **Alerting** (`Schedule`, `Executor`, `Eval`, `CheckState`). A scheduler by remainders, a
  de-duplicating executor, an evaluator of streaks, guarded state writes of which every second one
  is skipped, and a staleness rule.
* **The migrator** (`Migrator`), which may be interrupted anywhere and started again.

The database is a class with one record of tables and a clock that never goes back. A transaction
keeps the tables as they were when it began and puts them back unless its commit succeeded. An
update writes exactly the columns the code sets; the unique indexes of the tables refuse what they
refuse in the schema. Ranging over a Go map is an arbitrary pick, so every proof covers every order.
Loops over slices are loops, and a method that changes the tables says what the new tables are, by a
specification function (`WithCheck`, `WriteJob`, `Push`) or a relation between before and after
(`Realised`, `Created`, `Deleted`, `ProbeEdited`, `SessionClosed`) about which the lemmas are then
proved. `Runs.Did` and `Notification.Step` gather these relations, so that a run is a sequence of
stores each of which follows from the one before. The socket protocol is a transition system whose
steps are those of the class `ProbeSocket` (`Sockets.PerformAction`).

## What the proofs found

* *Refresh and events part ways.* The refresh goes by the indexes, the events by the routes.
  `Refinement.EventsRefineRefresh` says exactly when the events of an edit leave a session with what
  a refresh would send it, to the last column, and `Refinement.CheckAfterEdit` says it check by check
  and for any choice of columns. Three things can go wrong, each a condition on the store before the
  edit, the request, the session and the clock.
  * *A tie on the clock* (`Refinement.SendsStale`): the request leaves a check as it is read, its
    state is too old to be trusted, and it was stamped no earlier than the edit, within one reading of
    the clock. The handler then sends the copy a reader is shown instead of the row
    (`Corners.TieMeetsTheCondition`, `Corners.TieSendsStaleCopy`). The alert columns are all that
    differ, so `Refinement.EventsRefineRefreshForProbes` does not mind, and
    `Refinement.NoTieNoStaleCopy` rules it out when the clock has moved on.
  * *A session is misdirected* (`Refinement.Misdirects`, `Refinement.Forgets`): told by the routes to
    have or not to have a check, and by the indexes otherwise. For a stored probe this happens through
    probe 0 only (`Refinement.ServedIsOnlyMisled`), see below. For a deleted one the routes list what
    the indexes have lost.
  * *A session is overlooked* (`Refinement.Overlooks`): it keeps a check that is rewritten and is not
    told, because a route by tags finds stored probes only.
* *Deleted probes.* Deleting a probe removes its index rows but leaves it in the routes, and leaves its
  sessions (`Corners.DeletedProbeIsStillRoutedTo`, `Corners.OneProbeIsRemoved`). An edit afterwards
  sends such a session a check that no refresh would give it (`Corners.GoneProbeIsStillTold`), or leaves
  it with an old version of one that another org routes to it by tag (`Corners.GoneProbeIsOverlooked`).
* *Probe 0.* Asking for the sessions of probe 0 asks for all sessions. Events about any other probe
  stay with its sessions; those about probe 0 go astray whenever any session is live
  (`Corners.OnlyProbeZeroStrays`), and `Corners.ZeroRouteMisdirects` is an edit after which a session
  holds a check its probe does not run. Edits accept such routes: nothing checks them on that way.
* *Handlers race.* Every event is handled in a goroutine of its own (pkg/api/socketio.go:396). Whatever
  order the events of a run arrive in, sessions end refreshed if and only if, for each session and
  check, the event that arrives last has the effect of the one that was due last
  (`Races.RaceIsHarmlessJustWhen`, `Notification.RunRefreshedJustWhen`). Two edits of one endpoint can
  break that (`Corners.HandlersOvertake`, `Corners.LateHandlerLeavesOldVersion`); keeping the order of
  the events about each check is enough (`Notification.RunStaysRefreshed`), and with numbers given by
  the store only two events of one endpoint can get it wrong (`Races.EndpointsNeverRace`).
* *Events before the commit.* An event is published before its transaction commits, so a lost commit
  leaves a session with a version of a check that was never stored (`Corners.LostCommitIsStillTold`).
* *A commit that fails silently.* `Complete` ignores the error of the commit, so a state change is
  announced without being stored exactly when the commit that decides the retrying was lost
  (`CheckState.StoreResult`, `Corners.LostCommitIsAnnounced`).
* *A lost record.* The error of writing the migration log is ignored. When a second start gets through,
  no migration has been taken twice if and only if the first lost no record of a success
  (`Migrator.Migrator.StartTwice`, `Corners.LostRecordIsTakenTwice`).
* *A condition that cannot be asked.* A migration whose condition query fails is passed over and
  recorded as done. The steps taken are those of an uninterrupted run, and the schema the one it makes,
  if and only if no condition that was met could not be asked (`Migrator.StepsMakeTheFold`,
  `Migrator.Migrator.Upgrade`, `Corners.UnaskedConditionIsMissed`,
  `Corners.UnmetConditionNeedNotBeAsked`).
* *The empty tag.* A tag "" is stored but never read back, so a request that adds "" to an endpoint
  or probe that already has it is refused by the unique index (`EndpointStore.UpdateEndpoint`,
  `ProbeStore.UpdateProbe`).
* The comment above `scrutinizeState` speaks of two periods; the code waits for three, and three is
  the least that works (`Executor.ThreePeriodsAreReached`).

## What callers owe

Socket ids are unique among session rows, and a session is added for a probe that was issued an id.
Frequencies are at least 1. Where the success of an edit is characterised exactly, new checks carry
id 0 and no type is asked for twice; without that, what a successful edit did to the endpoint is
still stated. The theorems about events are about edits that repeat no type, since only then does
the event show each check once, and about edits that were committed; probes, their tags and their
sessions stay as they are while events are handled. The theorems about runs of events ask that no
route lists probe 0, and speak of the sessions of those probes about which routes and indexes agree
throughout the run: of stored probes always (`Notification.StoredServedThroughout`), of deleted ones
while it is so.

## Model

| member | source | states |
|---|---|---|
| Database.Session.Cleanup | pkg/services/sqlstore/shared.go:33-40 | a transaction whose commit did not succeed leaves the tables as they were when it began |
| Database.Session.Complete | pkg/services/sqlstore/shared.go:25-31 | the transaction counts as complete exactly when the commit went through; its failure is not reported |
| RouteIndex.Diff | pkg/services/sqlstore/endpoint.go:519-538 | what to insert and what to delete between two routes; the insertions repeat nothing exactly when the new route repeats only entries of the old one |
| RouteIndex.AddCheckRoutes | pkg/services/sqlstore/endpoint.go:444-475 | a new route is entered exactly when its type is known and it repeats nothing; afterwards the index rows of the check are its route |
| RouteIndex.DeleteCheckRoutes | pkg/services/sqlstore/endpoint.go:477-489 | no row of the check is left in either index, and no other row is touched |
| RouteIndex.AddCheck | pkg/services/sqlstore/endpoint.go:428-442 | succeeds exactly when slot, id and route are free of conflict; the stored check is new, Unknown, stamped within the call and scheduled at its endpoint's offset; the store stays valid |
| RouteIndex.UpdateCheck | pkg/services/sqlstore/endpoint.go:491-609 | succeeds exactly when the new route repeats no entry it newly inserts; for every change of route type the indexes end up mirroring the new route and the store stays valid |
| RouteIndex.DeleteCheck | pkg/services/sqlstore/endpoint.go:632-639 | the check and its index rows go, nothing else |
| RouteIndex.WithCheckKeepsValid | pkg/services/sqlstore/endpoint.go:491-609 | storing a check and moving its index rows keeps both indexes mirroring every route, even where the route was empty, repeated, or listed a deleted probe |
| RouteIndex.WithoutCheckKeepsValid | pkg/services/sqlstore/endpoint.go:632-639 | dropping a check with its rows keeps both indexes mirroring the routes that remain |
| TagDiff.DiffTags | pkg/services/sqlstore/endpoint.go:260-291 | the tags to delete and to add are the two set differences, each once, however often a request repeats a tag |
| Rows.ToDTO | pkg/services/sqlstore/endpoint.go:40-97 | from rows in any order and with any repetition: one record per endpoint, listing each check and each tag shown for it once, the checks scrutinized as `Rows.CheckIsShown` says |
| Rows.GetEndpoints | pkg/services/sqlstore/endpoint.go:99-132 | exactly the endpoints that pass the filters on org, name and tag, written out over the tables, each once, and as `Rows.CheckIsShown` and `Rows.ShownJustWhen` say: regrouping inverts the join |
| Rows.JoinShows | pkg/services/sqlstore/endpoint.go:107-132 | the left join shows, of a selected endpoint, exactly its checks and its tags, also when it has none |
| Rows.GroupIsView | pkg/services/sqlstore/endpoint.go:40-97 | a group of join rows is the endpoint as stored, whatever the order of the rows |
| Rows.GetEndpointById | pkg/services/sqlstore/endpoint.go:142-156 | found exactly when the endpoint exists for the org, and then with its stored columns, exactly its tags but "", and exactly its checks: each the stored row, or the row Unknown since its state_check when a known state is more than three periods old |
| Rows.CheckIsShown | pkg/services/sqlstore/endpoint.go:26-38 | every column of a check shown is the stored one, except that a known state more than three periods old is shown as Unknown since the stored state_check; a check already Unknown is shown as stored |
| Rows.ShownJustWhen | pkg/services/sqlstore/endpoint.go:40-97 | an endpoint shows a check, or a tag other than "", just when it is stored of it |
| CheckBatches.DeleteChecks | pkg/services/sqlstore/endpoint.go:356-360 | deleting checks of one endpoint in any order leaves every other endpoint, check and index row as it was |
| CheckBatches.AddChecks | pkg/services/sqlstore/endpoint.go:362-366 | a batch of new checks is accepted exactly when no slot is taken, none is asked for twice and no route repeats itself; each is stored once under a fresh id |
| CheckBatches.UpdateChecks | pkg/services/sqlstore/endpoint.go:368-372 | a batch of rewrites is accepted exactly when every route is; the checks not named keep their rows |
| EndpointStore.PlanChecks | pkg/services/sqlstore/endpoint.go:316-354 | every requested check is added, rewritten or left alone, by whether its type exists and its record differs, and every type not asked for is deleted |
| EndpointStore.PlanReshapes | pkg/services/sqlstore/endpoint.go:316-372 | even when the request repeats a type, the plan leaves the endpoint with a check of each type asked for and of no other, kept types under their ids |
| EndpointStore.UpdateEndpoint | pkg/services/sqlstore/endpoint.go:221-381 | whatever the request repeats, the endpoint ends with a check of each requested type and no other, ids of kept types preserved, the requested tags, and other endpoints untouched; with distinct types it succeeds exactly on requests free of conflict, and each position is realised; otherwise nothing changes |
| EndpointStore.ChecksCarriedOut | pkg/services/sqlstore/endpoint.go:316-372 | whatever the mix of deletions, additions and rewrites, each position of the request is realised and the endpoint has those checks and no others |
| EndpointStore.BatchesAcceptable | pkg/services/sqlstore/endpoint.go:316-372 | the checks of a request are free of conflict exactly when the batches of additions and rewrites planned for it are accepted |
| EndpointStore.AddEndpoint | pkg/services/sqlstore/endpoint.go:158-219 | a request without ids succeeds exactly when its name is free and its tags, types and routes repeat nothing; then the endpoint is stored with exactly its tags and checks under fresh ids |
| EndpointStore.DeleteEndpoint | pkg/services/sqlstore/endpoint.go:383-426 | succeeds exactly for an endpoint of the org; afterwards no check, tag or index row of it is left and nothing else changed |
| ReadBack.EditedCheck | pkg/services/sqlstore/endpoint.go:316-372 | each check of an accepted edit has the settings asked for; a new type starts Unknown and stamped; a kept one keeps its id and creation time, takes the alert columns of the request, and is Unknown since the edit when the edit disables it; one repeated as it was read, under an unchanged slug, is not touched |
| ReadBack.EditReadsBack | pkg/services/sqlstore/endpoint.go:221-381 | what an edit asked for is what the next reader is shown: columns, creation time kept, tags but "", and of each check asked for one with its settings, and no other |
| ReadBack.CreationReadsBack | pkg/services/sqlstore/endpoint.go:158-219 | what a creation asked for is what the next reader is shown, under a fresh id |
| ReadBack.CreatedCheck | pkg/services/sqlstore/endpoint.go:428-442 | every check of a new endpoint has a fresh id and the settings asked for, is Unknown, and is stamped within the call |
| ReadBack.AddedProbeReadsBack | pkg/services/sqlstore/probe.go:257-320 | a new probe reads back with the columns and tags asked for, offline and without an address |
| ReadBack.EditedProbeReadsBack | pkg/services/sqlstore/probe.go:322-454 | an edited probe reads back as its owner asked, enabled_change moved just when the flag was, presence and creation time kept; another org changes nothing but the tags it reads |
| Routing.GetProbesForCheck | pkg/services/sqlstore/probe.go:469-497 | fails exactly on an unknown route type; otherwise gives exactly the probes of the route |
| Routing.GetProbeChecks | pkg/services/sqlstore/endpoint.go:723-760 | every enabled check the indexes route to the probe, by id or by tag, once, with the slug of its endpoint |
| Routing.Duality | pkg/services/sqlstore/endpoint.go:678-713 | in a valid store, for a live probe and an enabled check, the route lists the probe exactly when the indexes list the check, for both route types and across orgs' tags |
| ProbeRows.ToProbeDTO | pkg/services/sqlstore/probe.go:27-81 | from rows in any order: one record per probe, listing each tag and each address shown for it once |
| ProbeRows.GetProbes | pkg/services/sqlstore/probe.go:83-174 | fails exactly on a missing org or an unreadable filter; otherwise exactly the visible probes that pass the filters, written out over the tables, each once and as stored: regrouping inverts the join with tags and sessions |
| ProbeRows.ProbeJoinShows | pkg/services/sqlstore/probe.go:91-174 | the join shows exactly the tags under the org and the addresses of the sessions, also when there are none |
| ProbeRows.GetProbeById | pkg/services/sqlstore/probe.go:216-231 | found exactly when the org owns the probe or the probe is public |
| ProbeRows.ListingShows | pkg/services/sqlstore/probe.go:27-81 | a probe is listed with its stored columns, a tag just when the org that asks put it on, an address just when a session of the probe has it, "" aside |
| ProbeStore.AddProbe | pkg/services/sqlstore/probe.go:257-320 | succeeds exactly when no tag is repeated and the slug of the name is free in the org; then a fresh offline probe with its columns and exactly its tags, everything else as it was |
| ProbeStore.UpdateProbe | pkg/services/sqlstore/probe.go:322-454 | the owner sets the columns, slug and location among them, if the slug is free, but never whether the probe is online; another org sets its own tags only; on error nothing changes |
| ProbeStore.DeleteProbe | pkg/services/sqlstore/probe.go:499-539 | only the owner deletes; its own tags on the probe and all id rows of it go, other tags and the sessions stay, and what routes still list of it is excused by its being gone |
| ProbeStore.SessionsListed | pkg/services/sqlstore/probe.go:628-641 | the listing is exactly the session rows of the probe, on the instance and updated later than the instant asked for, strictly ordered by id, with 0, "" and no time narrowing nothing |
| ProbeStore.AddProbeSession | pkg/services/sqlstore/probe.go:571-599 | if the commit succeeds the session is stored and its probe goes online, every stored probe being online exactly when it has a session; otherwise nothing changes |
| ProbeStore.DeleteProbeSession | pkg/services/sqlstore/probe.go:643-694 | if the commit succeeds exactly the session of the socket goes, and the probe goes offline exactly when it was its last one; otherwise nothing changes |
| ProbeStore.ClearProbeSessions | pkg/services/sqlstore/probe.go:702-731 | if the commit succeeds every session row of the instance goes, no other does, and the online flags stay right; otherwise nothing changes |
| ProbeStore.SessionDropped | pkg/services/sqlstore/probe.go:671-686 | dropping one session keeps every online flag equal to "has a session" |
| Dispatch.EmitCheckEvent | pkg/api/socketio.go:346-374 | an event goes to the live session selected by the id of the check, and only from the instance that session is connected to; who is live is `Dispatch.LiveJustWhen` |
| Dispatch.Refresh | pkg/api/sockets/probe.go:146-207 | a socket with a live session is sent exactly the enabled checks of its probe whose turn is its position among the live sessions, each once; a socket without one is sent nothing |
| Dispatch.LiveJustWhen | pkg/services/sqlstore/probe.go:628-641 | a session is live just when it is stored of the probe and was updated after the instant; asking for probe 0 is asking for all |
| Dispatch.OpenedIsLive | pkg/services/sqlstore/probe.go:571-599 | a session opened after the instant is live for its probe, and otherwise just those are that were |
| Dispatch.ClosedIsNotLive | pkg/services/sqlstore/probe.go:643-694 | closing a socket takes exactly its sessions out of the live ones |
| Dispatch.DeadSessionsDoNotCount | pkg/api/sockets/probe.go:146-188 | sessions without a heartbeat since the instant change neither who is live, nor where an event goes, nor what a refresh may send |
| Dispatch.TargetIsLocal | pkg/api/socketio.go:346-374 | nothing is delivered when the session whose turn it is has another instance, and otherwise its socket gets it |
| Dispatch.SessionsPartition | pkg/api/sockets/probe.go:161-188 | the refreshes of all live sessions of a probe hand out exactly its checks, none twice, and the events about a check go to the session whose refresh holds it |
| Dispatch.HandleEndpointUpdated | pkg/api/socketio.go:219-303 | sends exactly what the edit calls for: updated or created to the probes of a changed check, removed to those that ran it and no longer do, removed for checks disabled or gone |
| Dispatch.HandleEndpointCreated | pkg/api/socketio.go:305-323 | sends created for every enabled check to each of its probes, and nothing else |
| Dispatch.HandleEndpointDeleted | pkg/api/socketio.go:325-344 | sends removed for every enabled check to each of its probes, and nothing else |
| Refinement.ReachedJustWhen | pkg/api/socketio.go:346-374 | an event about a check and a probe reaches a session just when the probe is its own and the check its turn among the sessions of the probe, or the probe is 0 and the check its turn among all sessions |
| Refinement.EventIsFaithful | pkg/services/sqlstore/endpoint.go:328-378 | what an edit added or rewrote is stamped no earlier than the event; a check stamped earlier equals its last version under the same slug; a changed slug rewrites every kept check |
| Refinement.CheckAfterEdit | pkg/api/socketio.go:219-303 | check by check, whatever columns are compared, for sessions of stored and of deleted probes: the session ends with what the refresh would send exactly unless the edit misdirects it, sends it a stale copy that differs there, or rewrites behind its back a check it keeps |
| Refinement.EventsRefineRefresh | pkg/api/socketio.go:219-303 | a session that held its refresh holds the new refresh after the events of an edit, to the last column, if and only if the edit does not misdirect it, catches it in no tie, and does not overlook it |
| Refinement.EventsRefineRefreshForProbes | pkg/api/socketio.go:219-303 | alert columns aside, the events of an edit leave a session with its refresh, slugs included, if and only if the edit neither misdirects nor overlooks it |
| Refinement.NoTieNoStaleCopy | pkg/api/socketio.go:233-244 | no stale copy is sent when the clock has moved on since the checks were stamped |
| Refinement.ServedIsOnlyMisled | pkg/services/sqlstore/probe.go:469-497 | for a session of a probe about which routes and indexes agree, to be misdirected is to be misled through probe 0, and it is never overlooked |
| Refinement.OverlooksJustWhen | pkg/api/socketio.go:233-261 | when the clock has moved on since the check was stamped, a session is overlooked exactly when it keeps a check that the request rewrites and no event about it comes |
| Refinement.IndexedAfterEdit | pkg/services/sqlstore/endpoint.go:491-609 | after an edit the indexes route a check to a probe, stored or deleted, exactly by its tags under the org, or by an id that is newly listed or had its row |
| Refinement.NeverMisdirected | pkg/api/socketio.go:346-374 | where neither the stored routes nor the requested ones list probe 0, no edit misdirects or overlooks a session of a probe about which routes and indexes agree, which they do of every stored one |
| Refinement.CreationRefinesRefresh | pkg/api/socketio.go:305-323 | the events of a created endpoint add exactly what the refresh gained, if and only if for no new check the routes and the indexes disagree about the session |
| Refinement.DeletionRefinesRefresh | pkg/api/socketio.go:325-344 | the events of a deleted endpoint take away exactly what the refresh lost, if and only if the session is told of each check it had; routes listing probe 0 do no harm |
| Notification.PerformChange | pkg/services/sqlstore/endpoint.go:158-426 | a creation, an edit or a removal publishes the event about what it wrote, which stays only if the commit succeeds, or is refused only for a conflict and then changes and publishes nothing; results change the alert states and publish nothing |
| Notification.HandledAtAnyTime | pkg/api/socketio.go:394-470 | while probes, tags and sessions stay, what an instance sends about an event does not depend on when its handler runs |
| Notification.ReorderedJustWhen | pkg/api/socketio.go:394-470 | the same events in another order keep sessions refreshed if and only if for every session and check the last event that reaches it has the same effect |
| Notification.RunRefreshedJustWhen | pkg/api/socketio.go:394-470 | over any run of committed changes and whatever order its events arrive in, sessions stay refreshed if and only if for each session and check the event that arrives last has the effect of the one that was due last |
| Notification.RunStaysRefreshed | pkg/api/socketio.go:394-470 | over any run of committed creations, edits and removals, results being stored in between, with handlers at any time and interleaved in any way that keeps the order of the events about each check: every session, of a probe about which routes and indexes agree, that starts with its refresh ends with its refresh, alert columns aside |
| Notification.NotifiedTwice | pkg/api/socketio.go:219-344 | two changes, each of which keeps sessions refreshed by its events, together keep them refreshed |
| Races.QueuesKeepOrder | pkg/api/socketio.go:394-470 | when what is sent about each endpoint keeps its order, every interleaving between endpoints keeps the order of the events about each check |
| Races.StepKeepsOwner | pkg/services/sqlstore/endpoint.go:158-426 | a check never changes hands: the id of a check issued once is never found under another endpoint, even after its deletion |
| Races.EndpointsShareNoCheck | pkg/api/socketio.go:394-470 | what is sent about events of different endpoints, however far apart in the run, is about different checks |
| Races.EndpointsNeverRace | pkg/api/socketio.go:394-470 | handlers of the events of one endpoint in order, and any interleaving whatever between endpoints: every session stays refreshed, so only two events of one endpoint can race |
| Races.RaceIsHarmlessJustWhen | pkg/api/socketio.go:394-470 | any interleaving of the handlers whatever sends what they send, and leaves sessions refreshed if and only if what arrives last for each session and check has the effect of what was due last |
| Notification.RunAndNotify | pkg/api/socketio.go:219-344 | runs the changes, commits lost or not, and then the handlers: every change did what it calls for and every event was answered; if all were committed, every order that keeps the order about each check leaves sessions refreshed |
| Runs.RunStore | pkg/services/sqlstore/endpoint.go:158-426 | any operations on endpoints, probes, sessions and results, failed commits among them, lead from an empty database through stores each of which is what its operation calls for, to one that is in order and in which names and slugs are unique within their orgs |
| Runs.Perform | pkg/services/sqlstore/endpoint.go:158-426 | each operation does what it calls for, and changes nothing just when it is refused or its commit is lost |
| Runs.RunsStaySound | pkg/services/sqlstore/endpoint.go:158-426 | along any run from a store in order, every store has indexes that mirror its routes, online flags that mirror its sessions, no probe id issued twice, and lookups that agree for all live probes and enabled checks |
| Runs.NamesStayUnique | pkg/services/sqlstore/migrations/endpoint_mig.go:11-24 | along any run no two endpoints of an org come to share a name, and no two probes of one a slug |
| Runs.RefusedJustWhen | pkg/services/sqlstore/migrations/probe.go:14-31 | a name or slug is refused just when taking it would give two rows of the org the same |
| Corners.DeletedProbeIsStillRoutedTo | pkg/services/sqlstore/probe.go:522-533 | after a probe was deleted, its routes still list it and the indexes do not |
| Corners.OneProbeIsRemoved | pkg/services/sqlstore/probe.go:499-539 | a deletion that is carried out leaves a live session of the probe, a route that lists it and no index row |
| Corners.GoneProbeIsStillTold | pkg/api/socketio.go:246-268 | an edit after the deletion meets the condition, and its event gives the session, which held its refresh, a check that its refresh does not have |
| Corners.GoneProbeIsOverlooked | pkg/api/socketio.go:246-268 | with a tag of another org left on the deleted probe, an edit meets the other condition: nothing is sent, and the refresh has changed |
| Corners.OnlyProbeZeroStrays | pkg/services/sqlstore/probe.go:628-641 | an event about a probe can reach a session of another probe if and only if it is probe 0 and some session is live |
| Corners.ZeroRouteMisdirects | pkg/api/socketio.go:346-374 | an edit with a route that lists probe 0 meets the condition, and its event leaves a session with a check its probe does not run |
| Corners.TieMeetsTheCondition | pkg/services/sqlstore/endpoint.go:336-345 | the second edit of the tie is one the store carries out and the handler answers, and it is in the position of a stale copy |
| Corners.TieSendsStaleCopy | pkg/api/socketio.go:233-244 | a second edit within one reading of the clock, which changes nothing: the session held its refresh and ends with a copy that is not what is stored |
| Corners.HandlersOvertake | pkg/api/socketio.go:394-470 | two edits of one check can be handled in the other order |
| Corners.LateHandlerLeavesOldVersion | pkg/api/socketio.go:394-470 | the condition of a harmless race fails there, and a session that held its refresh ends with the older version |
| Corners.LostCommitIsStillTold | pkg/services/sqlstore/endpoint.go:374-378 | an edit whose commit is lost has published its event, and a session that held its refresh ends with a version never stored |
| Corners.LostCommitIsAnnounced | pkg/alerting/check_state.go:29-53 | a result whose commit is lost is passed on as a change of state while the row keeps its state |
| Corners.LostRecordIsTakenTwice | pkg/services/sqlstore/migrator/migrator.go:102-111 | two starts that lose their records take the one migration twice |
| Corners.UnaskedConditionIsMissed | pkg/services/sqlstore/migrator/migrator.go:121-130 | a condition that is met but cannot be asked leaves a schema that the list does not make |
| Corners.UnmetConditionNeedNotBeAsked | pkg/services/sqlstore/migrator/migrator.go:121-130 | a condition that is not met may fail to be asked without harm |
| Sockets.ProbeSocket.Enter | pkg/api/sockets/probe.go:123-140 | a refresh is let in exactly when the socket is neither closed nor being refreshed |
| Sockets.ProbeSocket.OnDisconnection | pkg/api/sockets/probe.go:77-89 | the socket ends closed, its done channel closed only the first time; it leaves the cache, and its session row goes if that commit succeeds |
| Sockets.PerformAction | pkg/api/sockets/probe.go:77-145 | every step of the transition system is what the methods of the class do to the sockets it stands for |
| Sockets.RefreshesExclude | pkg/api/sockets/probe.go:123-207 | under every interleaving of callers: one refresh per socket at most, a done channel closed once at most, as many tokens out as goroutines of the loop, ten at most |
| Sockets.FromTheStart | pkg/api/sockets/sockets.go:167-202 | from fresh sockets, whatever the interleaving: no two refreshes of one socket overlap; the loop may start another exactly while fewer than ten of its calls are under way; and a call gets in exactly when the socket is open and nobody is refreshing it |
| Sockets.NoneStartsAfterDisconnection | pkg/api/sockets/probe.go:77-144 | once a socket is disconnected it stays closed, and whoever is refreshing it later was doing so already |
| Sockets.Cache.OnTick | pkg/api/sockets/sockets.go:121-165 | a tick refreshes each local socket of every queued probe exactly once, and no other, and empties the buffer |
| Sockets.Serve | pkg/api/sockets/sockets.go:79-165 | over any connections, disconnections, refreshes asked for and ticks: each tick refreshes, once, exactly the sockets then local whose probe was queued since the tick before |
| Sockets.BufferIsWhatWasQueued | pkg/api/sockets/sockets.go:137-165 | the buffer holds a probe exactly when it was queued and no tick has come since |
| Schedule.GetChecksForAlerts | pkg/services/sqlstore/endpoint.go:845-869 | after ten blank rows, one row, with its columns, for each check that is enabled and whose endpoint id the second meets modulo the frequency, and no other |
| Schedule.GetJobs | pkg/alerting/schedule.go:14-33 | one job, carrying the columns of the check, for each that is enabled, in phase, and has settings counting at least one step and one probe; none otherwise and none for the blank rows |
| Schedule.QueuedJustWhenWanted | pkg/alerting/schedule.go:14-63 | of the seconds processed, a check has a job for one whose query succeeded exactly when it was enabled, in phase and fit for alerting in the store that was asked; a disabled check has none |
| Schedule.Dispatcher.OnTick | pkg/alerting/schedule.go:44-63 | a tick asks about every second up to the tick less the offset in force, each once and none later, and queues, for those whose query succeeds, exactly one job for each check that is enabled, in phase and fit for alerting |
| Schedule.Dispatcher.Run | pkg/alerting/schedule.go:35-77 | over any ticks, any changes of the offset and anything done to the store in between, the seconds asked about form one interval without gap or repetition, and the jobs queued are those of the checks enabled, in phase and fit for alerting in the store each second was asked of, each once |
| Schedule.OncePerWindow | pkg/services/sqlstore/endpoint.go:432 | among any frequency consecutive seconds an enabled check is due at exactly one |
| Schedule.OneJobPerWindow | pkg/alerting/schedule.go:35-77 | in every processed window of one period in which no query failed exactly one job of an alertable check was queued, whatever else happened to the store while the schedule of the check stayed |
| Schedule.DueOncePerPeriod | pkg/services/sqlstore/endpoint.go:847 | over n periods, wherever they start, a check is due exactly n times |
| Executor.StillCached | pkg/alerting/executor.go:49-53 | while fewer other jobs than the cache holds were executed since, a job is still known |
| Executor.CacheHoldsLastExecutions | pkg/alerting/executor.go:49-53 | whatever is offered, the cache holds exactly the keys of the last executions, as many as it has room for |
| Executor.AtMostOnceInWindow | pkg/alerting/executor.go:42-53 | between two executions of the same check and second at least as many distinct other jobs were executed as the cache holds |
| Executor.Execute | pkg/alerting/executor.go:41-98 | older than ten minutes, seen before, failed, or judged by the meaning of its series; a result is written exactly when the state differs or is more than two periods old |
| Executor.RunJob | pkg/alerting/executor.go:41-98 | a job on a stored check, from reading its row to storing its result, is one lazy write of that row, or none just when it is too old, a repetition or cannot be judged |
| Executor.RunJobs | pkg/alerting/executor.go:41-98 | any number of jobs of one check, run on the database one after the other, leave the lazy replay of their results in its row, and state and change as if every result had been written |
| Executor.LazyLosesNothing | pkg/alerting/executor.go:95-98 | skipping writes never shows in the state or in the time of its last change, for any jobs in any order |
| Executor.LastResultIsState | pkg/services/sqlstore/endpoint.go:816-835 | for jobs executed in order the stored state is the last result |
| Executor.LastRunOfResults | pkg/services/sqlstore/endpoint.go:816-835 | for jobs executed in order the time of the last change is the start of the last run of equal results |
| Executor.NoTurnNoChange | pkg/services/sqlstore/endpoint.go:816-835 | results equal to the stored state never move the state or the time of its change |
| Executor.LiveCheckIsTrusted | pkg/services/sqlstore/endpoint.go:26-38 | a check evaluated at most one period apart is never shown as stale, at any instant up to a period after its last evaluation, though every second write is skipped |
| Executor.ThreePeriodsAreReached | pkg/services/sqlstore/endpoint.go:26-38 | for every check there is a paced run at whose end its state is exactly three periods old, so no smaller bound would do |
| Executor.StaleCheckIsUnknown | pkg/services/sqlstore/endpoint.go:26-38 | whatever results a check has had, in whatever order, with or without the skipped writes: once the latest is more than three periods old the check is reported Unknown, with state_change at its state_check, which without skipped writes is the latest time; no other column differs |
| Executor.StaleCheckIsShownUnknown | pkg/services/sqlstore/endpoint.go:26-97 | and that is what a reader of the endpoint is shown, the same at every reading |
| Executor.LazyLagsTwoPeriods | pkg/alerting/executor.go:95-98 | skipping writes leaves state_check at most two periods behind the latest evaluation, unless the state changed as late as that, for any jobs in any order |
| Eval.ScanSeries | pkg/alerting/executor.go:121-153 | whether a series has a value that does not parse, whether it has data, and whether steps consecutive values are positive once the nulls are out |
| Eval.Evaluate | pkg/alerting/executor.go:113-165 | each of the five verdicts exactly when it is due, written out: no series; a value that does not parse; no data in any series; and otherwise Critical when the series with a streak of steps positive values number at least numProbes, and OK when they do not |
| Eval.StreakJustWhen | pkg/alerting/executor.go:121-153 | a series has a streak exactly when, nulls apart, steps of its points in a row are positive |
| Eval.MeaningJustWhen | pkg/alerting/executor.go:113-165 | the declarative verdict, by the number of failing series, is each of the five exactly when due |
| Eval.LongestDecides | pkg/alerting/executor.go:122-153 | the longer of the two running counters answers every question about streaks |
| Eval.OrderDoesNotMatter | pkg/alerting/executor.go:113-165 | the verdict is the same for every order of the series |
| Eval.RaisingKeepsCritical | pkg/alerting/executor.go:113-165 | raising values never takes a check from Critical to OK, nor decides whether there is data |
| CheckState.UpdateCheckState | pkg/services/sqlstore/endpoint.go:816-835 | the two guarded statements make one specified write; a change is reported exactly when the state differed and the job is later than the last change |
| CheckState.BatchUpdateCheckState | pkg/services/sqlstore/endpoint.go:776-799 | the batch is the fold of the single writes, and reports what they report |
| CheckState.BatchByCheck | pkg/services/sqlstore/endpoint.go:776-799 | a batch over many checks is, check by check, the replay of that check's jobs alone, in rows and in reports |
| CheckState.AnyOrderIsSafe | pkg/services/sqlstore/endpoint.go:816-835 | for any order, duplication or retry of jobs: reported changes have strictly increasing times and each differs from the state before it, the row shows the last of them, and state_check is the latest time of all |
| CheckState.LatestIsMaximum | pkg/services/sqlstore/endpoint.go:816-835 | the time state_check ends at is the maximum of its start and all execution times |
| CheckState.ChangeNeverGoesBack | pkg/services/sqlstore/endpoint.go:816-835 | the time of the last change never decreases, however the jobs continue |
| CheckState.NothingReportedTwice | pkg/alerting/check_state.go:29-53 | no retry or duplicate makes a change be reported a second time |
| CheckState.RetryIsHarmless | pkg/alerting/check_state.go:29-53 | a job stored again moves no state_check, and right after itself changes and reports nothing |
| CheckState.StoreResult | pkg/alerting/check_state.go:29-53 | the first of three attempts whose statements succeed decides: a change is passed on at most once, and what is passed on is stored exactly unless the deciding commit was lost |
| Migrator.Migrator.GetMigrationLog | pkg/services/sqlstore/migrator/migrator.go:44-69 | a migration counts as done exactly when the log holds a record of its success |
| Migrator.Migrator.Exec | pkg/services/sqlstore/migrator/migrator.go:116-171 | fails exactly on a fault before or, unless it is skipped, during its transaction, and then leaves the schema as it was; an unmet condition or one that cannot be asked skips it; otherwise the schema is what the statement and then the code after it make |
| Migrator.Migrator.Start | pkg/services/sqlstore/migrator/migrator.go:71-114 | from whatever log, takes what does not count as done in the order of the list up to the first failure; from a resumable state that is the rest of the list, it stays resumable exactly when no record of a success was lost, and its steps stay those of an uninterrupted run exactly when every condition that was met could be asked |
| Migrator.StartWrittenDown | pkg/services/sqlstore/migrator/migrator.go:116-147 | what a start executes is, for each new step that was not skipped, in order, its statement and then the code after it, once each; nothing of a step that failed |
| Migrator.UpgradeWrittenDown | pkg/services/sqlstore/migrator/migrator.go:71-147 | and so for any number of starts that lose no record of a success: nothing is executed twice |
| Migrator.EffectsWrittenDown | pkg/services/sqlstore/migrator/migrator.go:132-139 | the schema that writes down what is executed grows by exactly the effects of the steps taken |
| Migrator.Migrator.StartTwice | pkg/services/sqlstore/migrator/migrator.go:71-114 | when a second start gets through, no migration has been taken twice if and only if the first lost no record of a success |
| Migrator.Migrator.DoneIsPrefix | pkg/services/sqlstore/migrator/migrator.go:76-88 | in a resumable state the migrations counted as done are exactly the first ones of the list |
| Migrator.LogTells | pkg/services/sqlstore/migrator/migrator.go:102-111 | to what it told before, the log adds all the successes exactly when none of their records was lost, and fewer otherwise |
| Migrator.StepsMakeTheFold | pkg/services/sqlstore/migrator/migrator.go:116-147 | steps taken under any faults are those of an uninterrupted run in which nothing goes wrong if and only if no condition that was met could not be asked |
| Migrator.Migrator.LostStepIsForgotten | pkg/services/sqlstore/migrator/migrator.go:109-110 | when a record was lost some step that was taken no longer counts as done |
| Migrator.Migrator.Upgrade | pkg/services/sqlstore/migrator/migrator.go:71-114 | over any number of starts, failing differently each time, the steps are the first migrations of the list, once each and in order; they are those of a run in one go, and the schema the one it makes, exactly when every condition that was met could be asked in the start that took it; after a success further starts change nothing |

## Left out

- Errors of single SQL statements: a statement fails only on the conditions of the tables; a whole attempt of storing a result, a query of the scheduler, a migration and a commit may fail at will.
- ProbeStore.UpdateProbe: does not model the ORM's skipping of zero values in updates; the columns are set as given.
- UpdateProbeSession: heartbeats move the time of a session; the model fixes the instant since which sessions count as live while events are handled.
- Probe events, and the refresh of a probe after its tags or sessions changed; the runs with events keep probes and sessions as they are.
- Notification.RunStaysRefreshed: the order of events about one check is asked for and not guaranteed by the code; `Notification.RunRefreshedJustWhen` has the exact condition. That routes and indexes agree about a deleted probe throughout the run is asked for too; the exact conditions are those of each single change.
- EndpointStore.UpdateEndpoint: for a request that repeats a type it states the shape of the endpoint afterwards, and not which of the repeated positions the stored check follows.
- Routing.GetProbeChecks: the form without slugs (getProbeChecks) selects the same checks and is not modelled a second time.
- Rows.ToDTO: every row is scrutinized at one instant, where the code reads the clock once per call.
- Rows.GetEndpoints: the order the query asks for does not survive the regrouping through a map, here as in the code; matching a name against a pattern is a parameter. The same order is left out of ProbeRows.GetProbes.
- Comparing the JSON of two checks is taken as comparing the checks; the slug of a name is a parameter, as is the check's settings column, which is carried and never read.
- Dispatch.EmitCheckEvent: old probes get the same check in another format; the payload is modelled as the check with its slug either way, and the network beyond the choice of the session is not modelled.
- Eval.Evaluate: values are real numbers; not-a-number and infinities are not modelled.
- Executor.Execute: the query to graphite is a parameter; publishing the result as a metric is not modelled.
- Schedule.Dispatcher.Run: the store changes between ticks and not between the queries of one tick, and the job queue is a plain sequence that drops nothing.
- Which sockets the periodic loop picks, by the age of their last refresh with jitter; the org, slug and type of a job, which only name its query and its metric.
- The handler of state changes, its e-mails and templates.
- Sockets.RefreshesExclude: says nothing about a refresh asked for while another is running being served later, nor about freedom from deadlock between the lock of the cache and the lock of a socket.
- CheckState.AnyOrderIsSafe: jobs out of order do not make the latest result win; the code does not give that, and it is not claimed.
- Individual migrations, the dialects, and data-definition statements that cannot be rolled back; a migration is a parameter that says when its condition is met and what it makes of the schema.
- HTTP routing, authentication, quotas, metrics, the message queue, endpoint discovery, validation of check settings and the conversion of the old monitor format.
