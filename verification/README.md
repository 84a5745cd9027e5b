# opensourcehunter: the tracked-issue lifecycle, in Dafny

This project models the server side of opensourcehunter, a Next.js application. A user watches GitHub repositories. The application finds new issues in them, tracks each one as a row, and can hand an issue to the Copilot coding agent. It then follows the agent's pull request until the draft is ready. It tells the user in the app, by email and by web push.

The model covers:

- **Discovery.** Three entry points find new issues:
  - the cron poll, grouped by `owner/repo`;
  - the manual sync of one user's repositories, covering issues and pull requests;
  - the GitHub webhook.

  All three apply the same label filter, the duplicate check on `(watchedRepoId, issueNumber)` and the linked-PR skip. The sync also applies a case-insensitive title filter. Each then creates the row, writes the in-app notification and fires the auto-fix trigger.
- **The auto-fix state machine.** `triggerCopilotAutoFix` moves a row from `queued` to `generating`, then either stays there or moves to `failed`. Assignment goes straight to the upstream issue for an owned repository. Otherwise it goes through a mirrored issue on the user's fork. `pollCopilotPRStatus` applies the two-hour timeout and looks for the agent's pull request, first in the timeline and then in the fork's listing. The `poll-copilot` cron route drives the polls and counts their outcomes.
- **The closure reconciler.** `poll-issue-state` closes and archives the rows whose upstream issue is closed, then notifies the user.
- **Notifications:**
  - the in-app row writer and its message texts;
  - the unread count;
  - the listing, newest first, at most 50 rows;
  - mark-all-read;
  - the dispatcher's channel gating;
  - dropping a push subscription the push service reports gone.
- **Preferences:** `GET` and `PATCH` of the notification settings, with defaults and boolean-only updates; subscribing and unsubscribing for push.
- **Push payloads and outcomes** (`push.ts`).
- **The watch list:** its listing, and the insert that answers 409 on a duplicate.
- **Client logic:**
  - `parseRepoUrl` and `toggleLabel` of the add-repository dialog;
  - the settings page's optimistic toggle with its rollback;
  - `urlBase64ToUint8Array`, which decodes the VAPID key.

Modelling choices:

- **The store** is the class `Db.Store`. It holds a map per table and keeps the schema's two unique indexes as an invariant.
- **GitHub** is an `Api` value. Each call is a total function to `Got(result)` or `Threw`. The accounts table appears only as the set of users holding a token, which is all `getUserOctokit` consults.
- **Time** and **environment variables** are parameters.
- **Route handlers** return `Reply` values: 401, 400, 409, 500, or ok with a body.
- **Read-modify-write operations** are methods on the store. Each is proved equal to a pure function: `TriggerStep`, `PollStep`, `Reconcile`, `Patched` and so on. The properties are then proved about those functions.
- **`atob`** is the forgiving base64 decoder the WHATWG Infra Standard describes. It decodes the standard alphabet of section 4 of RFC 4648. `Base64.Encode` and `Base64.EncodeUrl` give sections 4 and 5 of RFC 4648. They are the reference the decoder is proved against.

## Model

| member | source | states |
|---|---|---|
| Db.Store.CreateTrackedIssue | src/app/api/cron/poll-issues/route.ts:95-107 | `trackedIssue.create` adds exactly one row under a fresh id and changes no other table; the unique index on `(watchedRepoId, issueNumber)` still holds |
| Db.Store.CreateWatchedRepo | src/app/api/repos/route.ts:46-54 | `watchedRepo.create` adds exactly one row under a fresh id; the unique index on `(userId, owner, repo)` still holds |
| Db.Store.UpdateIssue | src/app/api/cron/poll-issue-state/route.ts:44-54 | a row rewritten in place under its own key leaves every other row and the indexes intact |
| Records.StoredOrDefault | src/app/api/settings/notifications/route.ts:64-71 | an upsert starts from the stored row, or from the schema defaults when there is none |
| Records.Unsubscribed | src/app/api/push/subscribe/route.ts:44-55 | unsubscribing clears the subscription, turns push off and changes no other field |
| Records.NewTrackedIssue | src/app/api/cron/poll-issues/route.ts:95-107 | a discovered row is open, unclaimed, unarchived, with the given key, type and auto-fix status |
| Records.InsertKeepsIssueKeysUnique | src/app/api/cron/poll-issues/route.ts:69-80 | inserting a row keeps the tracked-issue index unique exactly when no row already has its key, which is why every route looks the key up first |
| Records.UpdateKeepsIssueKeysUnique | src/app/api/cron/poll-issue-state/route.ts:44-54 | an update that keeps the row's key keeps the index unique |
| Records.InsertKeepsRepoKeysUnique | src/app/api/repos/route.ts:46-65 | inserting a watch for a `(user, owner, repo)` not yet watched keeps that index unique |
| Cron.UnsetSecretAdmitsLiteralHeader | src/app/api/cron/poll-copilot/route.ts:10-11 | with `CRON_SECRET` unset, the check as written admits the header `Bearer undefined` |
| Cron.CronAuthorizedMeaning | src/app/api/cron/poll-issues/route.ts:12-15 | the corrected check admits nothing without a secret, agrees with the written check whenever the secret is set and non-empty, and accepts exactly `Bearer <secret>` |
| GitHub.LabelNames | src/app/api/cron/poll-issues/route.ts:50-52 | label entries become their non-empty names, a string as itself and an object by its name, and no name is invented |
| GitHub.FetchRepoIssues | src/lib/github.ts:21-41 | throws without a token or when the listing throws; otherwise exactly the listed items that are not pull requests |
| GitHub.FetchRepoPullRequests | src/app/api/repos/sync/route.ts:125-129 | the pull-request listing, read with the user's token, which it needs |
| GitHub.FetchIssueState | src/app/api/cron/poll-issue-state/route.ts:37-42 | the upstream state, read with the user's token, which it needs |
| GitHub.IssueHasLinkedPR | src/lib/github.ts:44-69 | throws exactly without a token; true iff some timeline event is a cross-reference from a pull request; a timeline error reads as false |
| GitHub.ValidateRepoAccess | src/lib/github.ts:145-158 | throws exactly without a token; otherwise false iff the repository lookup throws |
| Copilot.CopilotActorId | src/lib/copilot.ts:21-80 | the id of the first suggested actor whose login is `copilot` in any case, when that id is non-empty; nothing when the query throws or no actor matches |
| Copilot.IssueNodeId | src/lib/copilot.ts:83-111 | the issue's node id, or nothing exactly when the query throws |
| Copilot.ForkIssueTitle | src/lib/copilot.ts:183-184 | the mirrored issue's title is `[Upstream #N]`, a space, then the upstream title |
| Copilot.AssignIssueToCopilot | src/lib/copilot.ts:118-225 | rejects exactly without a token, and then sends nothing. The owned path touches only the upstream issue and reports no fork issue. Without a fork it does nothing and fails. On the fork path every mutation targets `forkOwner/repo` and the mirrored title carries the upstream marker. Success means the last mutation assigned Copilot |
| Copilot.AssignOwned | src/lib/copilot.ts:129-162 | at most one mutation, the assignment on the upstream issue; never a fork issue number |
| Copilot.AssignThroughFork | src/lib/copilot.ts:163-219 | every mutation targets the fork; success reports the number of the mirrored issue it created |
| Copilot.TimelineCopilotPR | src/lib/copilot.ts:293-339 | the first cross-referenced pull request with a number and a URL whose author login contains `copilot` in any case; none iff no event qualifies |
| Copilot.ForkCopilotPR | src/lib/copilot.ts:259-281 | the first pull request on the fork written by Copilot that names the upstream issue in its body or its title; none iff no pull request qualifies |
| Copilot.CheckCopilotPRStatus | src/lib/copilot.ts:230-290 | rejects exactly without a token. A found pull request lives under the upstream owner for an owned repository and under the fork owner otherwise. A non-owned repository without a fork finds nothing. With a token, an owned repository finds the first Copilot hit on the issue's timeline. A fork first finds a hit on the mirrored issue's timeline; a failed timeline ends the search. With no hit there, or no mirrored issue, it finds the first matching pull request of the fork's listing. A failed lookup finds nothing |
| Copilot.TriggerStep | src/lib/copilot.ts:342-410 | a claimed row, or one not `queued`, is left alone with no mutation sent. Otherwise `generatingAt` is stamped. The row ends `generating` iff the assignment reports success, and `failed` otherwise. Only the auto-fix fields change. A started assignment's truthy fork issue number is stored; otherwise the row keeps its own |
| Copilot.PollStep | src/lib/copilot.ts:413-473 | a row not `generating` is untouched. A row past the strict two-hour timeout becomes `failed` before any lookup. When a check is due, a found pull request with a non-zero number makes the row `draft_ready` with its number, URL and owner, and writes one message. Any other answer leaves the row and writes nothing. The poll rejects exactly when a due check has no token |
| Copilot.StepsFollowStateMachine | src/lib/copilot.ts:367-473 | trigger and poll only make the moves `queued → generating`, `queued → failed`, `generating → failed` and `generating → draft_ready`, or leave the status alone |
| Copilot.TriggerIdempotent | src/lib/copilot.ts:356-364 | a second trigger on the row the first one left changes nothing and sends nothing |
| Copilot.ClaimedNeverAssigned | src/lib/copilot.ts:356-364 | a claimed row never reaches GitHub |
| Copilot.TriggerWritesTargetFork | src/lib/copilot.ts:163-219 | on a repository that is not owned, every mutation a trigger sends targets the user's fork |
| Copilot.PollFindsTimelinePr | src/lib/copilot.ts:241-247 | a generating row of an owned repository whose timeline shows a Copilot pull request becomes `draft_ready` under the upstream owner, with a message |
| Copilot.PollFindsForkPr | src/lib/copilot.ts:258-279 | on a fork with no timeline hit, the first Copilot pull request in the fork's listing that names the upstream issue makes the row `draft_ready` under the fork owner with that pull request's number |
| Copilot.TimeoutNeedsNoCheck | src/lib/copilot.ts:431-441 | after the timeout the poll's answer does not depend on GitHub, and the row is `failed` |
| Copilot.TimeoutIsStrict | src/lib/copilot.ts:413-441 | exactly at two hours the row is not failed: GitHub is asked, and the poll rejects exactly without a token |
| Copilot.TriggerCopilotAutoFix | src/lib/copilot.ts:342-410 | on the store: a missing row is left alone; otherwise the row becomes what `TriggerStep` says and no other table changes |
| Copilot.RecordAssignment | src/lib/copilot.ts:380-409 | the writes after the assignment: `failed` on failure, the fork issue number when one was created |
| Copilot.PollCopilotPRStatus | src/lib/copilot.ts:416-473 | on the store: the row becomes what `PollStep` says and the draft-ready message is appended to the log; a missing row is a fulfilled no-op |
| PollCopilotRoute.GeneratingIds | src/app/api/cron/poll-copilot/route.ts:17-24 | exactly the rows whose status is `generating` |
| PollCopilotRoute.PollCopilot | src/app/api/cron/poll-copilot/route.ts:8-45 | 401 and nothing polled without the secret. Otherwise every generating row is polled once and the other rows are untouched. `polled` is the number of generating rows, `successful + failed == polled`, and `failed` counts the polls that rejected. The notification log gains exactly one row per polled row whose poll moved it to `draft_ready`, each row once: unread, for the repository's owner, about that row, with its draft-ready message, at the current time. Nothing else is appended |
| PollCopilotRoute.PollAll | src/app/api/cron/poll-copilot/route.ts:29-40 | `Promise.allSettled` over the polls: one rejection stops no other poll, and the two counts add up to the number of polls. The notification log gains one unread draft-ready row per polled row whose poll moved it to `draft_ready` (owner, row id, message, current time) and nothing else |
| PollCopilotRoute.PolledAllRows | src/app/api/cron/poll-copilot/route.ts:17-31 | once every generating row is polled, every row is its own poll's outcome |
| Discovery.SharesLabel | src/app/api/cron/poll-issues/route.ts:56-66 | true iff some configured label is among the item's labels |
| Discovery.LabelPassesMeaning | src/app/api/cron/poll-issues/route.ts:56-66 | the label filter passes iff no label is configured or one configured label is among the item's |
| Discovery.TitlePassesIgnoresCase | src/app/api/repos/sync/route.ts:58-60 | the title filter gives the same answer whatever the case of the title or of the query |
| Discovery.GroupKey | src/app/api/cron/poll-issues/route.ts:29-36 | the grouping key `owner/repo` contains a slash |
| Discovery.SplitGroupKey | src/app/api/cron/poll-issues/route.ts:40 | splitting the key at `/` gives back the watcher's owner and repo |
| Discovery.ListedRow | src/app/api/cron/poll-issues/route.ts:95-107 | an issue row starts `queued` and a pull-request row `skipped`, keyed by the watcher and the number |
| Discovery.Admit | src/app/api/cron/poll-issues/route.ts:95-118 | the row is created and then its one announcement is appended; nothing else changes |
| Discovery.RunTriggers | src/app/api/cron/poll-issues/route.ts:121-133 | the deferred triggers run once discovery is over: each created id is triggered once, and the log is untouched |
| Discovery.Untriggered | src/lib/copilot.ts:367-399 | resets the fields a trigger writes to their values at creation |
| Discovery.UntriggeredInverts | src/lib/copilot.ts:367-399 | a trigger on a freshly created queued row is undone by `Untriggered`, so a trigger changes no item field |
| Discovery.TriggeredRowsKeep | src/app/api/cron/poll-issues/route.ts:121-133 | the triggers add no row, remove none, and change only the auto-fix fields |
| Discovery.HasIssueGrows | src/app/api/cron/poll-issues/route.ts:69-80 | discovery never loses a tracked key |
| PollIssues.ActiveIds | src/app/api/cron/poll-issues/route.ts:19-22 | exactly the watched repositories that are not frozen |
| PollIssues.ActiveKeys | src/app/api/cron/poll-issues/route.ts:29-36 | exactly the `owner/repo` keys of the active watchers |
| PollIssues.MembersMeaning | src/app/api/cron/poll-issues/route.ts:29-36 | a group holds exactly the watchers filed under its key |
| PollIssues.GroupByRepo | src/app/api/cron/poll-issues/route.ts:29-36 | each key once, in order of first appearance, mapped to its non-empty group in watcher order |
| PollIssues.ScreenListed | src/app/api/cron/poll-issues/route.ts:50-118 | per watcher and issue: label filter, then the existing row, then the linked-PR lookup, which throws without a token; a row with its announcement iff all pass |
| PollIssues.ScreenWatchers | src/app/api/cron/poll-issues/route.ts:49-126 | one listed issue against the group: no tracked row is lost; unless a watcher lacked a token, every watcher that wants the issue tracks it |
| PollIssues.PollGroup | src/app/api/cron/poll-issues/route.ts:38-131 | one group read with its first watcher's token: when every watcher holds a token, every watcher of the group ends complete; a failure ends this group alone |
| PollIssues.PollGroups | src/app/api/cron/poll-issues/route.ts:38-131 | every group whose watchers all hold tokens ends complete, whatever the other groups do |
| PollIssues.ListingComplete | src/app/api/cron/poll-issues/route.ts:47-126 | a listing screened to its end leaves every watcher of the group tracking every issue it wants |
| PollIssues.NothingWanted | src/app/api/cron/poll-issues/route.ts:128-130 | a group whose listing throws wants nothing, so skipping it loses nothing |
| PollIssues.GetPollIssues | src/app/api/cron/poll-issues/route.ts:10-143 | 401 and nothing written without the secret. `reposPolled` counts the distinct active keys and `issuesCreated` the rows created. Earlier rows are untouched. Each new row is a listed issue its watcher wants, after its trigger, with its announcement in order. Each active watcher whose group holds tokens tracks every issue it wants |
| PollIssues.PollActive | src/app/api/cron/poll-issues/route.ts:19-131 | the grouping and the group loop: one poll per distinct key, and completeness for groups with tokens |
| PollIssues.TriggeredRowsListed | src/app/api/cron/poll-issues/route.ts:95-133 | after the triggers, each new row is its listed row with the trigger applied |
| PollIssues.ActiveKeysCounted | src/app/api/cron/poll-issues/route.ts:29-38 | the number of groups is the number of distinct active keys |
| Sync.OwnActiveIds | src/app/api/repos/sync/route.ts:18-23 | exactly the caller's watched repositories that are not frozen |
| Sync.ScreenItem | src/app/api/repos/sync/route.ts:40-194 | an item gets a row iff it passes the labels, the title, and, for an issue, the linked-PR check, and has no row yet. Issues become `queued` and pull requests `skipped` |
| Sync.ScreenListing | src/app/api/repos/sync/route.ts:40-122 | every listed item of the kind that the sync wants is tracked afterwards, and no tracked row is lost |
| Sync.SyncRepo | src/app/api/repos/sync/route.ts:30-198 | issues first, then pull requests; an exception ends this repository alone; afterwards both kinds are covered |
| Sync.SyncRepos | src/app/api/repos/sync/route.ts:30-198 | every repository of the loop ends covered |
| Sync.SyncedAll | src/app/api/repos/sync/route.ts:30-198 | once every own repository is covered, every item the sync wants is tracked |
| Sync.TriggeredRowsSynced | src/app/api/repos/sync/route.ts:117-121 | after the triggers, an issue row is its listed row with the trigger applied, and a pull-request row is untouched |
| Sync.PostSync | src/app/api/repos/sync/route.ts:10-211 | 401 without a session. One count per own unfrozen repository, with issue rows and pull-request rows counted apart. The triggered rows are exactly the new issue rows. Earlier rows are untouched, each new row has its announcement in order, and every item the sync wants is tracked |
| Webhook.VerifySignature | src/app/api/webhooks/github/route.ts:9-18 | a missing signature or secret fails; otherwise true iff the signature equals the digest; it throws iff their lengths differ |
| Webhook.WebhookVerdict | src/app/api/webhooks/github/route.ts:78-127 | a row is created iff the label filter passes, the linked-PR lookup answers no and the issue is not tracked; it throws iff the filter passes and the watcher has no token |
| Webhook.LinkedPrCheckedFirst | src/app/api/webhooks/github/route.ts:91-114 | the linked-PR lookup comes before the existing-row check, so an already tracked issue whose watcher lost its token throws |
| Webhook.WatcherIds | src/app/api/webhooks/github/route.ts:66-74 | every watcher of `owner/repo`, frozen ones included |
| Webhook.ScreenWatcher | src/app/api/webhooks/github/route.ts:76-144 | one watcher: the outcome `WebhookVerdict` names, with the row and announcement on creation |
| Webhook.HandleWatchers | src/app/api/webhooks/github/route.ts:76-144 | the loop throws iff some watcher whose filter passes has no token; unless it threw, every watcher that wants the issue tracks it |
| Webhook.HandleIssueEvent | src/app/api/webhooks/github/route.ts:41-145 | actions other than `opened` and `labeled` change nothing. Otherwise the watcher loop runs and then the triggers of the rows it created. Earlier rows are untouched, and each new row is the event's issue for a watcher that wants it, announced in order |
| Webhook.Post | src/app/api/webhooks/github/route.ts:21-39 | a bad signature gives 401 and a length mismatch 500, with nothing written. A non-`issues` event is acknowledged untouched. An exception from the handler becomes a 500 |
| Closure.OpenIds | src/app/api/cron/poll-issue-state/route.ts:17-27 | exactly the rows that are open and not archived |
| Closure.Reconcile | src/app/api/cron/poll-issue-state/route.ts:36-54 | a row whose issue is closed upstream becomes closed, with the upstream `closedAt` or now, and archived now; otherwise it is unchanged, including when the lookup threw |
| Closure.SweepChangesOnlyOpen | src/app/api/cron/poll-issue-state/route.ts:17-54 | only open, unarchived rows change, and each changed row is now closed and archived |
| Closure.SweepIdempotent | src/app/api/cron/poll-issue-state/route.ts:17-54 | a second sweep against the same upstream changes nothing |
| Closure.SweepKeepsKeys | src/app/api/cron/poll-issue-state/route.ts:44-54 | the sweep keeps every row's key |
| Closure.ReconcileRow | src/app/api/cron/poll-issue-state/route.ts:33-72 | one row: closed iff closed upstream; the row becomes its `Reconcile`; counted iff closed and its notification returned |
| Closure.SweepRows | src/app/api/cron/poll-issue-state/route.ts:32-73 | the table after the loop is the sweep of the rows it visited, and the closed and counted rows are the ones the per-row facts name |
| Closure.GetPollIssueState | src/app/api/cron/poll-issue-state/route.ts:9-86 | 401 and nothing written without the secret. Otherwise the table is the sweep of the table before. `issuesChecked` counts the open rows, and `issuesClosed` counts the closed rows whose notification returned |
| Notifications.NewIssueMessage | src/lib/notifications.ts:17-27 | `New issue in owner/repo: #N - title`: the fixed prefix, ending in the title |
| Notifications.DraftReadyMessage | src/lib/notifications.ts:29-39 | `Draft PR #P ready for review: owner/repo issue #N`: starts with the fixed prefix and ends with the repository and issue number |
| Notifications.NewIssueMessageDeterminesNumber | src/lib/notifications.ts:25 | for one repository and title, the message names one issue number |
| Notifications.DraftReadyMessageDeterminesPr | src/lib/notifications.ts:37 | for one issue, the message names one pull-request number |
| Notifications.CreateNotification | src/lib/notifications.ts:3-15 | exactly one unread row for the user, with the message and the issue id, is appended; nothing else changes |
| Notifications.CreateIssueNotification | src/lib/notifications.ts:17-27 | appends the one new-issue row for the tracked item |
| Notifications.UnreadCount | src/lib/notifications.ts:41-48 | zero iff the user has no unread row; at most the log's length |
| Notifications.UnreadCountAppend | src/lib/notifications.ts:41-48 | appending a row adds one to its owner's count exactly when it is unread |
| Notifications.Listing | src/app/api/notifications/route.ts:15-35 | the caller's visible rows (only unread ones when asked), newest first. There are 50 of them, or all of them when fewer are visible. Each row is taken at most as often as it occurs. A visible row is left out only when 50 rows at least as new are shown |
| Notifications.ListNotifications | src/app/api/notifications/route.ts:7-39 | 401 exactly without a session. Otherwise the caller's visible rows, newest first, at most 50. A visible row is left out only when 50 rows at least as new are shown |
| Notifications.ListingComplete | src/app/api/notifications/route.ts:15-35 | when at most 50 rows are visible, the listing holds every one of them |
| Notifications.MarkAllRead | src/app/api/notifications/route.ts:49-55 | row for row, the caller's unread rows become read and every other row is kept |
| Notifications.MarkAllReadCounts | src/app/api/notifications/route.ts:49-55 | afterwards the caller has no unread row, and every other user's count is unchanged |
| Notifications.PatchNotifications | src/app/api/notifications/route.ts:42-58 | 401 and nothing changed without a session; otherwise the log is marked read for the caller |
| Order.SortDesc | src/app/api/notifications/route.ts:34 | newest first, a permutation of the rows |
| Order.TakeSortedRest | src/app/api/notifications/route.ts:34-35 | a row that the first `n` rows of a newest-first listing leave out is no newer than the last of them |
| Order.TakeSorted | src/app/api/notifications/route.ts:35 | the first rows of a newest-first listing are newest first |
| Push.SendPushNotification | src/lib/push.ts:22-56 | without all three VAPID settings, `null` whatever the library would do. A configured send returns the library's result on success and `{ expired: true }` exactly for a 410 rejection |
| Push.UnconfiguredSendsNothing | src/lib/push.ts:26-38 | without the VAPID settings the result does not depend on the library |
| Push.OtherFailuresAreNull | src/lib/push.ts:48-55 | a rejection other than 410, including one without a status, is `null` |
| Push.ItemWord | src/lib/push.ts:58-73 | `pull request` iff the item is a pull request |
| Push.NewIssuePushPayload | src/lib/push.ts:58-73 | title starting `New `, body ending in the title, the item's URL and the icon |
| Push.NewIssuePayloadNamesKind | src/lib/push.ts:58-73 | the title tells a pull request from an issue |
| Push.NewIssuePayloadNamesNumber | src/lib/push.ts:58-73 | for one title, the body names one number |
| Push.DraftUrl | src/lib/push.ts:75-88 | `<NEXTAUTH_URL>/drafts/<draftId>`, with an unset base rendered as `undefined` |
| Push.DraftReadyPushPayload | src/lib/push.ts:75-88 | title starting `Draft PR #`, the draft's page as URL, and the icon |
| Push.DraftPayloadNamesPr | src/lib/push.ts:75-88 | the title names one pull-request number |
| Dispatcher.Deliver | src/lib/notifications/dispatcher.ts:52-111 | the in-app row is always written first. Email goes out iff the channel, the per-kind toggle and the address are set. Push goes out iff the channel, the toggle and a parsable subscription are set. An expired push drops the subscription |
| Dispatcher.DispatchIssueNotification | src/lib/notifications/dispatcher.ts:52-111 | `Deliver` with the new-issue message and the new-issue payload |
| Dispatcher.DispatchDraftReadyNotification | src/lib/notifications/dispatcher.ts:113-173 | `Deliver` with the draft-ready message and payload |
| Dispatcher.DispatchedTouchesOnlyOwnPush | src/lib/notifications/dispatcher.ts:65-106 | a dispatch changes at most the user's own preferences, and only to drop the subscription; an unknown user gets the in-app row alone |
| Dispatcher.OnlyExpiryUnsubscribes | src/lib/notifications/dispatcher.ts:96-109 | without VAPID settings, or for any outcome but 410, the preferences stay as they were |
| Dispatcher.UnsubscribedPushesNothing | src/lib/notifications/dispatcher.ts:88-106 | after a subscription is dropped, no dispatch pushes, and email goes out as before |
| Settings.View | src/app/api/settings/notifications/route.ts:29-37 | `hasPushSubscription` iff a non-empty subscription is stored |
| Settings.GetSettings | src/app/api/settings/notifications/route.ts:6-38 | 401 exactly without a session; the defaults when no row is stored, else the stored row's view |
| Settings.DefaultsAgree | src/app/api/settings/notifications/route.ts:17-27 | the route's defaults are what a freshly created row shows |
| Settings.Patched | src/app/api/settings/notifications/route.ts:56-71 | the subscription is never touched, and a key that is missing or not a boolean leaves its field alone |
| Settings.PatchedTakesBooleans | src/app/api/settings/notifications/route.ts:56-62 | a boolean key is stored as sent |
| Settings.PatchIdempotent | src/app/api/settings/notifications/route.ts:56-71 | sending the same body twice is sending it once |
| Settings.EmptyPatchNoop | src/app/api/settings/notifications/route.ts:56-71 | a body with no boolean key changes nothing |
| Settings.PatchSettings | src/app/api/settings/notifications/route.ts:40-82 | 401 without a session and 500 for a body that is not valid JSON or is `null`, with nothing written; otherwise the upsert of the patched row, where a non-object body patches nothing |
| Settings.PatchAnswersAsGet | src/app/api/settings/notifications/route.ts:73-81 | the `PATCH` answer is what a `GET` right after it returns |
| Subscribe.Subscribed | src/app/api/push/subscribe/route.ts:22-33 | stores the subscription text and turns push on; no other field changes |
| Subscribe.UnsubscribeUndoesSubscribe | src/app/api/push/subscribe/route.ts:22-55 | unsubscribing after subscribing leaves the row as unsubscribing alone would |
| Subscribe.ResubscribeReplaces | src/app/api/push/subscribe/route.ts:22-33 | a new subscription replaces the old one whole |
| Subscribe.PostSubscribe | src/app/api/push/subscribe/route.ts:6-36 | 401 without a session. A missing subscription or endpoint gives 400 and writes nothing. Otherwise the row is upserted with the subscription |
| Subscribe.DeleteSubscribe | src/app/api/push/subscribe/route.ts:38-58 | 401 without a session; otherwise the row is upserted unsubscribed |
| Repos.UserRepoIds | src/app/api/repos/route.ts:14-22 | exactly the caller's rows |
| Repos.GetRepos | src/app/api/repos/route.ts:7-25 | 401 exactly without a session; otherwise each of the caller's rows once, newest first, with its own tracked count, and nobody else's |
| Repos.NewWatchedRepo | src/app/api/repos/route.ts:36-54 | the given owner, repo and filters, `[]` for a missing list, not frozen, no title query, no fork |
| Repos.PostRepo | src/app/api/repos/route.ts:28-67 | 401 without a session. 400 iff the owner or the repo is missing. 409 iff the caller already watches the repository. No row is written unless one is created |
| Repos.SecondPostConflicts | src/app/api/repos/route.ts:58-65 | after a watch is created, the same `(user, owner, repo)` is watched, so a second `POST` answers 409 |
| Text.Trim | src/components/add-repo-dialog.tsx:45 | the text without surrounding whitespace |
| Text.ToLower | src/app/api/repos/sync/route.ts:58-60 | ASCII lower-casing, character for character |
| AddRepoDialog.SlashPair | src/components/add-repo-dialog.tsx:40 | a match means the text is exactly `owner/repo`, with both parts non-empty and slash-free |
| AddRepoDialog.GithubAt | src/components/add-repo-dialog.tsx:41 | a match at a position means `github.com/owner/repo` occurs there |
| AddRepoDialog.GithubFromLeftmost | src/components/add-repo-dialog.tsx:41 | the unanchored search returns the match at the leftmost matching position |
| AddRepoDialog.GithubFromNone | src/components/add-repo-dialog.tsx:41 | the search fails only when no position matches |
| AddRepoDialog.StripGit | src/components/add-repo-dialog.tsx:47 | removes one trailing `.git` and nothing else |
| AddRepoDialog.ParseRepoUrl | src/components/add-repo-dialog.tsx:37-51 | an answer has a non-empty, slash-free owner and a slash-free repo |
| AddRepoDialog.ParseRepoUrlSound | src/components/add-repo-dialog.tsx:37-51 | every answer is read out of the trimmed text: the whole of it is `owner/repo`, or `github.com/owner/repo` occurs in it, the repo possibly followed by the stripped `.git` |
| AddRepoDialog.ParsesBareForm | src/components/add-repo-dialog.tsx:40-47 | text that is exactly `owner/repo` parses to that owner and the stripped repo |
| AddRepoDialog.ParsesGithubUrl | src/components/add-repo-dialog.tsx:41-47 | `https://github.com/owner/repo` parses to that owner and the stripped repo |
| AddRepoDialog.NoSlashNoParse | src/components/add-repo-dialog.tsx:50 | trimmed text without a slash is refused |
| AddRepoDialog.RefusesInvalidFormat | src/components/add-repo-dialog.tsx:50 | `invalid-format` is refused |
| AddRepoDialog.ToggleLabel | src/components/add-repo-dialog.tsx:53-59 | the tag's selection flips and no other tag's does |
| AddRepoDialog.ToggleAppends | src/components/add-repo-dialog.tsx:53-59 | an unselected tag is appended after the selection as it was |
| AddRepoDialog.ToggleTwice | src/components/add-repo-dialog.tsx:53-59 | toggling an unselected tag twice gives back the selection |
| SettingsPage.With | src/app/dashboard/settings/page.tsx:100-120 | sets one key and keeps every other |
| SettingsPage.SavedMatchesServer | src/app/dashboard/settings/page.tsx:100-120 | a saved toggle shows what the server stored; the subscription flag is ignored by the server |
| SettingsPage.Page.UpdatePreference | src/app/dashboard/settings/page.tsx:100-120 | the key is set to the value when the save succeeds and to `!value` when it fails; no save is left in flight |
| SettingsPage.RollbackRestores | src/app/dashboard/settings/page.tsx:100-120 | a failed save of the offered value, the opposite of the one shown, restores the view exactly |
| SettingsPage.RollbackOfSameValueFlips | src/app/dashboard/settings/page.tsx:100-120 | a failed save of the value already shown flips the key, because the rollback writes `!value` |
| SettingsPage.PadLength | src/app/dashboard/settings/page.tsx:358 | the fewest `=` that make the length a multiple of four |
| SettingsPage.ReplaceAll | src/app/dashboard/settings/page.tsx:359 | every occurrence of the character is replaced and every other character kept |
| SettingsPage.ToStandardBase64 | src/app/dashboard/settings/page.tsx:358-359 | the padded text in the standard alphabet, with the length a multiple of four |
| SettingsPage.UrlSafeBecomesStandard | src/app/dashboard/settings/page.tsx:358-359 | a URL-safe key becomes standard digits followed only by padding |
| SettingsPage.StandardUnchanged | src/app/dashboard/settings/page.tsx:358-359 | standard text whose length is a multiple of four is left alone |
| SettingsPage.Bytes | src/app/dashboard/settings/page.tsx:361-365 | one byte per character, equal to its code when the code is below 256 |
| SettingsPage.CopyCodes | src/app/dashboard/settings/page.tsx:361-365 | a fresh array whose byte `i` is the code of character `i` |
| SettingsPage.UrlBase64ToUint8Array | src/app/dashboard/settings/page.tsx:357-366 | fails exactly when `atob` throws on the converted text; otherwise a fresh array holding the decoded bytes |
| SettingsPage.PadLengthIsPadding | src/app/dashboard/settings/page.tsx:358 | the page pads an unpadded encoding exactly as section 4 of RFC 4648 pads |
| SettingsPage.UrlKeyBecomesEncode | src/app/dashboard/settings/page.tsx:358-359 | the conversion turns the unpadded URL-safe encoding of any bytes into their standard padded encoding |
| SettingsPage.KeyRoundTrip | src/app/dashboard/settings/page.tsx:357-366 | a VAPID key encoded as section 5 of RFC 4648 without padding decodes to exactly the bytes it encodes |
| SettingsPage.StrayDigitRejected | src/app/dashboard/settings/page.tsx:358-360 | a URL-safe key whose length leaves a remainder of one when divided by four makes `atob` throw |
| Base64.Atob | src/app/dashboard/settings/page.tsx:360 | a decoded text holds only codes below 256 |
| Base64.OctetsOfSextets | src/app/dashboard/settings/page.tsx:360 | regrouping six-bit digits into bytes undoes the split of bytes into digits |
| Base64.AtobDecodesEncode | src/app/dashboard/settings/page.tsx:360 | `atob` decodes the standard padded encoding of any bytes back to those bytes |

## Left out

- **Calls into GitHub.** Every Octokit call is an oracle in `GitHub.Api`: the GraphQL queries and mutations, issue creation, timeline and pull-request listings, and repository lookups. Their transport, pagination and rate limits are not modelled.
- **Functions imported but not defined in the modelled files.** `fetchRepoPullRequests` and `fetchIssueState` are not defined in `src/lib/github.ts`. They are oracles that need a token, like their neighbours. `createIssueClosedNotification` is imported by the closure route but is not defined in `src/lib/notifications.ts`. It is the parameter `CloseNotifier`, which may return or throw.
- **Concurrency.** Fire-and-forget triggers and `Promise.allSettled` fan-out are modelled as sequential processing that records each item's outcome. The deferred triggers run one after another once discovery is over, and polls run one at a time. Interleavings between concurrent requests are not modelled.
- **Query order.** The order of `findMany` results without `orderBy` is chosen by the store. The model takes it as an arbitrary enumeration.
- **The webhook HMAC.** The HMAC-SHA256 digest is a parameter. `timingSafeEqual` compares byte lengths; the model compares character lengths, which are the same for the ASCII header GitHub sends.
- **Email.** An email is modelled by its recipient alone. The Resend client, the HTML templates and a throwing `sendEmail` are outside the model.
- **JSON.** `JSON.parse` of a stored subscription is a parameter that may fail. The JSON encoding of label and language lists is not modelled: the model keeps the lists. Labels that are neither a string nor an object are not modelled.
- **Schema defaults.** The Prisma schema is not part of this model. Its defaults are taken as:
  - preferences equal the route's `GET` defaults;
  - a watched repository starts unfrozen, without a fork or a title query;
  - `isOwned` takes the parameter `ownedDefault`, because the insert does not set it.
- **Database exceptions.** Writes other than the unique-index conflict are taken to succeed.
- **Time and the environment.** `Date.now()`, `new Date()` and the environment variables are parameters.
- **The rest of the interface.** Only `parseRepoUrl`, `toggleLabel`, `updatePreference` and `urlBase64ToUint8Array` are modelled. Rendering, the rest of the settings page and dialog, and the other pages are not.
- **Other routes.** Publishing, rejecting, claiming, unclaiming and restoring are not part of this model. Neither are the read-only `issues` and `drafts` listings or repository search.
- **Concurrent clicks.** `SettingsPage.Page.UpdatePreference` takes the outcome of its own save as a parameter. Clicks that overlap while a save is in flight are not modelled.
- **Sample inputs.** `AddRepoDialog.ParsesGithubUrl` and `AddRepoDialog.ParsesBareForm` state the test cases for every owner and repo, not for the sample strings; only `invalid-format` is checked as a literal.
- Text.ToLower: folds ASCII letters only. JavaScript's `toLowerCase` also folds other letters (`É` to `é`), so `Discovery.TitlePasses` and `Discovery.TitlePassesIgnoresCase` hold for ASCII case alone. A title and query that differ only in non-ASCII case match in the source but not in the model.
- PollCopilotRoute.PollCopilot, PollIssues.GetPollIssues and Closure.GetPollIssueState: these use the corrected `Cron.CronAuthorized`, not the check as written (see "## Findings"). They refuse two headers that the source admits: `Bearer undefined` with `CRON_SECRET` unset, and `Bearer ` with `CRON_SECRET` empty.
- **Dispatcher call sites.** The dispatcher is modelled on its own. The discovery routes write their in-app row through `createIssueNotification`. The draft-ready row of `pollCopilotPRStatus` is written straight to the store.

## Findings

| source | as written | input that shows it | evidently intended | confidence | as-written member | corrected member |
|---|---|---|---|---|---|---|
| src/app/api/cron/poll-copilot/route.ts:11 | the cron routes compare the header with the template `Bearer ${process.env.CRON_SECRET}`, which renders an unset secret as the text `undefined` | `CRON_SECRET` unset, header `authorization: Bearer undefined`: the request is admitted | with no secret configured no request is admitted; with one, exactly `Bearer <secret>` is | medium, not executed | Cron.UnsetSecretAdmitsLiteralHeader | Cron.CronAuthorizedMeaning |

The same check appears at src/app/api/cron/poll-issue-state/route.ts:11 and src/app/api/cron/poll-issues/route.ts:13. The routes in the model use the corrected check, `Cron.CronAuthorized`.
