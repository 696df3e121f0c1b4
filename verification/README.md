# Verified model of the CoderDojo site's state machines

A Dafny model of the parts of the site in which several operations, several
workers or the passing of time have to agree with each other: mailing a campaign
in chunks, the time-dependent list of promotions and the shared data cache,
organisation roles with time-boxed Django admin access, the guardians of a child,
the sign-in policy with two-step login, background checks with applications, and
three smaller algorithms. `dafny verify dfyconfig.toml` checks everything.

Two styles meet in each area. What the code does to rows and fields, with its
loops, is a class or a method whose postcondition gives the whole new state as a
function of the old one. What the design promises is proved about that function:
over every run of the operations, in any order, with any arguments.

## The modules

- `Basics`: options, and a few facts about finite sets.
- `Audience`: account ids in id order, and the slices a chunk takes of them.
- `CampaignMail`: mail rows, the idempotent send, one pass over a list of accounts.
- `CampaignQueue`: the campaign services as one caller sees them; chunked queuing
  refines the single pass `OneShot`.
- `CampaignProtocol`, `CampaignTheorems`: the same services as an interleaving.
  Every query or update is a step of its own: any number of workers with any
  cursor, stale launches and cancels, the every-minute job, the mail engine,
  people changing their mail choices, crashes, exceptions, and the lock expiring.
- `CampaignRuns`: a worker that nobody disturbs does what `CampaignQueue` says, the
  queuing can always be finished, and for each exception the theorems name there is a
  run from the start that needs it.
- `PromotionCache`: what shows, when that next changes, and how long it is cached.
- `SharedCache`: readers (get, build, set) against writers (write, delete, commit,
  delete).
- `Organisation`, `OrganisationStore`: roles, groups, admin grants and the staff
  flag; first as functions with their invariant, then as the row-by-row services.
- `Guardians`, `GuardianStore`: the same for a child's guardians and invitations;
  `GuardianRemovals` lets removals overlap.
- `SignIn`, `TwoStep`: the two passes over the policy rows, and the devices that may
  or may not be removed under what they ask.
- `BackgroundChecks`: a check's renewal loop and the applications that rest on it.
- `Journeys`, `DojoLimit`, `Usernames`: cool-down, sliding-window limit, and the
  search for a free username.

## Where the documentation promises more than the code

For each of these there is a run from the start in which the promise is broken, and a
theorem over every run that says when it is kept.

- A cancel is documented to withdraw mail that is queued and not sent
  (campaigns/services.py:219-220). In a cancelled campaign at rest exactly the mail put
  back in the queue since (mailing/tasks.py:198-207, mailing/queue_actions.py:40-53) and
  the mail of chunks that died since still waits (`CancelledCampaign`). The word is kept
  if and only if no mail of no running chunk is put back and no chunk dies with mail that
  only it would withdraw (`SettledExactly`, `CancelKeepsItsWord`). Runs:
  `DeadWorkerLeavesMail`, `RequeueRevivesMail`.
- A campaign is completed when all its mail is out (campaigns/services.py:320-323). What
  is open in a completed one is exactly what was put back or added since the job saw
  nothing open (`CompletedCampaign`), and nothing is if and only if neither happens
  (`DoneExactly`, `CompletedStaysDone`). Runs: `RetryOpensCompleted`,
  `RetryBeforeCompletes` for the instant between the job's check and its update, and
  `LateRowAfterCompleted`, which needs a lock that expired and an audience that changed.
- At most one chain of chunks is documented to go on (campaigns/services.py:255-258).
  That rests on the lock: the last update does not look at the cursor again
  (campaigns/services.py:295). The stored cursor goes back exactly when a chunk finishes
  behind it, which takes a lock that expired under a running chunk
  (`CursorFallsExactly`, `CursorNeverGoesBack`). Run: `CursorCanGoBack`. That everybody
  gets their mail, once, does not depend on the lock at all (`EveryoneIsMailed`), and
  from every such state the queuing can still be finished (`QueuingCanFinish`).
- The promotions list is documented as cached until the next change
  (content/cache.py:78-79). The timeout is whole seconds rounded up past that moment. A
  read is wrong if and only if the list it finds still lives and, since that was built,
  some listed promotion started or stopped, and not both (`ReadIsWrongExactly`); that is
  only ever within a second after such a moment (`ReadIsRight`). Run: `StaleForASecond`.
- A change of cached data is documented to show at once (core/caching.py:3-4). At rest a
  cached value is the latest if and only if no reader built before a commit and stored
  after that commit's second delete (`CachedAtRest`). The steps that leave a stale value
  with nothing to clear it are exactly a store of what was built before a commit that no
  writer will still clear, and the death of the last writer that would clear it
  (`CleanExactly`, `CacheStaysClean`). Run: `StraddlingReader`; such an entry lives for
  its timeout and no longer (`GoneByItsTimeout`).
- A second invitation to an address with one waiting is refused
  (accounts/guardian_invitations.py:159-160). Two wait at once if and only if an
  invitation is sent again while another waits (`OneEachExactly`, `OneEachAlways`). Run:
  `TwoCanWait`. That nobody becomes a guardian twice follows from the check at acceptance.
- A child is documented to keep at least one parent or legal guardian whoever is removed
  (accounts/guardian_invitations.py:269-272). A removal locks the link it removes and no
  other (accounts/guardian_invitations.py:295), so two removals at the same moment can
  each count the other's guardian. The child is left without one exactly when the removal
  of the last one commits (`LeftWithoutExactly`), which takes a check that passed for the
  last one whose own removal was not under way: there always is such a guardian if and
  only if no check does (`SafeExactly`, `RemovalsAreSafe`). Removals that do not overlap
  keep the word always (`NeverWithoutGuardian`). Run: `BothStepDown`.
- A dojo's mailings in thirty days are limited (campaigns/services.py:123-128). The limit
  holds if and only if no cancelled mailing comes to count again where there is no room
  (`LimitExactly`, `LimitHoldsExactly`). Run: `LateMailGoesOver`.
- A cancelled mailing is documented to count when some of its mail went out
  (campaigns/services.py:90-92). The query's two conditions on a mailing's mail
  (campaigns/services.py:95-97) need not hold of the same mail, by Django's rule for
  `exclude` over several rows: it also counts one of which only a test mail is out
  (`CountsExactly`). Run: `LateMailGoesOver` with a test mail.

A promise that is kept, and one that nobody makes: some account always holds the admin
role (accounts/organisation_people.py:6, `AlwaysAnAdmin`). That an *active* account does
is what `set_roles` checks for (accounts/organisation_people.py:107-112); an account can
be switched off on the Django admin's user page (accounts/admin.py:93), which knows
nothing of roles, and that is the only way to be left without one
(`ActiveAdminExactly`, `AlwaysAnActiveAdmin`, `LastAdminSwitchedOff`).

## Model

| member | source | states |
|---|---|---|
| Audience.InOrder | campaigns/services.py:270-272 | accounts come in ascending id order, each of them and nobody else |
| Audience.Slice | campaigns/services.py:270-272 | a chunk takes at most `size` accounts, ascending, all after the cursor |
| Audience.SliceIsComplete | campaigns/services.py:293-294 | a chunk leaves out nobody up to where it stops, and nobody at all when it is short |
| Audience.SliceThenRest | campaigns/services.py:270-302 | what follows a cursor is its slice followed by what follows the slice's end |
| CampaignMail.SendToSpec | mailing/services.py:129-171 | a send under a key adds one waiting (or suppressed) row for an account without one, moves no earlier row, and a second send changes nothing |
| CampaignMail.PassSpec | campaigns/services.py:278-292 | after a pass exactly the listed accounts have been added, no key is doubled, and a second pass changes nothing |
| CampaignMail.PassCount | campaigns/services.py:277-292 | a pass adds one row for each listed account without one |
| CampaignMail.WithdrawKeepsRecipients | campaigns/services.py:229-234 | withdrawing suppresses exactly the waiting rows and keeps every used key |
| CampaignMail.WithdrawMidway | campaigns/services.py:295-301 | wherever a cancel lands in a pass, the withdrawal after it leaves the whole pass withdrawn |
| CampaignQueue.ChunkThenRest | campaigns/services.py:247-304 | a chunk followed by one pass over the rest gives the same campaign as one pass, and the last chunk is that pass |
| CampaignQueue.ChunkSpec | campaigns/services.py:263-302 | a chunk counts the rows it added and gives everyone of its slice a mail, exactly if it takes; otherwise only the status is flipped |
| CampaignQueue.CutShortSpec | campaigns/services.py:295-301 | a chunk during which the campaign is cancelled leaves no mail waiting and the cursor where it was, and there is no next one |
| CampaignQueue.ChunkMakesProgress | campaigns/services.py:293-302 | a full chunk moves the cursor past somebody, so the chain ends |
| CampaignQueue.ZeroSizeNeverEnds | campaigns/services.py:293-302 | with a chunk size of zero the chain hands on the same cursor for ever |
| CampaignQueue.OneShotFromCovered | campaigns/services.py:307-317 | from any covered cursor and any used keys the outcome is one pass over the whole audience, with one new mail for each account that had none |
| CampaignQueue.LaunchableExactly | campaigns/services.py:101-178 | what may be launched, check by check: a campaign of the organisation, and a dojo's mailing |
| CampaignQueue.TooManyIsTheLimit | campaigns/services.py:123-128 | the limit among the checks is the one DojoLimit is about |
| CampaignQueue.Campaign.LaunchProblems | campaigns/services.py:101-178 | lists a problem exactly when it stands in the way, for a campaign and for a dojo's mailing |
| CampaignQueue.Campaign.Launch | campaigns/services.py:203-215 | launches exactly what nothing hinders, with who and when and the frozen definition, and otherwise changes nothing |
| CampaignQueue.Campaign.Cancel | campaigns/services.py:218-234 | refused exactly for ended campaigns; withdraws what waits and leaves every other row as it was |
| CampaignQueue.Campaign.Send | mailing/services.py:129-171 | one row under the account's key, however often it is called |
| CampaignQueue.Campaign.SendMissing | campaigns/services.py:278-292 | the loop that skips the keys in use when the chunk looked equals a pass of sends, and counts the new rows |
| CampaignQueue.Campaign.SendAll | campaigns/services.py:278-292 | the same with a cancel after any number of accounts: once withdrawn it is the whole pass withdrawn |
| CampaignQueue.Campaign.QueueChunk | campaigns/services.py:247-304 | the whole effect of a chunk, its count and its next cursor; cancelled in the middle, the conditional update fails, the cursor stays and all of it is withdrawn; nothing happens while the lock is held |
| CampaignQueue.Campaign.QueueMail | campaigns/services.py:307-317 | terminates for every chunk size from one up, ends as one pass over everybody after the cursor, and returns the number of new mails |
| CampaignQueue.LaunchCampaign | campaigns/tasks.py:10-20 | one chunk, and the next cursor as a task behind what waits |
| CampaignQueue.WorkOff | campaigns/tasks.py:10-20 | any queue of stale or repeated tasks ends, with the one-pass outcome if one of them had the campaign's cursor and with nothing queued otherwise |
| CampaignQueue.DueExactly | campaigns/services.py:333-341 | the three queries find exactly the campaigns to be sent at once, those whose time has come, and those being sent with mail left to queue |
| CampaignQueue.DueFromItsTime | campaigns/services.py:335-336 | a scheduled campaign is not due before its time, is due at it, and stays due while it stands as it does |
| CampaignQueue.FindDue | campaigns/services.py:333-341 | the three queries' lists make one list of exactly the campaigns that are due, in the fields' terms, by query and then by row |
| CampaignQueue.LaunchDue | campaigns/services.py:320-343 | hands over exactly the due campaigns, in the fields' terms, once each, with their cursors and in the order of the three queries; completes exactly those being sent with all queued and no mail of their own waiting or being sent |
| CampaignProtocol.AnythingMayHappen | campaigns/services.py:203-234 | what the runs range over: launches, cancels, crashes, expiries and the mail engine at any moment |
| CampaignProtocol.CoverageStep | campaigns/services.py:247-304 | whatever step comes next: everyone steady up to the cursor has a mail, every running worker's slice is complete, keys stay unique |
| CampaignTheorems.CancellingStep | campaigns/services.py:295-304 | in a cancelled campaign every waiting row belongs to a running chunk or is on record as put back or left by a dead chunk, and the record holds waiting rows only |
| CampaignTheorems.ExclusiveStep | campaigns/services.py:258-266 | while no lock expired under a chunk, one worker is in a chunk, holds the lock, and the campaign stands at its cursor |
| CampaignTheorems.ShutStaysShut | campaigns/services.py:263-266 | from a campaign that is a draft or over, with no chunk past its check, no run without a launch ever gets a chunk past its check: whatever tasks come, nobody new gets a mail and the cursor stays |
| CampaignTheorems.EveryoneIsMailed | campaigns/services.py:247-304 | in every interleaving: everyone who stayed in the audience is mailed up to the cursor, and all of them once queuing is marked done; nobody outside it, nobody twice |
| CampaignTheorems.CursorNeverGoesBack | campaigns/services.py:295-304 | in a run where no lock expires under a chunk the cursor only moves forward |
| CampaignTheorems.CursorFallsExactly | campaigns/services.py:293-297 | a step moves the stored cursor back only after a lock expired under a running chunk, and then if and only if a chunk finishes behind it |
| CampaignTheorems.CompletedCampaign | campaigns/services.py:338-342 | a completed campaign has exactly one mail per account of its audience and none for anyone else; what is open in it is exactly what was put back or added since the job looked |
| CampaignTheorems.DoneExactly | campaigns/services.py:338-342 | once the job saw nothing open, a step opens something if and only if it puts back a mail of the campaign's own or sends one more |
| CampaignTheorems.CompletedStaysDone | campaigns/services.py:338-342 | over every run the same, if and only if; and without such a step a completed campaign has nothing open |
| CampaignTheorems.CancelledCampaign | campaigns/services.py:218-234 | with no chunk running, the waiting mails of a cancelled campaign are exactly those put back since and those left waiting by a chunk that died since |
| CampaignTheorems.SettledExactly | campaigns/services.py:218-234 | from a settled cancelled campaign a step leaves a waiting mail to nobody if and only if it puts back one of no running chunk or kills the only chunk that would withdraw one |
| CampaignTheorems.CancelKeepsItsWord | campaigns/services.py:218-234 | over every run the same, if and only if; and without such a step a cancelled campaign at rest has no waiting mail |
| CampaignTheorems.MailOutStaysOut | campaigns/services.py:219-220 | no step removes or moves a row, and only the mail engine changes one that has left the queue |
| CampaignRuns.ChunkAlone | campaigns/services.py:247-304 | an undisturbed worker of the protocol takes the campaign from one standing to the next as the sequential chunk does |
| CampaignRuns.CheckExactly | campaigns/services.py:264-266 | a worker passes its check exactly in a campaign being sent, not all queued, and at the cursor it was given |
| CampaignRuns.TurnedAway | campaigns/services.py:258-266 | otherwise the lock, the flip and the check are all that happens |
| CampaignRuns.TurnedAwayIsChunk | campaigns/services.py:258-266 | as the sequential chunk says |
| CampaignRuns.ChunksFinish | campaigns/services.py:307-317 | one worker alone, chunk after chunk, ends with the single pass's mails |
| CampaignRuns.QueuingCanFinish | campaigns/services.py:320-336 | from every reachable launched campaign that is not all queued, whatever crashed or holds the lock, some run finishes the queuing with everyone who stayed in the audience mailed |
| CampaignRuns.DeadWorkerLeavesMail | campaigns/services.py:295-301 | a run: a worker dies after the cancel and its mail still waits |
| CampaignRuns.RequeueRevivesMail | mailing/tasks.py:198-207 | a run: a claimed mail returns to the queue of a cancelled campaign |
| CampaignRuns.RetryOpensCompleted | mailing/queue_actions.py:40-53 | a run: a failed mail sent again after completion |
| CampaignRuns.RetryBeforeCompletes | campaigns/services.py:340-342 | a run: a failed mail sent again between the job's check and its update |
| CampaignRuns.CursorCanGoBack | campaigns/services.py:295-304 | a run: the lock expires under a chunk and the stored cursor goes back |
| CampaignRuns.LateRowAfterCompleted | campaigns/services.py:282-292 | a run: a chunk that overran its lock adds a row after completion |
| PromotionCache.ShowingIsShowing | content/models.py:160-173 | the query shows a promotion exactly when it is listed and its own `is_showing` holds |
| PromotionCache.ShowingInOrder | content/models.py:160-173 | the list keeps the order of the rows and has each row that shows once |
| PromotionCache.NextChangeSpec | content/cache.py:65-74 | the next change is the least moment still to come of an unfinished event, and none when there is none |
| PromotionCache.NextChangeUnique | content/cache.py:65-74 | there is only one such answer |
| PromotionCache.ConstantUntilChange | content/cache.py:65-74 | what a placement shows is the same list up to its next change |
| PromotionCache.ShowsTheSame | content/models.py:160-173 | a placement shows the same at two moments if and only if no row of it started or stopped, and not both, in between |
| PromotionCache.SecondsSpec | content/cache.py:86-88 | kept for one second to five minutes, never past a second after the change, and past the change exactly when it is under five minutes away |
| PromotionCache.ReadIsRight | content/cache.py:77-94 | over every run a read is what shows now, except within a second after a start, an end or an event's end |
| PromotionCache.ReadIsWrongExactly | content/cache.py:77-94 | over every run a read is wrong if and only if it finds a living list and some listed promotion started or stopped, and not both, since that was built |
| PromotionCache.ChangeShows | content/cache.py:77-94 | a change of the rows shows at the next read, and without one a read is what was built until the timeout |
| PromotionCache.StaleForASecond | content/cache.py:77-94 | that second is real |
| PromotionCache.FindNextChange | content/cache.py:65-74 | the loop over the rows and the choice of the least moment compute the next change |
| PromotionCache.SiteCache.PromotionsShowing | content/cache.py:77-94 | the cached list while it lives, else the query's list, stored until its timeout |
| SharedCache.HonestStep | core/caching.py:29-39 | every held or cached value is what its own commit left |
| SharedCache.TidyStep | core/caching.py:42-47 | every commit is cleared, about to be, or lost its writer; a cached value is younger than every clearing |
| SharedCache.ReadsAndDeletes | core/caching.py:29-47 | a living value ends a read, anything else makes it build; both deletes leave nothing cached |
| SharedCache.CachedAtRest | core/caching.py:29-60 | at rest a cached value is from the latest commit if and only if its reader straddled no commit |
| SharedCache.ClearedIsSeen | core/caching.py:42-47 | after a commit's second delete no older value is cached, unless its reader straddled that commit |
| SharedCache.CleanExactly | core/caching.py:29-47 | from a clean cache a step leaves a stale value that nothing will clear if and only if it stores one built before a commit nobody will still clear, or the last writer dies that would clear it |
| SharedCache.CacheStaysClean | core/caching.py:29-47 | over every run the same, if and only if; and then a value at rest is the latest |
| SharedCache.GoneByItsTimeout | core/caching.py:37-39 | whatever happens after a value is stored, what is alive when its timeout is over was stored later |
| SharedCache.StraddlingReader | core/caching.py:29-47 | a run that leaves old rows cached with nothing to clear them |
| SharedCache.Cache.Cached | core/caching.py:29-39 | a hit returns the stored value and changes nothing, a miss stores what was built |
| SharedCache.Cache.Clear | core/caching.py:42-47 | the keys are gone now and noted for the commit |
| SharedCache.Cache.Commit | core/caching.py:47-47 | whatever was stored meanwhile, the noted keys are gone and no others |
| Organisation.OneOpen | accounts/models.py:417-421 | one account has at most one open grant |
| Organisation.RequestExactly | accounts/admin_access.py:73-81 | access is given exactly to an adult with a role and a reason who has none open |
| Organisation.RequestSpec | accounts/admin_access.py:73-88 | after a request the account has one more grant, open for twelve hours from now, is staff and keeps its roles; no interval overlaps; nobody else changes |
| Organisation.EndExactly | accounts/admin_access.py:109-112 | a person can end exactly access that runs; the job anything overdue |
| Organisation.EndSpec | accounts/admin_access.py:109-118 | that grant alone ended, now, with who and why; nothing of the account is open, and it is staff exactly if it is a superuser |
| Organisation.EndForSpec | accounts/admin_access.py:121-126 | closing the first open grant, now and with the reason, ends all access of the account |
| Organisation.CloseExpiredSpec | accounts/admin_access.py:129-140 | after the job a non-superuser is staff exactly with an open grant; exactly the overdue grants are closed, at their expiry; nobody's access changes |
| Organisation.StaffAfterClosing | accounts/admin_access.py:129-140 | the job changes nothing about an account but its staff flag, and that exactly for holders of overdue grants and for staff who are no superusers |
| Organisation.SyncAccessSpec | accounts/organisation.py:211-228 | the role signal puts groups, access and staff flag right from any flags, and ends access exactly without roles |
| Organisation.RolesSetSpec | accounts/organisation_people.py:97-119 | exactly the wanted roles and groups; access ends exactly when no role is wanted; nobody else changes |
| Organisation.SetRolesExactly | accounts/organisation_people.py:90-112 | roles can be changed exactly by somebody else, of an active adult, with another active admin left if the admin role goes |
| Organisation.RolesAreGiven | accounts/organisation_people.py:90-114 | over every run a role an account came to hold was given to it by somebody else, or came with an invitation it accepted |
| Organisation.AdminRemains | accounts/organisation_people.py:107-112 | an organisation with an active admin keeps one |
| Organisation.AlwaysAnAdmin | accounts/organisation_people.py:6-6 | over every run some account holds the admin role |
| Organisation.ActiveAdminExactly | accounts/admin.py:93-93 | a step leaves the organisation without an active admin if and only if it switches off the last one's account |
| Organisation.AlwaysAnActiveAdmin | accounts/organisation_people.py:107-112 | over every run the same, if and only if |
| Organisation.LastAdminSwitchedOff | accounts/admin.py:93-93 | an input: the role is still held, by nobody who can log in |
| Organisation.LastAdminExactly | accounts/organisation_people.py:107-112 | the refusal comes exactly when no active admin would be left |
| Organisation.Always | accounts/admin_access.py:73-140 | the invariant holds over every run of asking, ending, role changes, the job, time and account changes |
| Organisation.AccessIsBoxed | accounts/admin_access.py:73-140 | access intervals are disjoint and at most twelve hours, at most one is open, and its holder has a role and is staff |
| Organisation.AccessComesAndGoes | accounts/admin_access.py:73-140 | a run: a role, twelve hours of access, and no staff status after the job |
| OrganisationStore.Store.SyncStaff | accounts/admin_access.py:60-65 | the conditional save makes the flag equal to superuser or open grant |
| OrganisationStore.Store.RequestAccess | accounts/admin_access.py:73-88 | each refusal with its reason and no change, or the new grant with the flag right |
| OrganisationStore.Store.End | accounts/admin_access.py:109-118 | closed at the earlier of now and its expiry, or refused without change |
| OrganisationStore.Store.EndFor | accounts/admin_access.py:121-126 | ends the open grant it finds, or nothing |
| OrganisationStore.Store.SyncAccess | accounts/organisation.py:211-228 | groups, then access, then staff flag, as one step on values |
| OrganisationStore.Store.AddRole | accounts/organisation.py:266-273 | a created role row with the sync it triggers |
| OrganisationStore.Store.RemoveRole | accounts/organisation.py:266-273 | a deleted role row with the sync it triggers |
| OrganisationStore.Store.AddRoles | accounts/organisation_people.py:113-114 | adding rows one by one, with a sync after each, equals one change |
| OrganisationStore.Store.RemoveRoles | accounts/organisation_people.py:115-116 | removing rows one by one equals one change; only the last role ends access |
| OrganisationStore.Store.SetRoles | accounts/organisation_people.py:97-119 | each refusal, unknown names included, without change; otherwise additions then removals equal giving exactly the wanted roles at once, and what was added and removed is returned |
| OrganisationStore.Store.AcceptRoles | accounts/invitations.py:171-174 | accepting adds the invitation's roles to those held |
| OrganisationStore.RemovingFirstEndsAccess | accounts/organisation_people.py:113-116 | the order of the loops matters: removing first would end the access of someone who only changes roles |
| OrganisationStore.CloseExpired | accounts/admin_access.py:129-140 | the two loops equal the job on values, and it returns how many grants were overdue |
| OrganisationStore.SyncEveryStaff | accounts/admin_access.py:138-139 | every staff account that is no superuser gets the flag it should have, nobody else changes |
| Guardians.AcceptKeeps | accounts/guardian_invitations.py:240-266 | an acceptance keeps a responsible guardian, unique links and fresh numbers and tokens |
| Guardians.RemovalExactly | accounts/guardian_invitations.py:269-300 | removing succeeds exactly for the holder or a responsible guardian, when a responsible guardian is left |
| GuardianRemovals.AloneIsAtomic | accounts/guardian_invitations.py:291-302 | a removal that nothing overlaps is the atomic one |
| GuardianRemovals.UndoneIsNothing | accounts/guardian_invitations.py:291-302 | a removal that is rolled back leaves nothing behind |
| GuardianRemovals.SafeExactly | accounts/guardian_invitations.py:269-302 | a move of overlapping removals leaves no parent or legal guardian who stays if and only if a check passes for the last of them |
| GuardianRemovals.LeftWithoutExactly | accounts/guardian_invitations.py:291-302 | a move leaves the child without a parent or legal guardian if and only if the removal of the last one commits, and never while one stays |
| GuardianRemovals.RemovalsAreSafe | accounts/guardian_invitations.py:269-302 | over every run the same, if and only if; and then the child always keeps one |
| GuardianRemovals.BothStepDown | accounts/guardian_invitations.py:269-302 | a run: two parents step down at the same moment and the child is left with nobody |
| Guardians.NeverWithoutGuardian | accounts/guardian_invitations.py:140-327 | over every run the child keeps a parent or legal guardian and never has two links to one adult |
| Guardians.LinksNeverChange | accounts/guardian_invitations.py:240-302 | a link is never altered, and its number never used again |
| Guardians.WasInvited | accounts/guardian_invitations.py:140-184 | every invitation there is was sent at some step, with its address, relation and sender, and the sender was a parent or legal guardian at that step |
| Guardians.BirthIsSponsored | accounts/guardian_invitations.py:212-266 | a link is made by accepting a pending invitation, by an active adult with its address, while its sender holds a responsible link |
| Guardians.EveryLinkIsSponsored | accounts/guardian_invitations.py:140-266 | every link a run makes traces back through such steps to a parent or legal guardian of the initial state: at each, the sender was responsible in the state of the invitation and, through the next link of the chain, in the state of the acceptance |
| Guardians.AcceptedStays | accounts/guardian_invitations.py:245-258 | as long as its row is kept, an accepted invitation says who accepted it and when |
| Guardians.AcceptedOnce | accounts/guardian_invitations.py:245-249 | no invitation makes two links |
| Guardians.OnlyByInvitation | accounts/guardian_invitations.py:240-266 | a run creates links only by accepted invitations |
| Guardians.InviteExactly | accounts/guardian_invitations.py:140-184 | who can invite whom when, and the invitation that makes: it waits for exactly fourteen days |
| Guardians.ResendExactly | accounts/guardian_invitations.py:187-198 | who can send what again when, and that it waits for exactly fourteen days from then |
| Guardians.WithdrawExactly | accounts/guardian_invitations.py:201-209 | a withdrawal succeeds exactly for a parent or legal guardian and an invitation that waits |
| Guardians.WithdrawnForGood | accounts/guardian_invitations.py:201-209 | from a withdrawal on, over every run, the invitation never waits again, nobody can accept it or send it again, and no link comes from it |
| Guardians.AcceptExactly | accounts/guardian_invitations.py:212-249 | exactly who can accept what when, and when the answer is that the invitation is not valid any more |
| Guardians.RemovedForGood | accounts/guardian_invitations.py:291-302 | a removed link never comes back |
| Guardians.RemoveOldExactly | accounts/guardian_invitations.py:318-327 | the retention job deletes exactly what was accepted, withdrawn or over more than thirty days ago |
| Guardians.FoundExactly | accounts/guardian_invitations.py:154-154 | looking an account up by its address gives one that has it, or nobody has it |
| Guardians.OneAcceptance | accounts/guardian_invitations.py:222-249 | who just accepted can accept no other invitation for the child |
| Guardians.PendingIsKept | accounts/guardian_invitations.py:318-327 | the retention job keeps every invitation that can still be accepted |
| Guardians.TwoCanWait | accounts/guardian_invitations.py:187-198 | a run: two invitations for one address wait at once |
| Guardians.OneEachExactly | accounts/guardian_invitations.py:187-198 | from a state with one waiting invitation per address, a step makes two if and only if it sends one again while another waits |
| Guardians.OneEachAlways | accounts/guardian_invitations.py:140-198 | over every run the same, if and only if |
| Guardians.OldLinkIsDead | accounts/guardian_invitations.py:187-198 | once an invitation was sent again its old link opens nothing, ever |
| GuardianStore.Child.FindResponsible | accounts/guardian_invitations.py:84-90 | finds a responsible link exactly when there is one |
| GuardianStore.Child.Find | accounts/guardian_invitations.py:69-73 | finds the invitation behind a link, which is the only one |
| GuardianStore.Child.RemoveOld | accounts/guardian_invitations.py:318-327 | deletes exactly the invitations that ended before the cutoff and counts them |
| SignIn.StrongestNow | accounts/sign_in.py:136-143 | the first pass finds the strongest level in force for held roles, with exactly its roles in row order and the day of the first |
| SignIn.StrongestLater | accounts/sign_in.py:144-153 | the second pass finds the strongest stronger level to come, with exactly its roles and its earliest day |
| SignIn.RequirementsFor | accounts/sign_in.py:124-154 | both answers together |
| SignIn.EnforcedMeans | accounts/sign_in.py:136-143 | in the rows' terms: no held role's row in force asks for more, and the roles are exactly those that ask for as much |
| SignIn.UpcomingMeans | accounts/sign_in.py:144-153 | in the rows' terms: it is more than what is enforced, no later row of a held role asks for more still, and its day is the first of those that ask for as much |
| SignIn.RolesOf | accounts/sign_in.py:67-97 | exactly the held roles among those asked about |
| SignIn.HoldsExactly | accounts/sign_in.py:72-96 | only a logged-in adult holds a policy role; which ones, by what the site knows of the account |
| SignIn.OnlyPolicyRolesMatter | accounts/sign_in.py:134-137 | looking up only the roles that have a row gives the same answer |
| SignIn.EnforcedInAnyOrder | accounts/sign_in.py:124-143 | the order of the rows changes neither the enforced level nor its roles |
| SignIn.UpcomingInAnyOrder | accounts/sign_in.py:144-154 | nor the upcoming level, its day or its roles |
| SignIn.NeverWeaker | accounts/sign_in.py:124-143 | as days go by the enforced level never drops |
| SignIn.AnnouncementComesTrue | accounts/sign_in.py:124-154 | the upcoming level is enforced from its day on and not a day earlier, with nothing left upcoming |
| SignIn.StatusExactly | accounts/sign_in.py:157-167 | OK exactly for a password, or a verified session of an account that has what the level asks; to be set up exactly without that; to be verified otherwise |
| SignIn.StrongerMeetsWeaker | accounts/sign_in.py:157-167 | an account that meets a level meets every weaker one |
| TwoStep.AddKeeps | accounts/two_step.py:108-141 | adding keeps one default device, at most one app, and codes only beside a device |
| TwoStep.RemoveKeeps | accounts/two_step.py:165-178 | so does removing: the oldest device left takes over the default name, and the last one takes the codes with it |
| TwoStep.SessionExactly | accounts/sign_in.py:162-167 | a session meets a level above a password exactly if it is verified and one of the devices is enough |
| TwoStep.BlocksExactly | accounts/two_step.py:144-162 | a removal is refused exactly when a verified session would fall below the requirement |
| TwoStep.TurnOffBlocksExactly | accounts/two_step.py:144-191 | turning everything off is refused exactly when something is required |
| TwoStep.RemovingExactly | accounts/two_step.py:144-171 | a device goes exactly if nothing is required or another one will do |
| TwoStep.StepsExactly | accounts/two_step.py:120-191 | the organisation can always turn everything off, the person exactly while nothing is required; one app at a time, any number of passkeys |
| TwoStep.CodesExactly | accounts/two_step.py:89-97 | new codes are ten, using one leaves one fewer, and they go with everything else |
| TwoStep.OldestIsFirst | accounts/two_step.py:64-67 | no device was there before the one that takes over the default name |
| TwoStep.TwoStepLogin | accounts/two_step.py:100-203 | over every run those invariants hold, after a person's own removal a verified session's status is OK, and an unverified session never meets a level above a password |
| TwoStep.FromAppToPasskey | accounts/two_step.py:120-182 | a run: an app, then a passkey, then without the app, and every level is met |
| TwoStep.Account.RequirementBlocks | accounts/two_step.py:144-162 | whether none of the methods left would do |
| TwoStep.Account.RenameOldest | accounts/two_step.py:100-105 | the oldest method gets the default name exactly when none has it |
| BackgroundChecks.ChecksStep | applications/services.py:56-139 | every call keeps the document, the count and the history in step with the status |
| BackgroundChecks.ApplicationsStep | applications/services.py:145-211 | every call keeps one open application per kind and approvals vouched for |
| BackgroundChecks.NothingLost | applications/services.py:56-139 | over every run: a document is kept exactly while it waits, submissions equal decisions plus the one waiting, and the check is valid if and only if the latest decision accepted it less than 365 days ago |
| BackgroundChecks.OneOpenApplication | applications/services.py:145-211 | over every run: one open application per kind, and every approval came from somebody else while a check was valid |
| BackgroundChecks.ApprovedIsVouchedFor | applications/services.py:217-223 | an approved mentor or champion has a check somebody else accepted less than 365 days ago, and an approval somebody else gave while a check was valid |
| BackgroundChecks.RenewalIsPossible | accounts/models.py:182-188 | from any state without a valid check a request, a document and a review lead to one |
| BackgroundChecks.AskingExactly | applications/services.py:56-82 | exactly when a check is asked for and a document is taken in, and what that changes |
| BackgroundChecks.DecidingExactly | applications/services.py:85-138 | exactly who decides on what, the row that stays, and that an accepted check runs for 365 days |
| BackgroundChecks.ApplyingExactly | applications/services.py:145-151 | exactly who can apply for what |
| BackgroundChecks.ApprovingExactly | applications/services.py:165-210 | exactly who decides on an application, and that approving takes a check that runs |
| BackgroundChecks.LoopRuns | applications/services.py:56-139 | a run of the whole loop: accepted, over after a year, refused, and accepted again |
| BackgroundChecks.Account.SubmitApplication | applications/services.py:145-151 | refused for a child or while one of the kind is open |
| Journeys.RunCoolsDownExactly | campaigns/journeys.py:66-81 | one run keeps deliveries to one account more than the cool-down apart if and only if everyone is still due when their delivery is written |
| Journeys.CoolDownExactly | campaigns/journeys.py:38-81 | over any runs, audiences and changed cool-downs the same, if and only if |
| Journeys.CoolDownHolds | campaigns/journeys.py:38-81 | so with runs that are not ahead of the clock the cool-down always holds, and no delivery is lost |
| Journeys.AheadOfTheClock | campaigns/journeys.py:66-81 | a run counted from a time ahead of the clock breaks that |
| Journeys.Journey.RunOne | campaigns/journeys.py:66-81 | delivers to exactly the accounts due at the start, in id order, once each, and returns how many |
| DojoLimit.LaunchFits | campaigns/services.py:123-128 | a launch to families keeps every thirty-day window that holds the present within the limit |
| DojoLimit.LimitHolds | campaigns/services.py:89-128 | over every run and every thirty days, what counts and never was out of the count is within the limit |
| DojoLimit.LimitExactly | campaigns/services.py:89-128 | from a state within the limit a step goes over it if and only if a cancelled mailing comes to count again in a full window |
| DojoLimit.LimitHoldsExactly | campaigns/services.py:89-128 | over every run the same, if and only if |
| DojoLimit.CountsExactly | campaigns/services.py:89-98 | the query counts what is documented and, besides, cancelled mailings of which only a test mail is out |
| DojoLimit.LateMailGoesOver | campaigns/services.py:94-97 | runs that end one over the limit, by a mail of the mailing's own or by a test mail |
| Usernames.DecimalIsInjective | accounts/provisioning.py:11-11 | two numbers never read the same |
| Usernames.DecimalReads | accounts/provisioning.py:11-11 | the number in a name reads as that number, in digits, without leading zeros |
| Usernames.CandidatesDiffer | accounts/provisioning.py:6-11 | the names tried are all different |
| Usernames.UniqueUsername | accounts/provisioning.py:4-12 | ends whatever is taken, with the first free name of the sequence |

The methods of `GuardianStore.Child`, `TwoStep.Account` and `BackgroundChecks.Account`
that have no row of their own have no loop to prove: each ends in what the function of
that operation says, refusal by refusal, and the rows above are about those functions.

## Assumptions

- Times are integers on a clock that only moves forward, and one operation happens
  at one instant of it (in the campaign protocol and the shared cache, one step).
- Each query and each update of the database, and each cache command, is atomic. A
  launch and an acceptance are atomic as a whole. So is a guardian's removal in
  `Guardians`; in `GuardianRemovals` its check and its commit are two steps.
- The campaign protocol lets a launch, a cancel, a task and the mail engine act at
  any moment and on stale knowledge. The audience may change after the launch,
  because mail choices are read live (campaigns/services.py:195-200); the theorems
  speak of the accounts that stayed in it, and of those that ever were in it.
- Roles, staff flags and guardianships are not edited by hand in the Django admin.
  Accounts with a role are not deleted, as privacy/deletion.py:73-74 makes sure.
- The sign-in policy leaves out rows that ask for a password only, as its query does
  (accounts/sign_in.py:111).
- `Organisation.FirstOpen` takes the earliest open grant, the query takes the latest
  (accounts/models.py:471); `OneOpen` shows that there is no difference.

## Left out

- CampaignQueue.Campaign.QueueChunk: does not model other steps in the middle of a chunk than a cancel, which `CampaignProtocol` does, nor the time before which a scheduled campaign's mail is held back.
- CampaignQueue.Campaign.LaunchProblems: takes what its queries find (somebody matches, a template exists, the dojo's launches so far) as facts, and does not model the texts of the problems nor the order within the list.
- CampaignQueue.LaunchDue: takes the rows within one query in the order of the table, which the queries leave open.
- CampaignTheorems.CompletedCampaign: speaks of mail rows that exist; a mail row is never deleted, although erasing an account's data can empty one.
- SharedCache.CachedAtRest: does not model writes that skip the save signal (bulk updates), for which the timeout is the only net.
- PromotionCache.ReadIsRight: treats a read as atomic; interleaved readers are in `SharedCache`.
- Organisation.RolesSetSpec: models the three role groups only, not the permissions inside a group or groups given by hand.
- OrganisationStore.Store.AcceptRoles: models what an accepted invitation does to the roles; inviting, sending again, withdrawing and cleaning up organisation invitations only repeat the guardian machine with fewer rules.
- Guardians.NeverWithoutGuardian: does not model the deletion of an account with everything that hangs on it, which the code offers as the way out for a last guardian.
- GuardianStore.Child.Invite: does not model stripping and case folding of addresses, the shape of an address, the hash of a token, consent fields or mails.
- SignIn.RequirementsFor: does not model the cache around the policy rows, sessions or requests.
- TwoStep.TwoStepLogin: counts backup codes and does not model the codes themselves; new ones are made only for an account that is on, as accounts/security_views.py:181 makes sure.
- BackgroundChecks.Account.DecideOnApplication: takes whether the dojo's team accepts a request as a fact, and does not model the membership row it makes.
- Journeys.CoolDownHolds: does not model two runs of one journey at once, nor the idempotency key of the day.
- DojoLimit.LimitHoldsExactly: treats the check and the save of a launch as one step.
- Mail rendering, SMTP, bounces, individual send times, notifications, the audit log and privacy registers are not modelled.
- The segment language and dojo audience definitions are not modelled: an audience is a finite set of account ids.
- Views, forms, the API, waiting lists, attendance, belts, avatars, email change and home dojo are not modelled.
