# Hive: verified models of its release, development-server and session protocols

Dafny models of five parts of Hive's Go code, with proofs of the properties those parts exist to keep. The models are
values, state machines and classes that follow the Go functions branch by branch. `dafny verify dfyconfig.toml` checks
everything.

**Releases** (`cmd/release`). `Versions` and `NextVersions` parse, print, order and choose versions. `Release` says,
as a function of the bucket a run finds, which PUTs the run makes and how it ends; `Publishers` holds the imperative
code that makes those PUTs one at a time and may die between any two of them. The other `Release…` modules quantify over
all histories of fresh runs, forced runs, resumes and deaths: pointers are always backed by stored files
(`ReleaseSafety`, `ReleaseRuns`), an interrupted publish followed by resumes is the uninterrupted publish
(`ReleaseResume`), channels only rise and the promotion cascade is in order (`ReleaseCascade`), and a completed run
passes the live check (`ReleaseLive`). `ReleaseMeaning` says file by file what a completed run has published, and when a
run completes.

**Development server** (`cmd/devserver`). `CacheKeys` and `Cache` are the identity and the storage of cached
responses. `Proxy` interleaves requests with their own conditional headers, coalesced fetches, purges and a clock over one
cache, in the terms of RFC 9110 (sections 8.8.2, 8.8.3 and 13.2.2), and bounds how stale a hit can be; `ProxyCount` adds up
its counters, `ProxyMeaning` follows requests from arrival to answer, and `ProxyServer` is its code for one request at a
time, over the cache and journal classes. `Overlay` and `Stores` are the overlay algebra, the three response shapes
rewritten from one overlay, and the bounded list of observed items; `OverlayMeaning` is what a client then sees.

**Traversals** (`cmd/devtools`, `cmd/vendorhive`). `Descendants` and `Vendor` are loops over graphs that may be cyclic,
proved to compute exactly the set they should, and when they end. `CopyRun` is the symlink-materialising copy on one file
system (`FileSystem`) that it reads and writes at once; `CopyTree` is the tree it should make, `CopyGuarded` proves that it
makes it, `CopyMeaning` that the copy reads like its source, and `CopyRunaway` says when it never ends.

**Worktree state** (`cmd/devtools`). `Lock` interleaves processes over one lock directory, and `LockRuns` says what each
way through acquire and release comes to. `Dotenv` and `LaunchEnv` are the quoting, the file format and the reuse test of
`launch.env`; `LaunchMeaning` says which files parse, to what, and which are reused.

**Agent sessions** (`internal/app`). `Sessions` gives each call of the service as a function of the state and of an
oracle of faults (failing effects, unanswered probes, sessions ending, death at any step); `SessionEffects` states what
each call leaves behind, and `SessionService` is the class whose methods do exactly that.

## What the proofs found

Some promises hold only under a condition. In each case the code is modelled as it is, and a theorem or a
concrete run shows where the promise fails and exactly when it holds.

- *Cascade order.* After a promotion dies between its pointer moves, a lower release on another channel may be
  published before the promotion is resumed; `stable` is then ahead of `beta` (`ReleaseWitness.CascadeCanBreak`,
  and for every such history `ReleaseCascade.AbandonedPromotion`). A completed run ends in order if and only if the
  channels it leaves alone allow it (`CompletedRunOrdered`), and histories that resume an interrupted promotion before
  any other run always do (`TidyHistoriesStayOrdered`).
- *Next version.* Components are 64-bit and wrap. `nextVersion` names the least version above all inputs if and only if
  the component it has to raise is not at its maximum; otherwise the string it prints does not parse.
- *Staleness.* Every hit is at most the TTL plus the upstream timeout old, tagged or not, unless the row was last stamped
  by a 304 that a client's own validator earned for an untagged row (`Proxy.ClientDecides`: the client sent its own entity
  tag, or its own date other than the row's). While clients send no conditional headers the bound has no exception
  (`Proxy.PlainHitsAreBounded`). Where they do, there is none: for every such pair of headers and every age an honest
  origin has a run with an older hit (`ProxyStale.ClientValidatorsHaveNoBound`).
- *Lock.* The stale branch reads, judges and renames in separate steps, and two processes that judge the same stale lock
  can both end up inside (`Lock.CodeAsWrittenFails`). However a run goes on, short of another such rename, the rename of a
  directory that is there does no harm if and only if no live process is writing into it, inside under it or removing it (`Lock.RenameIsSafeExactly`); a
  process that has only begun to leave looks at the pid file again first. A process started under the pid of one that died
  inside takes itself for the owner of the lock left behind, and is turned away (`LockRuns.CrashIsRecoverableExactly`).
- *Process tree.* The queue loop keeps no visited set; it ends if and only if the root is not its own ancestor
  (`Descendants.TerminatesExactly`).
- *Copying the agent workspaces.* The copy makes a directory before it lists the source, so a source that reaches a
  directory above the destination feeds on what it makes: with workspaces in `~/code` and the checkout at `~/code/hive` it
  goes down without end, on a tree with no cycle, link or special file (`CopyRunaway.CheckoutInsideWorkspaces`). From a
  source without dead ends to a place that is not there yet or empty, as both callers have it, the copy ends if and only if
  it reads no directory at or above that place (`CopyRunaway.EndsExactly`). A link to where the copy will put a file is a
  dead end before the copy and none during it (`CopyGuarded.DeadEndComesAlive`). If neither occurs, the copy succeeds
  exactly when the unfolding exists and fits, whatever was at the destination (`CopyGuarded.GuardedCopyIsUnfolding`).
- *Detached launches.* Whether a failed launch leaves neither record nor session depends on its clean-up delete alone,
  except that a failed Touch has no clean-up: the record stays, and the session while it runs (`Sessions.FailedLaunchLeavesNothing`,
  `Sessions.TouchFailureLeavesBoth`). With has-session probes that may go unanswered, a launch leaves a session without a
  record if and only if the poll that ended its wait went unanswered, the session outlived it and the clean-up, and the
  clean-up worked (`Sessions.LaunchKeepsExactly`).
- *launch.env.* The round trip holds if and only if every rendered line is at most 65535 bytes long.

## Assumptions

- A run of `release publish` dies after any number of PUTs (the budget of `Publishers.Remote`); a PUT that took effect
  but reported failure is the next larger budget. Runs are serialised, and pointers are read from the bucket they are
  written to.
- The digest and the URL test are arbitrary functions; nothing about them is assumed in the release proofs.
  `CacheKeys.CacheIdentity` assumes of the token hash only that it tells two given accounts apart.
- The origin behind the proxy depends on request and time. Its validators are honest: an entity tag that still matches,
  or a modification date that has not moved on, means the same body. It answers 304 only where a header it was sent matches.
- Sessions: calls are serialised, and records and tmux sessions are named by numbers used once. Has-session answers
  truthfully or, in `LaunchKeepsExactly` and for every call but a detached launch, not at all.
- Of character classes beyond ASCII, letters and digits are not white space. The values of `launch.env` are valid UTF-8.
- The parent of the place a tree is copied to is there, and nothing else changes the file system during the copy.

## Model

| member | source | states |
|---|---|---|
| Versions.ReadGroups | cmd/release/version.go:46-64 | the loop over the numeric groups yields the version they denote, and fails exactly when a part does not fit or a prerelease number is below 1 |
| Versions.MatchSpelled | cmd/release/version.go:11 | every text of the pattern, tagged or not, matches with its own groups |
| Versions.MatchIsSpelled | cmd/release/version.go:11 | nothing else matches |
| Versions.PrintThenParse | cmd/release/version.go:40-73 | a printed version parses back to itself, with any space around it and with or without the tag prefix |
| Versions.ParsedIsWellFormed | cmd/release/version.go:40-65 | whatever parses has representable parts, and a prerelease number of at least 1 unless stable |
| Versions.VersionStringIsInjective | cmd/release/version.go:67-73 | two versions never print alike, so release prefixes never collide |
| Versions.SpellingExamples | cmd/release/version.go:67-73 | 1.4.0, 1.2.3-beta.4 and 0.1.8-dev.25 are spelled so |
| Versions.ParsePublishExactly | cmd/release/version.go:29-38 | the publish parser returns v for exactly those values whose trimmed form is v's own spelling |
| Versions.PromotionOrderIsTotal | cmd/release/version.go:93-125 | the promotion order is a strict total order in which only equal versions tie |
| Versions.BelowExactly | cmd/release/version.go:93-125 | it compares bases from major to patch, then dev below beta below stable, then prerelease numbers |
| Versions.AffectedBy | cmd/release/version.go:82-91 | a release moves exactly the channels no slower than its own, slowest first |
| NextVersions.NextPrereleaseNumber | cmd/release/version.go:176-184 | one more than the largest number of the channel, or 1, in wrapping arithmetic |
| NextVersions.HighestBase | cmd/release/version.go:128-136 | the first loop finds a base that occurs and that none exceeds |
| NextVersions.OnBase | cmd/release/version.go:138-143 | the second loop keeps exactly the versions on that base |
| NextVersions.HasChannel | cmd/release/version.go:145-150 | the third loop's flags say exactly whether a channel occurs there |
| NextVersions.Numbered | cmd/release/version.go:152-173 | the numbering step gives the version that follows the top one |
| NextVersions.FollowIsLeast | cmd/release/version.go:127-174 | the version following the top one is the least of its channel above all inputs, given headroom |
| NextVersions.WrappedDoesNotParse | cmd/release/version.go:152-184 | without headroom a part wraps to a negative number, and the printed version does not parse |
| NextVersions.FollowParses | cmd/release/version.go:127-174 | the result parses if and only if the part to raise can grow, and then it is the least version above all inputs |
| NextVersions.NextVersion | cmd/release/version.go:127-174 | with no inputs 0.1.0 on the channel; otherwise the result parses exactly when there is headroom, and is then the least version of the channel strictly above every input |
| NextVersions.BumpStaysAbove | cmd/release/interactive.go:209-230 | a bump keeps the channel and stays above, and differently named from, everything its candidate was above, unless the bumped part wraps |
| NextVersions.BumpIsLeast | cmd/release/interactive.go:209-230 | a major or minor bump is the least version of its channel with a higher major or minor part, so the parts below are 0 and the number starts over; a patch bump is the candidate |
| ReleaseSafety.KeysAreDistinct | cmd/release/publish.go:750-765 | files of different versions, or of different names, never share an object key |
| ReleaseSafety.NamesAreDistinct | cmd/release/resume.go:61-81 | the five names under one release prefix are distinct |
| ReleaseSafety.PendingIsNew | cmd/release/publish.go:767-789 | only missing objects are uploaded, or any object under --force |
| ReleaseSafety.RestIsStored | cmd/release/publish.go:882-893 | an object not uploaded is, in a resume, already stored with the same digest and size |
| ReleaseSafety.PlatformsAreStored | cmd/release/publish.go:848-869 | a manifest built from stored artifacts names only stored files, with their digests and sizes |
| ReleaseSafety.AdvancingIsUnnamed | cmd/release/manifest.go:181-196 | a version that passes the advancement check is named by no pointer: this is why --force may overwrite |
| ReleaseSafety.PutKeepsSound | cmd/release/publish.go:794-798 | a PUT under a release no pointer names, or of a key not there yet, leaves every pointer backed |
| ReleaseSafety.PlanShape | cmd/release/publish.go:749-843 | every run that writes has passed its checks, decided all uploads, and makes all PUTs of objects before any pointer moves |
| ReleaseSafety.EveryPutKeepsSound | cmd/release/publish.go:749-843 | after any number of a run's PUTs every pointer still names only stored files with its digests and sizes |
| ReleaseRuns.PointersAlwaysBacked | cmd/release/publish.go:749-843 | the same over every history of fresh, forced and resumed runs, each dying after any number of PUTs |
| ReleaseRuns.EqualMeansPublished | cmd/release/resume.go:124-127 | on pointers this tool wrote, comparing equal and being already published agree |
| ReleaseRuns.ResumePasses | cmd/release/resume.go:101-122 | once the resume check passes, every affected pointer is this release with the same metadata, or older, or missing |
| ReleaseRuns.PointersMidRun | cmd/release/publish.go:811-836 | after k PUTs exactly a prefix of the channels to move has moved, to this version, and nothing else changed its pointer |
| ReleaseRuns.EveryMoveRaises | cmd/release/manifest.go:181-196 | every manifest PUT strictly raises its channel or creates it |
| ReleaseRuns.ChannelsNeverGoBack | cmd/release/publish.go:811-836 | over any history no channel disappears or goes back |
| ReleaseCascade.CompletedPointers | cmd/release/publish.go:811-836 | a completed run leaves every affected channel at its version and the others as they were |
| ReleaseCascade.CompletedRunOrdered | cmd/release/version.go:82-125 | a completed run ends with stable <= beta <= dev if and only if the channels it leaves alone allow it |
| ReleaseCascade.OrderedIsRestorable | cmd/release/version.go:82-125 | from an ordered bucket every run that passes its checks completes in order |
| ReleaseCascade.TidyHistoriesStayOrdered | cmd/release/publish.go:811-836 | if interrupted promotions are resumed before any other run, every state with none midway is in order |
| ReleaseCascade.AbandonedPromotion | cmd/release/publish.go:811-836 | otherwise the order breaks: once stable has moved, a lower beta that completes leaves stable ahead of beta |
| ReleaseWitness.CascadeCanBreak | cmd/release/publish.go:811-836 | a concrete history from the empty bucket that does it |
| ReleaseResume.ResumePlan | cmd/release/resume.go:11-41 | a resume after k PUTs of a clean publish is not refused and makes exactly the remaining writes, publication times aside |
| ReleaseResume.ResumesAdvance | cmd/release/resume.go:11-41 | any number of further interrupted resumes each continue where the last one stopped |
| ReleaseResume.CrashThenResumeIsPublish | cmd/release/publish.go:767-842 | a publish that dies anywhere, resumed until done, leaves what the uninterrupted publish leaves, and a further resume writes nothing |
| Publishers.Remote.Put | cmd/release/publish.go:934-940 | a PUT happens whole or not at all |
| Publishers.Publisher.Load | cmd/release/resume.go:43-60 | an artifact is described by its own bytes, and fails exactly when its file is missing or fails verification |
| Publishers.Publisher.CollectArtifacts | cmd/release/resume.go:61-99 | fresh runs and resumes build the same list in the same order, and refuse exactly when one of its files is missing or fails verification |
| Publishers.Publisher.WriteChecksums | cmd/release/publish.go:332-338 | SHA256SUMS holds one line per artifact in list order, and the artifacts stay as they were |
| Publishers.Publisher.ReadManifests | cmd/release/manifest.go:159-179 | the pointers are returned exactly when every one of them is valid |
| Publishers.Publisher.PlatformManifests | cmd/release/publish.go:848-869 | the in-place fill gives the fold's entries, and fails exactly on a missing role or bad metadata |
| Publishers.Publisher.DecideUploads | cmd/release/publish.go:749-789 | every action is decided before the first PUT; the first refused object fails the run |
| Publishers.Publisher.PutAll | cmd/release/publish.go:794-798 | the pending objects are stored in order until one PUT fails |
| Publishers.Publisher.MoveChannels | cmd/release/publish.go:810-836 | the channels not yet published move in cascade order until one PUT fails |
| Publishers.Publisher.UploadRelease | cmd/release/publish.go:749-843 | `upload` makes exactly the PUTs of its plan as far as it lives, and ends as the plan says |
| Publishers.Publisher.Publish | cmd/release/publish.go:94-133 | so does a whole publish: gates, manifests and advancement at startup, then the run |
| Publishers.Publisher.Run | cmd/release/publish.go:232-327 | so does the run itself: artifacts and SHA256SUMS first, then gates, manifests and advancement once more, then the upload |
| Publishers.Publisher.ResumePublish | cmd/release/resume.go:11-41 | so does a resume |
| ReleaseLive.VerifyLive | cmd/release/manifest.go:238-309 | succeeds exactly when every affected channel names the release, all with the same platforms, and every file downloads with its digest and size |
| ReleaseLive.CompletedRunIsLive | cmd/release/manifest.go:238-309 | the live check passes after every completed run |
| ReleaseLive.TagVersions | cmd/release/manifest.go:198-217 | exactly the versions named by non-blank tags, and an error exactly when one does not parse |
| ReleaseLive.ReleaseVersions | cmd/release/manifest.go:219-236 | exactly the versions of all tags and all pointers, and an error exactly when one does not parse |
| ReleaseLive.AboveAllAdvances | cmd/release/manifest.go:181-236 | a version above all of those passes the advancement check and prints like none of them |
| ReleaseLive.ProposeVersion | cmd/release/main.go:287-304 | the version chosen from tags and pointers is on its channel, above everything released, passes the advancement check and is no existing tag; choosing fails exactly when something does not parse or the highest release leaves no room |
| ReleaseLive.FreshSucceedsExactly | cmd/release/publish.go:232-327 | a fresh run succeeds exactly when it is ready, advances every affected pointer and overwrites nothing or is forced |
| ReleaseLive.ResumeSucceedsExactly | cmd/release/resume.go:11-41 | a resume succeeds exactly when it is ready, no affected pointer refuses it, and every stored object is its own |
| ReleaseMeaning.FoldSpelledOut | cmd/release/publish.go:848-869 | the platform entries are exactly three, each naming its own file with that file's URL, digest and size: macOS the zip to update and the disk image to install, each Linux architecture its own tarball and no installer |
| ReleaseMeaning.CompletedPointer | cmd/release/publish.go:811-836 | after a completed run from a sound bucket every affected pointer carries its channel, the version, the changelog entry and those three entries, and a fresh run's time |
| ReleaseMeaning.CompletedObjects | cmd/release/publish.go:749-798 | it has stored the four files and SHA256SUMS under the release's prefix, and changed no other object |
| ReleaseMeaning.SumsSpelledOut | cmd/release/publish.go:332-338 | SHA256SUMS is four lines, zip, disk image, amd64, arm64, each the digest of its local file, two spaces and the file's name |
| ReleaseMeaning.GoodArtifactsExactly | cmd/release/manifest.go:132-157 | the entries are accepted exactly when each file is not empty, its digest 64 hex digits and its URL usable |
| ReleaseMeaning.ReadableExactly | cmd/release/manifest.go:111-179 | the pointers are read exactly when each names its own channel, a version, macOS, and per platform a usable URL, 64 hex digits and a size, for the installer too if there is one |
| ReleaseMeaning.FreshCompletesExactly | cmd/release/publish.go:232-327 | a fresh run completes exactly when gates, changelog entry, pointers and files are in order, every pointer at its channel or a faster one is older, and none of its five objects is stored, or it is forced |
| ReleaseMeaning.ResumeCompletesExactly | cmd/release/resume.go:11-41 | a resume completes exactly when the same are in order, every such pointer is older or already what this run would write, and no stored object differs from its own |
| ReleaseMeaning.RefusedRunIsHarmless | cmd/release/publish.go:749-808 | a refused run moves no pointer and, unless forced, changes no stored object |
| Sorting.AscendingIsUnique | cmd/devserver/cache.go:177-184 | a multiset of strings has one sorted arrangement |
| Sorting.OrderExactly | cmd/devserver/cache.go:177-184 | strings are ordered by their first difference, and a prefix comes first |
| CacheKeys.JoinIsInjective | cmd/devserver/cache.go:177-184 | joining parts that do not contain the separator loses nothing |
| CacheKeys.CanonicalExactly | cmd/devserver/cache.go:177-184 | two queries canonicalise alike exactly when their parts agree with repetition |
| CacheKeys.WriteKey | cmd/devserver/cache.go:162-173 | the digest is fed the four fields, each NUL-terminated, then the body |
| CacheKeys.CacheIdentity | cmd/devserver/cache.go:162-194 | the same in terms of what is hashed: two requests share those bytes exactly when method, path, query parts, hashed identity and body agree |
| CacheKeys.NamesExactly | cmd/devserver/cache.go:187-194 | the account of a token is what is left without the word Bearer in front and the white space around, and nothing else |
| CacheKeys.SharedExactly | cmd/devserver/cache.go:162-194 | two requests whose tokens name accounts a and b share a cache entry exactly when method, path, query parts and body agree and a is b |
| CacheKeys.BearerTokensExactly | cmd/devserver/cache.go:187-194 | two Bearer tokens share an entry of the same request exactly when they are the same token |
| CacheKeys.SpellingsShare | cmd/devserver/cache.go:187-194 | a token, its Bearer form and either with white space around share one entry, and an empty one is anonymous |
| Cache.ResponseCache.Put | cmd/devserver/cache.go:100-118 | replaces one row, its time cut by less than a millisecond; every other row stays as it was |
| Cache.ResponseCache.Touch | cmd/devserver/cache.go:122-128 | no row appears or goes, no status, body or validator changes, and only the key's time moves |
| Cache.Journal.Record | cmd/devserver/proxy.go:88-96 | counters and recent list are always those of the whole log: all answers counted, the newest 50 listed newest first |
| ProxyCount.EveryRequestIsCounted | cmd/devserver/proxy.go:101-158 | over every run the counters add up to the answered requests, each counter the number of answers of its own kind, errors being those not served |
| ProxyServer.Server.Validators | cmd/devserver/proxy.go:178-187 | the headers sent upstream: the row's tag if it has one, else the client's; the row's date only without a tag of its own and a date from the client |
| ProxyServer.Server.Fetch | cmd/devserver/proxy.go:167-226 | a written success becomes the row, with the reply's status, body, tag and date, stamped to the millisecond; a written 304 moves only a row's time; anything else, and any other key, leaves the cache alone; and the result is that of the step that lands a fetch |
| ProxyServer.Server.ServeHTTP | cmd/devserver/proxy.go:101-158 | a hit exactly when a row is younger than the TTL, and then that row without a fetch; otherwise the fetch answers and leaves the cache as it says, or a stored row is served stale, or else it fails; one journal entry each |
| ProxyServer.Server.ServeTwice | cmd/devserver/proxy.go:115-226 | after an answer that reached the cache a second request for the key is a hit with that answer until the TTL runs out, and none after |
| ProxyMeaning.UnmodifiedExactly | cmd/devserver/proxy.go:178-187 | when the origin may answer 304: a sent tag that matches decides, else a sent date the answer is not newer than |
| ProxyMeaning.LandsAsSaid | cmd/devserver/proxy.go:189-226 | result and cache of a fetch that lands, spelled out as for Fetch |
| ProxyMeaning.FreshRowIsHit | cmd/devserver/proxy.go:115-119 | from any state a request for a row younger than the TTL is served it as a hit, and no fetch starts |
| ProxyMeaning.RequestsShareAFetch | cmd/devserver/proxy.go:121-158 | from any state two requests for a missing or expired row run to their end on one fetch: both are served its result, and the cache is left as that fetch says |
| ProxyMeaning.FailedFetchServesStale | cmd/devserver/proxy.go:126-143 | if that fetch fails both are served the stored row as stale, or fail if there is none |
| ProxyMeaning.PurgedIsMiss | cmd/devserver/cache.go:136-141 | after a purge no row is left and the next request is no hit |
| Proxy.StartIsSound | cmd/devserver/proxy.go:69-77 | a proxy with an empty cache and nothing in flight satisfies the invariant every run keeps |
| Proxy.HitIsSound | cmd/devserver/proxy.go:101-158 | a hit on a sound row was current upstream at most TTL + timeout ago, unless a client's own validator stamped it |
| Proxy.RevalidatedIsCurrent | cmd/devserver/proxy.go:173-203 | a 304 to a row's own validator, tag or date, means its body was current when the origin answered |
| Proxy.LandingIsSound | cmd/devserver/proxy.go:167-226 | whatever a fetch returns and writes, revalidated or new, is an answer upstream gave for that request, and current within the timeout unless the client decided |
| Proxy.StepKeepsInv | cmd/devserver/proxy.go:101-226 | every step of every request, fetch, purge or failure keeps all rows, fetches, results and answers genuine |
| Proxy.BoundedStaleness | cmd/devserver/proxy.go:101-226 | over every interleaving: rows are successes upstream gave for their key, and a hit is at most TTL + timeout old unless a 304 to a client's own validator stamped its row |
| Proxy.PlainHitsAreBounded | cmd/devserver/proxy.go:101-226 | while clients send no conditional headers of their own, every hit is bounded |
| ProxyStale.ClientValidatorsHaveNoBound | cmd/devserver/proxy.go:179-203 | wherever a client's own validator decides, for every age an honest origin has a run with an older hit |
| Overlay.MergeIsMonoid | cmd/devserver/config.go:118-152 | merging is associative and idempotent, with the empty overlay as identity |
| Overlay.ApplyNodeField | cmd/devserver/overlay.go:324-347 | each field of an overlaid node is what the overlay sets, otherwise what was there |
| Overlay.ApplyNodeMerges | cmd/devserver/overlay.go:324-347 | applying two overlays in turn is applying their merge |
| Overlay.MergedRendersInOrder | cmd/devserver/config.go:126-152 | one merged overlay renders as all its mutations in order |
| Overlay.RewriteGraphQLTwice | cmd/devserver/overlay.go:220-308 | rewriting a response again changes nothing |
| Overlay.SearchKeepsTheRest | cmd/devserver/overlay.go:244-275 | exactly the nodes not marked absent stay, in order, and one without overlay is unchanged |
| Overlay.AbsentItemIsStillAnswered | cmd/devserver/overlay.go:287-308 | an absent item is dropped from searches and still answered, with its simulated state, in the state lookup |
| Overlay.ApplyNotificationMerges | cmd/devserver/overlay.go:353-408 | the notification shape obeys the same merge law |
| Overlay.RewriteNotificationsTwice | cmd/devserver/overlay.go:353-408 | rewriting an inbox again changes nothing |
| Overlay.LastIndex | cmd/devserver/overlay.go:418-435 | the last position of a character, as item numbers are cut from API URLs |
| OverlayMeaning.NodeIsKeyed | cmd/devserver/overlay.go:311-319 | a node whose repository.nameWithOwner and number name an item is looked up under repo#number |
| OverlayMeaning.ApplyShows | cmd/devserver/overlay.go:324-347 | an overlaid node has the state in capitals, title, body, draft flag, label nodes and time the overlay sets, and keeps those it does not set and its identity |
| OverlayMeaning.ApplyKeepsRest | cmd/devserver/overlay.go:324-347 | it keeps every other field |
| OverlayMeaning.SearchShowsOverlay | cmd/devserver/overlay.go:244-275 | in the rewritten response an overlaid item of a search is shown so, and one marked absent is in no node |
| OverlayMeaning.LookupShowsOverlay | cmd/devserver/overlay.go:287-308 | the state lookup of an overlaid item answers so, absent or not, and the rest of the response stays |
| OverlayMeaning.UrlNumber | cmd/devserver/overlay.go:418-435 | an API URL ending in issues/n or pulls/n names item n, and one with any other collection none |
| OverlayMeaning.InboxShowsOverlay | cmd/devserver/overlay.go:353-408 | the inbox entry of an overlaid item has its reason, unread, its title inside the subject and its time, and keeps the rest |
| OverlayMeaning.LastSettingWins | cmd/devserver/config.go:126-152 | in an accumulated overlay every field has the value it was last set to |
| OverlayMeaning.ScenarioApplies | cmd/devserver/ctrl_scenario.go:123-147 | steps that set something are applied one for one |
| OverlayMeaning.ScenarioSkips | cmd/devserver/ctrl_scenario.go:123-147 | a step that sets nothing is as good as none |
| Stores.OverlayIsMerge | cmd/devserver/overlay.go:59-83 | an item has an overlay exactly if something was applied since its last clear, and it is the merge of all that |
| Stores.RenderedInOrder | cmd/devserver/overlay.go:59-83 | after any calls an item renders as if each mutation since its last clear had been applied in order |
| Stores.Store.Apply | cmd/devserver/overlay.go:59-69 | every field set is overridden and every other kept, a change without a time gets the current one, other items keep their overlays, and the store stays that of its history |
| Stores.Store.Clear | cmd/devserver/overlay.go:72-76 | one item's overlay is gone, the others stay, and its history starts over |
| Stores.Store.ClearAll | cmd/devserver/overlay.go:79-83 | no overlay is left, and every item's history starts over |
| Stores.Store.Candidates | cmd/devserver/overlay.go:143-169 | the eviction candidates are exactly the items without overlay, oldest first, each once |
| Stores.Store.Evict | cmd/devserver/overlay.go:143-169 | only items without overlay go, none seen later than one that stays, no more than needed |
| Stores.Store.Observe | cmd/devserver/overlay.go:112-135 | a sighting adds its item as given after an eviction, or updates what it gives of a listed one, changes no other, and is ignored without repository or number |
| Stores.ProtectedStays | cmd/devserver/overlay.go:112-169 | over any history an item stays listed for as long as it keeps an overlay |
| Stores.ListIsBounded | cmd/devserver/overlay.go:112-169 | after a new sighting the list holds at most 500, or every other item is overlaid |
| Stores.Store.RewriteSearch | cmd/devserver/overlay.go:244-275 | the loop returns the rewritten nodes, lists every item among them as far as the list has room, and drops no overlaid item |
| Stores.Store.RewriteOne | cmd/devserver/overlay.go:229-308 | one top-level value: state lookup first, else search nodes |
| Stores.Store.RewriteBody | cmd/devserver/overlay.go:220-285 | in whatever order the map yields its values, the result is the same rewrite |
| Stores.Store.RewriteInbox | cmd/devserver/overlay.go:353-408 | the loop returns the rewritten inbox and lists its items |
| Stores.Store.RunScenario | cmd/devserver/ctrl_scenario.go:123-147 | the steps that set something are applied, in order |
| Descendants.ByParent | cmd/devtools/devsession.go:283-287 | the index holds each process's children in table order |
| Descendants.Collect | cmd/devtools/devsession.go:282-298 | the loop ends with exactly the processes below the root, each once |
| Descendants.TerminatesExactly | cmd/devtools/devsession.go:282-298 | the queue runs empty if and only if the root is not its own ancestor |
| Descendants.ReachableCycleIsTheRoots | cmd/devtools/devsession.go:282-298 | with unique pids every parent cycle reachable from the root runs through it |
| Vendor.VendorClosure | cmd/vendorhive/main.go:246-275 | ends on any graph; fails exactly when a needed package cannot be copied; otherwise returns the needed packages in order, each copied once |
| Vendor.NeededIsLeastClosed | cmd/vendorhive/main.go:246-275 | that set is the least one holding the seeds and closed under imports |
| CopyTree.FailsExactly | cmd/devtools/instance.go:621-658 | the unfolding is undefined exactly when a directory cycle, a missing target or an unsupported file can be reached |
| CopyTree.CopyIsUnfolding | cmd/devtools/instance.go:621-658 | the same paths exist in the source and in its unfolding, and lead to a copy of the same thing |
| CopyMeaning.CopyReadsLikeSource | cmd/devtools/instance.go:621-683 | after a guarded copy every path of names that leads somewhere in the source, links followed, leads to the same content or to a directory under the destination, and every other path is as it was |
| CopyMeaning.LayoutHolds | cmd/devtools/instance.go:636-656 | a tree laid out at a place holds under each path of names what the names lead to in the tree |
| CopyMeaning.LinksLead | cmd/devtools/instance.go:622-629 | a relative link goes on from where it lies, an absolute one from the root, and after 255 there is no further |
| CopyMeaning.DotsLead | cmd/devtools/instance.go:622-629 | one dot stays, two dots go up |
| CopyMeaning.SelfCopyEmpties | cmd/devtools/instance.go:660-683 | a file copied onto itself is left empty |
| FileSystem.ResolveKeeps | cmd/devtools/instance.go:622-629 | whatever resolved before a copy resolves to the same place during it |
| FileSystem.ResolveIgnores | cmd/devtools/instance.go:622-629 | a path whose resolution never looks at or below the destination resolves, or fails to, as before the copy |
| FileSystem.ReadDir | cmd/devtools/instance.go:643 | a directory lists each name in it once, in order |
| CopyRun.Copier.Copy | cmd/devtools/instance.go:621-658 | to any depth the recursion ends as specified, with the file system specified, or has to go deeper, and always leaves the stack as found |
| CopyRun.RunExtends | cmd/devtools/instance.go:621-683 | a copy adds directories and files at or below its destination and rewrites files there, and changes nothing else |
| CopyGuarded.GuardedCopyIsUnfolding | cmd/devtools/instance.go:621-658 | if nothing it reaches lies at or below the destination, no directory it reads lies above, and no path that fails to resolve looks there, the copy ends, succeeds exactly when the unfolding exists and fits, and lays it out over what was there |
| CopyGuarded.DeadEndComesAlive | cmd/devtools/instance.go:621-658 | a link to a file the copy makes is a dead end beforehand, and yet the copy succeeds |
| CopyRunaway.WalkNeverSucceeds | cmd/devtools/instance.go:636-656 | a copy that reads a directory at or above its destination never succeeds at any depth, whatever else it reads |
| CopyRunaway.NeverFails | cmd/devtools/instance.go:621-658 | from a source without dead ends to a vacant destination no step ever fails, on original directories and on those just made |
| CopyRunaway.CopyRunsAway | cmd/devtools/instance.go:636-656 | so there it passes every depth |
| CopyRunaway.EndsExactly | cmd/devtools/instance.go:621-658 | from a source without dead ends to a vacant destination the copy ends if and only if it reads no directory at or above it, or copies an empty directory onto itself |
| CopyRunaway.CopyIntoItselfRunsAway | cmd/devtools/instance.go:605-616 | among files and directories only, copying a directory to a new place inside it passes every depth |
| CopyRunaway.CheckoutInsideWorkspaces | cmd/devtools/instance.go:190-217 | so does copying ~/code into the checkout at ~/code/hive |
| CopyRun.Copier.CopyEntries | cmd/devtools/instance.go:647-651 | the loop over the names listed ends as specified, after the first entry that fails or after all |
| Lock.StepKeepsOwned | cmd/devtools/lock.go:35-111 | every step but a separate rename keeps: whoever claims the directory made it and holds its files |
| Lock.MutualExclusion | cmd/devtools/lock.go:26-111 | with an atomic stale branch, in every interleaving with deaths and reused pids, at most one process is inside, and release removes only its own directory |
| Lock.GuardedRunsExclude | cmd/devtools/lock.go:46-111 | the same for the separate steps as long as every rename finds no process writing, inside or removing |
| Lock.RenameIsSafeExactly | cmd/devtools/lock.go:46-86 | every further run without another separate rename stays exclusive and removes only its own directories, after a separate rename, if and only if no live process is writing into the directory renamed, inside or removing it |
| Lock.TwoGetInside | cmd/devtools/lock.go:46-86 | from any state in which two processes have judged a lock stale, both can end up inside |
| Lock.CodeAsWrittenFails | cmd/devtools/lock.go:46-86 | a run from a sound state that gets there |
| LockRuns.FreeLockIsTaken | cmd/devtools/lock.go:46-99 | from any state with the path free a process at the start gets inside in three steps, with its own complete directory there |
| LockRuns.ReleaseFreesLock | cmd/devtools/lock.go:101-111 | release removes a directory that names the process, and the path is free |
| LockRuns.ReleaseSparesOthers | cmd/devtools/lock.go:101-111 | it leaves any other directory as it is |
| LockRuns.AbandonedLockIsTakenOver | cmd/devtools/lock.go:52-86 | a complete lock of this worktree whose process is gone is taken over: the contender gets inside under its own directory |
| LockRuns.AbandonedLockIsJudged | cmd/devtools/lock.go:52-80 | so it is with reading and renaming as separate steps, up to the second mkdir |
| LockRuns.OtherLockIsRespected | cmd/devtools/lock.go:52-76 | a lock that is live, incomplete or another worktree's turns the contender away and stays as it is |
| LockRuns.SecondMkdirGivesUp | cmd/devtools/lock.go:83-85 | a process that finds the path taken again after its rename gives up |
| LockRuns.FailedClaimCleansUp | cmd/devtools/lock.go:88-99 | a claim whose write fails clears the path |
| LockRuns.SessionRestoresFreePath | cmd/devtools/lock.go:26-111 | an undisturbed session leaves the path as free as it was |
| LockRuns.CrashIsRecoverableExactly | cmd/devtools/lock.go:69-76 | after a death inside, the next process finds the lock abandoned if and only if it was not given the dead one's pid |
| Dotenv.UnquoteOfQuote | cmd/devtools/dotenv.go:14-25 | unquoting a quoted string gives the string back, whichever characters beyond ASCII are printed as they are |
| Dotenv.QuoteHasNoNewline | cmd/devtools/dotenv.go:14-25 | a quoted value stays on one line |
| LaunchEnv.ParseDotenv | cmd/devtools/dotenv.go:56-81 | the line loop computes the parse of the whole file |
| LaunchEnv.SortedKeys | cmd/devtools/instance.go:710-717 | every key once, in order |
| LaunchEnv.WriteDotenv | cmd/devtools/dotenv.go:14-25 | refused exactly on an invalid key; otherwise a header and one quoted assignment per key in ascending order, which parses back to the map if and only if every line fits the scanner |
| LaunchEnv.RenderThenParse | cmd/devtools/dotenv.go:14-81 | parsing a rendered file gives the map back when every line fits, and fails otherwise |
| LaunchEnv.LaunchKeysAreValid | cmd/devtools/instance.go:32-47 | every key prepare writes is one the file format accepts |
| LaunchEnv.PreparedIsReused | cmd/devtools/instance.go:685-708 | what prepare writes is reusable next time if and only if every line fits |
| LaunchMeaning.ParsesExactly | cmd/devtools/dotenv.go:56-81 | a text parses exactly when every line fits the scanner, none is malformed and no key is assigned twice, to exactly what its lines assign |
| LaunchMeaning.LastLine | cmd/devtools/dotenv.go:58-59 | the last line needs no newline, and an empty text has no line |
| LaunchMeaning.AssignmentLine | cmd/devtools/dotenv.go:60-76 | a line assigns what is right of its first equals sign, unquoted, to a valid key left of it, or is malformed |
| LaunchMeaning.SkippedLine | cmd/devtools/dotenv.go:60-63 | blank lines and comments say nothing, with any space around |
| LaunchMeaning.OtherLine | cmd/devtools/dotenv.go:64-67 | any other line without an equals sign is malformed |
| LaunchMeaning.BackQuoted | cmd/devtools/dotenv.go:71-74 | a back-quoted value is taken as it stands |
| LaunchMeaning.PlainQuoted | cmd/devtools/dotenv.go:18-25 | printable ASCII without quotes and backslashes is quoted as it is |
| LaunchMeaning.ReusedExactly | cmd/devtools/instance.go:685-708 | a file is reused exactly when it parses, assigns each of the fourteen required names and bears this worktree's path |
| LaunchMeaning.WrittenIsReusedExactly | cmd/devtools/instance.go:685-708 | so whatever is written is reused exactly when it fits, has those names and bears the reader's path: not another worktree's, and not with a name missing |
| Sessions.AwaitKeeps | internal/app/agent_workspaces_service.go:1608-1620 | polling changes no record, and reports a session that is still live as gone only after an unanswered probe |
| Sessions.LaunchTerminalKeeps | internal/app/agent_workspaces_service.go:1497-1575 | a launch keeps the invariant and the cap; its record goes exactly if it is detached, fails before its terminal runs, and the delete works |
| Sessions.LaunchTerminalSpares | internal/app/agent_workspaces_service.go:1497-1575 | a launch touches no record but, when detached, its own |
| Sessions.StartKeeps | internal/app/agent_workspaces_service.go:558-584 | creating a record and launching it keeps the invariant, whatever fails |
| Sessions.LaunchKeepsExactly | internal/app/agent_workspaces_service.go:524-545 | a detached launch keeps the invariant unless every step up to the wait works below the cap, the poll that ends the wait goes unanswered, the session outlives it and the clean-up, and the clean-up works |
| Sessions.LaunchKeeps | internal/app/agent_workspaces_service.go:524-545 | so with answered probes it always keeps it |
| Sessions.ResumeKeeps | internal/app/agent_workspaces_service.go:730-801 | so does attaching to or relaunching a session |
| Sessions.DeleteAllKeeps | internal/app/agent_workspaces_service.go:858-887 | so does deleting a workspace, wherever it stops |
| Sessions.CallKeeps | internal/app/agent_workspaces_service.go:524-887 | so does every call |
| Sessions.LiveSessionsHaveRecords | internal/app/agent_workspaces_service.go:524-887 | over every run with failures, deaths, sessions ending at any point and, outside detached launches, unanswered probes, every live session has a record and at most 8 are live |
| Sessions.FailedLaunchLeavesNothing | internal/app/agent_workspaces_service.go:524-545 | by what failed: after a failed Touch the record stays; otherwise neither record nor session is left exactly when the clean-up delete works |
| Sessions.AttachedLaunchKeepsItsRecord | internal/app/agent_workspaces_service.go:1565-1575 | a launch for the UI keeps its record, and everyone else's, however it ends |
| Sessions.TouchFailureLeavesBoth | internal/app/agent_workspaces_service.go:1527-1529 | a failed Touch leaves a running session and its record |
| Sessions.UnansweredProbeOrphans | internal/app/agent_workspaces_service.go:1608-1620 | an unanswered probe makes a detached launch delete the record of a live session |
| SessionEffects.AwaitDoes | internal/app/agent_workspaces_service.go:1608-1620 | polling finds the session running exactly when every poll is answered and it has not ended by the last |
| SessionEffects.LaunchTerminalDoes | internal/app/agent_workspaces_service.go:1497-1575 | which step fails or whether the session stays decides the outcome; the record is dropped only by a detached launch that fails before its terminal is created; and what is live is what was and has not ended, with the new session once created |
| SessionEffects.SmoothLaunch | internal/app/agent_workspaces_service.go:524-545 | with nothing going wrong a launch below the cap ends with its session live and its record there, and one at 8 live sessions with neither |
| SessionService.AgentWorkspacesService.AwaitEarlyExit | internal/app/agent_workspaces_service.go:1608-1620 | the polling loop waits on exactly while every poll is answered by a live session, changes no record and ends no session, and keeps the invariant |
| SessionService.AgentWorkspacesService.LaunchTerminal | internal/app/agent_workspaces_service.go:1497-1575 | outcome, records and live sessions follow from which effect fails first and whether the session stays, and the invariant is kept |
| SessionService.AgentWorkspacesService.StartSession | internal/app/agent_workspaces_service.go:558-584 | a record of the workspace is made under the next number and its terminal launched as above, or nothing is made if that fails |
| SessionService.AgentWorkspacesService.LaunchWorkspaceSession | internal/app/agent_workspaces_service.go:524-545 | nothing is made unless the files were regenerated; otherwise a detached start as above, and an early exit is a failure whose record is dropped if the delete works |
| SessionService.AgentWorkspacesService.ResumeSession | internal/app/agent_workspaces_service.go:730-801 | a session found live is attached to and touched, with no record changed; one found gone is launched again under its fresh agent id, recorded first; otherwise refused with nothing changed |
| SessionService.AgentWorkspacesService.CloseSession | internal/app/agent_workspaces_service.go:805-815 | the session is not live once the kill works, no other is ended, and every record stays |
| SessionService.AgentWorkspacesService.DeleteSession | internal/app/agent_workspaces_service.go:835-847 | finished exactly when the record existed and both effects worked, and then that record alone is gone and its session not live; while the kill fails no record goes |
| SessionService.AgentWorkspacesService.DeleteWorkspace | internal/app/agent_workspaces_service.go:858-887 | finished exactly when every effect worked, and then no record or session of the workspace is left and every other record is; otherwise every record is, and no session outside the workspace was killed |

## Left out

- Proxy.BoundedStaleness: says nothing of hits on rows that a client's own validator has stamped, because for those no bound holds (ProxyStale.ClientValidatorsHaveNoBound); the requests are interleaved steps over a value, so locks and the coalescing group appear as atomic steps.
- ProxyServer.Server.ServeHTTP: one request at a time; the interleavings are those of Proxy.
- Lock.MutualExclusion: takes reading, judging and renaming a stale lock as one step, because as separate steps it is false (Lock.CodeAsWrittenFails); the lock is a state machine over one directory, without the object's fields.
- Lock.StepKeepsOwned: leaves out removal of the renamed directory, the symlink refusal and unreadable files.
- Descendants.Collect: asks for unique pids and a root that is not its own ancestor, since otherwise the loop does not end (Descendants.TerminatesExactly).
- CacheKeys.CacheIdentity: asks for NUL-free method, path and query and a hash that tells the two accounts apart, since the key separates its fields by NUL.
- Sessions.LiveSessionsHaveRecords: asks for answered has-session probes in detached launches, since otherwise it is false (Sessions.LaunchKeepsExactly), and for serialised calls, since counting and launching are separate steps.
- Sessions.LaunchKeeps: regeneration of the workspace is one step that works or not; validation before the first effect, prompts, names and notices are not modelled.
- CopyRun.Copier.Copy: leaves out permissions, creation of the destination's missing parents, links and special files already at the destination (they make it fail), and errors of the operating system other than a file in a directory's place or the reverse; the depth stands for the longest path it accepts.
- CopyRunaway.EndsExactly: says nothing of a source with dead ends that also reads above its destination; whether it then fails or goes on depends on which it lists first.
- Vendor.VendorClosure: copying a package is the set of imports it returns.
- LaunchEnv.WriteDotenv: the temporary file, its permissions and the rename are not modelled.
- Dotenv.UnquoteOfQuote: strings are valid UTF-8 text; the byte escapes above 0x7F that the printer writes for other bytes, and the reader takes back, are refused.
- Overlay.AbsentItemIsStillAnswered: upper- and lower-casing is ASCII.
- Stores.Store.RunScenario: delays and cancellation are not modelled; stopping early is a shorter list of steps.
- Publishers.Publisher.Run: building, signing, notarising, packaging and the web deployment have no effect on the bucket and are left out; verification of a local file is a flag on that file, source and changelog checks are one flag that does not change during a run, and publication times are integers.
- ReleaseLive.ReleaseVersions: listing tags with git is a parameter.
- HTTP headers, passing other requests through, the control endpoints, the dashboard, corrupt cache rows and the database behind the cache.
- Sorting and listing of observed items, and seeding of the store from the configuration.
- Pull-request, promotion-status and interactive commands of the release tool, beyond the bump.
- The other services of `internal/app`, the frontend and the desktop shell.
