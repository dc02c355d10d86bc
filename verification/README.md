# Users, shards, cache and events: a verified model

The project models the user part of a small service landscape: user rows spread over
`MAX_SHARD + 1` database shards, a shared Redis-like cache with a life of 60 seconds, an
ordered event log with one consumer, and the sign-up, sign-in, validation, search, edit and
delete requests on top of them. It proves what these parts guarantee together, over every run
and every interleaving of their steps, and where they do not keep a promise it shows the failing
behaviour and the exact condition under which the promise holds.

## How it is laid out

- `Users.dfy`, `Text.dfy`, `Sharding.dfy`, `Cache.dfy`, `Rules.dfy`, `Replay.dfy`: the values and
  the meaning of each operation on them. `Sharding.dfy` defines the one logical table that the
  shards stand for and proves each statement on the shards equal to one on that table.
- `System.dfy`: the transition system. A state holds the shards and role tables, the id sequence,
  the cache, the log with its committed offset, the consumer's position within a record, the
  requests and searches in flight and the clock. A step is one request, one access of a request or
  search that was cut at its accesses to shared state, one consumer action, a crash, or the passing
  of time.
- `Database.dfy`, `Repository.dfy`, `Queue.dfy`, `Services.dfy`, `EventMain.dfy`: the classes, requests
  and the consumer with their loops, fields and output parameters, proved against those meanings.
  `Objects.View` is the state that the objects stand for: every request moves it by its step
  (`System.Does`) and the consumer by its steps (`Consuming.Consumes`), so what is proved of all
  runs holds of the objects (`System.StepReachable`, `Consuming.ConsumesReachable`).
- `Frames.dfy`: which parts of a state each step may touch. `Invariant.dfy`: what every step keeps.
  `Permanence.dfy`, `CrashTolerance.dfy`, `Consuming.dfy`, `CatchingUp.dfy`, `Times.dfy`,
  `Staleness.dfy`, `Bounds.dfy`, `SearchKeys.dfy`, `CachedSearch.dfy`, `Deletion.dfy`, `Revival.dfy`,
  `Emails.dfy`, `Sessions.dfy`, `Authority.dfy`, `OpenRuns.dfy`: theorems over whole runs.
- `CutRequests.dfy`: a cut request or search that is not interrupted is the whole one. `Outcomes.dfy`: what a
  request's body makes of the rows once the consumer is done.
- `Scenarios.dfy`: runs from the empty system that reach the states the negative results start from.

`dafny verify dfyconfig.toml` checks everything.

## What a run may do

A run starts with empty tables, role tables, cache and log. The steps assume, as the code and its
deployment do: one log partition and one consumer; between the existence check and the insert of the
consumer no other inserter is active, while every other step may intervene there; a statement whose
unique constraint is violated throws, and an exception ends the consumer, which restarts from the
committed offset. Consumer crashes may happen between any two of its actions. An entry is live up
to and including 60 time units after its put.

Sign-up bodies carry no positive id (`docs/index.yaml:318-335`), which `create_user` does not check.
Runs without that assumption are the open runs: `OpenRuns.EventsAuthorisedExactly` shows that the
authority of events needs it, and `OpenRuns.LoginForged` what happens without it.

## Where the code differs from what it says

- The scenarios in the repository's `README.md:4-5` and `README.md:35-36` sign a user up and then
  sign in. The event made by sign-up has no password field, so the row gets an empty password
  (`Sessions.OnlySetUpPasswordWorks`). An edit event empties the password of its row likewise.
- The call that saves to the cache after a write stands behind two returns (`database/user.cpp:202-210`):
  writes never refresh the cache, against the comment above the call. The model follows the code.
- Emails are unique per shard only: globally they are unique in every run exactly when there is one
  shard (`Emails.EmailsUniqueExactly`); `Sharding.UpdateKeepsEmailsUnique` gives the exact condition
  for one update.
- An update its shard refuses ends the consumer at every delivery, so nothing behind it is ever
  consumed (`CrashTolerance.RefusedUpdateBlocks`); `CrashTolerance.ApplyFailsExactly` says when, and
  `Scenarios.StuckReachable` that it happens in every configuration.
- A deletion can be undone: by an edit that finds the undeleted object which the deletion's own
  lookup left in the cache (`Revival.DeletedThenEdited`), by a request in flight, and by a pending or
  redelivered event (`Deletion.RedeliveryUndoesDelete`, `CatchingUp.PendingEventRevives`).
  `Revival.RevivalExactly` and `Revival.PendingRevivalExactly` say exactly when it still can;
  `Deletion.DeletionSettles` gives a time after which it cannot.
- `get_by_id` can answer another user exactly when a login is the decimal text of the id
  (`Staleness.OwnRowExactly`). Its answers have a bounded age exactly when the sign-in service has no
  cache, and the bound then grows with the time between a select and its puts (`Bounds.BoundExactly`).
- A cached search can answer another statement's rows exactly when searches fill different fields
  or more than one (`CachedSearch.HitsFaithfulExactly`).

## Model

| member | source | states |
|---|---|---|
| CrashTolerance.EffectivelyOnce | event_main.cpp:29-46 | In every run, after any crashes at any points, the logical table is the in-order replay, once each, of the records committed since a state whose log is drained or was just committed, plus at most the one applied but not yet committed, up to ids lost from the sequence; set-ups in between add the administrator at most once; deletions write their rows in between, and only right after one is the record in line applied again, so never without a deletion |
| CrashTolerance.ApplyAgain | event_main.cpp:42-45 | Redelivering a create or update that still has its effect leaves the table as it is |
| Replays.ApplyTwice | database/user.cpp:202-216 | A create and an update record each have no further effect when applied to the table they made, whatever id a second create would take |
| Replays.RepeatsNeedDeletions | event_main.cpp:42-45 | A history of records and deletions repeats records at most as often as it deletes rows |
| CrashTolerance.RefusedUpdateBlocks | event_main.cpp:42-50 | A refused update at the head of the log keeps the committed offset where it is in every later state, as long as nobody deletes a row directly; no restart, set-up, edit or sign-up helps |
| CrashTolerance.ApplyFailsExactly | database/user.cpp:251-292 | A polled record ends the consumer exactly when it is an update of a present row that clashes within its shard |
| EventMain.Consume | event_main.cpp:29-46 | The whole consumer loop, for any polls: every record a poll brings is saved and committed, up to the end of the log or the first record whose save throws on the rows left behind, which ends the consumer; the table is the replay of the records it committed, once each, with no id lost but the last one of a failed save; and the objects go from their state to their new one by a run of consumer steps of the transition system |
| EventMain.ApplyRecord | event_main.cpp:40-43 | Decode and save one record: the replay's step, or on failure unchanged rows and at most one id taken |
| EventMain.SaveAndCommit | event_main.cpp:40-45 | Save and commit one record: the state the poll, apply and commit steps lead to, or the stopped consumer with the offset unchanged |
| Outcomes.SignUpEndToEnd | auth_service/auth_service.h:48-64 | From the body to the row: an accepted sign-up whose login and email are new becomes, by the consumer's steps, the row with the login, name and email of the body, undeleted, without a password, and nothing else changes |
| Outcomes.SignUpKeepsRows | database/user.cpp:212-249 | Consuming the event of a sign-up without an id changes no row that was there and adds at most one |
| Outcomes.EditEndToEnd | user_service/user_service.h:51-79 | From the body to the row: an accepted edit that found the row as it is gives it, by the consumer's steps, exactly the name and the email of the body, where given, and an empty password, and nothing else changes, as long as no other row of the shard has that email |
| Outcomes.DeleteEndToEnd | user_service/user_service.h:133-144 | In every reachable state a permitted deletion that found the row as it is flags that row, is never refused, and changes nothing else |
| CatchingUp.LastEventWins | event_main.cpp:29-46 | Once the consumer has caught up, which its steps alone can do unless a record is refused, a row is exactly what the last pending record for it says, or as it was when there is none |
| Queue.Producer.SendToQueue | user_service/user_service.h:11-49 | For any pattern of failing attempts: one message appended iff some of ten attempts succeeds, true iff appended, the payload without password, the event type by the id's sign, keys strictly increasing |
| Invariant.RunInv | database/user.cpp:160-292 | In every state of every run: placement, well-formedness, unique logins (and emails, if no edit touches one), fresh ids, and the agreement of every cached, queued and in-flight user with its row |
| Invariant.RunGrows | database/user.cpp:212-292 | No row disappears and no login changes between an earlier and a later state |
| Invariant.NextInv | database/user.cpp:160-292 | The one-step form of the two rows above, for each kind of step |
| Permanence.LoginPermanent | database/user.cpp:478-514 | The login a row has once is carried by every row, cached object under any key, cached list entry, event and request naming that id in every later state |
| Permanence.IdsHaveRows | database/user.cpp:212-249 | No positive id is held anywhere without its row |
| Permanence.AlwaysWellFormed | utils/validation_utils.h:8-63 | Every user value anywhere in any reachable state has a name and login of at least 3 characters and an email with @ and neither space nor tab |
| Permanence.UniqueAcrossShards | database/user.cpp:421-443 | Logins are globally unique in every run; emails too when no edit touches an email |
| Emails.EmailsUniqueExactly | docker/mariadb/rollout/user/rollout.sql:9-17 | Emails are unique in every reachable state of a configuration if and only if it has a single shard |
| Emails.RunShardEmails | docker/mariadb/rollout/user/rollout.sql:14 | In every reachable state, with edits of emails allowed, no two rows of one shard share an email |
| Permanence.RowsInPlace | database/database.cpp:66-92 | In every reachable state a row of id i is only in shard i mod n, and below the sequence value |
| Permanence.InsertRefusedOnlyForEmail | database/user.cpp:218-237 | A consumer's insert is refused exactly when its target shard holds the email; never for the primary key or the login |
| Permanence.KindSafe | database/user.cpp:316-341 | In every reachable state an object lookup that finds a list answers from the store, a list lookup that finds an object is a miss, and a miss leaves no partial rows |
| Permanence.PasswordsAreLost | database/user.cpp:516-526 | No user value in the system has a password except the set-up administrator's |
| Bounds.BoundExactly | database/user.cpp:172-200 | When every put comes within d of the select it belongs to, all answers of a configuration are rows as they stood at most b time units before, if and only if the sign-in service has no cache and, when the user service has one, b is at least 60 + d |
| Bounds.AtomicBoundExactly | database/user.cpp:160-200 | When select and puts are one step the same holds with 60 as the exact bound |
| Bounds.SomeBoundExactly | database/user.cpp:56-59 | Even then some bound on the age of answers exists if and only if the sign-in service has no cache |
| Bounds.OldByLatePut | database/user.cpp:185-189 | For every d, a run from the empty system whose put comes d after its select answers a value that was a row only 60 + d time units before and earlier |
| Bounds.OldByRePut | database/user.cpp:56-59 | With a cache in sign-in, for every n, a run from the empty system without interleaved reads answers a value that was a row only 60 n time units before and earlier |
| Staleness.BoundedStaleness | database/user.cpp:160-200 | Without a cache in sign-in, and with every put within d of its select, an answer is a complete row as it stood at most 60 + d time units ago; without any cache it is the row as it is |
| Staleness.AnswersWereRows | database/user.cpp:478-501 | Under any interleaving of select and puts, of the user service, of validations and of sign-ins, and with any re-puts, an answer was the complete row of its id at some earlier state |
| CutRequests.CutGet | database/user.cpp:160-200 | Fetch and puts without interruption, from any state, are the whole get step |
| CutRequests.CutValidate | auth_service/auth_service.h:31-46 | The same for a validation |
| CutRequests.CutSignIn | database/user.cpp:51-61 | The same for a sign-in that finds its row: a lookup and its puts, then the puts of the sign-in |
| CutRequests.CutEdit | user_service/user_service.h:57-79 | An edit on the user of an uninterrupted lookup is the whole edit step |
| CutRequests.CutDelete | user_service/user_service.h:133-144 | A deletion on the user of an uninterrupted lookup is the whole delete step |
| CutRequests.CutSearch | database/user.cpp:389-411 | Selects from all shards without interruption, and the save, are the whole search step with a listing of the logical table |
| Staleness.OwnRowExactly | database/user.cpp:478-501 | From a reachable state, with a cache in the user service, waiting and reading alone can lead get_by_id to answer another user for an id if and only if the login of another row is the decimal text of that id |
| Staleness.OtherUserHit | database/user.cpp:490-501 | An answer that is another user is a live cached object put under that user's login, which is the id's text and the login of its row |
| Scenarios.OtherAnswered | database/user.cpp:478-501 | With a cache, one sign-up as "123" and one read, from the empty system, end with user 1 answered for id 123 |
| Staleness.NoBoundWithRePut | database/user.cpp:56-59 | From a state that holds an outdated value, with a cache in sign-in, for every n waiting and sign-ins alone lead to it being answered 60 n time units later, although no row equals it on the way |
| CachedSearch.CachedSearchFaithful | database/user.cpp:316-387 | A hit answers exactly what an actual search with the same statement read, shard by shard, at most 60 + d time units ago, when searches fill one and the same single field and every search saves within d of its start |
| CachedSearch.HitsFaithfulExactly | database/user.cpp:316-387 | With every search saving within d of its start, all hits of all runs of a configuration answer what such a search read at most b time units ago, if and only if nothing is cached, or no search is allowed, or the searches fill one and the same single field and b is at least 60 + d |
| CachedSearch.SearchListsOnce | database/user.cpp:389-407 | While rows change between the shards of one search, it lists no id twice, and each row as it stood when its shard was read |
| SearchKeys.KeysFaithfulExactly | database/user.cpp:294-310 | A key tells statements apart if and only if all queries that fill anything fill one and the same single field |
| SearchKeys.KeyMeaning | database/user.cpp:294-310 | The key is the login, the email and the name one behind the other, or the default text |
| SearchKeys.DefaultKeyCollides | database/user.cpp:306-308 | A search for the login "full" shares its key with the search for everything, though the statements differ |
| CachedSearch.OtherRowsAnswered | database/user.cpp:294-310 | With a cache, a run from the empty system answers a search by name with the row a search by email found, although the name statement selects no row |
| CachedSearch.ListReadsBack | database/user.cpp:343-359 | A saved listing decodes to the very rows the shard loop read |
| Revival.RevivalExactly | user_service/user_service.h:51-146 | With the log consumed, some continuation makes a deleted row undeleted, if and only if some lookup of the user service, for whatever id, finds a cached object of it undeleted, or some request in flight holds it undeleted and is of the user service or has a put to come under the text of an id |
| Revival.PendingRevivalExactly | event_main.cpp:29-46 | The same at every reachable state whose pending records are all accepted, wherever the consumer stands, with pending records that say undeleted as one more reason |
| Revival.SpentForever | user_service/user_service.h:133-141 | From any reachable state without such objects, requests and records, whatever happens the row stays deleted and none comes up |
| Revival.DeletedThenEdited | user_service/user_service.h:57-79 | With a cache in the user service and nothing pending: the owner deletes the row, an administrator edits it right after, and the consumer's next record makes it undeleted |
| Revival.DeletionLeavesObject | database/user.cpp:186-189 | With a cache, a deletion that found its user undeleted leaves an undeleted object behind under the id |
| Revival.SealedIsSpent | user_service/user_service.h:133-141 | A sealed deletion meets the exact condition |
| Deletion.DeletionSettles | user_service/user_service.h:116-146 | A deletion with no undeleted event or request pending is sealed once 60 time units pass without an edit, and lasts in every later state, when sign-in has no cache or the login is not the text of an id |
| CatchingUp.PendingEventRevives | event_main.cpp:29-46 | From any reachable state with an undeleted event of a row pending and no record up to it refused, the consumer's steps alone make the row undeleted |
| Deletion.SealedForever | user_service/user_service.h:133-141 | When the row, every live cached object, every pending event and every request in flight say deleted, every later state keeps the row deleted |
| Deletion.RevivedExactly | database/user.cpp:251-266 | A record undoes a deletion exactly when it is an update of that row saying undeleted that its shard accepts |
| Deletion.RedeliveryUndoesDelete | event_main.cpp:42-45 | Crash after save, delete, restart: the redelivered edit revives the row |
| Scenarios.JustEditedReachable | event_main.cpp:42-45 | In every configuration a run from the empty system reaches the state from which a redelivery undoes a deletion |
| Bounds.HeldRun | auth_service/auth_service.h:31-46 | In every configuration with a cache in sign-in, set-up, one validation and one applied edit, from the empty system, hold the outdated value that sign-ins renew |
| Scenarios.StuckReachable | user_service/user_service.h:70-79 | In every configuration set-up, one sign-up and one edit of an email, all accepted, leave the consumer stuck on a refused update |
| Scenarios.EmailsCollide | database/user.cpp:251-282 | In every configuration with two shards, two sign-ups and one edit, all accepted, end with equal emails |
| Sessions.SignInEndToEnd | auth_service/auth_service.h:15-46 | Credentials without a colon in the login are checked as sent; a token is issued iff an undeleted row matches, and at every later state validates to the same id and login exactly when the row is then undeleted |
| Sessions.SignInAnswer | database/user.cpp:37-68 | Without a cache auth answers the unique undeleted matching row, or 0 iff there is none, independently of the order of shards |
| Sessions.TokenFollowsRow | auth_service/auth_service.h:31-46 | The verdict on an issued token at any later state is decided by its row alone |
| Sessions.OnlySetUpPasswordWorks | user_service/user_service.h:26 | With or without caches a non-empty password signs nobody in but the administrator made at set-up, and it is that administrator's |
| Sessions.NoColonNoSignIn | utils/token_utils.h:20-22 | Credentials without a colon, which are both login and password, sign nobody in, except that a cache may let in the administrator whose id has the text of the password |
| Sessions.CachedSignIn | database/user.cpp:24-36 | A sign-in answered from the cache names a user whose row has the login, or whose id's text is the login given |
| Authority.EventsAuthorised | user_service/user_service.h:57-62 | The very step that appended an update event to the log was an edit by the owner of the row the event names, or by someone holding admin at that moment |
| Authority.OpenEvents | auth_service/auth_service.h:48-58 | In every run of the code as it is, with sign-up bodies of every shape, the step that appended an update event was an edit by the owner or an admin, or a sign-up whose accepted body carried a positive id |
| OpenRuns.EventsAuthorisedExactly | auth_service/auth_service.h:48-58 | In a run of the code as it is, all update events were asked for by an owner or an admin if and only if no accepted and sent sign-up carried a positive id |
| OpenRuns.LoginForged | auth_service/auth_service.h:48-58 | In every configuration one such sign-up and the consumer give a row another login, with no edit requested |
| Authority.RowChangesAuthorised | user_service/user_service.h:133-144 | A row only changes by a deletion its owner or an admin of that moment asked for, or by applying an event whose appending step was authorised so |
| Authority.OpenRowChanges | user_service/user_service.h:133-144 | In every run of the code as it is, a row only changes by an asked deletion, or by applying an event appended by an authorised edit or by such a sign-up |
| Authority.RunRoles | database/user.cpp:71-147 | In every run a role check on the shard of the user is one on the union of the role tables |
| Authority.RoleStep | database/user.cpp:102-147 | Only a grant and a revocation change that union, by the one pair they name |
| Sharding.HintsCoverIds | database/database.cpp:49-72 | The hint of any id names its shard in decimal and is among the enumerated hints, which differ pairwise and reach their own shard each |
| Sharding.ShardOfIsModulo | database/database.cpp:66-69 | The shard of an id is the remainder after conversion to an unsigned 64-bit number |
| Sharding.LogicalIsUnion | database/database.cpp:66-72 | The logical table is the union of the shards |
| Sharding.InsertRefines | database/user.cpp:218-237 | Insert on the shard of the id is insert on the logical table, of the row undeleted whatever the object said, refused exactly for a present key or a clash within the shard |
| Sharding.UpdateRefines | database/user.cpp:251-282 | Update on the shard of the id is update of the logical table, refused exactly for a clash within the shard |
| Sharding.RowRefines | database/user.cpp:172-190 | Select by id on one shard is lookup in the logical table |
| Sharding.UpdateKeepsEmailsUnique | docker/mariadb/rollout/user/rollout.sql:9-17 | An accepted update keeps emails globally unique if and only if no other shard holds the new email |
| Sharding.EmailsCanCollide | docker/mariadb/rollout/user/rollout.sql:14 | Two shards, two users: an accepted update makes their emails equal |
| Sharding.AuthAnswerUnique | database/user.cpp:41-62 | With unique logins the credentials loop has one possible answer |
| Sharding.RolesRefine | database/user.cpp:71-147 | With every pair in the shard of its user, checking, granting and revoking on that shard are membership, addition and removal on the union of the role tables, and keep pairs in place |
| Sharding.SelectsMeaning | database/user.cpp:371-387 | A search selects exactly the undeleted rows whose name and login hold the query's words in order and whose email holds the text in one piece, with the 26 capital letters of the row shown as their small letters and all else as it is |
| Sharding.FoundInAnyCase | database/user.cpp:375-387 | A query in small letters selects every undeleted row that holds its texts, whatever letters of the row are capitals |
| Patterns.LowerCharMeaning | database/user.cpp:377 | lower() turns each of the 26 capitals into its small letter and leaves every other character |
| Patterns.LikeMeaning | database/user.cpp:377-386 | A pattern, wildcards included, matches exactly the texts that fall into one piece for each of its characters: any text for a percent sign, one character for an underscore, the character itself otherwise |
| Patterns.PatternMeaning | database/user.cpp:375-383 | The rewritten pattern matches exactly the texts with the query's words in order at non-overlapping positions (LIKE of section 8.5 of ISO/IEC 9075-2) |
| Patterns.SubstringMeaning | database/user.cpp:385-387 | Without the rewrite the pattern matches exactly the texts holding it in one piece |
| Patterns.LiteralIsFound | database/user.cpp:375-377 | Every text holding the literal query matches |
| Patterns.RewriteIdempotent | database/user.cpp:376 | Rewriting twice is rewriting once, and changes a text exactly when it has a space |
| Decimal.ToStringInjective | database/user.cpp:483 | Different ids never share a cache key |
| Decimal.AtoiMeaning | user_service/user_service.h:106 | White space, an optional sign and digits are read as the signed number of the digits, 0 without any, whatever follows |
| Decimal.EveryTextHasParts | user_service/user_service.h:124 | Every text has such parts, so the row above is about all texts |
| Decimal.AtoiReads | user_service/user_service.h:106 | The decimal text of any integer, whatever follows it but a digit, is read as that integer |
| Users.DecodeEncodedList | database/user.cpp:343-359 | A saved list decodes entry by entry to the users without their passwords, and to itself exactly when none had one |
| Users.DecodeWithPassword | database/user.cpp:528-558 | Decoding the form with password is the identity |
| Users.DecodePlain | database/user.cpp:516-558 | Decoding the plain form drops the password and nothing else |
| Users.OnlyObjectsDecode | database/user.cpp:560-565 | JSON text decodes to a user exactly when it is an object that does |
| Users.FieldsDecoded | database/user.cpp:541-558 | An object decodes exactly when its fields are of their kinds, and each field is then its value or, when absent, 0, the empty text or false |
| CacheModel.ListUnderIdKeyIsMiss | database/user.cpp:490-501 | A list under an id's key reads as a miss: the answer is the logical row |
| CacheModel.PutUserReads | database/user.cpp:478-488 | After a save the user is read back under its id and its login, and every other key reads as before |
| CacheModel.Cache.Put | database/cache.cpp:32-40 | Stores under the key with the present time when enabled, else nothing |
| CacheModel.Cache.Get | database/cache.cpp:42-58 | Finds exactly the entries of an enabled cache that are at most 60 units old and otherwise keeps the output parameter |
| DatabaseModel.Database.constructor | docker/mariadb/rollout/user/rollout.sql:9-22 | Empty user and role tables in every shard and the first sequence value |
| DatabaseModel.Database.GetAllHints | database/database.cpp:49-57 | All hints in order |
| DatabaseModel.Database.GenerateNewId | database/database.cpp:75-92 | Hands out the sequence value and advances it |
| DatabaseModel.Database.IsExist | database/user.cpp:421-452 | True exactly when the logical table holds the login or the email |
| DatabaseModel.Database.FindCredentials | database/user.cpp:41-62 | The id of an undeleted row of the logical table with these credentials, 0 exactly when none |
| DatabaseModel.Database.InsertEntity | database/user.cpp:212-249 | Nothing for a known login or email; else takes an id and adds the row undeleted, or fails for a clash with the id lost |
| DatabaseModel.Database.UpdateEntity | database/user.cpp:251-292 | Replaces the whole row, ignores a missing one, fails on a clash without a change |
| DatabaseModel.Database.SaveToDb | database/user.cpp:202-210 | Update or insert by the sign of the id; the cache is out of its frame |
| DatabaseModel.Database.HaveRole | database/user.cpp:71-93 | True exactly when the union of the role tables of all shards holds the pair |
| DatabaseModel.Database.AddRole | database/user.cpp:102-122 | The union of the role tables gains the pair, once, in the shard of the user |
| DatabaseModel.Database.RemoveRole | database/user.cpp:133-148 | The union of the role tables loses the pair |
| Repository.GetById | database/user.cpp:160-200 | The live decodable cached object with a positive id, else the row, which is then put under both keys |
| Repository.Auth | database/user.cpp:23-69 | A cached user with the same password at once, else the credentials of the logical table, re-putting the user found when the cache is on |
| Repository.SaveToCache | database/user.cpp:478-488 | Puts the full object under id and login |
| Repository.GetFromCache | database/user.cpp:490-514 | Missing, expired, list and undecodable all read as the empty user |
| Repository.SearchByCache | database/user.cpp:316-341 | A hit exactly for a live list that decodes throughout; otherwise the rows before the first bad entry stay in the result |
| Repository.FetchRows | database/user.cpp:403-406 | The cursor loop lists each undeleted matching row of one shard exactly once |
| Repository.ListShards | database/user.cpp:389-407 | The two loops list each undeleted matching row of the logical table exactly once |
| Repository.Search | database/user.cpp:361-411 | A hit answers the cached list; a miss lists the logical table and saves the list under the key of the rewritten query |
| Validation.CheckEmail | utils/validation_utils.h:17-35 | True exactly for an email with @ and no space or tab; a later failure overwrites the reason |
| Validation.ValidateUser | utils/validation_utils.h:38-63 | True exactly when all checks pass; the message grows by the reason of every failed check, in their order |
| Tokens.SplitRecovers | utils/token_utils.h:20-23 | Splitting credentials at the first colon (section 2 of RFC 7617) recovers the pair exactly when the login has no colon |
| Tokens.SplitCredentials | utils/token_utils.h:20-22 | The parts are around the first colon; without one both are the whole text |
| Edits.EditKeeps | user_service/user_service.h:57-79 | An accepted edit has exactly the name and email asked for, where given, and keeps everything else and well-formedness; it was asked by the owner or an admin |
| Edits.EditAcceptedExactly | user_service/user_service.h:57-77 | An edit is accepted if and only if the user is found, the owner or an admin asks, and the fields given are texts and valid |
| Edits.EditRefusal | user_service/user_service.h:57-77 | Which error and which message a refused edit answers: the email's overwrites the name's |
| Services.CreateUser | auth_service/auth_service.h:48-64 | Accepts exactly decodable valid bodies and appends their plain form iff the producer gets through, as a create event for a body without an id; a refused body gets its error and the reasons of all failed checks; the sign-up step of the open transition system for a body of any shape, and of its runs for a body without an id |
| Services.EditedId | user_service/user_service.h:52-57 | The numeric id of the body decides; an array, a missing id and an id of another kind are refused |
| Services.ChangeFields | user_service/user_service.h:64-77 | The shared, overwritten message is empty exactly when every check passes |
| Services.DecideEdit | user_service/user_service.h:58-77 | The user found, the requester's rights in the union of the role tables and the body decide what is sent |
| Services.EditUser | user_service/user_service.h:51-81 | The edit step of the transition system, from the state the objects stand for; which answer, for which found user, rights and body; the event appended carries the name and email of the body, where given, and the rest of the user found |
| Services.DeletedId | user_service/user_service.h:117-130 | A blank id or a negative last one is refused with its message; a last value that is the text of an id asks for that id |
| Services.DeleteFound | user_service/user_service.h:133-145 | The user found and the requester's rights in the union of the role tables decide; the row is written whole, with the flag set |
| Services.DeleteUser | user_service/user_service.h:116-146 | The delete step of the transition system, for the id whose text is the last value; the row of the found user is replaced by that user flagged deleted, exactly when the requester may and the shard accepts |
| Services.GetByIdRequest | user_service/user_service.h:102-114 | The get step of the transition system for the last non-empty id parameter; the text of an id from 1 on is answered with what is found for that id, ids below 1 are refused |
| Services.OneIdAsks | user_service/user_service.h:104-107 | The single parameter id with the text of an id asks for that id |
| Services.LastNamed | user_service/user_service.h:104-107 | The last position of a parameter with the key (and with a value, where one is needed), or none |
| Services.ParseSearch | user_service/user_service.h:83-97 | The value at the last position of each field is searched, the empty text when it is not given |
| Services.SearchRequest | user_service/user_service.h:83-100 | The search step of the transition system, for some listing of the rows; a hit answers the cached rows, a miss what was left and the listing |
| Services.AuthUser | auth_service/auth_service.h:15-29 | The sign-in step of the transition system, whose answer the token names; no token for an answer that is not positive |
| Services.Validate | auth_service/auth_service.h:31-46 | The validation step of the transition system and its verdict: exactly a signed token of a user found and not deleted passes |
| Services.CreateTestUsers | database/user.cpp:454-471 | The set-up step of the transition system and, only when it made the administrator, the grant step; what both make of the logical tables |
| Services.SetUpRows | database/user.cpp:454-471 | The set-up step adds the administrator to the logical table unless the login or email is known, and otherwise leaves all rows alone |
| Objects.Deploy | docker/mariadb/rollout/user/rollout.sql:9-22 | A new database, cache and topic stand for an initial state of the transition system |

## Left out

- HTTP handling, JSON text, Base64, token signing, SQL text, Redis, MariaDB, Kafka and proxy internals: JSON is an object or an array of objects, a signed token verifies to what was signed, a table is a map with unique constraints, a hinted statement reaches the shard of its hint.
- Fields of JSON objects the code never reads, and Poco's conversions between scalar kinds: a field of another kind throws.
- Collation: values compare exactly, and lower() turns the 26 capital letters only; only the column side of a search is lower-cased, as in the statement.
- Escapes and quotes in search text. Percent signs and underscores in it are wildcards, as in the code; what they match is `Patterns.LikeMeaning`, and the lemmas about words exclude them.
- Integer widths of ids, message keys and parameters, except the unsigned conversion in the sharding hint; the model's integers are unbounded.
- Database, cache and producer outages other than refused statements, failed send attempts and crashes of the consumer.
- Product service, configuration, environment, logging: nothing of the user store depends on them.
- Several partitions or consumers: the code gives no ordering there.
- Aliasing of the singletons: the database, cache and producer are separate objects passed to each request.
- Sign-in: the loop that checks the credentials and the lookup after it are one access, so no row changes in between; its puts are cut. A lookup of the cache and the select behind it are one access too.
- Deletion.DeletionSettles: a sufficient condition; the exact one is that of Revival.RevivalExactly.
- CatchingUp.PendingEventRevives: only the pending records as a way back; cached objects and requests in flight are in Revival.PendingRevivalExactly.
- Revival.PendingRevivalExactly: not for logs with a refused record, which block every later event until a deletion changes the clash.
- Services.CreateUser: with a positive id in the body it is a step of the open runs only.
- Services.CreateTestUsers: two steps of the transition system, while the consumer does not stand between its existence check and its insert.
- CachedSearch.CachedSearchFaithful: not for searches over several fields, where SearchKeys.KeysFaithfulExactly shows that keys collide.
