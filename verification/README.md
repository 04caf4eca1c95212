# StitchAPI core: a verified model

StitchAPI turns a described HTTP call (a *stitch*) into a resilient client: it retries, throttles,
refreshes auth, caches, coalesces, streams with resumption, and reports how a response drifted from
its contract. This project models the stateful heart of `packages/core` together with the encoders
and parsers it leans on, and proves what they are for. `dafny verify dfyconfig.toml` checks it all.

Code that changes state in place is a class or a method with loops, proved equal to a specification
function or to a trail of reasons; the properties are then lemmas about every input, run, state or
interleaving of that specification. What a specification function computes is itself stated again in
the terms of its inputs: characters and positions, paths, header texts, fields of a response.

| file | models |
|---|---|
| `Diff.dfy`, `DiffPaths.dfy` | the structural diff, and what it reports said of the two values alone |
| `Drift.dfy`, `DriftReport.dfy`, `DriftKeys.dfy` | the drift summary, its words and order, and the keys that keep it unambiguous |
| `Canonical.dfy`, `RequestKey.dfy`, `KeyEquality.dfy`, `StoreKeys.dfy` | the canonical serialiser, request seeds, which values share a text, and the concatenated store keys with their generations |
| `VaryCache.dfy` | the cache controller: learned `Vary`, the least-recently-used cap, get/set/delete |
| `Coalescer.dfy`, `CacheProtocol.dfy` | the in-process coalescer as a class, and any number of cached calls interleaved step by step |
| `Events.dfy`, `Attempts.dfy`, `Retries.dfy` | the event grammar, the attempt loop with slots, clock and deadline, and what each of its visits comes to |
| `Chain.dfy`, `Paging.dfy`, `CachedCall.dfy`, `Execute.dfy`, `Outcomes.dfy` | one call: the chain behind the loop, the page loop, the cached path, all paths together, and when each succeeds |
| `Streaming.dfy`, `StreamEnds.dfy` | the resumable stream against a server that replays what follows a token, how it ends and that it resumes |
| `SigV4.dfy`, `SigV4Form.dfy`, `Shell.dfy`, `JsLiteral.dfy`, `Lexers.dfy` | encoders and parsers that undo each other, the form of what is signed, and two lexers that agree |
| `Text.dfy`, `Optional.dfy` | joining, splitting, decimal text, string order |

Network, timers, user hooks, the store's expiry and the hash function are parameters: a theorem about
a run holds for every way they can behave. No-collision assumptions on `xxh128` are never made; the
theorems end in "or these two texts collide" instead.

## What the proofs brought to light

- **Exactly-once resume has an exact condition.** If the checks of the chunks do not throw, a stream is
  delivered exactly once under every pattern of drops, failed opens and aborts if and only if no event
  without an id follows one with an id (`ExactlyOnceIff`). The guard in the loop asks whether *some* token
  has been read, so an id-less event behind an id-carrying one is replayed (`RelapseRepeats`).
- **A check that throws makes a stream skip a chunk and still finish ok.** The token is taken over before the
  chunk is validated, the throw counts as a drop, and the reopened stream starts behind the chunk nobody
  received (`ThrowingCheckSkips`). With such checks delivery is exactly-once if and only if no event but the
  last carries an id (`ExactlyOnceDespiteThrowsIff`).
- **A hole in a sparse array is not `null`.** The comment on `stable` says holes print as `null`;
  `map` skips them and `join` prints them as nothing, so a one-hole array reads as `[]`
  (`HoleIsNotNull`). The normal form here keeps holes apart accordingly.
- **Bumping the stitch whose id is the empty string** moves the cache-wide generation, because an
  empty id counts as none (`BumpIsolatesIffNamed` is the exact condition).
- **`set` then `get` can miss with a positive cap.** Writing a learned-`Vary` entry may evict its own
  base key, if an earlier direct entry put that key in the recency list; the pointer is then gone.
  `SetThenGet` gives the exact condition, `OwnPointerLost` a run that gets there.
- **Keys containing `.`, `[` or `]`, and empty keys, can make rendered paths ambiguous**, and two diffs can
  then share one finding that shows only the first (`UncleanPathsCollide`, `UncleanKeysHideADiff`). For a set
  of keys the exact condition is that no two paths over it that part ways are rendered alike, unless the
  rendering looks like an array's (`UncountedAreSingleIff`); clean keys meet it.
- **`timeout.total` does not bound a follower's wait.** A coalesced call awaits its leader's promise with
  neither deadline nor signal (engine.ts:1879), and a leader may have begun later than the call that follows it,
  whose store was slower. It is then served after its deadline, with ok true (`LateFollower`). It is in time
  exactly if its store answered and its leader settled by its own deadline (`FollowerInTimeIff`), as it does if
  the leader began no later and kept its deadline (`EarlierLeaderKeepsFollowerInTime`).
- **A thrown value without a string form breaks the error path.** The error event takes `String(...)` of it
  (engine.ts:452) inside the `catch`, so a further exception escapes without a terminal event; and wording the
  retry event (engine.ts:808-830) ends the loop where a retry was due (`WordlessFailureIsNotRetried`,
  `WordlessFailureEscapesIff`).
- **Exceptions that escape a run without a terminal event**, a rejecting store aside, are exactly these
  (`Execute.Execute`, `Escapes`): a thrown value without a string form that ends the attempt loop, the input
  validation, the building of the request or a stream's connection; a throwing `transform`, output validator or
  page reader after an accepted response; a next page that cannot be asked for, or, when paginating, a first
  page that cannot be built; a key that cannot be derived, because the stitch's own `keyOf` throws or, without
  one, because serialising the body meets an invalid date (`KeyThrowsIff`; for a body without functions, symbols
  and foreign objects, exactly if it holds one, `KeyThrowsIffDateInside`); a throwing check of a cached value;
  and on the streaming path a throwing `onError` hook or status rule, or a reconnect backoff that the deadline
  or an abort cuts short (`EscapesIff`, `EachThrowEscapes`).
- **Coalescing looks at no header outside the configured list.** A follower's leader has its principal, key
  mode, method, URL, body and listed headers (`CoalescedCallsAskTheSame`), but two overlapping calls that
  differ in a header the response varies by share one answer
  (`OverlappingCallsMayDifferInAHeader`).
- **A diff is a patch only if removals are replayed last entry first**, since its indices name positions in
  the value before any removal (`DiffIsAPatch`).

## Model

| member | source | states |
|---|---|---|
| Diff.Out.Push | packages/core/src/diff.ts:45 | pushing appends one entry to the shared list |
| Diff.Walk | packages/core/src/diff.ts:21-92 | one recursive call appends to the shared list exactly the differences of its two values, each under the path it was called with |
| Diff.WalkKeys | packages/core/src/diff.ts:37-44 | the loop over the old keys reports a removal or the nested differences, key by key in order |
| Diff.WalkKey | packages/core/src/diff.ts:38-43 | one old key: a removal if the new object lacks it, else the nested differences under it |
| Diff.WalkNewKeys | packages/core/src/diff.ts:46-54 | the loop over the new keys reports exactly those the old object lacks |
| Diff.WalkElems | packages/core/src/diff.ts:58-75 | the loop over positions creates past the old end, removes past the new end, recurses in between |
| Diff.WalkElem | packages/core/src/diff.ts:64-71 | one position: creation, removal or the nested differences under it |
| Diff.Compare | packages/core/src/diff.ts:94-98 | the returned list, replayed on the old value, gives the new one |
| Diff.ListedIffReported | packages/core/src/diff.ts:21-92 | an entry is in the list if and only if an order-free, list-free reading of "differs at this path" says so |
| Diff.ReportedPathsAreApart | packages/core/src/diff.ts:21-92 | two reported differences whose paths are equal or one a prefix of the other are the same difference |
| Diff.PathsArePrefixFree | packages/core/src/diff.ts:21-98 | the emitted paths are pairwise distinct and none is a prefix of another |
| Diff.NoDiffRepeats | packages/core/src/diff.ts:21-98 | no entry occurs twice |
| Diff.DiffMirrors | packages/core/src/diff.ts:21-98 | swapping the arguments gives the same multiset with create and remove, old and new exchanged |
| Diff.CutGivesCommon | packages/core/src/diff.ts:21-98 | replaying the removals, last first, leaves exactly what both values share |
| Diff.FillGivesShape | packages/core/src/diff.ts:21-98 | replaying creations and changes on what both share gives the new value |
| Diff.DiffIsAPatch | packages/core/src/diff.ts:21-98 | for all values the diff replayed on the old one yields the new one, no entry being refused on the way |
| Diff.EmptyIffEqual | packages/core/src/diff.ts:21-98 | the list is empty if and only if the values are equal up to key order |
| DiffPaths.ListedIffDiffers | packages/core/src/diff.ts:21-98 | an entry is listed if and only if, looking its path up in both values, both hold something unequal there that is not two objects or two arrays, or one holds something and the other only a container of that kind |
| DiffPaths.DiffsAreOrdered | packages/core/src/diff.ts:37-75 | at every depth entries come in the order of the old keys, then the new ones, and of positions |
| Drift.RenderPath | packages/core/src/drift.ts:31-38 | the loop renders a path with its indices erased |
| Drift.RenderConcretePath | packages/core/src/drift.ts:40-48 | the loop renders a path with its indices kept |
| Drift.RenderInjective | packages/core/src/drift.ts:31-48 | for clean keys two renderings are equal if and only if the paths are (concrete), or differ only in index values (erased) |
| Drift.UncleanPathsCollide | packages/core/src/drift.ts:31-48 | different paths with one rendering, for each way a key can be unclean |
| Drift.BracketsIffIndex | packages/core/src/drift.ts:155 | searching for the bracket pair in a rendered path tells whether the path crosses an array |
| Drift.GroupKeyInjective | packages/core/src/drift.ts:137-139 | two diffs share a collapse key if and only if they share change and rendered path |
| Drift.GroupInto | packages/core/src/drift.ts:132-146 | grouping puts each diff into the single bucket of its key, every bucket holding all diffs of its key in order |
| Drift.GroupByKeepsAll | packages/core/src/drift.ts:132-146 | no diff is lost or doubled by grouping |
| Drift.ClassifyGroup | packages/core/src/drift.ts:150-181 | an ignored or filtered group gives nothing, a scalar or lone one a single finding, any other one finding per detail |
| Drift.ClassifyVariants | packages/core/src/drift.ts:183-205 | one finding per distinct detail, first-seen order, homogeneous exactly when there is one |
| Drift.ClassifyDiff | packages/core/src/drift.ts:120-209 | the findings are those of the specification the next rows are about |
| Drift.FindingsPartitionTheDiff | packages/core/src/drift.ts:120-209 | the members of all findings together are the diffs that survive `ignore` and `level`, each as often as it occurs |
| Drift.ExactlyOneFinding | packages/core/src/drift.ts:120-209 | in a real diff every surviving entry is counted in exactly one finding |
| Drift.FindingsAreFaithful | packages/core/src/drift.ts:84-205 | change, path, level, detail, count and sample of a finding describe its members, and it says "all" exactly when no diff at that path has another detail |
| DriftReport.PathsLookLike | packages/core/src/drift.ts:31-48 | keys are joined by dots, a position follows in brackets, with its number only where asked for |
| DriftReport.FindingsSayWhatHappened | packages/core/src/drift.ts:62-113 | removals are undeclared at info, changes coerced at warn, creations defaulted at verbose, unless the options re-level that kind; nothing ignored or filtered is told |
| DriftReport.LeftOutIff | packages/core/src/drift.ts:94-152 | a difference is left out if and only if its path is ignored or its level not among those asked for |
| DriftReport.WordsFor | packages/core/src/drift.ts:74-87 | the words for a difference name the kinds of its values |
| DriftReport.FindingsUseTheseWords | packages/core/src/drift.ts:165-202 | a finding uses the words of its members, behind their count on an array path, with the first one's place as sample |
| DriftReport.AllMeansAll | packages/core/src/drift.ts:165-202 | a finding says "all" exactly if it stands for several differences and no other of its change and path reads differently; otherwise it gives its count |
| DriftReport.BucketsInOrder | packages/core/src/drift.ts:132-146 | groups come in the order in which their keys first occur |
| DriftReport.FirstIsSelectedFirst | packages/core/src/drift.ts:132-146 | the first difference of a group heads it |
| DriftReport.FindingsInOrder | packages/core/src/drift.ts:148-206 | findings come in the order in which their change and path first occur in the diff |
| Drift.SampleDecodes | packages/core/src/drift.ts:174-202 | for clean keys a sample path names one diff of the whole report, the finding's own first member |
| Drift.UncountedMeansOne | packages/core/src/drift.ts:157-181 | for clean keys a finding without a count stands for exactly one diff |
| Drift.DottedKeyDiff | packages/core/src/diff.ts:21-98 | a value with a dotted key whose diff has two entries |
| Drift.UncleanKeysHideADiff | packages/core/src/drift.ts:120-209 | the whole report of that value is one uncounted finding that stands for both entries and shows only the first |
| DriftKeys.IndexShowsBrackets | packages/core/src/drift.ts:31-38 | a path that crosses an array is rendered with the bracket pair, whatever its keys |
| DriftKeys.AmbiguousKeysHide | packages/core/src/drift.ts:120-209 | two paths over the keys that part ways and are rendered alike give values whose report has one uncounted finding for two changes |
| DriftKeys.UncountedAreSingleIff | packages/core/src/drift.ts:31-181 | for any set of keys: in all reports over them every uncounted finding stands for one diff, if and only if no two paths over them that part ways are rendered alike without brackets |
| DriftKeys.CleanKeysAreUnambiguous | packages/core/src/drift.ts:31-48 | the clean keys are such a set |
| Canonical.StablePrintsNormal | packages/core/src/cache.ts:32-61 | the serialiser prints the value's normal form |
| Canonical.TextIffHashable | packages/core/src/cache.ts:32-61 | it yields a text exactly for values without a function, symbol, foreign object or invalid date; otherwise it throws |
| Canonical.RangeErrorMeansBadDate | packages/core/src/cache.ts:32-61 | a range error always comes from an invalid date inside, and without functions, symbols and foreign objects an invalid date always makes one |
| Canonical.PrintSplits | packages/core/src/cache.ts:32-61 | a printed normal form can be read off the front of any text that may follow it, in one way only |
| Canonical.StableIffSameNormalForm | packages/core/src/cache.ts:32-61 | two values have the same text if and only if they have the same normal form |
| Canonical.HoleIsNotNull | packages/core/src/cache.ts:44-47 | a one-hole array prints as the empty array, and not as the array of one `undefined` |
| Canonical.InsertionOrderNeverMatters | packages/core/src/cache.ts:54-58 | reordering object keys at any depth keeps the normal form |
| KeyEquality.AlikeIffSameNormalForm | packages/core/src/cache.ts:32-61 | two values have one normal form if and only if they are alike: the same but for key order, undefined members, a lone hole, and what JSON cannot tell apart (null, undefined and non-finite numbers; the two zeros; a date and its text) |
| KeyEquality.SameTextIffAlike | packages/core/src/cache.ts:32-61 | two values have one text if and only if they are alike |
| KeyEquality.SameSeedIff | packages/core/src/cache.ts:129-168 | two requests without a user key share a seed if and only if principal, method, URL and varied headers are the same and the bodies alike |
| KeyEquality.AtomText | packages/core/src/cache.ts:33-43 | numbers print in decimal, a bigint with its tag, what JSON cannot write as null |
| KeyEquality.PlainText | packages/core/src/cache.ts:35 | text without quotes, backslashes and control characters stands between quotes as it is |
| KeyEquality.EscapedText | packages/core/src/cache.ts:35 | quotes, backslashes and the named control characters are escaped as in JSON |
| KeyEquality.ArrayText | packages/core/src/cache.ts:44-47 | an array prints its elements' texts in order, holes empty |
| KeyEquality.ObjectText | packages/core/src/cache.ts:54-58 | an object prints its defined keys in ascending order, each with its member's text |
| RequestKey.VaryHeaderObject | packages/core/src/cache.ts:99-111 | the built object holds exactly the named, present, allowed headers, with their values |
| RequestKey.SeedIsProper | packages/core/src/cache.ts:129-168 | every seed is hashable whenever the body is, or a user key stands in for it |
| RequestKey.FindHeaderMeans | packages/core/src/cache.ts:89-97 | the first header of a name counts, in whatever case |
| RequestKey.NoSuchHeader | packages/core/src/cache.ts:89-97 | a header is missing if and only if none has that name in any case |
| RequestKey.WhatNeverVaries | packages/core/src/cache.ts:76-87 | the list of headers that never vary a key |
| RequestKey.KeyIffHashable | packages/core/src/cache.ts:153-168 | a request has a key if and only if its body can be hashed or a user key stands in |
| RequestKey.KeyThrowsIff | packages/core/src/cache.ts:153-168 | key derivation throws if and only if no user key stands in for the body and serialising the body meets an invalid date before anything unhashable |
| RequestKey.KeyThrowsIffDateInside | packages/core/src/cache.ts:153-168 | it throws only for a body that holds an invalid date, and for a body without functions, symbols and foreign objects exactly for such a one |
| RequestKey.EqualSeedsMeanSameRequest | packages/core/src/cache.ts:129-168 | equal seeds mean equal principal and key mode; then the same user key, or the same method, URL, body and varied headers |
| RequestKey.SeedsAgreeIff | packages/core/src/cache.ts:129-168 | for hashable bodies seeds are equal if and only if principal, key mode and what they stand for are |
| RequestKey.UnlistedHeadersNeverMatter | packages/core/src/cache.ts:129-168 | for any configured vary list, requests that agree on the listed headers have one key |
| RequestKey.KeysIsolatePrincipals | packages/core/src/cache.ts:153-168 | requests that share a key agree in all of that, or two different seeds have one digest |
| RequestKey.NeverVaryHeadersAreIgnored | packages/core/src/cache.ts:76-111 | headers on the never-vary list have no influence on the varied-header object |
| RequestKey.SecretsNeverAffectTheSeed | packages/core/src/cache.ts:76-168 | nor on the seed, whatever the vary list names |
| StoreKeys.GenPrefixInjective | packages/core/src/cache.ts:460-466 | for any stitch-id text the generation prefix determines both generations and the id |
| StoreKeys.ValueKeyInjective | packages/core/src/cache.ts:498-506 | two value keys are equal only if generations, id, fingerprint token, base key and vary suffix all agree |
| StoreKeys.GenerationKeysAreApart | packages/core/src/cache.ts:290-291 | no value key is a generation key, and the stitch's generation key is not the cache's |
| StoreKeys.GenerationOrigin | packages/core/src/cache.ts:315-326 | a generation is what its last bump drew, or what the store held before any |
| StoreKeys.BumpStrandsEarlierEntries | packages/core/src/cache.ts:315-324 | after a bump in its scope no later operation of any stitch addresses what was written before it |
| StoreKeys.BumpIsolatesIffNamed | packages/core/src/cache.ts:315-324 | bumping one stitch leaves all other buckets alone if and only if its id is not empty |
| VaryCache.Controller.constructor | packages/core/src/cache.ts:430-432 | a new controller remembers nothing of a store it shares |
| VaryCache.Controller.Remember | packages/core/src/cache.ts:434-445 | the insertion-ordered map becomes "drop the key, append it, keep the last `maxEntries`", and what falls out leaves the store |
| VaryCache.Controller.HitFrom | packages/core/src/cache.ts:508-516 | an entry without a value is no hit; a hit touches its key and defaults the status to 200 |
| VaryCache.Controller.Get | packages/core/src/cache.ts:518-531 | one level with explicit vary or an unvaried entry, two through a pointer |
| VaryCache.Controller.Set | packages/core/src/cache.ts:533-567 | nothing for `Vary: *`, one entry without vary names, else a pointer and a secondary entry |
| VaryCache.Controller.Delete | packages/core/src/cache.ts:569-581 | removes the secondary entry this request maps to, the base entry, and the base key's recency |
| VaryCache.RunKeepsInv | packages/core/src/cache.ts:430-581 | after any history the recency list has no repeats and stays in its cap, and every stored value is in it and was put there by the write it records |
| VaryCache.StoredValuesAreRemembered | packages/core/src/cache.ts:432-445 | size never exceeds the cap, and every value still in the store is in the list |
| VaryCache.HitsAreSound | packages/core/src/cache.ts:447-567 | a hit was written under the same base key, and writer and reader agree, absence included, on every header named by both Vary lists, or two header texts collide |
| VaryCache.ConstantVaryIsExact | packages/core/src/cache.ts:447-567 | with a constant Vary list they agree on all of it |
| VaryCache.VaryNamesMeans | packages/core/src/cache.ts:450-458 | a Vary header means the star if and only if one of its comma-separated parts is one, and otherwise exactly its non-blank parts, trimmed, in lower case, without the names that never vary |
| VaryCache.EveryNamedHeaderAgrees | packages/core/src/cache.ts:447-567 | when the server always sends one Vary text, a hit agrees with its writer on every header written anywhere in it, or two header texts collide |
| VaryCache.StarStoresNothing | packages/core/src/cache.ts:533-535 | a star anywhere in the header, and nothing is stored |
| VaryCache.OthersAreLeftAlone | packages/core/src/cache.ts:533-581 | a write or a delete leaves every entry alone that is not its own, unless the list is over its cap |
| VaryCache.ReadsOnlyEvict | packages/core/src/cache.ts:518-531 | a read changes no entry |
| VaryCache.WhatIsTouched | packages/core/src/cache.ts:508-567 | a hit and a write touch the key they end at, a miss touches nothing |
| VaryCache.DeleteThenGetMisses | packages/core/src/cache.ts:518-581 | after a delete the same operation misses, in every state |
| VaryCache.SetThenGet | packages/core/src/cache.ts:518-567 | a value just set is read back if and only if the cap is positive and a learned-Vary write did not evict its own pointer |
| VaryCache.OwnPointerLost | packages/core/src/cache.ts:434-567 | the failing case is reached by one direct set and one varied set of the same request with room for one entry |
| VaryCache.SetThenGetWithRoom | packages/core/src/cache.ts:434-567 | in every reachable state whose recency list is not full, a value just set is read back |
| VaryCache.UndefinedNeverHits | packages/core/src/cache.ts:508-567 | an undefined value is stored but never served |
| VaryCache.RecencyListIsTheMostRecent | packages/core/src/cache.ts:432-445 | after any history of touches the list is the `max` most recently touched distinct keys, in order of last touch |
| VaryCache.RecentlyTouchedAreKept | packages/core/src/cache.ts:432-445 | the list is in order of last touch, and a key left out was touched before every key that is in a full list |
| Coalescer.Inflight.constructor | packages/core/src/cache.ts:228-246 | a new entry is pending and counts nobody |
| Coalescer.InflightCoalescer.constructor | packages/core/src/cache.ts:211-212 | no entries |
| Coalescer.InflightCoalescer.Lead | packages/core/src/cache.ts:225-250 | the first caller of a key makes the entry and is counted once |
| Coalescer.InflightCoalescer.Follow | packages/core/src/cache.ts:249-250 | a later caller is counted on the entry in the map |
| Coalescer.InflightCoalescer.Join | packages/core/src/cache.ts:221-277 | leads exactly when the key has no entry; an aborted newcomer aborts at once and disturbs nobody else |
| Coalescer.InflightCoalescer.Abort | packages/core/src/cache.ts:251-261 | `refs` is joins minus aborts; the entry is dropped exactly when all participants so far have aborted, and only then is `onCancel` called, once |
| Coalescer.InflightCoalescer.Settle | packages/core/src/cache.ts:266-269 | the leader's value resolves a pending promise; a stale leader leaves a newer entry alone |
| Coalescer.InflightCoalescer.Fail | packages/core/src/cache.ts:270-273 | likewise for a failure |
| CacheProtocol.RunKeepsInv | packages/core/src/engine.ts:1748-1888 | every step of every interleaving of cached calls keeps the protocol's invariant |
| CacheProtocol.OneLeaderPerKey | packages/core/src/engine.ts:1800-1888 | at most one unsettled leader per key |
| CacheProtocol.FollowersGetTheLeadersValue | packages/core/src/engine.ts:1800-1888 | a coalesced answer is exactly what its leader's successful run returned; a follower runs by itself only after its leader failed |
| CacheProtocol.AnswersComeFromRuns | packages/core/src/engine.ts:1748-1888 | every answer and every stored result came from an earlier successful run of that key, with a status below 400 if it was stored |
| CacheProtocol.CoalescedCallsAskTheSame | packages/core/src/engine.ts:1793-1888 | a follower and its leader have one principal, key mode, method, URL, body and set of listed headers, or two seeds collide |
| CacheProtocol.OverlapCoalesces | packages/core/src/engine.ts:1852-1887 | two overlapping calls of one key end with one answer |
| CacheProtocol.StoredResultIsServed | packages/core/src/engine.ts:1800-1850 | from any reachable state, what one call stored with a status below 400 can be served to a later call of its key without a run |
| CacheProtocol.FollowStep | packages/core/src/engine.ts:1873-1888 | a follower goes on as its leader ended: with the result, or to a run of its own |
| CacheProtocol.FailureIsNotShared | packages/core/src/engine.ts:1851-1888 | from any state in which one call follows another, the leader can fail and the follower still end with a result of its own, stored below 400 |
| CacheProtocol.OverlappingCallsMayDifferInAHeader | packages/core/src/cache.ts:478-491 | for any configured list, two overlapping calls that differ in other headers share one answer |
| CacheProtocol.NoCallIsStuck | packages/core/src/engine.ts:1748-1888 | an unfinished call can step, or waits for an unsettled leader that can |
| Events.CompleteMeans | packages/core/src/engine.ts:1890-1953 | what a well-formed run is: one ending pair that names one number of attempts, no terminal event earlier, at most one start, and before any request |
| Attempts.TrailAttempts | packages/core/src/engine.ts:743-971 | attempts count up by one per visit, but for the single free redo |
| Attempts.RefreshedOnce | packages/core/src/engine.ts:836-855 | an auth refresh redoes an attempt at most once over the whole loop |
| Attempts.EndsOnlyWhenDone | packages/core/src/engine.ts:743-971 | a visit that ends the loop was not due for a redo or a retry it could have waited for |
| Attempts.WordlessFailureIsNotRetried | packages/core/src/engine.ts:808-830 | a transport failure without a string form ends the loop where a retry was due, and in no other way than by the error of wording it |
| Attempts.FinalResponseSettles | packages/core/src/engine.ts:836-965 | a final response, with no user code throwing, settles or fails by status, as its verdict says |
| Attempts.QuietRoundSettles | packages/core/src/engine.ts:721-972 | a first round that meets no obstacle and is answered for good makes one visit only |
| Attempts.VisitsAreBounded | packages/core/src/engine.ts:721-972 | at most one visit more than there are attempts, at most one call each, nothing terminal among their events |
| Retries.AnswerIff | packages/core/src/engine.ts:746-798 | a response arrives if and only if the slot comes before deadline and abort, the hooks let the request out, nothing was aborted, and the transport answers within the stitch's limit and what the deadline leaves |
| Retries.WorthAnotherIsRetried | packages/core/src/engine.ts:873-927 | while an attempt is left, a response with a retryable status, or rejected with a request for another attempt, is never the last: the next visit begins when the server's, the surface's or the curve's wait is over |
| Retries.FailureIsRetried | packages/core/src/engine.ts:798-833 | so is a transport that failed or timed out |
| Retries.RefreshIsRedone | packages/core/src/engine.ts:836-855 | a response that asks for fresh credentials redoes its attempt at once, even the last one |
| Retries.OnlyThenTriedAgain | packages/core/src/engine.ts:836-927 | no other response is followed by a visit |
| Retries.OnlyRequestsAreTriedAgain | packages/core/src/engine.ts:798-833 | without a response only a request that went out is tried again, with an attempt left |
| Retries.LastResponseDecides | packages/core/src/engine.ts:860-965 | a response that is not repeated goes to the host, settles, or throws by its verdict and status |
| Retries.LastFailureIsThrown | packages/core/src/engine.ts:798-833 | a failure on the last attempt is thrown |
| Retries.RetriedIffRested | packages/core/src/engine.ts:873-933 | a response worth another attempt, with one left, gets it exactly if the wait for it ends before deadline and abort; otherwise the loop ends with the one that cut it |
| Retries.FailureRetriedIffRested | packages/core/src/engine.ts:798-833 | so does a transport failure |
| Retries.AbortIsNotRetried | packages/core/src/engine.ts:798-810 | a failure after the caller has aborted ends the loop, whatever attempts are left |
| Retries.NoSlotNoFurther | packages/core/src/engine.ts:602-650 | without a slot the loop ends there, with what kept the slot away |
| Retries.UserCodeEndsIt | packages/core/src/engine.ts:760-835 | user code that throws around the request ends the loop with that |
| Retries.HookEndsIt | packages/core/src/engine.ts:798-933 | a throwing hook around a failure, a refresh or a retry ends the loop with what it threw |
| Retries.SecondAttemptCounts | packages/core/src/engine.ts:743-971 | with two attempts, a retryable response and then an accepted one settle the loop on the second |
| Retries.FollowedVisitTells | packages/core/src/engine.ts:743-927 | a repeated visit announces its waits and notes, one request, and why it goes round again |
| Retries.EventsInOrder | packages/core/src/engine.ts:743-971 | the events of the loop are its visits' events one behind the other |
| Retries.EachVisitCallsOnce | packages/core/src/engine.ts:743-971 | every visit but the last calls the transport, and the last one does if its request goes out before an abort |
| Attempts.Runtime.constructor | packages/core/src/engine.ts:567-575 | a run starts with no slot and no call |
| Attempts.Runtime.Release | packages/core/src/engine.ts:966-969 | one slot goes back |
| Attempts.Runtime.AcquireWithin | packages/core/src/engine.ts:602-650 | a slot is gained exactly if the grant beats deadline and abort; an abandoned grant is handed back; it never ends past the deadline |
| Attempts.Runtime.Sleep | packages/core/src/engine.ts:589-595 | a sleep lasts its full time unless the signal aborts it |
| Attempts.Runtime.SleepWithin | packages/core/src/engine.ts:582-596 | it returns normally exactly if undisturbed and then strictly before the deadline, and never ends past it |
| Attempts.Runtime.Transport | packages/core/src/engine.ts:778-798 | one call unless already aborted, bounded by the stitch's limit and by what the deadline leaves |
| Attempts.Runtime.Attempt | packages/core/src/engine.ts:753-965 | its events, notes of auth and of the refresh included, and its single call are those the round calls for, and so is the step it decides on, at the time it decides |
| Attempts.Runtime.Send | packages/core/src/engine.ts:766-965 | the request, and what becomes of it |
| Attempts.Runtime.AfterLoss | packages/core/src/engine.ts:798-833 | a failed transport is retried exactly if the hook is quiet, nothing was aborted, an attempt is left and the failure can be worded |
| Attempts.Runtime.Judge | packages/core/src/engine.ts:836-965 | refresh before rate limit before status retry before the surface's retry, else settle or throw; every stop names a cause the round holds |
| Attempts.Runtime.Backoff | packages/core/src/engine.ts:808-830 | the retry event, then a wait of exactly the computed time; it fails exactly if the hook throws or abort or deadline come first |
| Attempts.Runtime.Turn | packages/core/src/engine.ts:743-970 | one loop body gives back the slot it took, on every exit, and accounts for its events, the throttle's notes included, its call and its step |
| Attempts.Runtime.CountedTurn | packages/core/src/engine.ts:743-970 | the same turn continues the trail of visits or ends it |
| Attempts.Runtime.Visits | packages/core/src/engine.ts:743-970 | once entered, the loop is ended by a visit and never by its own bound |
| Attempts.Runtime.AttemptLoop | packages/core/src/engine.ts:721-972 | at most `attempts + 1` visits; the events and the calls are exactly those of the visits, each call under its own grant and none touching the limiter in delegate mode; no slot held and nothing past the deadline at any exit; every repetition and the exit explained by what the round held, each retry starting when its wait is over |
| Chain.LastVisitCounted | packages/core/src/engine.ts:721-735 | the attempt count a run reports is the attempt of the last visit over all its passes |
| Chain.AttemptWithCircuit | packages/core/src/engine.ts:978-1025 | an open breaker touches nothing; otherwise success is recorded exactly when the loop settles; the events are those of the visits and the breaker's own, the calls those of the visits, and the deadline is passed only by the store's time |
| Chain.QuietPassAccepts | packages/core/src/engine.ts:978-1025 | a pass whose first round meets no obstacle and brings an accepted, final response ends in it |
| Chain.SayableRoundsSayableExit | packages/core/src/engine.ts:721-972 | where everything thrown has a string form, so has what ends a pass |
| Chain.Conclude | packages/core/src/engine.ts:1369-1387 | drift findings, then the result, or the error exactly if one is fatal |
| Chain.EndChain | packages/core/src/engine.ts:1333-1387 | what follows the loop, by how the loop ended: the error if it can be said, an escape, or the concluding events |
| Chain.RunFrom | packages/core/src/engine.ts:1310-1396 | one pass from the first round on; exactly its events and calls and what it comes to; success, outcome and escape are exact in the pass's exit and the user code behind it |
| Paging.PassesAreNeeded | packages/core/src/engine.ts:1071-1127 | no page beyond the cap is fetched, and every page but the last was accepted, had items and a successor |
| Paging.Paginated | packages/core/src/engine.ts:1051-1150 | one pass per page, each taking up the rounds and the clock where the last page left them; exactly their events and calls; the result is the validated items of all pages, those of each page behind all of the pages before it; success and escape are exact in how the page loop was left |
| Paging.GatheredInOrder | packages/core/src/engine.ts:1103-1110 | the items of page `i` stand at the offset the earlier pages' lengths add up to, and nothing else is gathered |
| Paging.FetchPages | packages/core/src/engine.ts:1071-1127 | its passes, their events, the items page by page by position, and why the loop was left |
| Paging.PageLoop | packages/core/src/engine.ts:1071-1127 | the loop over the pages |
| Paging.CountedPage | packages/core/src/engine.ts:1071-1127 | one turn of the loop adds one pass, its calls and its attempts, and goes on or leaves as the page says |
| Paging.FetchPage | packages/core/src/engine.ts:1071-1126 | one page: its pass, its note, and whether and why the loop is left behind it |
| Paging.ReadPage | packages/core/src/engine.ts:1102-1126 | an empty, last or capping page ends the loop; user code that throws breaks it, before the note or behind it |
| CachedCall.RunCached | packages/core/src/engine.ts:1748-1888 | hits and coalesced results need no request and end when the store or the leader has answered, with the stored data as value and the stored status as status; everything else makes one pass behind that; events, success and escape are exact; exactly a successful run below 400 on a path that looked is stored, as delivered |
| CachedCall.LookUpOrRun | packages/core/src/engine.ts:1748-1888 | the lookup, and the chain if nothing comes of it |
| CachedCall.RunBehind | packages/core/src/engine.ts:1838-1850 | the chain behind what the lookup said |
| CachedCall.RunAndStore | packages/core/src/engine.ts:1839-1850 | the chain, and what the cache keeps of it |
| CachedCall.LookUp | packages/core/src/engine.ts:1772-1825 | everything said before a call is served or runs the chain, and how long that takes |
| CachedCall.LookUnder | packages/core/src/engine.ts:1800-1887 | a hit, its check, and a coalesced result |
| CachedCall.FollowerInTimeIff | packages/core/src/engine.ts:1877-1887 | a coalesced answer is in time if and only if the store was read in time and the leader settled by the follower's own deadline |
| CachedCall.EarlierLeaderKeepsFollowerInTime | packages/core/src/engine.ts:1877-1887 | a leader that began no later and kept its deadline lets its follower keep its own |
| CachedCall.LateFollower | packages/core/src/engine.ts:1877-1887 | a leader that began later is in time while its follower, served all the same, is not |
| Execute.RunPath | packages/core/src/engine.ts:1890-1953 | each path after its start event: its passes, calls, events, success and escape |
| Execute.RunLive | packages/core/src/engine.ts:1930-1936 | a stream as a path: what escapes, what prospers, its result and the number of opens its last event names |
| Execute.RunOnce | packages/core/src/engine.ts:1724-1743 | build, start, run: the chain's events, outcome and escape behind the start event, or the error before it |
| Execute.Dispatch | packages/core/src/engine.ts:1921-1952 | which path a valid input takes |
| Execute.Execute | packages/core/src/engine.ts:1890-1953 | a call makes the passes its path asks for and exactly their calls, and holds no slot afterwards; other than a stream it yields exactly the events of those passes and what they come to; it succeeds, and an exception escapes, exactly for the listed reasons, and otherwise it is one well-formed run whose result, if it succeeds, is the chain's value, all pages' items in order, the stored or shared data, or all chunks, each with its own status; its last event names the attempts made; past its deadline it spends only the time of the store, of a followed leader and of user code |
| Execute.RunValid | packages/core/src/engine.ts:1909-1953 | the same for an input that is valid |
| Execute.TameNeverEscapes | packages/core/src/engine.ts:1890-1953 | if nothing outside the `try`s throws and everything caught has a string form, no exception escapes |
| Execute.InvalidDateEscapes | packages/core/src/engine.ts:1792-1798 | a body with an invalid date at any depth and nothing unhashable lets an exception out of the cached path |
| Execute.ThrowingCheckEscapes | packages/core/src/engine.ts:1350-1353 | a throwing validator lets one out after an accepted response, after the last page and on a checked hit |
| Execute.ThrowingHookEscapes | packages/core/src/engine.ts:1518-1525 | a throwing `onError` hook lets one out of a stream whose first open fails |
| Execute.WordlessFailureEscapesIff | packages/core/src/engine.ts:798-833 | a first request that fails with a value without a string form is not tried again, and lets an exception out if and only if no attempt is left or the caller aborted |
| Outcomes.PlainMeans | packages/core/src/engine.ts:1310-1396 | a plain call succeeds if and only if its pass ends in an accepted response, user code does not throw and no finding is fatal; it escapes if and only if what ended the pass cannot be said or user code throws behind an accepted response |
| Outcomes.LookupMeans | packages/core/src/engine.ts:1772-1887 | when a stored value is served, when a shared one, when the lookup throws, in terms of the key, the hit, its check and the leader |
| Outcomes.CachedMeans | packages/core/src/engine.ts:1748-1888 | a cached call succeeds if it is served, or else as a plain one does |
| Outcomes.FollowedIff | packages/core/src/engine.ts:1071-1127 | another page is fetched if and only if this one was accepted and read, had items, is below the cap and names a successor |
| Outcomes.PagesMean | packages/core/src/engine.ts:1051-1150 | when a paginated call succeeds and when it escapes, by its last page and the check of the whole |
| Outcomes.LiveMeans | packages/core/src/engine.ts:1407-1702 | a stream succeeds if and only if the last body it opened ran out |
| Outcomes.UnbuildableMeans | packages/core/src/engine.ts:1729-1739 | a request that cannot be built never succeeds |
| Outcomes.UnboundedTime | packages/core/src/engine.ts:1748-1888 | which times count past the deadline |
| Outcomes.PassTells | packages/core/src/engine.ts:978-1025 | a pass yields its visits' events, and last that the breaker is open, found or made |
| Outcomes.PagesTellInOrder | packages/core/src/engine.ts:1071-1126 | page by page, each pass behind the last, with the page's number if it was read |
| Outcomes.CallsBegin | packages/core/src/engine.ts:1921-1927 | a warning if there is one, then the start |
| Outcomes.NothingStarted | packages/core/src/engine.ts:1909-1920 | a call that never starts says so once, if it can |
| Outcomes.LookupTells | packages/core/src/engine.ts:1772-1887 | what a cached call says before its answer or its run |
| Streaming.RunStreaming | packages/core/src/engine.ts:1407-1702 | the emitted deltas are the collected chunks, a finished run's result is all of them with the status of the last open, each open announces its request and each reopening one reconnect, events name their own open, and the run ends in one terminal pair that names the number of opens, unless an exception escapes |
| Streaming.InTurnMeans | packages/core/src/engine.ts:1407-1702 | position by position: a request and a reconnect name the open they belong to, and every delta stands behind the request of its own open |
| Streaming.ReconnectLoop | packages/core/src/engine.ts:1651-1698 | the loop computes the run the next lemmas are about |
| Streaming.OneConnection | packages/core/src/engine.ts:1651-1698 | one open and the decision whether to reconnect |
| Streaming.Decide | packages/core/src/engine.ts:1660-1697 | it reconnects exactly after a recoverable drop with attempts left and no abort, and then says so once |
| Streaming.OpenAndDecode | packages/core/src/engine.ts:1472-1643 | one open emits exactly the chunks it adds |
| Streaming.ReadBody | packages/core/src/engine.ts:1567-1642 | a body delivers a prefix of what the server offers, and leaves the token of the last checked chunk that has one |
| Streaming.Decode | packages/core/src/engine.ts:1593-1634 | each delivered chunk becomes one delta, in order |
| Streaming.NewToken | packages/core/src/engine.ts:1583-1586 | the token is the last one seen |
| Streaming.DriveExactlyOnce | packages/core/src/engine.ts:1460-1702 | when ids never stop once begun and no check throws, the deltas are a prefix of the server's sequence under every pattern of failures |
| Streaming.RelapseRepeats | packages/core/src/engine.ts:1651-1679 | an id-less event behind an id-carrying one is delivered twice after one drop |
| Streaming.ExactlyOnceIff | packages/core/src/engine.ts:1460-1702 | for a stitch that reconnects and checks that do not throw, exactly-once under all failures if and only if no id-less event follows one with an id |
| Streaming.ThrowingCheckSkips | packages/core/src/engine.ts:1583-1639 | an id-carrying chunk whose check throws is never delivered, and the run finishes behind it |
| Streaming.ExactlyOnceDespiteThrowsIff | packages/core/src/engine.ts:1460-1702 | with checks that may throw, exactly-once if and only if no event but the last carries an id |
| Streaming.WithoutResumeOneOpen | packages/core/src/engine.ts:1672-1690 | a stitch that cannot resume opens once and delivers a prefix |
| Streaming.OnlyLostConnectionsAreReopened | packages/core/src/engine.ts:1651-1698 | at most `maxAttempts + 1` opens, and every open but the last was a lost connection: never a clean close, a refusal or an abort |
| Streaming.EscapesIff | packages/core/src/engine.ts:1472-1698 | an exception escapes if and only if the last open threw outside every `try`, or gave up on something without a string form, or its reopening was decided and the wait before it cut short |
| Streaming.EachThrowEscapes | packages/core/src/engine.ts:1491-1698 | each of these on its own lets an exception out |
| StreamEnds.FinishedIff | packages/core/src/engine.ts:1472-1702 | a stream succeeds if and only if the last body it opened ran out: a denied slot, a refused status, a drop, an abort or a broken contract never end well |
| StreamEnds.FinishedIsWholeIff | packages/core/src/engine.ts:1472-1702 | when ids never stop once begun and no check throws, a finished run collected the whole sequence if and only if its last body gave all that was left |
| StreamEnds.OneOpenDelivers | packages/core/src/engine.ts:1567-1642 | a stitch that cannot resume delivers exactly what its one body gives |
| StreamEnds.LostConnectionIsReopened | packages/core/src/engine.ts:1651-1698 | a connection lost with reopenings left is opened again, if nothing was delivered or there is a token to go on from |
| StreamEnds.EveryOpenIsTried | packages/core/src/engine.ts:1651-1724 | against a server never reached every allowed open is made, three reopenings unless configured, and the run fails |
| StreamEnds.DropsAreResumed | packages/core/src/engine.ts:1651-1698 | against bodies that break off after one chunk each, as many chunks arrive as there are opens, in order, none twice |
| SigV4.Utf8RoundTrip | packages/aws-sigv4/src/index.ts:58-60 | the byte encoding is undone by decoding |
| SigV4.UriEncode | packages/aws-sigv4/src/index.ts:99-109 | the loop's output decodes to its input |
| SigV4.UriEncodeRoundTrip | packages/aws-sigv4/src/index.ts:99-109 | percent-decoding undoes the encoding for every text, slashes encoded or not |
| SigV4.EncodedIsStrict | packages/aws-sigv4/src/index.ts:99-109 | only unreserved characters (section 2.3 of RFC 3986), `%XX` and kept slashes are emitted |
| SigV4.SplitEncodeJoin | packages/aws-sigv4/src/index.ts:111-117 | encoding segment by segment is encoding all but the slashes |
| SigV4.CanonicalUriDecodes | packages/aws-sigv4/src/index.ts:111-117 | the canonical path determines the path, up to empty and `/` being one |
| SigV4.SortSorts | packages/aws-sigv4/src/index.ts:124-130 | the pairs are sorted and none is lost |
| SigV4.BuildCanonicalQuery | packages/aws-sigv4/src/index.ts:119-134 | the loop builds the canonical query |
| SigV4.CanonicalQueryIffSameParams | packages/aws-sigv4/src/index.ts:119-134 | two canonical queries are equal if and only if the parameters are the same multiset of pairs |
| SigV4.AssembleRequest | packages/aws-sigv4/src/index.ts:172-194 | the assembled text is the canonical request of the upper-cased method and the collected, sorted headers |
| SigV4.CanonicalRequestBinds | packages/aws-sigv4/src/index.ts:172-194 | the signed text determines verb, path, query multiset, every signed header and the payload hash |
| SigV4Form.StaysIff | packages/aws-sigv4/src/index.ts:99-109 | letters, digits and `-_.~` stay as they are, and nothing else does |
| SigV4Form.EncodedAppend | packages/aws-sigv4/src/index.ts:99-109 | encoding goes character by character |
| SigV4Form.EscapeLooksLike | packages/aws-sigv4/src/index.ts:104-107 | a percent sign and two upper-case hex digits, the high one first |
| SigV4Form.Utf8Examples | packages/aws-sigv4/src/index.ts:58-60 | the four lengths of a character, by the examples of section 7 of RFC 3629 |
| SigV4Form.PathLooksLike | packages/aws-sigv4/src/index.ts:111-117 | the path is its encoded segments with the slashes between |
| SigV4Form.SortAscending | packages/aws-sigv4/src/index.ts:122-131 | pairs ascend by encoded name, then by encoded value |
| SigV4Form.QueryLooksLike | packages/aws-sigv4/src/index.ts:119-134 | name, `=` and value of each pair, `&` between |
| SigV4Form.ValueTrimmed | packages/aws-sigv4/src/index.ts:174-176 | a header value loses the blanks around it |
| SigV4Form.WordsSqueezed | packages/aws-sigv4/src/index.ts:174-176 | and a run of blanks inside becomes one space |
| SigV4Form.CollectedMeans | packages/aws-sigv4/src/index.ts:173-176 | each name once, in lower case, with the value it was given last |
| SigV4Form.SignedMeans | packages/aws-sigv4/src/index.ts:173-178 | the collected headers are signed, and the URL's host if none was given |
| SigV4Form.RequestLines | packages/aws-sigv4/src/index.ts:179-190 | the request line by line: verb, path, query, headers, an empty line, the signed names, the payload's hash |
| Shell.Tokenize | packages/core/src/from-curl.ts:36-88 | the loop computes the tokens of the tokenizer's grammar |
| Shell.ArgReadsBack | packages/core/src/cli.ts:1076-1080 | a quoted argument is read back as one token in progress, whatever follows |
| Shell.TokenizeUndoesQuoting | packages/core/src/cli.ts:1076-1102 | quoting a list, joining it with spaces and tokenizing gives the list back, whatever the strings hold |
| Shell.DoubleQuotedIsRead | packages/core/src/from-curl.ts:44-56 | inside double quotes all but quote and backslash stands for itself |
| Shell.BackslashIsRead | packages/core/src/from-curl.ts:44-76 | a backslash takes the next character as it is, but inside single quotes it stands for itself |
| Shell.ContinuedLine | packages/core/src/from-curl.ts:62-72 | a backslash at a line's end goes on with the next line |
| Shell.BlanksSeparate | packages/core/src/from-curl.ts:76-84 | blanks end a token, and more of them make no more tokens |
| Shell.RefreshCommand | packages/core/src/cli.ts:1087-1102 | the printed command is read back as the intended argument list, for every module path |
| JsLiteral.SequentialEqualsPerCharacter | packages/core/src/from-curl.ts:574-582 | the six sequential replacements are one escape per character |
| JsLiteral.QuoteReadsBack | packages/core/src/from-curl.ts:574-582 | reading the literal by the JavaScript grammar (section 12.9.4 of ECMA-262) returns the original |
| JsLiteral.BodyIsEnclosed | packages/core/src/from-curl.ts:574-582 | inside the literal there is no line terminator and no unescaped quote |
| Lexers.NeutralizeCommentsAndStrings | docs/sandbox/runtime/transpile.ts:265-350 | the loop computes the blanked source |
| Lexers.NeutralTurn | docs/sandbox/runtime/transpile.ts:273-348 | one turn of the loop makes progress and appends what the blanked source holds next |
| Lexers.StripCommentsAndStrings | docs/sandbox/contracts/scan-surface.ts:75-161 | the loop computes the stripped source |
| Lexers.StripTurn | docs/sandbox/contracts/scan-surface.ts:81-160 | one turn of the loop makes progress and appends what the stripped source holds next |
| Lexers.NeutralKeepsLayout | docs/sandbox/runtime/transpile.ts:265-350 | same length, newlines exactly where they were, every other character kept or blanked |
| Lexers.NeutralIsIdempotent | docs/sandbox/runtime/transpile.ts:265-350 | blanking twice is blanking once |
| Lexers.LexersAgree | docs/sandbox/contracts/scan-surface.ts:75-161 | on every source both lexers leave the same code once spaces and newlines are removed |
| Lexers.PlainCodeStays | docs/sandbox/runtime/transpile.ts:265-350 | in both lexers, code without quotes and slashes stays |
| Lexers.LineCommentGoes | docs/sandbox/runtime/transpile.ts:265-350 | in both, two slashes open a comment that the newline ends |
| Lexers.BlockCommentGoes | docs/sandbox/runtime/transpile.ts:265-350 | in both, a slash and a star open a comment that the next star and slash close |
| Lexers.LiteralGoes | docs/sandbox/runtime/transpile.ts:265-350 | in both, a quote opens a literal that the same quote closes, whatever other quotes it holds |
| Lexers.EscapedInLiteral | docs/sandbox/runtime/transpile.ts:265-350 | in both, a backslash takes the next character with it |

## Left out

- Text: a Dafny `char` is a Unicode scalar value, so lone surrogates and splitting a pair into code units are not modelled; `UriEncode` rejects such text in the original.
- Numbers are integers plus negative zero, not-a-number and non-finite markers: how JSON prints a fraction is not part of this model.
- Upper- and lower-casing covers the ASCII letters that method and header names are made of.
- Objects are finite maps with a key order; getters, prototypes, a `__proto__` key and cyclic values are not modelled.
- Drift: `ignore` is an arbitrary predicate on rendered paths; glob matching and `validationErrors` are left out.
- The URL parser and `xxh128` are arbitrary functions; the fingerprint ladder, its token strings and the TTL are left out, expiry being an arbitrary loss of entries at any time.
- RequestKey.EqualSeedsMeanSameRequest: holds for bodies without an array hole at the root, which no body can be.
- StoreKeys.BumpStrandsEarlierEntries: needs each bump to draw a generation no earlier draw used and the store did not hold, since the code draws at random.
- VaryCache.HitsAreSound: sequential operations on one store; concurrent writers of one base key are covered only by the set of readable results in `CacheProtocol`.
- VaryCache: eviction is applied at once; the original lets a failing eviction pass silently.
- CacheProtocol: a call is driven to completion and the store does not reject; the entries of one base key under different `Vary` headers are collapsed to the set of results that may be read.
- Coalescer.InflightCoalescer.Join: a signal is aborted before the call, fires later at most once, or never; the listener itself is `Abort`.
- Attempts.Runtime.AcquireWithin: the race of grant, deadline and abort is decided in one step, ties going either way; the limiter's queue, rate spacing and the streaming path's rate-only acquire are left out.
- Attempts.Runtime.Transport: a response that arrives just as its limit runs out counts as in time; hooks, auth and its refresh take no time inside the loop, throw at most once per attempt, and one clock drives deadline and sleeps.
- Streaming.RunStreaming: the streaming path's clock, its deadline and its rate-only acquire are events of the outside world (a denied open, a backoff cut short); nothing bounds the wait for its response or body, and neither its time nor the throttle's notes are modelled.
- Execute: the breaker's own state machine, trace spans, time stamps and error texts, but for whether there is one, are left out; so are consumers that abandon the generator.
- Execute.Execute: the deadline clause is about the paths other than streams; it counts the time of the store, the breaker's store, a followed leader, the input schema, `transform`, validators and page readers, and takes building, key derivation and loading the cache to be instant. A store that rejects, and a cache controller that cannot be loaded, are left out; they too would let an exception out.
- CachedCall.LateFollower: how long a follower waits is an input of the call; that the wait ends with its leader's settling is `FollowsUntil`.
- RequestKey.KeyThrowsIffDateInside: for a body with both an invalid date and something unhashable, which of the two is met first decides (`KeyThrowsIff`).
- Streaming: the pair of resume hooks is present or absent as one; a duration of the backoff and the decoding of frames are left out.
- Streaming.ExactlyOnceIff: ids are unique and the server understands each id it issued, an empty one included, as the replay rule presupposes (section 9.2 of the HTML Standard); a stitch that cannot resume is `WithoutResumeOneOpen`.
- SigV4: the hash, the key derivation and the signature are left out; header names and values are taken to be what HTTP allows.
- Shell.RefreshCommand: the caller prints the command only for a non-empty list of stale files.
- `mergeInput`, request building, downloads, config description, adapters, OAuth and header auth strategies, rule templates and HAR or schema text are left out: no hard invariant.
