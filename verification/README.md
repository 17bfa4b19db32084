# Verified models of the broker's bookkeeping

This project models, in Dafny, the parts of the broker whose correctness does not show in any single
function: structures that must agree with each other, protocols whose steps interleave, a lexer and a
parser that lean on each other, and searches whose verdicts must mean something. Each part has a
specification by pure functions, the code in the form it has in the broker (classes and loops that change
fields in place) proved against that specification, and theorems about whole runs.

`dafny verify dfyconfig.toml` checks everything.

| files | what they model |
|---|---|
| `Digests`, `ExpirationTracker`, `JwtStore`, `JwtStoreFacts`, `DirJwtStore`, `StoreRuns` | the JWT store: a heap with back pointers, an index, a list of recent use and a running hash, all mirroring a directory |
| `JwtPacks`, `Convergence` | packing and merging: how stores on several servers come to hold the same JWTs |
| `ConfLex`, `ConfLexer`, `ConfSafety`, `ConfFuel`, `ConfParse`, `ConfParser`, `ConfRun`, `ConfRoundTrip`, `ConfQuirks` | the configuration language: lexer, parser, the two together, reading back what is printed, and where it reads something unexpected |
| `Subjects` | subjects with wildcards: subset and collision tests, and what they mean |
| `SubTrie`, `SubLiteral`, `SubResults`, `Sublist` | the subscription list: a tree by tokens, and a cache of results in front of it |
| `ImportSearch`, `ImportWalks`, `ImportRuns` | the search that keeps stream imports from forming a cycle |
| `Responses`, `ResponseRuns` | service responses: the maps of exporter and requester under concurrent use |
| `WeightedMappings`, `WeightedAccounts` | weighted subject mappings |
| `Products`, `PermissionTemplates`, `PermissionLimits` | permission templates |
| `SharedLocks` | the lock table that brokers share |
| `RemoteConns`, `RemoteServers` | connection totals over all servers |
| `AccountFetch` | looking an account up on other servers |
| `Basics`, `Text` | options, 64-bit integers, splitting, joining and lower case |

## Where code and intention differ

The models do what the code does. In these places that is not what its comments or names promise, and a
lemma says exactly when.

- A ttl of the largest integer is meant to switch expiry off. Tracking a key honours that, using a key does
  not: its new expiration wraps around and it is due at once (`StoreRuns.MaxTtlPromise`,
  `StoreRuns.MaxTtlRun`).
- Of two JWTs of one key with the same issue time the one that arrives last stays, so that the order of
  merging matters exactly for equal times (`Convergence.TiesDependOnOrder`).
- Merging is described as replacing what is there; it keeps what is newer (`Convergence.SaveKeepsNewer`).
- The expiry loop stops at the earliest item if its file cannot be removed, so that later items wait behind
  it: a pass leaves something due if and only if something due cannot be removed (`JwtStoreFacts.PassLeaves`).
- A token that only begins like a wildcard is taken for one by the subset and collision tests
  (`Subjects.SubsetMeansCovers`, `Subjects.CollideMeansMeet`, `Subjects.CollideIsMeet`).
- A subscription with an invalid subject is refused, but the nodes made on the way to the bad token stay
  (`SubTrie.InvalidPrunes`). A subscription inserted twice is counted twice
  (`Sublists.Sublist.Insert`).
- A remote queue subscription is listed by a lookup as often as it weighs, but added to a cached result once, so
  that the two differ exactly if it does not weigh one (`SubResults.CachedIsLookedUp`).
- The import search refuses imports that come together again although they form no cycle
  (`ImportRuns.RefusedUnlessTidy`), and it narrows its subject along the way, so that with wildcards it can miss
  a cycle. It misses none as long as an import is taken in by every import it collides with, which literal ones
  always are (`ImportRuns.RunsHaveNoCycle`); and for any two subjects that are not so some run goes wrong
  (`ImportRuns.NarrowingMissesCycle`). With renamed imports it can miss a cycle of literal ones
  (`ImportRuns.RenamingMissesCycle`).
- A response may be removed before its reverse entry is there. The entry is then left behind, leading nowhere,
  if and only if the section that looks for it runs before the one that makes it, and neither a second removal
  nor loss of interest comes after (`ResponseRuns.LeadsNowhere`).
- Unlocking looks a tenant up in lower case while locking keeps the global account's name as it is, so that
  the global account's locks are freed by the sweep alone (`SharedLocks.UnlockFindsLock`), and that its
  unlocking may free the lock of a tenant with its name in lower case (`SharedLocks.LowGlobalIsShared`).
- When an account is over its limit of connections a variable is declared anew, so that the connections to shed
  are worked out and lost, and only leaf connections are ever shed (`RemoteConns.ShedIsMeant`).
- An account's figures do not go by the sequence number that the server table goes by: they are those of the
  report that came last (`RemoteServers.FiguresAreNewest`).
- In the configuration language a number directly before a closing bracket is read as a string
  (`ConfQuirks.DigitsAreInteger`), a number with an unknown suffix sets no value, so that the map around it is
  stored under its key (`ConfQuirks.SuffixSets`, `ConfQuirks.MapTakesLeftKey`), and a block string that ends the
  input keeps its parenthesis (`ConfQuirks.BlockKeepsParenthesis`).

## Model

| member | source | states |
|---|---|---|
| `Digests.XorAssign` | server/dirstore.go:549-554 | in place, every byte of the left digest becomes its exclusive or with the right one |
| `Digests.XorCancels` | server/dirstore.go:549-554 | taking a digest in twice takes it out again |
| `Digests.XorAllTake` | server/dirstore.go:549-564 | the exclusive or of all digests of a map does not depend on which key is taken first |
| `Digests.XorAllSet` | server/dirstore.go:643-670 | replacing a key's digest in the running hash gives the hash of the replaced map, whether or not the key was there |
| `Digests.XorAllDrop` | server/dirstore.go:635-641 | taking a key's digest out of the running hash gives the hash of the map without the key |
| `ExpirationTracking.ExpirationTracker.constructor` | server/dirstore.go:680-694 | an empty tracker satisfies the invariant that every method keeps: the heap is ordered, each item knows its position, the index holds exactly the heap's keys, each index entry is the list element of that key's item, and the hash is the exclusive or of all digests |
| `ExpirationTracking.ExpirationTracker.Reset` | server/dirstore.go:347-351 | clearing the four structures gives an empty, valid tracker |
| `ExpirationTracking.ExpirationTracker.Swap` | server/dirstore.go:594-599 | exchanges two items and their positions, keeping index and position in agreement |
| `ExpirationTracking.ExpirationTracker.Up` | server/dirstore.go:589-607 | the sift-up of container/heap restores heap order after one item may be too small |
| `ExpirationTracking.ExpirationTracker.LeastChild` | server/dirstore.go:589-592 | finds a child that is no later than the other |
| `ExpirationTracking.ExpirationTracker.Down` | server/dirstore.go:589-599 | the sift-down of container/heap restores heap order below an item, and says whether it moved |
| `ExpirationTracking.ExpirationTracker.Push` | server/dirstore.go:601-607 | an item goes to the end of the heap, into the index and to the back of the list |
| `ExpirationTracking.ExpirationTracker.Pop` | server/dirstore.go:609-619 | the last item leaves the heap, the index and the list together |
| `ExpirationTracking.ExpirationTracker.HeapPush` | server/dirstore.go:601-607 | heap.Push keeps all structures in accord and adds exactly the item |
| `ExpirationTracking.ExpirationTracker.Fix` | server/dirstore.go:621-633 | heap.Fix restores heap order after one expiration has changed |
| `ExpirationTracking.ExpirationTracker.HeapRemove` | server/dirstore.go:609-619 | heap.Remove takes exactly the item at a position out of all structures |
| `ExpirationTracking.ExpirationTracker.ListIsPermutation` | server/dirstore.go:587-619 | the list of recent use is a permutation of the heap |
| `ExpirationTracking.ExpirationTracker.RootIsEarliest` | server/dirstore.go:589-592 | no tracked key is due before the item at the root |
| `ExpirationTracking.ExpirationTracker.UpdateTrack` | server/dirstore.go:621-633 | using a key moves its expiration by the ttl and, in an evicting store, the key to the back of the list; an unknown key changes nothing |
| `ExpirationTracking.ExpirationTracker.UnTrack` | server/dirstore.go:635-641 | a tracked key leaves all structures and its digest the hash; an unknown key changes nothing |
| `ExpirationTracking.ExpirationTracker.PopExpired` | server/dirstore.go:701-713 | popping the due item, untracking it and taking its digest out removes it everywhere, and the digest exactly once |
| `ExpirationTracking.ExpirationTracker.Track` | server/dirstore.go:643-670 | a key gets its expiration and digest, as a new item or in the one it has, and the hash follows |
| `JwtStoreFacts.TrackAllSynced` | server/dirstore.go:339-375 | reading the directory again, in any order, tracks exactly its files with their digests |
| `JwtStoreFacts.TouchKeeps` | server/dirstore.go:395-410 | loading keeps tracker and directory in accord |
| `JwtStoreFacts.WriteKeeps` | server/dirstore.go:412-447 | writing, evicting and failing to do either keep tracker and directory in accord |
| `JwtStoreFacts.RemoveKeeps` | server/dirstore.go:449-476 | removing a file and its item keeps tracker and directory in accord |
| `JwtStoreFacts.UpdateShape` | server/dirstore.go:412-447 | a write of a key that is there changes no other file and no other key's place |
| `JwtStoreFacts.AdditionShape` | server/dirstore.go:412-447 | a write with room to spare adds the key last, or changes nothing |
| `JwtStoreFacts.EvictionShape` | server/dirstore.go:412-447 | a write to a full store takes away the first key of the list, or changes nothing |
| `JwtStoreFacts.ExpireStep` | server/dirstore.go:701-716 | what the expiry loop has removed so far was due when it was removed, and each key is removed once |
| `JwtStoreFacts.PassLeaves` | server/dirstore.go:701-716 | a pass leaves a key that is due if and only if there was one that is due and cannot be removed; then it leaves none that is due before every such key, and all that are due after one |
| `DirJwtStores.DirJwtStore.constructor` | server/dirstore.go:150-191 | opening a directory tracks each of its files |
| `DirJwtStores.DirJwtStore.TrackFiles` | server/dirstore.go:339-375 | the walk over the directory tracks every file, each time with the invariant in place |
| `DirJwtStores.DirJwtStore.Reload` | server/dirstore.go:339-375 | a reload forgets everything and tracks what is there |
| `DirJwtStores.DirJwtStore.Load` | server/dirstore.go:395-410 | gives the file of a valid key that has one, and counts as using it |
| `DirJwtStores.DirJwtStore.MakeRoom` | server/dirstore.go:421-432 | a full store gives up its least recently used key if it may and can, and is unchanged otherwise |
| `DirJwtStores.DirJwtStore.Write` | server/dirstore.go:412-447 | keeps tracker and directory in accord on every path, including failed writes and evictions |
| `DirJwtStores.DirJwtStore.Save` | server/dirstore.go:478-504 | refuses a read-only store and an invalid key, and writes otherwise |
| `DirJwtStores.DirJwtStore.SaveIfNewer` | server/dirstore.go:506-547 | writes a key without a file as it comes, and otherwise only what decodes, is another JWT, is not older and has the right subject |
| `DirJwtStores.DirJwtStore.Delete` | server/dirstore.go:449-476 | removes or renames the file if deletion is enabled, and then untracks the key |
| `DirJwtStores.DirJwtStore.Hash` | server/dirstore.go:556-564 | the digest sent to other servers is the exclusive or of the digests of all files |
| `DirJwtStores.DirJwtStore.ExpireFirst` | server/dirstore.go:704-713 | one round of the expiry loop removes exactly the earliest key |
| `DirJwtStores.DirJwtStore.ExpirePass` | server/dirstore.go:701-716 | the loop ends; it removed only keys that were due when it removed them, and stops only when the earliest key is not due or its file cannot be removed |
| `DirJwtStores.DirJwtStore.PackWalk` | server/dirstore.go:267-313 | for a positive maximum the messages partition the indexed, unexpired, non-empty files of the walk into messages of at most that many lines; otherwise it fails |
| `DirJwtStores.DirJwtStore.Sendable` | server/dirstore.go:281-296 | says which files a walk skips: those that are not indexed, empty or expired |
| `DirJwtStores.DirJwtStore.Merge` | server/dirstore.go:318-337 | saves the lines of a pack one after the other; the first bad line stops it and leaves those before it |
| `StoreRuns.NextKeeps` | server/dirstore.go:395-547 | every operation keeps tracker and directory in accord |
| `StoreRuns.RunKeeps` | server/dirstore.go:412-474 | after every run the tracked keys are exactly the files, each item's digest is that of its file, and the hash is their exclusive or |
| `StoreRuns.HashForgetsHistory` | server/dirstore.go:549-564 | two stores with the same files have the same hash, whatever their histories |
| `StoreRuns.RunByLastTouch` | server/dirstore.go:621-633 | in every run of an evicting store the list is ordered by last load or write |
| `StoreRuns.VictimIsLeastRecent` | server/dirstore.go:412-447 | the key that a write takes away was used longest ago, the store was full, and all other keys stay |
| `StoreRuns.WriteCount` | server/dirstore.go:412-447 | a write never grows the number of keys past the larger of the number before and the limit |
| `StoreRuns.FullStoreRejects` | server/dirstore.go:421-432 | a full store that does not evict rejects a new key and is unchanged |
| `StoreRuns.RunCount` | server/dirstore.go:412-447 | a store that starts within its limit stays within it |
| `StoreRuns.MaxTtlPromise` | server/dirstore.go:621-633 | with the largest ttl, meant to switch expiry off, every operation keeps all keys from falling due if and only if it does not use a key without tracking it anew; the key it uses is then due at once, by wrap-around |
| `StoreRuns.MaxTtlRun` | server/dirstore.go:621-670 | so expiry stays off throughout a run if and only if no load finds a key and no save, of either kind, stops after refreshing one |
| `JwtPacks.LineRoundTrip` | server/dirstore.go:299-327 | splitting a line gives back the key and the JWT, when neither holds a separator |
| `JwtPacks.MessageRoundTrip` | server/dirstore.go:299-337 | splitting a message gives back its lines |
| `JwtPacks.PackedIs` | server/dirstore.go:272-313 | the pairs that are packed are exactly those of the packable files |
| `Convergence.SaveKeepsNewer` | server/dirstore.go:506-547 | saveIfNewer keeps the newer of two JWTs, so a key's issue time never goes down |
| `Convergence.IssueTimesRise` | server/dirstore.go:506-547 | also in any store, whatever its configuration and however the disk fails |
| `Convergence.AbsorbIsNewest` | server/dirstore.go:506-547 | saving any JWTs one after the other leaves the newest of each key |
| `Convergence.MergeOrderIsFree` | server/dirstore.go:318-337 | the same JWTs in another order, or repeated, leave the same files |
| `Convergence.TiesDependOnOrder` | server/dirstore.go:506-547 | for two JWTs of a key the order does not matter if and only if their issue times differ |
| `Convergence.NewestIsUnique` | server/dirstore.go:506-547 | the newest JWTs of each key are determined |
| `Convergence.MergeAllAbsorbs` | server/dirstore.go:318-337 | merging the messages of a pack saves exactly its JWTs, without an error |
| `Convergence.PackReaches` | server/accounts.go:4131-4173 | merging all that another store sends gives the newest of both |
| `Convergence.ExchangeConverges` | server/accounts.go:4131-4173 | two stores that ask each other in turn end with equal hashes, and with equal files, the newest of both, unless equal hashes hid a difference before |
| `ConfLexing.Lexer.constructor` | conf/lex.go:131-141 | a lexer at the start of its input |
| `ConfLexing.Lexer.Push` | conf/lex.go:143-145 | puts a state on the stack |
| `ConfLexing.Lexer.Pop` | conf/lex.go:147-155 | takes the last state off the stack; an empty stack is an error item and the nil state |
| `ConfLexing.Lexer.Emit` | conf/lex.go:157-165 | sends the string parts and the pending text, and keeps the parts |
| `ConfLexing.Lexer.EmitString` | conf/lex.go:167-180 | sends the string parts and the pending text, and clears the parts |
| `ConfLexing.Lexer.AddCurrentStringPart` | conf/lex.go:182-185 | the text before an escape becomes a part |
| `ConfLexing.Lexer.AddStringPart` | conf/lex.go:187-191 | an escaped character becomes a part, and the string goes on in the state it was in |
| `ConfLexing.Lexer.NextRune` | conf/lex.go:197-214 | reads a character, or stays at the end |
| `ConfLexing.Lexer.Backup` | conf/lex.go:222-227 | undoes the last read |
| `ConfLexing.Lexer.Peek` | conf/lex.go:230-234 | looks at the next character without reading it |
| `ConfLexing.Lexer.LexTop` | conf/lex.go:258-291 | does what the look-ahead form says: keys, comments and the end at the top |
| `ConfLexing.Lexer.LexTopValueEnd` | conf/lex.go:296-319 | what may follow a value at the top |
| `ConfLexing.Lexer.LexKeyStart` | conf/lex.go:323-341 | the start of a key |
| `ConfLexing.Lexer.LexQuotedKey` | conf/lex.go:344-377 | a key in quotes of either kind |
| `ConfLexing.Lexer.KeyCheckKeyword` | conf/lex.go:381-393 | a key, or the include keyword |
| `ConfLexing.Lexer.LexKey` | conf/lex.go:488-501 | a bare key |
| `ConfLexing.Lexer.LexKeyEnd` | conf/lex.go:505-519 | from a key to its value |
| `ConfLexing.Lexer.LexIncludeStart` | conf/lex.go:396-404 | blanks before the name of an included file |
| `ConfLexing.Lexer.LexInclude` | conf/lex.go:460-484 | which kind of name it is |
| `ConfLexing.Lexer.LexIncludeQuoted` | conf/lex.go:408-440 | a quoted name of either kind |
| `ConfLexing.Lexer.LexIncludeString` | conf/lex.go:442-458 | a bare name |
| `ConfLexing.Lexer.LexValue` | conf/lex.go:524-563 | which kind of value it is |
| `ConfLexing.Lexer.LexArrayValue` | conf/lex.go:568-593 | an element of an array, or its end |
| `ConfLexing.Lexer.LexArrayValueEnd` | conf/lex.go:597-620 | what may follow an element |
| `ConfLexing.Lexer.LexEnd` | conf/lex.go:624-782 | the end of an array or a map |
| `ConfLexing.Lexer.LexMapKeyStart` | conf/lex.go:633-669 | a key in a map, or its end |
| `ConfLexing.Lexer.LexMapQuotedKey` | conf/lex.go:673-697 | a quoted key in a map |
| `ConfLexing.Lexer.LexMapKey` | conf/lex.go:700-715 | a bare key in a map |
| `ConfLexing.Lexer.LexMapKeyEnd` | conf/lex.go:718-730 | from a key to its value in a map |
| `ConfLexing.Lexer.LexMapValue` | conf/lex.go:734-746 | the value of a key in a map |
| `ConfLexing.Lexer.LexMapValueEnd` | conf/lex.go:751-774 | what may follow a value in a map |
| `ConfLexing.Lexer.LexQuotedString` | conf/lex.go:807-825 | a string in single quotes |
| `ConfLexing.Lexer.LexDubQuotedString` | conf/lex.go:829-848 | a string in double quotes, with escapes |
| `ConfLexing.Lexer.IsVariable` | conf/lex.go:793-803 | a bare string that begins with a dollar sign is a variable |
| `ConfLexing.Lexer.LexString` | conf/lex.go:852-882 | a bare string: a string, a boolean word or a variable |
| `ConfLexing.Lexer.LexBlock` | conf/lex.go:887-918 | a string in parentheses |
| `ConfLexing.Lexer.LexStringEscape` | conf/lex.go:922-939 | an escape in a string |
| `ConfLexing.Lexer.LexStringBinary` | conf/lex.go:944-961 | a character in hexadecimal |
| `ConfLexing.Lexer.LexNumberOrDateOrStringOrIPStart` | conf/lex.go:966-976 | the first digit |
| `ConfLexing.Lexer.LexNumberOrDateOrStringOrIP` | conf/lex.go:980-1003 | what began with a digit |
| `ConfLexing.Lexer.LexConvenientNumber` | conf/lex.go:1007-1022 | a number with a suffix |
| `ConfLexing.Lexer.LexDateAfterYear` | conf/lex.go:1025-1050 | a date, after its year |
| `ConfLexing.Lexer.LexNegNumberStart` | conf/lex.go:1053-1063 | the first digit after a minus sign |
| `ConfLexing.Lexer.LexNegNumber` | conf/lex.go:1066-1080 | a negative number |
| `ConfLexing.Lexer.LexFloatStart` | conf/lex.go:1083-1091 | the first digit after a point |
| `ConfLexing.Lexer.LexFloat` | conf/lex.go:1094-1107 | a number with a point, or an address |
| `ConfLexing.Lexer.LexIPAddr` | conf/lex.go:1111-1119 | an address |
| `ConfLexing.Lexer.LexComment` | conf/lex.go:1132-1140 | a comment up to the end of its line |
| `ConfLexing.Lexer.RunState` | conf/lex.go:120-129 | whatever the state, reading and backing up comes to exactly one step of the look-ahead machine |
| `ConfSafety.NextStepsWell` | conf/lex.go:258-1148 | from every state that can be reached, every step of the lexer leaves slices in bounds and a stack of states that mirrors the open containers, and sends at most one item, which the parser can take; no nil state is run, and no string part is left for the next string |
| `ConfFuel.NextShrinks` | conf/lex.go:258-1148 | every step of the lexer lowers a measure of unread input, state and stack, although many states read nothing |
| `ConfRun.ItemIsTaken` | conf/parse.go:218-328 | the parser never finds its stack of contexts or of keys too short for the item it gets |
| `ConfRun.ProcessKinds` | conf/parse.go:218-328 | what each item does to the stacks is what the lexer counts on |
| `ConfRun.MoveKeeps` | conf/parse.go:139-168 | a step of lexer or parser, on any input, leaves everything in place for the next |
| `ConfRun.EveryRunIsSafe` | conf/parse.go:139-216 | on every run over every input all this holds in every state, and the run is at most linear in the input |
| `ConfRun.RunsAreShort` | conf/parse.go:139-168 | every run ends after at most 24 moves a character and 19 more states |
| `ConfParsing.Parser.constructor` | conf/parse.go:139-149 | a parser with the outermost map open and nothing read |
| `ConfParsing.Parser.PushContext` | conf/parse.go:174-177 | opens a map or an array |
| `ConfParsing.Parser.PopContext` | conf/parse.go:179-188 | leaves the innermost one; there always is one |
| `ConfParsing.Parser.PopKey` | conf/parse.go:194-202 | takes the last key; there always is one |
| `ConfParsing.Parser.SetValue` | conf/parse.go:425-453 | puts a value into the innermost array, or under the last key into the innermost map |
| `ConfParsing.Parser.LookupVariable` | conf/parse.go:394-421 | the value of a variable in the innermost map that has it, else in the environment |
| `ConfParsing.Parser.LastDigit` | conf/parse.go:278-287 | how far the digits and signs of a number go |
| `ConfParsing.Parser.ProcessItem` | conf/parse.go:218-328 | what each item does to contexts and keys; suffixes multiply in 64 bits, and an unknown one sets nothing |
| `ConfParsing.Parser.NextItem` | conf/lex.go:120-129 | runs the lexer until it sends an item |
| `ConfParsing.Parser.Parse` | conf/parse.go:139-168 | the loop of lexer and parser gives exactly the outcome of the two machines run together |
| `ConfRoundTrip.DenoteElemsIs` | conf/parse.go:429-434 | an array stands for the values of its elements in order |
| `ConfRoundTrip.DenoteEntriesIs` | conf/parse.go:435-452 | a map stands, for each key, for the value of the last entry with that key |
| `ConfRoundTrip.StringParses` | conf/lex.go:829-961 | a double-quoted string with any escapes is read back exactly, and leaves no part behind |
| `ConfRoundTrip.IntParses` | conf/lex.go:966-1003 | every 64-bit integer is read back exactly |
| `ConfRoundTrip.BoolParses` | conf/lex.go:852-882 | booleans are read back |
| `ConfRoundTrip.KeyParses` | conf/lex.go:344-360 | quoted keys are read back, at the top and in maps |
| `ConfRoundTrip.ElemsParse` | conf/lex.go:568-627 | the elements of an array are read back in order |
| `ConfRoundTrip.EntriesParse` | conf/lex.go:633-782 | the entries of a map are read back, the last of two with one key |
| `ConfRoundTrip.TreeParses` | conf/parse.go:218-328 | any tree is read back wherever a value may stand, and the stacks are as before |
| `ConfRoundTrip.RoundTrip` | conf/parse.go:139-168 | printing any nested maps, arrays, strings, integers and booleans and parsing the text gives them back exactly |
| `ConfQuirks.DigitsAreInteger` | conf/lex.go:980-1004 | digits become an integer if and only if what follows them ends a number, which a closing bracket does not |
| `ConfQuirks.BracketIsRead` | conf/lex.go:980-1004 | a bracket behind digits becomes the end of a string |
| `ConfQuirks.BracketIsMissed` | conf/lex.go:980-1004 | so a text whose array ends in digits is refused |
| `ConfQuirks.SuffixSets` | conf/parse.go:247-295 | a number sets a value if and only if its suffix has a multiplier |
| `ConfQuirks.MapTakesLeftKey` | conf/parse.go:242-295 | otherwise its key waits, and takes the map around it when that is closed |
| `ConfQuirks.SuffixMovesMap` | conf/parse.go:242-295 | for instance the map under m in m { a: 1kbb } is found under a |
| `ConfQuirks.BlockKeepsParenthesis` | conf/lex.go:887-918 | a block string ends at the first parenthesis alone on its line, and keeps it if and only if it is the last character of the input |
| `Subjects.IsValidSubject` | server/sublist.go:1077-1102 | valid means no empty token, no blank and the full wildcard only at the end |
| `Subjects.IsSubsetMatch` | server/sublist.go:1311-1364 | the loop over tokens computes the recursive test |
| `Subjects.SubsetMeansCovers` | server/sublist.go:1325-1364 | the test says exactly whether every literal that the one subject stands for the other stands for too, for all subjects on the left, if and only if no token on the right is longer than a star that it begins with |
| `Subjects.AnalyzeTokens` | server/sublist.go:1188-1202 | says whether there are wildcards of either kind |
| `Subjects.SubjectsCollide` | server/sublist.go:1217-1262 | the branches and the loop compute the token-wise test |
| `Subjects.CollideMeansMeet` | server/sublist.go:1204-1262 | two subjects have a literal in common if and only if they collide and no two different non-wildcards stand against each other; so no collision is missed |
| `Subjects.CollideIsMeet` | server/sublist.go:1205-1262 | without tokens that only begin like a wildcard two subjects collide if and only if some literal matches both |
| `Subjects.MadeUpCollision` | server/sublist.go:1204-1262 | a token that only begins like a wildcard makes both tests say yes where no literal is shared |
| `ImportSearch.Search` | server/accounts.go:1529-1560 | the visited accounts only ever grow; it is defined on every graph, so the search always ends |
| `ImportAccounts.Accounts.HasExportMatching` | server/accounts.go:1519-1527 | whether some export of the account covers the subject |
| `ImportAccounts.Accounts.CheckForCycles` | server/accounts.go:1529-1560 | the recursion over one shared map of visited accounts computes the search, on any graph, and ends |
| `ImportAccounts.Accounts.FormsCycleWith` | server/accounts.go:1504-1506 | the search starts at the exporter with only the importer visited |
| `ImportAccounts.Accounts.IsAuthorized` | server/accounts.go:2538-2599 | an import is authorized only if it is valid and some export of the subject approves the account, and refused only if it is not valid, none matches or one that does disapproves; an exact export decides |
| `ImportAccounts.Accounts.HasDuplicate` | server/accounts.go:2486-2493 | whether the account has an import of the same subject from the same account |
| `ImportAccounts.Accounts.AddStreamImport` | server/accounts.go:2437-2482 | an import is added only if it is authorized, forms no cycle for the search and is no duplicate; otherwise nothing changes and the error says which, that of authorization included |
| `ImportAccounts.Accounts.AddStreamExport` | server/accounts.go:2513-2535 | afterwards an account may import the subject if and only if it is listed now, or was approved before and is not shut out by the first list, or nobody has ever been listed; no other export, import or account changes |
| `ImportWalks.PlainStays` | server/accounts.go:1549-1551 | for a literal subject the search is never narrowed |
| `ImportWalks.View.SearchIsExact` | server/accounts.go:1529-1560 | as long as no import that it comes to narrows the subject, the search finds an error if and only if some walk along the imports comes to a visited account, or two walks come to one account that goes on; and it marks exactly the accounts that go on |
| `ImportWalks.View.PlainStaysAll` | server/accounts.go:1549-1551 | a literal subject is never narrowed |
| `ImportRuns.FineIsUnreachable` | server/accounts.go:1504-1560 | if every import that collides with the subject takes in all of it, no error means that no message on the subject comes to the exporter from the importer |
| `ImportRuns.RunsHaveNoCycle` | server/accounts.go:2437-2482 | over every run of adding exports and unrenamed imports, with or without wildcards, in which each import asked for is taken in by all it collides with, no message ever has a cycle through two accounts |
| `ImportRuns.PlainRunsHaveNoCycle` | server/accounts.go:2437-2482 | in particular if the imports asked for are literal |
| `ImportRuns.NeverTooDeep` | server/accounts.go:1473-1532 | with fewer accounts than the limit the search is never too deep |
| `ImportRuns.RefusedUnlessTidy` | server/accounts.go:1529-1560 | and then, if nothing narrows it, an import passes if and only if no walk reaches the importer and none of the accounts that go on is reached twice |
| `ImportRuns.DiamondIsRefused` | server/accounts.go:1542-1552 | imports that come together again in an account with imports of its own are refused |
| `ImportRuns.RefusedWithoutCycle` | server/accounts.go:1542-1552 | also where nothing leads back to the importer |
| `ImportRuns.NarrowingMissesCycle` | server/accounts.go:1542-1552 | for any two subjects with a message in common, the second of which does not take in the first, there is a run with an import of the second in which the search lets an import of the first close a cycle |
| `ImportRuns.NarrowingHappens` | server/accounts.go:1542-1552 | for instance B has f.a from C and f.b from A, A is let import f.* from B, and a message on f.b goes round |
| `ImportRuns.RenamingMissesCycle` | server/accounts.go:2437-2482 | with renamed imports two accounts may have a subject from each other |
| `ResponseMaps.Account.AddResponse` | server/accounts.go:2369-2395 | one more response is waited for, undelivered, with its requester and reply, and it expires with the first threshold at or after its time; the others stay |
| `ResponseMaps.Account.AddReverse` | server/accounts.go:1690-1699 | the requester gets a reverse entry under its reply |
| `ResponseMaps.Account.RemoveResponse` | server/accounts.go:1645-1655 | exactly that response is waited for no longer |
| `ResponseMaps.Account.RemoveReverse` | server/accounts.go:1796-1816 | exactly the first entry of that response goes, and the reply with its last entry |
| `ResponseMaps.Account.TakeReverse` | server/accounts.go:1777-1801 | without interest in it all entries of a reply are taken away; with interest none is |
| `ResponseMaps.Account.DropResponse` | server/accounts.go:1820-1833 | a response is given up unless delivery has been attempted |
| `ResponseMaps.Account.MarkDelivered` | server/client.go:4209-4215 | the response stays, and from now on losing interest does not drop it; the others are untouched |
| `ResponseMaps.Account.FindExpired` | server/accounts.go:2294-2312 | finds exactly the responses of the export that have waited long enough, and counts the others |
| `ResponseRuns.NextKeeps` | server/accounts.go:1645-1844 | every critical section of every thread keeps the invariant: an undelivered response is in exactly one place where it can be found from its requester, and each reverse entry is in the right place and leads to a response that is there, is on its way out, or was gone before the entry was made |
| `ResponseRuns.RunKeeps` | server/accounts.go:1645-1844 | so does every interleaving of requests, removals at any time, loss of interest and delivery |
| `ResponseRuns.AtRest` | server/accounts.go:2369-2402 | whenever no thread is between two sections: each undelivered response has exactly one reverse entry, with its requester and under its reply, and each reverse entry was made for that requester and reply and leads to a response unless that was gone before |
| `ResponseRuns.EntryHistory` | server/accounts.go:1690-1844 | over every run a reverse entry is there if and only if some section made it and no section since has removed it or found interest lost |
| `ResponseRuns.LeadsNowhere` | server/accounts.go:1645-1699 | at rest a reverse entry leads nowhere if and only if a section that removes it ran before the one that made it, and none has run since |
| `ResponseRuns.EarlyRemovalLeaks` | server/accounts.go:2369-2402 | so a removal between the two sections of adding a response leaves an entry behind or not, by which thread goes on first |
| `WeightedShares.SharesAreWeights` | server/accounts.go:678-686 | however destinations of equal weight are sorted, each is chosen by exactly its weight out of the hundred draws, and the draws beyond the total choose none |
| `WeightedShares.SingleIsChosen` | server/accounts.go:808-811 | the fast path for a single destination agrees with the rule |
| `WeightedMappings.MappingShares` | server/accounts.go:654-700 | in every cluster each configured destination gets its weight; the source gets exactly the rest if it is not configured, so that no draw is lost, and otherwise the rest is lost |
| `WeightedAccounts.Sort` | server/accounts.go:678-678 | some order by weight of the same destinations |
| `WeightedAccounts.ProcessDestinations` | server/accounts.go:654-687 | sums, the source's share and the running sums, in bytes, which never run over |
| `WeightedAccounts.Sum` | server/accounts.go:680-686 | adding up in place gives the running sums |
| `WeightedAccounts.ReadDestinations` | server/accounts.go:613-652 | accepts the configuration if and only if the source is valid, no subject is repeated, all targets are valid and no cluster's weights exceed a hundred in total |
| `WeightedAccounts.MakeMapping` | server/accounts.go:688-700 | the mapping holds the processed destinations of every cluster |
| `WeightedAccounts.Account.AddWeightedMappings` | server/accounts.go:604-725 | an acceptable mapping takes the place of the one with its source, or is added; any other changes nothing |
| `WeightedAccounts.Account.RemoveMapping` | server/accounts.go:728-742 | exactly the mapping of the source goes |
| `WeightedAccounts.Account.SelectMappedSubject` | server/accounts.go:754-831 | the first mapping for the subject decides, by the draw, among the destinations in force in the cluster |
| `WeightedAccounts.Pick` | server/accounts.go:808-819 | the first destination whose running sum is above the draw, with the fast path for one |
| `Products.Turn` | server/auth.go:429-435 | the odometer turns to the next counter, unless it was the last |
| `Products.Product` | server/auth.go:409-438 | lists exactly the combinations, in the order of their numbers; none if some list is empty |
| `Products.EachChoiceOnce` | server/auth.go:409-438 | each way of choosing one element from every list is listed exactly once |
| `PermissionTemplates.FilledIsCombos` | server/auth.go:525-538 | filling values in from left to right gives all ways of choosing, if every tag has values |
| `PermissionTemplates.FillingIsSubstituting` | server/auth.go:514-545 | whatever the tags, filling in emits the same subjects as substituting, and finds the same entries wanting |
| `PermissionLimits.HasAnyTemplate` | server/auth.go:440-454 | whether any token of the list is a template |
| `PermissionLimits.FindTagValues` | server/auth.go:497-503 | the values of the tags with a prefix, in order |
| `PermissionLimits.ResolveToken` | server/auth.go:463-510 | what a token stands for |
| `PermissionLimits.ResolveTokens` | server/auth.go:457-512 | the tokens of an entry, and the values of its tags |
| `PermissionLimits.FillIn` | server/auth.go:526-538 | the subject with the values filled in |
| `PermissionLimits.EmitEntry` | server/auth.go:513-546 | emits exactly the valid substitutions of an entry; a strict list fails if there is an invalid one or none |
| `PermissionLimits.ApplyTemplate` | server/auth.go:439-549 | a list without templates stays as it is; others become the valid substitutions of their entries, or fail |
| `PermissionLimits.ProcessTemplates` | server/auth.go:551-573 | refused exactly if a deny list fails; otherwise the lists worked out, with everything denied where an allow list was emptied |
| `PermissionLimits.EmptiedDeniesAll` | server/auth.go:565-571 | an allow list none of whose entries works out permits nothing |
| `PermissionLimits.NeverWidened` | server/auth.go:551-573 | whatever is permitted in the end is covered by an entry of the allow list, if there was one |
| `PermissionLimits.DenialsStay` | server/auth.go:551-573 | whatever any substitution of a deny entry denies stays denied |
| `SharedLocks.LockTable.GetAndLock` | db/db.go:7716-7806 | a lock is taken if and only if its row is missing or free, and then with the time; otherwise nothing changes |
| `SharedLocks.LockTable.Unlock` | db/db.go:7808-7828 | the row of the lower-cased tenant is freed |
| `SharedLocks.LockTable.ReleaseStuck` | db/db.go:7851-7869 | a row is free afterwards if and only if it was or was locked before the cutoff; no row and no time changes |
| `SharedLocks.UnlockFindsLock` | db/db.go:7730-7822 | unlocking finds the row that was locked if and only if the tenant is not the global account |
| `SharedLocks.NextKeeps` | db/db.go:7716-7869 | every step keeps each holder's row locked as it was taken, and no two holders on one row |
| `SharedLocks.AtMostOneHolder` | server/background_tasks.go:939-949 | over every run of brokers taking, giving back, sweeping and crashing, for all tenants and the global account, at most one holds each lock, if each gives it back within ten minutes and no tenant goes by the global account's name in lower case |
| `SharedLocks.OthersStayLocked` | db/db.go:7808-7869 | nothing that anyone does frees the lock of another holder |
| `SharedLocks.GivenBackIsFree` | db/db.go:7808-7828 | a lock that is given back can be taken again if and only if it is not the global account's |
| `SharedLocks.SweepFreesStuck` | db/db.go:7851-7869 | a sweep frees a lock if and only if its ten minutes are over |
| `SharedLocks.LowGlobalIsShared` | db/db.go:7822-7822 | a tenant that goes by that name may lose its lock to someone else when the global account unlocks |
| `SharedLocks.OverstayedIsShared` | server/background_tasks.go:939-949 | without the time limit two brokers may hold one lock |
| `RemoteConns.UpdatedAdds` | server/accounts.go:335-346 | after a report the 32-bit totals are the sums of all reports |
| `RemoteConns.RemovedAdds` | server/accounts.go:382-391 | and after a server is removed the sums of the others |
| `RemoteConns.Account.AddClient` | server/accounts.go:853-880 | the counters are the numbers of system clients and leafs, and the list of leafs has each once |
| `RemoteConns.Account.RemoveClient` | server/accounts.go:930-962 | and stay so when a client goes |
| `RemoteConns.RemoveLeaf` | server/accounts.go:910-926 | exactly the leaf is taken out of the list |
| `RemoteConns.Account.UpdateRemoteServer` | server/accounts.go:335-379 | the totals follow the report; what is shed are leafs from the end of the list, as many as are over their limit, and it is what was meant, the newest connections over the limit and then leafs, if and only if the account is not over its limit of connections or has none here |
| `RemoteConns.ShedIsMeant` | server/accounts.go:346-379 | the same for all states of an account |
| `RemoteConns.NewestFirst` | server/accounts.go:350-355 | the connections in an order by their start, newest first |
| `RemoteConns.ClientIsKept` | server/accounts.go:346-379 | with one client too many nothing is shed |
| `RemoteConns.Account.RemoveRemoteServer` | server/accounts.go:382-391 | the server's contribution is taken out |
| `RemoteConns.Account.ExpectedRemoteResponses` | server/accounts.go:396-405 | the number of servers with connections for the account |
| `RemoteServers.Server.UpdateRemoteServer` | server/events.go:1561-1575 | a new server is taken as it comes, a known one only by a higher number |
| `RemoteServers.Server.RemoteConnsUpdate` | server/events.go:1957-1997 | a report for a registered account, not our own, updates the account and the table, and keeps the invariant |
| `RemoteServers.Server.RemoteServerUpdate` | server/events.go:1507-1528 | statistics update the table only |
| `RemoteServers.Server.ProcessShutdown` | server/events.go:1442-1459 | a server leaves the table and every account |
| `RemoteServers.Server.RemoteServerShutdown` | server/events.go:1465-1504 | also if it was not known |
| `RemoteServers.Server.CheckRemoteServers` | server/events.go:762-774 | exactly the servers not heard of for too long leave the table and every account |
| `RemoteServers.RunKeeps` | server/events.go:1442-1575 | over every run each server that an account goes by is in the table, and all totals are sums |
| `RemoteServers.RunCountsUp` | server/events.go:1561-1575 | while a server stays known its number goes up with every update that is taken |
| `RemoteServers.ShutdownLeavesNothing` | server/events.go:1442-1459 | after a shutdown the totals are as if the server had never reported |
| `RemoteServers.RunGoesByLast` | server/events.go:1988-1991 | over every run an account keeps the figures of the report that came last, of those it had no reason to forget |
| `RemoteServers.FiguresAreNewest` | server/events.go:1988-1991 | these are the figures of the highest-numbered report if and only if no higher-numbered one had come before the last, or both say the same |
| `RemoteServers.LateReportCounts` | server/events.go:1988-1991 | so a report that comes late, which the table ignores, replaces a newer one |
| `AccountFetch.Fetch.constructor` | server/accounts.go:4267-4278 | the protocol starts with its invariant in place and nothing in the channel |
| `AccountFetch.Fetch.OnReply` | server/accounts.go:4281-4304 | the handler counts down, skips empty replies until the last, and sends if it is registered and the channel is empty |
| `AccountFetch.NextKeeps` | server/accounts.go:4263-4326 | every step of replies, time limit, shutdown and the routine keeps the invariant |
| `AccountFetch.RunIsSafe` | server/events.go:2537-2549 | over every interleaving nothing is sent on the closed channel, not even by a reply that found the handler before it was taken away |
| `AccountFetch.OutcomeIsRight` | server/accounts.go:4309-4321 | what the routine gets is the first reply with a text, while replies were waited for, or an empty one after all expected replies, at least one, came empty |
| `AccountFetch.NothingMissed` | server/accounts.go:4281-4304 | while it waits for an empty channel no reply has come that should have woken it |
| `SubTrie.InsertedAt` | server/sublist.go:374-440 | after inserting a valid subject the node at its path is the new one, every other node has what it had, and nodes made on the way hold nothing |
| `SubTrie.InsertKeeps` | server/sublist.go:354-442 | a tree that stores exactly some subscriptions, each at its own path, then stores exactly these and the new one |
| `SubTrie.InvalidKeeps` | server/sublist.go:374-414 | and a subject found invalid on the way changes nothing that is stored |
| `SubTrie.InvalidPrunes` | server/sublist.go:374-414 | it leaves a bare node behind if and only if the way up to its first bad token was not there |
| `SubTrie.RemoveKeeps` | server/sublist.go:756-798 | after removing the tree stores exactly the others |
| `SubTrie.RemovedIsPruned` | server/sublist.go:793-798 | removing leaves no node bare that was not |
| `SubTrie.InsertedIsPruned` | server/sublist.go:374-440 | nor does inserting a valid subject |
| `SubTrie.EmptyWhenGone` | server/sublist.go:850-884 | so a tree whose subscriptions are all gone is the empty one |
| `SubTrie.TakenHolds` | server/sublist.go:887-914 | at the node only the one subscription goes; a group that becomes empty goes too, and a list that no longer fits |
| `SubLiteral.MatchLiteral` | server/sublist.go:1368-1435 | the test by characters that the cache uses is matching by tokens |
| `SubLiteral.IsLiteralSubject` | server/sublist.go:1059-1069 | and so is the one for literal subjects |
| `SubResults.FindQSlot` | server/sublist.go:682-692 | the slot of a group, if it has one |
| `SubResults.AddSubToResult` | server/sublist.go:468-481 | a result of exactly some subscriptions becomes one of these and the new one, in the slot of its group, and listed once whatever it weighs |
| `SubResults.CachedIsLookedUp` | server/sublist.go:468-481 | such a result is what a lookup would give if and only if no remote queue subscription added to it weighs anything but one |
| `Sublists.MatchingStep` | server/sublist.go:695-711 | what matches from a level on falls into three disjoint parts: full wildcard, partial wildcard, the token itself |
| `Sublists.AddCopies` | server/sublist.go:664-673 | a remote queue subscription is listed as often as it weighs, others once |
| `Sublists.AddNodeToResults` | server/sublist.go:643-676 | exactly the subscriptions of the node are added, from the list or the set, each as often as it weighs and each group in one slot |
| `Sublists.MatchLevel` | server/sublist.go:695-720 | exactly the subscriptions below the level that match the tokens are added, each as often as it weighs |
| `Sublists.AddToNode` | server/sublist.go:415-440 | the subscription is added to the set and the list, which is made when there are many, or to its group |
| `Sublists.Walk` | server/sublist.go:756-784 | the node of a subject, if there is one; a bad token is reported if and only if the tokens before it, but for the last of them, have nodes |
| `Sublists.LiteralKey` | server/sublist.go:490-496 | a literal subscription belongs into the result of its own subject and into no other |
| `Sublists.Sublist.constructor` | server/sublist.go:115-120 | an empty list, with or without a cache |
| `Sublists.Sublist.Insert` | server/sublist.go:354-454 | the subscription is there afterwards, in the tree and in every cached result it belongs to, for which it is late; all invariants hold if and only if it was not there before or its subject is not valid |
| `Sublists.Sublist.AddToCache` | server/sublist.go:486-502 | every cached result is what a lookup would give after the insertion, but that it lists the subscription once |
| `Sublists.Sublist.Remove` | server/sublist.go:812-814 | the subscription is gone, and an error says that it was not there; an emptied tree is the empty one |
| `Sublists.Sublist.RemoveFromTree` | server/sublist.go:730-809 | the same for the tree and the count alone |
| `Sublists.Sublist.RemoveFromCache` | server/sublist.go:506-521 | every cached result that is left is what a lookup would give after the removal |
| `Sublists.Sublist.RemoveBatch` | server/sublist.go:817-847 | all of the batch are gone whatever the errors, and there is none if and only if each was there when its turn came |
| `Sublists.Sublist.RemoveAll` | server/sublist.go:835-840 | the same for the tree and the count alone |
| `Sublists.Sublist.Match` | server/sublist.go:536-608 | from the cache or from the tree, exactly the subscriptions that match the subject, one slot a queue group, each as often as it weighs, but once if the result is from the cache and it was inserted after that was stored |
| `Sublists.Sublist.ReduceCache` | server/sublist.go:612-623 | whichever results are dropped, the others stay right, and few enough are left |

## Left out

- Files, network and foreign libraries: whether a file can be written or removed, a key or a JWT is valid, a digest, the clock, a draw and the answer of a transform are parameters of the models.
- Concurrency inside the JWT store: `saveIfNewer`, `PackWalk`, `Merge` and `Reload` release the lock between steps; here each is one step. Renaming on delete, directory sharding, the change callback and a store without a tracker are not modelled.
- `Pack`, which packs a whole store into one string, and the older compatibility entry points of the store.
- Convergence.ExchangeConverges: takes JWTs of one key to differ in issue time, id and digest, and as many keys as a store may hold.
- Configuration: line and position numbers, the pedantic mode that keeps them, characters of more than one byte, and error texts. Floats, dates, the environment and included files are parameters.
- ConfRoundTrip.RoundTrip: canonical text has quoted keys without quotes or a NUL in them, escaped double-quoted strings, plain integers and booleans, and a comma or a new line after every value.
- Subject transforms, and of the subscription list the notifications, statistics, generation number, reverse match and the race of several readers between cache and tree: a lookup is one step.
- The subscription tree is a value that is replaced along a path, where the code changes linked nodes in place; sharing of nodes is not captured. A removal's pruning follows the same path back.
- Sublists.Sublist.Match: does not model that the weight of a remote queue subscription may change while it is there.
- Sublists.Sublist.Insert: the counter is unbounded here, 32 bits in the code.
- ImportAccounts.Accounts.IsAuthorized: does not model activation tokens and exports that name the importing account by position; which of several matching exports is asked is left open, as in a loop over a map.
- ImportAccounts.Accounts.AddStreamImport: does not model the failure to make a transform for a renamed wildcard import; the search is one step on a graph that does not change meanwhile.
- ImportRuns.RunsHaveNoCycle: is about imports that are not renamed, that fit to those there are, and that have no token that only begins with a star; without the first two it does not hold. Exports are not withdrawn.
- The cycle search for service imports: it compares the local subject of one import with the remote subject of another, and no routing property follows from it.
- ResponseRuns.AtRest: relies on fresh reply subjects. Latency tracking, wildcard replies and the refresh of claims, which drops responses, are not modelled.
- WeightedAccounts.Account.SelectMappedSubject: gives the destination's subject; filling wildcards into it is a transform.
- WeightedAccounts.Account.AddWeightedMappings: takes the transform from the source to itself for granted, and leaves out telling leaf nodes.
- Products.Product: builds its combinations as sequences, where the code cuts them out of one long array.
- SharedLocks.AtMostOneHolder: each transaction is one step on a common clock; failing database calls, the deletion of all locks of a tenant and station locks are not modelled.
- RemoteServers.RunKeeps: does not model clearing an account's eventing, which resets only some counters, and node information.
- AccountFetch.RunIsSafe: does not model storing the JWT, which may fail after it was received.
- Claims, latency samples, leaf cluster counts, the HTTP handlers, all other queries of the database and the rest of the server: long glue without a strong invariant.
