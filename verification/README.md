# A verified model of the USBI learning platform

The platform lets university staff make small games and lets players, many of them minors
and often offline, play them for experience points. This project models its four hardest
parts and proves what they are relied on for.

* **The crossword builder**, which exists in TypeScript (a `Map` keyed by `"x,y"` strings)
  and in Go (a map keyed by points), and the play engine on top of it. One description of the
  greedy search is proved to have one answer, and both builders are proved to give it. The
  local legality test is proved to imply that no accidental words ever appear.
* **Offline sync and the XP ledger**: the client's queue, the retrying sender, a network
  that loses and repeats messages, and the server's transactions, which share tables with
  online play and with cancellation.
* **The games' generators and engines**: word search, snakes and ladders, phrase puzzle.
* **Accounts**: token versions, tutor consent, age-up, suspension and cancellation, over every
  interleaving of statements and transactions.

Code that changes things step by step is modelled by classes and loops whose contracts tie
the new state to a specification function; what the source promises is proved about those
functions, over every input, run or reachable state.

| files | what they hold |
|---|---|
| `CrosswordBoard`, `CrosswordRuns` | boards, legality, and what one placement keeps |
| `CrosswordSearch` | what the search and the greedy build must return |
| `CrosswordGo`, `CrosswordTs`, `CrosswordLayout`, `LengthSort` | the two builders and the whole layout |
| `CrosswordSwallowing` | which placed word can be run over, and a list that shows it |
| `CrosswordPlay` | the play engine |
| `Ledger`, `LedgerFacts`, `LedgerLog`, `LedgerServer` | tables, invariants, what runs leave in the tables, and the transactions query by query |
| `LedgerMerge`, `LedgerOrder`, `LedgerMixed` | why the merge does not depend on the order of arrival, and when it would |
| `SyncProtocol`, `SyncProgress`, `SyncClient`, `SyncLosses` | the distributed protocol, that it is never stuck, the client's code, and what losses do to it |
| `Signing`, `Ordering`, `Text` | the canonical text that both sides sign |
| `Wrappers`, `Draws` | shared definitions and the random numbers |
| `WordSearch`, `WordSearchLuck` | the word search, and why its tries suffice |
| `SnakesBoard`, `SnakesLayout`, `SnakesGame`, `SnakesReach`, `Puzzle`, `PuzzleShuffle` | the other games |
| `Accounts`, `AccountsRows`, `AccountsServer` | the account state machine, its tables row by row, and its service |

## Where the code does not do what one would expect

* A placed crossword word can be run over by a longer word along the same line, after which
  it is no longer a maximal run (`SwallowingExample`, a list of three words whose returned
  layout shows it). It can only be the word that the layout was started with, and only if that
  word is part of a longer one (`OnlyChosenWordIsLost`).
* The client's test of a crossword accepts lists of no word and of one word, which the server
  refuses (`BothDecide`).
* The order in which a day's attempts arrive can change the XP when some of them failed and
  some did not (`OrderMattersIff` and, for events of one attempt each, `OrderMattersIffMixed`
  say exactly when).
* An event whose signature does not check is filed as rejected and answered with 401. The
  client then logs the player out and keeps the row, unless it can refresh the session for
  that answer, in which case the repeated request confirms the rejected event. A post allows
  one refresh: when an expired access token has spent it, the 401 for the signature logs the
  player out although the session was just refreshed (`FetchedIff`).
* Rows with negative XP are never sent and never deleted, and a round takes the fifty oldest
  rows. So every row behind fifty of them stays in the queue for ever (`RepeatedRoundsLeave`,
  `StuckIff`).
* Client and server sign different texts for a report whose ids hold capitals
  (`BothSidesAgreeIffLower`), and a separator inside a field can make two reports look alike
  (`UncleanReportsCollide`; `ReportsCollideIff` and `BarFreeReportsCollideIff` say exactly
  which).
* The snakes engine leaves the track on fewer than six cells (`ShortTrackExample`), when a
  link leads past the end (`LadderPastEndExample`) and when the match starts past the end
  (`StartPastEndExample`). Both validators accept such boards: `RunIsSoundIff` says exactly
  where a match stays sound, `AcceptedIsPlayableIff` which accepted boards are playable.
* The machine's difficulty has no effect (`DifficultyChangesNothing`), and the schema accepts
  start positions and links beyond the board that the server refuses (`GoAcceptsIff`).
* A try of the word search may draw a spot just outside the board (`DrawnLiesOnIff`), which costs
  it. Five hundred tries still place the first word whatever the seed (`FirstWordIsPlaced`).
* Age-up cannot be asked for by the accounts it is documented for (`TokenHoldersNeverWait`). It
  lifts a suspension when its request passed the token check before the suspension and is
  served after it, and nothing else does (`SuspensionLiftedIff`). A consent link that was
  open when its account was cancelled still records a consent that nothing revokes
  (`DeletedAreRevokedIff`).

## Model

| member | source | states |
|---|---|---|
| CrosswordBoard.PlacementKeepsRuns | frontend/packages/engine/src/games/CrosswordEngine.ts:326-358 | The local legality test keeps the global fact: after a placement that passes it, every maximal run of two or more letters in either direction is still the span of a placed word. |
| CrosswordBoard.PlacementReadsBack | frontend/packages/engine/src/games/CrosswordEngine.ts:310-324 | After such a placement every word placed so far, old or new, reads back letter by letter from the grid. |
| CrosswordBoard.PlacementKeepsConnected | frontend/packages/engine/src/games/CrosswordEngine.ts:276-308 | A word laid across a filled cell leaves any two filled cells joined by a path of adjacent filled cells. |
| CrosswordBoard.PlacementKeepsWellBuilt | frontend/packages/engine/src/games/CrosswordEngine.ts:310-358 | All four at once: a legal placement keeps words readable, cells owned, runs accounted for and the board connected. |
| CrosswordBoard.FirstWordIsWellBuilt | frontend/packages/engine/src/games/CrosswordEngine.ts:250-259 | The board of the first word alone has all four properties, wherever it lies. |
| CrosswordBoard.FullSpotHoldsTheAnswer | frontend/packages/engine/src/games/CrosswordEngine.ts:326-358 | A legal spot whose cells are all filled already holds a placed copy of that very answer. |
| CrosswordBoard.NewAnswerFillsNewCell | frontend/packages/engine/src/games/CrosswordEngine.ts:326-358 | So every accepted placement of an answer not yet on the board fills at least one new cell. |
| CrosswordBoard.LegalIff | frontend/packages/engine/src/games/CrosswordEngine.ts:326-358 | The local test is exact: on a well built board it lets through exactly the spots that share a cell and leave a well built board on which the new word is a maximal run. |
| CrosswordRuns.WholeRunIffNotSwallowed | frontend/packages/engine/src/games/CrosswordEngine.ts:326-358 | A placed word is a maximal run of its own if and only if no longer placed word covers it along the same line. |
| CrosswordRuns.WordsAreExactlyTheRuns | frontend/packages/engine/src/games/CrosswordEngine.ts:326-358 | When no answer is part of another, the maximal runs of two or more letters and the spans of placed words are the same, in both directions. |
| CrosswordSwallowing.OnlyFirstIsSwallowed | frontend/packages/engine/src/games/CrosswordEngine.ts:220-274 | In a greedy build of a list that falls in length after its first word, only that first word can be run over, by a longer word that contains it and is placed later. |
| CrosswordSwallowing.OnlyChosenWordIsLost | frontend/packages/engine/src/games/CrosswordEngine.ts:220-248 | In the returned layout of a list of distinct answers every placed word is a maximal run of its own, except perhaps the word chosen to be first, and that one only if it occurs in a longer answer; so a longest word is never lost. |
| CrosswordSwallowing.SwallowingExample | frontend/packages/engine/src/games/CrosswordEngine.ts:220-388 | Every layout returned for DAB, ACD, AC starts with AC, places all three, and has ACD run over AC. |
| CrosswordLayout.ReturnedIsUnique | frontend/packages/engine/src/games/CrosswordEngine.ts:220-248 | The returned board is determined by the list: of the first choice that leaves nothing over, or else of the first among those that place most words. |
| CrosswordLayout.ReturnedIff | frontend/packages/engine/src/games/CrosswordEngine.ts:220-248 | Which board is returned, in terms of the boards of all choices: of the first choice that leaves nothing over, or, when none does, of the first that places as many words as any. |
| CrosswordLayout.UsableMeans | frontend/packages/engine/src/games/CrosswordEngine.ts:221-223 | The usable answers are those of two letters or more with a clue, each once for its entry and in their order. |
| CrosswordLayout.LeftOverInOrder | frontend/packages/engine/src/games/CrosswordEngine.ts:266-273 | The left over words are the given ones whose answers are not placed, in their order. |
| CrosswordRuns.MoveKeepsWellBuilt | frontend/packages/engine/src/games/CrosswordEngine.ts:360-388 | Shifting a whole board changes none of the four properties. |
| CrosswordSearch.BestIsUnique | frontend/packages/engine/src/games/CrosswordEngine.ts:276-308 | The loop-order description of the search has one answer only. |
| CrosswordSearch.BestIsNearest | frontend/packages/engine/src/games/CrosswordEngine.ts:276-308 | In plain coordinates: the answer is nothing exactly when no legal spot crosses a placed word at an equal letter; otherwise it is such a spot, of all of them none starts nearer to the origin by |x| + |y|, and none that the loops meet before it starts as near. |
| CrosswordSearch.NearestIsUnique | frontend/packages/engine/src/games/CrosswordEngine.ts:276-308 | There is one such answer. |
| CrosswordSearch.BuiltOfOne | frontend/packages/engine/src/games/CrosswordEngine.ts:250-259 | A build of one word puts it across from the origin. |
| CrosswordSearch.BuiltOneMore | frontend/packages/engine/src/games/CrosswordEngine.ts:250-274 | A build of one word more is a build of the words before it with that word at its nearest legal crossing, or left out when there is none. |
| CrosswordSearch.BuiltIsUnique | backend/internal/levels/service.go:958-974 | Two builders that follow that description make the same board, with the same placements, from the same ordered list; the Go and the TypeScript methods below are both proved to follow it. |
| CrosswordSearch.BuiltIsWellBuilt | frontend/packages/engine/src/games/CrosswordEngine.ts:250-274 | Every board a greedy build can reach, for every list of words, is well built. |
| CrosswordSearch.BuiltPlacesEachOnce | frontend/packages/engine/src/games/CrosswordEngine.ts:250-274 | For distinct answers of two letters or more: each answer is placed at most once, the number placed equals the number given exactly when all are on the board, and every word after the first added a cell. |
| CrosswordGo.CanPlaceCrosswordWord | backend/internal/levels/service.go:1031-1078 | True exactly for legal spots: each letter agrees with its cell or lands on a free one with free sides, both ends are free, and some cell is shared. |
| CrosswordGo.FindCrosswordPlacement | backend/internal/levels/service.go:990-1029 | Returns the first of the nearest legal crossings, nothing when there is none. |
| CrosswordGo.Board.PlaceCrosswordWord | backend/internal/levels/service.go:976-988 | The loop over letters leaves exactly the old grid overwritten by the word, and the word appended. |
| CrosswordGo.BuildConnectedCrosswordCount | backend/internal/levels/service.go:958-974 | The count is the number of words on the one board that the greedy rules allow. |
| CrosswordGo.CanBuildConnectedCrossword | backend/internal/levels/service.go:937-956 | True exactly when there are two words or more and some choice of the first word lets the greedy build place them all. |
| Text.CellKeyInjective | frontend/packages/engine/src/games/CrosswordEngine.ts:310-324 | Two cells never share an "x,y" key. |
| CrosswordTs.KeysMeanCells | frontend/packages/engine/src/games/CrosswordEngine.ts:326-358 | Looking up a key in the string-keyed grid tells whether that cell is filled, and with which letter. |
| CrosswordTs.CanPlaceWord | frontend/packages/engine/src/games/CrosswordEngine.ts:326-358 | On a string-keyed grid, true exactly for legal spots of the point grid it represents. |
| CrosswordTs.FindBestPlacement | frontend/packages/engine/src/games/CrosswordEngine.ts:276-308 | On a string-keyed grid, returns the first of the nearest legal crossings, nothing when there is none. |
| CrosswordTs.KeyedBoard.PlaceWord | frontend/packages/engine/src/games/CrosswordEngine.ts:310-324 | The string-keyed grid keeps representing the point grid with the word written over it. |
| CrosswordTs.Corner | frontend/packages/engine/src/games/CrosswordEngine.ts:366-367 | Finds the bounding box: all cells inside, every side touched. |
| CrosswordTs.ShiftCells | frontend/packages/engine/src/games/CrosswordEngine.ts:368-374 | Re-keying cell by cell represents the shifted grid, with no cell lost or overwritten. |
| CrosswordTs.NormalizeLayout | frontend/packages/engine/src/games/CrosswordEngine.ts:360-388 | One shift for grid and words alike; on a board with cells the minimum x and y become exactly 0, and maxX and maxY are the largest coordinates of the returned cells. |
| CrosswordLayout.BuildGreedyLayout | frontend/packages/engine/src/games/CrosswordEngine.ts:250-274 | The result shows the one greedy board of the list, shifted to the origin, and leaves over exactly the given words that are not placed. |
| CrosswordLayout.BuildCrosswordLayout | frontend/packages/engine/src/games/CrosswordEngine.ts:220-248 | For every word list: the result shows that one board, shifted to the origin and well built; an unusable list gives the empty layout. |
| CrosswordLayout.CompleteExactly | frontend/packages/engine/src/games/CrosswordEngine.ts:220-274 | For distinct answers, placed and left over words split the list, and nothing is left over exactly when all words are placed, and exactly when some choice of the first word lets the greedy build place them all. |
| CrosswordLayout.CanBuildOnClient | frontend/packages/engine/src/games/CrosswordEngine.ts:215-218 | The client's own test of a list: nothing left over and as many placed as given; for distinct answers exactly the empty list and the lists that some choice of the first word places whole. |
| CrosswordLayout.BothDecide | backend/internal/levels/service.go:937-956 | Client and server give the same answer about a list of distinct answers, in one order, if and only if it holds two words or more: the server refuses shorter lists, the client accepts them. |
| CrosswordLayout.BuildersAgree | backend/internal/levels/service.go:958-974 | Run on one ordered list, the server's count is the number of words the player's builder places. |
| LengthSort.ByLengthSorts | frontend/packages/engine/src/games/CrosswordEngine.ts:229 | Sorting by falling length is a permutation with falling lengths. |
| LengthSort.ByLengthIsStable | frontend/packages/engine/src/games/CrosswordEngine.ts:229 | Words of one length keep their order. |
| CrosswordPlay.RunKeepsSound | frontend/packages/engine/src/games/CrosswordEngine.ts:90-180 | Over any sequence of calls: typed letters lie on grid cells, the locked cells are exactly the correct ones, the score is 10 for each, and the game is finished exactly when the grid is not empty and all cells are correct. |
| CrosswordPlay.RunNeverUnlocks | frontend/packages/engine/src/games/CrosswordEngine.ts:90-170 | Without a reset no cell is ever unlocked and the score never drops. |
| CrosswordPlay.AnsweringWins | frontend/packages/engine/src/games/CrosswordEngine.ts:90-170 | From any state, choosing the cells in any order and typing their letters finishes with 10 points a cell. |
| CrosswordPlay.CrosswordEngine.InputCharacter | frontend/packages/engine/src/games/CrosswordEngine.ts:90-117 | Refines the typed-letter step: finished, unselected and locked cells ignore it, and the selection advances along the direction when it can. |
| CrosswordPlay.TypedLetter | frontend/packages/engine/src/games/CrosswordEngine.ts:90-117 | In coordinates: the letter is written on the selected cell and no other changes, the cell is locked exactly when the letter is right, and the selection goes one cell right or down when there is one. |
| CrosswordPlay.TypingARunAnswersIt | frontend/packages/engine/src/games/CrosswordEngine.ts:90-117 | Typing the letters of a run of open cells in order from its first cell on locks and pays every one of them and no other, and leaves the selection behind the run when cells go on there, else on its last cell. |
| CrosswordPlay.TakenBack | frontend/packages/engine/src/games/CrosswordEngine.ts:97-103 | Deleting frees the selected cell and moves nothing. |
| CrosswordPlay.IgnoredTyping | frontend/packages/engine/src/games/CrosswordEngine.ts:90-95 | Typing into a finished game, without a selection or on a locked cell changes nothing. |
| CrosswordPlay.CrosswordEngine.Select | frontend/packages/engine/src/games/CrosswordEngine.ts:119-134 | Selecting again flips the direction; selecting another cell takes the only direction that has a neighbour. |
| CrosswordPlay.ChosenDirection | frontend/packages/engine/src/games/CrosswordEngine.ts:119-134 | Choosing another cell takes its only direction if it has just one, and keeps the old one otherwise; choosing it again turns it. |
| CrosswordPlay.TypingFollowsTheOnlyDirection | frontend/packages/engine/src/games/CrosswordEngine.ts:90-134 | So typing after choosing a cell goes on in its only direction, and after choosing it twice does not. |
| CrosswordPlay.NavigatingBack | frontend/packages/engine/src/games/CrosswordEngine.ts:136-144 | Navigation goes exactly where it is told when there is a cell, and back again. |
| CrosswordPlay.CrosswordEngine.ValidateAll | frontend/packages/engine/src/games/CrosswordEngine.ts:146-170 | The loop over cells locks and counts exactly the correct ones. |
| LedgerFacts.RunIsSound | backend/internal/sync/service.go:92-219 | After any run of completions, sync events, cancellations and content edits: sums over history, attempts and progress agree per level and per user, attempts_count equals the number of attempts, numbers are gapless, and each event's tagged rows are none or one per reported attempt. |
| LedgerFacts.EffectsHappenOnce | backend/internal/sync/service.go:105-116 | Once an event id is on record, no continuation of the run changes the record or adds a history row tagged with it. |
| LedgerFacts.NumbersAreOneToN | backend/internal/repository/content_queries.go:313-329 | For each user, level and day the stored attempt numbers are exactly 1..n, each once. |
| LedgerFacts.DailyXpCap | backend/internal/levels/service.go:689-702 | In every reachable state a level whose difficulty never exceeded d paid a user at most 8*d XP on one day. |
| LedgerFacts.DayTotalIsCapped | backend/internal/sync/service.go:28-41 | What n completed attempts earn: 4, 6 and 8 times the difficulty for one, two, and three or more. |
| LedgerFacts.CancelAgrees | backend/internal/repository/privacy_queries.go:166-197 | Cancelling makes the user's three totals 0, leaves everybody else's alone, conserves the grand total of the history and every event's row count, and keeps the agreement. |
| LedgerFacts.StepKeepsAgreement | backend/internal/levels/service.go:536-615 | Every single transaction keeps the agreement of the three running totals. |
| LedgerFacts.StepKeepsTags | backend/internal/sync/service.go:92-187 | No transaction changes the record or the tagged rows of an event already on file. |
| LedgerServer.Database.CountLevelAttemptsByDate | backend/internal/repository/content_queries.go:313-329 | The count of a user's attempts at a level on a day. |
| LedgerServer.Database.UpsertPlayerProgressForAttempt | backend/internal/repository/content_queries.go:331-365 | One progress row is created or changed: the best score is the larger one, XP and attempts add up, a completion is never forgotten; every other row stays and no other row appears. |
| LedgerServer.Database.CompleteLevel | backend/internal/levels/service.go:513-634 | Query by query, the outcome and the whole new state of the tables that an online completion is specified to make. |
| LedgerLog.CompleteOutcome | backend/internal/levels/service.go:513-540 | When an online completion is accepted, invalid or not found, in plain conditions; a refused one changes nothing. |
| LedgerLog.CompleteMeans | backend/internal/levels/service.go:536-590 | An accepted one appends one attempt row and one history row, numbered after the earlier attempts of the day and paid by that number, and adds its day to the streak exactly if it was completed. |
| LedgerServer.Database.ValidateAndPrepare | backend/internal/sync/service.go:241-282 | Accepts exactly payloads whose dates parse and are not in the future, whose scores are not negative and whose levels are published. |
| LedgerServer.Database.ProcessSync | backend/internal/sync/service.go:62-231 | Query by query, the outcome and the whole new state of the tables that a sync event is specified to make, for each branch: refused, repeated, rejected for its signature or content, merged. |
| LedgerLog.SyncOutcome | backend/internal/sync/service.go:62-123 | When an event is invalid, already processed, badly signed or merged, in plain conditions on its ids, the device, the records, the signature, and every date, score and level it reports. |
| LedgerLog.SyncMeans | backend/internal/sync/service.go:125-197 | A merged event appends one numbered and paid row for each attempt, in order and with its tag; a day is in the streak afterwards exactly if it was before or the event was merged and reports it; every other outcome leaves attempts, history, progress, streak and badges alone. |
| LedgerLog.SyncRecords | backend/internal/sync/service.go:85-123 | An unseen event of a known device is on record afterwards with what it reported, processed exactly if it was merged; no other record changes. |
| LedgerLog.BadgesMean | backend/internal/sync/service.go:207-217 | A badge is earned exactly if it was before, or an accepted arrival of the user leaves the user's total at its threshold or above. |
| LedgerServer.Database.CancelUser | backend/internal/privacy/privacy.go:41-73 | Query by query, the whole new state of the tables that a cancellation is specified to make. |
| LedgerLog.CancelPurges | backend/internal/repository/privacy_queries.go:166-197 | Afterwards no row of attempts, progress, streak or badges names the user and no history row does; every row of anybody else is there as before and in its order, and the history loses nothing but the name. |
| LedgerLog.CancelOrdersWipes | backend/internal/privacy/privacy.go:41-73 | Exactly the user's unrevoked devices are told to wipe themselves; other devices, events, levels and badges stay. |
| LedgerLog.TablesTellTheReports | backend/internal/sync/service.go:92-219 | After any run a user's attempt rows are exactly the accepted reports since the last cancellation, in order, and each progress row holds the best of their scores and whether any was completed. |
| LedgerLog.StreakIff | backend/internal/sync/service.go:190-197 | After any run a day is in a user's streak if and only if, since the last cancellation, a completed online attempt was accepted on it or a merged event reported it. |
| LedgerLog.BadgesIff | backend/internal/sync/service.go:207-217 | After any run a user holds exactly the badges whose threshold is at most the user's total, provided an arrival was accepted since the last cancellation, and none otherwise. |
| LedgerMerge.RecsCommute | backend/internal/sync/service.go:125-187 | Two completed attempts recorded in either order give the same counts, XP per day, totals and progress rows. |
| LedgerMerge.EffectsCommute | backend/internal/sync/service.go:92-219 | So do two whole arrivals with different event ids, badges included. |
| LedgerOrder.ArrivalsCommute | backend/internal/sync/service.go:92-219 | Any two arrivals commute, also when both report the same event id. |
| LedgerOrder.OrderDoesNotMatter | backend/internal/sync/service.go:92-219 | Any permutation of the same sync events and online completions, all attempts completed, ends with the same XP per level and day, totals, attempt counts, best scores, streak days, badges and event records. |
| LedgerMixed.ItemsEarn | backend/internal/sync/service.go:125-187 | What one event's attempts at a level on a day earn in the tables when some of them failed and others went before. |
| LedgerMixed.ArrivalsEarn | backend/internal/levels/service.go:536-615 | The same for a list of accepted arrivals, online completions and sync events of any number of attempts mixed. |
| LedgerMixed.OrderMattersIff | backend/internal/sync/service.go:92-219 | The proviso is exact: for accepted arrivals of any number of attempts, completed or failed, every order earns a player the same at a level on a day if and only if the blocks of attempts of any two arrivals that can become neighbours among the day's first three attempts are paid alike either way round. |
| LedgerMixed.OrderMattersIffMixed | backend/internal/sync/service.go:92-219 | For arrivals of one attempt each: if and only if all attempts were completed, or all failed, or the first and the last place left are paid alike. |
| LedgerMixed.FlatRateMeans | backend/internal/sync/service.go:28-41 | In numbers: a single attempt, three or more earlier ones, or two attempts after one earlier one. |
| SyncProtocol.StepKeeps | frontend/src/lib/syncEngine.ts:50-186 | Every step of queue, sender, network, server or anybody else keeps the protocol invariant, with lost requests, lost responses, retries, crashes and overlapping loops. |
| SyncProtocol.NoProgressIsLost | frontend/src/lib/localSyncQueue.ts:49-86 | In every reachable state each event queued since the last wipe is in the local queue or on the server's record, processed or rejected. |
| SyncProtocol.EffectsAreExactlyOnce | backend/internal/sync/service.go:92-187 | In every reachable state the history rows tagged with a queued event number zero or exactly the length of its attempt list. |
| SyncProtocol.QueuedUntilCommitted | frontend/src/lib/localSyncQueue.ts:79-83 | Apart from a wipe, no step deletes a local row whose record is not committed. |
| SyncProgress.OldestCanBeDelivered | frontend/src/lib/localSyncQueue.ts:49-86 | The protocol is never stuck: from any state a run exists that files the oldest row's event and takes it out of the queue, if it reports no negative XP, the device is still the user's, and the server has the event or would accept it. |
| SyncClient.Post | frontend/src/lib/apiClient.ts:28-72 | A post that is answered with 401, for its token or its signature, is sent once more exactly when the session can be refreshed. |
| SyncClient.FetchWithRetry | frontend/src/lib/syncEngine.ts:50-72 | The outcome and the whole new state of the tables for anything the network does to up to three posts, of which one that ends in 401 is the last; a confirmed event is on record. |
| SyncClient.FetchedIff | frontend/src/lib/syncEngine.ts:50-72 | When no message is lost (each exchange is answered or refused for its token) and the sender is known, a fetch is confirmed if and only if its first post gets past the token check and the event was on record; or its signature checks, and its payload is good or the next post gets past the token check too; or its signature does not check and the one refresh, not spent on an expired token, gets the answer of a repetition. Otherwise it ends in a 401. The event is on record afterwards exactly when it was or the first post got past the token check. |
| SyncClient.FetchedWipesIff | backend/internal/sync/service.go:225-230 | Its answer orders a wipe if and only if the device is marked for one and the first answer merges the event. |
| SyncLosses.RepetitionCountsOnce | frontend/src/lib/syncEngine.ts:50-72 | Whatever is lost and however often it is sent, the tables end as after processing the request once, or untouched; untouched if no message arrived, and not if the first one did or the event was confirmed. |
| SyncLosses.LostPostsAreMadeUpFor | frontend/src/lib/syncEngine.ts:50-72 | Of three posts the first one to be answered confirms an event that the server would accept, whatever becomes of the ones before; when all three are lost the fetch fails. |
| SyncClient.SyncLocalProgress | frontend/src/lib/syncEngine.ts:132-186 | The confirmed ids, how the loop ended and the tables, for anything the network does; every confirmed id is on record and was asked for, and rows with negative XP are never confirmed. |
| SyncClient.LoopIsSafe | frontend/src/lib/syncEngine.ts:132-186 | Whatever is lost: records are only added, only those asked for, levels and devices stay, and the loop ends in a wipe only by the server's order. |
| SyncLosses.RoundsConfirmAPrefix | frontend/src/lib/syncEngine.ts:144-182 | Whatever is lost: the confirmed ids are those of the rows to send among the first k of the batch, k is the whole batch unless the loop was cut short, and no row behind the one it ended on was sent. |
| SyncClient.LoopStopsAt | frontend/src/lib/syncEngine.ts:144-182 | When no message is lost and the device is not marked for a wipe, the loop confirms exactly the rows before the first one whose fetch that condition does not confirm; there it logs the player out, with the event on record exactly when it was or its first post got past the token check. |
| SyncClient.DeliveredIff | frontend/src/lib/syncEngine.ts:144-182 | So a row is confirmed if and only if it reports no negative XP and that condition holds of it and of every row before it that is sent. |
| SyncClient.LocalQueue.EnqueueProgress | frontend/src/lib/localSyncQueue.ts:33-47 | Appends the row and changes nothing else. |
| SyncClient.LocalQueue.SyncLocalQueue | frontend/src/lib/localSyncQueue.ts:49-86 | The whole new queue: empty after a wipe, otherwise the rows that were not confirmed, in order; each earlier row is still queued or on record. |
| SyncClient.GoneFromQueueIff | frontend/src/lib/localSyncQueue.ts:49-86 | Without lost messages and on a device not marked for a wipe, a row is gone from the queue after a round if and only if it was in the batch and confirmed in that sense; rows with negative XP stay. |
| SyncLosses.MarkedLoopStopsAt | frontend/src/lib/syncEngine.ts:144-182 | On a device marked for a wipe the loop ends on the first row that is merged, with the order, or on the first that is not confirmed, with a logout, whichever is earlier. |
| SyncLosses.WipedIff | frontend/src/lib/localSyncQueue.ts:49-86 | So without losses the queue is wiped if and only if some row of the batch is merged and every row before it passes. |
| SyncLosses.BatchIsFifty | frontend/src/lib/localSyncQueue.ts:57-59 | A round takes fifty rows, or all when there are fewer. |
| SyncClient.RepeatedRoundsLeave | frontend/src/lib/localSyncQueue.ts:49-86 | After at least as many rounds as rows, in which nothing is lost and every fetch gets past the token check, with a signature that checks or a session that can be refreshed for it, exactly the rows with negative XP and every row behind the fiftieth of them are left. |
| SyncClient.StuckIff | frontend/src/lib/localSyncQueue.ts:57-59 | Row by row: a row stays for ever if and only if it has negative XP or fifty rows before it have. |
| SyncClient.LocalQueue.DeleteConfirmed | frontend/src/lib/localSyncQueue.ts:79-83 | Deletes exactly the rows whose ids are both in the batch and confirmed. |
| Signing.SignedTextIdentifiesReport | frontend/src/lib/syncEngine.ts:93-118 | For reports whose fields hold no separator and whose dates and badges are not empty, the signed text is equal if and only if the reports are equal up to the order of their lists. |
| Signing.SignedTextIgnoresOrder | frontend/src/lib/syncEngine.ts:93-118 | Reordering attempts, dates or badges never changes the text, whatever the fields hold. |
| Signing.SignedTextLooks | frontend/src/lib/syncEngine.ts:93-118 | What the text is: event, user, device, key version and the three sorted lists, in this order, between bars, the lists with semicolons. |
| Signing.AttemptLooks | frontend/src/lib/syncEngine.ts:93-103 | What an attempt's line is: level, date, number, XP, score and completion, in this order, between commas. |
| Signing.UncleanReportsCollide | frontend/src/lib/syncEngine.ts:93-118 | Two families of examples: a date that is two sorted dates with a separator between them, or an empty date, gives the same text as a different report. |
| Signing.ReportsCollideIff | frontend/src/lib/syncEngine.ts:93-118 | Exactly which reports give one text, whatever their fields hold: those whose seven fields in order have the same pieces when cut at every field separator. |
| Signing.BarFreeReportsCollideIff | frontend/src/lib/syncEngine.ts:93-118 | When no field holds the field separator: exactly those with equal ids and key version whose attempts, dates and badges read the same piece by piece when they are sorted and then cut at every list separator. |
| Signing.DatesCollideIff | frontend/src/lib/syncEngine.ts:93-118 | Exactly which date lists give one text in otherwise equal reports: those that read the same piece by piece when they are sorted and then cut at every separator. |
| Text.JoinedAlikeIff | frontend/src/lib/syncEngine.ts:93-118 | Two lists join to one text if and only if they have the same pieces. |
| Signing.CanonicalSigningPayload | backend/internal/sync/service.go:294-326 | The server's loops build the client's text of the same report with its ids in lower case. |
| Signing.BothSidesAgreeIffLower | backend/internal/sync/service.go:294-326 | Client and server sign the same text if and only if the client's ids are in lower case. |
| Ordering.SortForgetsOrderOnly | backend/internal/sync/service.go:308-319 | Two lists sort to the same list if and only if they hold the same elements equally often. |
| Ordering.LessEqMeans | backend/internal/sync/service.go:308-319 | The order of the sort: the first different letter decides, and a beginning comes first. |
| Text.JoinInjective | frontend/src/lib/syncEngine.ts:93-118 | Joining with a separator that no part holds can be undone, except that no part and one empty part look alike. |
| Text.ReadPrintedInt | frontend/src/lib/syncEngine.ts:93-118 | Decimal printing can be undone; it writes digits without leading zeros after a sign exactly for negative numbers. |
| WordSearch.WordSearchEngine.Create | frontend/packages/engine/src/games/WordSearchEngine.ts:18-40 | For every word list, size and seed: no words is an error; otherwise the grid is full of letters, each required word is one of the given ones, occurs once and stands on its own straight in-bounds line. |
| WordSearch.WordSearchEngine.GenerateGrid | frontend/packages/engine/src/games/WordSearchEngine.ts:51-96 | The required words and their lines are exactly those that the seed gives a free spot within 500 tries each, the long ones first, and the blanks are filled with the letters that the seed draws next; placing later words and filling leave every word standing. |
| WordSearch.UniqueInOrder | frontend/packages/engine/src/games/WordSearchEngine.ts:25-27 | Words that are given twice count once, where they appear first. |
| WordSearch.FirstFreeMeans | frontend/packages/engine/src/games/WordSearchEngine.ts:57-78 | The search takes the first free one of the spots its tries draw, or none. |
| WordSearch.PlacedIffSomeTryIsFree | frontend/packages/engine/src/games/WordSearchEngine.ts:54-86 | A word is required if and only if one of five hundred tries is free on the board that the words before it have left. |
| WordSearchLuck.TopThirdComes | frontend/packages/engine/src/games/WordSearchEngine.ts:47-50 | The generator never avoids the diagonal for long: whatever the seed, of every third number one within 500 lies in the third of the range that draws it. |
| WordSearchLuck.FirstWordIsPlaced | frontend/packages/engine/src/games/WordSearchEngine.ts:51-86 | So whatever the seed, the first word tried is placed whenever it is no longer than either side of the board. |
| WordSearchLuck.DrawnLiesOnIff | frontend/packages/engine/src/games/WordSearchEngine.ts:60-72 | A drawn spot lies on the board, except that an upright word may be drawn one column past the last and a level one one row past the last. |
| WordSearchLuck.EveryDirectionOccurs | frontend/packages/engine/src/games/WordSearchEngine.ts:60-64 | All three directions occur. |
| WordSearchLuck.DrawnFromSeedOne | frontend/packages/engine/src/games/WordSearchEngine.ts:47-72 | The first try of a word of two letters from seed 1 on five by five. |
| WordSearchLuck.AnyLetterMayFillIn | frontend/packages/engine/src/games/WordSearchEngine.ts:88-95 | A blank cell may get any letter of the alphabet. |
| Draws.NextOfPrevious | frontend/packages/engine/src/games/WordSearchEngine.ts:47-50 | The generator reaches every number below its modulus. |
| Draws.SeedFor | frontend/packages/engine/src/games/WordSearchEngine.ts:47-50 | So every index of a range is drawn by some seed. |
| WordSearch.WordSearchEngine.TryToPlace | frontend/packages/engine/src/games/WordSearchEngine.ts:57-78 | Takes the first free spot of the 500 that the seed draws, or none and leaves the grid alone; words placed before keep standing. |
| WordSearch.WordSearchEngine.CanPlaceWord | frontend/packages/engine/src/games/WordSearchEngine.ts:98-109 | True exactly when each cell of the line is on the board and blank or already right. |
| WordSearch.WordSearchEngine.PlaceWord | frontend/packages/engine/src/games/WordSearchEngine.ts:111-115 | The word stands on its line and no letter was overwritten. |
| WordSearch.StampedElsewhere | frontend/packages/engine/src/games/WordSearchEngine.ts:111-115 | No cell off the line changes. |
| WordSearch.AlwaysWinnable | frontend/packages/engine/src/games/WordSearchEngine.ts:117-141 | On a board where every required word stands, dragging along each word's line at least once, in any order and each from either end, finishes with 100 points a word, even when one word is another's reverse. |
| WordSearch.AnyOrderFinishes | frontend/packages/engine/src/games/WordSearchEngine.ts:117-141 | The same for the texts of the selections; a round without required words never finishes. |
| WordSearch.TouchedWordsAreFound | frontend/packages/engine/src/games/WordSearchEngine.ts:117-141 | A word read once, forwards or backwards, has found itself or its reverse; read twice, both. |
| WordSearch.PlayKeepsSound | frontend/packages/engine/src/games/WordSearchEngine.ts:117-141 | Over any selections: found words are distinct required words, the score is 100 for each, and the round is finished exactly when there are required words and all are found. |
| WordSearch.WordSearchEngine.CheckWord | frontend/packages/engine/src/games/WordSearchEngine.ts:117-141 | Reads the selection cell by cell; counts the forward reading first and the backward one only otherwise; a row outside the grid is an exception that changes nothing. |
| WordSearch.CreditsForwardsFirst | frontend/packages/engine/src/games/WordSearchEngine.ts:117-141 | A selection credits the text it reads if that is wanted and not found, else the text backwards if that is, and nothing otherwise. |
| WordSearch.SpellFailsIff | frontend/packages/engine/src/games/WordSearchEngine.ts:117-125 | Reading a selection fails if and only if it has a cell in a row outside the grid. |
| WordSearch.SpellSkips | frontend/packages/engine/src/games/WordSearchEngine.ts:117-125 | A cell in a column outside the grid reads as nothing. |
| WordSearch.WordSearchEngine.Reset | frontend/packages/engine/src/games/WordSearchEngine.ts:157-162 | Back to no found words on the same solvable grid. |
| WordSearch.FindWordInGrid | frontend/src/features/games/WordSearchScene.ts:274-297 | Returns the cells of a straight line of the word in one of the eight directions, if and only if the word is not empty and such a line exists. |
| WordSearch.FoundWordsCanBeMarked | frontend/src/features/games/WordSearchScene.ts:274-297 | On a board where every required word stands, a found word has such a line exactly when it is not empty. |
| WordSearch.RedrawFound | frontend/src/features/games/WordSearchScene.ts:250-272 | A mark is drawn for exactly the found words that are not empty, and spells the word. |
| SnakesBoard.NumberToSquare | frontend/packages/engine/src/games/snakes/BoardMap.ts:1-19 | A number has a square exactly when it is in 1..w*h, the square is on the board, and cellAt leads back to the number. |
| SnakesBoard.SquareToNumber | frontend/src/features/content/maker/snakesLayout.ts:51-56 | Every square on the board has a number in 1..w*h that leads back to the square; with the row above, two inverse bijections for all sizes. |
| SnakesBoard.NumbersBeginAtTheBottomLeft | frontend/packages/engine/src/games/snakes/BoardMap.ts:1-19 | The numbers begin at the bottom left, run to the right on the first row and rise by a row after every row's length of them. |
| SnakesBoard.ConsecutiveNumbersTouch | frontend/packages/engine/src/games/snakes/BoardMap.ts:1-19 | Consecutive numbers lie on orthogonally adjacent squares. |
| SnakesBoard.DrawnAtItsSquare | frontend/src/features/content/maker/snakesLayout.ts:58-69 | A token is drawn halfway between the edges of the square that the board map gives for its position, or for the nearest number on the board. |
| SnakesBoard.DrawnApart | frontend/src/features/content/maker/snakesLayout.ts:58-69 | Different numbers are drawn at different points. |
| SnakesLayout.MaxFeatureCount | frontend/src/features/content/maker/snakesLayout.ts:24-26 | The largest number of which twice as many still fit beside the first and the last cell. |
| SnakesLayout.UptoCount | frontend/src/features/content/maker/snakesLayout.ts:77-78 | Pigeonhole: each used start takes away at most one candidate cell. |
| SnakesLayout.LinkMaker.MakeLink | frontend/src/features/content/maker/snakesLayout.ts:71-93 | Returns the link that the state draws; none exactly when every inner cell is used, otherwise a fresh start, an end strictly below or above it as its kind asks, on the board, and the start remembered. |
| SnakesLayout.AnyStartIsDrawn | frontend/src/features/content/maker/snakesLayout.ts:71-93 | Every free cell is the start of the link that some state draws. |
| SnakesLayout.AnyEndIsDrawn | frontend/src/features/content/maker/snakesLayout.ts:71-93 | From a start every end that the link's kind allows is drawn by some state. |
| SnakesLayout.UptoMeans | frontend/src/features/content/maker/snakesLayout.ts:77-78 | The candidates are exactly the unused cells between the first and the last one. |
| SnakesLayout.UptoRises | frontend/src/features/content/maker/snakesLayout.ts:77-78 | They are listed in rising order. |
| SnakesLayout.TruncMeans | frontend/src/features/content/maker/snakesLayout.ts:99-102 | Counts are cut towards zero before they are clamped. |
| SnakesLayout.GenerateSnakeLadderLinks | frontend/src/features/content/maker/snakesLayout.ts:28-49 | For every size and seed: exactly the clamped numbers of snakes and ladders, the ones that the seed draws one after the other, starts distinct and in 2..cells-1, snakes down, ladders up, ends on the board. |
| SnakesLayout.ValidateGo | backend/internal/levels/service.go:1116-1161 | The server accepts exactly the boards whose numbers fit 32 bits, whose links all go their way, lie on the board and have distinct starts, with positions on the board, its size computed in 32 bits. |
| SnakesLayout.ValidateZod | frontend/packages/schema/snakes.ts:1-59 | The schema's issue count is zero exactly for the boards it is meant to accept. |
| SnakesLayout.DirectedMeans | backend/internal/levels/service.go:1116-1161 | What both ask of the links: snakes lead down, ladders up, and no two links start on one cell. |
| SnakesLayout.WrapMeans | backend/internal/levels/service.go:1116-1161 | The server's product is the true one off by a multiple of 2^32, in the range of 32 bits. |
| SnakesLayout.GoAcceptsIff | backend/internal/levels/service.go:1116-1161 | The server accepts a board if and only if the schema does, all its numbers fit 32 bits, and the positions and all link ends are on the board. |
| SnakesLayout.GeneratedPasses | frontend/src/features/content/maker/snakesLayout.ts:28-49 | A generated layout passes both validators. |
| SnakesReach.RunIsSoundIff | frontend/packages/engine/src/games/snakes/SnakeLadderEngine.ts:45-152 | For every content: both tokens stay on the track, throws are in 1..6 and alternate, each token stands where its own throws lead, and the match is over exactly when the recorded winner stands on the last cell, over every run of calls, if and only if the start is on the track before its end and no cell off the track is reached from it by at most as many throws as there are cells. |
| SnakesReach.RunIsSound | frontend/packages/engine/src/games/snakes/SnakeLadderEngine.ts:45-152 | In particular on a track of six cells or more with start before end and no link past the end. |
| SnakesReach.AcceptedIsPlayableIff | backend/internal/levels/service.go:1116-1161 | Content that the server accepts is of that kind if and only if its start is before its end, its end is the sixth cell or later, and no link ends past it; the server checks none of the three. |
| SnakesReach.LadderPastEndExample | frontend/packages/engine/src/games/snakes/SnakeLadderEngine.ts:59-98 | Both validators accept a ladder past the end, from which one throw leads to cell -1. |
| SnakesReach.StartPastEndExample | frontend/packages/engine/src/games/snakes/SnakeLadderEngine.ts:59-66 | Both accept a start past the end, from which one throw leads to cell -81. |
| SnakesGame.BounceStaysOnIff | frontend/packages/engine/src/games/snakes/SnakeLadderEngine.ts:59-66 | Bouncing back keeps every token on the track if and only if the track has six cells or more. |
| SnakesGame.ShortTrackExample | frontend/packages/engine/src/games/snakes/SnakeLadderEngine.ts:51-71 | On five cells a legal match puts the player on cell 0. |
| SnakesGame.DifficultyChangesNothing | frontend/packages/engine/src/games/snakes/SnakeLadderEngine.ts:117-135 | The machine's difficulty changes no match: its chance to fail depends on it only where the last cell is out of reach. |
| SnakesGame.MachineThrows | frontend/packages/engine/src/games/snakes/SnakeLadderEngine.ts:117-135 | The machine throws exactly what it needs when the last cell is at most six away and the decision is above 0.8, and what the die shows otherwise, at every difficulty. |
| SnakesGame.FacesShareTheDraws | frontend/packages/engine/src/games/snakes/SnakeLadderEngine.ts:54 | Each face of the die shows for its sixth of the draws. |
| SnakesGame.EveryLinkIsTaken | frontend/packages/engine/src/games/snakes/SnakeLadderEngine.ts:73-85 | Where no two links start on one cell, a token that lands on a start is moved to that link's end, and stays anywhere else. |
| SnakesGame.LaddersWin | frontend/packages/engine/src/games/snakes/SnakeLadderEngine.ts:73-85 | A ladder wins over a snake on its cell. |
| SnakesGame.CanComeHome | frontend/packages/engine/src/games/snakes/SnakeLadderEngine.ts:59-98 | When no six cells in a row hold the heads of snakes and the last cell holds none, some throws, no more than cells are left, bring a token home. |
| SnakesGame.WallHolds | frontend/packages/engine/src/games/snakes/SnakeLadderEngine.ts:59-98 | Six such heads in a row that lead below them, with no ladder across, keep a token below them whatever is thrown. |
| SnakesReach.CanWinIff | frontend/packages/engine/src/games/snakes/SnakeLadderEngine.ts:59-98 | On any board where no token leaves the track, one can come home if and only if the last cell is among those reached by at most as many throws as the board has cells. |
| SnakesReach.LostBoardsHaveWalls | frontend/packages/engine/src/games/snakes/SnakeLadderEngine.ts:59-98 | A playable board that cannot be won has six heads in a row, or one on its last cell. |
| SnakesGame.FewSnakesCanBeWon | frontend/src/features/content/maker/snakesLayout.ts:28-49 | A generated layout with fewer than six snakes is playable and can always be won. |
| SnakesGame.SnakeLadderEngine.Roll | frontend/packages/engine/src/games/snakes/SnakeLadderEngine.ts:51-71 | The whole new state of a player's throw, or none out of turn. |
| SnakesGame.SnakeLadderEngine.PlayAITurn | frontend/packages/engine/src/games/snakes/SnakeLadderEngine.ts:113-152 | The whole new state of the machine's throw, or none out of turn. |
| SnakesGame.SnakeLadderEngine.ResolveTile | frontend/packages/engine/src/games/snakes/SnakeLadderEngine.ts:73-111 | A ladder on the cell overrides a snake, and only the last cell ends the match. |
| Puzzle.PiecesSpellThePhrase | frontend/packages/engine/src/games/PuzzleEngine.ts:45-61 | In original order the pieces spell the phrase, and no two lengths differ by more than one. |
| Puzzle.PuzzleEngine.SplitPhrase | frontend/packages/engine/src/games/PuzzleEngine.ts:45-61 | The cutting loop makes exactly those pieces. |
| Puzzle.PuzzleEngine.ShuffleInPlace | frontend/packages/engine/src/games/PuzzleEngine.ts:70-73 | In place on the array, exactly the shuffle that the seed gives. |
| Puzzle.ShuffleKeepsPieces | frontend/packages/engine/src/games/PuzzleEngine.ts:70-73 | Every shuffle keeps the pieces. |
| PuzzleShuffle.ShuffledByItsDraws | frontend/packages/engine/src/games/PuzzleEngine.ts:70-73 | The seed's shuffle is the swaps of the places that its numbers draw. |
| PuzzleShuffle.EveryOrderIsDrawn | frontend/packages/engine/src/games/PuzzleEngine.ts:70-73 | Every order of the pieces comes from some draws, each of a place no later than its own. |
| PuzzleShuffle.EveryOrderIsDrawnOnce | frontend/packages/engine/src/games/PuzzleEngine.ts:70-73 | And from no others, so that fair draws make all orders equally likely. |
| Puzzle.PuzzleEngine.GeneratePieces | frontend/packages/engine/src/games/PuzzleEngine.ts:45-78 | The pieces of the phrase in the order of the first shuffle that does not solve the puzzle, or of the hundredth. |
| PuzzleShuffle.StartOfARound | frontend/packages/engine/src/games/PuzzleEngine.ts:63-78 | A round starts from the first shuffle in a row that does not put the pieces in order, or from the hundredth. |
| Puzzle.PuzzleEngine.Create | frontend/packages/engine/src/games/PuzzleEngine.ts:21-38 | Fails exactly outside 3..20 pieces or for an empty phrase; otherwise a fresh round with the pieces of the phrase in some order. |
| Puzzle.SpliceKeepsPieces | frontend/packages/engine/src/games/PuzzleEngine.ts:84-86 | Moving a piece keeps the pieces. |
| Puzzle.SpliceShifts | frontend/packages/engine/src/games/PuzzleEngine.ts:84-86 | It lands where it is told, and the pieces between close up by one place. |
| Puzzle.SpliceBack | frontend/packages/engine/src/games/PuzzleEngine.ts:84-86 | Moving it back restores the order. |
| Puzzle.PlayKeepsSound | frontend/packages/engine/src/games/PuzzleEngine.ts:80-101 | Over any moves: the pieces stay those of the phrase, and a finished round is in order with max(100, 1000 - 10 * moves) points. |
| Puzzle.SolvedSpells | frontend/packages/engine/src/games/PuzzleEngine.ts:95-97 | In order means in the original order, so a finished round spells the phrase. |
| Puzzle.AlwaysSolvable | frontend/packages/engine/src/games/PuzzleEngine.ts:80-101 | From any order n - 1 moves suffice to finish, and a fresh round so played scores at least 810. |
| Puzzle.PuzzleEngine.ReorderPieces | frontend/packages/engine/src/games/PuzzleEngine.ts:80-93 | The two splices, the move count, the completion test and the score: the whole new state, unchanged when finished or out of range. |
| Puzzle.MoveMeans | frontend/packages/engine/src/games/PuzzleEngine.ts:80-101 | A move counts once, and finishes exactly when it leaves the phrase in order; a finished round or a place that is not there changes nothing. |
| Accounts.EveryRunIsSafe | backend/internal/auth/service.go:217-409 | Over every interleaving from empty tables: an issued token that passes the version check belongs to an active account, an active or suspended minor has an unrevoked consent, there is one consent for each followed link, and nobody ages up more than three times. |
| Accounts.StepKeepsSound | backend/internal/auth/service.go:217-409 | Every single statement or transaction keeps these facts, although reading a row and signing a token from it are separate steps. |
| AccountsRows.AccountAfter | backend/internal/auth/service.go:217-409 | Every field of an account's row after every step: what moves its version, deletes it, makes it adult, counts an age-up, makes it an administrator, and which status it has. |
| AccountsRows.AccountsGrow | backend/internal/auth/service.go:139-213 | The only new rows are registrations, with their first values. |
| AccountsRows.ConsentAfter | backend/internal/repository/privacy_queries.go:145-161 | A consent keeps its user, is revoked exactly by its user's cancellation or age-up, and is added exactly by following an open link. |
| AccountsRows.LinkAfter | backend/internal/auth/service.go:771-868 | A consent link is dropped exactly when its user asks for another before it was followed, and is marked exactly by following it in time. |
| AccountsRows.RequestAfter | backend/internal/auth/service.go:571-642 | A request is decided once, by the first step that resolves it. |
| AccountsRows.ReadsAfter | backend/internal/auth/service.go:217-330 | Rows are read exactly by logins with the right password and refreshes with an unrevoked, unexpired token, of active accounts; tokens are signed for rows that were read. |
| AccountsRows.AdmittedAfter | backend/internal/transport/router.go:363-372 | Age-up requests are let in with a valid issued token, and each is used up once. |
| AccountsRows.AdministratorsAreNotSuspended | backend/internal/repository/maintenance_queries.go:37-53 | An administrator is never suspended for inactivity. |
| Accounts.RevokedForEver | backend/internal/transport/router.go:363-372 | An issued token that has once stopped being valid never becomes valid again, whatever happens next. |
| AccountsRows.RefreshAfter | backend/internal/repository/auth_queries.go:37-77 | A refresh token keeps its user and is revoked exactly by name, with all of its user's, or by its user's cancellation. |
| AccountsRows.AllOfOneUserRevoked | backend/internal/repository/auth_queries.go:69-77 | After a logout or a cancellation every refresh token of the user is revoked, and all others are as before. |
| AccountsRows.RevokedRefreshIsDead | backend/internal/auth/service.go:301-347 | Over every run a revoked refresh token stays revoked and never has a row read again. |
| AccountsRows.RefreshWorksIff | backend/internal/auth/service.go:301-362 | Over every run a refresh token works for a user if and only if some step stored it for that user and no later step has revoked it. |
| Accounts.DeletedIsAbsorbing | backend/internal/repository/privacy_queries.go:127-143 | A deleted account stays deleted, and no token of it is ever valid. |
| Accounts.CutOffIff | backend/internal/auth/service.go:350-362 | Exactly a logout, a suspension of an active player and a cancellation cut off a valid token. |
| Accounts.PendingOpensIff | backend/internal/repository/privacy_queries.go:41-48 | In every run an account that waits for a tutor becomes active exactly by an unused, unexpired link of its own. |
| Accounts.WaitingAreNotAdmitted | backend/internal/transport/router.go:117-124 | An account that waits for a tutor has no issued token, so no request of its ever passes the version check. |
| Accounts.SuspensionLiftedIff | backend/internal/auth/service.go:366-409 | A suspended account can ever be active again if and only if an age-up request of its that passed the version check before is still unserved and it has age-ups left. |
| Accounts.SuspensionEndsInDeletion | backend/internal/auth/service.go:366-409 | With no such age-up request, or no age-ups left, a suspension ends in nothing but deletion, whatever happens. |
| Accounts.OneStepFromSuspended | backend/internal/auth/service.go:366-409 | While an account is suspended no issued token of its is valid, and the only step that makes it active is an age-up whose request passed it before. |
| Accounts.LiftedSuspensionExample | backend/internal/auth/service.go:366-409 | Such a run: log in, have the age-up pass the version check, be suspended. |
| Accounts.TokenHoldersNeverWait | backend/internal/auth/service.go:364-409 | No account that was ever issued a token waits for a tutor, so the change that age-up is documented for is out of reach of its own endpoint. |
| Accounts.DeletedAreRevokedIff | backend/internal/auth/service.go:814-868 | A step leaves a deleted account with an unrevoked consent if and only if it follows an open consent link of a deleted account. |
| Accounts.LateConsentExample | backend/internal/auth/service.go:814-868 | Register, ask a tutor, cancel: the link can still be followed. |
| AccountsServer.AccountDatabase.Register | backend/internal/auth/service.go:139-213 | A new account has version 1; an adult starts active, a minor waits for a tutor; a known id changes nothing. |
| AccountsServer.AccountDatabase.ReadForLogin | backend/internal/auth/service.go:217-261 | A row is handed on to signing exactly for an active account with the right password, with its current version. |
| AccountsServer.AccountDatabase.ReadForRefresh | backend/internal/repository/auth_queries.go:37-58 | A row is handed on to signing, with its current version, exactly for an unrevoked, unexpired refresh token of an active account that is not deleted. |
| AccountsServer.AccountDatabase.Refresh | backend/internal/auth/service.go:301-347 | Undisturbed, a refresh uses its token up and puts a valid access token and one new refresh token in its place; a token that does not work changes nothing, and a hash that is taken leaves the old token used up. |
| AccountsServer.AccountDatabase.Authenticate | backend/internal/transport/router.go:363-372 | Admits a request exactly for a genuine token with the current version of an account that is not deleted; that account is active. Only a request to age up is remembered as waiting to be served. |
| AccountsServer.AccountDatabase.Logout | backend/internal/auth/service.go:350-362 | Two separate statements; afterwards no token issued before is valid, and exactly the user's refresh tokens are revoked. |
| AccountsServer.AccountDatabase.AgeUp | backend/internal/auth/service.go:366-409 | An age-up request that passed the version check, statement by statement; a fourth attempt is refused and its increment rolled back. |
| AccountsServer.AccountDatabase.StoreTutorConsentToken | backend/internal/auth/service.go:771-801 | A new link replaces the account's links that nobody has followed, and no others. |
| AccountsServer.AccountDatabase.ProcessTutorConsentVerification | backend/internal/auth/service.go:814-868 | Statement by statement; a link works exactly once and only before it expires, and activates only an account that waits. |
| AccountsServer.AccountDatabase.SuspendInactivePlayers | backend/internal/repository/maintenance_queries.go:37-53 | Suspends exactly the inactive active players and moves their versions on. |
| AccountsServer.AccountDatabase.CancelUser | backend/internal/privacy/privacy.go:41-73 | Statement by statement; revokes consents and refresh tokens and deletes an account once. |
| AccountsServer.AccountDatabase.ResolveArcoRequest | backend/internal/auth/service.go:571-642 | A waiting request is decided once, and an approved cancellation leaves a deleted account. |

## Left out

- CanBuildConnectedCrossword: takes the list already ordered by falling length, because `sort.Slice` is not stable and any order it leaves is allowed.
- BuildCrosswordLayout: takes answers that are already normalised and clues that are already trimmed; Unicode normalisation is not modelled, and the two normalisers treat Ñ differently. The list of left over words that the greedy loop collects is overwritten by the filter at its end, so only the filter is modelled.
- ProcessSync: the signature check is a Boolean parameter; rejection reasons, timestamps, 32-bit overflow of XP and the response body are not modelled.
- CompleteLevel: timestamps and the response's streak length are not modelled; the first and last completion times are one flag.
- OrderDoesNotMatter: first and last completion times, which do depend on the order of arrival, are not part of the compared state.
- SyncClient.FetchWithRetry: the back-off delay is not modelled; what the network does to each exchange, and whether a refresh succeeds, are parameters.
- SyncClient.LocalQueue.SyncLocalQueue: rows are kept in the order of creation; the guards for a missing desktop shell, user or device, the single-flight flag, and pending counts are not modelled, and one client has one user. Overlapping loops are covered by `SyncProtocol`.
- EffectsAreExactlyOnce: holds for each event id; a failed online request that is also queued is a second event.
- Signing.CanonicalSigningPayload: text is ASCII, where JavaScript's and Go's orders of strings agree; MACs, password hashes and JWTs are not modelled.
- WordSearch.WordSearchEngine.Create: words are already normalised and the seed is not negative; each random number is computed exactly, without rounding.
- WordSearch.WordSearchEngine.CheckWord: positions are integers; listeners and notifications are not modelled in any engine.
- DrawnAtItsSquare: coordinates are exact, not rounded.
- LinkMaker.MakeLink: the seed is finite and small enough that its first product is exact.
- ValidateGo: board size, positions and links only; questions and the machine's settings would add easy checks.
- ValidateZod: likewise.
- SnakeLadderEngine.PlayAITurn: the weighted choice is the comparison it comes down to for its two options; states passed through within one call and messages are not modelled.
- PuzzleEngine.Create: the seed is not negative; piece ids are left out because they repeat the original index.
- AccountDatabase.Logout: the step may happen at any time; only age-up is tied to a request that passed the version check, the other guarded endpoints are not.
- AccountDatabase.Register: input checks and the uniqueness of e-mail addresses are left out; a refused registration changes nothing.
- AccountDatabase.StoreTutorConsentToken: the preceding status check, registration proof and e-mail are left out, so it may happen at any time.
- AccountDatabase.ProcessTutorConsentVerification: whether a link has expired is a parameter, as for refresh tokens.
- AccountDatabase.SuspendInactivePlayers: the set of inactive players is a parameter.
- AccountDatabase.CancelUser: progress tables are in `LedgerServer`; pseudonymous e-mail and the wipe of devices are not repeated here.
- AccountDatabase.ResolveArcoRequest: the administrator's role, the summary and the audit log are left out.
- AccountsRows.RevokedRefreshIsDead: the purge of expired and long revoked refresh tokens is not modelled.
- Single use of refresh tokens is not claimed: reading and revoking one are two statements.
- Trivia, memory and fake news engines, content editing, listing and pagination would add only easy members.
- HTTP handlers, rate limits, mail, configuration, pages, drawing, timers and SQLite details.
