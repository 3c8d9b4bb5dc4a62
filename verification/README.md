# Mimir backend: a verified model of its state-keeping logic

Mimir is a document platform backend. This project models the parts of it that keep redundant,
shared or historical state consistent, and proves what they keep over every run:

- **Folders** (`FolderForest`, `FolderRewrite`, `FolderFilter`, `FoldersRepository`, `FoldersService`,
  `FolderEffects`, `FolderExamples`, `Like`): folders store parent, name, path and depth redundantly. Renaming or moving
  one repairs its whole subtree with one prefix substitution over the rows whose path is
  `LIKE oldPath || '%'`. The pattern is not escaped. The main theorem says exactly when the table is a
  forest again; from it follow the runs, the exact conditions under which create, rename and move
  succeed, and what the "include subfolders" filter finds.
- **Rendering** (`RenderWalk`): a walk over a block tree that emits text and offset anchors, then trims
  the text and clamps the anchors.
- **Document list query** (`ListQuery`, `Paging`, `Like`): a compiler from filters to clauses with
  positional parameters, proved against the direct reading of the filters; and when pages that are
  separate queries fit together.
- **Invalidation subscriber** (`PubSub`): two threads that share three fields without a lock, as a
  state machine in which every read and write of a shared field is a step.
- **View throttle** (`LruThrottle`, `ViewThrottle`): a shared `SET NX EX` tier with a bounded
  per-worker cache behind it.
- **Version histories** (`SchemaHistory`, `SchemaEffects`, `GoldenSets`, `GoldenSetEffects`): a mutable current row against an append-only
  history.
- **Caches** (`ExpiryCache`, `ResponseCache`), **request metrics** (`Metrics`), and the **`mimir://`
  URIs** (`MimirUri`).

Code that updates state in place is modelled by classes and methods with loops, each proved against a
specification function (`Step`, `FallbackStep`, `RewriteRows`, `Emitted`, ..); the lemmas about runs
are about those functions, and the effect lemmas write out, without them, what each operation does. SQL tables are maps and sequences, a repository call is one atomic
transaction, and clocks, new ids and the success of broker calls are parameters. `Inv` as a
precondition of a repository method is what the lemma about runs shows to hold in every state.

## Findings

Places where the code does not do what its documentation or comments suggest. Each has its exact
condition and a concrete input in the model.

- **Path patterns are not escaped** (app/repositories/folders_repository.py:159-170 and 208-224). A rename
  or move keeps the forest iff the old path's pattern fits the owner's rows
  (`FolderRewrite.RewriteKeepsForestIff`, over runs `FoldersService.RunSoundIff`). Renaming `%` to `q`
  turns the path `/abc/` of an unrelated folder into `/q/c/` (`FolderExamples.PercentNameBreaksForest`);
  renaming `a\b` leaves its child behind (`FolderExamples.BackslashNameLosesChild`). Both calls succeed. A `_`
  cannot break the forest (`FolderFilter.TameRewriteConflictsOrFits`), but it can make a call fail with a
  spurious conflict (`FolderExamples.UnderscoreNameConflicts`).
- **The subfolder filter takes in look-alikes** (app/repositories/documents_repository.py:181-190). It names no
  owner and does not escape the path. It is right iff no other folder, of whatever owner, has a path of the
  same length that looks like the one asked for (`FolderFilter.FilterFitsIff`): it fails for two owners
  with a folder of one name (`FolderExamples.OwnersShareFilter`), and for one owner with `a_` and `ab`
  (`FolderExamples.UnderscoreFilterFindsStranger`). For the same reason a rename or move can change what it
  finds (`FolderFilter.FilterUnchangedIff`, `FolderExamples.RenameChangesFilter`).
- **Pages can repeat and skip rows** (app/repositories/documents_repository.py:216-225): the sort keys carry no
  tie breaker, so this happens iff a tie straddles a page boundary (`ListQuery.DocumentPagesTileIff`,
  `ListQuery.TiedPairRepeats`).
- **A type deleted at version 1 cannot be created again** (app/repositories/extraction_schema_repository.py:123-158
  against `UNIQUE (doc_type_code, version)` in app/db/connection.py:1467): `SchemaHistory.CreateSucceedsIff`,
  `SchemaHistory.DeletedTypeCannotReturn`.
- **An update or rollback fails while another row of the type, deleted or not, stands at the next version**
  (app/repositories/extraction_schema_repository.py:453-473 and 580-595): `SchemaHistory.UpdateSucceedsIff`,
  `SchemaHistory.RollbackSucceedsIff`, `SchemaHistory.DeletedRowBlocksUpdate`.
- **Restoring can leave two live rows of a type** (app/repositories/extraction_schema_repository.py:654-665), iff
  the type has a second row at all: `SchemaHistory.RestoreOneLiveIff`, `SchemaHistory.RestoreRevivesSecondRow`.
- **A message may still be dispatched after `stop()` has set its event** (app/cache/pubsub.py:268-284), iff the
  supervisor has passed its check of the event and holds a handle or a message: `PubSub.LateDispatchIff`,
  `PubSub.LateDispatchPossible`.
- **A cache read may answer with an older value** (app/cache/response_cache.py:70-92), iff the last write of the key
  went to the other tier: `ResponseCache.AnswerCurrentIff`, `ResponseCache.StaleRead`.

## Model

| member | source | states |
|---|---|---|
| Like.EscapeIsPerCharacter | app/repositories/documents_repository.py:126-131 | The chained replaces (backslash, `%`, `_`) equal one pass that escapes each special character once. |
| Like.EscapedMatchesItself | app/repositories/documents_repository.py:124-132 | An escaped text followed by any pattern matches a string iff the string starts with the text (up to folding) and the rest matches the pattern. |
| Like.EscapedSubstringSearch | app/repositories/documents_repository.py:120-155 | `%esc(q)%` under ILIKE matches a title iff q occurs in it, up to case folding. |
| Like.EscapedPrefixSearch | app/repositories/users_repository.py:171-187 | `esc(q)%` under ILIKE matches a name iff the name starts with q, up to case folding. |
| Like.UnderscorePrefix | app/repositories/folders_repository.py:159-170 | Without `%` and backslash, an unescaped prefix pattern is a position-by-position comparison in which `_` stands for any character. |
| Like.PrefixPatternExactIffPlain | app/repositories/folders_repository.py:159-170 | The unescaped pattern `p%` means "starts with p" for all strings iff p contains none of the three special characters. |
| FolderForest.ChainsEnd | app/repositories/folders_repository.py:49-87 | In a well-formed table parent pointers are acyclic and every chain reaches a root after exactly `depth` steps. |
| FolderForest.ChainPrefix | app/repositories/folders_repository.py:49-59 | An ancestor's path is a prefix of its descendants' paths, and it has the same owner and no greater depth. |
| FolderForest.PrefixIsAncestor | app/repositories/folders_repository.py:49-59 | Conversely, every prefix of a path that ends in the separator is the path of an ancestor. |
| FolderForest.IsDescendantIsOnChain | app/repositories/folders_repository.py:257-274 | The path comparison is true iff the first folder is the second one or lies on its parent chain. |
| FolderRewrite.RenamedRowPlaceable | app/repositories/folders_repository.py:128-155 | Cutting `len(name)+1` characters off the old path recovers the parent's path, so the renamed row agrees with its parent. |
| FolderRewrite.FreePathHasNoExtension | app/repositories/folders_repository.py:128-225 | If the new path is free for the owner, so is every extension of it: no rewritten path can meet an existing one. |
| FolderRewrite.FittingRewriteShifts | app/repositories/folders_repository.py:148-225 | If the pattern fits, the two UPDATEs change the folder and the rows below it (path prefix and depth) and no other row. |
| FolderRewrite.ShiftKeepsForest | app/repositories/folders_repository.py:128-225 | Shifting a subtree to a free place keeps path, depth and parent of every row in agreement and paths unique. |
| FolderRewrite.ForestMeansPatternFits | app/repositories/folders_repository.py:159-170 | If the rewritten table is a forest, the pattern selected no row outside the subtree and missed none inside. |
| FolderRewrite.RewriteKeepsForestIff | app/repositories/folders_repository.py:128-225 | Main result: rename and move keep the forest iff the old path's pattern means "starts with the old path" on the owner's rows. |
| FolderFilter.PlainPathFits | app/repositories/folders_repository.py:214-222 | A path without special characters fits every table. |
| FolderFilter.TameRewriteConflictsOrFits | app/repositories/folders_repository.py:159-170 | With `_` as the only special character, the rewritten paths are unique iff the pattern fits: a bad rewrite always hits the unique constraint. |
| FolderFilter.SubtreeFilterExactIff | app/repositories/documents_repository.py:176-191 | For every placement of documents the filter finds exactly those in the folder or below it, iff the filter's pattern picks exactly the descendants. |
| FolderFilter.FilterFitsIff | app/repositories/documents_repository.py:181-190 | For a path free of `%` and backslash the filter picks exactly the descendants iff no other folder, of any owner, has a path of the same length that looks like it (`_` standing for any character). |
| FolderFilter.FilterUnchangedIff | app/repositories/documents_repository.py:176-191 | A rename or move leaves the documents found unchanged, for every placement, iff each folder outside the subtree looks like the new path just when it looks like the old one. |
| FolderFilter.FilterUnchangedByRewrite | app/repositories/documents_repository.py:176-191 | Between paths without special characters: iff the folders of other owners start with the new path just when they start with the old one; with one owner, always. |
| FoldersRepository.FoldersRepository.Create | app/repositories/folders_repository.py:69-87 | Inserts exactly the given row, or reports the violated constraint and changes nothing. |
| FoldersRepository.FoldersRepository.Rename | app/repositories/folders_repository.py:128-172 | Both statements run on the table as `RewriteRows` says; a missing folder or a violated constraint changes nothing. |
| FoldersRepository.FoldersRepository.Move | app/repositories/folders_repository.py:174-225 | The same for a new parent, with the depth difference applied to the rewritten rows; the row it writes is the one of `FolderEffects.MoveEffect`. |
| FoldersRepository.FoldersRepository.DeleteIfEmpty | app/repositories/folders_repository.py:227-255 | Deletes the folder iff it exists and holds neither a subfolder nor a document; nothing else changes. |
| FoldersRepository.FoldersRepository.SetFolder | app/repositories/folders_repository.py:280-306 | A document has at most one folder: placing replaces, None removes, other documents keep theirs. |
| FoldersService.FoldersService.Create | app/services/folders_service.py:74-113 | Agrees with `Step` in the new tables and in the error reported. |
| FoldersService.FoldersService.Rename | app/services/folders_service.py:137-155 | Agrees with `Step`; a unique violation is reported as a conflict. |
| FoldersService.FoldersService.Move | app/services/folders_service.py:157-224 | Agrees with `Step`, whose effect and errors `FolderEffects.MoveEffect` and `FolderEffects.MoveErrors` write out: ownership, cycle and depth checks in the code's order, then the rewrite. |
| FoldersService.FoldersService.Delete | app/services/folders_service.py:226-239 | Agrees with `Step`. |
| FoldersService.FoldersService.Place | app/services/folders_service.py:245-276 | Agrees with `Step`. |
| FoldersService.StepSoundIff | app/services/folders_service.py:74-276 | After a successful call the table is a forest within the depth limit, with placements into existing folders, iff the pattern used fits the rows; for a path free of `%` and backslash it always fits. |
| FoldersService.RunSoundIff | app/services/folders_service.py:74-276 | Over every run of calls by any owners all states are sound iff every successful rename and move used a pattern that fits. |
| FoldersService.TameRunIsSound | app/services/folders_service.py:74-276 | When no name contains `%` or a backslash, all states of every run are sound. |
| FoldersService.CreateSucceedsIff | app/services/folders_service.py:74-113 | Creation succeeds iff the name is valid, the parent is the caller's, the depth limit allows it and the path is free. |
| FoldersService.RenameSucceedsIff | app/services/folders_service.py:137-155 | For every input: a rename succeeds iff the caller owns the folder, the name is valid, the new path is free, and the pattern fits or (only with `%` or a backslash) its stray rows violate no constraint. |
| FoldersService.MoveSucceedsIff | app/services/folders_service.py:157-224 | For every input: a move succeeds iff both folders are the caller's, the target is not below the folder, the whole subtree stays within the depth limit, the new path is free, and the pattern fits or its stray rows violate no constraint. |
| FolderEffects.MoveEffect | app/repositories/folders_repository.py:194-225 | After a successful move the folder has the new parent, the path and depth under it, and its old name and owner; the rows the pattern selects get the new prefix and the shifted depth, and where the pattern fits these are exactly the rows below it; no other row, parent, name or placement changes. |
| FolderEffects.RenameEffect | app/repositories/folders_repository.py:128-172 | After a successful rename, at any depth, the folder has the new name in its row and path and keeps owner, parent and depth; the rows below follow, nothing else changes. |
| FolderEffects.CreateEffect | app/services/folders_service.py:74-113 | Creation adds the row with the path and depth under its parent and changes nothing else. |
| FolderEffects.DeleteEffect | app/services/folders_service.py:226-239 | Deletion removes the row iff the folder is the caller's and has neither subfolder nor document; otherwise it is not found or a conflict. |
| FolderEffects.PlaceEffect | app/services/folders_service.py:245-276 | Placing changes one document's folder iff the document is visible and the folder the caller's. |
| FolderEffects.CreateErrors | app/services/folders_service.py:83-113 | Exactly when creation reports not found, invalid or a conflict; nothing else is reported. |
| FolderEffects.RenameErrors | app/services/folders_service.py:145-155 | Exactly when a rename is not found or invalid; a taken path is a conflict. |
| FolderEffects.MoveErrors | app/services/folders_service.py:172-224 | Exactly when a move is not found or invalid (under itself, below itself, subtree too deep); a taken path is a conflict. |
| FolderExamples.PercentNameBreaksForest | app/repositories/folders_repository.py:148-170 | Renaming a folder named `%` succeeds and moves an unrelated folder to a wrong path. |
| FolderExamples.BackslashNameLosesChild | app/repositories/folders_repository.py:159-170 | Renaming `a\b` succeeds and leaves its child at the old path. |
| FolderExamples.UnderscoreNameConflicts | app/repositories/folders_repository.py:159-170 | Renaming `a_` to a free name beside `ab` is refused as a conflict. |
| FolderExamples.UnderscoreFilterFindsStranger | app/repositories/documents_repository.py:181-190 | Filtering on `a_` finds a document in its sibling `ab`. |
| FolderExamples.OwnersShareFilter | app/repositories/documents_repository.py:181-190 | Filtering on one owner's folder finds a document in another owner's folder of the same path. |
| FolderExamples.RenameChangesFilter | app/repositories/documents_repository.py:181-190 | Renaming `a` to `q` makes its filter find a document in another owner's `q`. |
| RenderWalk.Walker.EmitNode | app/mcp/tools.py:930-940 | Text, anchors and cursor stay in agreement with the list of emitted nodes; an empty text is not a node. |
| RenderWalk.Walker.Walk | app/mcp/tools.py:953-983 | The walk emits `Emitted(items)`: by the rows below, each block's own text, then its children's, then its siblings'. |
| RenderWalk.WalkBlocksForText | app/mcp/tools.py:916-997 | Returns the text of the emitted nodes, cut of its newlines at the end, with exactly one in markdown and none in plain text, and the clamped anchors. |
| RenderWalk.MarkdownText | app/mcp/tools.py:963-977 | The markdown of a block without children, kind by kind: heading with one to six marks by the clamped level, ordered and unordered item, paragraph, quote, section and appendix with and without content, any other kind. |
| RenderWalk.PlainText | app/mcp/tools.py:978-979 | The plain text of a block without children: its content on a line, nothing for no content. |
| RenderWalk.DocumentOrder | app/mcp/tools.py:953-983 | A block's own nodes and text come directly before its children's, and those before the next block's. |
| RenderWalk.EmittedLines | app/mcp/tools.py:961-979 | Every emitted rendering is non-empty and ends its line. |
| RenderWalk.AnchorsBeforeTrim | app/mcp/tools.py:930-940 | Before trimming, the anchors are disjoint, in order, and each cuts its node's text out of the full text. |
| RenderWalk.AnchorsPoint | app/mcp/tools.py:916-997 | Main result: for every tree and both formats there is one anchor for each emitted node with an id, in document order, disjoint, inside the final text; its slice is the node's rendering, less only newlines, and only if the text ends there. |
| RenderWalk.AnchorsTile | app/mcp/tools.py:916-997 | If all emitted nodes have ids, the anchors cover the final text without gaps. |
| ListQuery.BuildWhere | app/repositories/documents_repository.py:108-213 | On every database and row the generated clauses consume exactly the generated parameters and hold iff the row meets filters and viewer scope; where the folder filter fits, a folder with subfolders means what lies below it in the forest. |
| ListQuery.BuildOrder | app/repositories/documents_repository.py:216-225 | The result is the sub-sequence of the requested entries that name one of the four columns, directions included, or newest first if there is none. |
| ListQuery.FirstColumnDecides | app/repositories/documents_repository.py:216-225 | In every ordering the database may give, two rows that differ in the first requested column stand in its direction. |
| ListQuery.NewestFirst | app/repositories/documents_repository.py:223-224 | Without a requested column a row created later never comes after one created earlier. |
| ListQuery.BuildListQuery | app/repositories/documents_repository.py:85-244 | Data and count query share clauses and parameters, selecting as `BuildWhere` and sorting as `BuildOrder` says; the data query adds page size (20 by default, at most 200) and offset. |
| ListQuery.WhereIsAllHold | app/repositories/documents_repository.py:143-213 | Consuming parameters from the left gives each clause exactly the parameters generated for it. |
| ListQuery.AtomsSayWhatQueryAsks | app/repositories/documents_repository.py:111-209 | All generated clauses together hold iff the row is one the query asks for (no scope: no limit; empty scope: nothing), both with paths and with the forest. |
| ListQuery.CompiledWhereIsRight | app/repositories/documents_repository.py:108-213 | The two facts above combined, for all databases and rows. |
| ListQuery.SubfolderFilterMeansBelow | app/repositories/documents_repository.py:176-191 | Where the path filter fits, the compiled folder filter admits exactly the documents in the folder or below it. |
| ListQuery.AtMostIsPreorder | app/repositories/documents_repository.py:216-225 | The generated ORDER BY compares any two rows and is transitive. |
| ListQuery.DataQueryCutsPage | app/repositories/documents_repository.py:227-239 | The LIMIT and OFFSET generated for page k cut exactly the k-th page out of an ordering. |
| ListQuery.DocumentPagesTileIff | app/repositories/documents_repository.py:215-244 | The pages cut by the generated LIMIT and OFFSET show every selected document exactly once, however ties are broken on each page, iff no tie straddles a page boundary. |
| ListQuery.TiedPairRepeats | app/repositories/documents_repository.py:215-244 | Of two documents with equal sort keys, pages of one may show the first twice. |
| ListQuery.OneOrderingPages | app/repositories/documents_repository.py:215-244 | If the database keeps to one ordering, the pages so cut concatenate to all of it. |
| Paging.ClampPagination | app/repositories/pagination.py:23-66 | Limit within 1..max and kept if it was; offset non-negative and kept if it was. |
| Paging.PaginatePage | app/repositories/pagination.py:69-111 | Page at least 1, size within bounds, and the offset counts the full pages before it. |
| Paging.OneOrderingTiles | app/repositories/pagination.py:69-111 | If the database keeps to one ordering, pages 1..ceil(n/size) concatenate to exactly that ordering. |
| Paging.StrictBoundarySplits | app/repositories/pagination.py:69-111 | A boundary without a tie cuts every admissible ordering into the same two sets of rows. |
| Paging.TieRepeatsRow | app/repositories/pagination.py:69-111 | With a tie across a boundary there is a choice of orderings under which a row is shown twice. |
| Paging.PagesTileIff | app/repositories/pagination.py:69-111 | Pages, each from its own admissible ordering, always show every row once iff no tie straddles a boundary. |
| PubSub.StepInv | app/cache/pubsub.py:228-318 | Every step of either thread keeps the invariant on handles, flags, dispatches and backoff; before the event the connection is up exactly while the supervisor listens, with a handle in the field. |
| PubSub.RunInv | app/cache/pubsub.py:228-318 | The same over every interleaving. |
| PubSub.EveryRunIsSafe | app/cache/pubsub.py:197-318 | Once both threads are finished every installed handle is closed and both fields are reset; at most one dispatch begins after the event is set; the backoff is min(2^k, 30) after k failed attempts since the last completed one; before the event the connection is reported exactly while the supervisor listens. |
| PubSub.FailuresAreStreak | app/cache/pubsub.py:292-306 | The failures counted are those of the moves since the last completed subscription. |
| PubSub.Starts | app/cache/pubsub.py:293-295 | From the start the supervisor goes straight to subscribing. |
| PubSub.Connects | app/cache/pubsub.py:250-261 | A successful attempt installs a new handle, reports the connection, resets the backoff and goes on to listen. |
| PubSub.Retries | app/cache/pubsub.py:301-306 | A failed attempt waits, doubles the backoff up to 30 and tries again. |
| PubSub.Delivers | app/cache/pubsub.py:268-284 | While the connection stands every message read is dispatched, nothing else is, and reading goes on. |
| PubSub.Reconnects | app/cache/pubsub.py:269-318 | After a failing read seven more supervisor steps lead to the next attempt, with the handle closed and both fields reset. |
| PubSub.Stops | app/cache/pubsub.py:228-237 | Left alone, `stop()` sets the event, clears the connection, and closes and clears the handle. |
| PubSub.RanksFall | app/cache/pubsub.py:228-318 | Once the event is set each thread's own step brings it closer to its end, whatever the other does. |
| PubSub.ShutdownCompletes | app/cache/pubsub.py:228-318 | From any reachable state, `stop()` and at most eleven more supervisor steps end in a clean state, in any order. |
| PubSub.LateDispatchIff | app/cache/pubsub.py:263-284 | After the event is set some continuation dispatches a message iff the supervisor stands at reading one with a handle in the field, or at dispatching it. |
| PubSub.LateDispatchPossible | app/cache/pubsub.py:268-284 | A run from the start in which that happens. |
| LruThrottle.LruThrottle.ShouldEmit | app/audit/viewed_throttle.py:149-168 | The dictionary with its eviction loop does what `FallbackStep` says. |
| LruThrottle.CacheIsRecentPast | app/audit/viewed_throttle.py:159-166 | After any run the cache holds exactly the most recently emitted keys, at most `max` of them. |
| LruThrottle.BehindIsSince | app/audit/viewed_throttle.py:159-166 | The keys behind a key in the unbounded order are those emitted since its own last emission. |
| LruThrottle.EmitsIff | app/audit/viewed_throttle.py:149-168 | A call emits iff the key was never emitted, its last emission is at least a window ago, or at least `max` distinct other keys were emitted since. |
| LruThrottle.CacheOrdered | app/audit/viewed_throttle.py:159-161 | With a clock that does not go back the cache is ordered by time of last emission. |
| LruThrottle.AgreesWithUnbounded | app/audit/viewed_throttle.py:149-168 | While at most `max` different keys are viewed, the bounded cache emits exactly what an unbounded one emits. |
| LruThrottle.AgreesWithUnboundedIff | app/audit/viewed_throttle.py:149-168 | Over a run the bounded cache answers every call like an unbounded one iff no view comes within its window after `max` distinct other keys were emitted. |
| ViewThrottle.MakeKeySeparates | app/cache/namespace.py:35-84 | Two views share a key iff both quoted parts agree; no part can spill into the other. |
| ViewThrottle.Valkey.SetIfAbsent | app/audit/viewed_throttle.py:101-113 | SET NX EX: sets an absent or expired key until `now + window`, and says so if the reply arrives; over runs `ReplyIsClaim` says when that is. |
| ViewThrottle.CleanViewsKeepApart | app/cache/namespace.py:35-84 | Ids without white space, NUL and colon stand in the key as they are, and different views have different keys. |
| ViewThrottle.Worker.ShouldEmitView | app/audit/viewed_throttle.py:116-168 | Anonymous or missing ids never emit, window 0 always does, otherwise Valkey's answer decides and the own cache only if there is none; over runs `ReplyIsClaim` and `WorkerEmitsIff` say what they answer. |
| ViewThrottle.ReplyIsClaim | app/audit/viewed_throttle.py:101-113 | Over every run a call that gets a reply emits iff no call that claimed its key lies less than a window before it (a call claims its key under the same condition, if it reaches Valkey). |
| ViewThrottle.EmitsWhenDue | app/audit/viewed_throttle.py:101-113 | So a call whose key nobody brought to Valkey within the last window does emit. |
| ViewThrottle.WorkerEmitsIff | app/audit/viewed_throttle.py:149-168 | Without eviction, a call that gets no reply emits iff its worker's cache has not emitted the view less than a window before. |
| ViewThrottle.ValkeySpaced | app/audit/viewed_throttle.py:73-113 | Over every run two emissions of one view granted by Valkey are at least a window apart. |
| ViewThrottle.WorkerSpaced | app/audit/viewed_throttle.py:149-168 | Without eviction, two emissions of one view granted by one worker's cache are at least a window apart. |
| ViewThrottle.AtMostOneWhileUp | app/audit/viewed_throttle.py:116-146 | If Valkey answers every call for the view in an interval of window length, at most one of them emits. |
| ViewThrottle.AtMostOnePerSource | app/audit/viewed_throttle.py:73-168 | With N workers, Valkey going up and down at will and no eviction, any interval of window length holds at most N+1 emissions of a view. |
| ViewThrottle.BoundReached | app/audit/viewed_throttle.py:73-168 | N+1 emissions at one instant do occur. |
| SchemaHistory.ExtractionSchemaRepository.Create | app/repositories/extraction_schema_repository.py:106-179 | Agrees with `Step`: refuses a type with a live row, else writes version 1 and its entry or fails on a constraint and changes nothing. |
| SchemaHistory.ExtractionSchemaRepository.Update | app/repositories/extraction_schema_repository.py:423-498 | Agrees with `Step` on the live row with the highest version. |
| SchemaHistory.ExtractionSchemaRepository.RollbackToVersion | app/repositories/extraction_schema_repository.py:500-638 | Agrees with `Step`: refusals in the code's order, then a new version with the old fields. |
| SchemaHistory.ExtractionSchemaRepository.Delete | app/repositories/extraction_schema_repository.py:640-652 | Marks all live rows of the type and reports whether there was one. |
| SchemaHistory.ExtractionSchemaRepository.Restore | app/repositories/extraction_schema_repository.py:654-669 | Unmarks all deleted rows of the type and reports whether there was one. |
| SchemaHistory.ExtractionSchemaRepository.Deprecate | app/repositories/extraction_schema_repository.py:671-698 | Marks all live rows of the type, or reports that there is none or that the reason is refused. |
| SchemaHistory.ExtractionSchemaRepository.GetVersion | app/repositories/extraction_schema_repository.py:244-288 | Returns entry v of the current schema's history for v in 1..current, and nothing otherwise. |
| SchemaHistory.StepKeepsInv | app/repositories/extraction_schema_repository.py:106-698 | Every call keeps "history is versions 1..current, newest entry equals the row", only appends, and never meets the history's unique constraint. |
| SchemaHistory.RunKeepsInv | app/repositories/extraction_schema_repository.py:106-698 | The same over every run. |
| SchemaHistory.ReplayGivesKeys | app/repositories/extraction_schema_repository.py:455-492 | The keys of version v are those of version 1 changed by the recorded changes of 2..v, across updates and rollbacks. |
| SchemaHistory.RunReplays | app/repositories/extraction_schema_repository.py:455-492 | The same at the end of every run from the empty tables, up to the keys of the current row. |
| SchemaHistory.CreateSucceedsIff | app/repositories/extraction_schema_repository.py:106-175 | A type can be created iff there are fields, it has no live row, and no deleted row at version 1. |
| SchemaHistory.UpdateSucceedsIff | app/repositories/extraction_schema_repository.py:423-494 | An update succeeds iff there are fields and no other row of the type stands at the next version; then only that row changes. |
| SchemaHistory.RollbackSucceedsIff | app/repositories/extraction_schema_repository.py:500-634 | A rollback succeeds iff the row is not deprecated, the target is an older version, and the next version is free; then the row has the target's fields. That the target has fields always holds. |
| SchemaHistory.RollbackTwiceRestores | app/repositories/extraction_schema_repository.py:551-632 | Rolling back and then back to the former head n restores the fields of n at version n+2. |
| SchemaHistory.RestoreOneLiveIff | app/repositories/extraction_schema_repository.py:654-665 | After a restore the type has at most one live row iff it has at most one row, live or deleted. |
| SchemaHistory.OtherCallsKeepOneLive | app/repositories/extraction_schema_repository.py:106-698 | Every other call keeps "at most one live row of the type". |
| SchemaHistory.RunOneLiveIff | app/repositories/extraction_schema_repository.py:106-698 | All states of a run have at most one live row of a type iff it is never restored beside a second row. |
| SchemaHistory.DeletedTypeCannotReturn | app/repositories/extraction_schema_repository.py:123-158 | Create, delete, create from the empty tables: the last call violates the unique constraint. |
| SchemaHistory.DeletedRowBlocksUpdate | app/repositories/extraction_schema_repository.py:453-473 | Create, update, delete, create, update: the last call violates the unique constraint. |
| SchemaHistory.RestoreRevivesSecondRow | app/repositories/extraction_schema_repository.py:654-665 | Create, update, delete, create, restore: two live rows of one type. |
| SchemaEffects.CreateEffect | app/repositories/extraction_schema_repository.py:136-173 | Creation adds exactly the row, with its scope, and its first entry. |
| SchemaEffects.UpdateEffect | app/repositories/extraction_schema_repository.py:423-492 | An update gives the newest live row of the type the new fields and the next version, and appends one entry naming the keys that differ; nothing else changes. |
| SchemaEffects.RollbackEffect | app/repositories/extraction_schema_repository.py:500-632 | A rollback does so for the newest live row in the scope, with the fields of the target version, which the entry names. |
| SchemaEffects.MarkEffects | app/repositories/extraction_schema_repository.py:640-698 | Delete, restore and deprecate set exactly their flag (and the reason) on exactly the live, deleted and live rows of the type. |
| SchemaEffects.Errors | app/repositories/extraction_schema_repository.py:106-698 | Exactly when create, update and deprecate report an existing type, a missing one or a refused reason. |
| SchemaEffects.RollbackErrors | app/repositories/extraction_schema_repository.py:540-577 | Exactly when a rollback finds no row and when it is refused. |
| GoldenSets.GoldenSetRepository.TakeSnapshot | app/repositories/golden_set_repository.py:373-412 | Inserts the snapshot of the live items, unless that version has one. |
| GoldenSets.GoldenSetRepository.CreateSet | app/repositories/golden_set_repository.py:99-132 | Agrees with `Step`. |
| GoldenSets.GoldenSetRepository.UpdateSet | app/repositories/golden_set_repository.py:213-266 | Agrees with `Step`; a set of another scope or a deleted one is not found. |
| GoldenSets.GoldenSetRepository.SoftDelete | app/repositories/golden_set_repository.py:270-287 | Agrees with `Step`: the set and all its items are marked, the version stays. |
| GoldenSets.GoldenSetRepository.CreateItem | app/repositories/golden_set_repository.py:424-482 | Agrees with `Step`. |
| GoldenSets.GoldenSetRepository.UpdateItem | app/repositories/golden_set_repository.py:512-581 | Agrees with `Step`. |
| GoldenSets.GoldenSetRepository.SoftDeleteItem | app/repositories/golden_set_repository.py:583-617 | Agrees with `Step`. |
| GoldenSets.StepKeepsInv | app/repositories/golden_set_repository.py:99-617 | Every call keeps "a snapshot for each version 1..current, the newest showing name and live items", keeps all earlier snapshots, and never meets the conflict clause. |
| GoldenSets.RunKeepsInv | app/repositories/golden_set_repository.py:99-617 | The same over every run. |
| GoldenSets.LiveItemsAreLive | app/repositories/golden_set_repository.py:349-363 | A snapshot lists the live items of its set and nothing else. |
| GoldenSets.CreateItemEffect | app/repositories/golden_set_repository.py:424-482 | Creation appends the item at version 1 to the set's list. |
| GoldenSets.UpdateItemEffect | app/repositories/golden_set_repository.py:512-581 | Of the list before the call, an update replaces the item's entry in its place by one a version higher and keeps everything else. |
| GoldenSets.DeleteItemEffect | app/repositories/golden_set_repository.py:583-617 | Of the list before the call, a deletion removes the item's entry and keeps everything else in order. |
| GoldenSetEffects.CreateSetEffect | app/repositories/golden_set_repository.py:99-132 | Adds the set at version 1 with its name, and its snapshot; nothing else changes. |
| GoldenSetEffects.UpdateSetEffect | app/repositories/golden_set_repository.py:213-266 | Iff the set is live and in the scope: sets the name if one is given, bumps the version, and adds that version's snapshot. |
| GoldenSetEffects.DeleteSetEffect | app/repositories/golden_set_repository.py:270-287 | Iff the set is live and in the scope: marks it and all its items, and nothing else. |
| GoldenSetEffects.CreateItemTables | app/repositories/golden_set_repository.py:424-482 | Adds the item at version 1 and bumps its set, with the set's new snapshot. |
| GoldenSetEffects.UpdateItemTables | app/repositories/golden_set_repository.py:512-581 | Bumps the item, sets its question if one is given, and bumps its set, with the set's new snapshot. |
| GoldenSetEffects.DeleteItemTables | app/repositories/golden_set_repository.py:583-617 | Marks the item and bumps its set, with the set's new snapshot. |
| GoldenSetEffects.MissingItem | app/repositories/golden_set_repository.py:484-503 | An item that is deleted, or whose set is deleted or of another scope, is not found and nothing changes. |
| GoldenSetEffects.RunKeepsDistinct | app/repositories/golden_set_repository.py:424-617 | Item ids stay distinct over every run. |
| ExpiryCache.LruCache.Get | app/cache/rag_cache.py:49-57 | A hit is a live entry that a cache without a bound would hold; an expired one is dropped. |
| ExpiryCache.LruCache.Set | app/cache/rag_cache.py:59-70 | Never more than `max` entries; what is dropped is as `SetOutcome` says. |
| ExpiryCache.LruCache.Delete | app/cache/rag_cache.py:72-73 | Removes exactly the key. |
| ExpiryCache.LruCache.DeletePrefix | app/cache/rag_cache.py:75-79 | Removes exactly the keys with the prefix and counts them. |
| ExpiryCache.SetDropsOnlyWhenFull | app/cache/rag_cache.py:59-70 | A live entry is lost by `set` only when all `max` entries are live, then exactly one, with the earliest expiry. |
| ResponseCache.ResponseCache.GetCached | app/cache/response_cache.py:70-80 | A value returned is the last one written to that key in the answering tier, is within its time to live, and was written after the last matching invalidation that reached Valkey; a cleared key gives nothing. Conversely a live value last written to Valkey is returned while Valkey is up, and one last written locally whenever Valkey does not answer. |
| ResponseCache.ResponseCache.SetCached | app/cache/response_cache.py:83-92 | Writes to Valkey if it is up, else to the local tier, and to no other. |
| ResponseCache.ResponseCache.InvalidatePrefix | app/cache/response_cache.py:95-105 | Removes the matching keys of the local tier, and of Valkey if it is up; counts those removed, without entries Valkey had already let expire. |
| ResponseCache.RagCache.Get | app/cache/rag_cache.py:104-111 | Reads the two tiers under the namespaced key, with the same promises about the log, or the bounded local cache. |
| ResponseCache.RagCache.Set | app/cache/rag_cache.py:114-122 | Writes the same tier that Get reads. |
| ResponseCache.RagCache.DeletePrefix | app/cache/rag_cache.py:125-136 | With Valkey up, no key under the prefix is left in any tier and all of them are cleared; with Valkey down, only Valkey keeps its entries. |
| ResponseCache.ClearedUnanswered | app/cache/response_cache.py:70-105 | After an invalidation that reached Valkey and covers the key, and until the key is written again, it is in neither tier and no read answers it. |
| ResponseCache.AnswerCurrentIff | app/cache/response_cache.py:70-92 | A read answers with the last value written to the tier that answers; that is the last written value iff the last write went to that tier. |
| ResponseCache.StaleRead | app/cache/response_cache.py:70-92 | A write while Valkey is up, one while it is down, a read while it is up: the read gives the first value. |
| Metrics.SamplesAreMostRecent | app/observability/metrics.py:96-100 | After n requests the sample list is exactly the most recent L(n) durations, L(n) = n up to 10000 and 5001 + (n - 10001) mod 5000 beyond. |
| Metrics.ErrorsAreServerErrors | app/observability/metrics.py:93-102 | The error count equals the sum of the request counts with status 500 and above. |
| Metrics.Registry.Start | app/observability/metrics.py:81-82 | Active requests are started minus finished. |
| Metrics.Registry.Finish | app/observability/metrics.py:85-102 | Request counts, error counts and samples of every route agree with the log of finished requests; an exception counts as 500. |
| Metrics.Histogram | app/observability/metrics.py:111-127 | Bucket counts are the samples at most the boundary, non-decreasing, and bounded by the total. |
| MimirUri.MatchIff | app/mcp/uri_builder.py:88-99 | A pattern matches with groups g iff the groups are non-empty, free of slashes, and the text is the pattern filled with g. |
| MimirUri.AtMostOnePattern | app/mcp/uri_builder.py:88-138 | No string matches two of the four patterns. |
| MimirUri.ParseIff | app/mcp/uri_builder.py:102-138 | The parser finds parts p iff the stripped input matches p's pattern with p's ids. |
| MimirUri.BuildIff | app/mcp/uri_builder.py:32-66 | The text of each of the four URIs, and exactly when a builder refuses an empty id or the version `latest`. |
| MimirUri.BuiltUriParsesIff | app/mcp/uri_builder.py:32-138 | A built URI parses back to its parts iff no id contains a slash and the last id does not end in white space. |
| MimirUri.ParsedUriRebuilds | app/mcp/uri_builder.py:32-138 | Rebuilding a parsed URI gives the stripped input, or is refused iff the version is `latest`. |
| Text.StripCuts | app/mcp/uri_builder.py:109 | Stripping cuts white space, and only that, off both ends and leaves none there. |
| Text.OnlyStrip | app/mcp/uri_builder.py:109 | No other text is left when that is done. |

## Left out

- SQL, transactions and concurrency between repository calls: each call is atomic. A constraint is
  evaluated on the table after each statement, so a uniqueness violation that would occur only midway
  through one UPDATE is not modelled. New ids, clocks and the order of two violated constraints are
  parameters or fixed.
- Name normalisation (`normalize_display_name`): white space is assumed compressed before the call;
  the length and slash checks are modelled. VARCHAR limits of paths are not.
- FolderFilter.FilterFitsIff: is about paths free of `%` and backslash. For others the pattern matches paths of
  any length, and `FolderFilter.SubtreeFilterExactIff` gives the condition folder by folder.
- FolderFilter.FilterUnchangedIff: the same, and the pattern fits, without which such a call fails.
- Like.PrefixPatternExactIffPlain: a pattern ending in a lone backslash raises an error in PostgreSQL; here
  it matches nothing. Folder paths end in a slash and escaped text never ends in a lone backslash.
- ILIKE case folding, which is a character-wise parameter; Python's `lower` on flag values, which is
  ASCII only; tag normalisation, which is a parameter.
- The organisation joins of the user search, its order-preserving filter of user ids, and the other list
  endpoints, which add only filters. Endpoints that pass a page number as an offset are not covered.
- Attribute access on blocks given as dictionaries or objects, and the hash of the rendered text.
- The subscriber's methods as methods of a class: two threads interleave between the reads and writes of
  one statement, so it is a state machine on values instead.
- A subscriber started again while its old thread is dying, the filtering of messages inside
  `dispatch`, and publishing. A handle whose `subscribe` raises is never installed and never closed;
  the theorems are about installed handles.
- Reading window and maximum from the environment, a maximum that changes between calls, and data loss
  in Valkey. All workers share one clock that does not go back.
- What the schema model checks when a row is read back, beyond the empty field map and the deprecation
  reason (app/models/extraction.py:262-299).
- Actors, time stamps, change summaries and extra metadata of schemas and golden sets, and the other
  fields of golden items. Golden items are assumed to have distinct, increasing creation times. A
  snapshot insert that fails is swallowed by the code and is not modelled.
- ResponseCache.ResponseCache.InvalidatePrefix: a pattern is a prefix with one trailing star and no
  other glob character. JSON encoding is left out, and "up" means that the whole command succeeds.
- ResponseCache.ResponseCache.GetCached: is about one process; local tiers of other processes are not
  reached by an invalidation.
- ExpiryCache.LruCache.Set: the clock is read once for each call, and the size is at least 1.
- Path normalisation and text layout of the metrics, sums of durations, cancelled requests. Durations
  are reals.
- Resolving `latest` to a version, which queries the database.
