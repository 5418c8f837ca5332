# A verified model of the chat backend's core

This project models, in Dafny, the core of a NestJS/TypeORM chat backend:

- the query-building layer that every list endpoint goes through: `AdvancedQueryHelper` with its
  search, filter, sort and pagination steps, the conditional search builder, the JSON
  sub-query builder, and the `filter=key:op:value` parser;
- the tree helper, which pages root rows and attaches their descendants or ancestors;
- the chat, contacts, media and file services, and the nightly file clean-up jobs;
- the small guards and utilities beside them: the roles guard, the upload validator, the
  OTP generator, the token-lifetime parser and the socket presence store.

A TypeORM query builder is a value here (`QueryBuilder.Query`): its alias, conditions,
ORDER BY entries, bound parameters, joins, selections, grouping and limits. Executing a query
is a function parameter (`fetch`, `countOf`), so each operation is specified by the query it
builds and by what it does with the rows it gets back. The services are classes that hold
their tables as fields, and each method states the new tables as a function of the old ones.
The file and media tables share one store (`Storage.FileStore`), because removing a file
cascades to the media rows that name it. Database and storage failures are boolean inputs.
Around those functions are the invariants the source relies on. One is the contacts pairing
invariant: every visible row has its mirrored counterpart. Another is that a parameter bound
with a random suffix is fresh. Where it matters, the model also proves the round trips of
`split` and `join`.

Each source module is one Dafny module:

| Dafny module | source |
|---|---|
| `QueryBuilder`, `ConditionalSearch`, `JsonSubQuery`, `QueryHelper` | `src/common/helper/query.helper.ts` |
| `TreeForest`, `TreeHelper` | `src/common/helper/tree.helper.ts` |
| `QueryUtil` | `src/utils/query.util.ts` |
| `Chat` | `src/modules/chat/chat.service.ts` |
| `Contacts` | `src/modules/contacts/contacts.service.ts` |
| `Media` | `src/modules/media/media.service.ts` |
| `Files`, `Storage` | `src/modules/files/files.service.ts` |
| `FileCleanup` | `src/modules/files/cron/file-cleanup.service.ts` |
| `RolesGuard`, `SmartFileValidator`, `Otp`, `ExpiresIn`, `SocketState` | the guard, pipe and utility files named in the table below |
| `Wrappers`, `Strings`, `Collections` | `Option`/`Result`, and the JavaScript string and array built-ins the source calls |

## Model

| member | source | states |
|---|---|---|
| RolesGuard.AnyEquals | src/modules/auth/guards/roles.guard.ts:28 | `some(role => user.role === role)` holds exactly when the user's role is one of the listed roles |
| RolesGuard.CanActivate | src/modules/auth/guards/roles.guard.ts:11-29 | a route with no role list or an empty one admits every request; otherwise the request passes exactly when it has a user with a set, non-empty role that is listed |
| RolesGuard.MoreRolesAdmitMore | src/modules/auth/guards/roles.guard.ts:17-28 | adding roles to a non-empty list never locks out a user it admitted; a request without a role passes only routes with no role listed |
| Otp.PadStart | src/utils/otp.util.ts:10 | `padStart(length, '0')`: the result is `length` long (or the text itself when longer), ends with the text and is zeros before it |
| Otp.RangeLimit | src/utils/otp.util.ts:4-6 | `10^length` reaches the random source's `2^48` bound exactly when the length is 15 or more, and leaves the safe integers exactly when it is 16 or more |
| Otp.OtpShape | src/utils/otp.util.ts:3-11 | generation succeeds exactly for lengths 0 to 14 (default 6); a password then has `length` digits (one for length 0) and reads back as the drawn number; a negative length or one of 16 or more is refused as an argument of the wrong type, a length of 15 as out of range |
| ExpiresIn.ParseExpiresIn | src/utils/index.ts:1-5 | a non-empty all-digit text gives its number; digits followed by one of s, m, h, d give the text unchanged; there is no lifetime exactly when the value is missing, empty, or of neither form |
| ExpiresIn.ParseRoundTrip | src/utils/index.ts:3-4 | the decimal text of any number parses to that number, and with a unit appended is passed through unchanged |
| SmartFileValidator.FindRule | src/common/pipes/smart-file.validator.ts:14-16 | `rules.find`: the position of the first rule whose pattern matches the name, none exactly when no rule matches |
| SmartFileValidator.IsValid | src/common/pipes/smart-file.validator.ts:11-25 | a file is valid exactly when it is present, some rule matches its name, and its size is within the bound of the first matching rule |
| SmartFileValidator.ErrorExplainsRejection | src/common/pipes/smart-file.validator.ts:27-39 | the message of a rejected file is "required" exactly when there is no file, "type not allowed" when no rule matches, and a size message only when the size exceeds the first matching rule's bound |
| SmartFileValidator.ValidFileWithinBound | src/common/pipes/smart-file.validator.ts:20-38 | for a valid file the first matching rule's bound, which the size message would report, is respected |
| SmartFileValidator.ImageRuleAdmits | src/constants/file-validators.constant.ts:10-14 | for every file, the image rule alone admits it exactly when its lower-cased name ends with jpg, jpeg, png, webp, gif or bmp and its size is at most five megabytes |
| SmartFileValidator.MatchIgnoresCase | src/constants/file-validators.constant.ts:12 | the `i` flag: for every rule and name, upper- or lower-casing the name does not change whether the rule matches |
| SmartFileValidator.BuildErrorMessage | src/common/pipes/smart-file.validator.ts:27-39 | "required" exactly when there is no file; "type not allowed", with the file's mimetype, exactly when no rule matches; otherwise the size message carries the bound of the first matching rule |
| SocketState.KeyInjective | src/common/websocket/socket-state.service.ts:10-15 | two users share a `socket_user:` key exactly when they are the same user |
| SocketState.AddSocket | src/common/websocket/socket-state.service.ts:14-18 | `SADD`: the socket joins the user's set, no other key changes, and no stored set is empty afterwards |
| SocketState.RemoveSocket | src/common/websocket/socket-state.service.ts:20-30 | `SREM` then `DEL` of an empty set: the socket leaves the user's set, the key remains exactly when the set is non-empty, no other key changes |
| SocketState.AddRemoveRoundTrip | src/common/websocket/socket-state.service.ts:14-30 | connecting a new socket and disconnecting it again restores the store |
| SocketState.OtherSocketKeepsOnline | src/common/websocket/socket-state.service.ts:20-30 | a user with two sockets keeps a key when one of them disconnects |
| SocketState.OnlineAmongMembers | src/common/websocket/socket-state.service.ts:41-56 | the users reported online are exactly the listed ids that hold a socket |
| SocketState.SocketStateService.constructor | src/common/websocket/socket-state.service.ts:12 | the service starts over an empty store |
| SocketState.SocketStateService.Add | src/common/websocket/socket-state.service.ts:14-18 | `add` updates the store by `AddSocket` and reports success |
| SocketState.SocketStateService.Remove | src/common/websocket/socket-state.service.ts:20-30 | `remove` updates the store by `RemoveSocket` and reports true exactly when the user has no key left |
| SocketState.SocketStateService.IsOnline | src/common/websocket/socket-state.service.ts:32-35 | `isOnline` holds exactly when the user's set holds a socket |
| SocketState.SocketStateService.GetSocketIds | src/common/websocket/socket-state.service.ts:37-39 | `getSocketIds` returns the user's set, empty for an unknown user |
| SocketState.SocketStateService.GetOnlineUsers | src/common/websocket/socket-state.service.ts:41-56 | the result holds exactly the listed ids that hold a socket, none for an empty list |
| QueryUtil.ParseRule | src/utils/query.util.ts:31-37 | a parsed rule's key and operator hold no colon |
| QueryUtil.ParseRuleRoundTrip | src/utils/query.util.ts:31-37 | a rule parses exactly when it holds two colons, and key, operator and value joined with ':' give the rule back |
| QueryUtil.ResolveColumn | src/utils/query.util.ts:39-46 | a non-empty mapping for the key wins; otherwise the key qualified by the default alias unless it already holds a '.' |
| QueryUtil.RuleCondition | src/utils/query.util.ts:50-83 | each operator gives its comparison, `like` an ILIKE, `in` an IN list, and an unknown operator equality |
| QueryUtil.RuleValue | src/utils/query.util.ts:51-80 | a `like` value is bound wrapped in '%', other non-`in` values as they are |
| QueryUtil.InValuePieces | src/utils/query.util.ts:74-79 | an `in` value binds at least one piece, none holding '\|', and the pieces joined with '\|' give the value back |
| QueryUtil.RulesAddParsed | src/utils/query.util.ts:28-84 | the rules add one condition per rule that parses, in order, each on its column with a fresh parameter bound to its value; earlier conditions and bindings stay |
| QueryUtil.RuleAdded | src/utils/query.util.ts:30-84 | one more parsed rule extends what the earlier rules added by exactly its condition and binding |
| QueryUtil.NoRuleNoChange | src/utils/query.util.ts:24-32 | a missing or empty filter string, or one none of whose rules has three pieces, succeeds and leaves the builder unchanged |
| QueryUtil.NoneParsedNoChange | src/utils/query.util.ts:30-32 | rules that all have fewer than three pieces add nothing |
| QueryUtil.ApplyFilter | src/utils/query.util.ts:24-84 | no filter string leaves the builder as it is; otherwise binding a parameter fails, with TypeORM's parameter-name error, exactly when the key of some rule that parses holds a character other than a letter, digit, '_' or '.' (the name is `key_` plus an alphanumeric suffix, line 48) |
| QueryUtil.KeysAcceptedStep | src/utils/query.util.ts:30-48 | one more rule whose key is accepted, or which does not parse, keeps every rule so far accepted |
| QueryUtil.ApplyFilterToBuilder | src/utils/query.util.ts:18-87 | the loop over the split rules fails with the parameter-name error at the first parsed rule whose key is refused, and otherwise yields exactly the builder the rule-by-rule definition describes |
| QueryBuilder.DialectOf | src/common/helper/query.helper.ts:219-220 | the Postgres branch is taken exactly for the drivers `postgres` and `cockroachdb` |
| QueryBuilder.QualifyIsQualified | src/common/helper/query.helper.ts:235-237 | a qualified column always holds a '.', qualifying twice changes nothing, and an undotted field follows `<alias>.` unchanged |
| QueryBuilder.FromEntity | src/common/helper/query.helper.ts:227-233 | a repository's builder covers the whole entity under the alias, with no condition, no ORDER BY and no parameter |
| QueryBuilder.FreshParam | src/common/helper/query.helper.ts:441 | a randomly suffixed parameter name is one no parameter already bound has |
| QueryBuilder.AddOrderBy | src/common/helper/query.helper.ts:512 | an expression not yet ordered is appended; one already ordered keeps the number of entries |
| QueryBuilder.AddOrderByReplaces | src/common/helper/query.helper.ts:512 | re-adding an ordered expression keeps the list of expressions and only changes that expression's direction |
| QueryBuilder.AddOrderByIsAssignment | src/common/helper/query.helper.ts:508-517 | `addOrderBy` is an assignment into the ORDER BY object: expressions stay distinct, the others keep their order, a new one goes last |
| ConditionalSearch.ConditionalSearchBuilder.constructor | src/common/helper/query.helper.ts:146-157 | a new builder holds the search term and dialect and no branch |
| ConditionalSearch.ConditionalSearchBuilder.MatchCase | src/common/helper/query.helper.ts:159-167 | `matchCase` appends one LIKE branch with its guard, parameters and fields |
| ConditionalSearch.ConditionalSearchBuilder.MatchExact | src/common/helper/query.helper.ts:169-177 | `matchExact` appends one exact-match branch with its guard, parameters and fields |
| ConditionalSearch.ConditionalSearchBuilder.Build | src/common/helper/query.helper.ts:179-211 | `build` renders the declared branches as one OR-group with the bindings of their guards and of the trimmed term |
| ConditionalSearch.RenderBranches | src/common/helper/query.helper.ts:183-210 | the loop renders one bracket per branch, OR-ed in declaration order, and merges their bindings in that order |
| ConditionalSearch.RenderFields | src/common/helper/query.helper.ts:189-204 | the loop over one branch's fields yields one match per field, in field order |
| ConditionalSearch.BranchesInOrder | src/common/helper/query.helper.ts:184-208 | the built condition has one alternative per branch, each its guard AND-ed with the OR of its field matches |
| ConditionalSearch.TermsBound | src/common/helper/query.helper.ts:184-204 | when no guard binds the two term names, an exact branch with fields leaves `exactTerm` bound to the trimmed term and a case branch leaves `likeTerm` bound to the `%term%` pattern |
| JsonSubQuery.JsonSubQueryBuilder.constructor | src/common/helper/query.helper.ts:36-47 | a new builder records nothing and keeps the entity, alias and parent alias |
| JsonSubQuery.JsonSubQueryBuilder.Select | src/common/helper/query.helper.ts:55-66 | `select(field, alias?)` appends one `'key', column` entry and changes nothing else |
| JsonSubQuery.JsonSubQueryBuilder.SelectMany | src/common/helper/query.helper.ts:50-53 | `select([...])` appends one plain entry per field, in list order |
| JsonSubQuery.JsonSubQueryBuilder.SelectAs | src/common/helper/query.helper.ts:61-65 | `select({ field, alias })` appends the field as written under the given key |
| JsonSubQuery.JsonSubQueryBuilder.SelectRawExpr | src/common/helper/query.helper.ts:69-72 | `selectRaw` appends the expression under the given key |
| JsonSubQuery.JsonSubQueryBuilder.AddJoinSpec | src/common/helper/query.helper.ts:74-92 | `leftJoin` and `innerJoin` record one join and nothing else |
| JsonSubQuery.JsonSubQueryBuilder.AddWhere | src/common/helper/query.helper.ts:94-97 | `where` records one condition with its parameters |
| JsonSubQuery.JsonSubQueryBuilder.LinkParent | src/common/helper/query.helper.ts:99-106 | `linkToParent` records `child = parentAlias.parentField`, the child qualified unless dotted |
| JsonSubQuery.JsonSubQueryBuilder.AddOrderByField | src/common/helper/query.helper.ts:108-113 | `orderBy` records the qualified field with its direction |
| JsonSubQuery.JsonSubQueryBuilder.SetLimit | src/common/helper/query.helper.ts:115-118 | `limit` records the count and nothing else |
| JsonSubQuery.JsonSubQueryBuilder.Apply | src/common/helper/query.helper.ts:49-118 | each builder call changes the record exactly as the step's effect says |
| JsonSubQuery.JsonSubQueryBuilder.Build | src/common/helper/query.helper.ts:120-140 | `build` applies the joins, conditions and ORDER BY entries in recorded order, the limit when nonzero, and selects only the JSON aggregate of the dialect |
| JsonSubQuery.DottedFieldKey | src/common/helper/query.helper.ts:60 | a dotted field is exposed under its second segment |
| JsonSubQuery.FieldKeyCases | src/common/helper/query.helper.ts:60 | a non-empty alias wins; an undotted field without alias is exposed under its own name |
| JsonSubQuery.ConditionsInOrder | src/common/helper/query.helper.ts:123 | the recorded conditions are AND-ed after the existing ones, one each, in recorded order |
| JsonSubQuery.LimitOnlyWhenNonzero | src/common/helper/query.helper.ts:125 | a missing or zero limit leaves the sub-query unlimited, any other is applied |
| QueryHelper.SearchStep | src/common/helper/query.helper.ts:399-413 | one more field extends the search group by its match and the bindings by its parameter |
| QueryHelper.SearchBindingsLookup | src/common/helper/query.helper.ts:403-412 | the search binds exactly its n parameters, each to the pattern |
| QueryHelper.SearchNoOpIff | src/common/helper/query.helper.ts:393 | `search` leaves the query alone exactly for a blank keyword or no field |
| QueryHelper.SearchAddsOneGroup | src/common/helper/query.helper.ts:392-419 | otherwise it adds one OR-group with one match per field, in order, each parameter bound to `%term%` (lower-cased outside Postgres), earlier bindings kept |
| QueryHelper.SmartSearchNoOpIff | src/common/helper/query.helper.ts:421-432 | `smartSearch` changes the query exactly when the keyword is not blank |
| QueryHelper.SmartSearchAddsBranches | src/common/helper/query.helper.ts:421-432 | for a keyword that is not blank `smartSearch` keeps the earlier conditions and adds one OR-group with one alternative per declared branch, in order, each the branch's guard AND-ed with its field matches |
| QueryHelper.FilterEntry | src/common/helper/query.helper.ts:438-443 | an undefined, null or empty value adds nothing; any other adds `col = :p` with `p` fresh and bound to the value |
| QueryHelper.FilterAddsKept | src/common/helper/query.helper.ts:434-447 | `filter(object)` adds exactly one equality per kept entry, in entry order, each bound to its value, earlier conditions and bindings kept |
| QueryHelper.EqualityAdded | src/common/helper/query.helper.ts:439-443 | one more kept entry extends the added equalities by its own |
| QueryHelper.FilterNothingKept | src/common/helper/query.helper.ts:439 | with no kept value `filter(object)` changes nothing |
| QueryHelper.FilterInNoOpIff | src/common/helper/query.helper.ts:449-456 | `filterIn` changes the query exactly when the list is present and non-empty; it then adds one `IN` on the qualified column after the earlier conditions, bound to the whole list; when names were fresh before, the new name was not bound, every earlier binding is kept, and names stay fresh |
| QueryHelper.FilterRangeBindsFixedNames | src/common/helper/query.helper.ts:458-470 | for every query and field, `>=` is added exactly when `from` is neither undefined nor null and `<=` likewise for `to`, each bound under its fixed name to the given value, which replaces an earlier binding of that name; every other parameter is kept |
| QueryHelper.FilterRangeSharedBound | src/common/helper/query.helper.ts:458-470 | two range filters on one field share `gte_<field>`: the second value replaces the first for both comparisons |
| QueryHelper.FilterRangeFreshKeepsBounds | src/common/helper/query.helper.ts:458-470 | with fresh names a range filter adds `>=` exactly for a given `from` and `<=` exactly for a given `to`, and every earlier binding keeps its value |
| QueryHelper.BoundAdded | src/common/helper/query.helper.ts:458-470 | the corrected bound of the range-filter finding below: one bound adds one comparison on a fresh name, where the code uses a fixed one, bound to the value, and every earlier binding keeps its value |
| QueryHelper.FilterRangeFreshTwice | src/common/helper/query.helper.ts:458-470 | two fresh range filters on one field keep both lower bounds |
| QueryHelper.PageOf | src/common/helper/query.helper.ts:503 | the page is at least 1, the given page when it is at least 1 |
| QueryHelper.LimitOf | src/common/helper/query.helper.ts:504-505 | the limit is the given nonzero number, else 10; it is never 0 |
| QueryHelper.CeilDiv | src/common/helper/query.helper.ts:541 | `Math.ceil(total / limit)` is bracketed by the limit's multiples |
| QueryHelper.PagesCoverRows | src/common/helper/query.helper.ts:529-541 | no rows give no page, and page p holds rows exactly when p is at most the page count |
| QueryHelper.SortTouchesOnlyOrder | src/common/helper/query.helper.ts:507-514 | sort tokens change only the ORDER BY entries |
| QueryHelper.CountIgnoresSort | src/common/helper/query.helper.ts:521-524 | the count query is the same whatever the sort |
| QueryHelper.PaginateMeta | src/common/helper/query.helper.ts:502-544 | the page asked for has offset `(page-1)*limit` and `limit` rows, the filters and joins of the query, and the meta holds the count (0 when missing), page, limit and page count |
| QueryHelper.SortTokenDirection | src/common/helper/query.helper.ts:509-512 | `field:dir` sorts ascending exactly when dir upper-cases to ASC; no direction sorts descending |
| QueryHelper.SortAppendsInOrder | src/common/helper/query.helper.ts:508-514 | on an unordered query, distinct sort tokens become the ORDER BY in token order, empty fields skipped |
| QueryHelper.AdvancedQueryHelper.FromRepository | src/common/helper/query.helper.ts:218-233 | `from(repository, alias)` wraps the entity's builder and fixes the dialect |
| QueryHelper.AdvancedQueryHelper.FromBuilder | src/common/helper/query.helper.ts:218-233 | `from(builder)` wraps the given builder and fixes the dialect |
| QueryHelper.AdvancedQueryHelper.Columns | src/common/helper/query.helper.ts:246-254 | one qualified column per field, in field order |
| QueryHelper.AdvancedQueryHelper.Select | src/common/helper/query.helper.ts:246-249 | `select` replaces the selection by the qualified fields |
| QueryHelper.AdvancedQueryHelper.AddSelect | src/common/helper/query.helper.ts:251-254 | `addSelect` appends the qualified fields |
| QueryHelper.AdvancedQueryHelper.AddJoin | src/common/helper/query.helper.ts:285-345 | a join appends one join clause and merges its parameters |
| QueryHelper.AdvancedQueryHelper.JoinRelation | src/common/helper/query.helper.ts:257-283 | `joinRelation`/`leftJoinRelation` join `<alias>.<relation>`, with the condition only when one is given |
| QueryHelper.AdvancedQueryHelper.JoinEntity | src/common/helper/query.helper.ts:285-303 | `joinEntity`/`leftJoinEntity` join the entity on the condition |
| QueryHelper.AdvancedQueryHelper.LeftJoinAndMap | src/common/helper/query.helper.ts:305-325 | `leftJoinAndMapOne`/`Many` map onto the qualified property |
| QueryHelper.AdvancedQueryHelper.JoinAndSelect | src/common/helper/query.helper.ts:327-345 | `leftJoinAndSelect`/`innerJoinAndSelect` pass the property as written |
| QueryHelper.AdvancedQueryHelper.SelectJsonArray | src/common/helper/query.helper.ts:348-362 | the setup steps run on a JSON builder whose parent is this query, and its rendering is added as one selection with its parameters |
| QueryHelper.AdvancedQueryHelper.MapOneWithSubQuery | src/common/helper/query.helper.ts:364-381 | the joined id must be in the sub-query, then the extra condition when one is given |
| QueryHelper.AdvancedQueryHelper.SelectSubQuery | src/common/helper/query.helper.ts:383-389 | the sub-query is added as one selection under the alias |
| QueryHelper.AdvancedQueryHelper.SearchFields | src/common/helper/query.helper.ts:392-419 | `search` does what `Search` specifies |
| QueryHelper.AdvancedQueryHelper.SearchTerms | src/common/helper/query.helper.ts:399-414 | the loop yields one match per field in order, each parameter fresh and bound to the pattern |
| QueryHelper.AdvancedQueryHelper.SmartSearchBranches | src/common/helper/query.helper.ts:421-432 | `smartSearch` AND-s the conditional builder's rendering of the declared branches |
| QueryHelper.AdvancedQueryHelper.FilterCondition | src/common/helper/query.helper.ts:435-436 | a condition string is AND-ed as written with its parameters |
| QueryHelper.AdvancedQueryHelper.FilterObject | src/common/helper/query.helper.ts:437-445 | the loop over the entries does what `FilterEntries` specifies |
| QueryHelper.AdvancedQueryHelper.FilterInValues | src/common/helper/query.helper.ts:449-456 | `filterIn` does what `FilterIn` specifies |
| QueryHelper.AdvancedQueryHelper.FilterRangeBounds | src/common/helper/query.helper.ts:458-470 | `filterRange` as written: the builder becomes `FilterRange` of the old one, each given bound under its fixed name `gte_<field>` or `lte_<field>` |
| QueryHelper.AdvancedQueryHelper.FilterIsNull | src/common/helper/query.helper.ts:472-477 | AND-s `col IS NULL` on the qualified field |
| QueryHelper.AdvancedQueryHelper.FilterNotNull | src/common/helper/query.helper.ts:479-484 | AND-s `col IS NOT NULL` on the qualified field |
| QueryHelper.AdvancedQueryHelper.GroupBy | src/common/helper/query.helper.ts:486-489 | appends the qualified field to the GROUP BY |
| QueryHelper.AdvancedQueryHelper.Having | src/common/helper/query.helper.ts:491-494 | replaces the HAVING condition and merges its parameters |
| QueryHelper.AdvancedQueryHelper.GetOne | src/common/helper/query.helper.ts:498-500 | the first row the query returns, none exactly when it returns none |
| QueryHelper.AdvancedQueryHelper.GetPaginated | src/common/helper/query.helper.ts:502-544 | sorts, counts and pages the query as `Paginate` specifies |
| TreeForest.CopiesKeys | src/common/helper/tree.helper.ts:264-270 | the first pass's map holds exactly the ids of the rows seen, each at a copy of a row with that id |
| TreeForest.BuildTreeStructure | src/common/helper/tree.helper.ts:255-291 | `buildTreeStructure` returns the forest its two passes specify |
| TreeForest.PlaceNodes | src/common/helper/tree.helper.ts:272-288 | the second pass pushes a row onto its parent's children when the parent is in the list, else onto the roots, in input order |
| TreeForest.PlacedOnceUpTo | src/common/helper/tree.helper.ts:272-288 | with unique ids, each row seen is placed exactly once, as a root or as a child |
| TreeForest.EachPlacedOnce | src/common/helper/tree.helper.ts:255-291 | with unique ids, the roots and all children lists together hold every row exactly once |
| TreeForest.RootsMember | src/common/helper/tree.helper.ts:283-286 | the roots are exactly the ids of the rows whose parent is null, undefined or not in the list |
| TreeForest.ChildrenMember | src/common/helper/tree.helper.ts:277-282 | a node's children are exactly the rows naming it as their parent |
| TreeForest.RootIff | src/common/helper/tree.helper.ts:272-288 | with unique ids a row is a root exactly when it has no parent in the list, and otherwise sits under its parent |
| TreeForest.OrphanIsRoot | src/common/helper/tree.helper.ts:277-286 | a row whose parent is not in the list becomes a root |
| TreeHelper.LevelsShape | src/common/helper/tree.helper.ts:185-208 | the descendant expansion fetches at most `maxDepth` levels, none empty, each the children of the level before |
| TreeHelper.LevelsStopAtDepth | src/common/helper/tree.helper.ts:190 | when every level has children, exactly `maxDepth` levels are fetched |
| TreeHelper.ParentIdsExact | src/common/helper/tree.helper.ts:228-230 | the parent ids kept are exactly the rows' parent values that are neither null nor undefined |
| TreeHelper.WalkFuelIrrelevant | src/common/helper/tree.helper.ts:220-243 | once the ancestor walk has ended within some number of rounds, allowing more rounds gives the same ancestors: the result does not depend on the count chosen |
| TreeHelper.CyclicWalkNeverEnds | src/common/helper/tree.helper.ts:220-243 | on a row that is its own parent the unbounded ancestor loop never ends |
| TreeHelper.BoundedAgrees | src/common/helper/tree.helper.ts:220-243 | whenever the unbounded walk ends within the bound, the bounded walk returns the same ancestors |
| TreeHelper.CyclicBoundedEnds | src/common/helper/tree.helper.ts:220-243 | the bounded walk ends on the self-parented row after `maxDepth` rounds |
| TreeHelper.MergeKeys | src/common/helper/tree.helper.ts:155-158 | the id map holds each id once, keyed where it was first set, at a row with that id |
| TreeHelper.MergeByIdKeeps | src/common/helper/tree.helper.ts:155-160 | the merge keeps every id exactly once, in first-occurrence order, and the row kept for an id is the last one with it |
| TreeHelper.LastIsLatest | src/common/helper/tree.helper.ts:156-158 | a row with no later row of the same id is the one the map keeps |
| TreeHelper.MergeDistinctUnchanged | src/common/helper/tree.helper.ts:155-160 | with unique ids the keys follow the rows and each id keeps its own row |
| TreeHelper.MergeDistinctOrder | src/common/helper/tree.helper.ts:155-160 | with unique ids the key order is the row order |
| TreeHelper.MergeDistinctValues | src/common/helper/tree.helper.ts:155-160 | with unique ids no row is overwritten |
| TreeHelper.MergeDistinctIsIdentity | src/common/helper/tree.helper.ts:155-160 | rows with unique ids come out of the merge as they went in |
| TreeHelper.MergeNodes | src/common/helper/tree.helper.ts:155-160 | the loop filling the map and reading its values yields the specified merge |
| TreeHelper.EmptyResult | src/common/helper/tree.helper.ts:293-304 | the empty result has no node, no root and no page, and the requested page and limit after `|| 1` and `|| 10` |
| TreeHelper.BrowseMeta | src/common/helper/tree.helper.ts:99-130 | browse mode reports the root count, roots plus descendants as nodes, and the root page's page, limit and page count; an empty root page gives the empty result |
| TreeHelper.BrowseSortKeepsFilters | src/common/helper/tree.helper.ts:91-97 | the browse sort touches only the ORDER BY |
| TreeHelper.SearchMeta | src/common/helper/tree.helper.ts:163-178 | search mode counts the forest's roots and reports one page holding every node; without context loading it materialises exactly the matches; it fails exactly when context loading needs an entity the query does not name |
| TreeHelper.SearchKeepsMatches | src/common/helper/tree.helper.ts:147-161 | with context loading the nodes have unique ids and every match's id is among them |
| TreeHelper.AdvancedTreeHelper.From | src/common/helper/tree.helper.ts:45-63 | the field names default to `id`, `parentId` and `children`, and `maxDepth` to 10 |
| TreeHelper.AdvancedTreeHelper.FetchDescendants | src/common/helper/tree.helper.ts:185-208 | the loop returns the levels of the bounded expansion, concatenated in level order |
| TreeHelper.AdvancedTreeHelper.FetchAncestors | src/common/helper/tree.helper.ts:210-246 | fails with "Cannot determine entity target" when the query names no entity; otherwise returns the ancestors of the unbounded walk, given any number of rounds within which that walk ends |
| TreeHelper.AdvancedTreeHelper.AncestorRounds | src/common/helper/tree.helper.ts:220-243 | the loop, run until a frontier is empty or yields no parent id, returns the ancestors the walk fetches, round by round |
| TreeHelper.AdvancedTreeHelper.HandleBrowseMode | src/common/helper/tree.helper.ts:80-131 | browse mode as `Browse` specifies |
| TreeHelper.AdvancedTreeHelper.HandleSearchMode | src/common/helper/tree.helper.ts:136-179 | search mode as `Search` specifies, with the unbounded ancestor walk, whenever that walk ends |
| TreeHelper.AdvancedTreeHelper.GetPaginatedTree | src/common/helper/tree.helper.ts:65-75 | search mode exactly when the query already has a WHERE condition, browse mode otherwise |
| Storage.AddPath | src/modules/files/cron/file-cleanup.service.ts:80-85 | a file of a new bucket opens a new list at the end; a known bucket keeps the number of lists |
| Storage.GroupKeys | src/modules/files/cron/file-cleanup.service.ts:78-89 | every bucket of the input is a key, exactly once, and nothing else is |
| Storage.GroupLists | src/modules/files/cron/file-cleanup.service.ts:78-89 | each bucket's list is that bucket's paths in input order |
| Storage.GroupTotal | src/modules/files/cron/file-cleanup.service.ts:78-89 | the lists together hold one path per file |
| Storage.GroupByBucketFacts | src/modules/files/cron/file-cleanup.service.ts:78-89 | grouping loses and invents no path: distinct keys, non-empty lists in input order, one path per file |
| Storage.FileBucketIsKey | src/modules/files/files.service.ts:197-203 | every file's bucket is a key and its path is listed under it |
| Storage.PathListed | src/modules/files/files.service.ts:199-202 | a file's path is listed under its bucket |
| Storage.GroupedDeleteReachesAll | src/modules/files/files.service.ts:197-215 | one call per distinct bucket, and every object of a bucket that does not fail is removed |
| Storage.RemovedIff | src/modules/files/files.service.ts:205-215 | an object is removed exactly when its bucket's list names it and that bucket does not fail |
| Storage.WithIds | src/modules/files/files.service.ts:190-193 | the rows found are exactly the rows with a listed id, deleted ones included; no id finds nothing |
| Storage.WithoutIds | src/modules/files/files.service.ts:218 | removing keeps exactly the rows whose id is not listed |
| Storage.WithoutFiles | src/config/databases/migrations/1765556017603-migrations.ts:19 | the cascade of removing files keeps exactly the media rows whose file is not among them |
| Storage.CascadeKeepsRefs | src/entity/media.entity.ts:10-15 | when every media row names an existing file, removing files with their cascade keeps that so, and no media row is left naming a removed file |
| Storage.SplitByIds | src/modules/files/files.service.ts:190-218 | the rows found and the rows kept together make up the table |
| Storage.MarkDeleted | src/modules/files/files.service.ts:174-176 | a soft delete flags exactly the rows with a listed id and changes no other row |
| Storage.Take | src/modules/files/cron/file-cleanup.service.ts:28 | `take: n` gives a prefix of at most n rows, all of them when there are fewer |
| Storage.FirstFailing | src/modules/files/cron/file-cleanup.service.ts:35-37 | the first bucket whose delete throws, none exactly when no bucket fails |
| Storage.GroupPaths | src/modules/files/cron/file-cleanup.service.ts:78-89 | the reduce over the files builds the specified grouping |
| Storage.FileStore.DeleteGrouped | src/modules/files/cron/file-cleanup.service.ts:65-71 | one `deleteMany` per bucket in order, a failing one only logged: every other bucket's objects go |
| Storage.FileStore.DeleteGroupedUntilFailure | src/modules/files/cron/file-cleanup.service.ts:35-37 | one `deleteMany` per bucket until the first that throws; no later bucket is reached |
| Storage.FileStore.DeleteRun | src/modules/files/cron/file-cleanup.service.ts:35-37 | the loop's calls and remaining objects from a given log and object set |
| Files.Extname | src/modules/files/files.service.ts:81 | the extension is empty or a '.' followed by no '.' and no '/' |
| Files.ExtnameOfFileName | src/modules/files/files.service.ts:81 | a plain name without '.' or with only a leading '.' has no extension; otherwise it runs from the last '.' |
| Files.Optimized | src/modules/files/files.service.ts:57-78 | the stored type is WebP, or type and size stay as uploaded |
| Files.UploadExtension | src/modules/files/files.service.ts:57-81 | a transcoded image is stored as `.webp`, anything else under its own type and original extension |
| Files.UploadKeySplits | src/modules/files/files.service.ts:82-83 | the key is `folder/uuid.ext` (folder `general` by default) and splits back into folder and name |
| Files.FindById | src/modules/files/files.service.ts:148-151 | the first row with the id, soft-deleted rows included; none exactly when no row has it |
| Files.FilesService.constructor | src/modules/files/files.service.ts:32-37 | the service over a store, its bucket and its URL scheme |
| Files.FilesService.Naming | src/modules/files/files.service.ts:57-83 | the stored type, size, name and key of an upload |
| Files.FilesService.NewRow | src/modules/files/files.service.ts:91-115 | the saved row: names, type, size, bucket, key, URL, expiry only for a nonzero retention, uploader only for a non-empty user |
| Files.FilesService.Prepare | src/modules/files/files.service.ts:57-115 | the key an upload goes under and the row it saves, with the row's bucket and path being that bucket and key |
| Files.FilesService.SaveOrRollback | src/modules/files/files.service.ts:91-127 | the row is appended; or, when saving fails, one delete of the row's object is logged, the object is gone unless that delete fails, the table is unchanged and the failure is passed on |
| Files.FilesService.UploadFile | src/modules/files/files.service.ts:39-129 | upload then save; a refused upload fails with nothing stored and no row; a failing save deletes the object again (a failing rollback only logged) and fails, leaving the table alone; the media table is untouched |
| Files.FilesService.SoftDeleteFile | src/modules/files/files.service.ts:131-140 | flags the row; true exactly when a row had the id |
| Files.FilesService.HardDeleteFile | src/modules/files/files.service.ts:142-164 | false and nothing done for an unknown id; otherwise one delete call, the object gone unless storage fails, and then the row removed with the media rows naming it (the cascade of the media foreign key), or, when the removal fails, the failure passed on with both tables unchanged |
| Files.FilesService.SoftDeleteMany | src/modules/files/files.service.ts:166-180 | false and nothing done for no ids; otherwise flags the listed rows, true exactly when some row matched |
| Files.FilesService.HardDeleteMany | src/modules/files/files.service.ts:182-225 | false for no ids or no match; otherwise one `deleteMany` per bucket, then the rows are removed with the media rows naming them, or the removal's failure is passed on with both tables unchanged |
| FileCleanup.Expired | src/modules/files/cron/file-cleanup.service.ts:23-29 | exactly the live rows whose expiry has passed |
| FileCleanup.Orphans | src/modules/files/cron/file-cleanup.service.ts:52-59 | exactly the live rows older than the safe date that no live media row uses |
| FileCleanup.FileCleanupService.constructor | src/modules/files/cron/file-cleanup.service.ts:12-17 | the job over a store |
| FileCleanup.FileCleanupService.CleanExpired | src/modules/files/cron/file-cleanup.service.ts:20-43 | nothing without expired files; else one `deleteMany` per bucket, and only when none throws are exactly the batch's rows flagged |
| FileCleanup.FileCleanupService.CleanOrphans | src/modules/files/cron/file-cleanup.service.ts:45-76 | nothing without orphans; else one `deleteMany` per bucket (failures only logged), then exactly the batch's rows are removed, and with them the media rows that name them |
| FileCleanup.OrphanCascadeKeepsLive | src/modules/files/cron/file-cleanup.service.ts:52-75 | the media rows an orphan run takes by the cascade are all soft-deleted ones: every live media row stays |
| FileCleanup.BatchesAreLive | src/modules/files/cron/file-cleanup.service.ts:23-59 | each batch respects its bound and holds only live files, expired or orphaned as the query says |
| FileCleanup.ExpiredRunComplete | src/modules/files/cron/file-cleanup.service.ts:31-40 | when no bucket fails, every object of the batch is gone and every row of it is flagged |
| Media.FindFor | src/modules/media/media.service.ts:144-147 | the rows found are at most the table's |
| Media.FindForMembers | src/modules/media/media.service.ts:144-147 | the rows found are exactly the target's rows of the type, soft-deleted ones only when asked for |
| Media.SetDeletedFor | src/modules/media/media.service.ts:48 | a soft delete or restore by target and type flags exactly that target's rows of the type |
| Media.WithoutMediaIds | src/modules/media/media.service.ts:154 | removing rows keeps exactly the rows not removed |
| Media.FileIdsOf | src/modules/media/media.service.ts:151 | the file ids kept are exactly the non-empty file ids of the rows |
| Media.AttachAppends | src/modules/media/media.service.ts:20-37 | attaching shows exactly the new rows after what the target already showed |
| Media.SingleMediaIsOnly | src/modules/media/media.service.ts:45-57 | after a single-media update the new row is the only one the target shows for the type, and every other target and type shows what it did |
| Media.NoneLiveAfterDelete | src/modules/media/media.service.ts:48 | after the soft delete the target shows nothing for the type |
| Media.OtherTargetsKept | src/modules/media/media.service.ts:48 | the soft delete leaves every other target and type as it was |
| Media.RestoreUndoesRemove | src/modules/media/media.service.ts:160-179 | restoring undoes soft-removing when the target's rows were all live |
| Media.FilesRestoreUndoesDelete | src/modules/media/media.service.ts:163-187 | restoring files undoes soft-deleting them when they were live |
| Media.MediaService.constructor | src/modules/media/media.service.ts:13-18 | the service over the file service, whose store holds the media table |
| Media.MediaService.AttachFiles | src/modules/media/media.service.ts:20-37 | one new row per file, in file order, with the file's position as order; the target shows them after its earlier media; files and objects are untouched |
| Media.MediaService.UpdateSingleMedia | src/modules/media/media.service.ts:39-66 | the target's rows of the type are soft-deleted and one row at order 0 added, the only one it then shows; files and objects are untouched |
| Media.MediaService.ProcessSingleUpload | src/modules/media/media.service.ts:77-104 | the object is uploaded and its file row saved, and the file becomes the target's single live media of the type; a refused upload fails with no object, no row and the media unchanged; when the row cannot be saved the upload is followed by a delete of the object (which stays only if that delete fails), the error is passed on, and neither file rows nor media change |
| Media.MediaService.ProcessDelete | src/modules/media/media.service.ts:133-172 | nothing without rows; a hard delete removes the rows, deleted ones too, then hard-deletes their files; a soft delete flags the live rows and soft-deletes their files; the file step is skipped when no row names a file; removing the files also removes, by the cascade, the media rows of other targets that name them; a failing removal of the files rolls the media rows back and is passed on |
| Media.MediaService.RestoreMedia | src/modules/media/media.service.ts:174-195 | the target's rows of the type are restored, and exactly the files they name |
| Media.Undeleted | src/modules/media/media.service.ts:179 | each row with its deleted flag cleared, in order |
| Media.UndeletedFileIds | src/modules/media/media.service.ts:181-184 | restoring rows does not change the file ids they name |
| Media.RestoredAllLive | src/modules/media/media.service.ts:179-183 | after restoring, the target shows every row it has of the type, restored, in table order |
| Chat.Preview | src/modules/chat/chat.service.ts:63 | a text message previews as its content; any other kind as its type name in square brackets |
| Chat.Recipients | src/modules/chat/chat.service.ts:73-76 | the recipients are exactly the users with a participant row in the conversation |
| Chat.MarkRead | src/modules/chat/chat.service.ts:69-71 | only the sender's row of the conversation gets the new read mark; every other row is kept |
| Chat.Touch | src/modules/chat/chat.service.ts:62-67 | the conversation's preview, last sender, last time and last type move to the new message; other conversations are kept, and an unknown id changes nothing |
| Chat.GroupMembersOnce | src/modules/chat/chat.service.ts:181-189 | a new group holds the creator and every member exactly once, the creator first, and the creator is its only admin |
| Chat.FindDirect | src/modules/chat/chat.service.ts:313-320 | a found conversation is direct and holds both users; none is found only when no direct conversation holds both |
| Chat.InboxDefaultOrder | src/modules/chat/chat.service.ts:257-259 | a given sort is kept; without one the inbox is ordered by last activity, newest first |
| Chat.MessagesQueryShape | src/modules/chat/chat.service.ts:130-131 | the messages query reads `messages` under `m` with the single condition `m.conversationId` equal to a parameter bound to the conversation's id, and no ORDER BY of its own |
| Chat.ChatService.constructor | src/modules/chat/chat.service.ts:25-35 | the service starts with no conversation, participant or message over the given users |
| Chat.ChatService.SendMessage | src/modules/chat/chat.service.ts:40-116 | a non-member is refused and nothing changes; otherwise the message is appended, the conversation is touched, the sender's read mark moves and the recipients are the conversation's participants |
| Chat.ChatService.GetMessages | src/modules/chat/chat.service.ts:118-165 | a non-member is refused exactly when not a participant; a member gets the paginated page of the conversation's messages |
| Chat.GroupRowsExist | src/modules/chat/chat.service.ts:181-191 | every participant row of a new group satisfies the foreign key to users exactly when the creator and every member exist |
| Chat.ChatService.CreateGroupChat | src/modules/chat/chat.service.ts:167-201 | fails with the foreign-key error, conversations and participants unchanged (the transaction rolled back), exactly when the creator or a member names no user; otherwise a group conversation is appended with one participant row per distinct member, built by the loop over the deduplicated ids |
| Chat.ChatService.GetOrCreateDirectConversation | src/modules/chat/chat.service.ts:301-355 | oneself and an unknown receiver are refused; an existing direct conversation is returned unchanged; otherwise one with exactly the two users is created |
| Chat.SendMessageEffects | src/modules/chat/chat.service.ts:69-76 | after sending, the sender is a recipient, the recipients are unchanged by the read mark, and only the sender's row moved |
| Chat.RecipientsIgnoreReadMarks | src/modules/chat/chat.service.ts:73-76 | rows that differ only in read marks give the same recipients |
| Chat.DirectFoundAgain | src/modules/chat/chat.service.ts:313-348 | a newly created direct conversation holds exactly the two users, and asking again finds it instead of creating another |
| Contacts.Revive | src/modules/contacts/contacts.service.ts:169-207 | a row found with deleted ones included is undeleted with the new status and keeps its alias; a missing one is inserted; other rows are kept |
| Contacts.SoftDelete | src/modules/contacts/contacts.service.ts:264-268 | the row of the pair, if any, is marked deleted; other rows are kept |
| Contacts.Accept | src/modules/contacts/contacts.service.ts:216-259 | without my visible pending-received row the answer is "friend request not found" and nothing changes; on success both directions are visible friends, my alias is cleared, and no other row changes |
| Contacts.Send | src/modules/contacts/contacts.service.ts:124-214 | a request to oneself is refused with "cannot add yourself"; a failure changes nothing; only the two rows of the pair can change |
| Contacts.SendCases | src/modules/contacts/contacts.service.ts:134-207 | an unknown target, an existing friendship, a pending request and a block are refused with their codes; the target's own request is accepted; otherwise a pending pair is revived or inserted |
| Contacts.Remove | src/modules/contacts/contacts.service.ts:261-276 | both directions are soft-deleted whatever their status, keeping status and alias; other rows are kept |
| Contacts.UpdateAlias | src/modules/contacts/contacts.service.ts:278-294 | without my visible row the answer is "contact not found"; otherwise only that row's alias changes and the updated row is returned |
| Contacts.AcceptKeepsPaired | src/modules/contacts/contacts.service.ts:216-259 | on a table where every visible row has its mirrored counterpart, accepting keeps that and never hits the unique key |
| Contacts.SendKeepsPaired | src/modules/contacts/contacts.service.ts:124-214 | sending keeps every visible row mirrored by the other direction |
| Contacts.RemoveKeepsPaired | src/modules/contacts/contacts.service.ts:261-276 | removing keeps every visible row mirrored by the other direction |
| Contacts.UpdateAliasKeepsPaired | src/modules/contacts/contacts.service.ts:278-294 | changing an alias keeps every visible row mirrored by the other direction |
| Contacts.SendThenAccept | src/modules/contacts/contacts.service.ts:169-251 | a request to someone not yet a contact, accepted by them, makes both directions visible friends |
| Contacts.NameDirection | src/modules/contacts/contacts.service.ts:84-87 | a name token sorts descending exactly when its direction upper-cases to DESC |
| Contacts.OtherTokens | src/modules/contacts/contacts.service.ts:80-93 | the tokens handed on are drawn from the given ones and are no more of them |
| Contacts.RewriteSort | src/modules/contacts/contacts.service.ts:78-99 | without a sort the list is ordered by alias-or-name ascending; otherwise the loop adds the name orders and hands on exactly the other tokens joined by ',' or nothing |
| Contacts.RewriteSortParts | src/modules/contacts/contacts.service.ts:79-96 | the name tokens only add to ORDER BY, the string handed on splits back into the other tokens, and none of those is a name token |
| Contacts.ContactsService.constructor | src/modules/contacts/contacts.service.ts:36-44 | the service holds the given contacts table and users |
| Contacts.ContactsService.AcceptFriendRequest | src/modules/contacts/contacts.service.ts:216-259 | the staged transaction answers and commits exactly what `Accept` describes |
| Contacts.ContactsService.SendFriendRequest | src/modules/contacts/contacts.service.ts:124-214 | the guards and the staged transaction answer and commit exactly what `Send` describes |
| Contacts.ContactsService.RemoveContact | src/modules/contacts/contacts.service.ts:261-276 | the two soft deletes leave exactly what `Remove` describes |
| Contacts.ContactsService.UpdateContactAlias | src/modules/contacts/contacts.service.ts:278-294 | the lookup and save answer and leave exactly what `UpdateAlias` describes |
| Collections.DedupFacts | src/modules/chat/chat.service.ts:181 | `[...new Set(ids)]` holds each input element exactly once and nothing else, keeps the first element in front and is no longer than the input |
| Collections.DedupDistinct | src/modules/chat/chat.service.ts:181 | a list without repeats deduplicates to itself |
| Strings.Split | src/utils/query.util.ts:28 | `split` gives at least one piece and no piece holds the separator |
| Strings.JoinSplit | src/utils/query.util.ts:28-31 | joining the pieces with the separator gives the string back |
| Strings.SplitJoin | src/modules/contacts/contacts.service.ts:96 | pieces without the separator, joined and split again, come back unchanged |
| Strings.IndexOf | src/common/helper/query.helper.ts:60 | the first position of the character, -1 exactly when it does not occur |
| Strings.ReplaceFirst | src/common/helper/query.helper.ts:441 | `replace` of one character keeps the length, changes only the first occurrence and nothing when there is none |
| Strings.TrimEmptyIffBlank | src/common/helper/query.helper.ts:393 | `!keyword.trim()` holds exactly for texts made only of white space |
| Strings.ToUpper | src/common/helper/query.helper.ts:512 | ASCII upper-casing: keeps the length and maps each of `a`-`z` to its capital, leaving every other character alone |
| Strings.ToLower | src/common/helper/query.helper.ts:412 | ASCII lower-casing: keeps the length and maps each of `A`-`Z` to its small letter, leaving every other character alone |
| Strings.NatToStringValue | src/utils/otp.util.ts:8 | the decimal text of a number reads back as that number |
| Strings.NatToStringLength | src/utils/otp.util.ts:4-8 | a number has at most `k` digits exactly when it is below `10^k` |
| Strings.LeadingZerosValue | src/utils/otp.util.ts:10 | padding a digit text with zeros keeps it all digits and keeps its value |
| Strings.TrimStart | src/common/helper/query.helper.ts:395 | the result is a suffix that starts with no white space, and everything dropped is white space |
| Strings.TrimEnd | src/common/helper/query.helper.ts:395 | the result is a prefix that ends with no white space, and everything dropped is white space |

## Left out

- Executing SQL. TypeORM's execution of a built query is the `fetch` and `countOf` parameters. The model states which query is run and what is done with its rows, not what the database answers.
- The joins and decoration that only shape a response are not modelled. These are the avatar URL lookups, the `isOnline` flags, unread counts, the conversation partner, `enrichConversationInfo`, `getRelatedUserIds` and `getMediaUrl`. `getUserInbox` is modelled only through its default sort (`Chat.InboxDefaultOrder`).
- `markConversationAsRead` and `processMultipleUploads` are not part of this model. The first is a single-row update of the same shape as `Chat.MarkRead`; the second is a sequence of `Files.FilesService.UploadFile` calls followed by one `Media.MediaService.AttachFiles` (src/modules/media/media.service.ts:116-124).
- Image transcoding (sharp), content hashing and uuid generation are parameters. The transcoded size, the new object's name and the ids of inserted rows are inputs to the operations. Storage always keeps an object under the key it was given.
- Clocks are integer timestamps in milliseconds passed in. `retentionDays` adds whole days and ignores daylight-saving shifts.
- `Promise.all` and concurrent requests are modelled as sequential steps. Two overlapping requests on the same rows are not modelled.
- Event emission, logging, `getBuilder` escapes and the variants that run inside an externally supplied transaction manager are left out. The transactional variants commit or roll back as one step.
- A failure of the storage provider inside a clean-up run is modelled only as the bucket at which the run stops. Retries and partial database failures are not modelled.
- Numbers are integers. Fractional `page`/`limit` values, the float formatting of megabyte sizes in validator messages, and JavaScript `Number` precision are not modelled.
- Object key order is modelled as insertion order. JavaScript lists integer-like keys of a plain object first, so `Object.entries` on such keys would come out in another order.
- Random suffixes of parameter names are modelled as fresh serial numbers, so two of them never collide.
- Filter values are undefined, null, strings, integers, booleans and lists of these. Dates and nested objects as filter values are not modelled.
- Chat.FindDirect: returns the first matching conversation in table order. The source's `getOne` leaves the order to the database.
- Contacts: the `deletedBy` column is not modelled, and a `BLOCKED` status is never produced by any modelled operation.
- SmartFileValidator: the validator's regular expressions are modelled as the lists of suffixes they alternate, matched without regard to case. That is the only form the application configures.
- Contacts.OtherTokens: states only that the tokens handed on are among the given ones. Their exact contents and order are stated by `Contacts.RewriteSort` and `Contacts.RewriteSortParts`.
- Strings.ToUpper / Strings.ToLower: the case mapping covers ASCII letters only. JavaScript's `toUpperCase` and `toLowerCase` also map other letters (`ß` becomes `SS`, `ſ` becomes `S`, `Đ` becomes `đ`), and some of these change the length. Sort directions, LIKE patterns outside Postgres and file names can carry such letters; the model leaves them unchanged.
- TreeHelper.AdvancedTreeHelper.HandleSearchMode, TreeHelper.AdvancedTreeHelper.FetchAncestors and TreeHelper.AdvancedTreeHelper.GetPaginatedTree: stated only for data on which the ancestor loop ends, through a ghost count of rounds within which it ends. On data with a parent cycle the loop never ends; that case is stated only by `TreeHelper.CyclicWalkNeverEnds`.
- RolesGuard.MoreRolesAdmitMore: monotonicity is stated only for non-empty role lists. An empty list admits every request, so adding a role can lock users out.

## Where the code and its description differ

The model follows the code in each case:

- `getPaginated` computes `Number(limit) || 10`, so a limit of 0 never reaches the "no limit" branch: 0 becomes 10 (`QueryHelper.LimitOf`). The branch for a limit of 0 is dead code.
- In search mode the descendants of the matches are fetched by the same level walk as in browse mode, so they are bounded by `maxDepth` (`TreeHelper.AdvancedTreeHelper.HandleSearchMode`). `maxDepth` 0 becomes 10. The ancestors are not bounded: their loop runs until a round finds no parent (`TreeHelper.AdvancedTreeHelper.AncestorRounds`).
- Merging the matches with their ancestors and descendants goes through a `Map`, which keeps the first position of an id but the last row stored under it (`TreeHelper.MergeByIdKeeps`).
- The browse-mode sort loop does not skip a token with an empty field, unlike `getPaginated` (`TreeHelper.BrowseSortKeepsFilters`).
- The orphan clean-up job selects only files that are not soft-deleted, so soft-deleted files are never removed by it (`FileCleanup.BatchesAreLive`).

## Findings

| source | as written | input that shows it | evidently intended | confidence | as-written member | corrected member |
|---|---|---|---|---|---|---|
| src/common/helper/tree.helper.ts:220-243 | `fetchAncestors` follows parent links with no depth bound and no visited set | a row whose parent id is its own id: every round finds it again, so the loop never ends | stop after `maxDepth` rounds, like the descendant walk; a visited set would end it too without cutting long acyclic chains | not executed | TreeHelper.CyclicWalkNeverEnds | TreeHelper.CyclicBoundedEnds |
| src/common/helper/query.helper.ts:458-470 | `filterRange` binds its bounds under fixed names `gte_<field>` and `lte_<field>` | two range filters on the same field: the second call rebinds the first call's parameters, so both conditions compare against the second bounds | a fresh name for every bound, as `filter` and `filterIn` use | not executed | QueryHelper.FilterRangeSharedBound | QueryHelper.FilterRangeFreshTwice |
