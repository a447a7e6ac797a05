# Kyrux: a verified model

Kyrux is a web framework written in Go. This project models the parts of it whose correctness is a matter
of many steps rather than of one function, and proves it with Dafny. Nothing here runs the framework.

- **Query builder** (`QueryBuilder`, `QueryObject`, `SqlQuotes`, `SqlBinding`, `QueryServer`, `QueryFilter`,
  `QueryLast`, `Identifiers`). A query object accumulates conditions, arguments, orderings and rank arguments and
  prints SQL text and an argument list separately. What the pair means is a sequence of characters with arguments in
  the places of their placeholders; the results say that, after every chain of calls, each condition has the
  arguments it was given with, also as the server of each driver reads the text, and that the conditions read
  back with the usual precedence as the disjunction of their AND runs.
- **Reading back** (`SqlReader`, `QueryReader`, `Conditions`, `ChainReader`, `InsertReader`, `Database`). Readers
  of SELECT, UPDATE, DELETE and INSERT that are defined by the grammar of SQL and share nothing with the
  printer. Every statement of the builder reads back as the query its calls describe, and `Database` is a
  database over one table that answers whatever it reads in a statement.
- **Pagination and bulk work** (`Engine`, `OffsetPaging`, `Keyset`, `LastRow`, `BulkInsert`,
  `Prefetching`, `GetOrCreateRace`). Pages by offset in 64-bit arithmetic, pages by cursor, inserts in chunks, one query for
  many keys, and the race between lookups and inserts. The main results on pages and prefetching take the
  database of `Database`, which knows no more of a query than the text and arguments it is sent.
- **Migrations** (`MigrationSql`, `MigrationSchema`, `MigrationParse`, `MigrationLines`, `MigrationFixpoint`,
  `MigrationRunner`, `MigrationExecution`, `MigrationSections`, `MigrationReversal`, `DdlReader`, `MigrationText`).
  A printer of DDL, the framework's line reader that recovers the schema from it, a diff, a runner that splits
  the text, an abstract schema that executes the statements, and a reader of the DDL grammar that gives back
  from the text what is executed.
- **Task queue** (`TaskQueue`), **statement cache** (`StmtCaching`), **session store** (`SessionStore`),
  **rate limiter** (`RateLimiting`), **login throttle** (`LoginThrottle`): objects that update their state in
  place, with results over every run of their operations.
- **Templates** (`TemplateClosure`): collection of partials over possibly cyclic references.
- `GoStrings`, `Patterns` and `Totals` hold the string functions, the pattern pieces and the counting that the
  others share.

Time is an integer, randomness and hashing are parameters, map iteration order is arbitrary. A state machine
and its object share their specification functions: the methods are proved against them and the results over
runs are lemmas about them. Where the framework does not do what its documentation says, the code is
followed and a lemma gives the exact condition:

- a page size of 1 wraps the page number, so every page is empty (`OffsetPaging.ClampIff`,
  `OffsetPaging.AllPagesIff`; the comment at `core/orm/query.go:702-707` promises saturation);
- a key of 0 in an int column, or an empty text key, at the end of a page sends the client back to the first
  page (`Keyset.KeysetCompleteIff`, `SqlBinding.ZeroValueIff`);
- PaginateAfter after a ranking search carries one argument too many (`QueryBuilder.ChainCursorIff`), and
  after OrWhere its cursor binds to the last alternative only (`Keyset.NewCursorRespectedIff`);
- on PostgreSQL a question mark inside quotes is numbered like a placeholder, in a raw condition
  (`QueryServer.ChainOnServer`) and in a default (`BulkInsert.InsertAlignedIff`);
- Last of an ordering whose direction word follows a tab is not valid SQL (`QueryLast.ReverseFlipsIff`);
- under DISTINCT the count can exceed the rows, so HasNext can promise pages that are empty
  (`OffsetPaging.AgreeWhenDistinct`);
- columns of a new table named like constraint keywords need a second run, and names that are not in lower
  case never settle (`MigrationFixpoint.Fixpoint`, `MigrationFixpoint.RunsSettleIff`);
- the statement splitter cuts SQLite's trigger bodies (`MigrationSections.GeneratedFileRuns`);
- the down section drops what an `IF NOT EXISTS` passed over (`MigrationReversal.DownRestoresIffNew`);
- a send can meet a queue closed after the check (`TaskQueue.SendMayPanicIff`).

Verify with `dafny verify dfyconfig.toml`.

## Model

| member | source | states |
|---|---|---|
| `QueryBuilder.ApplySound` | core/orm/query.go:78-377 | every builder call keeps the arguments equal to the arguments given clause by clause and the ranking placeholders equal to the rank arguments; a call whose raw condition matches its arguments keeps all conditions matched |
| `QueryBuilder.ApplyAllSound` | core/orm/query.go:78-377 | the same after any chain of calls, in any order |
| `QueryBuilder.SelectMeans` | core/orm/query.go:969-994 | buildSelect has one placeholder for each argument, and binding them puts each condition's own arguments into it, then rank, limit and offset |
| `QueryBuilder.PageMeans` | core/orm/query.go:998-1008 | the same for buildSelectPage |
| `QueryBuilder.FilterMeans` | core/orm/query.go:481-514 | COUNT, EXISTS and DELETE carry exactly the conditions' arguments, each in its place |
| `QueryBuilder.UpdateMeans` | core/orm/query.go:546-621 | UPDATE binds the SET values first, column by column, then the conditions' arguments |
| `QueryBuilder.ChainMeans` | core/orm/query.go:257-353 | placeholder alignment for every chain of calls on a new query whose raw conditions carry as many placeholders as arguments |
| `QueryBuilder.SelectCounts` | core/orm/query.go:137-157 | with no assumption on raw conditions but closed quotes: placeholders and arguments differ by exactly the conditions' own surplus, and the only question marks in quotes are the conditions' own |
| `QueryBuilder.AfterCursorAlignedIff` | core/orm/query.go:873-882 | PaginateAfter keeps the rank arguments but replaces the ordering: its statement is aligned if and only if no ranking search came before, and is then the meaningful one |
| `QueryBuilder.ChainCursorIff` | core/orm/query.go:312-353 | for every chain of calls the statement of PaginateAfter is aligned if and only if no call of the chain is a successful Search on PostgreSQL or MySQL |
| `QueryObject.Query.constructor` | core/orm/query.go:59-74 | a new query is the empty builder |
| `QueryObject.Query.Select` | core/orm/query.go:78-87 | updates the fields as the builder call says, or records the error |
| `QueryObject.Query.AddJoin` | core/orm/query.go:96-117 | accepts a join only with a valid table and condition |
| `QueryObject.Query.Where` | core/orm/query.go:137-157 | appends the condition and its arguments, with AND or OR |
| `QueryObject.Query.WhereOp` | core/orm/query.go:168-176 | column, operator and one placeholder, for a valid column |
| `QueryObject.Query.WhereNull` | core/orm/query.go:214-231 | a condition without arguments, for a valid column |
| `QueryObject.Query.WhereIn` | core/orm/query.go:257-292 | one placeholder for each value, a slice expanded, an empty list made false, more than 5000 values refused |
| `QueryObject.Query.Search` | core/orm/query.go:312-353 | the driver's full-text condition, ranking and rank argument, or the shadow-table join |
| `QueryObject.Query.OrderBy` | core/orm/query.go:358-367 | appends valid ordering terms |
| `QueryObject.Query.WriteWhere` | core/orm/query.go:908-925 | the printing loop produces the clause text |
| `QueryObject.Query.WriteFrom` | core/orm/query.go:928-935 | the printing loop produces table and joins |
| `QueryObject.Query.WriteSelectHead` | core/orm/query.go:937-958 | the column list: the columns chosen, else the base table's with a join, else all |
| `QueryObject.Query.BuildSelect` | core/orm/query.go:969-994 | text and argument list of the SELECT, the forced limit winning over the query's |
| `QueryObject.Query.BuildSelectPage` | core/orm/query.go:998-1008 | text and argument list with LIMIT and OFFSET always printed |
| `QueryObject.Query.CountStatement` | core/orm/query.go:502-514 | the COUNT statement, or the recorded error |
| `QueryObject.Query.ExistsStatement` | core/orm/query.go:481-498 | the EXISTS statement, or the recorded error |
| `QueryObject.Query.DeleteStatement` | core/orm/query.go:625-643 | the DELETE statement, refused without a condition or with a join |
| `QueryObject.Query.UpdateStatement` | core/orm/query.go:546-621 | the UPDATE statement over the sorted columns of the map in any iteration order; refused without a condition, with a join, for an unknown column or a value that cannot be stored |
| `QueryObject.Query.LastStatement` | core/orm/query.go:449-454 | the SELECT of the query with its ordering reversed, one row |
| `QueryObject.ReverseOrder` | core/orm/query.go:456-478 | the loop reverses every ordering term, the primary key standing in for none |
| `QueryLast.OrderingIffValid` | core/orm/query.go:15-19 | the ordering a term states, read by the grammar alone, exists exactly for the valid terms |
| `QueryLast.ValidIdentIff` | core/orm/query.go:15-19 | the identifier pattern accepts, blanks around them aside, exactly a name or qualified name with an optional ASC or DESC |
| `ChainReader.ValidJoinOnIff` | core/orm/query.go:21-24 | the join pattern accepts, blanks around them aside, exactly an equality of two names or qualified names |
| `QueryLast.ReverseFlipsIff` | core/orm/query.go:467-474 | the reversed term is valid, with the same column and the other direction, if and only if the term has no direction word or a space right before it |
| `QueryLast.TabWitness` | core/orm/query.go:467-474 | a valid term with a tab before its direction word, whose reversal is not valid |
| `QueryLast.AllReversedIff` | core/orm/query.go:456-478 | the reversed terms can be read if and only if every term is such a term or a ranking call, and then they compare any two rows exactly the other way round |
| `QueryLast.ChainReverses` | core/orm/query.go:449-478 | for every chain of calls that leaves an ordering, the ordering of Last is valid if and only if every given term still in force has no direction word or a space before it, and is then exactly the reverse |
| `QueryLast.LastMeans` | core/orm/query.go:449-454 | the reversed query is still aligned, ranking arguments included |
| `Identifiers.ValidIdentClean` | core/orm/query.go:15-19 | a valid identifier holds nothing but word characters, blanks and dots |
| `Identifiers.ValidJoinOnClean` | core/orm/query.go:21-24 | a valid join condition holds nothing but word characters, blanks, dots and the equals sign |
| `SqlBinding.RewritePlaceholders` | core/orm/exec.go:321-338 | the rewriting loop numbers the placeholders for PostgreSQL and leaves other drivers' text alone |
| `SqlBinding.RewriteDecodes` | core/orm/exec.go:321-338 | a decoder that only counts recovers the source text |
| `SqlBinding.ServerReads` | core/orm/exec.go:321-338 | a server that takes $k outside quotes for the k-th argument reads of the rewritten text what the placeholders meant, if no question mark is in quotes |
| `SqlBinding.AlignedIff` | core/orm/exec.go:321-338 | by driver, with no assumption on placeholders and arguments: a statement reaches the server as meant if and only if the question marks outside quotes match the arguments and, on PostgreSQL, none is inside quotes |
| `SqlBinding.NumberedInOrder` | core/orm/exec.go:321-338 | the numbers of the rewritten text are exactly 1, 2, 3 and so on, in order, one for each question mark |
| `QueryServer.SelectAlignedIff` | core/orm/query.go:137-157 | with no assumption on the raw conditions but closed quotes: the SELECT reaches the server as meant if and only if the conditions have as many placeholders as arguments and, on PostgreSQL, no question mark in quotes |
| `QueryServer.ChainOnServer` | core/orm/exec.go:321-338 | for every chain of calls whose raw conditions match their arguments, SELECT, page, COUNT, EXISTS, DELETE and UPDATE each reach the server as the calls meant them: always off PostgreSQL, and there if and only if no condition has a question mark in quotes |
| `QueryServer.QuotedMarkByDriver` | core/orm/exec.go:321-338 | a condition with a question mark in a literal before its placeholder: as meant on the other drivers, not on PostgreSQL |
| `QueryReader.SelectReads` | core/orm/query.go:937-994 | the bound SELECT, read by the SQL grammar alone, is the query: DISTINCT, columns, table, joins, conditions with their connectives and arguments, ordering, limit and offset, each in its clause |
| `QueryReader.PageReads` | core/orm/query.go:998-1008 | the same for the statement of a page, its size read as the limit and its offset as the offset |
| `QueryReader.CountsRead` | core/orm/query.go:481-514 | COUNT reads as the row count of the query's conditions, without its DISTINCT, ordering and limit; EXISTS reads as one row of 1 |
| `QueryReader.DeleteReads` | core/orm/query.go:625-643 | DELETE reads as the deletion from the query's table of the rows of its conditions, and of no others |
| `QueryReader.UpdateReads` | core/orm/query.go:546-621 | UPDATE reads as the given columns with their own values, the clock for exactly the auto-now columns that were not given, and the query's conditions |
| `Conditions.OpReads` | core/orm/query.go:159-212 | a typed comparison adds, with its connective, a condition that reads as that column, operator and value |
| `Conditions.NullReads` | core/orm/query.go:214-231 | the NULL tests add a condition that reads as the test of that column |
| `Conditions.InReads` | core/orm/query.go:257-292 | an empty list adds a condition that no row passes, up to 5000 values membership of the column in exactly these values, and more an error that sends nothing |
| `Conditions.SearchRanks` | core/orm/query.go:312-353 | on PostgreSQL and MySQL a search filters by its term and orders by the relevance of the same term, best first |
| `Conditions.SearchJoins` | core/orm/query.go:312-353 | on SQLite it joins the shadow table by row id and primary key, filters there and orders by its rank |
| `ChainReader.CallMeans` | core/orm/query.go:78-377 | every accepted call on plain names does to what is read back just what it says, and leaves everything else of the query as it was |
| `ChainReader.ChainReads` | core/orm/query.go:905-1008 | for every chain of calls on plain names, accepted or not, whose raw conditions match their arguments and close their parentheses: SELECT, page, COUNT and EXISTS read back as the query the calls describe |
| `ChainReader.FaultyIff` | core/orm/query.go:78-377 | a call is refused if and only if a name, term or join condition of it does not match its pattern, it has more than 5000 values, or it searches what the column or the driver does not support; a refused call records an error and changes nothing else, and errors stay |
| `ChainReader.ChainRefusedIff` | core/orm/query.go:78-377 | after any chain of calls the query is in error if and only if some call of it was refused, and sends no statement then |
| `Database.SelectAnswered` | core/orm/query.go:969-994 | a database that reads its statements answers a SELECT with the rows its conditions let through, in its order, without duplicates for DISTINCT, cut at its limit and offset |
| `Database.PageAnswered` | core/orm/query.go:998-1008 | the same for a page |
| `Database.CountAnswered` | core/orm/query.go:502-514 | COUNT is answered with the number of rows the conditions let through, DISTINCT or not |
| `Database.PassingIff` | core/orm/query.go:908-925 | a row is let through if and only if all conditions of one maximal AND run are true of it, or there is no condition |
| `LastRow.FirstAnswered` | core/orm/query.go:425-445 | on a database that reads its statements, First answers with the first row of the rows that pass in the query's order, after those skipped |
| `LastRow.LastAnswered` | core/orm/query.go:447-478 | Last answers with the last row of that list, counting those skipped from its end, and without an ordering with the row of the greatest key, whenever the ordering tells the rows apart |
| `SqlBinding.ZeroValueIff` | core/orm/exec.go:341-365 | isZeroValue reports the zero of a value's type for exactly the values that are not a zero of a numeric type other than int |
| `QueryFilter.ParseReads` | core/orm/query.go:908-925 | parsing the printed conditions with AND binding tighter than OR, quotes and parentheses respected, gives their tree and leaves what follows |
| `QueryFilter.TreeListed` | core/orm/query.go:908-925 | the tree holds the same conditions and connectives in the same order |
| `QueryFilter.TreeEvaluated` | core/orm/query.go:908-925 | in three-valued logic its value is that of the best of the maximal AND runs |
| `QueryFilter.BindAfter` | core/orm/query.go:908-925 | binding arguments does not disturb parentheses or quotes |
| `QueryFilter.ApplyBalanced` | core/orm/query.go:137-353 | every typed call adds a balanced condition |
| `QueryFilter.ChainFilters` | core/orm/query.go:908-925 | for every chain of calls with balanced raw conditions, the WHERE of the SELECT reads back as the conditions given, each with its own arguments, and a row passes if and only if it passes all of one maximal AND run |
| `QueryFilter.DeleteFilters` | core/orm/query.go:625-643 | a DELETE removes exactly the rows its conditions describe |
| `OffsetPaging.ClampPaging` | core/orm/query.go:711-725 | the reassignments compute the clamped page and size |
| `OffsetPaging.ClampIff` | core/orm/query.go:711-725 | the offset fits and does not wrap if and only if the page size is not 1; then the page is the one asked for, or the last whose offset fits |
| `OffsetPaging.HasPrevIff` | core/orm/query.go:711-784 | the size served is the one asked for from 1 to 1000, else 10 or 1000, in both methods; HasPrev says whether rows were skipped if and only if the page size is not 1 |
| `OffsetPaging.Paginate` | core/orm/query.go:746-784 | counts, selects and fills in the page |
| `OffsetPaging.PaginateNoCount` | core/orm/query.go:790-823 | asks for one row more and cuts it off |
| `OffsetPaging.TotalPagesIff` | core/orm/query.go:757-760 | the number of pages is the rows rounded up, at least one, if and only if the rounding does not wrap |
| `OffsetPaging.AgreeIff` | core/orm/query.go:746-823 | whatever COUNT answers, the two methods return the same items, and the same HasNext if and only if the page size is not 1 and the count, unless the rounding wraps, goes beyond the page exactly when the rows do |
| `OffsetPaging.AgreeWhenCounted` | core/orm/query.go:746-823 | without DISTINCT: the same HasNext exactly when the page size is not 1 and the page count does not wrap or nothing is left |
| `OffsetPaging.AgreeWhenDistinct` | core/orm/query.go:502-510 | with DISTINCT, which COUNT ignores: the same HasNext exactly outside the pages between the last row shown and the last one counted |
| `OffsetPaging.AllPagesIff` | core/orm/query.go:746-784 | pages 1 to TotalPages joined are all the rows in order if and only if the page size is not 1 (or there are none), with DISTINCT too |
| `OffsetPaging.TooFarIsEmptyIff` | core/orm/query.go:702-725 | a page whose offset would not fit is empty if and only if the table ends before the last offset that fits |
| `OffsetPaging.AgreeInDatabase` | core/orm/query.go:746-823 | on a database that reads its statements: both methods show the slice of the filtered, ordered rows that the page number and size name (nothing for size 1), Total is the number of rows that pass, and their HasNext agrees exactly as above |
| `OffsetPaging.AllPagesInDatabase` | core/orm/query.go:746-784 | on such a database the pages joined are the filtered rows in order if and only if the page size is not 1 or there are none |
| `Keyset.WithCursor` | core/orm/query.go:868-880 | the copied query with cursor condition and ordering; CursorReads and CursorOrderIff say how they read |
| `Keyset.PaginateAfter` | core/orm/query.go:850-903 | the page of the rows that come back, its cursor and HasNext; refused for a query in error, an invalid or an unknown column |
| `Keyset.CursorOrderIff` | core/orm/query.go:868-878 | the ordering PaginateAfter asks for, read by the grammar, is its column in the direction asked for if and only if the column does not carry a direction word itself |
| `Keyset.CursorReads` | core/orm/query.go:868-875 | the cursor condition reads as the column beyond the key: above it for ascending pages, below it for descending ones |
| `Keyset.CursorEscapesIff` | core/orm/query.go:875-875 | row by row: a row passes with the cursor if it passes the filter and lies beyond the cursor, or an earlier OR alternative lets it through |
| `Keyset.CursorRespectedIff` | core/orm/query.go:875-875 | on the query alone: the cursor holds for every row that passes if and only if every AND run before the last contains the cursor condition itself |
| `Keyset.NewCursorRespectedIff` | core/orm/query.go:875-875 | for a query that does not hold the cursor condition already: if and only if no clause after the first is joined with OR |
| `Keyset.PageFollows` | core/orm/query.go:882-902 | the k-th page followed by cursors is the k-th slice of the ordered, filtered rows |
| `Keyset.Completes` | core/orm/query.go:850-903 | when no page ends on a key that counts as zero, the client ends after as many pages as the rows fill, with every row once and in order |
| `Keyset.Repeats` | core/orm/query.go:874-874 | when some page does, the pages repeat from the first for ever |
| `Keyset.DatabaseRuns` | core/orm/query.go:850-903 | a database that reads its statements and knows nothing else answers every page of PaginateAfter with the first rows beyond the cursor in key order |
| `Keyset.KeysetCompleteIff` | core/orm/query.go:850-903 | on a database that reads its statements: following the cursors ends if and only if no page before the last ends on a key that counts as zero; the collected rows are the rows of the table that pass, in strict key order, ascending or descending as asked |
| `Engine.FilterSort` | core/orm/query.go:850-903 | filtering before ordering and after it give the same rows |
| `BulkInsert.OneCell` | core/orm/exec.go:73-97 | a field's entry: its default for a zero value, else its value hashed or encrypted, failing closed; InsertReader.CellStores says what that stores |
| `BulkInsert.RowValues` | core/orm/exec.go:51-101 | the field loop produces the row's entries and arguments and leaves generated ids in the model |
| `BulkInsert.RowIsAligned` | core/orm/exec.go:51-101 | one entry for each column but the primary key, in column order |
| `BulkInsert.ColumnsAligned` | core/orm/exec.go:39-47 | the printed columns are those of the entries |
| `BulkInsert.NonPKComplete` | core/orm/exec.go:39-47 | no column but the primary key is left out |
| `BulkInsert.ValidDefaultIsFixed` | core/orm/query.go:26-33 | a valid default closes its quotes, and every question mark in it is inside them |
| `BulkInsert.InsertMeans` | core/orm/exec.go:192-212 | as many placeholders as arguments, and every entry bound to its own value |
| `BulkInsert.InsertAlignedIff` | core/orm/exec.go:192-216 | the insert reaches the server as meant: always off PostgreSQL, and there if and only if no printed default has a question mark |
| `BulkInsert.ChunkAlignedIff` | core/orm/exec.go:192-216 | the same for the rows of any models whose defaults are valid |
| `BulkInsert.DefaultByDriver` | core/orm/exec.go:192-216 | a default 'why?': as meant on the other drivers, not on PostgreSQL |
| `BulkInsert.InsertChunk` | core/orm/exec.go:192-240 | one statement for the chunk, and the ids that come back stored in order on PostgreSQL |
| `BulkInsert.CreateAll` | core/orm/exec.go:170-190 | the statements are those of the chunks in order, and every model ends with its generated ids and the primary key answered for it |
| `BulkInsert.ChunksPartition` | core/orm/exec.go:183-188 | the chunks are the models in order, at most 500 in each |
| `BulkInsert.ChunkAt` | core/orm/exec.go:183-188 | model i is in chunk i / 500, at place i % 500 |
| `BulkInsert.IdsInOrder` | core/orm/exec.go:219-230 | if each statement is answered with an id for each row, the i-th of all ids is the one for model i |
| `BulkInsert.StoredId` | core/orm/exec.go:219-230 | that id lands in the primary key and changes no other column |
| `InsertReader.InsertReads` | core/orm/exec.go:192-216 | the bound INSERT, read by the grammar alone, names the table and columns and holds for every model a row of its entries in column order |
| `InsertReader.CellStores` | core/orm/exec.go:73-97 | a field stores its printed default exactly if it has one and its value is zero; a hash field stores what hashing returned unless its text already is a hash, an encrypted field what encryption returned, any other its value; there is no entry exactly if hashing or encryption failed |
| `InsertReader.RowStored` | core/orm/exec.go:51-101 | the same for all columns of a model but the key, generated ids included, and the row is refused exactly if one of its values cannot be protected |
| `InsertReader.ChunkStored` | core/orm/exec.go:192-216 | no statement is sent for a chunk exactly if one of its values cannot be protected; else the server of each driver receives one row for each model in order, each column holding what its field asks for |
| `InsertReader.UpdateKeeps` | core/orm/query.go:572-595 | UPDATE stores hashes and ciphertexts too, and is refused exactly if a value cannot be protected |
| `InsertReader.ValidDefaultIsCompact` | core/orm/query.go:26-33 | a valid default is one entry of a row: no comma or parenthesis of it outside quotes splits it |
| `Prefetching.Dedupe` | core/orm/prefetch.go:49-59 | the loop keeps the first occurrence of every key |
| `Prefetching.UniqFacts` | core/orm/prefetch.go:49-59 | the same keys, none twice |
| `Prefetching.GroupByKey` | core/orm/prefetch.go:62-69 | the loop groups the rows by key |
| `Prefetching.GroupsMean` | core/orm/prefetch.go:62-69 | a group holds exactly the rows of its key in order, and exists exactly if there are any |
| `Prefetching.Prefetch` | core/orm/prefetch.go:23-33 | no query for no keys, else one query and its groups, or the query's error |
| `Prefetching.PrefetchIsPerKey` | core/orm/prefetch.go:23-33 | on a database that reads its statements: for at most 5000 distinct keys, and only then, every key maps to the rows of the table with that key, which a query for it alone returns too, in the same order; a key without rows, NULL included, has no entry |
| `GetOrCreateRace.RaceIsSettled` | core/orm/query.go:659-676 | for any number of clients and any interleaving, with UNIQUE, defaults that satisfy the filter and no deletes: keys stay unique, nobody fails, those who finish on a key hold one row, and one of them created it exactly if it was absent |
| `GetOrCreateRace.ExactlyOneCreator` | core/orm/query.go:659-676 | exactly one creator once somebody has finished on a key absent at the start |
| `GetOrCreateRace.ClientAdvances` | core/orm/query.go:685-704 | every client is done after three steps of its own |
| `GetOrCreateRace.UniqueIsNeeded` | core/orm/query.go:653-658 | two clients that look before either inserts leave one row if and only if UNIQUE is there |
| `GetOrCreateRace.MatchingDefaultsAreNeeded` | core/orm/query.go:645-652 | defaults that do not satisfy the filter can make a client fail |
| `GetOrCreateRace.CallIsRun` | core/orm/query.go:659-704 | a call with others between its statements is a run of the race in which the client moves at most three times, and it ends |
| `GetOrCreateRace.CallIsSettled` | core/orm/query.go:659-704 | with UNIQUE and matching defaults a call ends with the row of its key, and it created that row exactly when the key was absent both at its lookup and at its insert |
| `GetOrCreateRace.StepEffect` | core/orm/query.go:685-702 | each step of a client leaves the rows as they were, adds its defaults as one row, or writes its value to exactly the rows of its key |
| `GetOrCreateRace.CallWrites` | core/orm/query.go:685-702 | a call, with any moves of others between its statements: one that creates adds a row of its default key and payload, an update without creating leaves the value in every row of its key, and all other rows are what the moves of the others left |
| `GetOrCreateRace.Table.GetOrCreate` | core/orm/query.go:659-676 | the method, with any moves of other clients after its lookup and after its collision, makes exactly the steps of the race and returns what its last phase says |
| `GetOrCreateRace.Table.UpdateOrCreate` | core/orm/query.go:685-702 | the same for the updating method; when it ends without creating, every row of its key holds the value and the others are untouched |
| `MigrationSql.GenerateSql` | core/cli/makemigrations.go:264-361 | the printing loops produce the rendering of a script of statements and comments; DdlReader.DdlReads says how each reads |
| `DdlReader.ColumnTextReads` | core/cli/makemigrations.go:479-503 | a printed column line, read by the DDL grammar alone, gives back the column, its type, and PRIMARY KEY, NOT NULL with its default, UNIQUE and REFERENCES exactly for the fields that ask for them, for every field and driver |
| `DdlReader.AddedTextReads` | core/cli/makemigrations.go:430-445 | the same for the definition of an added column, which is never a key or NOT NULL |
| `DdlReader.DdlReads` | core/cli/makemigrations.go:264-361 | every printed statement with names that are identifiers reads back as the table, index, trigger or column it stands for |
| `DdlReader.TextRuns` | core/cli/makemigrations.go:264-361 | running what is read of the text of a statement is running the statement |
| `MigrationText.GeneratedTextRuns` | core/database/migrate/migrate.go:204-215 | without SQLite triggers the pieces of the up section that are sent read as its statements one by one, those of the down section always do, and running what is read is running them |
| `MigrationText.TextRestores` | core/cli/makemigrations.go:322-358 | so on a consistent schema where its names are new, a generated file that is received piece by piece and undone leaves the schema it found |
| `MigrationText.ExtrasIff` | core/cli/makemigrations.go:288-333 | the up section makes an index, a full-text table or a trigger if and only if a field asks for it on that driver |
| `MigrationText.KeyIsFirst` | core/cli/makemigrations.go:365-372 | the key of a model is its first primary-key field, and id when it has none |
| `MigrationText.SuggestionReads` | core/cli/makemigrations.go:327-332 | the advice printed for a removed column reads, uncommented, as the drop of that column |
| `MigrationFixpoint.DiffModel` | core/cli/makemigrations.go:133-156 | missing columns in model order and removed ones sorted, or nothing when nothing changed |
| `MigrationFixpoint.RemovedColumns` | core/cli/makemigrations.go:140-150 | the sorted listing of the removed columns, whatever the map order |
| `MigrationFixpoint.Detect` | core/cli/makemigrations.go:63-96 | the pending tables, the changed ones, and whether there is anything to add |
| `MigrationFixpoint.MissingIs` | core/cli/makemigrations.go:133-156 | the columns to add are those of the model that the table lacks, the key excepted, in model order |
| `MigrationFixpoint.PendingIs` | core/cli/makemigrations.go:63-96 | the tables to create are those of the models that the schema lacks, in order |
| `MigrationFixpoint.AltersAre` | core/cli/makemigrations.go:63-96 | one change for each model whose table differs, in order, with its missing and its sorted removed columns |
| `MigrationSchema.SchemaInDir` | core/cli/makemigrations.go:551-629 | the line loop computes the schema the files declare |
| `MigrationParse.ScriptRead` | core/cli/makemigrations.go:551-629 | reading a rendered script has the effect of its statements, one after another |
| `MigrationParse.DropLineRead` | core/cli/makemigrations.go:611-622 | the same line makes the schema reader forget that column and nothing else |
| `MigrationLines.ParsedSchemaClean` | core/cli/makemigrations.go:575-622 | every name the reader reports is lower-case and on one line |
| `MigrationLines.GeneratedFileRead` | core/cli/makemigrations.go:567-573 | reading a generated file has the effect of its up statements; the down section is not seen |
| `MigrationFixpoint.Fixpoint` | core/cli/makemigrations.go:133-156 | autodetector fixpoint: after printing the differences and reading everything again, nothing is pending or to be added, if and only if the names of every model survive the reader (lower case, no constraint keyword) |
| `MigrationFixpoint.KeywordColumnNotAtOnce` | core/cli/makemigrations.go:584-587 | a column of a new table named like a constraint keyword is still missing after the first run |
| `MigrationFixpoint.SettledIsLower` | core/cli/makemigrations.go:593-622 | whatever the files hold, models are settled only if their names are in lower case, so other names stay missing for ever |
| `MigrationFixpoint.RunsSettleIff` | core/cli/makemigrations.go:63-128 | after two runs or more with the same models, on any files at the start, nothing is pending or to be added if and only if the names are in lower case, keyword columns included |
| `MigrationReversal.DownRestores` | core/cli/makemigrations.go:322-358 | when up succeeds on a consistent schema where its names are new, down succeeds and restores that schema; no table is dropped while referenced |
| `MigrationReversal.DownRestoresIffNew` | core/cli/makemigrations.go:271-358 | for different names, down restores the schema if and only if none of the created names was there before |
| `MigrationReversal.DroppedAreGone` | core/cli/makemigrations.go:322-358 | a down section that succeeds leaves none of the names it drops |
| `MigrationRunner.SplitMigration` | core/database/migrate/migrate.go:86-101 | the line loop computes the two sections |
| `MigrationRunner.SplitLosesNothing` | core/database/migrate/migrate.go:86-101 | no line but the separators is lost, and the order is kept |
| `MigrationRunner.SameSeparator` | core/database/migrate/migrate.go:90-93 | runner and schema reader take the same lines for the separator |
| `MigrationRunner.ReaderSeesUpSection` | core/cli/makemigrations.go:567-573 | the schema reader learns from a file exactly what its up section declares |
| `MigrationRunner.CheckComment` | core/database/migrate/migrate.go:217-226 | the loop decides whether a piece is only comment and blank lines |
| `MigrationRunner.ExecSql` | core/database/migrate/migrate.go:204-215 | sends the pieces between semicolons in order, comments skipped, and stops at the first error |
| `MigrationRunner.SentIff` | core/database/migrate/migrate.go:204-215 | a statement is sent if and only if none before it failed |
| `MigrationSections.SectionsOfGenerated` | core/database/migrate/migrate.go:86-101 | the two sections of a generated file are its rendered up and down statements |
| `MigrationExecution.ScriptChunks` | core/database/migrate/migrate.go:204-226 | a rendered script is cut into its statements, each sent once with at most comment lines before it, and a suggestion with a semicolon sends nothing |
| `MigrationSections.GeneratedFileRuns` | core/database/migrate/migrate.go:204-215 | the up section runs exactly its statements in order if and only if SQLite full-text triggers are not among them; the down section always does |
| `TaskQueue.StepInv` | core/queue/queue.go:222-390 | every event keeps every accepted task in one place and the buffer within its capacity |
| `TaskQueue.QueueConserves` | core/queue/queue.go:222-390 | over every run: exactly one of buffer, worker, retry timer, retry in flight, done and dropped; order of sending kept; at most max(1, maxRetries) handler calls for a task |
| `TaskQueue.StampSurvives` | core/queue/queue.go:333-390 | the time of the first Enqueue survives every retry, and no handler runs on a task older than the age limit |
| `TaskQueue.BeginHandlesIff` | core/queue/queue.go:345-357 | a worker calls the handler of the task it took if and only if the task has one and has not waited longer than a positive limit since its stamp; else the task is dropped |
| `TaskQueue.FinishRetriesIff` | core/queue/queue.go:359-376 | success ends the task; a failure is retried after as many seconds as the task has failed, if and only if tries are left; a panic drops it |
| `TaskQueue.DroppedIff` | core/queue/queue.go:333-390 | an event drops a task if and only if it was too old, had no handler, panicked, was out of tries, or was refused when sent again |
| `TaskQueue.DroppedWithCause` | core/queue/queue.go:333-390 | over every run a task is dropped if and only if some event of the run had such a cause |
| `TaskQueue.DrainTerminates` | core/queue/queue.go:278-304 | after Close the workers take a bounded number of steps |
| `TaskQueue.DrainProgresses` | core/queue/queue.go:299-304 | until every worker has left, one can take a step |
| `TaskQueue.DrainedIsEmpty` | core/queue/queue.go:278-296 | when Close returns, buffer and workers are empty and only tasks on their retry path are outstanding |
| `TaskQueue.SendMayPanicIff` | core/queue/queue.go:236-258 | a closed queue can still panic on a send if and only if a goroutine is between its check of `closed` and its send |
| `TaskQueue.OpenNeverPanics` | core/queue/queue.go:236-258 | an open queue does not panic |
| `TaskQueue.CloseBetweenCheckAndSend` | core/queue/queue.go:223-233 | the interleaving with Close that panics |
| `TaskQueue.Queue.Enqueue` | core/queue/queue.go:222-233 | refuses an unknown handler or a closed queue, else stamps and sends |
| `TaskQueue.Queue.Process` | core/queue/queue.go:333-376 | calls the handler unless the age limit is positive, the stamp is set and the wait is longer than the limit, and finishes, retries or drops the task |
| `TaskQueue.Queue.Receive` | core/queue/queue.go:299-304 | a worker takes the oldest task of the buffer |
| `TaskQueue.Queue.Requeue` | core/queue/queue.go:379-390 | a retry is kept exactly if the queue is open and has room |
| `TaskQueue.Queue.Close` | core/queue/queue.go:278-296 | closes once |
| `StmtCaching.TouchedKeeps` | core/database/database.go:33-41 | a hit changes the order and nothing else |
| `StmtCaching.PutKeeps` | core/database/database.go:46-62 | a put keeps the invariant, loses no statement, and the statement for use is not one to close |
| `StmtCaching.EvictsOldest` | core/database/database.go:53-59 | an eviction takes the entry at the back and leaves the others in order |
| `StmtCaching.RunKeeps` | core/database/database.go:33-74 | over every run no query is cached twice, at most 512 are, and the statements put in are those cached and those handed out for closing, counted |
| `StmtCaching.EachOnce` | core/database/database.go:33-74 | a statement put in once is cached or was handed out, not both, and not twice |
| `StmtCaching.CacheIsNewest` | core/database/database.go:265-281 | after any history of queries exactly the 512 most recently used are cached, in order of use |
| `StmtCaching.CachedIff` | core/database/database.go:265-281 | a query is cached if and only if it was used and fewer than 512 others were used since |
| `StmtCaching.StmtCache.Get` | core/database/database.go:33-41 | map and list move together |
| `StmtCaching.StmtCache.Put` | core/database/database.go:46-62 | map and list take the new entry and drop the evicted one together |
| `StmtCaching.StmtCache.CloseAll` | core/database/database.go:64-74 | every cached statement is closed and both structures are emptied |
| `StmtCaching.DB.PrepareCached` | core/database/database.go:265-281 | the statement returned is open and prepared for the query asked; what is cached stays open and exactly the evicted statement is closed |
| `SessionStore.StepKeeps` | core/security/session/session.go:77-195 | every operation keeps the index invariant |
| `SessionStore.RunKeeps` | core/security/session/session.go:77-195 | in every reachable state with fresh ids and monotone time: no empty list, no duplicate, no dangling id, every unexpired session listed under its key |
| `SessionStore.FixedLimitsHold` | core/security/session/session.go:95-126 | while no limits are set, over any run, the store stays within the larger of its size and its limit, and every key within the larger of its unexpired sessions and its limit, at every later time |
| `SessionStore.LimitsFromTheStart` | core/security/session/session.go:77-126 | limits set on a new store and left alone are never exceeded |
| `SessionStore.LimitsHold` | core/security/session/session.go:95-126 | whatever limits were set and however often: the bounds are the largest of them so far |
| `SessionStore.RefusedIff` | core/security/session/session.go:95-126 | refused for the store exactly when it holds its limit, expired sessions included; refused for the key exactly when that many unexpired sessions of it exist |
| `SessionStore.StepFound` | core/security/session/session.go:128-136 | only creating and deleting a session change what a lookup of it finds |
| `SessionStore.CollectedIff` | core/security/session/session.go:179-195 | collecting removes exactly the expired sessions and their ids, keeps the rest of every list in order, and changes nothing else |
| `SessionStore.Store.NewSession` | core/security/session/session.go:95-126 | the new session, or the limit that refused it |
| `SessionStore.Store.Get` | core/security/session/session.go:128-136 | finds exactly the unexpired sessions |
| `SessionStore.Store.DeleteSession` | core/security/session/session.go:138-147 | removes the session from map and index |
| `SessionStore.Store.PruneKeyExpired` | core/security/session/session.go:150-164 | keeps the unexpired ids of one key in order |
| `SessionStore.Store.RemoveFromKey` | core/security/session/session.go:166-177 | removes an id from its list, and an empty list from the index |
| `SessionStore.Store.Gc` | core/security/session/session.go:179-195 | deleting in any map order leaves exactly the unexpired sessions and ids |
| `RateLimiting.WindowBound` | core/security/middleware/middleware.go:244-250 | no counting window lets through more than the maximum |
| `RateLimiting.IntervalBound` | core/security/middleware/middleware.go:223-262 | no closed interval as long as the window lets through more than twice the maximum from one address |
| `RateLimiting.BlockedWithCause` | core/security/middleware/middleware.go:244-254 | a blocked request is preceded, within one window length, by at least the maximum from its address |
| `RateLimiting.SweepKeepsAlike` | core/security/middleware/middleware.go:235-243 | the sweep is not observed: the same places in the same windows as without it |
| `RateLimiting.RetrySuffices` | core/security/middleware/middleware.go:251-255 | waiting as long as Retry-After says opens a new window, whatever other addresses do; the request passes if and only if the maximum lets anything through |
| `RateLimiting.RetryLeast` | core/security/middleware/middleware.go:251-255 | the announced time is the least whole number of seconds after which the window is over, and at least one |
| `RateLimiting.RetryNeeded` | core/security/middleware/middleware.go:251-255 | a blocked client that asks again at least a second earlier is blocked again, whatever other addresses do |
| `RateLimiting.RateLimiter.Sweep` | core/security/middleware/middleware.go:235-243 | deleting in any map order leaves exactly the entries not expired |
| `RateLimiting.RateLimiter.Handle` | core/security/middleware/middleware.go:229-258 | one request: sweep if due, count, answer, Retry-After |
| `LoginThrottle.BlockedIff` | core/security/auth/throttle.go:56-65 | after any history a key is blocked exactly when its own counter has reached the limit and not run out |
| `LoginThrottle.CounterMeans` | core/security/auth/throttle.go:68-78 | the counter is the number of failures since the one that opened the window, when no other was open, with no reset in between |
| `LoginThrottle.CountedIff` | core/security/auth/throttle.go:68-86 | a key has a counter if and only if it failed and was not reset since |
| `LoginThrottle.LimitsMean` | core/security/auth/throttle.go:44-54 | the limits in force are the last positive ones set, else ten failures in a minute |
| `LoginThrottle.SweepUnobservable` | core/security/auth/throttle.go:56-99 | the answers are those of a throttle that never sweeps |
| `LoginThrottle.LoginThrottle.Blocked` | core/security/auth/throttle.go:56-65 | sweeps if due and answers |
| `LoginThrottle.LoginThrottle.Fail` | core/security/auth/throttle.go:68-78 | counts, or opens a window |
| `LoginThrottle.LoginThrottle.SweepLocked` | core/security/auth/throttle.go:88-99 | deleting in any map order leaves exactly the records not expired |
| `TemplateClosure.Engine.CollectTransitive` | core/render/template.go:180-192 | terminates; what is added is reached from the name, and every known reference out of it is collected |
| `TemplateClosure.Engine.Compile` | core/render/template.go:131-165 | collects exactly the known sources reached by references from the template or its direct parent, on any graph, cycles included |
| `TemplateClosure.ReachesThrough` | core/render/template.go:180-192 | reaching is transitive, so a partial's own partials are collected with it |

## Left out

- SQL engines, drivers and result scanning: the database is a function that reads its statements, and its errors appear only where a step of the model depends on them.
- The grammar beyond what the framework prints: the readers know the SELECT, UPDATE, DELETE, INSERT and DDL forms that it sends. A raw condition is read as a whole, and LIKE, full-text matches and relevance are parameters of the database.
- Conversions between SQL types: `Database` compares values as they are, NULL by three-valued logic, so 1 and 1.0 differ. Rows that no term of the ordering tells apart keep the order of the table.
- Joins and chosen columns in `Database`: the text with joins and columns reads back as such, and the results on rows take whole rows of one table.
- Redis modes of the queue, other storage back ends, adapters, mail and hot reloading: network clients.
- Cryptography and random ids: hashing, encryption and generated ids are parameters, and session ids are assumed fresh.
- The WhereEq family and the Join variants: one call of `WhereOp` or `AddJoin` with a fixed operator each.
- Aggregates (Sum, Avg, Min, Max), All and Each: they send the statements modelled here without further logic.
- Select with a subset of the columns under PaginateAfter: the cursor column might not be read; `Keyset` takes whole rows.
- Quoting beyond the three quote characters: `SqlQuotes` takes ', " and ` for quotes on every driver and closes one at the next of its kind; backslash escapes and dollar quoting are not part of it.
- Raw conditions that leave a quote open: the results on placeholders take closed ones; on PostgreSQL they also take texts without a dollar sign, and without a digit right after a question mark, outside quotes.
- Comments inside a raw condition: `QueryFilter` knows quotes and parentheses, not `--`.
- Two models in one bulk insert that are the same pointer: `BulkInsert` takes distinct ones. Single inserts repeat the row part.
- Slices that share memory (the in-place filtering of the session index, the reuse of capacity by append): sequences are values here.
- The values inside a session, cookies and the request: `SessionStore` keeps identity, key and expiry.
- Non-ASCII letters in case mapping and in trimming: `GoStrings` maps ASCII letters only; identifiers have no others.
- Rounding of seconds in Retry-After: durations are integers and truncated exactly.
- The panic of a send on a closed channel ends the process; `TaskQueue` counts it and goes on.
- Regular expressions are written out as predicates; Go source analysis, model tags and file names of migrations are inputs.
- Parsing and execution of template text: the references of a text are a function of it.
- The applied-migrations table, transactions around a migration and the choice of its number.
- MigrationReversal.DownRestoresIffNew: leaves aside models whose primary key is itself a foreign key, because the index of such a key goes with its table and is not dropped by name; MigrationReversal.DownRestores covers them.
- MigrationSections.GeneratedFileRuns: takes table and column names that are identifiers, because a semicolon or line break in a name would end a statement by itself.
