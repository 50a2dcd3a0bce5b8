# NLSQL in Dafny

NLSQL compiles a small query language, written as S-expressions, into SQL. A schema and a policy
decide which tables and columns a query may use; for every table with a tenant rule the compiler adds
a predicate of its own. This project models the three parts of the system in which something can go
subtly wrong and proves what each promises:

* the compiler in C (`src/nlsql.c`): reader, checks, emitter, parameter table, output buffer, and the
  linker that splices finished statements for set operations and WITH;
* the Python reader, printer, optimizer and fluent builder (`bindings/python/nlsql.py`);
* the token bucket of the HTTP server (`tools/server.py`).

`dafny verify dfyconfig.toml` checks everything.

## How the model is laid out

| files | part |
|---|---|
| `Sexpr`, `Brackets`, `Reader`, `Nesting`, `Printer`, `PyReader` | text, trees, both readers, the bracket scan, canonical text |
| `Buf`, `Decimal` | the output buffer and decimal numerals |
| `Catalog`, `Emit`, `Compile` | schema and policy lookups, numbering of an expression, the plan of a whole compile, as functions |
| `Emitter`, `Writer`, `StatementWriter`, `Backend`, `Compiler` | the same as it runs: methods that write into a `Buf` and a `ParamTable`, proved equal to the plan |
| `Sql`, `SqlExpr`, `SqlRead`, `Statement` | SQL text, its lexer and a precedence parser, written independently of the emitter |
| `Lexemes`, `ReadBack`, `StatementLexemes`, `StatementRead`, `StatementText` | emitted text reads back as the statement that was meant |
| `Placeholders`, `CompileProps`, `Binding`, `Positional` | numbers in the text against the parameter table; placeholders without numbers |
| `Relational`, `TenantIsolation`, `TenantCompile` | nested-loop joins with NULL, and tenant isolation |
| `Language`, `Recovery`, `Checks` | the request language told by its words: what is written gives the request back, and exactly what each check asks |
| `Asked`, `AskedRows` | what a request means by its own words, and that the statement selects exactly that |
| `JoinTree`, `Resolution`, `Cte` | foreign-key joins, visible columns, scope of WITH |
| `Typing`, `Kinds`, `TypedStatement` | type soundness, calls included, and exactly which conditions have truth values |
| `Rebase`, `Link`, `LinkPositions` | renumbering finished text, set operations and WITH, and what their placeholders are bound to |
| `Renumber`, `Agreement`, `LinkRead`, `LinkMeaning` | linked text parsed by the database, the rows it selects, and its tenant isolation |
| `Samples` | small accepted queries; the inputs behind the failed promises below |
| `Optimizer`, `NormalForm`, `Diff`, `Builder` | the Python side |
| `RateLimiter` | the token bucket |

The plan functions of `Compile` decide as `compile_tree` decides, check by check and in its order; the
methods decide and write at once, as the C code does, and their postconditions say that they succeed
exactly when the plan does and the text fits. Theorems about plans are therefore theorems about what
the methods write.

The statement a request is compiled to is a function of the request, and a function could be wrong in
the same way on both sides of a theorem. So the request has a meaning of its own, told by its head
words and by quantifiers alone: `Asked.Value` and `AskedRows.Selected` do not mention how anything is
written. `AskedRows.TextSelectsWhatIsAsked` says that a database which parses the SQL selects exactly
the rows asked for, limited to the tenant; `Recovery.RequestRecovered` that every clause can be read
back out of the statement; `Checks` what exactly passes.

## Where the code does not meet a promise

Each comes with an input on which it fails and with the exact condition, checkable on the request,
under which the promise holds.

* Denied columns. The policy's columns are checked where a request writes `(column alias col)`. A bare
  name `(ref n)` is never looked up, so it can name a denied column, against sections 2 and 4 of
  `docs/security/TENANT_ISOLATION_WHITEPAPER.md`. An accepted statement names no denied column exactly
  when no `(ref n)` in its clauses does (`Resolution.RefsDecideExposure`, `Resolution.RefSlips`).
* Renumbering ?n. The SQLite branch of `append_rebased` steps over the first digit. A linked SQLite
  statement keeps its bindings exactly when the right-hand side has no parameters, or a single one that
  is also the last on the left (`Link.SetKeepsBindings`, `Link.CteKeepsBindings`, `Link.SqliteSlips`).
* MySQL placeholders carry no number while the table shares entries by name. Binding by position is
  right exactly when no two places of the query ask for the same parameter (`Binding.PositionsExactly`,
  `Binding.RepeatSlips`). Linking adds a fault of its own exactly when a parameter repeats on the left
  and there is one on the right (`LinkPositions.SetKeepsPositions`).
* `(group-by)` without expressions is accepted and written as text that no database can read; every
  other accepted statement reads back (`Compiler.MeantOrNothing`, `Compiler.EmptyGroupSlips`).
* The optimizer folds `(eq x x)` to true even where x is NULL; at an equality it is right exactly when
  the folded word is not NULL (`Optimizer.EqualityFoldExactly`, `Optimizer.NullEqualsNullIsFolded`).
* C and Python disagree about white space: Python also counts four control characters and the Unicode
  spaces. They agree on a text exactly when no character in it is classed differently, or neither of
  them finds a tree in it that keeps the limits (`PyReader.ReadersAgreeExactly`,
  `PyReader.ReadersDisagree`).
* Two operands of unknown type are comparable, so a comparison of nonsense passes as boolean
  (`TypedStatement.UnknownComparisonSlips`); a where clause with a third member is not checked to be
  boolean at all (`TypedStatement.LongWhereSlips`). The condition of an accepted query is true, false
  or NULL on all rows and arguments of the declared types exactly when its parts have kinds that fit,
  a check on shapes and declared types (`TypedStatement.ConditionExactly`, `Kinds.Kind`). Where no
  and / or has a single operand that is: when `expr_type` knows every part and says boolean
  (`TypedStatement.BooleanScalarReads`).
* An empty list `()` where nothing looks, behind the query for one, passes every check and leaves the
  printer without a text to print. The compiler is undefined exactly when an accepted tree holds one
  and everything before it fits the buffer (`Compiler.CompileIr`, `Compiler.EmptyListSlips`).
* WITH does not count parameters as set operations do. Linking it is undefined exactly when there are
  more than 128 in all and the text fits (`Link.CompileCte`, `Link.WideSlips`).
* The outer query of WITH writes every table as `"public"."table"`, the one WITH defines too, and SQL
  knows that one by its bare name only: for no request does it read it
  (`LinkMeaning.WithNamesNoBareTable`).

## Model

| member | source | states |
|---|---|---|
| Sexpr.FlattenPrefixFree | src/nlsql.c:453-500 | no tree's tokens are a proper start of another's, so reading from a point can only ever yield one tree |
| Reader.Parser.ParseNode | src/nlsql.c:453-500 | recursive descent consumes the text of one tree within the limits, or no tree within the limits starts here; the node counter is the size of the tree; where the bracket scan goes on, its calls nest at most 129 deep |
| Reader.Parser.Skip | src/nlsql.c:447-449 | white space is passed over, the tokens to come stay the same |
| Reader.Parser.ParseList | src/nlsql.c:462-484 | the bracketed branch: a list of complete children up to its bracket, or no list within the limits starts here |
| Reader.Parser.Closed | src/nlsql.c:479-484 | the closing bracket: the children read so far become one tree, or the text ends and no tree starts here |
| Reader.Parser.Children | src/nlsql.c:465-478 | the loop: every child is a complete tree; a failure rules out every tree within the limits, not just the one tried |
| Reader.Read | src/nlsql.c:953-963 | returns t exactly when the whole text denotes t and t keeps the node, child and word limits; on every text that passes the scan, accepted or not, its calls nest at most 129 deep |
| Nesting.NestingSafe | src/nlsql.c:906-918 | the loop over characters accepts exactly when the brackets of the tokens balance, nest and stay within 128 |
| Brackets.ClimbTree | src/nlsql.c:906-918 | over the text of a tree the scan's depth returns to where it was and its maximum rises by exactly the tree's height |
| Nesting.SafeIffHeight | src/nlsql.c:906-918 | on the text of a tree the scan passes exactly when the tree's list nesting is between 1 and 128 |
| Nesting.ScanBoundsRecursion | src/nlsql.c:953-963 | every walk over an accepted tree is at most 129 calls deep |
| Printer.CanonicalNode | src/nlsql.c:861-871 | appends the canonical text of a tree exactly when it fits and holds no empty list; undefined exactly when all that comes before the first empty list fits |
| Printer.Siblings | src/nlsql.c:864-868 | the loop over children, with the same three outcomes |
| Printer.LexCanon | src/nlsql.c:861-871 | canonical text followed by anything that cannot prolong a word has the tokens of the tree and then the rest |
| Printer.CanonDenotes | src/nlsql.c:861-871 | reading a tree's canonical text gives the tree back |
| Printer.CanonInjective | src/nlsql.c:861-871 | different trees have different canonical text, hence different fingerprint input |
| Printer.CanonicalIrIsStable | src/nlsql.c:1106-1109 | canonical IR is accepted as the same tree, has the original's tokens and is its own canonical text |
| Printer.SameTokensSameIr | src/nlsql.c:1569-1578 | two accepted texts have the same canonical IR exactly when they differ only in spacing |
| PyReader.ParseSexpr | bindings/python/nlsql.py:276-294 | the stack loop returns t exactly when the text denotes t |
| PyReader.StrayClose | bindings/python/nlsql.py:286-288 | a closing bracket with no list open cannot be part of any tree's text, so giving up at once is right |
| PyReader.FinishedStack | bindings/python/nlsql.py:292-294 | a stack that has consumed exactly one tree holds that tree and nothing else |
| PyReader.ReadersAgree | bindings/python/nlsql.py:276-294 | where both classify white space alike, the C reader accepts t exactly when the Python reader returns it and it keeps the limits |
| PyReader.ReadersAgreeExactly | bindings/python/nlsql.py:276-294 | on a text both readers agree exactly when every character is classed alike, or neither finds a tree that keeps the limits |
| PyReader.ReadersDisagree | bindings/python/nlsql.py:277 | a text that is one word in C and two words in Python |
| Buffer.Doubled | src/nlsql.c:208-212 | doubling ends below twice the need, without wrapping, and reaches the need exactly when that is possible |
| Buffer.Buf.Need | src/nlsql.c:203-218 | room is found exactly within the limit; contents are kept and all characters ever moved stay below the capacity |
| Buffer.Buf.Put | src/nlsql.c:220-227 | text is appended whole or not at all |
| Buffer.Buf.Ch | src/nlsql.c:229-234 | one character is appended or nothing changes |
| Decimal.DecOfNum | src/nlsql.c:897-904 | a numeral without leading zeros is the numeral of its value |
| Emit.ShapeSmaller | src/nlsql.c:568-711 | everything emit_expr recurses on lies below the node, so it terminates |
| Emit.NumberWf | src/nlsql.c:568-711 | whatever is emitted consists of identifiers within bounds, known functions and non-empty operand lists |
| Emitter.ParamTable.ParamIndex | src/nlsql.c:534-549 | a name gets its old number or the next one; a reuse with another type or origin, and a full table, change nothing |
| Emitter.EmitExpr | src/nlsql.c:568-711 | succeeds exactly when the node has a meaning and fits; text and table are then those of the numbered expression |
| Language.NumberRecovers | src/nlsql.c:568-711 | the expression written for a node gives the node back, word for word: operators, functions, DISTINCT, directions, names and types of parameters |
| Language.TreeNumbers | src/nlsql.c:568-711 | every SQL expression over columns that resolve, known functions and declared parameters is accepted as the node that says it |
| Language.TidyNumbers | src/nlsql.c:619-631 | what follows the ordering of a window, and any direction but desc, changes nothing that is written |
| Asked.WrittenMeansAsked | src/nlsql.c:568-711 | what the database reads has, on every row, the value that the node has by its own words, parameters looked up by name |
| Asked.NormIsBare | src/nlsql.c:659-668 | the text is read as the node in which and / or of one operand is that operand |
| Asked.EvalIsValue | src/nlsql.c:568-711 | the induction behind it, over SQL expressions |
| Emitter.EmitColumn | src/nlsql.c:574-585 | the search over the sources finds the first one of that alias, and its column must exist |
| Emitter.EmitParam | src/nlsql.c:588-612 | a placeholder with the parameter's number, or failure on a clash |
| Emitter.EmitWindow | src/nlsql.c:619-631 | a window in its four parts, the partition list with commas |
| Emitter.EmitBinary | src/nlsql.c:645-657 | both operands and the operator between them, in brackets |
| Emitter.EmitJunction | src/nlsql.c:659-668 | all operands of and / or with the word between them, in brackets |
| Emitter.ListNext | src/nlsql.c:660-668 | the loop over operands: a separator before all but the first, stopping at the first failure |
| Emitter.WentOn | src/nlsql.c:220-227 | two steps that each succeed exactly when they have something to write that fits make one such step |
| Emitter.ListTarget | src/nlsql.c:660-668 | a loop with separators writes what a separated list of the numbered expressions spells |
| Writer.FieldsNext | src/nlsql.c:1036-1041 | the select-list loop writes the planned fields or fails |
| Writer.FieldsTarget | src/nlsql.c:1036-1041 | what the select-list loop writes is the text of the planned fields |
| Writer.FindJoin | src/nlsql.c:1044-1051 | the first join clause with the source's alias |
| Writer.JoinsNext | src/nlsql.c:1043-1057 | the join loop with its search by alias writes the planned joins or fails |
| Writer.JoinsTarget | src/nlsql.c:1043-1057 | what the join loop writes is the text of the planned joins |
| StatementWriter.TenantsNext | src/nlsql.c:1061-1078 | the loop over sources writes the planned predicates; a failed check gives the plan's status |
| Writer.TenantsTarget | src/nlsql.c:1061-1078 | what that loop writes is the text of the planned predicates: WHERE before the first of a condition, AND before every other |
| StatementWriter.EmitTenant | src/nlsql.c:1062-1077 | one source: nothing without a rule, else the checks in order with their status, then the predicate |
| StatementWriter.CondNext | src/nlsql.c:1058-1060 | the user's condition |
| StatementWriter.GroupNext | src/nlsql.c:1079-1085 | the grouping expressions with commas |
| StatementWriter.OrderNext | src/nlsql.c:1086-1088 | the ordering expression and its direction |
| Backend.StatementTarget | src/nlsql.c:1018-1105 | clause by clause, the text written is the spelling of the planned statement |
| Backend.WriteStatement | src/nlsql.c:1018-1105 | succeeds exactly when the plan does and its text fits; buffer and table then hold the plan's text and parameters |
| Recovery.RequestRecovered | src/nlsql.c:1018-1105 | every clause of an accepted request is found again in the statement, word for word, and the statement adds nothing but the default limit and the predicates of the tenants |
| AskedRows.SelectsWhatIsAsked | src/nlsql.c:939-1131 | for every accepted request with a name for each source, every database and arguments: a row survives exactly when the request asks for it by its words and it is the tenant's own in every table with a rule |
| AskedRows.TextSelectsWhatIsAsked | src/nlsql.c:939-1131 | the same of the statement that a database finds in the text |
| AskedRows.RowsAreAsked | src/nlsql.c:1043-1057 | after n joins the rows are those that n join clauses ask for, each by its word |
| AskedRows.JoinedExactly | src/nlsql.c:1053 | a join row by row: the matching pairs, under left and full every lonely row of the left side, under right and full of the right |
| AskedRows.TenantsAsked | src/nlsql.c:1061-1078 | the injected predicates hold on a row exactly when it is the tenant's own by the first rule of each table |
| Compiler.ClausesValid | src/nlsql.c:920-937 | one pass with a set of seen heads decides: known clauses, no repetition but join, from and select present |
| Compiler.JoinAllowed | src/nlsql.c:873-895 | the nested search succeeds exactly when some earlier source and some key match, either way round |
| Compiler.JoinNodeOk | src/nlsql.c:988-999 | one join clause passes exactly when all its checks do |
| Compiler.ValidateColumns | src/nlsql.c:751-769 | true exactly when every column below the node resolves and is not denied |
| Checks.RootExactly | src/nlsql.c:963-969 | the root passes exactly as (nlsql 1 (query ...)) or with version 2, its clauses being valid |
| Checks.ClausesExactly | src/nlsql.c:920-937 | the clauses pass exactly when each has one of the seven words, none but join twice, from and select among them |
| Checks.ColumnsExactly | src/nlsql.c:751-769 | the column check passes exactly when each column written anywhere exists on the first source of its alias and is not denied |
| Checks.TypesExactly | src/nlsql.c:848-859 | the type check passes exactly when each where, join, field and window anywhere in the request does |
| Checks.FunctionTypes | src/nlsql.c:811-846 | the type of every one-operand function, by its word |
| Checks.ListTypes | src/nlsql.c:839-844 | concat is text, coalesce has the type of its first operand |
| Checks.LimitExactly | src/nlsql.c:1024-1029 | a limit clause passes exactly when it is a numeral between 1 and the policy's maximum |
| Checks.FromExactly | src/nlsql.c:963-985 | a from clause passes exactly when its one or two members are identifiers; one stands for both table and alias |
| Checks.IndexExactly | src/nlsql.c:534-549 | a parameter is refused exactly when its name is taken by another type or origin, or is new and the table is full |
| Checks.TenantExactly | src/nlsql.c:779-795 | the first rule of a table is the one in force, and passes exactly when its column is a tenant key whose type goes with the declared and the runtime type |
| Checks.NoTenant | src/nlsql.c:779-795 | no rule, nothing asked; a rule without its column, refused |
| Compiler.CollectSources | src/nlsql.c:986-1005 | the source array or the status of the first clause that fails |
| Compiler.Front | src/nlsql.c:963-1013 | all checks before the first character of SQL, with the status of the first that fails |
| Compiler.CompileIr | src/nlsql.c:939-1131 | for every text: compiles to an outcome exactly when the text is short, shallow and read as a tree whose plan succeeds and fits; is undefined exactly when such a tree holds an empty list that the printer reaches; a failure has the status of the scan, of the plan or of a text that does not fit |
| Compiler.SpacingIsIrrelevant | src/nlsql.c:939-1131 | texts that differ only in spacing compile to the same SQL, parameters and canonical IR |
| Compiler.RecompilesToItself | src/nlsql.c:1106-1111 | compiling canonical IR again, when short enough, gives everything again |
| Compiler.SqlIsIsolated | src/nlsql.c:1043-1078 | for every accepted text and dialect: a database parses the SQL, and its rows on the full database are those on the one without other tenants' rows; asked of the request: aliases of its own, no empty group-by, and for MySQL no parameter twice |
| Compiler.MeantOrNothing | src/nlsql.c:1018-1105 | the SQL of an accepted tree reads back as the statement meant, or as nothing if its group-by clause is empty |
| Compiler.EmptyGroupSlips | src/nlsql.c:1079-1085 | an accepted query whose text no database can read |
| Compiler.EmptyListSlips | src/nlsql.c:864 | a text that passes the scan, the reader and every check and leaves the printer undefined |
| Samples.QueryCompiles | src/nlsql.c:939-1131 | which small queries are accepted, with the statement and parameters they give |
| Samples.WideQuery | src/nlsql.c:534-549 | 80 distinct parameters in one accepted query, all numbered |
| CompileProps.AcceptedIsWf | src/nlsql.c:939-1131 | every accepted statement is well formed |
| CompileProps.GroupIsEmpty | src/nlsql.c:1079-1085 | the grouping list is empty exactly when the clause holds nothing but its head |
| CompileProps.SourcesAreQualified | src/nlsql.c:1042-1057 | every source of an accepted statement is written with the schema public |
| CompileProps.RowsAreLimited | src/nlsql.c:1089-1105 | exactly one row limit, where the dialect wants it: the default, or the clause's numeral between 1 and the policy's maximum |
| CompileProps.AcceptedInStep | src/nlsql.c:1036-1088 | over a whole compile the numbers written and the table stay in step with what each place asks for |
| Placeholders.NumberInStep | src/nlsql.c:588-612 | one emitted node numbers new names in order, reuses old numbers, and each number denotes the entry asked for |
| Placeholders.IndexInStep | src/nlsql.c:534-549 | one request keeps names distinct and numbers in step |
| Placeholders.KnownCovers | src/nlsql.c:534-549 | numbers read in step are exactly 1 to n |
| Binding.PlaceholderDiscipline | src/nlsql.c:534-549 | in the text as the database lexes it: placeholders are exactly 1 to n, first used in order; names distinct; each denotes the name and type of its place; the only entry not the user's is the policy's one |
| Binding.SitesOrigin | src/nlsql.c:1061-1078 | first the places of the user's select, joins and where, all for entries of the user; then one place per ruled source, for the policy's entry; then the user's group-by and order-by |
| Binding.PositionsExactly | src/nlsql.c:902 | without numbers, the k-th placeholder finds the k-th entry it asks for exactly when no two places of the query ask for the same parameter |
| Binding.MarksMatch | src/nlsql.c:534-549 | the places of an accepted query are numbered 1, 2, 3 and on exactly when none repeats |
| Binding.RepeatSlips | src/nlsql.c:902 | an accepted query with two placeholders and one entry |
| Sql.LexPieces | src/nlsql.c:236-249 | emitted pieces never run together: the database's lexer returns exactly the tokens written |
| Sql.LexIdent | src/nlsql.c:236-249 | a quoted identifier is read up to its own closing quote, whatever follows that is no quote |
| Sql.LexPlaceholder | src/nlsql.c:897-904 | a placeholder is read with all its digits and no more |
| SqlExpr.ExprUnit | src/nlsql.c:568-711 | the text of an expression is safe to put between any two separators the emitter uses |
| ReadBack.ExpressionReadsBack | src/nlsql.c:568-711 | under SQL precedence the tokens of an expression, whatever clause follows, parse as that expression with one-operand and / or dropped |
| ReadBack.Post | src/nlsql.c:568-711 | the induction behind it: every emitted expression is read as one primary, windows after it |
| Lexemes.ExprLexemes | src/nlsql.c:568-711 | the text written for an expression and the tokens the parser theorem speaks of are the same |
| StatementRead.WhereReads | src/nlsql.c:1058-1078 | the text after WHERE is the conjunction of the user's whole condition and one equality per injected predicate |
| StatementText.StmtGood | src/nlsql.c:1018-1105 | the pieces of a whole statement never run together and the statement may be put in brackets |
| StatementText.EmittedTextReadsBack | src/nlsql.c:1018-1105 | a database reads exactly the statement meant, for every statement and dialect, unless the group-by list is empty |
| StatementRead.SelectReads | src/nlsql.c:1018-1105 | the same where the statement stands before a closing bracket |
| TenantIsolation.MatchesOwn | src/nlsql.c:1043-1078 | for one left row: joining it with own tuples only gives the same own rows |
| TenantIsolation.PartOwn | src/nlsql.c:1053 | the same with the padded row of a left join that matches nothing |
| TenantIsolation.UnmatchedRuled | src/nlsql.c:1054-1056 | once a ruled source stands on the left, a row padded on the left is never an own row |
| TenantIsolation.UnmatchedOwn | src/nlsql.c:1054-1056 | rows that a right or full join pads on the left are own rows exactly for own tuples |
| TenantIsolation.JoinOwn | src/nlsql.c:1043-1057 | one join of any kind: own rows of the left side and own tuples of the right are all that matters |
| TenantIsolation.RowsOwn | src/nlsql.c:1043-1057 | the same for every chain of joins, by induction |
| TenantIsolation.TenantFilter | src/nlsql.c:1061-1078 | a condition only own rows pass selects the same rows before and after deleting other tenants' rows |
| TenantIsolation.PassingOwn | src/nlsql.c:1061-1078 | a condition that only own rows pass does not see the others |
| TenantCompile.TenantsCover | src/nlsql.c:1061-1078 | every source with a rule has an injected predicate on its own alias and column |
| TenantCompile.TenantsBound | src/nlsql.c:1073-1075 | every injected predicate compares with the policy's entry of the table |
| TenantCompile.PredicateHolds | src/nlsql.c:1072-1075 | a row on which the whole condition is true has the tenant's value in that column, so it is not padded there |
| TenantCompile.GuardsRow | src/nlsql.c:1061-1078 | only own rows pass the condition of an accepted statement |
| TenantCompile.TenantRestriction | src/nlsql.c:1043-1078 | every accepted query, database and tenant: filtering after the joins equals deleting other tenants' rows before them |
| Positional.TextIsIsolated | src/nlsql.c:1043-1078 | the same of the statement the database finds in the text, for every dialect |
| Positional.ReadAsMeant | src/nlsql.c:1018-1105 | every accepted request of every dialect is read as it was meant, MySQL's by position where no parameter repeats, and as nothing if its group-by clause is empty |
| Positional.CountedPieces | src/nlsql.c:902 | counting marks that run on from k gives back exactly the numbers that were not written |
| JoinTree.JoinsFollowKeys | src/nlsql.c:873-895 | with distinct aliases, join k of the SQL is the k-th join clause, of the kind its word says, on a declared key from an earlier source; the source array stays below 32 |
| JoinTree.KindSaid | src/nlsql.c:1053-1056 | the four words for the four kinds of join, and no others |
| JoinTree.KeyIsAllowed | src/nlsql.c:873-895 | every declared key from an earlier source may be joined on, written either way round |
| JoinTree.OwnClause | src/nlsql.c:1043-1053 | the search by alias pairs each source with the clause that introduced it |
| JoinTree.SourcesGrow | src/nlsql.c:986-1005 | every join clause was checked against exactly the sources before its own, and there are fewer than 32 |
| JoinTree.AllowedIsKey | src/nlsql.c:873-895 | an allowed join condition is written as an equality of the two ends of a declared key |
| JoinTree.SourcesReached | src/nlsql.c:986-1005 | every source is reached from the FROM source through declared keys |
| Resolution.NumberSees | src/nlsql.c:574-585 | every alias.col in an emitted expression, at any depth, is a column of the schema and not among the denied ones, in a table that exists and is allowed |
| Resolution.OnlyVisibleColumns | src/nlsql.c:751-769 | every alias.col in any clause of an accepted statement exists, is not denied, and lies in a usable table |
| Resolution.NumberExposes | src/nlsql.c:614-617 | an emitted expression names a denied column exactly when a `(ref n)` written in it does |
| Resolution.ResolvedIsVisible | src/nlsql.c:751-769 | the lookups of the code find exactly the columns that are visible by membership in schema and policy |
| Resolution.RefsDecideExposure | src/nlsql.c:614-617 | an accepted statement names a denied column exactly when some `(ref n)` of the request names one that is denied on one of its sources |
| Resolution.RefSlips | src/nlsql.c:614-617 | an accepted query that selects a denied column by its bare name |
| Typing.TypingSound | src/nlsql.c:797-846 | an expression whose parts have known types, calls and windows among them, evaluates to NULL or a value of the type expr_type reports, if only functions return what they are declared to |
| Typing.TypesAgree | src/nlsql.c:797-846 | a database, by its own table of operators and functions, gives what is written the type that expr_type reports |
| Typing.DbTypeSound | src/nlsql.c:568-711 | an SQL expression of a known type evaluates to NULL or a value of it |
| Typing.TypeOfShape | src/nlsql.c:797-846 | the type of every node that can be written, calls among them, from the types of its operands |
| TypedStatement.ConditionIsTruthValued | src/nlsql.c:848-859 | the whole condition, injected predicates included, is true, false or NULL on every well-typed row, if the user's part has truth values by its kind |
| TypedStatement.ConditionExactly | src/nlsql.c:848-859 | the condition of an accepted query is true, false or NULL on all well-typed rows and arguments exactly when the user's part has truth values by its kind |
| TypedStatement.BooleanScalarReads | src/nlsql.c:797-846 | that is, where no and / or has a single operand, exactly when expr_type knows every part and calls it boolean |
| TypedStatement.DifferenceHides | src/nlsql.c:645-657 | a condition without a kind that is always NULL: why division by a difference is left out of the exact condition |
| Kinds.KindSound | src/nlsql.c:568-711 | on well-typed rows and arguments a condition, as it is read, has values of its kind; where nothing is NULL or not positive, one without a kind has no usable value |
| Kinds.ScalarIsKind | src/nlsql.c:797-846 | a condition whose parts expr_type all knows has the kind of its type, and where no and / or has a single operand no other condition has one |
| Kinds.SamplesGiven | src/nlsql.c:568-711 | rows and arguments that hold a positive value everywhere exist for every schema and parameter table |
| TypedStatement.WhereIsBoolean | src/nlsql.c:848-859 | an accepted where clause of two members has a condition that expr_type calls boolean |
| TypedStatement.JoinIsTruthValued | src/nlsql.c:852 | so is every join condition |
| TypedStatement.UnknownComparisonSlips | src/nlsql.c:775-777 | an accepted query whose condition is called boolean and is not |
| TypedStatement.LongWhereSlips | src/nlsql.c:851 | an accepted query whose where clause has a third member and whose condition is not boolean |
| Cte.AppendColumns | src/nlsql.c:1203-1221 | the loop appends one typed column per projected field, or gives up at the first field without a type |
| Cte.ScopeIsConservative | src/nlsql.c:1162-1233 | where no column is looked up in the new table, resolving, typing and emitting are unchanged |
| Cte.SameNumber | src/nlsql.c:1162-1233 | numbering an expression is the same in both scopes |
| Cte.SameType | src/nlsql.c:1162-1233 | so is typing it |
| Cte.SameSources | src/nlsql.c:1162-1233 | join clauses accepted before are accepted again, with the same sources |
| Cte.ProjectedExactly | src/nlsql.c:1203-1221 | a column of the new table is accepted exactly when the select clause has a field of that name, with the type expr_type gives the first such expression over the from clause's source |
| Cte.ScopeGains | src/nlsql.c:1198-1230 | the new scope has one table more, admitted, and one column for each field of the select clause, in order |
| Cte.ScopeExactly | src/nlsql.c:1162-1233 | the scope of an accepted inner query is granted exactly when the name is an identifier, nothing is joined, no field is a bare name, and there is room |
| Cte.SameCompile | src/nlsql.c:1162-1233 | a query accepted without the new table compiles to the same result with it |
| Rebase.AppendRebased | src/nlsql.c:1319-1351 | the character loop appends the renumbered text, failing exactly when that does not fit |
| Rebase.ScanDigits | src/nlsql.c:1325 | the digit loop's value is the numeral's, modulo the width of unsigned long |
| Rebase.Next | src/nlsql.c:1321-1348 | one turn of the loop: a whole placeholder moved, or one character copied |
| Rebase.RebaseTwice | src/nlsql.c:1319-1351 | for any text whatever, moving by k and then m is moving by k + m, overflow included |
| Rebase.NoNewHole | src/nlsql.c:1319-1351 | the pass creates no placeholder where there was none |
| Rebase.RebasePieces | src/nlsql.c:1319-1351 | on emitted text exactly the placeholders change |
| Rebase.RebaseByZero | src/nlsql.c:1319-1351 | moving emitted text by 0 gives it back unchanged |
| Rebase.NumberedMoves | src/nlsql.c:1322-1338 | $n and @pn move by the offset |
| Rebase.SqliteMovesOnlyZero | src/nlsql.c:1339-1346 | ?n moves by the offset exactly when n is 0 |
| Link.SetKeepsBindings | src/nlsql.c:1392-1402 | read with the joined parameter list, the combined text is both branches token for token with every placeholder bound to the entry it had, exactly for $n and @pn, a right side without parameters, or one whose single parameter is the last on the left |
| Link.CteKeepsBindings | src/nlsql.c:1269-1279 | the same for WITH, under the same condition |
| Link.BindMoved | src/nlsql.c:1319-1351 | renumbered pieces mean what they meant exactly when every placeholder finds its own entry again |
| Link.RightMeaning | src/nlsql.c:1319-1351 | so it is for a compiled text under that condition on the two parameter lists |
| Link.SqliteLands | src/nlsql.c:1339-1346 | when all ?n find their entries again, in terms of the two lists |
| Link.SqliteSlips | src/nlsql.c:1339-1346 | two accepted queries whose set operation binds wrongly for SQLite |
| LinkPositions.SetKeepsPositions | src/nlsql.c:1392-1402 | for MySQL, read by position: both branches keep their bindings exactly when no parameter repeats on the left or there is none on the right |
| LinkPositions.CteKeepsPositions | src/nlsql.c:1269-1279 | the same for WITH |
| LinkPositions.LeftKept | src/nlsql.c:902 | placeholders in front keep their entries exactly when they are not more than those, or nothing follows |
| LinkPositions.OneEach | src/nlsql.c:534-549 | an accepted MySQL text has as many placeholders as entries exactly when no place repeats a parameter |
| LinkRead.SetReads | src/nlsql.c:1392 | a set operation is parsed as its two branches, the right one renumbered, or as nothing if either groups by nothing |
| LinkRead.WithReads | src/nlsql.c:1269 | the same for WITH |
| LinkRead.SetPiecesRead | src/nlsql.c:1392 | the parser finds two bracketed statements and the operator, whatever the statements |
| LinkRead.CountedLink | src/nlsql.c:1347 | counting placeholders over both sides gives the numbers that moving the right side would have written |
| Renumber.StmtRenamed | src/nlsql.c:1319-1351 | renumbering the text of a statement gives the text of the renumbered statement |
| Renumber.MeantRenamed | src/nlsql.c:1319-1351 | which is read as the renumbered query |
| Renumber.SurvivingRenamed | src/nlsql.c:1319-1351 | which selects, on every database, the rows of the original with its parameters found where they were moved to |
| Agreement.SurvivingAgrees | src/nlsql.c:1263-1402 | a query selects the same rows with any two sets of arguments that agree on the parameters it uses |
| Agreement.MeantUses | src/nlsql.c:588-612 | the conditions a statement is read to have use no parameter whose number is not in its text |
| LinkMeaning.SetSelects | src/nlsql.c:1374-1402 | with the joined arguments each branch selects the rows it selects alone with any arguments that hold the same values for its own parameters, calls, windows and references included |
| LinkMeaning.WithSelects | src/nlsql.c:1263-1279 | the same for the two queries of WITH |
| LinkMeaning.SetIsIsolated | src/nlsql.c:1374-1402 | no other tenant's rows take part in either branch of a linked set operation, as the database parses it |
| LinkMeaning.WithIsIsolated | src/nlsql.c:1263-1279 | nor in either query of WITH |
| LinkMeaning.WithNamesNoBareTable | src/nlsql.c:1042 | for no request does the outer query of WITH read a table by its bare name: each is written as "public"."table" |
| Link.RenumberingExactly | src/nlsql.c:1319-1351 | the numbers in a compiled text all rise by the offset exactly for $n and @pn or a text without parameters |
| Link.PutAll | src/nlsql.c:1392 | a chain of puts succeeds exactly when the whole fits |
| Link.CompileSet | src/nlsql.c:1374-1402 | the combined text and list, refused exactly above 128 parameters or when the text does not fit |
| Link.CompileCte | src/nlsql.c:1263-1279 | the combined text and list; refused exactly when the text does not fit, and undefined exactly when it fits and there are more than 128 parameters |
| Link.WideSlips | src/nlsql.c:1269-1279 | an accepted query with 80 parameters: two of it are over the limit that WITH does not check |
| Optimizer.OptimizeNormal | bindings/python/nlsql.py:441-500 | no rule applies anywhere in a result; what that means without the rules is NormalForm.ResultsExactly |
| NormalForm.ResultsExactly | bindings/python/nlsql.py:441-500 | a result holds no constant arithmetic, no equality of one atom, no negated constant or negation, no and / or of one operand or with a constant; and exactly such expressions are left alone |
| NormalForm.RewritesExactly | bindings/python/nlsql.py:452-498 | a list changes exactly where one of these stands at its head |
| NormalForm.DoubleNegation | bindings/python/nlsql.py:472-478 | two negations give back what they negate, or its word if it is a constant |
| NormalForm.FoldIsArithmetic | bindings/python/nlsql.py:452-464 | folding is exact arithmetic, the quotient of two integers rounded down |
| Optimizer.SecondPassIsIdentity | bindings/python/nlsql.py:441-500 | a second pass changes nothing |
| Optimizer.NeverGrows | bindings/python/nlsql.py:441-500 | the node count never grows |
| Optimizer.SkeletonKept | bindings/python/nlsql.py:441-500 | clauses of a query keep heads, order and arity, whatever else the root holds |
| Optimizer.OptimizeSound | bindings/python/nlsql.py:441-500 | the value is kept, three-valued, for every expression that has one, a folded 0 or 1 under and / or / not standing for false and true, unless an equality of NULL words is folded |
| Optimizer.ReduceSound | bindings/python/nlsql.py:480-498 | reducing the operands of and / or keeps the value, folded 0 and 1 among them |
| Optimizer.RewriteSound | bindings/python/nlsql.py:441-500 | so does every other rule, applied to optimized operands, folded 0 and 1 among them |
| Optimizer.FoldIsOptimized | bindings/python/nlsql.py:441-500 | constant arithmetic, nested at will, becomes the one number that is its value |
| Optimizer.OperandKept | bindings/python/nlsql.py:480-498 | an operand whose value is kept means in its place what it meant, also where a number stands for a truth value |
| Optimizer.NotSound | bindings/python/nlsql.py:472-478 | not of a folded 0 or 1 is the negated truth value |
| Optimizer.JunctionSound | bindings/python/nlsql.py:480-498 | a folded 0 or 1 under and / or decides or drops out as false or true would |
| Optimizer.FoldedBitIsTruth | bindings/python/nlsql.py:472-498 | an input with arithmetic under not: both it and its optimized form are false |
| Optimizer.EqualityFoldExactly | bindings/python/nlsql.py:467-470 | at an equality the value is kept exactly when the folded word is not NULL |
| Optimizer.WordEqualityExactly | bindings/python/nlsql.py:467-470 | for two words, told by the request: right unless they are one word and that is NULL |
| Optimizer.NullEqualsNullIsFolded | bindings/python/nlsql.py:467-470 | the input on which it is not kept |
| Diff.Compare | bindings/python/nlsql.py:1050-1061 | both canonical texts and whether they are equal, or nothing when a text does not parse |
| NormalForm.NegationsCancel | bindings/python/nlsql.py:1050-1061 | diff sees through two negations, unless around a folded 0 or 1 |
| NormalForm.ReducedIsKept | bindings/python/nlsql.py:1050-1061 | a tree with nothing to do is compared as it stands |
| Diff.DiffIsSound | bindings/python/nlsql.py:1050-1061 | texts that compare as identical stand for expressions of the same value |
| Diff.PrintedReadable | bindings/python/nlsql.py:502-505 | the canonical text of an optimized tree has the tree's tokens |
| Diff.SpacingIsIdentical | bindings/python/nlsql.py:1050-1061 | texts that differ only in spacing have equal canonical texts, which is the answer `identical` |
| Builder.TextDenotes | bindings/python/nlsql.py:970-983 | whatever trees the fragments stand for, the assembled text stands for the query built from those trees |
| Builder.Query.ToIr | bindings/python/nlsql.py:970-983 | the text of a builder after any calls, and that it reads as the tree of its fields |
| Builder.Query.JoinTable | bindings/python/nlsql.py:950-952 | one join more, everything else kept |
| Builder.Query.constructor | bindings/python/nlsql.py:932-940 | a fresh builder: the alias defaults to the table, the limit to 100 |
| Builder.Query.Select | bindings/python/nlsql.py:946-948 | one field more, everything else kept |
| Builder.Query.Where | bindings/python/nlsql.py:954-956 | the condition replaced, everything else kept |
| Builder.Query.GroupBy | bindings/python/nlsql.py:958-960 | the columns added, everything else kept |
| Builder.Query.OrderBy | bindings/python/nlsql.py:962-964 | the ordering replaced, everything else kept |
| Builder.Query.Limit | bindings/python/nlsql.py:966-968 | the limit replaced, everything else kept |
| RateLimiter.Bucket.LevelIsLeastAllowance | tools/server.py:52-57 | the stored level is the smallest amount that any window ending now may still spend |
| RateLimiter.Bucket.GrantedExactly | tools/server.py:56-59 | a call is let through exactly when no window ending at it is overdrawn |
| RateLimiter.Bucket.WindowBound | tools/server.py:45-59 | with a clock that never goes back, every window is granted at most the capacity plus rate times its length |
| RateLimiter.ClientsAreIsolated | tools/server.py:45-59 | other clients' calls change no decision |
| RateLimiter.ExactLaw | tools/server.py:45-59 | the decision after any interleaved run of calls, exactly |
| RateLimiter.AfterIsOwnBucket | tools/server.py:45-59 | what the dictionaries hold for a client is that client's own bucket |
| RateLimiter.TokenBucketRateLimiter.Allow | tools/server.py:45-59 | the dictionaries after a call are those of the run so far, and the answer obeys the exact law |

## Left out

- Compiler.SqlIsIsolated: requires distinct source aliases, as all isolation and join theorems do: the code looks joins up by alias, and SQL rejects repeated ones. MySQL requests that repeat a parameter are out too, since their binding by position is wrong.
- Positional.TextIsIsolated: the same.
- AskedRows.SelectsWhatIsAsked: says which rows survive, not how often or in which order; grouping, ordering and the limit are read back word for word (`Recovery.RequestRecovered`) but not evaluated. It asks for distinct aliases too.
- TypedStatement.ConditionExactly: asks that columns have declared types and that nothing is divided by a difference, because NULL may then hide what is wrong. Functions, windows and bare names count as having no kind, because their values are uninterpreted; the direction that a kind is enough has no such condition.
- The SQL reader is one generic grammar for all dialects: it takes bracketed operands of set operations, which SQLite does not, and FULL OUTER JOIN, which MySQL lacks.
- Lengths: the C code counts bytes and the model characters, so an atom outside ASCII can be over a C limit that it keeps here.
- What the set operators do with the rows of their branches, and how WITH would resolve a bare table name: the theorems are about the branches and the two queries.
- Values of aggregates, windows, function calls and references are uninterpreted; division by zero is NULL, or in the optimizer a parameter.
- Dates, times, text and binary values are compared by an uninterpreted order; numbers are exact reals, so rounding and the printing of very large or very small floats are not modelled.
- The Python reader's stack holds references to lists that are also children of the list below; the model's stack holds the lists as values and attaches each when it is closed, so aliasing is not modelled.
- C strings are sequences of characters without NUL; sizes are 64-bit.
- Allocation is assumed to succeed; freeing and pointer ownership are not modelled.
- The checkers expr_type and type_tree and the lookups find_clause, col_find and policy_tenant are functions, not loops: they read arrays and change nothing.
- buf_ident puts its quotes and characters one at a time, the model in one piece; both succeed or fail together over a statement.
- When a text does not fit and a later check would fail too, the status may be that of either; the model says so.
- `prepare_cte_scope` reads its IR again; the model starts from the tree. The sequence of calls in `nlsql_compile_cte` and the text of combined IR, manifests, diagnostics, scores and the fingerprint's hash are string formatting.
- `nlsql_compile_inferred`, the question helper, introspectors, importers, the command line, HTTP, reloading, metrics, ctypes, C++ and async wrappers are input and output around the core.
- The Python SQL emitter: it deliberately differs from the C one and has no theorem relating the two.
- The server's lock is taken to make each call one atomic step, and the clock's reading is a parameter.
