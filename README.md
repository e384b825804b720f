# Personal finance ledger: record store, dashboard and statement

This project models the core of a small personal-finance ledger web application
(`app.py`). The application keeps four tables of movements: income (`Ganho`),
expenses (`Despesa`), credit-card charges (`CartaoCredito`) and donations (`Donativo`).
Every row has an integer primary key, an amount, a date, one kind-specific text column
(`origem`, `categoria`, `parcela`, `instituicao`) and an `ativo` (active) flag. Rows are
never removed. "Deleting" one clears its flag (a soft delete), and every view shows
active rows only.

The model has five modules:

- `Records` (`records.dfy`): the closed sum type `Kind`, the row type `Movement`, the
  four tables as one value `Tables`, and `WellFormed`. Well formed means each table
  holds rows of its own kind and the keys run 1, 2, ... in table order.
- `Ordering` (`ordering.dfy`): filtering, truncation (`LIMIT`, `[:5]`), and the stable
  newest-first sort. The sort is proved sorted, a permutation, count-preserving for any
  filter, and stable for every date.
- `RecordStore` (`store.dfy`): the record-building branch of the add form (`PlanRecord`),
  adding a movement (`Add`), the primary-key lookup (`Find`), and the soft delete
  (`SoftDelete`). Each is a function on table values. The class `Store` holds the four
  tables as fields and updates them in place (`AddMovement`, `Delete`). Its methods are
  proved equal to those functions.
- `Dashboard` (`dashboard.dfy`): the four totals and the balance (`Summary`), and the
  recent-activity feed. `RecentFeed` is the handler's loop plus sort plus `[:5]`, proved
  equal to the pure function `Recent`. Because each kind's query takes as many rows (5)
  as the feed shows, the feed is the 5 newest active rows over all four tables
  (`RecentAreNewest`), not only the newest of the candidates.
- `Statement` (`statement.dfy`): the statement view (`Extrato`), filtered by kind. Its four
  guarded extends are the method `Gather`, proved equal to the function `Blocks`.

Modelling choices:

- Amounts are integers (cents) where the source uses floats, so sums are exact.
- Dates are `(year, month, day)` triples compared lexicographically.
- The form layer's `float(...)` and `strptime` are library calls. The model takes their
  result as an input value: `Absent` (a `KeyError`), `Unparsable` (a `ValueError`) or
  `Parsed(v)`.
- A new row gets key *size of its table + 1*. This is SQLite's rule for an integer
  primary key (one more than the largest), given that rows are never removed.
- `db.session.get(model, id)` is modelled by `Find`, a scan by key.
- The per-table query `filter(ativo).order_by(data.desc())` does not fix the order of
  rows with equal dates. The model breaks those ties by ascending key, which is table
  order. `Ordering.ActiveNewestFirstTies` proves that the query keeps this order within each date.
- Python's `list.sort(key=..., reverse=True)` is stable. It is modelled by the same
  stable sort, so feed rows with equal dates keep the order of the concatenation
  (income, expense, card, donation).
- These behaviours follow `app.py` as written:
  - The statement's filter values are plural (`ganhos`, `despesas`, `cartao`,
    `donativos`, plus `todos`, the default). The add and delete operations use singular
    kind names (`ganho`, `despesa`, `cartao`, `donativo`). Any other filter value gives
    an empty statement.
  - The statement is *not* sorted across kinds. It is the selected kinds' blocks in
    fixed order, each block newest first.
  - An add form whose `tipo` names no kind commits nothing and still reports success.
    The model gives this its own outcome, `Ignored`.
  - The add form reads its fields in this order: `tipo`, `valor`, `data`, then the
    kind's own field. The first one missing or unparsable decides the rejection.
  - The source does not validate amounts. Zero and negative amounts are accepted.

## Model

| member | source | states |
|---|---|---|
| Records.KindNamed | app.py:140-145 | a name maps to a kind exactly when it is that kind's discriminator (`ganho`, `despesa`, `cartao`, `donativo`); every other name maps to none |
| Records.Rank | app.py:60 | the position of each kind in the fixed visiting order income, expense, card, donation |
| RecordStore.PlanRecord | app.py:86-101 | a record is built exactly when `tipo` is present and names a kind, `valor` and `data` parse, and the kind's own field is present; it then carries those values; an unknown `tipo` (with `valor` and `data` parsed) builds nothing; an unparsable amount or date is a value error; a missing field is rejected naming the first one absent, in the order `tipo`, `valor`, `data`, then the kind's own field |
| RecordStore.Add | app.py:86-110 | a buildable form appends exactly one active row with the next key and the given amount, date and field to that kind's table and reports its key; other tables are untouched; an unknown kind, a value error or a missing field leaves every table unchanged; well-formedness is kept |
| RecordStore.Find | app.py:150 | a found index holds a row with the requested key; not found means no row has that key |
| RecordStore.FindInTable | app.py:150-151 | in a well-formed table the key is found exactly when it lies between 1 and the table's size, at index key - 1 |
| RecordStore.SoftDelete | app.py:137-155 | the outcome is InvalidKind exactly when the name is not one of the four kinds, and the tables are then unchanged; for a valid kind the outcome is Deleted exactly when some row of that table has the key (equivalently, the key lies between 1 and the table's size), and NotFound exactly when it does not, with nothing changed; on Deleted only that row's flag is cleared, no table changes length and no other row or field changes, whether the row was active or not |
| RecordStore.SoftDeleteIdempotent | app.py:150-154 | repeating a soft delete gives the same outcome and the same tables as doing it once |
| RecordStore.Store.constructor | app.py:45-46 | a store over a new, empty database: four empty, well-formed tables |
| RecordStore.Store.Append | app.py:92 | the row is appended to its kind's table and nothing else changes |
| RecordStore.Store.ClearFlag | app.py:152 | only the flag of the given row is cleared, in place |
| RecordStore.Store.AddMovement | app.py:90-103 | the outcome and the new tables are those of `Add` on the old tables; well-formedness is kept |
| RecordStore.Store.Delete | app.py:140-155 | the outcome and the new tables are those of `SoftDelete` on the old tables; well-formedness is kept |
| Ordering.Filter | app.py:52 | the result is no longer than the input (membership and multiplicities are `FilterMembers` and `FilterMultiset`) |
| Ordering.FilterMultiset | app.py:52-55 | the filter keeps every row satisfying the condition exactly as often as it occurs in the input, and drops every other row |
| Ordering.ActiveExactly | app.py:61 | a row is among a table's active rows exactly when it is a row of the table whose flag is set |
| Ordering.Take | app.py:71 | the result is a prefix of the input of length min(n, size) |
| Ordering.InsertByDate | app.py:63 | inserting one row yields a permutation of the sequence plus that row (`InsertSorted` keeps a newest-first sequence sorted) |
| Ordering.SortByDateDesc | app.py:63 | the sort returns a permutation of its input |
| Ordering.SortSorted | app.py:63 | the sort's result is newest first |
| Ordering.SortStable | app.py:63 | for every date, the rows of that date keep their input order |
| Ordering.SortFilterCount | app.py:63 | for any condition, the sort keeps how many rows satisfy it |
| Ordering.ActiveNewestFirst | app.py:124 | a table query returns a permutation of the table's active rows |
| Ordering.ActiveNewestFirstSorted | app.py:124 | a table query's rows are newest first |
| Ordering.ActiveNewestFirstRows | app.py:124-130 | a table query's rows are active rows of that table, of its kind |
| Ordering.ActiveNewestFirstTies | app.py:61 | in a well-formed table, a query's rows of any one date are the table's active rows of that date in table order, so their keys strictly increase |
| Ordering.FilterKindOrdered | app.py:60-63 | filtering keeps the rows in kind order |
| Ordering.FilterMembers | app.py:61 | a row is in a filtered sequence exactly when it is in the input and satisfies the condition |
| Ordering.FilterConcatCount | app.py:59-61 | the number of rows of four concatenated blocks satisfying a condition is the sum over the blocks |
| Ordering.FilterMissing | app.py:61 | a filter that drops rows drops at least one row of the input that fails the condition |
| Ordering.PrefixNotNewer | app.py:71 | in a newest-first sequence, a row of a prefix is at least as new as any row left out of it |
| Ordering.SortedNewerCount | app.py:63 | in a newest-first sequence, at most i rows are strictly newer than the row at index i |
| Ordering.SwapStable | app.py:63 | moving a row past one that cannot share its date keeps the rows of every date in order |
| Ordering.FourBlocksOfKind | app.py:59-61 | filtering four one-kind blocks by a kind yields exactly that kind's block |
| Dashboard.ColumnSum | app.py:52-55 | `SUM(valor)` is NULL exactly when it runs over no rows |
| Dashboard.ColumnSumOfActive | app.py:52-55 | `SUM(valor)` over the active rows, with `or 0`, equals the sum of the amounts of the active rows |
| Dashboard.Total | app.py:52-55 | a kind's total, `SUM(valor)` over its active rows passed through `or 0` (`OrZero`), is the sum of its active rows' amounts, and 0 (never absent) when none is active |
| Dashboard.Summary | app.py:51-57 | each of the four totals is its table's active amount, and the balance is income minus expenses minus card charges minus donations |
| Dashboard.ClearFlagAmount | app.py:152 | clearing a row's flag lowers its table's active amount by that row's amount if it was active, and by nothing otherwise |
| Dashboard.AppendAmount | app.py:92 | appending an active row raises its table's active amount by the row's amount |
| Dashboard.SoftDeleteTotals | app.py:51-57 | a successful soft delete lowers its kind's total by the row's amount (if it was active) and moves the balance by the signed amount; other totals stay; any other outcome changes no total |
| Dashboard.AddTotals | app.py:51-57 | adding a movement raises its kind's total by its amount and moves the balance by the signed amount; a form that adds nothing changes no total |
| Dashboard.Latest | app.py:61 | one kind's feed query (`ORDER BY data DESC LIMIT 5`) is a prefix of the table's active rows newest first, of at most 5 rows |
| Dashboard.Candidates | app.py:59-61 | the first n kinds' feed queries, concatenated, hold at most 5·n rows in total (the bound of 5 per kind is `CandidatesOfKind` with `LatestFacts`) |
| Dashboard.Recent | app.py:63-71 | the feed holds at most 5 rows and is a prefix of the concatenated candidates sorted newest first |
| Dashboard.RecentFeed | app.py:59-71 | the feed the handler's loop, sort and slice build equals `Recent`: each kind's up-to-5 newest active rows, concatenated in kind order, stably sorted newest first, cut to 5 |
| Dashboard.CandidatesBlocks | app.py:59-61 | the concatenation holds the four per-kind query results in the order income, expense, card, donation |
| Dashboard.LatestFacts | app.py:61 | a kind's feed query returns min(5, number of active rows) rows, all active rows of that table, newest first |
| Dashboard.LatestAreNewest | app.py:61 | every active row the per-kind query leaves out is no newer than any row it returns |
| Dashboard.CandidatesFacts | app.py:59-61 | the concatenation is in kind order and holds only active rows of their own tables |
| Dashboard.CandidatesOfKind | app.py:59-61 | the rows of one kind in the concatenation are exactly that kind's query result |
| Dashboard.RecentSize | app.py:60-71 | the feed has min(5, sum over kinds of min(5, active rows of that kind)) rows, so never more than 5 |
| Dashboard.RecentRows | app.py:61 | every feed row is an active row of its kind's table |
| Dashboard.RecentSorted | app.py:63 | the feed is newest first |
| Dashboard.RecentPerKind | app.py:60-63 | no kind has more than 5 rows in the feed, nor more than it has active rows |
| Dashboard.RecentTies | app.py:63 | feed rows with the same date appear in kind order income, expense, card, donation |
| Dashboard.RecentAreNewest | app.py:59-71 | every active row of any table that the feed leaves out is no newer than any row of the feed: the feed is a true top 5 of all active rows, not only of the candidates |
| Dashboard.CutCandidateNotNewer | app.py:63-71 | a candidate that the final sort and `[:5]` cut off is no newer than any feed row |
| Dashboard.FewNewerCandidates | app.py:63-71 | fewer than 5 candidates are strictly newer than any feed row |
| Dashboard.LeftOutNotNewer | app.py:59-71 | an active row that its kind's `LIMIT 5` query already dropped is no newer than any feed row |
| Dashboard.FewNewerInBlock | app.py:61 | if some rows of a block are not newer than x and every row of the block is at least as new as y, then x is at least as new as y |
| Dashboard.LatestFull | app.py:61 | a kind's query that leaves out one of its active rows returns the full 5 rows |
| Dashboard.KindNewerCount | app.py:59-61 | for any condition, the candidates hold at least as many rows satisfying it as one kind's query result |
| Dashboard.SoftDeleteLeavesFeed | app.py:152 | after a successful soft delete the row with that kind and key is not in the feed |
| Statement.FilterName | app.py:123-129 | no kind's filter name is `todos` |
| Statement.SelectsMeaning | app.py:123-129 | `todos` selects every kind; a kind's filter name (`ganhos`, `despesas`, `cartao`, `donativos`) selects that kind and no other; any other value selects no kind |
| Statement.FilterNamesDiffer | app.py:123-129 | the statement's filter name equals the add and delete discriminator only for card charges, so the singular names `ganho`, `despesa` and `donativo` select nothing |
| Statement.Extrato | app.py:117-130 | under the filter in force (`FilterOf`: the `tipo` parameter, `todos` when it is absent), every row shown is an active row of its table whose kind the filter selects; for each kind, the rows shown are exactly that kind's active rows (as a multiset) when selected, and none otherwise; each kind's rows are newest first; kinds appear in fixed order; there is no limit and no sort across kinds |
| Statement.BlockFacts | app.py:124 | a selected kind's block holds its table's active rows, of that kind, newest first |
| Statement.StatementRows | app.py:123-130 | every row of the statement is active, from its own table, and of a selected kind |
| Statement.StatementOrdered | app.py:123-130 | the statement's blocks follow the order income, expense, card, donation |
| Statement.StatementOfKind | app.py:123-130 | the statement's rows of one kind are that kind's block: all its active rows when selected, none otherwise, newest first |
| Statement.Gather | app.py:121-130 | the four guarded extends build exactly the selected kinds' blocks, in the order income, expense, card, donation (`Blocks`, whose properties are the lemmas below) |
| Statement.StatementFacts | app.py:123-130 | the contract of `Extrato`, for the concatenation of the four blocks |

## Left out

- Ordering.Filter: its own contract states only that the result is no longer than the input. Membership in both directions is the lemma `Ordering.FilterMembers`, and multiplicities are `Ordering.FilterMultiset`; proofs that need them call these lemmas. A quantified ensures on the function itself would follow every use of `Filter` and makes the proofs of stability (`SwapStable`, `InsertStable`) too expensive for the solver.
- Dashboard.Candidates: its own contract bounds only the total length, by 5 per kind visited. That each kind contributes at most 5 rows, and exactly its query's rows, is `Dashboard.CandidatesOfKind` with `Dashboard.LatestFacts`.
- Flask routing, templates, flash messages, redirects, JSON bodies and HTTP status codes. The outcomes are modelled as the enums `AddOutcome` and `DeleteOutcome`.
- The SQLAlchemy/SQLite session, `db.create_all`, `commit` and `rollback`. Each store operation is one atomic update of the tables.
- The catch-all `except Exception` handlers: the rollbacks on storage errors, and the dashboard's and statement's fallbacks to zeros and empty lists. Storage failures are not modelled.
- Floating-point amounts: amounts are exact integers (cents), so float rounding in sums and in the balance is not captured.
- Parsing of `valor` (`float`) and `data` (`strptime`): the model takes the parse result as input. The calendar validity of a date is not modelled.
- The declared column lengths (`String(50)` and so on), which SQLite does not enforce.
- Record identity: rows are values, not ORM objects. An update in place is modelled by replacing the row in its table's sequence, so aliasing of row objects is not captured.
- Tie order between rows of one kind with equal dates, which the database leaves open. The model fixes it as ascending key.
- The GET branch of the add page (rendering the empty form) and server startup.
- A category registry and monthly or annual reports: `app.py` contains neither.

