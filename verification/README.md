# Banking analytics services, modelled in Dafny

This project models the service layer of a small banking-analytics API. The
service layer reads one transaction table, loaded once from a CSV file, and
answers queries about it:

- **Loader** (`Loader`): trims the column names and turns the five currency
  columns (`amount`, `oldbalanceOrg`, `newbalanceOrig`, `oldbalanceDest`,
  `newbalanceDest`) from text such as `$1,234` into numbers. It then fills
  every missing cell with 0 and publishes the table. `get_data` returns that
  table, or an empty one before any load succeeds.
- **Row normaliser** (`Normaliser`): turns a table row into the transaction
  record the API returns.
- **Transaction queries** (`Transactions`, `Paging`): filter by type and by
  absolute amount, paginate with a ceiling page count, list the most recent
  rows, list the rows of one customer or merchant, and find a row by id.
- **Customer rollup** (`Customers`): distinct client ids with clamped
  pagination, a per-customer profile, and the top customers by row count.
- **Fraud** (`Fraud`): a summary over the fraud marker column, fraud counts per
  transaction type, and the rule-based fraud predictor.
- **Statistics** (`Stats`, `Counting`): the global overview (row count, mean
  amount, largest transaction, most common type), counts per type, the step
  histogram, and the amount-distribution stub.

### How the model represents the table

- A table is a `Frame`: a list of column names and a sequence of rows. A row is
  a map from column name to `Cell`.
- A `Cell` is one of `Int`, `Dec` (a float, held as an exact `real`), `Str`,
  `NaN` (pandas' missing value) or `Null` (Python's `None`). There is no
  boolean cell (see "## Left out").
- Every pandas call the services make is a Dafny function over sequences:
  - filter, slice, `head` and `tail`;
  - distinct-in-first-seen-order and `value_counts`;
  - `groupby().size()`, `idxmax` and `mode`.
- A Python exception is an `Outcome` value: `Raised(KeyError(column))`,
  `Raised(TypeError)` or `Raised(ValueError)`. This lets each operation's error
  paths be stated next to its results.

### Which parts are imperative

The code's form follows the source:

- `Loader.Table` is a class whose methods update the table in place, like
  `clean_currency_col` and `fillna(inplace=True)`.
- `Loader.DataStore` holds the module's global table.
- `map_row_to_transaction`, the customer list loops and `predict_fraud` update
  local state step by step, so they are methods with loops.
- Each of those methods is proved equal to a specification function. The
  properties are then proved about that function.

### Behaviour of the code worth noting

- `fillna(0)` writes 0 into every missing cell, text columns included.
- The overview's `fraud_rate` is the constant 0.0.
- The largest transaction is the row with the largest signed amount (`idxmax`),
  so a large negative amount is never chosen.
- `get_transactions` does not clamp `page` or `limit`. The model takes the HTTP
  layer's bounds as its preconditions.
- Errors are Python exceptions. The model shows them as `Raised` outcomes.
- With the arguments its router passes (amount and type only), `predict_fraud`
  gives 0.6 for an amount of 9999 of type "Online", below the 0.7 threshold, so
  the transaction is not fraud (`Fraud.LargeAmountAlone`). The API's unit test
  for that input expects fraud.

## Model

| member | source | states |
|---|---|---|
| Normaliser.Normalise | src/banking_api/services/transactions_service.py:39-81 | the record fails exactly when the amount cannot be formatted with `:.2f`: a text amount raises ValueError, a None amount TypeError |
| Normaliser.RecordHasKeys | src/banking_api/services/transactions_service.py:41-79 | the record's keys are the row's keys plus merchant_state, errors, type, nameOrig, nameDest, formatted_amount, id and date, so no input key is removed |
| Normaliser.RecordHasNoNaN | src/banking_api/services/transactions_service.py:44-46 | no field of the record is NaN: every missing value became None |
| Normaliser.RecordKeeps | src/banking_api/services/transactions_service.py:44-46 | a field that is not rewritten keeps its value, with a missing value turned into None |
| Normaliser.RecordCollapses | src/banking_api/services/transactions_service.py:48-54 | merchant_state and errors are always present, are None exactly when absent, 0, "0" or missing, and otherwise keep their value |
| Normaliser.RecordZip | src/banking_api/services/transactions_service.py:57-61 | a present zip becomes its float reading, or None when it is missing or does not parse |
| Normaliser.RecordType | src/banking_api/services/transactions_service.py:63-65 | an existing type is kept; otherwise it is `str(use_chip)`, or "Unknown Transaction" without a use_chip column |
| Normaliser.RecordNames | src/banking_api/services/transactions_service.py:67-73 | an existing nameOrig or nameDest is kept; otherwise it is "Client_" + client_id or "Merchant_" + merchant_id, with "?" when that column is absent |
| Normaliser.RecordStrings | src/banking_api/services/transactions_service.py:75-79 | formatted_amount is the amount with two decimals followed by " €"; id and date are always strings, "0" and "" when absent |
| Normaliser.FormattedAmountReadsBack | src/banking_api/services/transactions_service.py:75 | removing the " €" suffix from formatted_amount and parsing the rest gives back the amount rounded to cents |
| Normaliser.NormaliseIdempotent | src/banking_api/services/transactions_service.py:39-81 | normalising a normalised record changes nothing |
| Normaliser.StepsMeetRecord | src/banking_api/services/transactions_service.py:41-81 | the in-place steps (clear missing values, collapse sentinels, fix zip, fill names, add strings) compute exactly the declarative record |
| Normaliser.ClearMissing | src/banking_api/services/transactions_service.py:44-46 | the loop over the item turns exactly the missing values into None |
| Normaliser.CleanInPlace | src/banking_api/services/transactions_service.py:48-61 | the in-place rewrites of merchant_state, errors and zip give the cleaned item |
| Normaliser.FillNamesInPlace | src/banking_api/services/transactions_service.py:63-73 | the in-place fills of type, nameOrig and nameDest give the named item |
| Normaliser.MapRowToTransaction | src/banking_api/services/transactions_service.py:39-81 | the imperative mapping returns the declarative record, or its error |
| Normaliser.NormaliseAll | src/banking_api/services/transactions_service.py:116-119 | mapping a list succeeds iff every row does, keeps length and order, and otherwise raises the first row's error |
| Normaliser.MapOutcomes | src/banking_api/services/transactions_service.py:115-118 | a comprehension whose element may raise: succeeds iff every element does, each result in its element's place, otherwise the first element's exception |
| Paging.CeilDiv | src/banking_api/services/transactions_service.py:111 | the page count is the least q with q * limit >= total, and is 0 only for no items |
| Paging.PageSlice | src/banking_api/services/transactions_service.py:112-115 | a page holds at most `limit` items: exactly the slice s[min(lo, n) : min(lo + limit, n)] with lo = (page-1)*limit, in order |
| Paging.PagePastEnd | src/banking_api/services/transactions_service.py:112-115 | a page after the last one is empty |
| Paging.PagesPrefix | src/banking_api/services/transactions_service.py:112-115 | pages 1..k joined are the first k*limit items |
| Paging.PagesCover | src/banking_api/services/transactions_service.py:109-115 | pages 1..total_pages joined give back the whole filtered sequence |
| Transactions.GetAllTransactions | src/banking_api/services/transactions_service.py:10-18 | empty table gives []; otherwise the rows pandas `head(limit)` keeps, each normalised in order: the first min(limit, rows) for limit >= 0, all but the last -limit for a negative limit; succeeds iff each of those rows can be normalised, and otherwise raises the error of the first that cannot |
| Transactions.GetTransactionById | src/banking_api/services/transactions_service.py:21-36 | None iff the table is empty, has no id column or no row with that id; otherwise the first matching row, normalised |
| Transactions.AmountFilter | src/banking_api/services/transactions_service.py:104-107 | no bound keeps the rows; a bound keeps exactly the rows with inclusive abs(amount) within it, in order; it raises KeyError without an amount column and TypeError iff a row's amount is text or None |
| Transactions.ApplyFiltersSelects | src/banking_api/services/transactions_service.py:101-107 | the filters keep, in table order, exactly the rows whose use_chip equals the type (when given and non-empty) and whose absolute amount lies within both inclusive bounds |
| Transactions.ApplyFiltersRaises | src/banking_api/services/transactions_service.py:101-107 | filtering raises iff a type is given without a use_chip column, or a bound is given and either the amount column is missing or a row of that type has a text or None amount |
| Transactions.GetTransactions | src/banking_api/services/transactions_service.py:84-126 | empty table gives page, 0 pages, 0 items, []; filter errors propagate; otherwise total_items is the filtered count, total_pages its ceiling over limit, and the page its slice, normalised in order; the page succeeds iff each of its rows can be normalised, and otherwise raises the first failing row's error |
| Transactions.GetTransactionTypes | src/banking_api/services/transactions_service.py:129-134 | exactly the distinct non-missing use_chip values, no duplicates; [] for an empty table or no use_chip column |
| Transactions.TransactionTypesFirstSeen | src/banking_api/services/transactions_service.py:129-134 | the types come in the order of their first occurrence in the use_chip column |
| Transactions.GetRecentTransactions | src/banking_api/services/transactions_service.py:137-143 | the last min(n, rows) rows, newest first, each normalised; succeeds iff each of those rows can be normalised, and otherwise raises the error of the newest that cannot |
| Transactions.RowsWith | src/banking_api/services/transactions_service.py:149 | keeps exactly the rows whose column equals the id |
| Transactions.RowsWithKeepsOrder | src/banking_api/services/transactions_service.py:149 | selecting from a concatenation is the concatenation of the selections, so table order is kept |
| Transactions.GetTransactionsByCustomer | src/banking_api/services/transactions_service.py:146-153 | KeyError without a client_id column; otherwise the first min(50, matches) rows of that client in table order, the i-th result being the i-th match normalised; succeeds iff each of those rows can be normalised, else the first failing row's error |
| Transactions.GetTransactionsToMerchant | src/banking_api/services/transactions_service.py:156-163 | KeyError without a merchant_id column; otherwise the first min(50, matches) rows of that merchant in table order, the i-th result being the i-th match normalised; succeeds iff each of those rows can be normalised, else the first failing row's error |
| Customers.ClampPage | src/banking_api/services/customer_service.py:9 | page is at least 1 and unchanged when already valid |
| Customers.ClampLimit | src/banking_api/services/customer_service.py:10 | limit lies in 1..100 and is unchanged when already in range |
| Customers.ClientIds | src/banking_api/services/customer_service.py:22 | the distinct non-missing client ids, each once, exactly those in the column |
| Customers.ClientIdsFirstSeen | src/banking_api/services/customer_service.py:22 | the ids appear in the order of their first occurrence in the table |
| Customers.ListedName | src/banking_api/services/customer_service.py:33-37 | the nameOrig of the first row with that id when the column exists, else "Client_" + id |
| Customers.Entry | src/banking_api/services/customer_service.py:39-42 | the entry is the id as an int with its listed name; `int(cid)` failing raises its error |
| Customers.EntriesOf | src/banking_api/services/customer_service.py:30-42 | the loop appends one entry per id, in order, and succeeds iff every entry can be built; otherwise it stops at the first id whose entry raises, with that exception |
| Customers.GetAllCustomers | src/banking_api/services/customer_service.py:6-48 | clamped page; empty result without clients; otherwise total_items is the number of distinct ids and the list is the entries of their clamped page slice, in order; the first unconvertible id raises |
| Customers.Amounts | src/banking_api/services/customer_service.py:69-71 | the rows' amounts in row order, numbers kept and NaN or None skipped (the numbers of the amount column); TypeError iff some amount is text |
| Customers.Spent | src/banking_api/services/customer_service.py:69 | the sum of the negative amounts is at most 0 |
| Customers.Received | src/banking_api/services/customer_service.py:70 | the sum of the positive amounts is at least 0 |
| Customers.BalanceSplits | src/banking_api/services/customer_service.py:69-71 | before rounding, the balance is the amount received minus the amount spent |
| Customers.GetCustomerProfile | src/banking_api/services/customer_service.py:51-82 | None iff no client column or no row whose id string equals str(customer_id); when the client has rows, it raises iff the amount column is missing or one of its amounts is text; otherwise the count of matching rows, the first row's name, and spent, received and balance within rounding of their sums |
| Customers.ProfileBalances | src/banking_api/services/customer_service.py:78-80 | the reported balance is received minus spent, up to the three roundings |
| Customers.ClientCounts | src/banking_api/services/customer_service.py:93 | one count per distinct id, no id twice and every id present, each its number of rows and at least 1, in non-increasing order |
| Customers.ClientCountsSum | src/banking_api/services/customer_service.py:93 | the counts add up to the number of rows with a client id |
| Customers.ConvertedRanking | src/banking_api/services/customer_service.py:93-100 | converting the head of the ranking gives min(n, ids) entries with the same ids, counts and count order |
| Customers.ConvertRanking | src/banking_api/services/customer_service.py:95-100 | the loop converts every entry in order, or raises the first id's conversion error |
| Customers.GetTopCustomers | src/banking_api/services/customer_service.py:85-102 | [] without clients; otherwise at most n entries, each count at least 1, in non-increasing count order, each the count of that id's rows |
| Fraud.FraudMarkerCells | src/banking_api/services/fraud_detection_service.py:16 | a cell marks fraud iff it is 1, 1.0, "1", "1.0" or "True" |
| Fraud.FraudColumn | src/banking_api/services/fraud_detection_service.py:11 | isFraud is preferred over errors |
| Fraud.FraudRows | src/banking_api/services/fraud_detection_service.py:16 | exactly the rows whose marker reads as fraud |
| Fraud.GetFraudSummary | src/banking_api/services/fraud_detection_service.py:4-24 | zeros for an empty table or no marker column; otherwise total = flagged = the number of fraud rows, and the rate lies in [0, 1] within rounding of total/rows |
| Fraud.TypeColumn | src/banking_api/services/fraud_detection_service.py:31 | type is preferred over use_chip |
| Fraud.GetFraudByType | src/banking_api/services/fraud_detection_service.py:27-42 | [] when the table is empty, a column is missing or no row is fraud; otherwise one positive count per distinct type among fraud rows, in ascending type order, covering every type |
| Fraud.FraudByTypeSum | src/banking_api/services/fraud_detection_service.py:37-42 | the per-type counts add up to the fraud rows with a type |
| Fraud.FraudByTypeCoversFrauds | src/banking_api/services/fraud_detection_service.py:37-42 | when every fraud row has a type, the counts add up to the number of fraud rows |
| Fraud.Upper | src/banking_api/services/fraud_detection_service.py:58 | upper-casing keeps the length and maps each character |
| Fraud.Score | src/banking_api/services/fraud_detection_service.py:51-66 | the probability in hundredths lies in 10..99 |
| Fraud.ScoreValues | src/banking_api/services/fraud_detection_service.py:51-66 | only 10, 30, 40, 60, 80, 90 and 99 occur, none within 10 of the threshold 70 |
| Fraud.FraudRule | src/banking_api/services/fraud_detection_service.py:51-67 | fraud iff the amount exceeds 1000 and the type is risky or the account is emptied |
| Fraud.LargeAmountAlone | src/banking_api/services/fraud_detection_service.py:54-67 | a large amount alone scores 60: not fraud |
| Fraud.DefaultBalances | src/banking_api/services/fraud_detection_service.py:45-67 | with the default balances, fraud iff the amount exceeds 1000 and the type is risky |
| Fraud.PredictFraud | src/banking_api/services/fraud_detection_service.py:45-73 | probability in 0.1..0.99, isFraud iff the rule holds, and risk level "High" iff isFraud |
| Counting.ValueCounts | src/banking_api/services/stats_service.py:52 | one pair per distinct non-missing value, with its number of occurrences (at least 1), most frequent first, none missed |
| Counting.ValueCountsSum | src/banking_api/services/stats_service.py:52 | the counts add up to the number of non-missing values |
| Counting.GroupSizes | src/banking_api/services/stats_service.py:62 | one pair per distinct non-missing key with its count, none missed, keys distinct and in ascending key order (an integer and a float of equal value tie, so their relative order is not fixed) |
| Counting.GroupSizesSum | src/banking_api/services/stats_service.py:62 | the group sizes add up to the number of non-missing keys |
| Stats.Numbers | src/banking_api/services/stats_service.py:17 | the numbers of the column in column order, with repetitions, skipping missing values; TypeError iff a text cell is present |
| Stats.Mean | src/banking_api/services/stats_service.py:17 | NaN for no numbers, else their sum over their count |
| Stats.MeanBounds | src/banking_api/services/stats_service.py:17 | the mean lies between any lower and upper bound of the numbers |
| Stats.ArgMax | src/banking_api/services/stats_service.py:21 | the first position holding the largest number; none when there is no number |
| Stats.Mode | src/banking_api/services/stats_service.py:32-34 | a non-missing value of the column with the largest count, the least such under the key order; none iff every cell is missing |
| Stats.AverageAmount | src/banking_api/services/stats_service.py:17-38 | TypeError iff a text amount is present; NaN iff no number; else within 0.005 of the mean |
| Stats.AverageInRange | src/banking_api/services/stats_service.py:17-38 | the average lies within the amounts' bounds, up to rounding |
| Stats.TopOf | src/banking_api/services/stats_service.py:19-27 | the first row with the largest signed amount, with its index as id and date "N/A"; none without a number |
| Stats.CommonType | src/banking_api/services/stats_service.py:30-34 | "N/A" without a type column or a known type, else the text of the mode |
| Stats.GetGlobalStats | src/banking_api/services/stats_service.py:4-42 | the fixed record for an empty table; otherwise the row count, the rounded mean and the top transaction (0.0 and none without an amount column), fraud rate 0.0 and the mode's type |
| Stats.Labelled | src/banking_api/services/stats_service.py:53 | labelling keeps length, order and counts |
| Stats.GetTransactionsByType | src/banking_api/services/stats_service.py:45-53 | [] when empty or without type; otherwise each distinct type's text with its count, counts at least 1 and non-increasing |
| Stats.ByTypeSum | src/banking_api/services/stats_service.py:52-53 | the counts add up to the number of rows with a type |
| Stats.ByTypeCoversRows | src/banking_api/services/stats_service.py:52-53 | when every row has a type, the counts add up to the row count |
| Stats.GetDailyTransactionVolume | src/banking_api/services/stats_service.py:56-63 | [] without step; otherwise the first min(10, steps) groups in ascending step order, labelled "Step s", with their counts |
| Stats.DailyVolumeLowest | src/banking_api/services/stats_service.py:62 | every step left out of the ten is at least as large as every listed one |
| Stats.DailyVolumeAscending | src/banking_api/services/stats_service.py:62 | with integer steps the listed steps strictly increase |
| Stats.GetAmountDistribution | src/banking_api/services/stats_service.py:66-71 | bins "0-50", "50-100", "100+" with counts 10, 5, 2, of equal length |
| Loader.Strip | src/banking_api/services/data_loader.py:38 | the stripped name neither starts nor ends with whitespace |
| Loader.StripSlice | src/banking_api/services/data_loader.py:38 | the stripped name is the original with only whitespace removed at both ends |
| Loader.StripIdempotent | src/banking_api/services/data_loader.py:38 | stripping twice is stripping once |
| Loader.Header | src/banking_api/services/data_loader.py:38 | each column name is its header text, stripped |
| Loader.RowOf | src/banking_api/services/data_loader.py:37 | a record becomes a row with one cell per column of the header |
| Loader.FromRaw | src/banking_api/services/data_loader.py:37-38 | the table has the stripped header and one row per record |
| Loader.StripCurrency | src/banking_api/services/data_loader.py:15-16 | no "$" or "," remains, and every other character is kept |
| Loader.StripCurrencyKeeps | src/banking_api/services/data_loader.py:15-16 | text without "$" or "," is unchanged |
| Loader.StripCurrencyIdempotent | src/banking_api/services/data_loader.py:15-16 | removing the symbols twice is removing them once |
| Loader.StripCurrencyAppend | src/banking_api/services/data_loader.py:15-16 | symbol removal works character by character, so order is kept |
| Loader.CleanCell | src/banking_api/services/data_loader.py:14-17 | the cell becomes the number its text parses to after removing the symbols, or missing when it does not parse |
| Loader.CleanKeepsInts | src/banking_api/services/data_loader.py:14-17 | an integer survives the text round trip unchanged |
| Loader.CleanDollarAmount | src/banking_api/services/data_loader.py:14-17 | "$" followed by an integer's text cleans to that integer |
| Loader.ToNumeric | src/banking_api/services/data_loader.py:17 | each cell is cleaned, the column is all integers or all floats, and it holds only numbers and missing values |
| Loader.CleanColumn | src/banking_api/services/data_loader.py:8-17 | nothing changes when the column is absent or not text; otherwise only that column changes, to its numeric reading, with no text left |
| Loader.CleanColumnsNoText | src/banking_api/services/data_loader.py:41-50 | after cleaning, no target column present holds text |
| Loader.Zero | src/banking_api/services/data_loader.py:52 | the 0 written is a non-missing number, a float in a numeric column |
| Loader.FillMissing | src/banking_api/services/data_loader.py:52 | known cells are kept, every missing cell under the header becomes 0, and none is left missing |
| Loader.LoadedTable | src/banking_api/services/data_loader.py:36-52 | the loaded table has the stripped header, one row per record, no missing cell, and a number in every target column |
| Loader.Table.constructor | src/banking_api/services/data_loader.py:37-38 | the table holds the read records under the stripped header |
| Loader.Table.CleanCurrencyCol | src/banking_api/services/data_loader.py:8-17 | the in-place update leaves the table equal to the cleaned column's table |
| Loader.Table.FillNA | src/banking_api/services/data_loader.py:52 | the in-place fill leaves the table equal to the filled table |
| Loader.DataStore.constructor | src/banking_api/services/data_loader.py:5 | nothing is published before a load |
| Loader.DataStore.GetData | src/banking_api/services/data_loader.py:64-67 | an empty table before a successful load, the published table afterwards |
| Loader.DataStore.LoadDataset | src/banking_api/services/data_loader.py:20-61 | reports success iff a table was read; on failure the published table is unchanged; on success the cleaned and filled table is published |
| Cells.IntOf | src/banking_api/services/customer_service.py:40 | `int()` of a cell: an integer unchanged, a float truncated toward zero, a text that parses as an integer that integer and other text ValueError, NaN ValueError, None TypeError |
| Cells.IntOfIntText | src/banking_api/services/customer_service.py:40 | `int(str(n)) == n` |
| Cells.FixedText2RoundTrip | src/banking_api/services/transactions_service.py:75 | the two-decimal text of an amount parses back to the amount rounded to cents |
| Cells.NumbersIn | src/banking_api/services/stats_service.py:17 | the numbers of a column skip every non-number cell: no longer than the column, and holding exactly the values of its number cells |
| Cells.NumbersInAppend | src/banking_api/services/stats_service.py:17 | the numbers of two joined columns are the numbers of the first followed by those of the second, so column order is kept |
| Cells.Round2 | src/banking_api/services/stats_service.py:38 | rounding to 2 decimals moves a value by at most 0.005 and gives a whole number of hundredths |
| Cells.Round5 | src/banking_api/services/fraud_detection_service.py:23 | rounding to 5 decimals moves a value by at most 0.000005, keeps [0, 1] and gives a whole number of hundred-thousandths |

## Left out

- The FastAPI routers, response schemas and application start-up are not part of this model. The routers' input bounds are preconditions: `page >= 1` and `1 <= limit <= 100` for `get_transactions`, and `1 <= n <= 100` for `get_recent_transactions` and `get_top_customers`.
- `system_service.py` is not part of this model: it returns a health flag and constant metadata.
- Reading the CSV file, resolving its path from `__file__`, `Path.exists` and the `print` logging are not modelled. `LoadDataset` receives the parsed table, or `None` when the file is missing or cannot be read.
- Loader.Header: two columns whose names differ only in surrounding whitespace share one name after stripping, and the model keeps the later column's cell. `read_csv` renames only names that are duplicates in the raw header, so the source keeps both columns. When the shared name is one of the five currency columns, `df[col].dtype` then raises AttributeError and `load_dataset` returns False, whereas `LoadDataset` reports success.
- Rows are modelled cell by cell. `iterrows()` and `iloc[0]` hand a row over as one Series, which pandas upcasts to float when the table has no text column and mixes integer and float columns. Then `str(id)` gives "7.0" and a filled name reads "Client_5.0". The model's `Normaliser.ClearNA` and `Normaliser.OutValue` keep an integer cell as an integer.
- Customers.GetCustomerProfile: `customer_id` is an integer in the model. The router passes the path text unchanged (`get_customer_details(customer_id: str)` in `routers/customers.py`), so the reported id is that text, and a text such as "5.0" or "05" is outside the model.
- Loader.RowOf: a record longer than the header keeps only the header's cells; a shorter one reads as missing in the remaining columns.
- Loader.Strip: only ASCII whitespace is stripped, not the other Unicode space characters `str.strip()` removes.
- Cells.ParseNumber: the number grammar of `pd.to_numeric`, `int()` and `float()` is a simple decimal grammar. Exponents, `inf`, `nan`, surrounding whitespace and underscores are not accepted.
- Loader.ToNumeric: pandas' dtype inference is simplified. A column is text when any cell is text, and the cleaned column is integer only when every cleaned cell is an integer.
- Boolean cells are not modelled. `read_csv` gives a bool column for `True`/`False` text, or an object column of Python bools when some cells are missing; a `Cell` has no boolean variant, and a loaded record cannot carry one. Two behaviours follow. The fraud marker "True" (lines 16 and 37 of `fraud_detection_service.py`) is reached only as the text "True", which is what `astype(str)` makes of a boolean `True`. And a boolean `False` in `merchant_state` or `errors`, which the source turns into None because `False == 0` satisfies `in (0, "0")` (lines 49 and 53 of `transactions_service.py`), has no counterpart: written as the text "False" it is kept by `Normaliser.Sentinel`, and written as `Int(0)` it becomes None in those two columns, as in the source, but reads as 0 in any other column, where the source shows `false`.
- Floats are modelled as exact reals. Rounding is round-half-even on the exact value, and `str(float)` is a plain decimal text with no exponent form.
- Fraud.PredictFraud: the probability is computed in integer hundredths. Every reachable value is at least 0.1 away from the 0.7 threshold, so the float comparisons agree (`Fraud.ScoreValues`).
- Fraud.Upper: only ASCII letters are upper-cased.
- Counting.ValueCounts: among equal counts the order is first-seen. pandas' own order for ties is not a documented contract.
- Counting.GroupSizes: keys are ordered numbers first, then texts by code point, then other values. pandas may refuse to sort a column that mixes numbers and texts.
- Sequences.Distinct: values are compared by structure, so `Int(1)` and `Dec(1.0)` count as two distinct values, and `Counting.GroupSizes` lists them as two groups that tie in the key order. pandas would merge them into one group. A pandas column never mixes them after loading.
- Stats.TopOf: the index label is taken to be the row's position, as it is for a table read from CSV. For a column with no number the model returns None, where the source raises: `idxmax` has no label to return and `df.loc` fails on what it returns (lines 21-22 of `stats_service.py`). A loaded table has a number in every amount cell, so only a table the loader did not produce reaches this case.
- Stats.AverageAmount: the mean of a text column raises TypeError. pandas may instead concatenate or coerce some text columns.
- Stats.AverageAmount: states the rounded mean only to within 0.005 of the exact mean. It does not state the exact result of `round(x, 2)`.
- Customers.GetCustomerProfile: states the rounded spent, received and balance only to within 0.005 of their sums. It does not state the exact result of `round(x, 2)`.
- Fraud.GetFraudSummary: states the rate only to within 0.000005 of the exact ratio. It does not state the exact result of `round(x, 5)`.
- Stats.Mode: ties are broken by the key order above (pandas sorts the modes and takes the first). Numbers and texts are ordered as described under Counting.GroupSizes.
- Concurrency and the atomic publish of the table are not modelled: the model is single-threaded.
