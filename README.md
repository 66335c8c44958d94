# Money tracker ledger, modelled in Dafny

The money tracker keeps track of money lent to and borrowed from people. It
has three tables. A **person** has a unique name. A **debt** links one
person to one direction (`'lent'` or `'borrowed'`) and has a status
(`'active'` or `'settled'`). A **transaction** belongs to one debt and has an
amount, a type (`'loan'` or `'payment'`), a description and a date. The web
routes add people, add loans, record payments and settle debts. The index
page lists the active debts, newest first, with two totals.

This project models the bookkeeping rules of `app.py`:

- `records.dfy` (module `Records`): the rows as datatypes. Ids are the rows'
  positions in their table. Amounts are exact `real`s. Dates are `nat`s,
  and 0 stands for the earliest date.
- `balances.dfy` (module `Balances`): `Balance`, the reference definition
  (sum of the loans minus sum of the payments). `ComputeBalance` is the
  accumulator loop of the `balance` property, proved equal to it.
- `dashboard.dfy` (module `Dashboard`): the index page. It holds the two
  totals, the newest-first ordering of the active debts, and the by-name
  ordering of the people. Each is proved against an independent statement:
  `Outstanding` for the totals, sortedness plus permutation for the orderings.
- `ledger.dfy` (module `Bookkeeping`): class `Ledger` holds the people and
  debt tables as sequences. Each route is one method. `Valid()` is the
  ledger's invariant, and every route keeps it when requests run one at a
  time. Ids match positions. Names
  are non-empty and unique. There is at most one active debt per (person,
  direction). Loans are non-zero and payments positive. Across every route,
  a settled debt stays settled.

The model follows the code as written. `add_transaction` accepts a negative
amount (only zero is rejected) and records it as a loan. It does not check
that the person exists. `make_payment` does not check the debt's status, so
a payment on a settled debt is recorded as well.

## Model

| member | source | states |
|---|---|---|
| `Balances.SumOfKindConcat` | app.py:33-40 | The per-type sum over two runs of transactions is the sum of the two per-type sums |
| `Balances.BalanceConcat` | app.py:33-40 | The balance of two runs of transactions is the sum of their balances |
| `Balances.BalanceAppend` | app.py:35-39 | One more transaction moves the balance by +amount for a loan, -amount for a payment, 0 for any other type |
| `Balances.BalanceIgnoresOtherKinds` | app.py:36-39 | A transaction of a type other than 'loan' or 'payment' leaves the balance unchanged, wherever it stands |
| `Balances.ComputeBalance` | app.py:32-40 | The accumulator loop returns exactly the sum of the loan amounts minus the sum of the payment amounts |
| `Dashboard.ActiveDebts` | app.py:57 | The result holds exactly the debts whose status is active, with no more copies than the table has |
| `Dashboard.OutstandingIsSumOverActive` | app.py:57-61 | Summing the 'lent' (or 'borrowed') balances over the active list equals the total of the active debts in that direction over the whole table |
| `Dashboard.OutstandingAppend` | app.py:60-61 | A new debt adds its balance to its direction's total if it is active, and nothing otherwise |
| `Dashboard.OutstandingUpdate` | app.py:60-61 | Replacing one debt replaces its contribution in every direction's total |
| `Dashboard.LatestDate` | app.py:64 | For a non-empty transaction list, the result is at least every transaction's date and equal to some transaction's date |
| `Dashboard.InsertByLatest` | app.py:64 | Inserting a debt into a newest-first list keeps it newest first and adds exactly that debt |
| `Dashboard.SortByLatest` | app.py:64 | The result is a permutation of the input, ordered by latest transaction date, descending, with debts without transactions keyed at the earliest date |
| `Dashboard.NameLeTotal` | app.py:58 | Any two names are comparable in the string order |
| `Dashboard.NameLeTransitive` | app.py:58 | The string order on names is transitive |
| `Dashboard.InsertByName` | app.py:58 | Inserting a person into a list ordered by name keeps it ordered and adds exactly that person |
| `Dashboard.SortByName` | app.py:58 | The people list is a permutation of the table, ordered by name |
| `Dashboard.Index` | app.py:55-70 | The listed debts are exactly the active ones, newest first. The people are all of them, by name. The totals are the balances of the active 'lent' debts and of the active 'borrowed' debts |
| `Bookkeeping.FindActive` | app.py:92 | Returns the first active debt with the given person and direction; None only when there is none |
| `Bookkeeping.PaymentAmount` | app.py:119-121 | The recorded payment is the requested amount capped at the balance: at most each, and equal to one of them |
| `Bookkeeping.PaymentKeepsBalanceNonNegative` | app.py:119-132 | A recorded (positive) payment lowers the balance by exactly its amount and leaves it non-negative |
| `Bookkeeping.Ledger.constructor` | app.py:148-150 | The freshly created database is empty and satisfies the ledger invariant |
| `Bookkeeping.Ledger.AddPerson` | app.py:72-78 | Adds exactly one person, with the next id, iff the name is non-empty and not taken. Otherwise nothing changes. Names stay unique |
| `Bookkeeping.Ledger.AddTransaction` | app.py:81-111 | Nothing changes iff person, amount, direction or description is missing or falsy (zero amount included). Otherwise it reuses the active debt for (person, direction), creating one only if none exists, and afterwards that debt is the only active one for the pair. It appends exactly one 'loan' transaction to that debt. The debt's balance and its direction's total rise by the amount. Other debts and other directions' totals are untouched |
| `Bookkeeping.Ledger.MakePayment` | app.py:114-139 | Not found iff there is no such debt. Otherwise it appends a 'payment' only when the capped amount is positive, never above the balance. A non-negative balance stays non-negative. The debt becomes settled iff its new balance is below 0.01, and otherwise keeps its status. Other debts are untouched |
| `Bookkeeping.Ledger.SettleDebt` | app.py:141-146 | Not found iff there is no such debt. Otherwise it sets the status to settled and keeps the transactions. Each direction's total drops by that debt's former share |

## Left out

- Flask routing, form parsing, redirects and template rendering are not modelled. The route inputs are method parameters, a missing or empty form field is `""` or `None`, and `get_or_404`'s 404 is the `found == false` result.
- The exception that `float(...)` raises on a missing or non-numeric amount is not modelled. Amounts arrive as numbers.
- Floating-point arithmetic is not modelled. Amounts are exact reals, and the 0.01 settle threshold is an exact comparison.
- SQLAlchemy sessions, commits, auto-increment ids, foreign keys and cascade deletes are not modelled. Ids are table positions. The intermediate commit in `add_transaction` is not modelled separately, since every route runs as one step.
- Concurrent requests are not modelled: each route runs as one serial, atomic step. The source serves requests on threads (`app.run`), and two of its routes check, then act. Two concurrent `add_transaction` requests for a new (person, direction) can each create an active debt, which breaks the one-active-debt-per-pair invariant. Two concurrent `make_payment` requests can each be capped at the same balance and together overpay. The invariants and the payment cap proved here hold only for serial requests.
- `person_id` is an optional number. The source does not check that the person exists, and neither does the model. Non-numeric `person_id` strings are not modelled.
- `datetime.utcnow` is not modelled. The transaction date is a parameter supplied by the caller.
- The query `.first()` has no ORDER BY, so the source does not fix which match it returns. The model takes the lowest id. Under the ledger invariant, with serial requests, there is at most one match anyway.
- Dashboard.SortByLatest: the statement covers sortedness and permutation but not stability. Debts with equal keys keep their table order, as Python's stable sort with `reverse=True` does. This holds by construction but is not stated as a lemma.
- money traker/app.py (the multi-user variant with logins and password hashing) is not part of this model.
