/** The rows of the money tracker's three tables (Person, Debt, Transaction)
    as values. Ids are the rows' positions in their table. */
module Records {

  datatype Option<+T> = None | Some(value: T)

  /** The status column of a debt: 'active' until it is paid off or settled. */
  datatype Status = Active | Settled

  /** A person the owner lends to or borrows from. */
  datatype Person = Person(id: nat, name: string)

  /** One financial event of a debt. `kind` is the type column ('loan' or
      'payment'); `date` is an abstract timestamp, 0 standing for the
      earliest representable date. */
  datatype Transaction = Transaction(amount: real, kind: string, description: string, date: nat)

  /** All transactions with one person in one direction ('lent' or 'borrowed'). */
  datatype Debt = Debt(id: nat, personId: nat, direction: string, status: Status, transactions: seq<Transaction>)

  const Loan: string := "loan"
  const Payment: string := "payment"
  const Lent: string := "lent"
  const Borrowed: string := "borrowed"

  /** Description given to every payment transaction. */
  const PaymentDescription: string := "Payment"

  /** The sort key of a debt without transactions (datetime.min). */
  const MinDate: nat := 0

  /** A debt whose balance falls below this is settled by a payment. */
  const SettleThreshold: real := 0.01
}
