/** The record kinds of the ledger, its four tables and what keeps them well formed. */
module Records {

  datatype Option<T> = None | Some(value: T)

  /** The four record kinds (Ganho, Despesa, CartaoCredito, Donativo), one table each. */
  datatype Kind = Income | Expense | CardCharge | Donation

  /** The fixed order in which the dashboard and the statement visit the tables. */
  const KindOrder: seq<Kind> := [Income, Expense, CardCharge, Donation]

  /** Position of a kind in KindOrder. */
  function Rank(k: Kind): (r: nat)
    ensures r < |KindOrder| && KindOrder[r] == k
  {
    match k
    case Income => 0
    case Expense => 1
    case CardCharge => 2
    case Donation => 3
  }

  /** The discriminator the add and delete operations accept for each kind. */
  function FormName(k: Kind): string {
    match k
    case Income => "ganho"
    case Expense => "despesa"
    case CardCharge => "cartao"
    case Donation => "donativo"
  }

  /** The kind-specific text column of each table, which is also its form field. */
  function DetailField(k: Kind): string {
    match k
    case Income => "origem"
    case Expense => "categoria"
    case CardCharge => "parcela"
    case Donation => "instituicao"
  }

  /** The table lookup of the add and delete operations: only the four singular names are kinds. */
  function KindNamed(tipo: string): (r: Option<Kind>)
    ensures r.Some? ==> FormName(r.value) == tipo
    ensures r.None? ==> forall k: Kind :: FormName(k) != tipo
  {
    if tipo == "ganho" then Some(Income)
    else if tipo == "despesa" then Some(Expense)
    else if tipo == "cartao" then Some(CardCharge)
    else if tipo == "donativo" then Some(Donation)
    else None
  }

  /** A calendar date, as parsed from the ISO form field. */
  datatype Date = Date(year: int, month: int, day: int)

  /** a is the same day as b or a later one (chronological order is lexicographic on the triple). */
  predicate NotOlder(a: Date, b: Date) {
    a.year > b.year ||
    (a.year == b.year && (a.month > b.month || (a.month == b.month && a.day >= b.day)))
  }

  /**
   * One row of one of the four tables: its kind, the primary key, the amount
   * (in cents), the date, the kind-specific text and the soft-delete flag.
   */
  datatype Movement = Movement(kind: Kind, id: nat, amount: int, date: Date, detail: string, active: bool)

  predicate IsActive(m: Movement) { m.active }

  /** The four tables of the store, each in primary-key order. */
  datatype Tables = Tables(income: seq<Movement>, expense: seq<Movement>, card: seq<Movement>, donation: seq<Movement>)
  {
    function Table(k: Kind): seq<Movement> {
      match k
      case Income => income
      case Expense => expense
      case CardCharge => card
      case Donation => donation
    }

    /** The same tables with the table of kind k replaced by rows. */
    function WithTable(k: Kind, rows: seq<Movement>): (t: Tables)
      ensures t.Table(k) == rows
      ensures forall k' :: k' != k ==> t.Table(k') == Table(k')
    {
      match k
      case Income => this.(income := rows)
      case Expense => this.(expense := rows)
      case CardCharge => this.(card := rows)
      case Donation => this.(donation := rows)
    }
  }

  const Empty: Tables := Tables([], [], [], [])

  /**
   * The rows of the table of kind k are of that kind and numbered 1, 2, ...:
   * the integer primary key is assigned as one more than the largest, and rows
   * are never removed.
   */
  predicate TableOk(rows: seq<Movement>, k: Kind) {
    forall j :: 0 <= j < |rows| ==> rows[j].kind == k && rows[j].id == j + 1
  }

  predicate WellFormed(t: Tables) {
    TableOk(t.income, Income) && TableOk(t.expense, Expense) &&
    TableOk(t.card, CardCharge) && TableOk(t.donation, Donation)
  }

  lemma WellFormedTable(t: Tables, k: Kind)
    requires WellFormed(t)
    ensures TableOk(t.Table(k), k)
  {
  }
}
