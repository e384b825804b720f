/**
 * The statement (extrato): every active row of the kinds the filter
 * selects, each kind's rows newest first, the kinds in KindOrder, with no
 * limit and no sort across kinds.
 */
module Statement {
  import opened Records
  import opened Ordering

  /** The filter value that selects one kind: plural names, unlike the add and delete discriminators. */
  function FilterName(k: Kind): (r: string)
    ensures r != "todos"
  {
    match k
    case Income => "ganhos"
    case Expense => "despesas"
    case CardCharge => "cartao"
    case Donation => "donativos"
  }

  /** The filter in force: the query parameter, or "todos" when it is absent. */
  function FilterOf(tipo: Option<string>): string {
    match tipo
    case None => "todos"
    case Some(f) => f
  }

  /** "todos" selects every kind; a kind's filter name selects that kind; anything else selects none. */
  predicate Selects(filter: string, k: Kind) {
    filter == "todos" || filter == FilterName(k)
  }

  /**
   * What a filter selects: "todos" every kind, a kind's filter name that kind
   * alone, and any other value (the singular discriminators among them,
   * except "cartao") no kind at all.
   */
  lemma SelectsMeaning(filter: string)
    ensures filter == "todos" ==> forall k :: Selects(filter, k)
    ensures forall j, k :: filter == FilterName(j) ==> (Selects(filter, k) <==> k == j)
    ensures (filter != "todos" && forall j :: filter != FilterName(j)) ==> forall k :: !Selects(filter, k)
  {
  }

  /** Only the card kind has the same name in the statement filter as in the add and delete operations. */
  lemma FilterNamesDiffer(k: Kind)
    ensures FilterName(k) == FormName(k) <==> k == CardCharge
    ensures !Selects(FormName(k), k) <==> k != CardCharge
  {
  }

  /** The statement handler, without its rendering. */
  method Extrato(t: Tables, tipo: Option<string>) returns (movs: seq<Movement>)
    requires WellFormed(t)
    ensures forall m :: m in movs ==> m.active && m in t.Table(m.kind) && Selects(FilterOf(tipo), m.kind)
    ensures forall k :: multiset(Filter(movs, OfKind(k))) == Chosen(t, FilterOf(tipo), k)
    ensures forall k :: SortedDesc(Filter(movs, OfKind(k)))
    ensures KindOrdered(movs)
  {
    var filter := FilterOf(tipo);
    movs := Gather(t, filter);
    StatementFacts(t, filter, movs);
  }

  /** The four guarded extends of the handler: each selected kind's active rows, newest first, in KindOrder. */
  method Gather(t: Tables, filter: string) returns (movs: seq<Movement>)
    ensures movs == Blocks(t, filter)
  {
    movs := [];
    if Selects(filter, Income) {
      movs := movs + ActiveNewestFirst(t.income);
    }
    assert movs == Block(t, filter, Income);
    if Selects(filter, Expense) {
      movs := movs + ActiveNewestFirst(t.expense);
    }
    assert movs == Block(t, filter, Income) + Block(t, filter, Expense);
    if Selects(filter, CardCharge) {
      movs := movs + ActiveNewestFirst(t.card);
    }
    assert movs == Block(t, filter, Income) + Block(t, filter, Expense) + Block(t, filter, CardCharge);
    if Selects(filter, Donation) {
      movs := movs + ActiveNewestFirst(t.donation);
    }
  }

  /** What the statement must hold of kind k: all its active rows if the filter selects it, else none. */
  function Chosen(t: Tables, filter: string, k: Kind): multiset<Movement> {
    if Selects(filter, k) then multiset(Active(t.Table(k))) else multiset{}
  }

  /** The rows the statement shows for kind k. */
  function Block(t: Tables, filter: string, k: Kind): seq<Movement> {
    if Selects(filter, k) then ActiveNewestFirst(t.Table(k)) else []
  }

  /** The four blocks in KindOrder. */
  function Blocks(t: Tables, filter: string): seq<Movement> {
    Block(t, filter, Income) + Block(t, filter, Expense) + Block(t, filter, CardCharge) + Block(t, filter, Donation)
  }

  lemma BlockFacts(t: Tables, filter: string, k: Kind)
    requires WellFormed(t)
    ensures forall m :: m in Block(t, filter, k) ==> m.active && m in t.Table(k) && m.kind == k && Selects(filter, k)
    ensures AllOfKind(Block(t, filter, k), k)
    ensures SortedDesc(Block(t, filter, k))
    ensures multiset(Block(t, filter, k)) == Chosen(t, filter, k)
  {
    WellFormedTable(t, k);
    ActiveNewestFirstRows(t.Table(k), k);
    ActiveNewestFirstSorted(t.Table(k));
  }

  lemma StatementRows(t: Tables, filter: string)
    requires WellFormed(t)
    ensures forall m :: m in Blocks(t, filter) ==> m.active && m in t.Table(m.kind) && Selects(filter, m.kind)
  {
    BlockFacts(t, filter, Income);
    BlockFacts(t, filter, Expense);
    BlockFacts(t, filter, CardCharge);
    BlockFacts(t, filter, Donation);
  }

  lemma StatementOrdered(t: Tables, filter: string)
    requires WellFormed(t)
    ensures KindOrdered(Blocks(t, filter))
  {
    BlockFacts(t, filter, Income);
    BlockFacts(t, filter, Expense);
    BlockFacts(t, filter, CardCharge);
    BlockFacts(t, filter, Donation);
    FourBlocksOrdered(Block(t, filter, Income), Block(t, filter, Expense), Block(t, filter, CardCharge), Block(t, filter, Donation));
  }

  lemma StatementOfKind(t: Tables, filter: string, k: Kind)
    requires WellFormed(t)
    ensures Filter(Blocks(t, filter), OfKind(k)) == Block(t, filter, k)
    ensures multiset(Filter(Blocks(t, filter), OfKind(k))) == Chosen(t, filter, k)
    ensures SortedDesc(Filter(Blocks(t, filter), OfKind(k)))
  {
    BlockFacts(t, filter, Income);
    BlockFacts(t, filter, Expense);
    BlockFacts(t, filter, CardCharge);
    BlockFacts(t, filter, Donation);
    BlockFacts(t, filter, k);
    FourBlocksOfKind(Block(t, filter, Income), Block(t, filter, Expense), Block(t, filter, CardCharge), Block(t, filter, Donation), k);
  }

  lemma StatementFacts(t: Tables, filter: string, movs: seq<Movement>)
    requires WellFormed(t)
    requires movs == Blocks(t, filter)
    ensures forall m :: m in movs ==> m.active && m in t.Table(m.kind) && Selects(filter, m.kind)
    ensures forall k :: multiset(Filter(movs, OfKind(k))) == Chosen(t, filter, k)
    ensures forall k :: SortedDesc(Filter(movs, OfKind(k)))
    ensures KindOrdered(movs)
  {
    StatementRows(t, filter);
    StatementOrdered(t, filter);
    forall k ensures multiset(Filter(Blocks(t, filter), OfKind(k))) == Chosen(t, filter, k) && SortedDesc(Filter(Blocks(t, filter), OfKind(k))) {
      StatementOfKind(t, filter, k);
    }
  }
}
