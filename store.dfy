/**
 * The record store: building a record from the submitted form, appending it
 * to its table, and the soft delete by (kind, id). Each operation is given
 * as a function on table values, which the lemmas talk about, and as a
 * method of Store, which updates the tables in place.
 */
module RecordStore {
  import opened Records

  // ---- creating a movement ----

  /** A submitted value the form layer has already tried to parse. */
  datatype Input<T> = Absent | Unparsable | Parsed(value: T)

  /**
   * The submitted form: the kind discriminator, the amount and date as
   * parsed by the form layer, and the remaining text fields by name.
   */
  datatype Form = Form(tipo: Option<string>, valor: Input<int>, data: Input<Date>, fields: map<string, string>)

  /** The two rejections of the add operation: a ValueError and a KeyError. */
  datatype FormError = InvalidValue | MissingField(name: string)

  /** What the record-building branch decides. */
  datatype Plan = Insert(kind: Kind, amount: int, date: Date, detail: string) | Ignore | Reject(error: FormError)

  /**
   * The record-building branch: the fields are read in the order the form
   * handler reads them (tipo, valor, data, then the kind's own field); the
   * first one missing or unparsable rejects the form, and an unknown tipo
   * reads no further field and builds nothing.
   */
  function PlanRecord(f: Form): (p: Plan)
    ensures p.Insert? <==>
      f.tipo.Some? && KindNamed(f.tipo.value).Some? && f.valor.Parsed? && f.data.Parsed? &&
      DetailField(KindNamed(f.tipo.value).value) in f.fields
    ensures p.Insert? ==>
      FormName(p.kind) == f.tipo.value && p.amount == f.valor.value && p.date == f.data.value &&
      DetailField(p.kind) in f.fields && p.detail == f.fields[DetailField(p.kind)]
    ensures p.Ignore? <==>
      f.tipo.Some? && f.valor.Parsed? && f.data.Parsed? && forall k: Kind :: FormName(k) != f.tipo.value
    ensures p == Reject(InvalidValue) <==>
      f.tipo.Some? && (f.valor.Unparsable? || (f.valor.Parsed? && f.data.Unparsable?))
    ensures p == Reject(MissingField("tipo")) <==> f.tipo.None?
    ensures p == Reject(MissingField("valor")) <==> f.tipo.Some? && f.valor.Absent?
    ensures p == Reject(MissingField("data")) <==> f.tipo.Some? && f.valor.Parsed? && f.data.Absent?
    ensures (f.tipo.Some? && KindNamed(f.tipo.value).Some? && f.valor.Parsed? && f.data.Parsed? &&
             DetailField(KindNamed(f.tipo.value).value) !in f.fields) ==>
      p == Reject(MissingField(DetailField(KindNamed(f.tipo.value).value)))
  {
    if f.tipo.None? then Reject(MissingField("tipo"))
    else if f.valor.Absent? then Reject(MissingField("valor"))
    else if f.valor.Unparsable? then Reject(InvalidValue)
    else if f.data.Absent? then Reject(MissingField("data"))
    else if f.data.Unparsable? then Reject(InvalidValue)
    else
      match KindNamed(f.tipo.value)
      case None => Ignore
      case Some(k) =>
        if DetailField(k) in f.fields then Insert(k, f.valor.value, f.data.value, f.fields[DetailField(k)])
        else Reject(MissingField(DetailField(k)))
  }

  /** Added with the new primary key; Ignored when tipo names no kind; Rejected on a form error. */
  datatype AddOutcome = Added(kind: Kind, id: nat) | Ignored | Rejected(error: FormError)

  datatype AddResult = AddResult(outcome: AddOutcome, tables: Tables)

  /**
   * Adding a movement: on a recognised kind with every field readable, one
   * new active row with the next primary key is appended to that kind's
   * table; in every other case nothing changes.
   */
  function Add(t: Tables, f: Form): (r: AddResult)
    requires WellFormed(t)
    ensures WellFormed(r.tables)
    ensures r.outcome.Added? <==> PlanRecord(f).Insert?
    ensures match PlanRecord(f)
      case Insert(k, a, d, s) =>
        && r.outcome == Added(k, |t.Table(k)| + 1)
        && r.tables.Table(k) == t.Table(k) + [Movement(k, |t.Table(k)| + 1, a, d, s, true)]
        && forall k' :: k' != k ==> r.tables.Table(k') == t.Table(k')
      case Ignore => r == AddResult(Ignored, t)
      case Reject(e) => r == AddResult(Rejected(e), t)
  {
    match PlanRecord(f)
    case Insert(k, a, d, s) =>
      var row := Movement(k, |t.Table(k)| + 1, a, d, s, true);
      var t' := t.WithTable(k, t.Table(k) + [row]);
      assert TableOk(t'.Table(k), k);
      AddResult(Added(k, row.id), t')
    case Ignore => AddResult(Ignored, t)
    case Reject(e) => AddResult(Rejected(e), t)
  }

  // ---- soft delete ----

  /** Finds the row with primary key id (a lookup by primary key). */
  function Find(rows: seq<Movement>, id: int): (r: Option<nat>)
    ensures r.Some? ==> r.value < |rows| && rows[r.value].id == id
    ensures r.None? ==> forall j :: 0 <= j < |rows| ==> rows[j].id != id
  {
    if rows == [] then None
    else if rows[0].id == id then Some(0)
    else
      match Find(rows[1..], id)
      case None => None
      case Some(j) => Some(j + 1)
  }

  /** In a well-formed table the key id is found exactly when it is between 1 and the table's size. */
  lemma FindInTable(rows: seq<Movement>, k: Kind, id: int)
    requires TableOk(rows, k)
    ensures Find(rows, id) == if 1 <= id <= |rows| then Some(id - 1) else None
  {
    if 1 <= id <= |rows| {
      assert rows[id - 1].id == id;
    }
  }

  datatype DeleteOutcome = Deleted | NotFound | InvalidKind

  datatype DeleteResult = DeleteResult(outcome: DeleteOutcome, tables: Tables)

  /**
   * after is before with the active flag of the row with key id in table k
   * cleared: no table changes length, and every other row and every other
   * field stay as they were.
   */
  predicate OnlyFlagCleared(before: Tables, after: Tables, k: Kind, id: int) {
    forall k' ::
      && |after.Table(k')| == |before.Table(k')|
      && forall j :: 0 <= j < |before.Table(k')| ==>
        after.Table(k')[j] ==
          if k' == k && before.Table(k')[j].id == id then before.Table(k')[j].(active := false)
          else before.Table(k')[j]
  }

  /**
   * The soft delete: an unknown kind is refused before any lookup; a key
   * that is not in the kind's table is not found; otherwise the row's
   * active flag is cleared, whether or not it was already clear, and the
   * row stays in its table.
   */
  function SoftDelete(t: Tables, tipo: string, id: nat): (r: DeleteResult)
    requires WellFormed(t)
    ensures WellFormed(r.tables)
    ensures KindNamed(tipo).None? ==> r == DeleteResult(InvalidKind, t)
    ensures KindNamed(tipo).Some? ==>
      (r.outcome == Deleted <==> exists j :: 0 <= j < |t.Table(KindNamed(tipo).value)| && t.Table(KindNamed(tipo).value)[j].id == id)
    ensures KindNamed(tipo).Some? ==>
      (r.outcome == Deleted <==> 1 <= id <= |t.Table(KindNamed(tipo).value)|)
    ensures r.outcome == InvalidKind <==> KindNamed(tipo).None?
    ensures r.outcome == NotFound <==> KindNamed(tipo).Some? && !(1 <= id <= |t.Table(KindNamed(tipo).value)|)
    ensures r.outcome != Deleted ==> r.tables == t
    ensures r.outcome == Deleted ==> OnlyFlagCleared(t, r.tables, KindNamed(tipo).value, id)
  {
    match KindNamed(tipo)
    case None => DeleteResult(InvalidKind, t)
    case Some(k) =>
      var rows := t.Table(k);
      FindInTable(rows, k, id);
      match Find(rows, id)
      case None => DeleteResult(NotFound, t)
      case Some(i) =>
        var t' := t.WithTable(k, rows[i := rows[i].(active := false)]);
        assert TableOk(t'.Table(k), k);
        DeleteResult(Deleted, t')
  }

  /** Deleting the same (kind, id) a second time reports the same outcome and changes nothing more. */
  lemma SoftDeleteIdempotent(t: Tables, tipo: string, id: nat)
    requires WellFormed(t)
    ensures SoftDelete(SoftDelete(t, tipo, id).tables, tipo, id) == SoftDelete(t, tipo, id)
  {
    var r := SoftDelete(t, tipo, id);
    if r.outcome == Deleted {
      var k := KindNamed(tipo).value;
      var rows, rows' := t.Table(k), r.tables.Table(k);
      FindInTable(rows, k, id);
      FindInTable(rows', k, id);
      var i := id - 1;
      assert rows' == rows[i := rows[i].(active := false)];
      assert rows'[i := rows'[i].(active := false)] == rows';
    }
  }

  // ---- the store ----

  /** The four tables, updated in place by the add and delete operations. */
  class Store {
    var income: seq<Movement>
    var expense: seq<Movement>
    var card: seq<Movement>
    var donation: seq<Movement>

    function State(): Tables
      reads this
    {
      Tables(income, expense, card, donation)
    }

    ghost predicate Valid()
      reads this
    {
      WellFormed(State())
    }

    /** A freshly created database: four empty tables. */
    constructor ()
      ensures Valid() && State() == Empty
    {
      income, expense, card, donation := [], [], [], [];
    }

    /** Appends row to the table of its kind. */
    method Append(row: Movement)
      modifies this
      ensures State() == old(State()).WithTable(row.kind, old(State()).Table(row.kind) + [row])
    {
      match row.kind
      case Income => income := income + [row];
      case Expense => expense := expense + [row];
      case CardCharge => card := card + [row];
      case Donation => donation := donation + [row];
    }

    /** Clears the active flag of row i of the table of kind k, in place. */
    method ClearFlag(k: Kind, i: nat)
      requires i < |State().Table(k)|
      modifies this
      ensures var rows := old(State()).Table(k); State() == old(State()).WithTable(k, rows[i := rows[i].(active := false)])
    {
      match k
      case Income => income := income[i := income[i].(active := false)];
      case Expense => expense := expense[i := expense[i].(active := false)];
      case CardCharge => card := card[i := card[i].(active := false)];
      case Donation => donation := donation[i := donation[i].(active := false)];
    }

    /** The add-movement form handler, without its redirect and messages. */
    method AddMovement(f: Form) returns (o: AddOutcome)
      requires Valid()
      modifies this
      ensures Valid()
      ensures AddResult(o, State()) == Add(old(State()), f)
    {
      match PlanRecord(f)
      case Insert(k, a, d, s) =>
        var row := Movement(k, |State().Table(k)| + 1, a, d, s, true);
        Append(row);
        o := Added(k, row.id);
      case Ignore =>
        o := Ignored;
      case Reject(e) =>
        o := Rejected(e);
    }

    /** The delete handler: kind lookup, primary-key lookup, then the flag is cleared. */
    method Delete(tipo: string, id: nat) returns (o: DeleteOutcome)
      requires Valid()
      modifies this
      ensures Valid()
      ensures DeleteResult(o, State()) == SoftDelete(old(State()), tipo, id)
    {
      var kind := KindNamed(tipo);
      if kind.None? {
        return InvalidKind;
      }
      var k := kind.value;
      var found := Find(State().Table(k), id);
      if found.None? {
        return NotFound;
      }
      ClearFlag(k, found.value);
      o := Deleted;
    }
  }
}
