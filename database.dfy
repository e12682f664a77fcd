/**
 * `DatabaseService`: the mapping between the application's records and the rows
 * of the `medicines` table, and what each operation returns for each reply of
 * the backend. The backend itself is not modelled: its reply is a parameter.
 */
module Database {
  import opened Wrappers
  import opened Medicines

  /** A table row; `None` is a SQL `null`. */
  datatype Row = Row(id: string, name: string, formula: Option<string>, dosage: Option<string>,
                     formulation: Option<string>, stock: int)

  /** The object sent to `insert`: every column but the id. */
  datatype Insert = Insert(name: string, formula: Option<string>, dosage: Option<string>,
                           formulation: Option<string>, stock: int)

  /** The object sent to `update`. A `None` name or stock is `undefined` and leaves the column
      alone; the three optional text columns are always written, `None` writing `null`. */
  datatype Patch = Patch(name: Option<string>, formula: Option<string>, dosage: Option<string>,
                         formulation: Option<string>, stock: Option<int>)

  /** A reply of the backend: data, an `error` object, or a thrown exception. */
  datatype Response<T> = Ok(data: T) | Failed | Threw

  /** `value || ''` on a nullable text column. */
  function OrEmpty(v: Option<string>): (s: string)
    ensures v.None? ==> s == ""
    ensures v.Some? ==> s == v.value
  {
    if v.Some? then v.value else ""
  }

  /** `value || null` on a text field (and on `undefined`, which is `None`). */
  function NullIfEmpty(v: Option<string>): (r: Option<string>)
    ensures r.None? <==> v.None? || v.value == ""
    ensures r.Some? ==> r.value == v.value
  {
    if v.Some? && v.value != "" then v else None
  }

  /** Reading a row: null text columns become `''`; id, name and stock are copied. */
  function FromRow(row: Row): (m: Medicine)
    ensures m.id == row.id && m.name == row.name && m.stock == row.stock
    ensures m.formula == OrEmpty(row.formula) && m.dosage == OrEmpty(row.dosage)
    ensures m.formulation == OrEmpty(row.formulation)
  {
    Medicine(row.id, row.name, OrEmpty(row.formula), OrEmpty(row.dosage), OrEmpty(row.formulation), row.stock)
  }

  /** Writing a record: `''` text fields become `null`. */
  function ToInsert(d: Draft): (r: Insert)
    ensures r.name == d.name && r.stock == d.stock
    ensures r.formula == NullIfEmpty(Some(d.formula)) && r.dosage == NullIfEmpty(Some(d.dosage))
    ensures r.formulation == NullIfEmpty(Some(d.formulation))
  {
    Insert(d.name, NullIfEmpty(Some(d.formula)), NullIfEmpty(Some(d.dosage)), NullIfEmpty(Some(d.formulation)), d.stock)
  }

  /** The row the table holds after an insert that was given the id `id`. */
  function Inserted(ins: Insert, id: string): (row: Row)
    ensures row.id == id && row.name == ins.name && row.stock == ins.stock
    ensures row.formula == ins.formula && row.dosage == ins.dosage && row.formulation == ins.formulation
  {
    Row(id, ins.name, ins.formula, ins.dosage, ins.formulation, ins.stock)
  }

  /** Writing a record and reading it back gives the same record: no text field is stored as
      `null` unless it was `''`, and `''` is what `null` reads back as. */
  lemma InsertReadBack(d: Draft, id: string)
    ensures FromRow(Inserted(ToInsert(d), id)) == WithId(d, id)
  {
    var ins := ToInsert(d);
    assert OrEmpty(NullIfEmpty(Some(d.formula))) == d.formula;
    assert OrEmpty(NullIfEmpty(Some(d.dosage))) == d.dosage;
    assert OrEmpty(NullIfEmpty(Some(d.formulation))) == d.formulation;
  }

  /** The patch `updateMedicine` sends for `updates`. */
  function ToPatch(u: Update): (p: Patch)
    ensures p.name == u.name && p.stock == u.stock
    ensures p.formula == NullIfEmpty(u.formula) && p.dosage == NullIfEmpty(u.dosage)
    ensures p.formulation == NullIfEmpty(u.formulation)
  {
    Patch(u.name, NullIfEmpty(u.formula), NullIfEmpty(u.dosage), NullIfEmpty(u.formulation), u.stock)
  }

  /** The row after the backend applies a patch. */
  function Patched(row: Row, p: Patch): (r: Row)
    ensures r.id == row.id && r.name == p.name.GetOr(row.name) && r.stock == p.stock.GetOr(row.stock)
    ensures r.formula == p.formula && r.dosage == p.dosage && r.formulation == p.formulation
  {
    Row(row.id, p.name.GetOr(row.name), p.formula, p.dosage, p.formulation, p.stock.GetOr(row.stock))
  }

  /** A database update agrees with the local spread `{ ...m, ...updates }` on name and stock, and
      on each optional text field the update carries; a text field the update leaves out is
      cleared to `''` instead of kept. */
  lemma UpdateAgainstMerge(row: Row, u: Update)
    requires u.id.None? || u.id == Some(row.id)
    ensures var after := FromRow(Patched(row, ToPatch(u)));
            var merged := Merge(FromRow(row), u);
            && after.id == merged.id && after.name == merged.name && after.stock == merged.stock
            && after.formula == (if u.formula.Some? then merged.formula else "")
            && after.dosage == (if u.dosage.Some? then merged.dosage else "")
            && after.formulation == (if u.formulation.Some? then merged.formulation else "")
  {
    var p := ToPatch(u);
    assert OrEmpty(p.formula) == OrEmpty(u.formula);
    assert OrEmpty(p.dosage) == OrEmpty(u.dosage);
    assert OrEmpty(p.formulation) == OrEmpty(u.formulation);
  }

  /** `getAllMedicines()`: the rows in the order the backend returns them, mapped; `[]` on any
      failure. */
  function GetAllMedicines(reply: Response<seq<Row>>): (r: seq<Medicine>)
    ensures reply.Ok? ==> |r| == |reply.data| && forall i :: 0 <= i < |r| ==> r[i] == FromRow(reply.data[i])
    ensures !reply.Ok? ==> r == []
  {
    if reply.Ok? then seq(|reply.data|, i requires 0 <= i < |reply.data| => FromRow(reply.data[i])) else []
  }

  /** What `addMedicine` and `updateMedicine` return: the row the backend sends back after
      the insert of `ToInsert(medicine)` or the update by `ToPatch(updates)`, mapped; `null`
      on any failure. */
  function ReturnedRecord(reply: Response<Row>): (r: Option<Medicine>)
    ensures r.Some? <==> reply.Ok?
    ensures reply.Ok? ==> r.value == FromRow(reply.data)
  {
    if reply.Ok? then Some(FromRow(reply.data)) else None
  }

  /** `deleteMedicine(id)`: true exactly when the backend reported no error. */
  function DeleteMedicine(reply: Response<()>): (deleted: bool)
    ensures deleted <==> reply.Ok?
  {
    reply.Ok?
  }

  /** What `seedDatabase` does: the rows it inserts (`None` when it inserts nothing) and what it
      returns. */
  datatype SeedOutcome = SeedOutcome(inserted: Option<seq<Insert>>, result: bool)

  /** `seedDatabase(medicines)`. `probe` answers the one-row select; `insert` answers the bulk
      insert, when there is one. A failed probe has no data and so does not stop the insert. */
  function SeedDatabase(medicines: seq<Draft>, probe: Response<seq<string>>, insert: Response<()>): (r: SeedOutcome)
    ensures probe.Threw? ==> r == SeedOutcome(None, false)
    ensures probe.Ok? && |probe.data| > 0 ==> r == SeedOutcome(None, true)
    ensures r.inserted.Some? <==> probe.Failed? || (probe.Ok? && |probe.data| == 0)
    ensures r.inserted.Some? ==> |r.inserted.value| == |medicines|
    ensures r.inserted.Some? ==> forall i :: 0 <= i < |medicines| ==> r.inserted.value[i] == ToInsert(medicines[i])
    ensures r.inserted.Some? ==> (r.result <==> insert.Ok?)
  {
    if probe.Threw? then SeedOutcome(None, false)
    else if probe.Ok? && |probe.data| > 0 then SeedOutcome(None, true)
    else
      var rows := seq(|medicines|, i requires 0 <= i < |medicines| => ToInsert(medicines[i]));
      SeedOutcome(Some(rows), insert.Ok?)
  }

  /** Seeding never inserts into a table that already has a row, whatever the insert would have
      answered, and reports success. */
  lemma SeedOnlyWhenEmpty(medicines: seq<Draft>, rows: seq<string>, insert: Response<()>)
    requires |rows| > 0
    ensures SeedDatabase(medicines, Ok(rows), insert).inserted.None?
    ensures SeedDatabase(medicines, Ok(rows), insert).result
  {
  }
}
