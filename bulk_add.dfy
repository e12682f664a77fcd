/**
 * The bulk-add dialog's row editor (`BulkAddMedicines`): a list of editable rows
 * that never becomes empty, per-row validation and the submission of the named
 * rows. Row ids (`Date.now()` plus `Math.random()`) are parameters.
 */
module BulkAdd {
  import opened Wrappers
  import opened Text
  import opened Seqs
  import opened Medicines

  /** A row of the editor (`MedicineRow`): its id, its five fields and its error messages by
      field name. */
  datatype EditorRow = EditorRow(id: string, fields: Draft, errors: map<string, string>)

  /** `createNewRow()` with the id it is given. */
  function EmptyRow(id: string): (r: EditorRow)
    ensures r.id == id && r.errors == map[]
    ensures r.fields.name == "" && r.fields.formula == "" && r.fields.dosage == ""
    ensures r.fields.formulation == "" && r.fields.stock == 0
  {
    EditorRow(id, Draft("", "", "", "", 0), map[])
  }

  predicate IdsDistinct(rows: seq<EditorRow>) {
    forall i, j :: 0 <= i < j < |rows| ==> rows[i].id != rows[j].id
  }

  predicate HasId(rows: seq<EditorRow>, id: string) {
    exists i :: 0 <= i < |rows| && rows[i].id == id
  }

  /** `rows.filter(row => row.id !== id)`. */
  function WithoutRow(rows: seq<EditorRow>, id: string): (r: seq<EditorRow>)
    ensures forall x :: x in r <==> x in rows && x.id != id
  {
    Filter((row: EditorRow) => row.id != id, rows)
  }

  /** With distinct ids, removing one id keeps the others distinct. */
  lemma {:induction false} WithoutRowDistinct(rows: seq<EditorRow>, id: string)
    requires IdsDistinct(rows)
    ensures IdsDistinct(WithoutRow(rows, id))
  {
    if rows != [] {
      var t := rows[1..];
      WithoutRowDistinct(t, id);
      var ft := WithoutRow(t, id);
      if rows[0].id != id {
        assert WithoutRow(rows, id) == [rows[0]] + ft;
        forall k | 0 <= k < |ft|
          ensures ft[k].id != rows[0].id
        {
          assert ft[k] in t;
          var m :| 0 <= m < |t| && t[m] == ft[k];
          assert rows[m + 1] == t[m];
        }
      } else {
        assert WithoutRow(rows, id) == ft;
      }
    }
  }

  /** With distinct ids and at least two rows, removing one id leaves a row behind. */
  lemma WithoutRowNonEmpty(rows: seq<EditorRow>, id: string)
    requires IdsDistinct(rows) && |rows| > 1
    ensures |WithoutRow(rows, id)| >= 1
  {
    var keep := if rows[0].id != id then rows[0] else rows[1];
    assert keep in WithoutRow(rows, id);
  }

  /** `{ ...row, [field]: value }`, with that field's error set to `''` when it was set. */
  function EditRow(row: EditorRow, e: Edit): (r: EditorRow)
    ensures r.id == row.id && r.fields == ApplyEdit(row.fields, e)
    ensures r.errors == ClearedError(row.errors, FieldKey(e))
  {
    EditorRow(row.id, ApplyEdit(row.fields, e), ClearedError(row.errors, FieldKey(e)))
  }

  /** The error messages `validateRows` computes for a row, from scratch. */
  function RowErrors(f: Draft): (errors: map<string, string>)
    ensures "name" in errors <==> IsBlank(f.name)
    ensures "name" in errors ==> errors["name"] == "Required"
    ensures "stock" in errors <==> f.stock < 0
    ensures "stock" in errors ==> errors["stock"] == "Cannot be negative"
    ensures errors.Keys <= {"name", "stock"}
  {
    TrimFacts(f.name);
    var named: map<string, string> := if Trim(f.name) == [] then map["name" := "Required"] else map[];
    if f.stock < 0 then named["stock" := "Cannot be negative"] else named
  }

  /** A row has no errors exactly when it is valid. */
  lemma RowErrorsEmptyIffValid(f: Draft)
    ensures RowErrors(f) == map[] <==> Acceptable(f)
  {
    if !Acceptable(f) {
      assert "name" in RowErrors(f) || "stock" in RowErrors(f);
    }
  }

  /** The record a named row submits: name, formula and dosage trimmed, formulation and stock as
      entered. */
  function Submitted(row: EditorRow): (d: Draft)
    ensures d.name == Trim(row.fields.name) && d.formula == Trim(row.fields.formula)
    ensures d.dosage == Trim(row.fields.dosage)
    ensures d.formulation == row.fields.formulation && d.stock == row.fields.stock
  {
    Draft(Trim(row.fields.name), Trim(row.fields.formula), Trim(row.fields.dosage), row.fields.formulation, row.fields.stock)
  }

  /** A row with a name that is not blank. */
  predicate Named(row: EditorRow) {
    Trim(row.fields.name) != []
  }

  /** Once validation passes, the "no name" filter of `handleSubmit` drops nothing, so the list
      submitted is never empty and its empty-list guard never fires. */
  lemma NamedAfterValidation(rows: seq<EditorRow>)
    requires forall i :: 0 <= i < |rows| ==> Acceptable(rows[i].fields)
    ensures Filter(Named, rows) == rows
  {
    forall x | x in rows
      ensures Named(x)
    {
      var i :| 0 <= i < |rows| && rows[i] == x;
      TrimFacts(x.fields.name);
    }
    FilterKeepsAll(Named, rows);
  }

  class BulkAddEditor {
    var rows: seq<EditorRow>

    /** The list is never empty and row ids are distinct. */
    ghost predicate Valid()
      reads this
    {
      |rows| >= 1 && IdsDistinct(rows)
    }

    /** The editor starts with one empty row. */
    constructor(id: string)
      ensures rows == [EmptyRow(id)]
      ensures Valid()
    {
      rows := [EmptyRow(id)];
    }

    /** `addRow()`: a fresh empty row is appended; the others are kept as they are. */
    method AddRow(id: string)
      requires Valid() && !HasId(rows, id)
      modifies this
      ensures rows == old(rows) + [EmptyRow(id)]
      ensures Valid()
    {
      rows := rows + [EmptyRow(id)];
    }

    /** `removeRow(id)`: only when more than one row is left. */
    method RemoveRow(id: string)
      requires Valid()
      modifies this
      ensures |old(rows)| > 1 ==> rows == WithoutRow(old(rows), id)
      ensures |old(rows)| <= 1 ==> rows == old(rows)
      ensures Valid()
    {
      if |rows| > 1 {
        WithoutRowDistinct(rows, id);
        WithoutRowNonEmpty(rows, id);
        rows := WithoutRow(rows, id);
      }
    }

    /** `updateRow(id, field, value)`: the row with that id takes the edit; every other row is
        kept. */
    method UpdateRow(id: string, e: Edit)
      requires Valid()
      modifies this
      ensures |rows| == |old(rows)|
      ensures forall i :: 0 <= i < |rows| && old(rows)[i].id == id ==> rows[i] == EditRow(old(rows)[i], e)
      ensures forall i :: 0 <= i < |rows| && old(rows)[i].id != id ==> rows[i] == old(rows)[i]
      ensures Valid()
    {
      var prev := rows;
      rows := seq(|prev|, i requires 0 <= i < |prev| => if prev[i].id == id then EditRow(prev[i], e) else prev[i]);
    }

    /** `validateRows()`: every row's errors are recomputed; true exactly when every row is
        valid. */
    method ValidateRows() returns (isValid: bool)
      requires Valid()
      modifies this
      ensures |rows| == |old(rows)|
      ensures forall i :: 0 <= i < |rows| ==> rows[i] == old(rows)[i].(errors := RowErrors(old(rows)[i].fields))
      ensures isValid <==> forall i :: 0 <= i < |rows| ==> Acceptable(rows[i].fields)
      ensures Valid()
    {
      isValid := true;
      var updated: seq<EditorRow> := [];
      for i := 0 to |rows|
        invariant |updated| == i
        invariant forall j :: 0 <= j < i ==> updated[j] == rows[j].(errors := RowErrors(rows[j].fields))
        invariant isValid <==> forall j :: 0 <= j < i ==> Acceptable(rows[j].fields)
      {
        var errors := RowErrors(rows[i].fields);
        if "name" in errors {
          isValid := false;
        }
        if "stock" in errors {
          isValid := false;
        }
        updated := updated + [rows[i].(errors := errors)];
      }
      rows := updated;
    }

    /** `handleClose()`: back to a single fresh row. */
    method HandleClose(id: string)
      modifies this
      ensures rows == [EmptyRow(id)]
      ensures Valid()
    {
      rows := [EmptyRow(id)];
    }

    /** `handleSubmit()`. Nothing is submitted when some row is invalid; otherwise every row is
        submitted, in order, and, unless `onSubmit` throws (`accepted` false), the editor closes
        with the fresh row `closeId`. */
    method HandleSubmit(closeId: string, accepted: bool) returns (submitted: Option<seq<Draft>>)
      requires Valid()
      modifies this
      ensures var valid := forall i :: 0 <= i < |old(rows)| ==> Acceptable(old(rows)[i].fields);
              && (submitted.Some? <==> valid)
              && (valid ==> |submitted.value| == |old(rows)| > 0)
              && (valid ==> forall i :: 0 <= i < |old(rows)| ==> submitted.value[i] == Submitted(old(rows)[i]))
              && (valid && accepted ==> rows == [EmptyRow(closeId)])
      ensures !(submitted.Some? && accepted) ==>
                |rows| == |old(rows)| &&
                forall i :: 0 <= i < |rows| ==> rows[i] == old(rows)[i].(errors := RowErrors(old(rows)[i].fields))
      ensures Valid()
    {
      var before := rows;
      var valid := ValidateRows();
      if !valid {
        return None;
      }
      NamedAfterValidation(before);
      var named := Filter(Named, before);
      var medicines := seq(|named|, i requires 0 <= i < |named| => Submitted(named[i]));
      submitted := Some(medicines);
      if accepted {
        HandleClose(closeId);
      }
    }
  }
}
