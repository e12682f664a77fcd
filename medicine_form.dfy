/**
 * The single-record form (`MedicineForm`): the fields being edited, the error
 * message per field, and the open, edit, validate, submit and close steps.
 */
module Form {
  import opened Wrappers
  import opened Text
  import opened Medicines

  /** The blank form: four empty texts and stock 0. */
  const BlankDraft := Draft("", "", "", "", 0)

  /** The messages `validateForm` computes, from scratch. */
  function FormErrors(f: Draft): (errors: map<string, string>)
    ensures "name" in errors <==> IsBlank(f.name)
    ensures "name" in errors ==> errors["name"] == "Medicine name is required"
    ensures "stock" in errors <==> f.stock < 0
    ensures "stock" in errors ==> errors["stock"] == "Stock cannot be negative"
    ensures errors.Keys <= {"name", "stock"}
  {
    TrimFacts(f.name);
    var named: map<string, string> := if Trim(f.name) == [] then map["name" := "Medicine name is required"] else map[];
    if f.stock < 0 then named["stock" := "Stock cannot be negative"] else named
  }

  /** `Object.keys(newErrors).length === 0` exactly when the form is acceptable. */
  lemma FormErrorsEmptyIffAcceptable(f: Draft)
    ensures |FormErrors(f)| == 0 <==> Acceptable(f)
  {
    if !Acceptable(f) {
      assert "name" in FormErrors(f) || "stock" in FormErrors(f);
    }
  }

  class MedicineForm {
    var formData: Draft
    var errors: map<string, string>

    constructor()
      ensures formData == BlankDraft && errors == map[]
    {
      formData := BlankDraft;
      errors := map[];
    }

    /** The effect run when the dialog opens: the fields of `editMedicine`, or a blank form;
        errors cleared either way. */
    method Open(editMedicine: Option<Medicine>)
      modifies this
      ensures editMedicine.Some? ==> formData == Fields(editMedicine.value)
      ensures editMedicine.None? ==> formData == BlankDraft
      ensures errors == map[]
    {
      if editMedicine.Some? {
        var m := editMedicine.value;
        formData := Draft(m.name, m.formula, m.dosage, m.formulation, m.stock);
      } else {
        formData := BlankDraft;
      }
      errors := map[];
    }

    /** `validateForm()`: the errors are recomputed and the result says there are none. */
    method ValidateForm() returns (ok: bool)
      modifies this
      ensures formData == old(formData)
      ensures errors == FormErrors(formData)
      ensures ok <==> Acceptable(formData)
    {
      var newErrors := FormErrors(formData);
      errors := newErrors;
      FormErrorsEmptyIffAcceptable(formData);
      ok := |newErrors| == 0;
    }

    /** `handleSubmit(e)`: when the form validates, `formData` is handed to `onSubmit` as it
        stands, untrimmed; the dialog is closed unless `onSubmit` throws (`accepted` false). */
    method HandleSubmit(accepted: bool) returns (submitted: Option<Draft>, closed: bool)
      modifies this
      ensures submitted.Some? <==> Acceptable(old(formData))
      ensures submitted.Some? ==> submitted.value == old(formData)
      ensures closed <==> submitted.Some? && accepted
      ensures formData == old(formData) && errors == FormErrors(formData)
    {
      var ok := ValidateForm();
      if !ok {
        return None, false;
      }
      submitted := Some(formData);
      closed := accepted;
    }

    /** `handleClose()`: blank form, no errors. */
    method HandleClose()
      modifies this
      ensures formData == BlankDraft && errors == map[]
    {
      formData := BlankDraft;
      errors := map[];
    }

    /** `handleInputChange(field, value)`: only the named field changes, and its message is
        cleared. */
    method HandleInputChange(e: Edit)
      modifies this
      ensures formData == ApplyEdit(old(formData), e)
      ensures errors == ClearedError(old(errors), FieldKey(e))
    {
      formData := ApplyEdit(formData, e);
      errors := ClearedError(errors, FieldKey(e));
    }
  }
}
