/**
 * The CSV import dialog (`CSVUploadModal`): the parse result of the chosen file,
 * the upload flags and the status shown to the user, stepped by the file reader's
 * callbacks, the import button and the close button. The file reader, the drop
 * zone and the `onImport` callback are outside the model: what they deliver is a
 * parameter.
 */
module Upload {
  import opened Wrappers
  import opened Text
  import opened JsNumbers
  import opened Medicines
  import opened Csv

  /** `uploadStatus`: `'idle' | 'success' | 'error'`. */
  datatype Status = Idle | Succeeded | Failed

  const LoadFailedMessage := "Failed to read file. Please ensure it is a valid CSV file."
  const ReadErrorMessage := "Failed to read file. Please try again."
  const AllDuplicatesMessage := "No medicines to import (all entries were duplicates)."
  const ImportFailedMessage := "Failed to import medicines. Please try again."
  const ImportedPrefix := "Successfully imported "
  const ImportedSuffix := " medicine(s)!"
  const SkippedSuffix := " duplicate(s) were skipped."

  /** The result that stands in for a file that could not be read or was refused. */
  function FailedRead(message: string): (r: ParseResult)
    ensures r.validMedicines == [] && r.duplicates == [] && r.totalRows == 0
    ensures |r.errors| == 1 && r.errors[0].row == 0 && r.errors[0].message == message
  {
    ParseResult([], [CsvError(0, None, message)], 0, [])
  }

  /** A count between two pieces of text. */
  function Counted(prefix: string, n: nat, suffix: string): string {
    prefix + NatToString(n) + suffix
  }

  /** The message after a successful import of `imported` records with `skipped` duplicates. */
  function SuccessMessage(imported: nat, skipped: nat): string {
    Counted(ImportedPrefix, imported, ImportedSuffix) + (if skipped > 0 then Counted(" ", skipped, SkippedSuffix) else "")
  }

  /** A count written by `Counted` reads back with `parseInt` from just after its prefix, whatever
      follows, as long as the suffix does not start with a digit. */
  lemma CountReadsBack(prefix: string, n: nat, suffix: string, more: string)
    requires suffix != [] && !IsDigit(suffix[0])
    ensures |Counted(prefix, n, suffix) + more| >= |prefix| + 1
    ensures ParseInt((Counted(prefix, n, suffix) + more)[|prefix|..]) == Some(n)
  {
    var m := Counted(prefix, n, suffix) + more;
    assert m[|prefix|..] == NatToString(n) + (suffix + more);
    ParseIntOfRendered(n, suffix + more);
  }

  /** A count behind a one-character prefix, appended to anything, reads back from just after
      that prefix. */
  lemma CountAfterReadsBack(head: string, p: string, n: nat, suffix: string)
    requires |p| == 1 && suffix != [] && !IsDigit(suffix[0])
    ensures ParseInt((head + Counted(p, n, suffix))[|head| + 1..]) == Some(n)
  {
    var digits := NatToString(n);
    assert (head + Counted(p, n, suffix))[|head| + 1..] == digits + suffix;
    ParseIntOfRendered(n, suffix);
  }

  /** The success message reports both counts: the imported count reads back right after the
      prefix; the skipped sentence is there exactly when duplicates were skipped, and its count
      reads back right after it starts. */
  lemma SuccessMessageReports(imported: nat, skipped: nat)
    ensures var m := SuccessMessage(imported, skipped);
            var head := Counted(ImportedPrefix, imported, ImportedSuffix);
            && m[..|head|] == head
            && head[..|ImportedPrefix|] == ImportedPrefix
            && ParseInt(m[|ImportedPrefix|..]) == Some(imported)
            && (skipped == 0 <==> |m| == |head|)
            && (skipped > 0 ==> ParseInt(m[|head| + 1..]) == Some(skipped))
  {
    var head := Counted(ImportedPrefix, imported, ImportedSuffix);
    var tail := if skipped > 0 then Counted(" ", skipped, SkippedSuffix) else "";
    assert SuccessMessage(imported, skipped) == head + tail;
    assert head[..|ImportedPrefix|] == ImportedPrefix;
    assert ImportedSuffix[0] == ' ' && SkippedSuffix[0] == ' ' && !IsDigit(' ');
    CountReadsBack(ImportedPrefix, imported, ImportedSuffix, tail);
    if skipped > 0 {
      CountAfterReadsBack(head, " ", skipped, SkippedSuffix);
    }
  }

  class UploadModal {
    var parseResult: Option<ParseResult>
    var isProcessing: bool
    var isUploading: bool
    var status: Status
    var message: string
    var isDragActive: bool

    constructor()
      ensures parseResult.None? && !isProcessing && !isUploading
      ensures status == Idle && message == "" && !isDragActive
    {
      parseResult := None;
      isProcessing := false;
      isUploading := false;
      status := Idle;
      message := "";
      isDragActive := false;
    }

    /** `canImport`: a parse result with at least one valid record, and no upload running. */
    predicate CanImport()
      reads this
    {
      parseResult.Some? && |parseResult.value.validMedicines| > 0 && !isUploading
    }

    /** `onDrop(files)`: reading starts when a file was dropped. */
    method OnDrop(hasFile: bool)
      modifies this
      ensures isProcessing == (hasFile || old(isProcessing))
      ensures parseResult == old(parseResult) && isUploading == old(isUploading)
      ensures status == old(status) && message == old(message) && isDragActive == old(isDragActive)
    {
      if hasFile {
        isProcessing := true;
      }
    }

    /** `setParseResult(result)` followed by `setIsProcessing(false)`. */
    method ShowResult(result: ParseResult)
      modifies this
      ensures parseResult == Some(result) && !isProcessing
      ensures isUploading == old(isUploading) && status == old(status) && message == old(message)
      ensures isDragActive == old(isDragActive)
    {
      parseResult := Some(result);
      isProcessing := false;
    }

    /** `reader.onload`: the file's tokens are parsed against the existing records. */
    method OnLoad(input: Tokenised, existing: seq<Medicine>)
      modifies this
      ensures parseResult == Some(Parsed(input, existing)) && !isProcessing
      ensures isUploading == old(isUploading) && status == old(status) && message == old(message)
      ensures isDragActive == old(isDragActive)
    {
      var result := ParseCsv(input, existing);
      ShowResult(result);
    }

    /** The `catch` of `reader.onload`. */
    method OnLoadFailed()
      modifies this
      ensures parseResult == Some(FailedRead(LoadFailedMessage)) && !isProcessing
      ensures !CanImport()
      ensures isUploading == old(isUploading) && status == old(status) && message == old(message)
      ensures isDragActive == old(isDragActive)
    {
      ShowResult(FailedRead(LoadFailedMessage));
    }

    /** `reader.onerror`. */
    method OnReadError()
      modifies this
      ensures parseResult == Some(FailedRead(ReadErrorMessage)) && !isProcessing
      ensures !CanImport()
      ensures isUploading == old(isUploading) && status == old(status) && message == old(message)
      ensures isDragActive == old(isDragActive)
    {
      ShowResult(FailedRead(ReadErrorMessage));
    }

    /** `onDropRejected(fileRejections)`: the first rejection's messages, comma-joined, become the
        one error; with no rejection only the drag highlight goes. */
    method OnDropRejected(rejections: seq<seq<string>>)
      modifies this
      ensures !isDragActive
      ensures rejections != [] ==> parseResult == Some(FailedRead("File rejected: " + Join(rejections[0], ", ")))
      ensures rejections == [] ==> parseResult == old(parseResult)
      ensures rejections != [] ==> !CanImport()
      ensures isProcessing == old(isProcessing) && isUploading == old(isUploading)
      ensures status == old(status) && message == old(message)
    {
      isDragActive := false;
      if |rejections| > 0 {
        parseResult := Some(FailedRead("File rejected: " + Join(rejections[0], ", ")));
      }
    }

    /** `handleImport()`. Without something to import it does nothing. Otherwise the records that
        survive `filterDuplicates` are handed to `onImport` (`imported`), unless none survive;
        `importThrows` is whether `onImport` threw. The upload flag is down afterwards. */
    method HandleImport(importThrows: bool) returns (imported: Option<seq<Draft>>)
      modifies this
      ensures !old(CanImport()) ==>
                && imported.None?
                && parseResult == old(parseResult) && isUploading == old(isUploading)
                && status == old(status) && message == old(message)
      ensures old(CanImport()) ==>
                var result := old(parseResult).value;
                var toImport := FilterDuplicates(result.validMedicines, result.duplicates, true);
                && parseResult == old(parseResult) && !isUploading
                && (toImport == [] ==> imported.None? && status == Failed && message == AllDuplicatesMessage)
                && (toImport != [] ==> imported == Some(toImport))
                && (toImport != [] && importThrows ==> status == Failed && message == ImportFailedMessage)
                && (toImport != [] && !importThrows ==>
                      status == Succeeded && message == SuccessMessage(|toImport|, |result.duplicates|))
      ensures isProcessing == old(isProcessing) && isDragActive == old(isDragActive)
    {
      if parseResult.None? || |parseResult.value.validMedicines| == 0 || isUploading {
        return None;
      }
      isUploading := true;
      status := Idle;
      message := "";
      var result := parseResult.value;
      var toImport := FilterDuplicates(result.validMedicines, result.duplicates, true);
      if |toImport| == 0 {
        status := Failed;
        message := AllDuplicatesMessage;
        imported := None;
      } else {
        imported := Some(toImport);
        if importThrows {
          status := Failed;
          message := ImportFailedMessage;
        } else {
          status := Succeeded;
          message := SuccessMessage(|toImport|, |result.duplicates|);
        }
      }
      isUploading := false;
    }

    /** `handleClose()`: refused while an upload runs; otherwise everything is reset. */
    method HandleClose() returns (closed: bool)
      modifies this
      ensures closed <==> !old(isUploading)
      ensures closed ==> parseResult.None? && !isProcessing && !isUploading && status == Idle
                         && message == "" && !isDragActive
      ensures !closed ==> parseResult == old(parseResult) && isProcessing == old(isProcessing)
                          && isUploading == old(isUploading) && status == old(status)
                          && message == old(message) && isDragActive == old(isDragActive)
    {
      if isUploading {
        return false;
      }
      parseResult := None;
      isProcessing := false;
      isUploading := false;
      status := Idle;
      message := "";
      isDragActive := false;
      closed := true;
    }
  }

  /** Importing right after a parse skips exactly the records that match an existing one, provided
      no field holds `'|'`: what `HandleImport` hands to `onImport` is then the parsed records
      without a match, in order. */
  lemma ImportSkipsExisting(valid: seq<Draft>, existing: seq<Medicine>)
    requires forall c :: c in valid ==> BarFree(c)
    ensures var dups := if |valid| > 0 && |existing| > 0 then Duplicates(valid, existing, |valid|) else [];
            FilterDuplicates(valid, dups, true) == Seqs.Filter((c: Draft) => !HasMatch(existing, c), valid)
  {
    if |valid| > 0 && |existing| > 0 {
      SkipsExactlyExisting(valid, existing);
    } else {
      FilterWithoutDuplicates(valid);
      forall c | c in valid
        ensures !HasMatch(existing, c)
      {
      }
      Seqs.FilterKeepsAll((c: Draft) => !HasMatch(existing, c), valid);
    }
  }

  /** What a load followed by an import hands to `onImport`: whatever the file, exactly the parsed
      records without a match among the existing ones, in order, provided no field holds `'|'`. */
  lemma LoadThenImport(input: Tokenised, existing: seq<Medicine>)
    requires forall c :: c in Parsed(input, existing).validMedicines ==> BarFree(c)
    ensures var r := Parsed(input, existing);
            FilterDuplicates(r.validMedicines, r.duplicates, true)
              == Seqs.Filter((c: Draft) => !HasMatch(existing, c), r.validMedicines)
  {
    var r := Parsed(input, existing);
    if input.Tokens? && |input.data| > 0 && MissingHeaders(Headers(input.fields)) == [] {
      ImportSkipsExisting(r.validMedicines, existing);
    } else {
      assert r.validMedicines == [] && r.duplicates == [];
      FilterWithoutDuplicates(r.validMedicines);
    }
  }
}
