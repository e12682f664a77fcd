/**
 * The CSV import pipeline: per-row validation, the structural checks of
 * `parseCSV`, duplicate detection against the existing records and the
 * signature-based duplicate filter. Tokenising is done by a foreign CSV
 * library; the pipeline starts from its output (`Tokenised`).
 */
module Csv {
  import opened Wrappers
  import opened Text
  import opened JsNumbers
  import opened Medicines
  import opened Seqs

  datatype CsvError = CsvError(row: int, field: Option<string>, message: string)

  /** The source's `'skip' | 'update'`. */
  datatype Action = Skip | UpdateExisting

  /** One candidate that matches an existing record; `row` is the candidate's index plus 2. */
  datatype DuplicateInfo = DuplicateInfo(row: int, name: string, existingId: Option<string>, action: Action)

  datatype ParseResult = ParseResult(validMedicines: seq<Draft>, errors: seq<CsvError>, totalRows: int,
                                     duplicates: seq<DuplicateInfo>)

  /** The columns an import must have (`REQUIRED_CSV_HEADERS`), in export order. */
  const RequiredHeaders: seq<string> := ["name", "formula", "dosage", "formulation", "stock"]

  // ---------------------------------------------------------------------------
  // Duplicate detection (`findDuplicates`)
  // ---------------------------------------------------------------------------

  /** `(str || '').toString().toLowerCase().trim()`, computed in one pass: white space is dropped
      from both ends and the rest is lower-cased (`NormalizeIsLowerThenTrim` shows it is the same). */
  function Normalize(s: string): string
    decreases |s|
  {
    if s == [] then []
    else if IsSpace(s[0]) then Normalize(s[1..])
    else if IsSpace(s[|s| - 1]) then Normalize(s[..|s| - 1])
    else ToLower(s)
  }

  /** The one-pass `Normalize` is `toLowerCase` followed by `trim`. */
  lemma {:induction false} NormalizeIsLowerThenTrim(s: string)
    ensures Normalize(s) == Trim(ToLower(s))
    decreases |s|
  {
    if s == [] {
    } else {
      var l := ToLower(s);
      assert l[0] == LowerChar(s[0]);
      LowerCharSpace(s[0]);
      if IsSpace(s[0]) {
        NormalizeIsLowerThenTrim(s[1..]);
        ToLowerTail(s);
      } else if IsSpace(s[|s| - 1]) {
        LowerCharSpace(s[|s| - 1]);
        NormalizeIsLowerThenTrim(s[..|s| - 1]);
        ToLowerInit(s);
      } else {
        LowerCharSpace(s[|s| - 1]);
        TrimOfTrimmed(l);
      }
    }
  }

  /** The four normalised fields two records are compared on; stock is not one of them. */
  datatype Key = Key(name: string, dosage: string, formulation: string, formula: string)

  function DraftKey(d: Draft): Key {
    Key(Normalize(d.name), Normalize(d.dosage), Normalize(d.formulation), Normalize(d.formula))
  }

  function MedicineKey(m: Medicine): Key {
    DraftKey(Fields(m))
  }

  /** The duplicate test of `findDuplicates`: all four normalised fields are equal. */
  predicate IsDuplicate(c: Draft, e: Medicine) {
    DraftKey(c) == MedicineKey(e)
  }

  /** Two records that differ only in stock, in letter case or in surrounding white space of
      name and formula are duplicates. */
  lemma DuplicateIgnoresStockAndCase(c: Draft, e: Medicine)
    requires Normalize(c.name) == Normalize(e.name) && Normalize(c.formula) == Normalize(e.formula)
    requires Normalize(c.dosage) == Normalize(e.dosage) && Normalize(c.formulation) == Normalize(e.formulation)
    ensures IsDuplicate(c, e)
    ensures forall s, t :: IsDuplicate(c.(stock := s), e.(stock := t))
  {
  }

  /** Index of the first existing record whose key is `k` (`existingMedicines.find`). */
  function MatchIndex(existing: seq<Medicine>, k: Key): (r: Option<nat>)
    ensures r.None? <==> forall i :: 0 <= i < |existing| ==> MedicineKey(existing[i]) != k
    ensures r.Some? ==> r.value < |existing| && MedicineKey(existing[r.value]) == k
    ensures r.Some? ==> forall i :: 0 <= i < r.value ==> MedicineKey(existing[i]) != k
  {
    FirstIndex((e: Medicine) => MedicineKey(e) == k, existing)
  }

  /** Some existing record is a duplicate of `c`. */
  predicate HasMatch(existing: seq<Medicine>, c: Draft) {
    MatchIndex(existing, DraftKey(c)).Some?
  }

  /** The entry `findDuplicates` pushes for candidate `i`, if any. */
  function DuplicateFor(csv: seq<Draft>, existing: seq<Medicine>, i: nat): seq<DuplicateInfo>
    requires i < |csv|
  {
    match MatchIndex(existing, DraftKey(csv[i]))
    case None => []
    case Some(j) => [DuplicateInfo(i + 2, csv[i].name, Some(existing[j].id), Skip)]
  }

  /** `d` is the entry for the candidate at `d.row - 2`: it names that candidate, carries the id of
      the first matching existing record, and has action skip. */
  predicate Describes(csv: seq<Draft>, existing: seq<Medicine>, d: DuplicateInfo) {
    && 2 <= d.row < |csv| + 2
    && var m := MatchIndex(existing, DraftKey(csv[d.row - 2]));
       && m.Some?
       && d.name == csv[d.row - 2].name
       && d.existingId == Some(existing[m.value].id)
       && d.action == Skip
  }

  /** Some entry of `dups` is for the candidate at index `i`. */
  predicate Flagged(dups: seq<DuplicateInfo>, i: int) {
    exists k :: 0 <= k < |dups| && dups[k].row == i + 2
  }

  /** The entry for candidate `i`, when there is one, describes it. */
  lemma DuplicateForDescribes(csv: seq<Draft>, existing: seq<Medicine>, i: nat)
    requires i < |csv|
    ensures forall d :: d in DuplicateFor(csv, existing, i) ==> d.row == i + 2 && Describes(csv, existing, d)
  {
  }

  /** The entries for the first `n` candidates, in candidate order. */
  function Duplicates(csv: seq<Draft>, existing: seq<Medicine>, n: nat): (r: seq<DuplicateInfo>)
    requires n <= |csv|
    ensures |r| <= n
  {
    if n == 0 then [] else Duplicates(csv, existing, n - 1) + DuplicateFor(csv, existing, n - 1)
  }

  /** Every entry is for one of the first `n` candidates and describes it. */
  lemma {:induction false} DuplicatesDescribe(csv: seq<Draft>, existing: seq<Medicine>, n: nat)
    requires n <= |csv|
    ensures forall d :: d in Duplicates(csv, existing, n) ==> d.row < n + 2 && Describes(csv, existing, d)
  {
    if n > 0 {
      var prev := Duplicates(csv, existing, n - 1);
      var last := DuplicateFor(csv, existing, n - 1);
      assert Duplicates(csv, existing, n) == prev + last;
      forall d: DuplicateInfo | d in prev + last
        ensures d.row < n + 2 && Describes(csv, existing, d)
      {
        if d in prev {
          DuplicatesDescribe(csv, existing, n - 1);
        } else {
          DuplicateForDescribes(csv, existing, n - 1);
        }
      }
    }
  }

  /** Every entry is for one of the first `n` candidates. */
  lemma {:induction false} DuplicatesRows(csv: seq<Draft>, existing: seq<Medicine>, n: nat)
    requires n <= |csv|
    ensures forall d :: d in Duplicates(csv, existing, n) ==> 2 <= d.row < n + 2
  {
    if n > 0 {
      var prev := Duplicates(csv, existing, n - 1);
      var last := DuplicateFor(csv, existing, n - 1);
      assert Duplicates(csv, existing, n) == prev + last;
      DuplicatesRows(csv, existing, n - 1);
      DuplicateForRow(csv, existing, n - 1);
      forall d: DuplicateInfo | d in prev + last
        ensures 2 <= d.row < n + 2
      {
        if d !in prev {
          assert d in last;
        }
      }
    }
  }

  /** The entry for candidate `i`, when there is one, is for row `i + 2`. */
  lemma DuplicateForRow(csv: seq<Draft>, existing: seq<Medicine>, i: nat)
    requires i < |csv|
    ensures |DuplicateFor(csv, existing, i)| <= 1
    ensures forall d :: d in DuplicateFor(csv, existing, i) ==> d.row == i + 2
  {
  }

  /** Row numbers strictly increase along `ds`. */
  predicate RowsIncreasing(ds: seq<DuplicateInfo>) {
    forall k, l :: 0 <= k < l < |ds| ==> ds[k].row < ds[l].row
  }

  /** Appending at most one entry whose row is above every earlier row keeps the order. */
  lemma IncreasingAppend(prev: seq<DuplicateInfo>, last: seq<DuplicateInfo>, row: int)
    requires RowsIncreasing(prev) && |last| <= 1
    requires forall d :: d in prev ==> d.row < row
    requires forall d :: d in last ==> d.row == row
    ensures RowsIncreasing(prev + last)
  {
    var r := prev + last;
    forall k, l | 0 <= k < l < |r|
      ensures r[k].row < r[l].row
    {
      if l < |prev| {
        assert r[k] == prev[k] && r[l] == prev[l];
      } else {
        assert r[k] == prev[k] && prev[k] in prev;
        assert r[l] == last[0] && last[0] in last;
      }
    }
  }

  /** Entries appear in strictly increasing row order, so no candidate is reported twice. */
  lemma {:induction false} DuplicatesOrdered(csv: seq<Draft>, existing: seq<Medicine>, n: nat)
    requires n <= |csv|
    ensures RowsIncreasing(Duplicates(csv, existing, n))
  {
    if n > 0 {
      var prev := Duplicates(csv, existing, n - 1);
      var last := DuplicateFor(csv, existing, n - 1);
      assert Duplicates(csv, existing, n) == prev + last;
      DuplicatesOrdered(csv, existing, n - 1);
      DuplicatesRows(csv, existing, n - 1);
      DuplicateForRow(csv, existing, n - 1);
      IncreasingAppend(prev, last, n + 1);
    }
  }

  /** With no existing records nothing is reported. */
  lemma {:induction false} DuplicatesOfNoExisting(csv: seq<Draft>, n: nat)
    requires n <= |csv|
    ensures Duplicates(csv, [], n) == []
  {
    if n > 0 {
      DuplicatesOfNoExisting(csv, n - 1);
    }
  }

  lemma FlaggedAppend(prev: seq<DuplicateInfo>, last: seq<DuplicateInfo>, i: int)
    ensures Flagged(prev + last, i) <==> Flagged(prev, i) || Flagged(last, i)
  {
    var r := prev + last;
    if Flagged(r, i) {
      var k :| 0 <= k < |r| && r[k].row == i + 2;
      if k >= |prev| {
        assert last[k - |prev|] == r[k];
      }
    }
    if Flagged(last, i) {
      var k :| 0 <= k < |last| && last[k].row == i + 2;
      assert r[|prev| + k] == last[k];
    }
    if Flagged(prev, i) {
      var k :| 0 <= k < |prev| && prev[k].row == i + 2;
      assert r[k] == prev[k];
    }
  }

  /** The entry for candidate `i` flags exactly candidate `i`, and only when it has a match. */
  lemma DuplicateForFlags(csv: seq<Draft>, existing: seq<Medicine>, i: nat, j: int)
    requires i < |csv|
    ensures Flagged(DuplicateFor(csv, existing, i), j) <==> j == i && HasMatch(existing, csv[i])
  {
    if HasMatch(existing, csv[i]) && j == i {
      assert DuplicateFor(csv, existing, i)[0].row == i + 2;
    }
  }

  /** A candidate among the first `n` is reported exactly when some existing record matches it. */
  lemma {:induction false} DuplicatesComplete(csv: seq<Draft>, existing: seq<Medicine>, n: nat)
    requires n <= |csv|
    ensures forall i :: 0 <= i < n ==> (HasMatch(existing, csv[i]) <==> Flagged(Duplicates(csv, existing, n), i))
  {
    if n > 0 {
      var prev := Duplicates(csv, existing, n - 1);
      var last := DuplicateFor(csv, existing, n - 1);
      assert Duplicates(csv, existing, n) == prev + last;
      DuplicatesComplete(csv, existing, n - 1);
      DuplicatesRows(csv, existing, n - 1);
      assert !Flagged(prev, n - 1) by {
        forall k | 0 <= k < |prev|
          ensures prev[k].row != n + 1
        {
          assert prev[k] in prev;
        }
      }
      forall i | 0 <= i < n
        ensures HasMatch(existing, csv[i]) <==> Flagged(prev + last, i)
      {
        FlaggedAppend(prev, last, i);
        DuplicateForFlags(csv, existing, n - 1, i);
      }
    }
  }

  /** `findDuplicates(csvMedicines, existingMedicines)`. */
  method FindDuplicates(csv: seq<Draft>, existing: seq<Medicine>) returns (dups: seq<DuplicateInfo>)
    ensures dups == Duplicates(csv, existing, |csv|)
  {
    dups := [];
    for i := 0 to |csv|
      invariant dups == Duplicates(csv, existing, i)
    {
      var found := MatchIndex(existing, DraftKey(csv[i]));
      if found.Some? {
        dups := dups + [DuplicateInfo(i + 2, csv[i].name, Some(existing[found.value].id), Skip)];
      }
    }
  }

  // ---------------------------------------------------------------------------
  // Duplicate filtering (`filterDuplicates`)
  // ---------------------------------------------------------------------------

  /** Four strings joined by `'|'`. */
  function BarJoin(w: string, x: string, y: string, z: string): string {
    w + "|" + x + "|" + y + "|" + z
  }

  /** When the first three parts contain no `'|'`, the joined string determines all four parts. */
  lemma BarJoinInjective(w1: string, x1: string, y1: string, z1: string,
                         w2: string, x2: string, y2: string, z2: string)
    requires '|' !in w1 && '|' !in x1 && '|' !in y1
    requires '|' !in w2 && '|' !in x2 && '|' !in y2
    ensures BarJoin(w1, x1, y1, z1) == BarJoin(w2, x2, y2, z2) <==> w1 == w2 && x1 == x2 && y1 == y2 && z1 == z2
  {
    assert BarJoin(w1, x1, y1, z1) == w1 + ['|'] + (x1 + ['|'] + (y1 + ['|'] + z1));
    assert BarJoin(w2, x2, y2, z2) == w2 + ['|'] + (x2 + ['|'] + (y2 + ['|'] + z2));
    if BarJoin(w1, x1, y1, z1) == BarJoin(w2, x2, y2, z2) {
      SplitAtFirst(w1, w2, '|', x1 + ['|'] + (y1 + ['|'] + z1), x2 + ['|'] + (y2 + ['|'] + z2));
      SplitAtFirst(x1, x2, '|', y1 + ['|'] + z1, y2 + ['|'] + z2);
      SplitAtFirst(y1, y2, '|', z1, z2);
    }
  }

  /** The `'|'`-joined normalised `name|dosage|formulation|formula` of a candidate. */
  function Signature(d: Draft): (s: string)
    ensures |s| >= 3
  {
    BarJoin(Normalize(d.name), Normalize(d.dosage), Normalize(d.formulation), Normalize(d.formula))
  }

  /** The signature of the candidate at `row - 2`, or `''` when no candidate has that index. */
  function RowSignature(csv: seq<Draft>, row: int): string {
    if 2 <= row < |csv| + 2 then Signature(csv[row - 2]) else ""
  }

  /** The set built from `duplicates.map(...)`. */
  function DuplicateSignatures(csv: seq<Draft>, dups: seq<DuplicateInfo>): set<string> {
    set d | d in dups :: RowSignature(csv, d.row)
  }

  /** `filterDuplicates(csvMedicines, duplicates, skipDuplicates)`. */
  function FilterDuplicates(csv: seq<Draft>, dups: seq<DuplicateInfo>, skip: bool): (r: seq<Draft>)
    ensures !skip ==> r == csv
    ensures skip ==> forall c :: c in r <==> c in csv && Signature(c) !in DuplicateSignatures(csv, dups)
    ensures |r| <= |csv|
  {
    if !skip then csv
    else
      var sigs := DuplicateSignatures(csv, dups);
      Filter((c: Draft) => Signature(c) !in sigs, csv)
  }

  /** `filterDuplicates` returns `csvMedicines.filter(...)` or the input itself: the kept candidates
      stay in their original order. */
  lemma FilterDuplicatesKeepsOrder(csv: seq<Draft>, dups: seq<DuplicateInfo>, skip: bool)
    ensures IsSubsequence(FilterDuplicates(csv, dups, skip), csv)
  {
    if skip {
      FilterIsSubsequence((c: Draft) => Signature(c) !in DuplicateSignatures(csv, dups), csv);
    } else {
      SubsequenceOfItself(csv);
    }
  }

  /** With no duplicate entries nothing is filtered out. */
  lemma {:induction false} FilterWithoutDuplicates(csv: seq<Draft>)
    ensures FilterDuplicates(csv, [], true) == csv
  {
    var sigs := DuplicateSignatures(csv, []);
    assert sigs == {};
    FilterKeepsAll((c: Draft) => Signature(c) !in sigs, csv);
  }

  /** An entry whose row has no candidate adds only `''` to the signature set, which no candidate has. */
  lemma {:induction false} OutOfRangeRowIgnored(csv: seq<Draft>, dups: seq<DuplicateInfo>, d: DuplicateInfo)
    requires !(2 <= d.row < |csv| + 2)
    ensures FilterDuplicates(csv, dups + [d], true) == FilterDuplicates(csv, dups, true)
  {
    var s1 := DuplicateSignatures(csv, dups + [d]);
    var s0 := DuplicateSignatures(csv, dups);
    assert s1 == s0 + {""};
    FilterCongruent((c: Draft) => Signature(c) !in s1, (c: Draft) => Signature(c) !in s0, csv);
  }

  /** No field of the candidate contains the separator `'|'`. */
  predicate BarFree(d: Draft) {
    '|' !in d.name && '|' !in d.dosage && '|' !in d.formulation && '|' !in d.formula
  }

  lemma NormalizeBarFree(s: string)
    requires '|' !in s
    ensures '|' !in Normalize(s)
  {
    var l := ToLower(s);
    assert forall i :: 0 <= i < |l| ==> l[i] != '|';
    NormalizeIsLowerThenTrim(s);
    TrimFacts(l);
  }

  /** Without `'|'` in any field, equal signatures means equal keys (and conversely). */
  lemma {:induction false} SignatureInjective(a: Draft, b: Draft)
    requires BarFree(a) && BarFree(b)
    ensures Signature(a) == Signature(b) <==> DraftKey(a) == DraftKey(b)
  {
    NormalizeBarFree(a.name); NormalizeBarFree(a.dosage); NormalizeBarFree(a.formulation);
    NormalizeBarFree(b.name); NormalizeBarFree(b.dosage); NormalizeBarFree(b.formulation);
    BarJoinInjective(Normalize(a.name), Normalize(a.dosage), Normalize(a.formulation), Normalize(a.formula),
                     Normalize(b.name), Normalize(b.dosage), Normalize(b.formulation), Normalize(b.formula));
  }

  /** The signature of every candidate with a match ends up in the signature set. */
  lemma MatchedSignatureListed(csv: seq<Draft>, existing: seq<Medicine>, i: nat)
    requires i < |csv| && HasMatch(existing, csv[i])
    ensures Signature(csv[i]) in DuplicateSignatures(csv, Duplicates(csv, existing, |csv|))
  {
    DuplicatesComplete(csv, existing, |csv|);
    FlaggedSignatureListed(csv, Duplicates(csv, existing, |csv|), i);
  }

  /** A flagged candidate's signature is in the signature set. */
  lemma FlaggedSignatureListed(csv: seq<Draft>, dups: seq<DuplicateInfo>, i: nat)
    requires i < |csv| && Flagged(dups, i)
    ensures Signature(csv[i]) in DuplicateSignatures(csv, dups)
  {
    var k :| 0 <= k < |dups| && dups[k].row == i + 2;
    var d := dups[k];
    assert d in dups;
    assert RowSignature(csv, d.row) == Signature(csv[i]);
  }

  /** With `'|'`-free fields, only candidates with a match have their signature in the set. */
  lemma ListedSignatureMatched(csv: seq<Draft>, existing: seq<Medicine>, c: Draft)
    requires forall c :: c in csv ==> BarFree(c)
    requires c in csv && Signature(c) in DuplicateSignatures(csv, Duplicates(csv, existing, |csv|))
    ensures HasMatch(existing, c)
  {
    var dups := Duplicates(csv, existing, |csv|);
    DuplicatesDescribe(csv, existing, |csv|);
    var d :| d in dups && RowSignature(csv, d.row) == Signature(c);
    assert Describes(csv, existing, d);
    var j := d.row - 2;
    assert csv[j] in csv;
    SignatureInjective(csv[j], c);
  }

  /** With `'|'`-free fields, feeding `filterDuplicates` the output of `findDuplicates` drops exactly
      the candidates that have a duplicate among the existing records and keeps the rest in order. */
  lemma SkipsExactlyExisting(csv: seq<Draft>, existing: seq<Medicine>)
    requires forall c :: c in csv ==> BarFree(c)
    ensures FilterDuplicates(csv, Duplicates(csv, existing, |csv|), true)
         == Filter((c: Draft) => !HasMatch(existing, c), csv)
  {
    var sigs := DuplicateSignatures(csv, Duplicates(csv, existing, |csv|));
    forall c | c in csv
      ensures Signature(c) in sigs <==> HasMatch(existing, c)
    {
      if HasMatch(existing, c) {
        var i :| 0 <= i < |csv| && csv[i] == c;
        MatchedSignatureListed(csv, existing, i);
      }
      if Signature(c) in sigs {
        ListedSignatureMatched(csv, existing, c);
      }
    }
    FilterCongruent((c: Draft) => Signature(c) !in sigs, (c: Draft) => !HasMatch(existing, c), csv);
  }

  // ---------------------------------------------------------------------------
  // Row validation (`validateMedicineRow`)
  // ---------------------------------------------------------------------------

  /** A tokenised data row: lower-cased, trimmed header to cell text. Short rows lack keys. */
  type Row = map<string, string>

  datatype RowCheck = RowCheck(data: Option<Draft>, errors: seq<CsvError>)

  const NameRequiredMessage := "Name is required and cannot be empty"
  const StockInvalidMessage := "Stock must be a non-negative number"

  /** `row[key] || ''`. */
  function Cell(row: Row, key: string): string {
    if key in row then row[key] else ""
  }

  /** `!row.name || row.name.trim() === ''`. */
  predicate NameMissing(row: Row) {
    "name" !in row || IsBlank(row["name"])
  }

  /** A stock cell is present and non-empty. */
  predicate HasStock(row: Row) {
    "stock" in row && row["stock"] != ""
  }

  /** `isNaN(Number(row.stock)) || Number(row.stock) < 0`, for a present, non-empty cell. */
  predicate StockInvalid(row: Row) {
    HasStock(row) && (ToNumber(row["stock"]).None? || IsNegative(ToNumber(row["stock"]).value))
  }

  predicate Trimmed(s: string) {
    Trim(s) == s
  }

  /** What a record that passed validation looks like. */
  predicate WellFormed(d: Draft) {
    !IsBlank(d.name) && Trimmed(d.name) && Trimmed(d.formula) && Trimmed(d.dosage)
    && Trimmed(d.formulation) && d.stock >= 0
  }

  function ValidateRow(row: Row, rowNumber: int): (r: RowCheck)
    ensures OneOutcome(r)
    ensures forall e :: e in r.errors ==> e.row == rowNumber
    ensures r.data.Some? ==> WellFormed(r.data.value)
  {
    if NameMissing(row) then
      RowCheck(None, [CsvError(rowNumber, Some("name"), NameRequiredMessage)])
    else if StockInvalid(row) then
      RowCheck(None, [CsvError(rowNumber, Some("stock"), StockInvalidMessage)])
    else
      var stock := if HasStock(row) then Floor(ToNumber(row["stock"]).value) else 0;
      TrimFacts(row["name"]);
      TrimFacts(Trim(row["name"]));
      TrimIdempotent(row["name"]);
      TrimIdempotent(Cell(row, "formula"));
      TrimIdempotent(Cell(row, "dosage"));
      TrimIdempotent(Cell(row, "formulation"));
      RowCheck(Some(Draft(Trim(row["name"]), Trim(Cell(row, "formula")), Trim(Cell(row, "dosage")),
                          Trim(Cell(row, "formulation")), stock)), [])
  }

  /** The outcome of validating one row: the name check comes first, then the stock check, and a row
      that passes both becomes a record of its trimmed cells, with a missing or empty stock read as 0
      and any other stock rounded down. */
  lemma ValidateRowOutcome(row: Row, rowNumber: int)
    ensures NameMissing(row)
            ==> ValidateRow(row, rowNumber) == RowCheck(None, [CsvError(rowNumber, Some("name"), NameRequiredMessage)])
    ensures !NameMissing(row) && StockInvalid(row)
            ==> ValidateRow(row, rowNumber) == RowCheck(None, [CsvError(rowNumber, Some("stock"), StockInvalidMessage)])
    ensures !NameMissing(row) && !StockInvalid(row)
            ==> ValidateRow(row, rowNumber)
                == RowCheck(Some(Draft(Trim(row["name"]), Trim(Cell(row, "formula")), Trim(Cell(row, "dosage")),
                                       Trim(Cell(row, "formulation")),
                                       if HasStock(row) then Floor(ToNumber(row["stock"]).value) else 0)), [])
  {
  }

  /** The export projection of a record: the five required columns, stock written as `String(stock)`. */
  function ExportRow(d: Draft): Row {
    map["name" := d.name, "formula" := d.formula, "dosage" := d.dosage,
        "formulation" := d.formulation, "stock" := IntToString(d.stock)]
  }

  /** Exporting a validated record and importing the row again gives back the same record. */
  lemma {:induction false} ExportImportRoundTrip(d: Draft, rowNumber: int)
    requires WellFormed(d)
    ensures ValidateRow(ExportRow(d), rowNumber) == RowCheck(Some(d), [])
  {
    var row := ExportRow(d);
    ToNumberOfNat(d.stock);
    assert row["stock"] == NatToString(d.stock);
    assert !NameMissing(row);
    assert !StockInvalid(row);
  }

  // ---------------------------------------------------------------------------
  // `parseCSV`, from the tokeniser's output on
  // ---------------------------------------------------------------------------

  /** A syntax error reported by the tokeniser, with its row when it gave one. */
  datatype ParserError = ParserError(row: Option<int>, message: string)

  /** What the tokeniser produced: raw header cells (`meta.fields`), data rows keyed by
      `HeaderKey` of their header, and syntax errors; or the exception message it threw. */
  datatype Tokenised =
    | Tokens(fields: Option<seq<string>>, data: seq<Row>, parserErrors: seq<ParserError>)
    | Threw(message: string)

  /** `transformHeader`: `header.trim().toLowerCase()`. */
  function HeaderKey(h: string): string {
    ToLower(Trim(h))
  }

  /** The transformed header list (`meta.fields || []`). */
  function Headers(fields: Option<seq<string>>): (hs: seq<string>)
    ensures fields.Some? ==> |hs| == |fields.value| && forall i :: 0 <= i < |hs| ==> hs[i] == HeaderKey(fields.value[i])
    ensures fields.None? ==> hs == []
  {
    match fields
    case None => []
    case Some(fs) => seq(|fs|, i requires 0 <= i < |fs| => HeaderKey(fs[i]))
  }

  /** The required headers absent from `headers`, in required order. Extra headers are not checked. */
  function MissingHeaders(headers: seq<string>): (r: seq<string>)
    ensures forall h :: h in r <==> h in RequiredHeaders && h !in headers
  {
    Filter((h: string) => h !in headers, RequiredHeaders)
  }

  /** The header check passes exactly when every required header is the transformed form of some
      header cell: the cells are matched after `trim()` and `toLowerCase()`, so letter case and
      surrounding spaces do not matter, and extra columns are allowed. */
  lemma {:induction false} HeadersAccepted(fs: seq<string>)
    ensures MissingHeaders(Headers(Some(fs))) == []
            <==> forall h :: h in RequiredHeaders ==> exists f :: f in fs && HeaderKey(f) == h
  {
    var hs := Headers(Some(fs));
    forall h
      ensures h in hs <==> exists f :: f in fs && HeaderKey(f) == h
    {
      if h in hs {
        var i :| 0 <= i < |hs| && hs[i] == h;
        assert fs[i] in fs && HeaderKey(fs[i]) == h;
      }
      if exists f :: f in fs && HeaderKey(f) == h {
        var f :| f in fs && HeaderKey(f) == h;
        var i :| 0 <= i < |fs| && fs[i] == f;
        assert hs[i] == h;
      }
    }
    var missing := MissingHeaders(hs);
    if missing != [] {
      assert missing[0] in missing;
    }
  }

  /** Header cells in any letter case and with surrounding spaces, plus an extra column, pass. */
  lemma MixedCaseHeadersAccepted()
    ensures MissingHeaders(Headers(Some(["Name", " FORMULA", "Dosage", "formulation", "STOCK", "Notes"]))) == []
  {
    var hs := Headers(Some(["Name", " FORMULA", "Dosage", "formulation", "STOCK", "Notes"]));
    NameHeaderKey();
    FormulaHeaderKey();
    DosageHeaderKey();
    FormulationHeaderKey();
    StockHeaderKey();
    assert hs[0] == "name" && hs[1] == "formula" && hs[2] == "dosage" && hs[3] == "formulation" && hs[4] == "stock";
    assert forall h :: h in RequiredHeaders ==> h in hs by {
      assert hs[0] in hs && hs[1] in hs && hs[2] in hs && hs[3] in hs && hs[4] in hs;
    }
    FilterDropsAll((h: string) => h !in hs, RequiredHeaders);
  }

  lemma NameHeaderKey()
    ensures HeaderKey("Name") == "name"
  {
    TrimOfTrimmed("Name");
    var l := ToLower("Name");
    assert l[0] == 'n' && l[1] == 'a' && l[2] == 'm' && l[3] == 'e';
  }

  lemma FormulaHeaderKey()
    ensures HeaderKey(" FORMULA") == "formula"
  {
    assert Trim(" FORMULA") == "FORMULA" by {
      assert " FORMULA"[1..] == "FORMULA";
      TrimOfTrimmed("FORMULA");
    }
    var l := ToLower("FORMULA");
    assert l[0] == 'f' && l[1] == 'o' && l[2] == 'r' && l[3] == 'm' && l[4] == 'u' && l[5] == 'l' && l[6] == 'a';
  }

  lemma DosageHeaderKey()
    ensures HeaderKey("Dosage") == "dosage"
  {
    TrimOfTrimmed("Dosage");
    var l := ToLower("Dosage");
    assert l[0] == 'd' && l[1] == 'o' && l[2] == 's' && l[3] == 'a' && l[4] == 'g' && l[5] == 'e';
  }

  lemma FormulationHeaderKey()
    ensures HeaderKey("formulation") == "formulation"
  {
    TrimOfTrimmed("formulation");
    var l := ToLower("formulation");
    assert forall i :: 0 <= i < |l| ==> l[i] == "formulation"[i];
  }

  lemma StockHeaderKey()
    ensures HeaderKey("STOCK") == "stock"
  {
    TrimOfTrimmed("STOCK");
    var l := ToLower("STOCK");
    assert l[0] == 's' && l[1] == 't' && l[2] == 'o' && l[3] == 'c' && l[4] == 'k';
  }

  const EmptyMessage := "CSV file is empty or contains no valid data"

  function MissingMessage(missing: seq<string>): string {
    "Missing required headers: " + Join(missing, ", ") + ". Expected: " + Join(RequiredHeaders, ", ")
  }

  /** `{ row: error.row || 0, message: 'Parse error: ' + error.message }` for each parser error. */
  function ParserErrors(es: seq<ParserError>): (r: seq<CsvError>)
    ensures |r| == |es|
    ensures forall i :: 0 <= i < |es| ==> r[i] == CsvError(es[i].row.GetOr(0), None, "Parse error: " + es[i].message)
  {
    if es == [] then [] else
      ParserErrors(es[..|es| - 1])
      + [CsvError(es[|es| - 1].row.GetOr(0), None, "Parse error: " + es[|es| - 1].message)]
  }

  /** Exactly one of: a record and no error, no record and one error. */
  predicate OneOutcome(c: RowCheck) {
    (c.data.Some? && c.errors == []) || (c.data.None? && |c.errors| == 1)
  }

  /** The outcome of `validateMedicineRow(row, index + 1)` for every data row, in row order. */
  function Validated(data: seq<Row>): (cs: seq<RowCheck>)
    ensures |cs| == |data|
    ensures forall i :: 0 <= i < |data| ==> cs[i] == ValidateRow(data[i], i + 1)
  {
    seq(|data|, i requires 0 <= i < |data| => ValidateRow(data[i], i + 1))
  }

  /** The records the outcomes contribute, in row order. */
  function Records(cs: seq<RowCheck>): (r: seq<Draft>)
    ensures |r| <= |cs|
  {
    if cs == [] then []
    else Records(cs[..|cs| - 1]) + match cs[|cs| - 1].data case Some(d) => [d] case None => []
  }

  /** The errors the outcomes contribute, in row order. */
  function Errors(cs: seq<RowCheck>): seq<CsvError> {
    if cs == [] then [] else Errors(cs[..|cs| - 1]) + cs[|cs| - 1].errors
  }

  /** One more row adds its record or its error at the end. */
  lemma CollectStep(cs: seq<RowCheck>, i: nat)
    requires i < |cs|
    ensures Records(cs[..i + 1]) == Records(cs[..i]) + match cs[i].data case Some(d) => [d] case None => []
    ensures Errors(cs[..i + 1]) == Errors(cs[..i]) + cs[i].errors
  {
    assert cs[..i + 1][..i] == cs[..i];
  }

  /** When every outcome is one record or one error, records and errors together number the rows. */
  lemma {:induction false} AccountedFor(cs: seq<RowCheck>)
    requires forall i :: 0 <= i < |cs| ==> OneOutcome(cs[i])
    ensures |Records(cs)| + |Errors(cs)| == |cs|
  {
    if cs != [] {
      AccountedFor(cs[..|cs| - 1]);
    }
  }

  /** Only records some outcome carries are collected. */
  lemma {:induction false} RecordsCarried(cs: seq<RowCheck>)
    ensures forall d :: d in Records(cs) ==> exists i :: 0 <= i < |cs| && cs[i].data == Some(d)
  {
    if cs != [] {
      var init := cs[..|cs| - 1];
      RecordsCarried(init);
      forall d | d in Records(cs)
        ensures exists i :: 0 <= i < |cs| && cs[i].data == Some(d)
      {
        if d in Records(init) {
          var i :| 0 <= i < |init| && init[i].data == Some(d);
          assert cs[i] == init[i];
        } else {
          assert cs[|cs| - 1].data == Some(d);
        }
      }
    }
  }

  /** Errors tagged with their 1-based row number come out in row order, each the error of its row. */
  lemma {:induction false} ErrorsTagged(cs: seq<RowCheck>)
    requires forall i :: 0 <= i < |cs| ==> OneOutcome(cs[i])
    requires forall i, e :: 0 <= i < |cs| && e in cs[i].errors ==> e.row == i + 1
    ensures forall k :: 0 <= k < |Errors(cs)| ==>
              1 <= Errors(cs)[k].row <= |cs| && cs[Errors(cs)[k].row - 1].errors == [Errors(cs)[k]]
    ensures forall k, l :: 0 <= k < l < |Errors(cs)| ==> Errors(cs)[k].row < Errors(cs)[l].row
  {
    if cs != [] {
      var init := cs[..|cs| - 1];
      var last := cs[|cs| - 1].errors;
      var prev := Errors(init);
      var r := prev + last;
      assert r == Errors(cs);
      assert forall i :: 0 <= i < |init| ==> init[i] == cs[i];
      ErrorsTagged(init);
      assert forall k :: 0 <= k < |prev| ==> r[k] == prev[k];
      assert forall k :: |prev| <= k < |r| ==> r[k] == last[0] && k == |prev| && last[0] in cs[|cs| - 1].errors;
    }
  }

  /** The error of a row that produced one is among the collected errors. */
  lemma {:induction false} ErrorCollected(cs: seq<RowCheck>, i: nat)
    requires i < |cs| && cs[i].errors != []
    ensures cs[i].errors[0] in Errors(cs)
  {
    var init := cs[..|cs| - 1];
    if i < |cs| - 1 {
      assert init[i] == cs[i];
      ErrorCollected(init, i);
    }
  }

  /** Every data row contributes exactly one of: a record, an error. */
  lemma EveryRowAccountedFor(data: seq<Row>)
    ensures |Records(Validated(data))| + |Errors(Validated(data))| == |data|
  {
    AccountedFor(Validated(data));
  }

  /** Every collected record passed validation. */
  lemma RecordsWellFormed(data: seq<Row>)
    ensures forall d :: d in Records(Validated(data)) ==> WellFormed(d)
  {
    RecordsCarried(Validated(data));
  }

  /** The row errors name the rows they come from (1-based, in order), each being that row's error. */
  lemma RowErrorsTagged(data: seq<Row>)
    ensures forall k :: 0 <= k < |Errors(Validated(data))| ==>
              var e := Errors(Validated(data))[k];
              1 <= e.row <= |data| && Validated(data)[e.row - 1].errors == [e]
    ensures forall k, l :: 0 <= k < l < |Errors(Validated(data))|
              ==> Errors(Validated(data))[k].row < Errors(Validated(data))[l].row
  {
    ValidatedOutcomes(data);
    ErrorsTagged(Validated(data));
  }

  /** Every outcome is a record or one error, and its errors carry its 1-based row number. */
  lemma ValidatedOutcomes(data: seq<Row>)
    ensures forall i :: 0 <= i < |data| ==> OneOutcome(Validated(data)[i])
    ensures forall i, e :: 0 <= i < |data| && e in Validated(data)[i].errors ==> e.row == i + 1
  {
    var cs := Validated(data);
    forall i | 0 <= i < |data|
      ensures OneOutcome(cs[i]) && forall e :: e in cs[i].errors ==> e.row == i + 1
    {
      var r := ValidateRow(data[i], i + 1);
      assert cs[i] == r;
    }
  }

  /** A row that fails validation has its error among the row errors. */
  lemma InvalidRowReported(data: seq<Row>, i: nat)
    requires i < |data| && ValidateRow(data[i], i + 1).data.None?
    ensures ValidateRow(data[i], i + 1).errors[0] in Errors(Validated(data))
  {
    ErrorCollected(Validated(data), i);
  }

  /** The result of `parseCSV(csvContent, existingMedicines)`, from the tokeniser's output on: a
      thrown tokeniser, no data rows, missing headers, or the collected rows with their duplicates. */
  function Parsed(input: Tokenised, existing: seq<Medicine>): (result: ParseResult)
    ensures input.Threw? ==> result == ParseResult([], [CsvError(0, None, "Failed to parse CSV: " + input.message)], 0, [])
    ensures input.Tokens? ==> result.totalRows == |input.data|
    ensures input.Tokens? && |input.data| == 0
            ==> result == ParseResult([], ParserErrors(input.parserErrors) + [CsvError(0, None, EmptyMessage)], 0, [])
    ensures input.Tokens? && |input.data| > 0 && MissingHeaders(Headers(input.fields)) != []
            ==> result == ParseResult([], ParserErrors(input.parserErrors)
                                          + [CsvError(0, None, MissingMessage(MissingHeaders(Headers(input.fields))))],
                                      |input.data|, [])
    ensures input.Tokens? && |input.data| > 0 && MissingHeaders(Headers(input.fields)) == []
            ==> && result.validMedicines == Records(Validated(input.data))
                && result.errors == ParserErrors(input.parserErrors) + Errors(Validated(input.data))
                && result.duplicates == (if |result.validMedicines| > 0 && |existing| > 0
                                         then Duplicates(result.validMedicines, existing, |result.validMedicines|)
                                         else [])
  {
    match input
    case Threw(message) => ParseResult([], [CsvError(0, None, "Failed to parse CSV: " + message)], 0, [])
    case Tokens(fields, data, parserErrors) =>
      var missing := MissingHeaders(Headers(fields));
      if |data| == 0 then
        ParseResult([], ParserErrors(parserErrors) + [CsvError(0, None, EmptyMessage)], 0, [])
      else if |missing| > 0 then
        ParseResult([], ParserErrors(parserErrors) + [CsvError(0, None, MissingMessage(missing))], |data|, [])
      else
        var valid := Records(Validated(data));
        var dups := if |valid| > 0 && |existing| > 0 then Duplicates(valid, existing, |valid|) else [];
        ParseResult(valid, ParserErrors(parserErrors) + Errors(Validated(data)), |data|, dups)
  }

  /** `parseCSV(csvContent, existingMedicines)`: the loops compute `Parsed`. */
  method ParseCsv(input: Tokenised, existing: seq<Medicine>) returns (result: ParseResult)
    ensures result == Parsed(input, existing)
  {
    match input {
      case Threw(message) =>
        result := ParseResult([], [CsvError(0, None, "Failed to parse CSV: " + message)], 0, []);
      case Tokens(fields, data, parserErrors) =>
        var errors := ReportParserErrors(parserErrors);
        result := ParseResult([], errors, |data|, []);
        if |data| == 0 {
          result := result.(errors := result.errors + [CsvError(0, None, EmptyMessage)]);
          return;
        }
        var missing := MissingHeaders(Headers(fields));
        if |missing| > 0 {
          result := result.(errors := result.errors + [CsvError(0, None, MissingMessage(missing))]);
          return;
        }
        var valid, rowErrors := CollectRows(data);
        result := result.(validMedicines := valid, errors := result.errors + rowErrors);
        if |result.validMedicines| > 0 && |existing| > 0 {
          var dups := FindDuplicates(result.validMedicines, existing);
          result := result.(duplicates := dups);
        }
    }
  }

  /** The `Parse error:` entries, one per tokeniser error, in order. */
  method ReportParserErrors(es: seq<ParserError>) returns (errors: seq<CsvError>)
    ensures errors == ParserErrors(es)
  {
    errors := [];
    for i := 0 to |es|
      invariant errors == ParserErrors(es[..i])
    {
      assert es[..i + 1][..i] == es[..i];
      errors := errors + [CsvError(es[i].row.GetOr(0), None, "Parse error: " + es[i].message)];
    }
    assert es[..|es|] == es;
  }

  /** The `forEach` over the data rows: each row is validated with its 1-based number and
      contributes its record or its error. */
  method CollectRows(data: seq<Row>) returns (valid: seq<Draft>, errors: seq<CsvError>)
    ensures valid == Records(Validated(data))
    ensures errors == Errors(Validated(data))
  {
    valid, errors := [], [];
    ghost var cs := Validated(data);
    for i := 0 to |data|
      invariant valid == Records(cs[..i])
      invariant errors == Errors(cs[..i])
    {
      var check := ValidateRow(data[i], i + 1);
      CollectStep(cs, i);
      if |check.errors| > 0 {
        errors := errors + check.errors;
      } else if check.data.Some? {
        valid := valid + [check.data.value];
      }
    }
    assert cs[..|data|] == cs;
  }
}
