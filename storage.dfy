/**
 * `storageUtils`: the medicine list kept under one key of the browser store,
 * seeded with seventeen sample records, and the admin session flag.
 */
module Storage {
  import opened Wrappers
  import opened Medicines
  import opened Seqs
  import opened LocalStore

  const StorageKey := "pharmacy_medicines"
  const AdminSessionKey := "pharmacy_admin_session"

  /** `defaultMedicines`, as the module starts out. */
  const DefaultMedicines: seq<Medicine> := [
    Medicine("1", "Panadol", "Paracetamol", "500 mg", "Tablet", 0),
    Medicine("2", "Tylenol", "Paracetamol", "325 mg", "Tablet", 25),
    Medicine("3", "Calpol", "Paracetamol", "120 mg/5ml", "Syrup", 15),
    Medicine("4", "Aspirin", "Acetylsalicylic acid", "75 mg", "Tablet", 40),
    Medicine("5", "Ecospirin", "Acetylsalicylic acid", "150 mg", "Tablet", 8),
    Medicine("6", "Ibuprofen", "Ibuprofen", "200 mg", "Capsule", 3),
    Medicine("7", "Advil", "Ibuprofen", "400 mg", "Tablet", 22),
    Medicine("8", "Brufen", "Ibuprofen", "600 mg", "Tablet", 12),
    Medicine("9", "Amoxicillin", "Amoxicillin", "250 mg", "Capsule", 2),
    Medicine("10", "Augmentin", "Amoxicillin", "500 mg", "Tablet", 18),
    Medicine("11", "Omeprazole", "Omeprazole", "20 mg", "Tablet", 30),
    Medicine("12", "Prilosec", "Omeprazole", "40 mg", "Capsule", 14),
    Medicine("13", "Losec", "Omeprazole", "10 mg", "Tablet", 0),
    Medicine("14", "Cetirizine", "Cetirizine", "10 mg", "Tablet", 35),
    Medicine("15", "Zyrtec", "Cetirizine", "5 mg/5ml", "Syrup", 20),
    Medicine("16", "Metformin", "Metformin", "500 mg", "Tablet", 45),
    Medicine("17", "Glucophage", "Metformin", "850 mg", "Tablet", 28)
  ]

  /** The sample records have distinct ids. */
  lemma DefaultIdsDistinct()
    ensures |DefaultMedicines| == 17
    ensures forall i, j :: 0 <= i < j < |DefaultMedicines| ==> DefaultMedicines[i].id != DefaultMedicines[j].id
  {
  }

  /** The list after `medicines[index] = { ...medicines[index], ...updates }` at the first record with
      `id`, or `None` when no record has it. */
  function Updated(ms: seq<Medicine>, id: string, u: Update): (r: Option<seq<Medicine>>)
    ensures r.None? <==> forall i :: 0 <= i < |ms| ==> ms[i].id != id
    ensures r.Some? ==> |r.value| == |ms|
  {
    match FindIndex(ms, id)
    case None => None
    case Some(i) => Some(ms[i := Merge(ms[i], u)])
  }

  /** The update touches the first record with the id and no other. */
  lemma UpdatedTouchesFirstMatchOnly(ms: seq<Medicine>, id: string, u: Update, i: nat)
    requires i < |ms| && ms[i].id == id && forall j :: 0 <= j < i ==> ms[j].id != id
    ensures Updated(ms, id, u) == Some(ms[i := Merge(ms[i], u)])
    ensures forall j :: 0 <= j < |ms| && j != i ==> Updated(ms, id, u).value[j] == ms[j]
    ensures Updated(ms, id, u).value[i] == Merge(ms[i], u)
  {
  }

  /** `medicines.filter(m => m.id !== id)`. */
  function Removed(ms: seq<Medicine>, id: string): (r: seq<Medicine>)
    ensures forall m :: m in r <==> m in ms && m.id != id
  {
    Filter((m: Medicine) => m.id != id, ms)
  }

  /** The filter shortens the list exactly when some record has the id. */
  lemma RemovedShortens(ms: seq<Medicine>, id: string)
    ensures |Removed(ms, id)| < |ms| <==> exists m :: m in ms && m.id == id
  {
    FilterKeepsLength((m: Medicine) => m.id != id, ms);
  }

  class StorageUtils {
    const store: Store
    /** The `defaultMedicines` array. `getMedicines` hands out this very array when storage is
        blank or unreadable, and `addMedicine`/`updateMedicine` then mutate it in place. */
    var defaults: seq<Medicine>

    constructor(store: Store)
      ensures this.store == store && defaults == DefaultMedicines
    {
      this.store := store;
      defaults := DefaultMedicines;
    }

    /** Nothing usable is stored: `getMedicines` will seed the store. */
    predicate NothingStored()
      reads store
    {
      Blank(store.GetItem(StorageKey))
    }

    /** The stored text parses as a medicine list. */
    predicate HoldsList()
      reads store
    {
      store.GetItem(StorageKey).Some? && store.GetItem(StorageKey).value.MedicineList?
    }

    /** What `getMedicines` returns in the current state: the stored list, or the defaults. */
    function Loaded(): seq<Medicine>
      reads this, store
    {
      if HoldsList() then store.GetItem(StorageKey).value.medicines else defaults
    }

    /** The admin flag (`getAdminSession`). */
    function AdminSession(): bool
      reads store
    {
      store.GetItem(AdminSessionKey) == Some(Text("true"))
    }

    /** `getMedicines()`. A blank store is seeded with the defaults; unreadable contents are left
        as they are. Either way a second read returns the same list. */
    method GetMedicines() returns (ms: seq<Medicine>)
      modifies store
      ensures ms == old(Loaded())
      ensures Loaded() == ms
      ensures old(NothingStored()) ==> store.items == old(store.items)[StorageKey := MedicineList(defaults)]
      ensures !old(NothingStored()) ==> store.items == old(store.items)
      ensures AdminSession() == old(AdminSession())
    {
      var stored := store.GetItem(StorageKey);
      if Blank(stored) {
        store.SetItem(StorageKey, MedicineList(defaults));
        return defaults;
      }
      match stored.value
      case MedicineList(list) => ms := list;
      case _ => ms := defaults;
    }

    /** `saveMedicines(medicines)`: the whole stored list is replaced. */
    method SaveMedicines(ms: seq<Medicine>)
      modifies store
      ensures store.items == old(store.items)[StorageKey := MedicineList(ms)]
      ensures Loaded() == ms
      ensures AdminSession() == old(AdminSession())
    {
      store.SetItem(StorageKey, MedicineList(ms));
    }

    /** `addMedicine(medicine)`, with the id `Date.now().toString()` passed in. */
    method AddMedicine(d: Draft, id: string) returns (m: Medicine)
      modifies this, store
      ensures m == WithId(d, id)
      ensures Loaded() == old(Loaded()) + [m]
      ensures store.items == old(store.items)[StorageKey := MedicineList(old(Loaded()) + [m])]
      ensures defaults == if old(HoldsList()) then old(defaults) else old(defaults) + [m]
    {
      m := WithId(d, id);
      var aliased := !HoldsList();
      var medicines := GetMedicines();
      medicines := medicines + [m];
      if aliased {
        defaults := medicines;
      }
      SaveMedicines(medicines);
    }

    /** `updateMedicine(id, updates)`. An unknown id returns `None` and writes nothing beyond what
        `getMedicines` itself writes. */
    method UpdateMedicine(id: string, u: Update) returns (r: Option<Medicine>)
      modifies this, store
      ensures Updated(old(Loaded()), id, u).None? ==>
                && r.None?
                && defaults == old(defaults)
                && Loaded() == old(Loaded())
                && store.items == if old(NothingStored()) then old(store.items)[StorageKey := MedicineList(old(defaults))]
                                  else old(store.items)
      ensures Updated(old(Loaded()), id, u).Some? ==>
                && FindIndex(old(Loaded()), id).Some?
                && r == Some(Merge(old(Loaded())[FindIndex(old(Loaded()), id).value], u))
                && Loaded() == Updated(old(Loaded()), id, u).value
                && store.items == old(store.items)[StorageKey := MedicineList(Loaded())]
                && defaults == if old(HoldsList()) then old(defaults) else Loaded()
    {
      var aliased := !HoldsList();
      var medicines := GetMedicines();
      var index := FindIndex(medicines, id);
      if index.None? {
        return None;
      }
      medicines := medicines[index.value := Merge(medicines[index.value], u)];
      if aliased {
        defaults := medicines;
      }
      SaveMedicines(medicines);
      r := Some(medicines[index.value]);
    }

    /** `deleteMedicine(id)`: every record with the id goes, and the result says whether any did. */
    method DeleteMedicine(id: string) returns (deleted: bool)
      modifies store
      ensures deleted <==> exists m :: m in old(Loaded()) && m.id == id
      ensures deleted ==> store.items == old(store.items)[StorageKey := MedicineList(Removed(old(Loaded()), id))]
      ensures !deleted ==> store.items == if old(NothingStored()) then old(store.items)[StorageKey := MedicineList(defaults)]
                                          else old(store.items)
      ensures Loaded() == Removed(old(Loaded()), id)
    {
      var medicines := GetMedicines();
      var filtered := Removed(medicines, id);
      RemovedShortens(medicines, id);
      if |filtered| == |medicines| {
        FilterKeepsAll((m: Medicine) => m.id != id, medicines);
        return false;
      }
      SaveMedicines(filtered);
      deleted := true;
    }

    /** `setAdminSession(isAdmin)`: `'true'` is stored, or the key is removed. Nothing expires it. */
    method SetAdminSession(isAdmin: bool)
      modifies store
      ensures isAdmin ==> store.items == old(store.items)[AdminSessionKey := Text("true")]
      ensures !isAdmin ==> store.items == old(store.items) - {AdminSessionKey}
      ensures AdminSession() == isAdmin
      ensures Loaded() == old(Loaded())
    {
      if isAdmin {
        store.SetItem(AdminSessionKey, Text("true"));
      } else {
        store.RemoveItem(AdminSessionKey);
      }
    }
  }
}
