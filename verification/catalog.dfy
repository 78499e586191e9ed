/** The fixed medicine catalog (`medicineDatabase`) and its lookup by name. */
module Catalog {
  import opened Lookup

  /** A catalog entry; the price is held in whole cents. */
  datatype Medicine = Medicine(name: string, price: nat)

  /** The five medicines the program is seeded with, in catalog order. */
  const Medicines: seq<Medicine> := [
    Medicine("panadol", 599),
    Medicine("voltaren", 850),
    Medicine("catafast", 675),
    Medicine("congestal", 725),
    Medicine("omega3", 1000)
  ]

  /** True iff some catalog entry is named exactly `name` (case-sensitive). */
  predicate Lists(name: string) {
    exists k :: 0 <= k < |Medicines| && Medicines[k].name == name
  }

  /** The position of the first catalog entry whose name equals `name`, if any. */
  function FindMedicine(name: string): (r: Option<nat>)
    ensures r.None? <==> !Lists(name)
    ensures r.Some? ==> r.value < |Medicines| && Medicines[r.value].name == name
  {
    FindFirst(Medicines, (m: Medicine) => m.name == name)
  }

  /** No two catalog entries share a name, so the first match is the only one. */
  lemma NamesDistinct()
    ensures forall i, j :: 0 <= i < j < |Medicines| ==> Medicines[i].name != Medicines[j].name
  {
  }

  /** Looking up an entry's name finds that entry, whatever its position. */
  lemma FindMedicineIsTheEntry(k: nat)
    requires k < |Medicines|
    ensures FindMedicine(Medicines[k].name) == Some(k)
  {
    NamesDistinct();
    assert Lists(Medicines[k].name);
  }

  /** Panadol and voltaren are found at their catalog prices. */
  lemma PanadolAndVoltarenListed()
    ensures FindMedicine("panadol") == Some(0) && Medicines[0] == Medicine("panadol", 599)
    ensures FindMedicine("voltaren") == Some(1) && Medicines[1] == Medicine("voltaren", 850)
  {
    FindMedicineIsTheEntry(0);
    FindMedicineIsTheEntry(1);
  }

  /** A name outside the catalog is not found. */
  lemma AspirinNotListed()
    ensures FindMedicine("aspirin").None?
  {
    assert "aspirin"[0] == 'a';
  }

  /** Matching is case-sensitive: "Panadol" is not "panadol". */
  lemma MatchIsCaseSensitive()
    ensures FindMedicine("Panadol").None?
  {
    assert "Panadol"[0] == 'P';
  }
}
