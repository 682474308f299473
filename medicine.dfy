/** The `Medicine` entity: the catalogue row, its three-argument constructor, and the
    single stored active ingredient presented as a list to the mobile client. */
module MedicineEntity {
  import opened Wrappers
  import opened Strings

  /** A medicine row; a column that may be `null` is an `Option`, and a time is a number. */
  datatype Medicine = Medicine(
    id: Option<nat>,
    name: Option<string>,
    genericName: Option<string>,
    brandNames: Option<seq<string>>,
    description: Option<string>,
    usageDescription: Option<string>,
    dosageInformation: Option<string>,
    sideEffects: Option<seq<string>>,
    manufacturer: Option<string>,
    category: Option<string>,
    strength: Option<string>,
    form: Option<string>,
    requiresPrescription: bool,
    activeIngredient: Option<string>,
    storageInstructions: Option<string>,
    createdAt: Option<int>,
    updatedAt: Option<int>)

  /** The no-argument constructor: every reference field `null`, the flag `false`. */
  const Blank := Medicine(None, None, None, None, None, None, None, None, None, None, None, None, false, None, None, None, None)

  /** `new Medicine(name, genericName, manufacturer)`: those three set, every other field as
      the no-argument constructor leaves it. */
  function NewMedicine(name: string, genericName: string, manufacturer: string): (m: Medicine)
    ensures m.name == Some(name) && m.genericName == Some(genericName) && m.manufacturer == Some(manufacturer)
    ensures m.(name := None, genericName := None, manufacturer := None) == Blank
  {
    Medicine(None, Some(name), Some(genericName), None, None, None, None, None, Some(manufacturer),
             None, None, None, false, None, None, None, None)
  }

  /** `getActiveIngredients()`: the trimmed ingredient as a one-element list, or the empty
      list when there is none or it is blank. */
  function ActiveIngredients(m: Medicine): (r: seq<string>)
    ensures |r| <= 1 && "" !in r
    ensures r == [] <==> m.activeIngredient.None? || Trim(m.activeIngredient.value) == ""
    ensures r != [] ==> r == [Trim(m.activeIngredient.value)]
  {
    if m.activeIngredient.Some? && Trim(m.activeIngredient.value) != "" then [Trim(m.activeIngredient.value)]
    else []
  }

  /** The list ignores the spaces around the stored value: storing the listed ingredient back
      lists it unchanged. */
  lemma ActiveIngredientsStable(m: Medicine)
    requires ActiveIngredients(m) != []
    ensures ActiveIngredients(m.(activeIngredient := Some(ActiveIngredients(m)[0]))) == ActiveIngredients(m)
  {
    TrimIdempotent(m.activeIngredient.value);
  }
}
