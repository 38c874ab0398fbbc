/**
 * `RecipeFormData`, the draft shared by the create and edit screens, and the
 * edit handlers `RecipeForm` wires to its fields. Each handler is the
 * `formData.copy(...)` it passes to `onFormDataChange`.
 */
module RecipeForm {
  import opened Wrappers
  import opened KotlinText
  import opened RecipeModel

  datatype RecipeFormData = RecipeFormData(
    imageUri: Option<string>,
    selectedType: Option<RecipeType>,
    name: string,
    ingredients: string,
    steps: string
  )

  /** `RecipeFormData()`: every constructor argument at its default. */
  const EmptyForm: RecipeFormData := RecipeFormData(None, None, "", "", "")

  /** The guard both view-models apply before writing: a non-blank name and a selected type. */
  predicate IsFormValid(f: RecipeFormData) {
    IsNotBlank(f.name) && f.selectedType.Some?
  }

  /** The name field's `onValueChange`. */
  function OnNameChange(f: RecipeFormData, v: string): (r: RecipeFormData)
    ensures r.name == v
    ensures r.(name := f.name) == f
  {
    f.(name := v)
  }

  /** The ingredients field's `onValueChange`. */
  function OnIngredientsChange(f: RecipeFormData, v: string): (r: RecipeFormData)
    ensures r.ingredients == v
    ensures r.(ingredients := f.ingredients) == f
  {
    f.(ingredients := v)
  }

  /** The steps field's `onValueChange`. */
  function OnStepsChange(f: RecipeFormData, v: string): (r: RecipeFormData)
    ensures r.steps == v
    ensures r.(steps := f.steps) == f
  {
    f.(steps := v)
  }

  /** Choosing entry `t` of the type dropdown. */
  function OnTypeChosen(f: RecipeFormData, t: RecipeType): (r: RecipeFormData)
    ensures r.selectedType == Some(t)
    ensures r.(selectedType := f.selectedType) == f
  {
    f.(selectedType := Some(t))
  }

  /** The photo picker's result callback: a picked URI replaces the image, a cancelled pick changes nothing. */
  function OnImagePicked(f: RecipeFormData, uri: Option<string>): (r: RecipeFormData)
    ensures uri.None? ==> r == f
    ensures uri.Some? ==> r.imageUri == uri
    ensures r.(imageUri := f.imageUri) == f
  {
    match uri
    case Some(u) => f.(imageUri := Some(u))
    case None => f
  }

  /** "Delete Image". */
  function OnDeleteImage(f: RecipeFormData): (r: RecipeFormData)
    ensures r.imageUri.None?
    ensures r.(imageUri := f.imageUri) == f
  {
    f.(imageUri := None)
  }

  /** Whether "Delete Image" is enabled: `!imageUri.isNullOrEmpty()`. */
  function DeleteImageEnabled(f: RecipeFormData): (b: bool)
    ensures b <==> f.imageUri.Some? && |f.imageUri.value| > 0
  {
    !IsNullOrEmpty(f.imageUri)
  }

  /** The read-only type field: the selected type's name, `""` when none is selected. */
  function TypeFieldText(f: RecipeFormData): (text: string)
    ensures f.selectedType.Some? ==> text == f.selectedType.value.name
    ensures f.selectedType.None? ==> text == ""
  {
    f.selectedType.GetOr(RecipeType(0, "")).name
  }

  /** The save guard holds iff a type is selected and the name has a character that is not whitespace. */
  lemma FormValidMeansNamedAndTyped(f: RecipeFormData)
    ensures IsFormValid(f) <==> f.selectedType.Some? && exists i :: 0 <= i < |f.name| && !IsWhitespace(f.name[i])
    ensures IsFormValid(f) ==> |f.name| > 0
  {
  }

  /** The empty form is not savable: its name is blank and no type is selected. */
  lemma EmptyFormIsInvalid()
    ensures EmptyForm.imageUri.None? && EmptyForm.selectedType.None?
    ensures !IsFormValid(EmptyForm) && !DeleteImageEnabled(EmptyForm)
    ensures TypeFieldText(EmptyForm) == ""
  {
  }

  /** "Delete Image" disables itself, and picking a non-empty URI enables it. */
  lemma DeleteImageButtonFollowsImage(f: RecipeFormData, uri: string)
    ensures !DeleteImageEnabled(OnDeleteImage(f))
    ensures DeleteImageEnabled(OnImagePicked(f, Some(uri))) <==> |uri| > 0
    ensures DeleteImageEnabled(f) <==> f.imageUri.Some? && f.imageUri.value != ""
  {
  }

  /** The type field shows the name of the entry just chosen, and choosing a type satisfies half of the save guard. */
  lemma TypeChoiceShown(f: RecipeFormData, t: RecipeType)
    ensures TypeFieldText(OnTypeChosen(f, t)) == t.name
    ensures IsFormValid(OnTypeChosen(f, t)) <==> IsNotBlank(f.name)
  {
  }

  /**
   * Edits of different fields commute (every pair of the six handlers except
   * the two image handlers, which share a field), a later edit of a text
   * field overrides an earlier one, and the image, ingredients and steps
   * edits leave the save guard as it was.
   */
  lemma FieldEditsAreIndependent(f: RecipeFormData, name: string, ingredients: string, steps: string,
                                 t: RecipeType, u: Option<string>, a: string)
    ensures OnIngredientsChange(OnNameChange(f, name), ingredients) == OnNameChange(OnIngredientsChange(f, ingredients), name)
    ensures OnStepsChange(OnNameChange(f, name), steps) == OnNameChange(OnStepsChange(f, steps), name)
    ensures OnTypeChosen(OnNameChange(f, name), t) == OnNameChange(OnTypeChosen(f, t), name)
    ensures OnImagePicked(OnNameChange(f, name), u) == OnNameChange(OnImagePicked(f, u), name)
    ensures OnDeleteImage(OnNameChange(f, name)) == OnNameChange(OnDeleteImage(f), name)
    ensures OnStepsChange(OnIngredientsChange(f, ingredients), steps) == OnIngredientsChange(OnStepsChange(f, steps), ingredients)
    ensures OnTypeChosen(OnIngredientsChange(f, ingredients), t) == OnIngredientsChange(OnTypeChosen(f, t), ingredients)
    ensures OnImagePicked(OnIngredientsChange(f, ingredients), u) == OnIngredientsChange(OnImagePicked(f, u), ingredients)
    ensures OnDeleteImage(OnIngredientsChange(f, ingredients)) == OnIngredientsChange(OnDeleteImage(f), ingredients)
    ensures OnTypeChosen(OnStepsChange(f, steps), t) == OnStepsChange(OnTypeChosen(f, t), steps)
    ensures OnImagePicked(OnStepsChange(f, steps), u) == OnStepsChange(OnImagePicked(f, u), steps)
    ensures OnDeleteImage(OnStepsChange(f, steps)) == OnStepsChange(OnDeleteImage(f), steps)
    ensures OnImagePicked(OnTypeChosen(f, t), u) == OnTypeChosen(OnImagePicked(f, u), t)
    ensures OnDeleteImage(OnTypeChosen(f, t)) == OnTypeChosen(OnDeleteImage(f), t)
    ensures OnNameChange(OnNameChange(f, a), name) == OnNameChange(f, name)
    ensures OnIngredientsChange(OnIngredientsChange(f, a), ingredients) == OnIngredientsChange(f, ingredients)
    ensures OnStepsChange(OnStepsChange(f, a), steps) == OnStepsChange(f, steps)
    ensures IsFormValid(OnImagePicked(f, u)) == IsFormValid(f)
    ensures IsFormValid(OnDeleteImage(f)) == IsFormValid(f)
    ensures IsFormValid(OnIngredientsChange(f, ingredients)) == IsFormValid(f)
    ensures IsFormValid(OnStepsChange(f, steps)) == IsFormValid(f)
  {
  }
}
