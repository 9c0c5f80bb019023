/**
 * The backend model of the secret configuration fields: the form shows a saved
 * secret masked as six asterisks, and saving the form with the mask unchanged
 * keeps the stored secret instead of storing the mask.
 */
module PreserveValue {
  import opened Wrappers

  const Mask: string := "******"

  /** The value kept: the old value when the submitted one is exactly the mask, else the submitted one. */
  function Preserved(submitted: Option<string>, oldValue: Option<string>): (r: Option<string>)
    ensures submitted == Some(Mask) ==> r == oldValue
    ensures submitted != Some(Mask) ==> r == submitted
  {
    if submitted == Some(Mask) then oldValue else submitted
  }

  /**
   * Keeping is idempotent for every submitted and stored value, and only the
   * exact six-asterisk text is replaced: five or seven asterisks are kept as typed.
   */
  lemma PreservedIdempotent(submitted: Option<string>, oldValue: Option<string>)
    ensures Preserved(Preserved(submitted, oldValue), oldValue) == Preserved(submitted, oldValue)
    ensures Preserved(Some("*****"), oldValue) == Some("*****")
    ensures Preserved(Some("*******"), oldValue) == Some("*******")
  {
    assert |"*****"| != |Mask| && |"*******"| != |Mask|;
  }

  /** A configuration value being saved: the submitted value and the one stored before. */
  class ConfigValue {
    var value: Option<string>
    const oldValue: Option<string>
    /** How many times the parent `beforeSave` has run. */
    var parentSaves: nat

    constructor (value: Option<string>, oldValue: Option<string>)
      ensures this.value == value && this.oldValue == oldValue && parentSaves == 0
    {
      this.value := value;
      this.oldValue := oldValue;
      parentSaves := 0;
    }

    /** `beforeSave`: puts back the old value over the mask, then always runs the parent's. */
    method BeforeSave()
      modifies this`value, this`parentSaves
      ensures value == Preserved(old(value), oldValue)
      ensures parentSaves == old(parentSaves) + 1
    {
      if value == Some(Mask) {
        value := oldValue;
      }
      parentSaves := parentSaves + 1;
    }
  }
}
