/**
 * The editor screens' `ValidationErrors` collection: `postValidate` appends
 * to it, either a screen-level error or one attached to a field.
 */
module Gui {

  /** Where an error is shown: on the whole screen or on one named field. */
  datatype Target = Screen | Field(name: string)

  datatype ValidationError<M> = ValidationError(target: Target, message: M)

  class ValidationErrors<M> {
    var entries: seq<ValidationError<M>>

    constructor ()
      ensures entries == []
    {
      entries := [];
    }

    /** `errors.add(message)`: a screen-level error. */
    method Add(message: M)
      modifies this
      ensures entries == old(entries) + [ValidationError(Screen, message)]
    {
      entries := entries + [ValidationError(Screen, message)];
    }

    /** `errors.add(component, message)`: an error attached to a field. */
    method AddFor(field: string, message: M)
      modifies this
      ensures entries == old(entries) + [ValidationError(Field(field), message)]
    {
      entries := entries + [ValidationError(Field(field), message)];
    }
  }
}
