/**
 * `CustomerContactsCheckValidator.isValid`: a customer must give an e-mail
 * address or a phone number; a null or empty string counts as missing.
 */
module CustomerContactsCheck {
  import opened Wrappers

  /** The customer fields the check reads, and the name, which it does not. */
  datatype Customer = Customer(name: string, email: Option<string>, phone: Option<string>)

  /** A nullable string holding at least one character. */
  predicate Given(s: Option<string>) {
    s.Some? && |s.value| != 0
  }

  function IsValid(customer: Option<Customer>): bool {
    if customer.None? then false
    else !(!Given(customer.value.email) && !Given(customer.value.phone))
  }

  /** A null customer is invalid. */
  lemma NullCustomerInvalid()
    ensures !IsValid(None)
  {
  }

  /** A customer is valid exactly when a non-empty e-mail or a non-empty phone is given. */
  lemma ValidIffContact(c: Customer)
    ensures IsValid(Some(c)) <==>
              (c.email.Some? && c.email.value != "") || (c.phone.Some? && c.phone.value != "")
  {
  }

  /** A null field and an empty field are indistinguishable to the check. */
  lemma NullSameAsEmpty(c: Customer)
    ensures IsValid(Some(c.(email := None))) == IsValid(Some(c.(email := Some(""))))
    ensures IsValid(Some(c.(phone := None))) == IsValid(Some(c.(phone := Some(""))))
  {
  }

  /** Only the e-mail and the phone decide the outcome. */
  lemma DependsOnlyOnContacts(c: Customer, d: Customer)
    requires Given(c.email) == Given(d.email) && Given(c.phone) == Given(d.phone)
    ensures IsValid(Some(c)) == IsValid(Some(d))
  {
  }

  /** Filling in a missing field never makes a valid customer invalid. */
  lemma AddingContactKeepsValid(c: Customer, email: string, phone: string)
    requires IsValid(Some(c))
    ensures IsValid(Some(c.(email := Some(email)))) || email == ""
    ensures IsValid(Some(c.(phone := Some(phone)))) || phone == ""
  {
  }
}
