/** Domain names as text. */
module DomainNames {

  /** The domain itself or a name below it. */
  predicate IsUnder(name: string, domain: string) {
    name == domain || (|name| > |domain| && name[|name| - |domain| - 1..] == "." + domain)
  }
}
