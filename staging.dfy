/**
 * What the three list steps of the wizard share: an entry staged by "add",
 * held under a local id until the save hands its fields to the store.
 */
module Staging {
  /** A staged entry: the form's fields under a local id. */
  datatype Pending<F> = Pending(id: string, fields: F)

  function PendingId<F>(p: Pending<F>): string { p.id }

  /** The fields of the staged entries, in order: what the save hands to the store. */
  function PendingFields<F>(ps: seq<Pending<F>>): seq<F> {
    seq(|ps|, i requires 0 <= i < |ps| => ps[i].fields)
  }
}
