/**
 * Types shared by the catalog store and the favorites store: the optional
 * value used for nullable fields and payloads, and the product record
 * returned by the listing service.
 */
module Common {

  /** A nullable value (`string | null`, an optional argument). */
  datatype Option<T> = None | Some(value: T) {
    /** JavaScript's `x ?? d`: the value when present, otherwise `d`. */
    function GetOr(d: T): T {
      match this
      case Some(v) => v
      case None => d
    }
  }

  /**
   * A catalog entry. Identity is the numeric `id`; the other fields are a
   * snapshot that two fetches of the same id may disagree on. The optional
   * presentation fields (category, brand, rating, stock, discount, gallery)
   * are not read by either store and are left out.
   */
  datatype Product = Product(id: int, title: string, description: string, price: real, thumbnail: string)

  /** No two products of `items` share an id. */
  predicate DistinctIds(items: seq<Product>) {
    forall i, j :: 0 <= i < j < |items| ==> items[i].id != items[j].id
  }

  /** The ids present in `items` (the `new Set(items.map(p => p.id))` of the source). */
  function IdsOf(items: seq<Product>): set<int> {
    set p | p in items :: p.id
  }
}
