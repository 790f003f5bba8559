/** Document ids, Mongoose lookups and the scratch slots the model objects keep. */
module Ids {

  datatype Option<+T> = None | Some(value: T)

  /** JavaScript truthiness of a string-valued property: `undefined` and `''` are falsy. */
  predicate Truthy(s: Option<string>) {
    s.Some? && s.value != ""
  }

  /** An id as a caller hands it over: text that does not cast to an ObjectId, or a well-formed
      ObjectId, represented by its key in the ledger. */
  datatype Id = Malformed(text: string) | WellFormed(key: nat)

  /** A persisted document: its `_id` and its fields. */
  datatype Doc<T> = Doc(id: nat, value: T)

  /** How `Model.findById(id)` settles: it rejects with a CastError, or it resolves
      with the document, or it resolves with `null`. */
  datatype Lookup<T> = CastFailed | Found(doc: Doc<T>) | Null

  function FindById<T>(m: map<nat, T>, id: Id): (r: Lookup<T>)
    ensures r.CastFailed? <==> id.Malformed?
    ensures r.Found? <==> id.WellFormed? && id.key in m
    ensures r.Found? ==> r.doc == Doc(id.key, m[id.key])
  {
    match id
    case Malformed(_) => CastFailed
    case WellFormed(k) => if k in m then Found(Doc(k, m[k])) else Null
  }

  /** `findById` on an ObjectId stored in another document; an unset one (`undefined`) finds `null`. */
  function FindByRef<T>(m: map<nat, T>, ref: Option<nat>): (r: Lookup<T>)
    ensures r.Found? <==> ref.Some? && ref.value in m
    ensures r.Found? ==> r.doc == Doc(ref.value, m[ref.value])
    ensures !r.CastFailed?
  {
    match ref
    case None => Null
    case Some(k) => FindById(m, WellFormed(k))
  }

  /** The value of a scratch field such as `this.tempOrder`: never assigned, `null`, or a document. */
  datatype Slot<T> = Undefined | Empty | Held(doc: Doc<T>)
}
