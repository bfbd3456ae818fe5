/**
  The vault's shared data shapes: a JSON-like metadata value, a record
  (content, metadata and vector), the payload a record dialog hands to the
  store, and a database owning an ordered list of records.
 */
module Records {

  /** A parsed JSON value. Object members keep their insertion order. */
  datatype Json =
    | JNull
    | JBool(b: bool)
    | JNumber(n: real)
    | JString(s: string)
    | JArray(items: seq<Json>)
    | JObject(members: seq<(string, Json)>)

  /** Vector entries are JavaScript numbers; they are modelled as reals. */
  type Vector = seq<real>

  datatype Record = Record(id: string, content: string, metadata: Json, vector: Vector)

  /** The `{ content, metadata, vector }` object a record dialog submits. */
  datatype RecordInput = RecordInput(content: string, metadata: Json, vector: Vector)

  datatype Database = Database(
    id: string,
    name: string,
    description: string,
    dimensions: int,
    records: seq<Record>)

  /** The length rule a database's `dimensions` stands for. Nothing in the
      store enforces it; the record dialog is the only place that checks. */
  predicate VectorsFit(db: Database) {
    forall r :: r in db.records ==> |r.vector| == db.dimensions
  }

  predicate AllFit(dbs: seq<Database>) {
    forall i :: 0 <= i < |dbs| ==> VectorsFit(dbs[i])
  }
}
