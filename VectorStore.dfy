/**
  The vault page's in-memory store: a list of databases, each owning an
  ordered list of records, the selection and view state, and the search
  pipeline (score, filter, stable sort by descending score). The update
  lambdas handed to `setDatabases` are the pure functions here; the page's
  handlers are the methods of `VectorStore`, which replace its fields.

  The similarity score (cosine against the query's hashed vector) and
  `JSON.stringify` are supplied by the caller as functions.
 */
module Store {
  import opened JsText
  import opened Records

  // =====================================================================
  // Removing by id (`filter(x => x.id !== id)`)
  // =====================================================================

  /** The elements of `s` whose key is not `id`, in their order. */
  function Without<T(!new)>(s: seq<T>, key: T -> string, id: string): (r: seq<T>)
    ensures |r| <= |s|
    ensures forall x :: x in r <==> x in s && key(x) != id
    ensures forall k :: 0 <= k < |r| ==> key(r[k]) != id
  {
    if s == [] then []
    else (if key(s[0]) == id then [] else [s[0]]) + Without(s[1..], key, id)
  }

  /** Filtering distributes over concatenation, so the kept elements keep
      their relative order. */
  lemma {:induction false} WithoutConcat<T(!new)>(a: seq<T>, b: seq<T>, key: T -> string, id: string)
    ensures Without(a + b, key, id) == Without(a, key, id) + Without(b, key, id)
  {
    if a == [] {
      assert a + b == b;
    } else {
      var ab := a + b;
      assert ab[0] == a[0] && ab[1..] == a[1..] + b;
      WithoutConcat(a[1..], b, key, id);
    }
  }

  /** When no element has the key, nothing is removed. */
  lemma {:induction false} WithoutAbsent<T(!new)>(s: seq<T>, key: T -> string, id: string)
    requires forall k :: 0 <= k < |s| ==> key(s[k]) != id
    ensures Without(s, key, id) == s
  {
    if s != [] {
      WithoutAbsent(s[1..], key, id);
    }
  }

  function DatabaseId(db: Database): string { db.id }
  function RecordId(r: Record): string { r.id }

  // =====================================================================
  // Changing the selected database (`map(db => db.id === selected ? ... : db)`)
  // =====================================================================

  /** `handleAddRecord` / `handleProcessDocument`: every database whose id is
      `selected` gets `added` appended to its records. */
  function AppendToSelected(dbs: seq<Database>, selected: string, added: seq<Record>): (r: seq<Database>)
    ensures |r| == |dbs|
    ensures forall i :: 0 <= i < |dbs| && dbs[i].id != selected ==> r[i] == dbs[i]
    ensures forall i :: 0 <= i < |dbs| && dbs[i].id == selected ==>
      && r[i] == dbs[i].(records := r[i].records)
      && |r[i].records| == |dbs[i].records| + |added|
      && r[i].records[..|dbs[i].records|] == dbs[i].records
      && r[i].records[|dbs[i].records|..] == added
  {
    if dbs == [] then []
    else
      var db := dbs[0];
      var rest := AppendToSelected(dbs[1..], selected, added);
      var first := if db.id == selected then db.(records := db.records + added) else db;
      assert first.records[..|db.records|] == db.records;
      [first] + rest
  }

  /** The records after `handleUpdateRecord`: every record whose id is the
      edited record's id becomes `updated`. */
  function ReplaceRecords(records: seq<Record>, id: string, updated: Record): (r: seq<Record>)
    ensures |r| == |records|
    ensures forall k :: 0 <= k < |records| ==>
      r[k] == (if records[k].id == id then updated else records[k])
  {
    if records == [] then []
    else [if records[0].id == id then updated else records[0]] + ReplaceRecords(records[1..], id, updated)
  }

  /** `handleUpdateRecord`'s map over the databases. */
  function UpdateInSelected(dbs: seq<Database>, selected: string, id: string, updated: Record): (r: seq<Database>)
    ensures |r| == |dbs|
    ensures forall i :: 0 <= i < |dbs| ==> |r[i].records| == |dbs[i].records|
    ensures forall i :: 0 <= i < |dbs| && dbs[i].id != selected ==> r[i] == dbs[i]
    ensures forall i :: 0 <= i < |dbs| && dbs[i].id == selected ==>
      r[i] == dbs[i].(records := ReplaceRecords(dbs[i].records, id, updated))
  {
    if dbs == [] then []
    else
      var db := dbs[0];
      [if db.id == selected then db.(records := ReplaceRecords(db.records, id, updated)) else db]
      + UpdateInSelected(dbs[1..], selected, id, updated)
  }

  /** `handleDeleteRecord`'s map over the databases. */
  function DeleteInSelected(dbs: seq<Database>, selected: string, id: string): (r: seq<Database>)
    ensures |r| == |dbs|
    ensures forall i :: 0 <= i < |dbs| && dbs[i].id != selected ==> r[i] == dbs[i]
    ensures forall i :: 0 <= i < |dbs| && dbs[i].id == selected ==>
      r[i] == dbs[i].(records := Without(dbs[i].records, RecordId, id))
  {
    if dbs == [] then []
    else
      var db := dbs[0];
      [if db.id == selected then db.(records := Without(db.records, RecordId, id)) else db]
      + DeleteInSelected(dbs[1..], selected, id)
  }

  /** `databases.find(db => db.id === id)`. */
  function FindDatabase(dbs: seq<Database>, id: string): (r: Option<Database>)
    ensures r.None? <==> forall i :: 0 <= i < |dbs| ==> dbs[i].id != id
    ensures r.Some? ==> exists i :: 0 <= i < |dbs| && dbs[i] == r.value && dbs[i].id == id
                                   && forall j :: 0 <= j < i ==> dbs[j].id != id
  {
    if dbs == [] then None
    else if dbs[0].id == id then Some(dbs[0])
    else
      var r := FindDatabase(dbs[1..], id);
      if r.Some? then
        ghost var i :| 0 <= i < |dbs[1..]| && dbs[1..][i] == r.value && dbs[1..][i].id == id
                       && forall j :: 0 <= j < i ==> dbs[1..][j].id != id;
        assert dbs[i + 1] == r.value;
        r
      else r
  }

  // =====================================================================
  // Vector lengths: the store never checks them
  // =====================================================================

  lemma AppendKeepsFit(dbs: seq<Database>, selected: string, added: seq<Record>)
    requires AllFit(dbs)
    requires forall i :: 0 <= i < |dbs| && dbs[i].id == selected ==>
      forall k :: 0 <= k < |added| ==> |added[k].vector| == dbs[i].dimensions
    ensures AllFit(AppendToSelected(dbs, selected, added))
  {
    var r := AppendToSelected(dbs, selected, added);
    forall i | 0 <= i < |r| ensures VectorsFit(r[i]) {
      if dbs[i].id == selected {
        var old_ := dbs[i].records;
        forall x | x in r[i].records ensures |x.vector| == r[i].dimensions {
          var k :| 0 <= k < |r[i].records| && r[i].records[k] == x;
          if k < |old_| {
            assert r[i].records[..|old_|][k] == x;
          } else {
            assert r[i].records[|old_|..][k - |old_|] == x;
          }
        }
      }
    }
  }

  lemma UpdateKeepsFit(dbs: seq<Database>, selected: string, id: string, updated: Record)
    requires AllFit(dbs)
    requires forall i :: 0 <= i < |dbs| && dbs[i].id == selected ==> |updated.vector| == dbs[i].dimensions
    ensures AllFit(UpdateInSelected(dbs, selected, id, updated))
  {
    var r := UpdateInSelected(dbs, selected, id, updated);
    forall i | 0 <= i < |r| ensures VectorsFit(r[i]) {
      if dbs[i].id == selected {
        var rs := ReplaceRecords(dbs[i].records, id, updated);
        forall x | x in rs ensures |x.vector| == dbs[i].dimensions {
          var k :| 0 <= k < |rs| && rs[k] == x;
          assert dbs[i].records[k] in dbs[i].records;
        }
      }
    }
  }

  lemma DeleteKeepsFit(dbs: seq<Database>, selected: string, id: string)
    requires AllFit(dbs)
    ensures AllFit(DeleteInSelected(dbs, selected, id))
  {
  }

  /** Nothing stronger holds: appending a record of the wrong length to a
      database whose vectors all fit is accepted and breaks the rule. */
  lemma AppendCanBreakFit()
    ensures var db := Database("1", "d", "", 2, []);
      var r := AppendToSelected([db], "1", [Record("1", "x", JNull, [1.0])]);
      AllFit([db]) && !AllFit(r)
  {
    var db := Database("1", "d", "", 2, []);
    var r := AppendToSelected([db], "1", [Record("1", "x", JNull, [1.0])]);
    assert r[0].records[0] == Record("1", "x", JNull, [1.0]);
    assert r[0].records[0] in r[0].records;
  }

  // =====================================================================
  // Search: score, filter, stable descending sort
  // =====================================================================

  /** `{ ...record, similarity }`. */
  datatype ScoredRecord = ScoredRecord(record: Record, similarity: real)

  /** The score of a vector against the query; the source computes the
      cosine with a vector hashed from the query text and the database's
      dimensions. */
  type Score = (string, int, Vector) -> real

  function Scored(records: seq<Record>, query: string, dimensions: int, score: Score): (r: seq<ScoredRecord>)
    ensures |r| == |records|
    ensures forall k :: 0 <= k < |r| ==>
      r[k].record == records[k] && r[k].similarity == score(query, dimensions, records[k].vector)
  {
    if records == [] then []
    else [ScoredRecord(records[0], score(query, dimensions, records[0].vector))]
         + Scored(records[1..], query, dimensions, score)
  }

  /** The filter: a score above `0.1`, or the lowered query inside the
      lowered content or the lowered serialised metadata. */
  predicate Passes(x: ScoredRecord, query: string, stringify: Json -> string) {
    || x.similarity > 0.1
    || Contains(Lower(x.record.content), Lower(query))
    || Contains(Lower(stringify(x.record.metadata)), Lower(query))
  }

  function Passing(s: seq<ScoredRecord>, query: string, stringify: Json -> string): (r: seq<ScoredRecord>)
    ensures forall x :: x in r <==> x in s && Passes(x, query, stringify)
    ensures forall x :: multiset(r)[x] == if Passes(x, query, stringify) then multiset(s)[x] else 0
  {
    if s == [] then []
    else
      assert s == [s[0]] + s[1..];
      (if Passes(s[0], query, stringify) then [s[0]] else []) + Passing(s[1..], query, stringify)
  }

  /** The filter distributes over concatenation, so the entries it keeps
      stay in their order. */
  lemma {:induction false} PassingConcat(a: seq<ScoredRecord>, b: seq<ScoredRecord>,
                                         query: string, stringify: Json -> string)
    ensures Passing(a + b, query, stringify) == Passing(a, query, stringify) + Passing(b, query, stringify)
  {
    if a == [] {
      assert a + b == b;
    } else {
      var ab := a + b;
      assert ab[0] == a[0] && ab[1..] == a[1..] + b;
      PassingConcat(a[1..], b, query, stringify);
    }
  }

  /** Non-increasing by score. */
  predicate SortedByScore(s: seq<ScoredRecord>) {
    forall i, j :: 0 <= i < j < |s| ==> s[i].similarity >= s[j].similarity
  }

  /** The elements of `s` with score `v`, in their order: stability says
      sorting leaves this unchanged for every `v`. */
  function WithScore(s: seq<ScoredRecord>, v: real): seq<ScoredRecord> {
    if s == [] then []
    else (if s[0].similarity == v then [s[0]] else []) + WithScore(s[1..], v)
  }

  /** Insert `x` before the first element it is not below. */
  function Insert(x: ScoredRecord, s: seq<ScoredRecord>): (r: seq<ScoredRecord>)
    ensures multiset(r) == multiset(s) + multiset{x}
    ensures |r| == |s| + 1
  {
    if s == [] then [x]
    else if x.similarity >= s[0].similarity then [x] + s
    else
      assert s == [s[0]] + s[1..];
      [s[0]] + Insert(x, s[1..])
  }

  /** `sort((a, b) => b.similarity - a.similarity)`; ECMAScript's sort is
      stable, and so is this insertion sort. */
  function SortByScore(s: seq<ScoredRecord>): (r: seq<ScoredRecord>)
    ensures multiset(r) == multiset(s)
  {
    if s == [] then []
    else
      assert s == [s[0]] + s[1..];
      Insert(s[0], SortByScore(s[1..]))
  }

  lemma {:induction false} InsertSorted(x: ScoredRecord, s: seq<ScoredRecord>)
    requires SortedByScore(s)
    ensures SortedByScore(Insert(x, s))
  {
    if s != [] && x.similarity < s[0].similarity {
      InsertSorted(x, s[1..]);
      var t := Insert(x, s[1..]);
      var r := [s[0]] + t;
      forall j | 0 <= j < |t| ensures s[0].similarity >= t[j].similarity {
        assert t[j] in multiset(t);
        if t[j] == x {
        } else {
          assert t[j] in multiset(s[1..]);
          var k :| 0 <= k < |s[1..]| && s[1..][k] == t[j];
          assert s[k + 1] == t[j];
        }
      }
      forall i, j | 0 <= i < j < |r| ensures r[i].similarity >= r[j].similarity {
        if i > 0 { assert r[i] == t[i - 1] && r[j] == t[j - 1]; }
        else { assert r[j] == t[j - 1]; }
      }
    }
  }

  lemma {:induction false} SortSorted(s: seq<ScoredRecord>)
    ensures SortedByScore(SortByScore(s))
  {
    if s != [] {
      SortSorted(s[1..]);
      InsertSorted(s[0], SortByScore(s[1..]));
    }
  }

  lemma {:induction false} WithScoreConcat(a: seq<ScoredRecord>, b: seq<ScoredRecord>, v: real)
    ensures WithScore(a + b, v) == WithScore(a, v) + WithScore(b, v)
  {
    if a != [] {
      WithScoreConcat(a[1..], b, v);
      assert (a + b)[1..] == a[1..] + b;
    } else {
      assert a + b == b;
    }
  }

  lemma WithScoreOne(x: ScoredRecord, v: real)
    ensures WithScore([x], v) == if x.similarity == v then [x] else []
  {
    assert [x][1..] == [];
  }

  /** Inserting `x` puts it ahead of every element of its own score. */
  lemma {:induction false} InsertStable(x: ScoredRecord, s: seq<ScoredRecord>, v: real)
    ensures WithScore(Insert(x, s), v) == WithScore([x], v) + WithScore(s, v)
  {
    if s == [] {
      WithScoreOne(x, v);
    } else if x.similarity >= s[0].similarity {
      WithScoreConcat([x], s, v);
    } else {
      var rest := Insert(x, s[1..]);
      assert Insert(x, s) == [s[0]] + rest;
      assert s == [s[0]] + s[1..];
      InsertStable(x, s[1..], v);
      WithScoreConcat([s[0]], rest, v);
      WithScoreConcat([s[0]], s[1..], v);
      WithScoreOne(x, v);
      WithScoreOne(s[0], v);
      var tail := WithScore(s[1..], v);
      var head := WithScore([s[0]], v);
      // `x` is strictly below `s[0]`, so at most one of the two has score `v`.
      if x.similarity == v {
        assert head == [];
        assert WithScore(rest, v) == [x] + tail;
        assert WithScore(s, v) == tail by { assert [] + tail == tail; }
        assert WithScore(Insert(x, s), v) == [x] + tail by { assert [] + ([x] + tail) == [x] + tail; }
      } else {
        assert WithScore([x], v) == [];
        assert WithScore(rest, v) == tail by { assert [] + tail == tail; }
        assert WithScore(Insert(x, s), v) == head + tail;
        assert WithScore(s, v) == head + tail;
        assert [] + (head + tail) == head + tail;
      }
    }
  }

  /** The sort is stable: for every score, the elements with that score
      come out in the order they went in. */
  lemma {:induction false} SortStable(s: seq<ScoredRecord>, v: real)
    ensures WithScore(SortByScore(s), v) == WithScore(s, v)
  {
    if s != [] {
      SortStable(s[1..], v);
      InsertStable(s[0], SortByScore(s[1..]), v);
      WithScoreConcat([s[0]], s[1..], v);
      assert s == [s[0]] + s[1..];
    }
  }

  /** The results of a search over the records of the current database. */
  function SearchResults(records: seq<Record>, query: string, dimensions: int,
                         score: Score, stringify: Json -> string): seq<ScoredRecord>
  {
    SortByScore(Passing(Scored(records, query, dimensions, score), query, stringify))
  }

  /** The results are exactly the passing scored records (with their
      multiplicities), each carrying its score, sorted by non-increasing
      score, with equal scores in record order. */
  lemma SearchResultsSpec(records: seq<Record>, query: string, dimensions: int,
                          score: Score, stringify: Json -> string)
    ensures var scored := Scored(records, query, dimensions, score);
      var passing := Passing(scored, query, stringify);
      var r := SearchResults(records, query, dimensions, score, stringify);
      && multiset(r) == multiset(passing)
      && (forall x :: multiset(r)[x] == if Passes(x, query, stringify) then multiset(scored)[x] else 0)
      && (forall x :: x in r <==> x in scored && Passes(x, query, stringify))
      && (forall x :: x in r ==> x.similarity == score(query, dimensions, x.record.vector)
                                 && x.record in records)
      && SortedByScore(r)
      && (forall v :: WithScore(r, v) == WithScore(passing, v))
  {
    var scored := Scored(records, query, dimensions, score);
    var passing := Passing(scored, query, stringify);
    var r := SearchResults(records, query, dimensions, score, stringify);
    SortSorted(passing);
    forall v ensures WithScore(r, v) == WithScore(passing, v) {
      SortStable(passing, v);
    }
    forall x | x in r ensures x.similarity == score(query, dimensions, x.record.vector) && x.record in records {
      assert x in multiset(passing);
      var k :| 0 <= k < |scored| && scored[k] == x;
    }
    forall x ensures x in r <==> x in scored && Passes(x, query, stringify) {
      assert x in r <==> x in multiset(passing);
    }
  }

  /** A record whose content contains the query verbatim is always found. */
  lemma ExactQueryFound(records: seq<Record>, k: nat, query: string, dimensions: int,
                        score: Score, stringify: Json -> string)
    requires k < |records| && Contains(records[k].content, query)
    ensures exists x :: x in SearchResults(records, query, dimensions, score, stringify)
                        && x.record == records[k]
  {
    var scored := Scored(records, query, dimensions, score);
    ContainsLower(records[k].content, query);
    assert Passes(scored[k], query, stringify);
    SearchResultsSpec(records, query, dimensions, score, stringify);
    assert scored[k] in scored;
  }

  // =====================================================================
  // The page state and its handlers
  // =====================================================================

  /** JavaScript truthiness of the selection: set and not `""`. */
  predicate HasSelection(selected: Option<string>) {
    selected.Some? && selected.value != ""
  }

  /** `getCurrentDatabase`: `find(db => db.id === selectedDatabase)`, which
      never matches while the selection is `undefined`. */
  function CurrentIn(dbs: seq<Database>, selected: Option<string>): (r: Option<Database>)
    ensures selected.None? ==> r.None?
    ensures selected.Some? ==> r == FindDatabase(dbs, selected.value)
  {
    if selected.None? then None else FindDatabase(dbs, selected.value)
  }

  /** `currentDatabase?.dimensions || 384`: a missing database and `0`
      dimensions both fall back to `384`. */
  function DialogDimensions(current: Option<Database>): (d: int)
    ensures current.Some? && current.value.dimensions != 0 ==> d == current.value.dimensions
    ensures current.None? || current.value.dimensions == 0 ==> d == 384
  {
    if current.Some? && current.value.dimensions != 0 then current.value.dimensions else 384
  }

  /** What `handleSearch` does to `searchResults`: `None` leaves them as
      they were (the selected database no longer exists). */
  function SearchOutcome(dbs: seq<Database>, selected: Option<string>, query: string,
                         score: Score, stringify: Json -> string): (r: Option<seq<ScoredRecord>>)
    ensures Blank(query) || !HasSelection(selected) ==> r == Some([])
    ensures !Blank(query) && HasSelection(selected) ==>
      (r.None? <==> CurrentIn(dbs, selected).None?)
    ensures !Blank(query) && HasSelection(selected) && r.Some? ==>
      var db := CurrentIn(dbs, selected).value;
      r.value == SearchResults(db.records, query, db.dimensions, score, stringify)
  {
    if Blank(query) || !HasSelection(selected) then Some([])
    else
      match CurrentIn(dbs, selected)
      case None => None
      case Some(db) => Some(SearchResults(db.records, query, db.dimensions, score, stringify))
  }

  /** The steps of `handleSearch`: an empty result for a blank query or no
      selection, nothing when the selected database is gone, and otherwise
      the search over its records. It computes `SearchOutcome`. */
  method RunSearch(dbs: seq<Database>, selected: Option<string>, query: string,
                   score: Score, stringify: Json -> string) returns (outcome: Option<seq<ScoredRecord>>)
    ensures outcome == SearchOutcome(dbs, selected, query, score, stringify)
  {
    TrimEmptyBlank(query);
    if Trim(query) == [] || !HasSelection(selected) {
      return Some([]);
    }
    var current := CurrentIn(dbs, selected);
    if current.None? {
      return None;
    }
    var db := current.value;
    outcome := Some(SearchResults(db.records, query, db.dimensions, score, stringify));
  }

  /** The two seeded records' vectors: 384 draws for each. */
  function SeedVector(draw: (nat, nat) -> real, record: nat): (v: Vector)
    ensures |v| == 384
  {
    seq(384, i requires 0 <= i < 384 => draw(record, i))
  }

  function SeedDatabase(draw: (nat, nat) -> real): (db: Database)
    ensures db.dimensions == 384 && |db.records| == 2 && VectorsFit(db)
  {
    Database("1", "Product Embeddings", "Vector embeddings for product search and recommendations", 384, [
      Record("1", "Wireless Bluetooth headphones with noise cancellation",
             JObject([("category", JString("electronics")), ("price", JNumber(199.99)), ("brand", JString("TechCorp"))]),
             SeedVector(draw, 0)),
      Record("2", "Organic cotton t-shirt in navy blue",
             JObject([("category", JString("clothing")), ("price", JNumber(29.99)), ("brand", JString("EcoWear"))]),
             SeedVector(draw, 1))])
  }

  class VectorStore {
    var databases: seq<Database>
    var activeView: string
    var selectedDatabase: Option<string>
    var editRecord: Option<Record>
    var searchQuery: string
    var searchResults: seq<ScoredRecord>

    /** The initial state: one seeded database, the dashboard, nothing
        selected or being edited, no search. */
    constructor (draw: (nat, nat) -> real)
      ensures databases == [SeedDatabase(draw)] && AllFit(databases)
      ensures activeView == "dashboard" && selectedDatabase.None? && editRecord.None?
      ensures searchQuery == "" && searchResults == []
    {
      databases := [SeedDatabase(draw)];
      activeView := "dashboard";
      selectedDatabase := None;
      editRecord := None;
      searchQuery := "";
      searchResults := [];
    }

    function CurrentDatabase(): Option<Database>
      reads this
    {
      CurrentIn(databases, selectedDatabase)
    }

    /** `handleCreateDatabase`, with the id `Date.now()` would give. */
    method CreateDatabase(id: string, name: string, description: string, dimensions: int)
      modifies this
      ensures databases == old(databases) + [Database(id, name, description, dimensions, [])]
      ensures activeView == old(activeView) && selectedDatabase == old(selectedDatabase)
      ensures editRecord == old(editRecord) && searchQuery == old(searchQuery)
      ensures searchResults == old(searchResults)
      ensures AllFit(old(databases)) ==> AllFit(databases)
    {
      databases := databases + [Database(id, name, description, dimensions, [])];
    }

    /** `handleDeleteDatabase`. */
    method DeleteDatabase(id: string)
      modifies this
      ensures databases == Without(old(databases), DatabaseId, id)
      ensures old(selectedDatabase) == Some(id) ==> selectedDatabase.None? && activeView == "dashboard"
      ensures old(selectedDatabase) != Some(id) ==>
        selectedDatabase == old(selectedDatabase) && activeView == old(activeView)
      ensures editRecord == old(editRecord) && searchQuery == old(searchQuery)
      ensures searchResults == old(searchResults)
      ensures AllFit(old(databases)) ==> AllFit(databases)
    {
      databases := Without(databases, DatabaseId, id);
      if selectedDatabase == Some(id) {
        selectedDatabase := None;
        activeView := "dashboard";
      }
    }

    /** `handleSelectDatabase`. */
    method SelectDatabase(id: string)
      modifies this
      ensures selectedDatabase == Some(id) && activeView == "database"
      ensures databases == old(databases) && editRecord == old(editRecord)
      ensures searchQuery == old(searchQuery) && searchResults == old(searchResults)
    {
      selectedDatabase := Some(id);
      activeView := "database";
    }

    /** `handleAddRecord`, with the id `Date.now()` would give. */
    method AddRecord(id: string, data: RecordInput)
      modifies this
      ensures !HasSelection(old(selectedDatabase)) ==> databases == old(databases)
      ensures HasSelection(old(selectedDatabase)) ==>
        databases == AppendToSelected(old(databases), old(selectedDatabase).value,
                                      [Record(id, data.content, data.metadata, data.vector)])
      ensures activeView == old(activeView) && selectedDatabase == old(selectedDatabase)
      ensures editRecord == old(editRecord) && searchQuery == old(searchQuery)
      ensures searchResults == old(searchResults)
    {
      if !HasSelection(selectedDatabase) {
        return;
      }
      var newRecord := Record(id, data.content, data.metadata, data.vector);
      databases := AppendToSelected(databases, selectedDatabase.value, [newRecord]);
    }

    /** `handleProcessDocument`: the assembled chunk records, in order. */
    method ProcessDocument(chunks: seq<Record>)
      modifies this
      ensures !HasSelection(old(selectedDatabase)) ==> databases == old(databases)
      ensures HasSelection(old(selectedDatabase)) ==>
        databases == AppendToSelected(old(databases), old(selectedDatabase).value, chunks)
      ensures activeView == old(activeView) && selectedDatabase == old(selectedDatabase)
      ensures editRecord == old(editRecord) && searchQuery == old(searchQuery)
      ensures searchResults == old(searchResults)
    {
      if !HasSelection(selectedDatabase) {
        return;
      }
      databases := AppendToSelected(databases, selectedDatabase.value, chunks);
    }

    /** `handleEditRecord`: remember the record the dialog edits. */
    method EditRecord(record: Record)
      modifies this
      ensures editRecord == Some(record)
      ensures databases == old(databases) && activeView == old(activeView)
      ensures selectedDatabase == old(selectedDatabase) && searchQuery == old(searchQuery)
      ensures searchResults == old(searchResults)
    {
      editRecord := Some(record);
    }

    /** The record dialog's `onClose`. */
    method CloseRecordDialog()
      modifies this
      ensures editRecord.None?
      ensures databases == old(databases) && activeView == old(activeView)
      ensures selectedDatabase == old(selectedDatabase) && searchQuery == old(searchQuery)
      ensures searchResults == old(searchResults)
    {
      editRecord := None;
    }

    /** `handleUpdateRecord`: `{ ...editRecord, content, metadata, vector }`
        replaces every record with the edited record's id. */
    method UpdateRecord(data: RecordInput)
      modifies this
      ensures !HasSelection(old(selectedDatabase)) || old(editRecord).None? ==>
        databases == old(databases) && editRecord == old(editRecord)
      ensures HasSelection(old(selectedDatabase)) && old(editRecord).Some? ==>
        var e := old(editRecord).value;
        && databases == UpdateInSelected(old(databases), old(selectedDatabase).value, e.id,
                                         e.(content := data.content, metadata := data.metadata,
                                            vector := data.vector))
        && editRecord.None?
      ensures activeView == old(activeView) && selectedDatabase == old(selectedDatabase)
      ensures searchQuery == old(searchQuery) && searchResults == old(searchResults)
    {
      if !HasSelection(selectedDatabase) || editRecord.None? {
        return;
      }
      var e := editRecord.value;
      var updatedRecord := e.(content := data.content, metadata := data.metadata, vector := data.vector);
      databases := UpdateInSelected(databases, selectedDatabase.value, e.id, updatedRecord);
      editRecord := None;
    }

    /** The record dialog's `onSubmit`: update while a record is being
        edited, add otherwise. */
    method SubmitRecord(id: string, data: RecordInput)
      modifies this
      ensures old(editRecord).Some? && HasSelection(old(selectedDatabase)) ==>
        databases == UpdateInSelected(old(databases), old(selectedDatabase).value, old(editRecord).value.id,
                                      old(editRecord).value.(content := data.content, metadata := data.metadata,
                                                             vector := data.vector))
      ensures old(editRecord).None? && HasSelection(old(selectedDatabase)) ==>
        databases == AppendToSelected(old(databases), old(selectedDatabase).value,
                                      [Record(id, data.content, data.metadata, data.vector)])
      ensures !HasSelection(old(selectedDatabase)) ==> databases == old(databases)
      ensures editRecord == (if old(editRecord).Some? && HasSelection(old(selectedDatabase)) then None
                             else old(editRecord))
      ensures activeView == old(activeView) && selectedDatabase == old(selectedDatabase)
      ensures searchQuery == old(searchQuery) && searchResults == old(searchResults)
    {
      if editRecord.Some? {
        UpdateRecord(data);
      } else {
        AddRecord(id, data);
      }
    }

    /** `handleDeleteRecord`. */
    method DeleteRecord(recordId: string)
      modifies this
      ensures !HasSelection(old(selectedDatabase)) ==> databases == old(databases)
      ensures HasSelection(old(selectedDatabase)) ==>
        databases == DeleteInSelected(old(databases), old(selectedDatabase).value, recordId)
      ensures activeView == old(activeView) && selectedDatabase == old(selectedDatabase)
      ensures editRecord == old(editRecord) && searchQuery == old(searchQuery)
      ensures searchResults == old(searchResults)
      ensures AllFit(old(databases)) ==> AllFit(databases)
    {
      if !HasSelection(selectedDatabase) {
        return;
      }
      if AllFit(databases) {
        DeleteKeepsFit(databases, selectedDatabase.value, recordId);
      }
      databases := DeleteInSelected(databases, selectedDatabase.value, recordId);
    }

    /** `handleSearch`. */
    method Search(query: string, score: Score, stringify: Json -> string)
      modifies this
      ensures searchQuery == query
      ensures var outcome := SearchOutcome(old(databases), old(selectedDatabase), query, score, stringify);
        searchResults == (if outcome.Some? then outcome.value else old(searchResults))
      ensures databases == old(databases) && activeView == old(activeView)
      ensures selectedDatabase == old(selectedDatabase) && editRecord == old(editRecord)
    {
      searchQuery := query;
      var outcome := RunSearch(databases, selectedDatabase, query, score, stringify);
      if outcome.Some? {
        searchResults := outcome.value;
      }
    }
  }
}
