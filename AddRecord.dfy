/**
  The record dialog's submit handler: the one place where a vector's
  length is checked against the database's `dimensions`.

  `JSON.parse` is a parameter returning `None` where it would throw,
  `parseFloat` is a parameter, and the random entries of a default vector
  come from `draw`.
 */
module RecordDialog {
  import opened JsText
  import opened Records
  import opened Store

  /** What a submit attempt ends in. The two rejections raise an alert. */
  datatype Submission =
    | NothingSubmitted
    | MetadataRejected
    | DimensionsRejected
    | Submitted(data: RecordInput)

  /** `vectorInput.split(",").map(v => parseFloat(v.trim()))`: one entry per
      comma-separated field, that is one more than the number of commas. */
  function ParseVector(vectorInput: string, parseNumber: string -> real): (v: Vector)
    ensures |v| == Count(vectorInput, ',') + 1
    ensures forall i :: 0 <= i < |v| ==> v[i] == parseNumber(Trim(SplitOn(vectorInput, ',')[i]))
  {
    var fields := SplitOn(vectorInput, ',');
    seq(|fields|, i requires 0 <= i < |fields| => parseNumber(Trim(fields[i])))
  }

  /** `Array.from({ length: dimensions }, ...)`: a negative length gives no
      entries. */
  function DefaultVector(dimensions: int, draw: nat -> real): (v: Vector)
    ensures |v| == Max(dimensions, 0)
    ensures forall i :: 0 <= i < |v| ==> v[i] == draw(i)
  {
    seq(Max(dimensions, 0), i requires 0 <= i => draw(i))
  }

  /** The decision `handleSubmit` takes on the dialog's three texts. */
  function Decide(content: string, metadataText: string, vectorInput: string, dimensions: int,
                  parseJson: string -> Option<Json>, parseNumber: string -> real,
                  draw: nat -> real): Submission
  {
    if Blank(content) then NothingSubmitted
    else if !Blank(metadataText) && parseJson(metadataText).None? then MetadataRejected
    else
      var metadata := if Blank(metadataText) then JObject([]) else parseJson(metadataText).value;
      if Blank(vectorInput) then
        Submitted(RecordInput(Trim(content), metadata, DefaultVector(dimensions, draw)))
      else
        var vector := ParseVector(vectorInput, parseNumber);
        if |vector| != dimensions then DimensionsRejected
        else Submitted(RecordInput(Trim(content), metadata, vector))
  }

  /** Nothing is submitted for blank content; metadata that does not parse
      is rejected; a typed vector is rejected unless it has `dimensions`
      entries; otherwise the payload is the trimmed content, the parsed
      metadata (an empty object when none was typed) and the typed or a
      drawn vector, which has `dimensions` entries either way. */
  lemma DecideSpec(content: string, metadataText: string, vectorInput: string, dimensions: int,
                   parseJson: string -> Option<Json>, parseNumber: string -> real, draw: nat -> real)
    ensures var r := Decide(content, metadataText, vectorInput, dimensions, parseJson, parseNumber, draw);
      && (r == NothingSubmitted <==> Blank(content))
      && (r == MetadataRejected <==>
            !Blank(content) && !Blank(metadataText) && parseJson(metadataText).None?)
      && (r == DimensionsRejected <==>
            && !Blank(content) && (Blank(metadataText) || parseJson(metadataText).Some?)
            && !Blank(vectorInput) && Count(vectorInput, ',') + 1 != dimensions)
      && (r.Submitted? ==>
            && r.data.content == Trim(content)
            && (Blank(metadataText) ==> r.data.metadata == JObject([]))
            && (!Blank(metadataText) ==> parseJson(metadataText) == Some(r.data.metadata))
            && (!Blank(vectorInput) ==> r.data.vector == ParseVector(vectorInput, parseNumber))
            && (Blank(vectorInput) ==> r.data.vector == DefaultVector(dimensions, draw))
            && (dimensions >= 0 ==> |r.data.vector| == dimensions))
  {
  }

  /** Rejections depend only on the texts and `dimensions`, never on what
      the parsers or the random source return for an accepted form. */
  lemma DecideAcceptsUniformly(content: string, metadataText: string, vectorInput: string, dimensions: int,
                               parseJson: string -> Option<Json>, parseNumber: string -> real,
                               parseNumber': string -> real, draw: nat -> real, draw': nat -> real)
    ensures Decide(content, metadataText, vectorInput, dimensions, parseJson, parseNumber, draw).Submitted?
        <==> Decide(content, metadataText, vectorInput, dimensions, parseJson, parseNumber', draw').Submitted?
  {
  }

  /** The checks of `handleSubmit`, in its order and with its early
      returns: blank content, then the metadata, then the vector. It
      computes `Decide`. */
  method Check(content: string, metadata: string, vectorInput: string, dimensions: int,
               parseJson: string -> Option<Json>, parseNumber: string -> real,
               draw: nat -> real) returns (outcome: Submission)
    ensures outcome == Decide(content, metadata, vectorInput, dimensions, parseJson, parseNumber, draw)
  {
    TrimEmptyBlank(content);
    if Trim(content) == [] {
      return NothingSubmitted;
    }
    TrimEmptyBlank(metadata);
    var parsedMetadata := JObject([]);
    if Trim(metadata) != [] {
      var parsed := parseJson(metadata);
      if parsed.None? {
        return MetadataRejected;
      }
      parsedMetadata := parsed.value;
    }
    TrimEmptyBlank(vectorInput);
    var vector: Vector := [];
    if Trim(vectorInput) != [] {
      vector := ParseVector(vectorInput, parseNumber);
      if |vector| != dimensions {
        return DimensionsRejected;
      }
    } else {
      vector := DefaultVector(dimensions, draw);
    }
    outcome := Submitted(RecordInput(Trim(content), parsedMetadata, vector));
  }

  /** The dialog's three text fields. */
  class RecordForm {
    var content: string
    var metadata: string
    var vectorInput: string

    constructor (content: string, metadata: string, vectorInput: string)
      ensures this.content == content && this.metadata == metadata && this.vectorInput == vectorInput
    {
      this.content := content;
      this.metadata := metadata;
      this.vectorInput := vectorInput;
    }

    /** `handleSubmit`: run the checks; on success hand back the payload
        and clear the three fields. */
    method Submit(dimensions: int, parseJson: string -> Option<Json>, parseNumber: string -> real,
                  draw: nat -> real) returns (outcome: Submission)
      modifies this
      ensures outcome == Decide(old(content), old(metadata), old(vectorInput), dimensions,
                                parseJson, parseNumber, draw)
      ensures outcome.Submitted? ==> content == "" && metadata == "" && vectorInput == ""
      ensures !outcome.Submitted? ==>
        content == old(content) && metadata == old(metadata) && vectorInput == old(vectorInput)
    {
      outcome := Check(content, metadata, vectorInput, dimensions, parseJson, parseNumber, draw);
      if outcome.Submitted? {
        content := "";
        metadata := "";
        vectorInput := "";
      }
    }
  }

  // ---------------------------------------------------------------------
  // The dialog in front of the store
  // ---------------------------------------------------------------------

  predicate UniqueIds(dbs: seq<Database>) {
    forall i, j :: 0 <= i < j < |dbs| ==> dbs[i].id != dbs[j].id
  }

  /** Every database with the selected id has the dimensions of the one
      the dialog was opened for. */
  lemma SelectedDimensions(dbs: seq<Database>, selected: string)
    requires UniqueIds(dbs) && FindDatabase(dbs, selected).Some?
    ensures forall i :: 0 <= i < |dbs| && dbs[i].id == selected ==>
      dbs[i].dimensions == FindDatabase(dbs, selected).value.dimensions
  {
    var k :| 0 <= k < |dbs| && dbs[k] == FindDatabase(dbs, selected).value && dbs[k].id == selected;
    forall i | 0 <= i < |dbs| && dbs[i].id == selected
      ensures dbs[i].dimensions == FindDatabase(dbs, selected).value.dimensions
    {
      assert i == k;
    }
  }

  /** A record accepted by the dialog, opened with the current database's
      positive `dimensions`, keeps every vector fitting once it is added or
      stored over the edited record. */
  lemma AcceptedRecordKeepsFit(dbs: seq<Database>, selected: string, id: string, editId: string,
                               content: string, metadataText: string, vectorInput: string,
                               parseJson: string -> Option<Json>, parseNumber: string -> real,
                               draw: nat -> real)
    requires AllFit(dbs) && UniqueIds(dbs)
    requires FindDatabase(dbs, selected).Some? && FindDatabase(dbs, selected).value.dimensions > 0
    requires Decide(content, metadataText, vectorInput, DialogDimensions(FindDatabase(dbs, selected)),
                    parseJson, parseNumber, draw).Submitted?
    ensures var data := Decide(content, metadataText, vectorInput, DialogDimensions(FindDatabase(dbs, selected)),
                               parseJson, parseNumber, draw).data;
      && AllFit(AppendToSelected(dbs, selected, [Record(id, data.content, data.metadata, data.vector)]))
      && AllFit(UpdateInSelected(dbs, selected, editId, Record(editId, data.content, data.metadata, data.vector)))
  {
    var dims := DialogDimensions(FindDatabase(dbs, selected));
    DecideSpec(content, metadataText, vectorInput, dims, parseJson, parseNumber, draw);
    var data := Decide(content, metadataText, vectorInput, dims, parseJson, parseNumber, draw).data;
    assert |data.vector| == dims;
    SelectedDimensions(dbs, selected);
    assert forall i :: 0 <= i < |dbs| && dbs[i].id == selected ==> |data.vector| == dbs[i].dimensions;
    var added := [Record(id, data.content, data.metadata, data.vector)];
    AppendKeepsFit(dbs, selected, added);
    UpdateKeepsFit(dbs, selected, editId, Record(editId, data.content, data.metadata, data.vector));
  }

  /** The positive-dimensions condition is needed: a database created with
      `0` dimensions opens the dialog with `384`, whose default vector then
      breaks the rule. */
  lemma ZeroDimensionsBreakFit(draw: nat -> real, parseJson: string -> Option<Json>, parseNumber: string -> real)
    ensures var db := Database("1", "d", "", 0, []);
      var r := Decide("x", "", "", DialogDimensions(Some(db)), parseJson, parseNumber, draw);
      && r.Submitted?
      && !AllFit(AppendToSelected([db], "1", [Record("2", r.data.content, r.data.metadata, r.data.vector)]))
  {
    var db := Database("1", "d", "", 0, []);
    var r := Decide("x", "", "", DialogDimensions(Some(db)), parseJson, parseNumber, draw);
    assert Trim("x") == "x" by { assert !IsWhitespace('x'); }
    assert Blank("") by { assert Trim("") == []; }
    var rec := Record("2", r.data.content, r.data.metadata, r.data.vector);
    var after := AppendToSelected([db], "1", [rec]);
    assert after[0].records[|db.records|..][0] == rec;
    assert rec in after[0].records;
  }
}
