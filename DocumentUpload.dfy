/**
  The document dialog: the default document name taken from an uploaded
  file, the label shown for a progress value, and the submit handler that
  chunks the text, embeds every chunk and turns chunks plus embeddings
  into records for the store.

  Text extraction and embedding are supplied by the caller; an embedding
  that fails stands for the `catch` path.
 */
module UploadDialog {
  import opened JsText
  import opened Records
  import opened DocumentProcessor

  // =====================================================================
  // Default name: `name.replace(/\.(txt|pdf|docx)$/i, '')`
  // =====================================================================

  /** The suffixes the pattern removes, lower-cased. */
  predicate IsExtension(ext: string) {
    ext == ".txt" || ext == ".pdf" || ext == ".docx"
  }

  /** `name` ends in `ext`, ignoring ASCII case. */
  predicate EndsWithIgnoringCase(name: string, ext: string) {
    |ext| <= |name| && Lower(name[|name| - |ext|..]) == ext
  }

  predicate HasExtension(name: string) {
    EndsWithIgnoringCase(name, ".txt") || EndsWithIgnoringCase(name, ".pdf") || EndsWithIgnoringCase(name, ".docx")
  }

  /** The file name without one trailing extension. */
  function StripExtension(name: string): (r: string)
    ensures |r| <= |name| && name[..|r|] == r
    ensures |r| < |name| <==> HasExtension(name)
    ensures |r| < |name| ==> IsExtension(Lower(name[|r|..]))
  {
    if EndsWithIgnoringCase(name, ".txt") then name[..|name| - 4]
    else if EndsWithIgnoringCase(name, ".pdf") then name[..|name| - 4]
    else if EndsWithIgnoringCase(name, ".docx") then name[..|name| - 5]
    else name
  }

  /** Exactly one extension goes, in any letter case: stripping `base + ext`
      gives back `base`, even when `base` has an extension of its own. */
  lemma StripAppended(base: string, ext: string)
    requires IsExtension(Lower(ext))
    ensures StripExtension(base + ext) == base
  {
    var name := base + ext;
    assert name[..|base|] == base;
    assert name[|name| - |ext|..] == ext;
    if |ext| == 5 {
      // `.docx` ends in `x`, so neither four-letter suffix matches.
      assert name[|name| - 4..] == ext[1..];
      LowerSlice(ext, 1, 5);
      assert Lower(name[|name| - 4..]) == "docx";
    }
  }

  /** A name without an extension is kept as it is. */
  lemma StripNoExtension(name: string)
    requires !HasExtension(name)
    ensures StripExtension(name) == name
  {
  }

  // =====================================================================
  // Progress label
  // =====================================================================

  const ChunkingLabel := "Chunking document..."
  const EmbeddingLabel := "Generating semantic embeddings with e5-small-v2..."
  const FinalizingLabel := "Finalizing..."

  function PhaseLabel(progress: real): (phase: string)
    ensures phase == ChunkingLabel <==> progress < 10.0
    ensures phase == EmbeddingLabel <==> 10.0 <= progress < 95.0
    ensures phase == FinalizingLabel <==> 95.0 <= progress
  {
    if progress < 10.0 then ChunkingLabel
    else if progress < 95.0 then EmbeddingLabel
    else FinalizingLabel
  }

  /** Where a label comes in the processing order. */
  function PhaseRank(phase: string): nat {
    if phase == ChunkingLabel then 0 else if phase == EmbeddingLabel then 1 else 2
  }

  /** As progress grows the label only moves forward. */
  lemma PhaseLabelMonotone(p: real, q: real)
    requires p <= q
    ensures PhaseRank(PhaseLabel(p)) <= PhaseRank(PhaseLabel(q))
  {
  }

  // =====================================================================
  // Embedding and record assembly
  // =====================================================================

  /** The vectors for `texts`, one per text in order, or `None` as soon as
      one embedding fails. */
  function BatchEmbed(texts: seq<string>, embed: string -> Option<Vector>): (r: Option<seq<Vector>>)
    ensures r.None? <==> exists i :: 0 <= i < |texts| && embed(texts[i]).None?
    ensures r.Some? ==> |r.value| == |texts|
    ensures r.Some? ==> forall i :: 0 <= i < |texts| ==> embed(texts[i]) == Some(r.value[i])
  {
    if texts == [] then Some([])
    else
      var first := embed(texts[0]);
      var rest := BatchEmbed(texts[1..], embed);
      if first.None? then None
      else if rest.None? then
        ghost var i :| 0 <= i < |texts[1..]| && embed(texts[1..][i]).None?;
        assert embed(texts[i + 1]).None?;
        None
      else
        var r := [first.value] + rest.value;
        assert forall i :: 1 <= i < |texts| ==> texts[i] == texts[1..][i - 1];
        Some(r)
  }

  function Number(n: int): Json { JNumber(n as real) }

  /** `{ ...chunk.metadata, chunkConfig: config, originalDocumentLength,
      fileType: 'processed_document' }`, members in insertion order. */
  function RecordMetadata(m: ChunkMetadata, config: ChunkConfig, textLength: int): Json {
    JObject([
      ("documentId", JString(m.documentId)),
      ("documentName", JString(m.documentName)),
      ("chunkIndex", Number(m.chunkIndex)),
      ("startPosition", Number(m.startPosition)),
      ("endPosition", Number(m.endPosition)),
      ("totalChunks", Number(m.totalChunks)),
      ("chunkConfig", JObject([
        ("chunkSize", Number(config.chunkSize)),
        ("chunkOverlap", Number(config.chunkOverlap)),
        ("preserveSentences", JBool(config.preserveSentences))])),
      ("originalDocumentLength", Number(textLength)),
      ("fileType", JString("processed_document"))])
  }

  /** A member of an object value: the first one with the key. */
  function Member(j: Json, key: string): Option<Json> {
    if !j.JObject? then None else MemberOf(j.members, key)
  }

  function MemberOf(members: seq<(string, Json)>, key: string): Option<Json> {
    if members == [] then None
    else if members[0].0 == key then Some(members[0].1)
    else MemberOf(members[1..], key)
  }

  /** The member at `k` is found when no earlier member has its key. */
  lemma {:induction false} MemberAt(members: seq<(string, Json)>, k: nat)
    requires k < |members|
    requires forall j :: 0 <= j < k ==> members[j].0 != members[k].0
    ensures MemberOf(members, members[k].0) == Some(members[k].1)
  {
    if k > 0 {
      MemberAt(members[1..], k - 1);
    }
  }

  /** A stored record's metadata names its chunk's document. */
  lemma RecordMetadataDocument(m: ChunkMetadata, config: ChunkConfig, textLength: int)
    ensures var j := RecordMetadata(m, config, textLength);
      && Member(j, "documentId") == Some(JString(m.documentId))
      && Member(j, "documentName") == Some(JString(m.documentName))
  {
    var ms := RecordMetadata(m, config, textLength).members;
    MemberAt(ms, 0);
    MemberAt(ms, 1);
  }

  /** A stored record's metadata keeps its chunk's index and total. */
  lemma RecordMetadataNumbering(m: ChunkMetadata, config: ChunkConfig, textLength: int)
    ensures var j := RecordMetadata(m, config, textLength);
      && Member(j, "chunkIndex") == Some(Number(m.chunkIndex))
      && Member(j, "totalChunks") == Some(Number(m.totalChunks))
  {
    var ms := RecordMetadata(m, config, textLength).members;
    MemberAt(ms, 2);
    MemberAt(ms, 5);
  }

  /** A stored record's metadata keeps where its chunk lies in the text. */
  lemma RecordMetadataPositions(m: ChunkMetadata, config: ChunkConfig, textLength: int)
    ensures var j := RecordMetadata(m, config, textLength);
      && Member(j, "startPosition") == Some(Number(m.startPosition))
      && Member(j, "endPosition") == Some(Number(m.endPosition))
  {
    var ms := RecordMetadata(m, config, textLength).members;
    MemberAt(ms, 3);
    MemberAt(ms, 4);
  }

  /** A stored record's metadata adds the configuration, the document's
      length and the record kind. */
  lemma RecordMetadataAddedFields(m: ChunkMetadata, config: ChunkConfig, textLength: int)
    ensures var j := RecordMetadata(m, config, textLength);
      && Member(j, "chunkConfig").Some?
      && Member(Member(j, "chunkConfig").value, "chunkSize") == Some(Number(config.chunkSize))
      && Member(Member(j, "chunkConfig").value, "chunkOverlap") == Some(Number(config.chunkOverlap))
      && Member(Member(j, "chunkConfig").value, "preserveSentences") == Some(JBool(config.preserveSentences))
      && Member(j, "originalDocumentLength") == Some(Number(textLength))
      && Member(j, "fileType") == Some(JString("processed_document"))
  {
    var ms := RecordMetadata(m, config, textLength).members;
    MemberAt(ms, 6);
    MemberAt(ms, 7);
    MemberAt(ms, 8);
    var cs := ms[6].1.members;
    MemberAt(cs, 0);
    MemberAt(cs, 1);
    MemberAt(cs, 2);
  }

  /** `chunks.map((chunk, index) => ...)`: record `i` is chunk `i` with
      embedding `i`. */
  function AssembleRecords(chunks: seq<DocumentChunk>, embeddings: seq<Vector>,
                           config: ChunkConfig, textLength: int): (r: seq<Record>)
    requires |embeddings| == |chunks|
    ensures |r| == |chunks|
  {
    seq(|chunks|, i requires 0 <= i < |chunks| =>
      Record(chunks[i].id, chunks[i].content, RecordMetadata(chunks[i].metadata, config, textLength), embeddings[i]))
  }

  // =====================================================================
  // Submit
  // =====================================================================

  /** How a submit ends: the guard stops it, the chunker never returns, an
      embedding fails, or the records are handed to the store. */
  datatype UploadOutcome =
    | NotStarted
    | Hung
    | EmbeddingFailed
    | Uploaded(records: seq<Record>)

  const ProcessError := "Failed to process document. Please try again."

  /** What happens once the guard has passed: the chunker's outcome,
      then one embedding per chunk, then the records. */
  function UploadFrom(chunked: ChunkOutcome, textLength: int, config: ChunkConfig,
                      embed: string -> Option<Vector>): UploadOutcome
  {
    match chunked
    case Hangs => Hung
    case Finished(chunks) =>
      match BatchEmbed(Contents(chunks), embed)
      case None => EmbeddingFailed
      case Some(embeddings) => Uploaded(AssembleRecords(chunks, embeddings, config, textLength))
  }

  /** What `handleSubmit` computes from the form's name, text and
      configuration. */
  function UploadResult(name: string, text: string, config: ChunkConfig, documentId: string,
                        embed: string -> Option<Vector>): UploadOutcome
  {
    if Blank(name) || Blank(text) then NotStarted
    else UploadFrom(ChunkResult(text, config, documentId, name), |text|, config, embed)
  }

  /** Past the chunker there is no way back to `NotStarted`, and the
      outcome is `Hung` exactly when the chunker hangs. */
  lemma UploadFromKind(chunked: ChunkOutcome, textLength: int, config: ChunkConfig,
                       embed: string -> Option<Vector>)
    ensures !UploadFrom(chunked, textLength, config, embed).NotStarted?
    ensures UploadFrom(chunked, textLength, config, embed).Hung? <==> chunked.Hangs?
  {
  }

  /** The guard stops a blank name or text and nothing else. */
  lemma UploadGuard(name: string, text: string, config: ChunkConfig, documentId: string,
                    embed: string -> Option<Vector>)
    ensures UploadResult(name, text, config, documentId, embed).NotStarted? <==> Blank(name) || Blank(text)
  {
    UploadFromKind(ChunkResult(text, config, documentId, name), |text|, config, embed);
  }

  /** Past the guard, the chunker's hang is the only way not to reach the
      embeddings. */
  lemma UploadHangs(name: string, text: string, config: ChunkConfig, documentId: string,
                    embed: string -> Option<Vector>)
    ensures UploadResult(name, text, config, documentId, embed).Hung? <==>
      !Blank(name) && !Blank(text) && !config.preserveSentences && !WindowLoopEnds(|text|, config)
  {
    var chunked := ChunkResult(text, config, documentId, name);
    UploadFromKind(chunked, |text|, config, embed);
    assert chunked.Hangs? <==> !config.preserveSentences && !WindowLoopEnds(|text|, config);
  }

  /** Record `i` is chunk `i`: its id and text, its own embedding, and
      metadata that repeats the chunk's index and total and adds the
      configuration used. */
  predicate RecordsMatch(records: seq<Record>, chunks: seq<DocumentChunk>, config: ChunkConfig,
                         textLength: int, embed: string -> Option<Vector>) {
    && |records| == |chunks|
    && forall i :: 0 <= i < |records| ==>
      && records[i].id == chunks[i].id
      && records[i].content == chunks[i].content
      && embed(chunks[i].content) == Some(records[i].vector)
      && records[i].metadata == RecordMetadata(chunks[i].metadata, config, textLength)
      && Member(records[i].metadata, "chunkIndex") == Some(Number(chunks[i].metadata.chunkIndex))
      && Member(records[i].metadata, "totalChunks") == Some(Number(chunks[i].metadata.totalChunks))
  }

  lemma UploadFromMatches(chunks: seq<DocumentChunk>, textLength: int, config: ChunkConfig,
                          embed: string -> Option<Vector>)
    ensures UploadFrom(Finished(chunks), textLength, config, embed).Uploaded? ==>
      RecordsMatch(UploadFrom(Finished(chunks), textLength, config, embed).records, chunks, config, textLength, embed)
  {
    var outcome := UploadFrom(Finished(chunks), textLength, config, embed);
    if outcome.Uploaded? {
      forall i | 0 <= i < |chunks|
        ensures Member(outcome.records[i].metadata, "chunkIndex") == Some(Number(chunks[i].metadata.chunkIndex))
        ensures Member(outcome.records[i].metadata, "totalChunks") == Some(Number(chunks[i].metadata.totalChunks))
      {
        RecordMetadataNumbering(chunks[i].metadata, config, textLength);
      }
    }
  }

  /** What a finished upload hands over: one record per chunk the chunker
      returned, in order, and those chunks are numbered `0, 1, ...` under
      the document's id and name. */
  lemma UploadedRecords(name: string, text: string, config: ChunkConfig, documentId: string,
                        embed: string -> Option<Vector>)
    ensures UploadResult(name, text, config, documentId, embed).Uploaded? ==>
      && ChunkResult(text, config, documentId, name).Finished?
      && WellNumbered(ChunkResult(text, config, documentId, name).chunks, documentId, name)
      && RecordsMatch(UploadResult(name, text, config, documentId, embed).records,
                      ChunkResult(text, config, documentId, name).chunks, config, |text|, embed)
  {
    var chunked := ChunkResult(text, config, documentId, name);
    if UploadResult(name, text, config, documentId, embed).Uploaded? {
      ChunkResultNumbered(text, config, documentId, name);
      UploadFromMatches(chunked.chunks, |text|, config, embed);
    }
  }

  /** With the dialog's default overlap of 50, unticking "preserve
      sentences" hangs on any text that passes the guard. */
  lemma DefaultOverlapHangs(name: string, text: string, chunkSize: int, documentId: string,
                            embed: string -> Option<Vector>)
    requires !Blank(name) && !Blank(text)
    ensures UploadResult(name, text, ChunkConfig(chunkSize, 50, false), documentId, embed) == Hung
  {
    UploadHangs(name, text, ChunkConfig(chunkSize, 50, false), documentId, embed);
    assert text != [];
  }

  /** When every embedding has the database's length, so does every
      uploaded record's vector. */
  lemma UploadedVectorsFit(name: string, text: string, config: ChunkConfig, documentId: string,
                           embed: string -> Option<Vector>, dimensions: int)
    requires forall t :: embed(t).Some? ==> |embed(t).value| == dimensions
    ensures UploadResult(name, text, config, documentId, embed).Uploaded? ==>
      forall r :: r in UploadResult(name, text, config, documentId, embed).records ==> |r.vector| == dimensions
  {
    var outcome := UploadResult(name, text, config, documentId, embed);
    if outcome.Uploaded? {
      UploadedRecords(name, text, config, documentId, embed);
      forall r | r in outcome.records ensures |r.vector| == dimensions {
        var i :| 0 <= i < |outcome.records| && outcome.records[i] == r;
        var c := ChunkResult(text, config, documentId, name).chunks[i].content;
        assert embed(c) == Some(outcome.records[i].vector);
      }
    }
  }

  /** What an attempt to read a file gives: its text, or an error with or
      without a message. */
  datatype Extraction = Extracted(text: string) | ExtractionFailed(message: Option<string>)

  /** The computing part of `handleSubmit`: the guard, then the chunker,
      then the embeddings and the record assembly. It computes
      `UploadResult`. */
  method Process(name: string, text: string, config: ChunkConfig, documentId: string,
                 embed: string -> Option<Vector>) returns (outcome: UploadOutcome)
    ensures outcome == UploadResult(name, text, config, documentId, embed)
  {
    TrimEmptyBlank(name);
    TrimEmptyBlank(text);
    if Trim(name) == [] || Trim(text) == [] {
      return NotStarted;
    }
    var chunked := ChunkDocument(text, config, documentId, name);
    outcome := EmbedAndAssemble(chunked, |text|, config, embed);
  }

  /** Embedding every chunk's content in one batch and pairing each chunk
      with its vector. It computes `UploadFrom`. */
  method EmbedAndAssemble(chunked: ChunkOutcome, textLength: int, config: ChunkConfig,
                          embed: string -> Option<Vector>) returns (outcome: UploadOutcome)
    ensures outcome == UploadFrom(chunked, textLength, config, embed)
  {
    if chunked.Hangs? {
      return Hung;
    }
    var chunks := chunked.chunks;
    var embeddings := BatchEmbed(Contents(chunks), embed);
    if embeddings.None? {
      return EmbeddingFailed;
    }
    outcome := Uploaded(AssembleRecords(chunks, embeddings.value, config, textLength));
  }

  /** The fields `handleSubmit` writes. */
  datatype SubmitState = SubmitState(documentName: string, documentText: string, progress: real, error: string)

  /** The fields after a submit with the given outcome: untouched when the
      guard stops it; progress reset and the error cleared when the
      chunker hangs; progress left at `10` and the error set when an
      embedding fails; name, text and progress cleared after an upload. */
  function AfterSubmit(before: SubmitState, outcome: UploadOutcome): SubmitState {
    match outcome
    case NotStarted => before
    case Hung => before.(progress := 0.0, error := "")
    case EmbeddingFailed => before.(progress := 10.0, error := ProcessError)
    case Uploaded(_) => SubmitState("", "", 0.0, "")
  }

  /** The fields after a file is picked: no file changes nothing; a read
      text replaces the document text, names a still unnamed document after
      the file and clears the error; a failed read keeps name and text and
      shows the error's message, or a fixed one. */
  function AfterFileUpload(before: SubmitState, file: Option<string>, extraction: Extraction): (after: SubmitState)
    ensures after.progress == before.progress
  {
    if file.None? then before
    else match extraction
      case Extracted(text) =>
        before.(documentText := text, error := "",
                documentName := if before.documentName == "" then StripExtension(file.value) else before.documentName)
      case ExtractionFailed(message) =>
        before.(error := if message.Some? then message.value else "Failed to process file")
  }

  /** A name typed before the upload is never replaced. */
  lemma UploadKeepsTypedName(before: SubmitState, file: Option<string>, extraction: Extraction)
    requires before.documentName != ""
    ensures AfterFileUpload(before, file, extraction).documentName == before.documentName
  {
  }

  /** The dialog's state that its handlers change. */
  class UploadForm {
    var documentName: string
    var documentText: string
    var chunkSize: int
    var chunkOverlap: int
    var preserveSentences: bool
    var progress: real
    var error: string

    constructor ()
      ensures documentName == "" && documentText == ""
      ensures chunkSize == 500 && chunkOverlap == 50 && preserveSentences
      ensures progress == 0.0 && error == ""
    {
      documentName := "";
      documentText := "";
      chunkSize := 500;
      chunkOverlap := 50;
      preserveSentences := true;
      progress := 0.0;
      error := "";
    }

    /** `handleFileUpload`. */
    method HandleFileUpload(file: Option<string>, extraction: Extraction)
      modifies this
      ensures State() == AfterFileUpload(old(State()), file, extraction)
      ensures chunkSize == old(chunkSize) && chunkOverlap == old(chunkOverlap)
      ensures preserveSentences == old(preserveSentences)
    {
      if file.None? {
        return;
      }
      error := "";
      match extraction {
        case Extracted(text) =>
          documentText := text;
          if documentName == "" {
            documentName := StripExtension(file.value);
          }
        case ExtractionFailed(message) =>
          error := if message.Some? then message.value else "Failed to process file";
      }
    }

    function State(): SubmitState
      reads this
    {
      SubmitState(documentName, documentText, progress, error)
    }

    /** The name field's `onChange`. */
    method SetDocumentName(name: string)
      modifies this
      ensures documentName == name
      ensures documentText == old(documentText) && progress == old(progress) && error == old(error)
      ensures chunkSize == old(chunkSize) && chunkOverlap == old(chunkOverlap)
      ensures preserveSentences == old(preserveSentences)
    {
      documentName := name;
    }

    /** The text area's `onChange`. */
    method SetDocumentText(text: string)
      modifies this
      ensures documentText == text
      ensures documentName == old(documentName) && progress == old(progress) && error == old(error)
      ensures chunkSize == old(chunkSize) && chunkOverlap == old(chunkOverlap)
      ensures preserveSentences == old(preserveSentences)
    {
      documentText := text;
    }

    /** The chunk size field's `onChange`, with the number it parses to. */
    method SetChunkSize(size: int)
      modifies this
      ensures chunkSize == size
      ensures State() == old(State())
      ensures chunkOverlap == old(chunkOverlap) && preserveSentences == old(preserveSentences)
    {
      chunkSize := size;
    }

    /** The overlap field's `onChange`, with the number it parses to. */
    method SetChunkOverlap(overlap: int)
      modifies this
      ensures chunkOverlap == overlap
      ensures State() == old(State())
      ensures chunkSize == old(chunkSize) && preserveSentences == old(preserveSentences)
    {
      chunkOverlap := overlap;
    }

    /** The checkbox's `onChange`. */
    method SetPreserveSentences(preserve: bool)
      modifies this
      ensures preserveSentences == preserve
      ensures State() == old(State())
      ensures chunkSize == old(chunkSize) && chunkOverlap == old(chunkOverlap)
    {
      preserveSentences := preserve;
    }

    /** `handleSubmit`, with the id `Date.now()` would give. The
        computation has no effects, so it runs first; `Settle` then makes
        the source's field writes in their order. The submit button is
        disabled while an error is shown, so no submit starts then. */
    method Submit(documentId: string, embed: string -> Option<Vector>) returns (outcome: UploadOutcome)
      requires error == ""
      modifies this
      ensures outcome == UploadResult(old(documentName), old(documentText),
                                      ChunkConfig(old(chunkSize), old(chunkOverlap), old(preserveSentences)),
                                      documentId, embed)
      ensures State() == AfterSubmit(old(State()), outcome)
      ensures chunkSize == old(chunkSize) && chunkOverlap == old(chunkOverlap)
      ensures preserveSentences == old(preserveSentences)
    {
      var config := ChunkConfig(chunkSize, chunkOverlap, preserveSentences);
      outcome := Process(documentName, documentText, config, documentId, embed);
      Settle(outcome);
    }

    /** The field writes of `handleSubmit` for a given outcome, in the
        source's order. They produce `AfterSubmit`. */
    method Settle(outcome: UploadOutcome)
      modifies this
      ensures State() == AfterSubmit(old(State()), outcome)
      ensures chunkSize == old(chunkSize) && chunkOverlap == old(chunkOverlap)
      ensures preserveSentences == old(preserveSentences)
    {
      if outcome.NotStarted? {
        return;
      }
      progress := 0.0;
      error := "";
      if outcome.Hung? {
        // The source never gets past `chunkDocument` here.
        return;
      }
      progress := 10.0;
      if outcome.EmbeddingFailed? {
        error := ProcessError;
        return;
      }
      progress := 95.0;
      progress := 100.0;
      documentName := "";
      documentText := "";
      progress := 0.0;
    }
  }
}
