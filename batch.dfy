/**
 * The OCR wrapper `ocr_google_vision` and the batch loop of app.py that
 * turns every uploaded file into one row.
 *
 * The Vision client, the JPEG encoding and PIL's decoder are not modelled:
 * decoding is a function from bytes to an optional image, and the Vision
 * service is a function from the upload's position in the batch and its
 * image to the reply, so that two equal images may get different replies.
 */
module Batch {
  import opened Wrappers
  import opened FieldTable
  import opened Fields

  /** An uploaded file: its name and its bytes. */
  datatype Upload = Upload(name: string, content: seq<bv8>)

  /** The two parts of a Vision reply that app.py reads. */
  datatype Annotation = Annotation(errorMessage: string, fullText: string)

  /** The Vision call returns a reply, or raises before there is one (network, encoding). */
  datatype VisionReply = Replied(response: Annotation) | CallRaised(message: string)

  /** The key the batch adds to every row. */
  const FileNameKey: string := "파일명"
  /** The key of the error message in a failed row. */
  const ErrorKey: string := "오류"

  /**
   * ocr_google_vision: raises with the backend's message exactly when
   * `resp.error.message` is non-empty, and otherwise returns the full text
   * annotation. An exception raised by the call itself passes through.
   */
  function OcrGoogleVision(reply: VisionReply): (r: Result<string>)
    ensures reply.Replied? ==> (r.Err? <==> reply.response.errorMessage != "")
    ensures reply.Replied? && r.Err? ==> r.message == reply.response.errorMessage
    ensures reply.Replied? && r.Ok? ==> r.value == reply.response.fullText
    ensures reply.CallRaised? ==> r == Err(reply.message)
  {
    match reply
    case CallRaised(m) => Err(m)
    case Replied(a) => if a.errorMessage != "" then Err(a.errorMessage) else Ok(a.fullText)
  }

  /**
   * The row for one decoded file: the parsed fields plus 파일명 when the OCR
   * call succeeds, and exactly {파일명, 오류} when it raises.
   */
  function FileRow(name: string, ocr: Result<string>): Dict {
    match ocr
    case Ok(text) => Put(ParsedFields(text), FileNameKey, Some(name))
    case Err(e) => [(FileNameKey, Some(name)), (ErrorKey, Some(e))]
  }

  /** The row the batch builds for upload `u`, at position `i`, once it has decoded to `img`. */
  function RowFor<Image>(u: Upload, i: nat, img: Image, annotate: (nat, Image) -> VisionReply): Dict {
    FileRow(u.name, OcrGoogleVision(annotate(i, img)))
  }

  /**
   * A finished batch holds its rows; an aborted one records which upload
   * PIL could not open (the exception there is outside the `try`, so it
   * ends the loop and nothing is shown).
   */
  datatype BatchOutcome = Finished(rows: seq<Dict>) | Aborted(index: nat)

  /**
   * The `try` block of the batch loop for one opened image: OCR, parse and
   * tag with 파일명, or, when the OCR call raises, the two-entry error row.
   */
  method ProcessImage(name: string, reply: VisionReply) returns (parsed: Dict)
    ensures parsed == FileRow(name, OcrGoogleVision(reply))
  {
    var ocr := OcrGoogleVision(reply);
    match ocr {
      case Ok(text) =>
        parsed := ParseAllFields(text);
        parsed := Put(parsed, FileNameKey, Some(name));
      case Err(e) =>
        parsed := [(FileNameKey, Some(name)), (ErrorKey, Some(e))];
    }
  }

  /**
   * The batch loop: one row per uploaded file, in upload order, unless an
   * upload cannot be decoded; then the batch stops at the first such upload.
   */
  method RunBatch<Image>(uploads: seq<Upload>, decode: seq<bv8> -> Option<Image>, annotate: (nat, Image) -> VisionReply)
    returns (outcome: BatchOutcome)
    ensures outcome.Aborted? ==>
      && outcome.index < |uploads| && decode(uploads[outcome.index].content).None?
      && forall i :: 0 <= i < outcome.index ==> decode(uploads[i].content).Some?
    ensures outcome.Finished? ==> forall i :: 0 <= i < |uploads| ==> decode(uploads[i].content).Some?
    ensures outcome.Finished? ==>
      && |outcome.rows| == |uploads|
      && forall i :: 0 <= i < |uploads| ==>
           outcome.rows[i] == RowFor(uploads[i], i, decode(uploads[i].content).value, annotate)
  {
    var rows: seq<Dict> := [];
    for i := 0 to |uploads|
      invariant |rows| == i
      invariant forall k :: 0 <= k < i ==> decode(uploads[k].content).Some?
      invariant forall k :: 0 <= k < i ==> rows[k] == RowFor(uploads[k], k, decode(uploads[k].content).value, annotate)
    {
      var file := uploads[i];
      var img := decode(file.content);
      if img.None? {
        return Aborted(i);
      }
      var parsed := ProcessImage(file.name, annotate(i, img.value));
      assert parsed == RowFor(uploads[i], i, img.value, annotate);
      rows := rows + [parsed];
    }
    return Finished(rows);
  }

  /** Neither batch key is a field name. */
  lemma BatchKeysAreNotFields()
    ensures FileNameKey !in FieldNames() && ErrorKey !in FieldNames()
  {
    assert forall k :: 0 <= k < |FieldPatterns| ==> FieldPatterns[k].0 != FileNameKey && FieldPatterns[k].0 != ErrorKey;
  }

  /**
   * A successful row has every field of the table, in table order, and then
   * 파일명; each field holds its parsed value and 파일명 the file's name.
   */
  lemma SuccessRow(name: string, text: string)
    ensures Keys(FileRow(name, Ok(text))) == FieldNames() + [FileNameKey]
    ensures Get(FileRow(name, Ok(text)), FileNameKey) == Some(Some(name))
    ensures forall k :: 0 <= k < |FieldPatterns| ==>
      Get(FileRow(name, Ok(text)), FieldPatterns[k].0) == Some(FieldValue(FieldPatterns[k].1, text))
  {
    var d := ParsedFields(text);
    BatchKeysAreNotFields();
    FieldNamesDistinct();
    assert Keys(d) == FieldNames();
    assert Distinct(Keys(d));
    PutGetSame(d, FileNameKey, Some(name));
    ParsedFieldsLookup(text);
    forall k | 0 <= k < |FieldPatterns|
      ensures Get(FileRow(name, Ok(text)), FieldPatterns[k].0) == Some(FieldValue(FieldPatterns[k].1, text))
    {
      PutGetOther(d, FileNameKey, Some(name), FieldPatterns[k].0);
    }
  }

  /** A failed row has exactly 파일명 and 오류, holding the name and the message. */
  lemma ErrorRow(name: string, e: string)
    ensures Keys(FileRow(name, Err(e))) == [FileNameKey, ErrorKey]
    ensures Get(FileRow(name, Err(e)), FileNameKey) == Some(Some(name))
    ensures Get(FileRow(name, Err(e)), ErrorKey) == Some(Some(e))
  {
    var d := FileRow(name, Err(e));
    assert Keys(d) == [FileNameKey, ErrorKey];
    assert KeyIndex(d, ErrorKey) == 1;
  }

  /** A row has an 오류 column exactly when the OCR call failed. */
  lemma ErrorKeyIffOcrFailed(name: string, ocr: Result<string>)
    ensures ErrorKey in Keys(FileRow(name, ocr)) <==> ocr.Err?
  {
    match ocr
    case Ok(text) =>
      SuccessRow(name, text);
      BatchKeysAreNotFields();
    case Err(e) =>
      ErrorRow(name, e);
  }
}
