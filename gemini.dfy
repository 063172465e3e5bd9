/**
 * The OCR gateway: turns the file reader's data URL into the base64 payload,
 * builds the one request sent to the model, and maps the model's answer (or
 * any failure) to what the workspace sees.
 */
module Gemini {
  import opened Wrappers

  const ModelId := "gemini-2.5-flash"

  /** The fixed instruction sent with every image. */
  const Instruction := "Please extract all visible text from this image. Preserve the original formatting where possible. If there is no text, return 'No text detected'. Do not provide markdown code blocks or explanation, just the raw text."

  /** What a successful call returns when the model's text is empty or absent. */
  const NoTextFallback := "No text extracted."

  /** The one error every failure is reported as. */
  const FailureMessage := "Failed to process image. Please try again."

  predicate CommaFree(s: string) { forall i :: 0 <= i < |s| ==> s[i] != ',' }

  /** The index of the first comma in `s`, or `|s|` when there is none. */
  function CommaIndex(s: string): (i: nat)
    ensures i <= |s| && CommaFree(s[..i])
    ensures i < |s| ==> s[i] == ','
  {
    if s == [] || s[0] == ',' then 0 else 1 + CommaIndex(s[1..])
  }

  /** `s.split(',')`: the fields between commas, in order. */
  function Split(s: string): (fields: seq<string>)
    ensures 1 <= |fields|
    ensures |fields| == 1 <==> CommaFree(s)
    decreases |s|
  {
    var i := CommaIndex(s);
    if i == |s| then [s] else [s[..i]] + Split(s[i + 1..])
  }

  /** `fields.join(',')`. */
  function Join(fields: seq<string>): string
    requires 1 <= |fields|
    decreases |fields|
  {
    if |fields| == 1 then fields[0] else fields[0] + "," + Join(fields[1..])
  }

  lemma JoinCons(head: string, rest: seq<string>)
    requires 1 <= |rest|
    ensures Join([head] + rest) == head + "," + Join(rest)
  {
    assert ([head] + rest)[1..] == rest;
  }

  lemma SplitUnfold(s: string)
    requires CommaIndex(s) < |s|
    ensures Split(s) == [s[..CommaIndex(s)]] + Split(s[CommaIndex(s) + 1..])
  {
  }

  lemma Reassemble(s: string, i: nat)
    requires i < |s| && s[i] == ','
    ensures s[..i] + "," + s[i + 1..] == s
  {
  }

  /** Splitting loses nothing: joining the fields again gives back the text. */
  lemma {:induction false} JoinSplit(s: string)
    ensures Join(Split(s)) == s
    decreases |s|
  {
    var i := CommaIndex(s);
    if i < |s| {
      var head, tail := s[..i], s[i + 1..];
      SplitUnfold(s);
      JoinSplit(tail);
      JoinCons(head, Split(tail));
      Reassemble(s, i);
    } else {
      assert Split(s) == [s];
    }
  }

  /** No field contains the separator. */
  lemma {:induction false} SplitFieldsCommaFree(s: string)
    ensures forall k :: 0 <= k < |Split(s)| ==> CommaFree(Split(s)[k])
    decreases |s|
  {
    var i := CommaIndex(s);
    if i < |s| {
      SplitFieldsCommaFree(s[i + 1..]);
    }
  }

  lemma {:induction false} CommaIndexAt(s: string, i: nat)
    requires i < |s| && s[i] == ',' && CommaFree(s[..i])
    ensures CommaIndex(s) == i
    decreases i
  {
    if i > 0 {
      assert s[0] == s[..i][0];
      assert s[1..][..i - 1] == s[..i][1..];
      CommaIndexAt(s[1..], i - 1);
    }
  }

  lemma SplitComma(head: string, rest: string)
    requires CommaFree(head)
    ensures Split(head + "," + rest) == [head] + Split(rest)
  {
    var s := head + "," + rest;
    assert s[..|head|] == head;
    CommaIndexAt(s, |head|);
    assert s[|head| + 1..] == rest;
  }

  /**
   * `dataUrl.split(',')[1]`: the text after the first comma, up to the next
   * one; `None` (JavaScript's `undefined`) when there is no comma.
   */
  function StripDataUrlPrefix(dataUrl: string): (payload: Option<string>)
    ensures payload.Some? <==> !CommaFree(dataUrl)
    ensures payload.Some? ==> CommaFree(payload.value)
  {
    SplitFieldsCommaFree(dataUrl);
    var fields := Split(dataUrl);
    if |fields| > 1 then Some(fields[1]) else None
  }

  /** The data URL a file reader produces for a file of type `mimeType`. */
  function DataUrl(mimeType: string, payload: string): string
  {
    "data:" + mimeType + ";base64," + payload
  }

  /** For a data URL of comma-free type and payload, stripping yields exactly the payload. */
  lemma StripDataUrl(mimeType: string, payload: string)
    requires CommaFree(mimeType) && CommaFree(payload)
    ensures StripDataUrlPrefix(DataUrl(mimeType, payload)) == Some(payload)
  {
    var head := "data:" + mimeType + ";base64";
    assert CommaFree(head) by {
      assert head == "data:" + mimeType + ";base64";
      forall i | 0 <= i < |head| ensures head[i] != ',' {
        if 5 <= i < 5 + |mimeType| {
          assert head[i] == mimeType[i - 5];
        }
      }
    }
    assert DataUrl(mimeType, payload) == head + "," + payload;
    SplitComma(head, payload);
  }

  /** One part of the request's contents. */
  datatype Part = InlineData(data: Option<string>, mimeType: string) | Text(text: string)

  /** The request `generateContent` receives. */
  datatype Request = Request(model: string, parts: seq<Part>)

  /** The request for an image: its payload and type, then the instruction. */
  function BuildRequest(data: Option<string>, mimeType: string): (req: Request)
    ensures req.model == ModelId
    ensures req.parts == [InlineData(data, mimeType), Text(Instruction)]
  {
    Request(ModelId, [InlineData(data, mimeType), Text(Instruction)])
  }

  /** What the file reader delivered: a data URL, or its error event. */
  datatype ReadOutcome = Loaded(dataUrl: string) | ReadError

  /** What the model service answered: a response whose `text` may be absent, or a thrown error. */
  datatype Reply = Response(text: Option<string>) | Thrown(detail: string)

  /** What `performOCR` settles with: the extracted text, or a rejection with a message. */
  datatype OcrOutcome = Extracted(text: string) | Failed(message: string)

  /** `response.text || "No text extracted."`. */
  function ResponseText(text: Option<string>): (r: string)
    ensures r != ""
    ensures text.Some? && text.value != "" ==> r == text.value
    ensures text == None || text == Some("") ==> r == NoTextFallback
  {
    match text
    case Some(t) => if t != "" then t else NoTextFallback
    case None => NoTextFallback
  }

  /**
   * `performOCR` for an image of type `mimeType`: `read` is what the file
   * reader delivers and `service` stands for the model's answer to a request.
   */
  function PerformOcr(mimeType: string, read: ReadOutcome, service: Request -> Reply): (r: OcrOutcome)
    ensures r.Failed? ==> r.message == FailureMessage
    ensures r.Extracted? ==> r.text != ""
    ensures r.Extracted? <==>
      read.Loaded? && service(BuildRequest(StripDataUrlPrefix(read.dataUrl), mimeType)).Response?
    ensures read.Loaded? ==>
      var reply := service(BuildRequest(StripDataUrlPrefix(read.dataUrl), mimeType));
      reply.Response? && reply.text.Some? && reply.text.value != "" ==> r == Extracted(reply.text.value)
  {
    match read
    case ReadError => Failed(FailureMessage)
    case Loaded(dataUrl) =>
      match service(BuildRequest(StripDataUrlPrefix(dataUrl), mimeType))
      case Thrown(_) => Failed(FailureMessage)
      case Response(text) => Extracted(ResponseText(text))
  }

  /**
   * For an image read as a regular data URL, the model is asked about that
   * image's own payload and type, under the fixed model id and instruction.
   */
  lemma RequestCarriesImage(mimeType: string, payload: string)
    requires CommaFree(mimeType) && CommaFree(payload)
    ensures var req := BuildRequest(StripDataUrlPrefix(DataUrl(mimeType, payload)), mimeType);
      req.model == ModelId && req.parts == [InlineData(Some(payload), mimeType), Text(Instruction)]
  {
    StripDataUrl(mimeType, payload);
  }
}
