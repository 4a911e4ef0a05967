/**
 What the front end stores as the bot's turn after one question: the backend's
 outcome, and for a normal answer the kind picked by sniffing the prefix of the
 result string ("data:image", then "{" or "[", then plain text).

 The libraries the source calls are not modelled; their verdicts are inputs:
 `parsesAsTable` says whether `pd.read_json` (and the table display) accepts the
 result, `imageOpens` whether base64 decoding, `Image.open` and the image display
 accept the image payload.
 */
module Responses {
  import opened Strings

  datatype Option<T> = None | Some(value: T) {
    function GetOr(default: T): (v: T)
    {
      match this
      case Some(v) => v
      case None => default
    }
  }

  /** The message type the transcript records and the redisplay loop dispatches on. */
  datatype Kind = Text | Image | Table | Json

  datatype Role = User | Bot

  datatype Message = Message(role: Role, kind: Kind, content: string)

  /** What the POST to the backend and the `.json()` decode come to. */
  datatype Outcome =
    | BackendError(message: string)  // the decoded body has an "error" field
    | Answer(result: Option<string>) // `response[0]["notebook_output"]["result"]`; None when either key is absent
    | Raised                         // any exception: network, decoding, unexpected shape

  const ImagePrefix: string := "data:image"
  const GenericError: string := "An error occurred while processing your request."

  predicate LooksStructured(raw: string)
  {
    "{" <= raw || "[" <= raw
  }

  /** The stored bot message for a backend result, by prefix, first match wins.
      The content is always the result string as received. */
  function Classify(raw: string, parsesAsTable: bool): (m: Message)
    ensures m.role == Bot && m.content == raw
    ensures m.kind == Image <==> ImagePrefix <= raw
    ensures m.kind == Text <==> !(ImagePrefix <= raw) && !LooksStructured(raw)
    ensures m.kind == Table ==> parsesAsTable
    ensures m.kind == Json ==> !parsesAsTable
    ensures LooksStructured(raw) ==> m.kind != Text
  {
    if ImagePrefix <= raw then Message(Bot, Image, raw)
    else if LooksStructured(raw) then
      if parsesAsTable then Message(Bot, Table, raw) else Message(Bot, Json, raw)
    else Message(Bot, Text, raw)
  }

  /** `raw.split(",")[1]`: the text after the first comma, up to the next one;
      None where Python raises IndexError. */
  function ImagePayload(raw: string): (r: Option<string>)
    ensures r.None? <==> ',' !in raw
    ensures r.Some? ==> ',' !in r.value
  {
    SecondPieceExists(raw, ',');
    var parts := Split(raw, ',');
    if |parts| >= 2 then Some(parts[1]) else None
  }

  /** Where the payload sits: right after the first comma (the text before it,
      `h`, has none), ending at the next comma or at the end of the string. */
  lemma ImagePayloadLocated(raw: string, p: string)
    requires ImagePayload(raw) == Some(p)
    ensures var h := Split(raw, ',')[0];
      && ',' !in h
      && |h| + 1 + |p| <= |raw|
      && raw[..|h|] == h
      && raw[|h|] == ','
      && raw[|h| + 1..|h| + 1 + |p|] == p
      && (|raw| == |h| + 1 + |p| || raw[|h| + 1 + |p|] == ',')
  {
    var parts := Split(raw, ',');
    JoinSplit(raw, ',');
    var tail := Join(parts[1..], ',');
    assert raw == parts[0] + [','] + tail;
    assert parts[1..][0] == p;
    if |parts| == 2 {
      assert tail == p;
    } else {
      assert tail == p + [','] + Join(parts[2..], ',');
    }
  }

  function UserMessage(prompt: string): (m: Message)
    ensures m.role == User && m.kind == Text && m.content == prompt
  {
    Message(User, Text, prompt)
  }

  /** The one bot message appended for a question, whatever happened. */
  function Reply(outcome: Outcome, imageOpens: bool, parsesAsTable: bool): (m: Message)
    ensures m.role == Bot
    ensures outcome.BackendError? ==> m == Message(Bot, Text, outcome.message)
    ensures outcome.Raised? ==> m == Message(Bot, Text, GenericError)
    ensures outcome.Answer? ==>
      var raw := outcome.result.GetOr("");
      m == if ImagePrefix <= raw && (',' !in raw || !imageOpens)
           then Message(Bot, Text, GenericError)
           else Classify(raw, parsesAsTable)
  {
    match outcome
    case BackendError(msg) => Message(Bot, Text, msg)
    case Raised => Message(Bot, Text, GenericError)
    case Answer(result) =>
      var raw := result.GetOr("");
      var m := Classify(raw, parsesAsTable);
      if m.kind != Image then m
      else match ImagePayload(raw)
        case None => Message(Bot, Text, GenericError)
        case Some(_) => if imageOpens then m else Message(Bot, Text, GenericError)
  }

  /** A normal answer is stored verbatim, unless it is an image whose payload
      cannot be cut out or opened; then the fixed error text is stored. */
  lemma AnswerStoredVerbatim(result: Option<string>, imageOpens: bool, parsesAsTable: bool)
    ensures var raw := result.GetOr("");
      var m := Reply(Answer(result), imageOpens, parsesAsTable);
      m.content == raw || (ImagePrefix <= raw && m == Message(Bot, Text, GenericError))
  {
  }

  /** Every stored bot message can be displayed again as its kind says: an image
      carries a payload after a comma, a table or JSON message looks structured. */
  lemma ReplyKindConsistent(outcome: Outcome, imageOpens: bool, parsesAsTable: bool)
    ensures var m := Reply(outcome, imageOpens, parsesAsTable);
      && (m.kind == Image ==> ImagePrefix <= m.content && ImagePayload(m.content).Some?)
      && (m.kind == Table || m.kind == Json ==> LooksStructured(m.content))
  {
  }

  /** A result starting with "data:image" but without a comma can never be
      stored as an image. */
  lemma CommalessImageIsError(raw: string, imageOpens: bool, parsesAsTable: bool)
    requires ImagePrefix <= raw && ',' !in raw
    ensures Reply(Answer(Some(raw)), imageOpens, parsesAsTable) == Message(Bot, Text, GenericError)
  {
  }

  /** A missing `notebook_output` or `result` gives an empty text message. */
  lemma MissingResultIsEmptyText(imageOpens: bool, parsesAsTable: bool)
    ensures Reply(Answer(None), imageOpens, parsesAsTable) == Message(Bot, Text, "")
  {
  }

  /** The library verdicts only matter for results they are consulted on. */
  lemma OraclesConsultedOnlyByPrefix(raw: string, i1: bool, t1: bool, i2: bool, t2: bool)
    requires !(ImagePrefix <= raw) && !LooksStructured(raw)
    ensures Reply(Answer(Some(raw)), i1, t1) == Reply(Answer(Some(raw)), i2, t2) == Message(Bot, Text, raw)
  {
  }
}
