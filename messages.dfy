/**
 * The data the pipeline works on: raw and decoded interaction messages, the
 * channel directory, flow rules, the decoded payload shapes, the output record,
 * and the foreign routines (base64, JSON, regular expressions) the pipeline calls.
 */
module Messages {
  import opened Wrappers

  /** A JSON value as `json.loads` yields it; object members keep their order. */
  datatype Json =
    | JNull
    | JBool(b: bool)
    | JNumber(literal: string)
    | JString(s: string)
    | JArray(items: seq<Json>)
    | JObject(members: seq<(string, Json)>)

  /**
   * One interaction message, a row of the raw table. Before decoding, `message`
   * holds base64 text; after decoding it holds the JSON text it encodes.
   * `channelType` is a column only messages sent by the bot carry.
   */
  datatype Msg = Msg(
    channelId: string,
    channelType: Option<string>,
    timestamp: int,
    source: string,
    interactWith: string,
    senderId: string,
    recipientId: string,
    message: string)

  /** One entry of the channel directory. */
  datatype Channel = Channel(channelId: string, channelType: string)

  /** A flow name with its ordered regular expressions. */
  datatype FlowRule = FlowRule(flow: string, regexes: seq<string>)

  /** A point in time (epoch milliseconds) rendered in a time zone. */
  datatype Zone = Utc | AsiaBangkok
  datatype Timestamp = Timestamp(epochMs: int, zone: Zone)

  /**
   * The decoded JSON object of a message a user sent: whether it has a
   * `quick_reply` key, its `attachments` value and its `text` value, each
   * `None` when the key is absent.
   */
  datatype UserPayload = UserPayload(hasQuickReply: bool, attachments: Option<Json>, text: Option<string>)

  /** The `payload` object of a bot attachment. */
  datatype AttachmentPayload = AttachmentPayload(templateType: Option<string>, text: Option<string>, url: Option<string>)

  /** The `attachment` object of a bot message: its `type` and its `payload`. */
  datatype Attachment = Attachment(attachmentType: Option<string>, payload: Option<AttachmentPayload>)

  /** The `message` object of one part of a bot turn. */
  datatype BotMessage = BotMessage(text: Option<string>, quickReplies: Option<seq<Json>>, attachment: Option<Attachment>)

  /** One element of the decoded JSON list of a bot turn; `message` is `None` when the key is absent. */
  datatype BotPart = BotPart(message: Option<BotMessage>)

  /** What the pipeline can raise. */
  datatype Error =
    | DecodeError            // invalid base64 or invalid UTF-8
    | ParseError             // not JSON, or not of the shape the classifier reads
    | MissingKey(key: string) // KeyError
    | EmptyPayload           // IndexError on an empty bot turn
    | UnresolvedChannel      // StopIteration: no directory entry for the channel

  /**
   * The foreign routines: base64 followed by UTF-8 decoding, `json.loads` read
   * as a user payload or as a bot turn, `json.dumps`, and `re.search(pattern, text)`
   * finding a match.
   */
  datatype Externals = Externals(
    b64Decode: string -> Option<string>,
    loadsUser: string -> Option<UserPayload>,
    loadsBot: string -> Option<seq<BotPart>>,
    dumps: Json -> string,
    matches: (string, string) -> bool)

  /**
   * The formatted record. The keys the classifiers add after initialisation
   * (`type`, `message`, `language`, `channel_type`) are `None` until added.
   */
  datatype Formatted = Formatted(
    channelId: string,
    userId: string,
    thaiTimestamp: Timestamp,
    source: string,
    interactWith: string,
    flow: string,
    utcTimestamp: Timestamp,
    msgType: Option<string>,
    message: Option<string>,
    language: Option<string>,
    channelType: Option<string>)

  /** A dictionary that remembers insertion order, as a Python dict does. */
  datatype OrderedMap<K, V> = OrderedMap(keys: seq<K>, entries: map<K, V>) {
    ghost predicate Valid() {
      && (forall i, j :: 0 <= i < j < |keys| ==> keys[i] != keys[j])
      && (forall i :: 0 <= i < |keys| ==> keys[i] in entries)
      && (forall k <- entries.Keys :: k in keys)
    }
  }
}
