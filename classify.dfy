/**
 * Classification of one decoded message into a formatted record: the record's
 * initial keys, the attachment decision table, the user-message classifier and
 * the bot-message classifier.
 */
module Classify {
  import opened Wrappers
  import opened Messages
  import opened Language
  import opened FlowMatch

  const QUICK_REPLY: string := "QUICK_REPLY"
  const TEXT: string := "TEXT"
  const ATTACHMENT: string := "ATTACHMENT"
  const IMAGE: string := "IMAGE"
  const UNKNOWN_ATTACH: string := "UNKNOWN_ATTACHMENT"
  const BUTTON_TEMPLATE: string := "BUTTON_TEMPLATE"
  const GENERIC_TEMPLATE: string := "GENERIC_TEMPLATE"
  const UNKNOWN_SEQ: string := "UNKNOWN_SEQUENCE_OF_MESSAGE"
  const SEQ: string := "SEQUENCE_OF_MESSAGE"
  const UNKNOWN: string := "UNKNOWN"

  const TEMPLATE_TEXT: string := "<TEMPLATE>"
  const UNKNOWN_ATTACH_TEXT: string := "<UNKNOWN ATTACHMENT>"

  /** The placeholder text of an image attachment, which embeds its URL. */
  function ImageText(url: string): string {
    "<IMAGE ATTACHMENT:" + url + ">"
  }

  /**
   * The record as first built for message `m` of user `userId`: identity keys
   * copied, flow unknown, and both timestamps rendering the one instant of `m`.
   */
  function InitFormattedObject(m: Msg, userId: string): (r: Formatted)
    ensures r.channelId == m.channelId && r.userId == userId
    ensures r.source == m.source && r.interactWith == m.interactWith
    ensures r.flow == UNKNOWN
    ensures r.utcTimestamp.epochMs == r.thaiTimestamp.epochMs == m.timestamp
    ensures r.utcTimestamp.zone == Utc && r.thaiTimestamp.zone == AsiaBangkok
    ensures r.msgType.None? && r.message.None? && r.language.None? && r.channelType.None?
  {
    Formatted(
      channelId := m.channelId,
      userId := userId,
      thaiTimestamp := Timestamp(m.timestamp, AsiaBangkok),
      source := m.source,
      interactWith := m.interactWith,
      flow := UNKNOWN,
      utcTimestamp := Timestamp(m.timestamp, Utc),
      msgType := None,
      message := None,
      language := None,
      channelType := None)
  }

  /** The `type` and `text` an attachment is classified as. */
  datatype AttachmentResult = AttachmentResult(kind: string, text: string)

  /** The attachment decision table; a missing key raises `KeyError`. */
  function ClassifyAttachment(att: Attachment): (r: Result<AttachmentResult, Error>)
    ensures r.Failure? <==>
              || att.payload.None?
              || att.attachmentType.None?
              || (att.attachmentType == Some("template") && att.payload.value.templateType.None?)
              || (att.attachmentType == Some("template") && att.payload.value.templateType == Some("button")
                  && att.payload.value.text.None?)
              || (att.attachmentType == Some("image") && att.payload.value.url.None?)
    ensures r.Success? ==>
              r.value.kind in {BUTTON_TEMPLATE, GENERIC_TEMPLATE, IMAGE, UNKNOWN_ATTACH}
    ensures r.Success? ==>
              && (r.value.kind == BUTTON_TEMPLATE <==>
                    att.attachmentType == Some("template") && att.payload.value.templateType == Some("button"))
              && (r.value.kind == GENERIC_TEMPLATE <==>
                    att.attachmentType == Some("template") && att.payload.value.templateType != Some("button"))
              && (r.value.kind == IMAGE <==> att.attachmentType == Some("image"))
              && (r.value.kind == UNKNOWN_ATTACH <==>
                    att.attachmentType != Some("template") && att.attachmentType != Some("image"))
    ensures r.Success? && r.value.kind == BUTTON_TEMPLATE ==> att.payload.value.text == Some(r.value.text)
    ensures r.Success? && r.value.kind == GENERIC_TEMPLATE ==> r.value.text == TEMPLATE_TEXT
    ensures r.Success? && r.value.kind == IMAGE ==> r.value.text == ImageText(att.payload.value.url.value)
    ensures r.Success? && r.value.kind == UNKNOWN_ATTACH ==> r.value.text == UNKNOWN_ATTACH_TEXT
  {
    match att.payload
    case None => Failure(MissingKey("payload"))
    case Some(payload) =>
      match att.attachmentType
      case None => Failure(MissingKey("type"))
      case Some(kind) =>
        if kind == "template" then
          match payload.templateType
          case None => Failure(MissingKey("templateType"))
          case Some(templateType) =>
            if templateType == "button" then
              match payload.text
              case None => Failure(MissingKey("text"))
              case Some(text) => Success(AttachmentResult(BUTTON_TEMPLATE, text))
            else Success(AttachmentResult(GENERIC_TEMPLATE, TEMPLATE_TEXT))
        else if kind == "image" then
          match payload.url
          case None => Failure(MissingKey("url"))
          case Some(url) => Success(AttachmentResult(IMAGE, ImageText(url)))
        else Success(AttachmentResult(UNKNOWN_ATTACH, UNKNOWN_ATTACH_TEXT))
  }

  /** The `channel_type` of the first directory entry for `channelId`, or `None` when the search is exhausted. */
  function FirstChannelType(channels: seq<Channel>, channelId: string): (r: Option<string>)
    ensures r.None? <==> forall i :: 0 <= i < |channels| ==> channels[i].channelId != channelId
    ensures r.Some? ==>
              exists i :: && 0 <= i < |channels|
                          && channels[i].channelId == channelId
                          && channels[i].channelType == r.value
                          && forall j :: 0 <= j < i ==> channels[j].channelId != channelId
  {
    if channels == [] then None
    else if channels[0].channelId == channelId then Some(channels[0].channelType)
    else
      var r := FirstChannelType(channels[1..], channelId);
      assert forall i :: 1 <= i < |channels| ==> channels[i] == channels[1..][i - 1];
      if r.Some? then
        var i :| && 0 <= i < |channels| - 1
                 && channels[1..][i].channelId == channelId
                 && channels[1..][i].channelType == r.value
                 && forall j :: 0 <= j < i ==> channels[1..][j].channelId != channelId;
        assert channels[i + 1].channelId == channelId;
        r
      else r
  }

  /**
   * A message a user sent. Quick reply wins over attachments, which win over
   * plain text; attachments get language unknown; the flow stays as it was;
   * the channel type comes from the directory.
   */
  function ClassifyUserMsg(m: Msg, rec: Formatted, channels: seq<Channel>, ext: Externals): (r: Result<Formatted, Error>)
    ensures r.Success? <==>
              && ext.loadsUser(m.message).Some?
              && var p := ext.loadsUser(m.message).value;
              && ((p.hasQuickReply || p.attachments.None?) ==> p.text.Some?)
              && FirstChannelType(channels, rec.channelId).Some?
    ensures ext.loadsUser(m.message).None? ==> r == Failure(ParseError)
    ensures ext.loadsUser(m.message).Some? ==>
              var p := ext.loadsUser(m.message).value;
              && ((p.hasQuickReply || p.attachments.None?) && p.text.None? ==> r == Failure(MissingKey("text")))
              && ((((p.hasQuickReply || p.attachments.None?) ==> p.text.Some?)
                   && FirstChannelType(channels, rec.channelId).None?)
                  ==> r == Failure(UnresolvedChannel))
    ensures r.Success? ==>
              && ext.loadsUser(m.message).Some?
              && var p := ext.loadsUser(m.message).value;
              && (r.value.msgType == Some(QUICK_REPLY) <==> p.hasQuickReply)
              && (r.value.msgType == Some(ATTACHMENT) <==> !p.hasQuickReply && p.attachments.Some?)
              && (r.value.msgType == Some(TEXT) <==> !p.hasQuickReply && p.attachments.None?)
              && (r.value.msgType == Some(ATTACHMENT) ==>
                    && r.value.message == Some(ext.dumps(p.attachments.value))
                    && r.value.language == Some(UNKNOWN_LANG))
              && (r.value.msgType != Some(ATTACHMENT) ==>
                    && r.value.message == p.text
                    && r.value.language == Some(DetectLanguage(p.text.value)))
    ensures r.Success? ==> r.value.channelType == FirstChannelType(channels, rec.channelId)
    ensures r.Success? ==>
              r.value.(msgType := rec.msgType, message := rec.message,
                       language := rec.language, channelType := rec.channelType) == rec
  {
    match ext.loadsUser(m.message)
    case None => Failure(ParseError)
    case Some(p) =>
      var picked: Result<(string, string), Error> :=
        if p.hasQuickReply then
          (if p.text.Some? then Success((QUICK_REPLY, p.text.value)) else Failure(MissingKey("text")))
        else if p.attachments.Some? then
          Success((ATTACHMENT, ext.dumps(p.attachments.value)))
        else
          (if p.text.Some? then Success((TEXT, p.text.value)) else Failure(MissingKey("text")));
      match picked
      case Failure(e) => Failure(e)
      case Success((msgType, msg)) =>
        match FirstChannelType(channels, rec.channelId)
        case None => Failure(UnresolvedChannel)
        case Some(channelType) =>
          var lang := if msgType != ATTACHMENT then DetectLanguage(msg) else UNKNOWN_LANG;
          Success(rec.(msgType := Some(msgType), message := Some(msg),
                       channelType := Some(channelType), language := Some(lang)))
  }

  /** What a bot turn yields before the record is filled in; `flow` is `None` when no rule matched. */
  datatype BotOutcome = BotOutcome(msgType: string, message: string, language: string, flow: Option<string>)

  /** The flow written to the record: never empty, unknown when nothing (or an empty name) was found. */
  function FlowOrUnknown(flow: Option<string>): (r: string)
    ensures r != ""
    ensures flow.Some? && flow.value != "" ==> r == flow.value
    ensures flow.None? || flow.value == "" ==> r == UNKNOWN
  {
    if flow.Some? && flow.value != "" then flow.value else UNKNOWN
  }

  /**
   * A turn of several parts, judged by its first part alone: with text, a
   * sequence whose kind depends on whether a flow matches; without text,
   * nothing is assigned.
   */
  function ClassifySequence(first: BotMessage, lang: string, rules: seq<FlowRule>, matches: (string, string) -> bool)
    : (o: BotOutcome)
    ensures o.language == lang
    ensures first.text.Some? ==>
              && o.message == first.text.value
              && o.flow == FirstMatch(rules, first.text.value, matches)
              && (o.msgType == SEQ <==> o.flow.Some?)
              && (o.msgType == UNKNOWN_SEQ <==> o.flow.None?)
    ensures first.text.None? ==> o.msgType == "" && o.message == "" && o.flow == Some("")
  {
    if first.text.Some? then
      var flow := FirstMatch(rules, first.text.value, matches);
      BotOutcome(if flow.Some? then SEQ else UNKNOWN_SEQ, first.text.value, lang, flow)
    else
      BotOutcome("", "", lang, Some(""))
  }

  /**
   * A turn of one part: text (a quick reply when it has a non-empty
   * `quickReplies` list, plain text when it has none, no type at all when the
   * list is empty), else an attachment, else nothing.
   */
  function ClassifySingle(first: BotMessage, lang: string, rules: seq<FlowRule>, matches: (string, string) -> bool)
    : (r: Result<BotOutcome, Error>)
    ensures first.text.Some? ==>
              && r.Success?
              && r.value.message == first.text.value
              && r.value.language == lang
              && r.value.flow == FirstMatch(rules, first.text.value, matches)
              && (r.value.msgType == QUICK_REPLY <==> first.quickReplies.Some? && |first.quickReplies.value| > 0)
              && (r.value.msgType == TEXT <==> first.quickReplies.None?)
              && (r.value.msgType == "" <==> first.quickReplies == Some([]))
    ensures first.text.None? && first.attachment.Some? ==>
              var a := ClassifyAttachment(first.attachment.value);
              && (r.Success? <==> a.Success?)
              && (a.Failure? ==> r == Failure(a.error))
              && (a.Success? ==>
                    && r.value.msgType == a.value.kind
                    && r.value.message == a.value.text
                    && r.value.language == (if a.value.kind == IMAGE then UNKNOWN_LANG else lang)
                    && r.value.flow == Some(""))
    ensures first.text.None? && first.attachment.None? ==>
              r == Success(BotOutcome("", "", lang, Some("")))
  {
    if first.text.Some? then
      var flow := FirstMatch(rules, first.text.value, matches);
      var msgType :=
        match first.quickReplies
        case Some(quickReplies) => if |quickReplies| > 0 then QUICK_REPLY else ""
        case None => TEXT;
      Success(BotOutcome(msgType, first.text.value, lang, flow))
    else if first.attachment.Some? then
      match ClassifyAttachment(first.attachment.value)
      case Failure(e) => Failure(e)
      case Success(a) =>
        Success(BotOutcome(a.kind, a.text, if a.kind == IMAGE then UNKNOWN_LANG else lang, Some("")))
    else
      Success(BotOutcome("", "", lang, Some("")))
  }

  /**
   * A turn the bot sent: the decoded JSON list of parts. Language is detected
   * on the whole decoded text (images excepted); the flow is never empty; the
   * channel type is the message's own.
   */
  function ClassifyBotMsg(m: Msg, rec: Formatted, rules: seq<FlowRule>, ext: Externals): (r: Result<Formatted, Error>)
    ensures ext.loadsBot(m.message).None? ==> r == Failure(ParseError)
    ensures ext.loadsBot(m.message) == Some([]) ==> r == Failure(EmptyPayload)
    ensures r.Success? <==>
              && ext.loadsBot(m.message).Some?
              && |ext.loadsBot(m.message).value| > 0
              && ext.loadsBot(m.message).value[0].message.Some?
              && m.channelType.Some?
              && var first := ext.loadsBot(m.message).value[0].message.value;
                 (|ext.loadsBot(m.message).value| == 1 && first.text.None? && first.attachment.Some? ==>
                    ClassifyAttachment(first.attachment.value).Success?)
    ensures r.Success? ==>
              var parts := ext.loadsBot(m.message).value;
              var lang := DetectLanguage(m.message);
              var o := if |parts| > 1 then ClassifySequence(parts[0].message.value, lang, rules, ext.matches)
                       else ClassifySingle(parts[0].message.value, lang, rules, ext.matches).value;
              && r.value.msgType == Some(o.msgType)
              && r.value.message == Some(o.message)
              && r.value.flow == FlowOrUnknown(o.flow)
    ensures r.Success? ==>
              r.value.language == Some(if r.value.msgType == Some(IMAGE) then UNKNOWN_LANG else DetectLanguage(m.message))
    ensures r.Success? ==> r.value.flow != "" && r.value.channelType == m.channelType
    ensures r.Success? ==>
              r.value.(msgType := rec.msgType, message := rec.message, language := rec.language,
                       flow := rec.flow, channelType := rec.channelType) == rec
  {
    match ext.loadsBot(m.message)
    case None => Failure(ParseError)
    case Some(parts) =>
      var lang := DetectLanguage(m.message);
      var outcome: Result<BotOutcome, Error> :=
        if |parts| > 1 then
          match parts[0].message
          case None => Failure(MissingKey("message"))
          case Some(first) => Success(ClassifySequence(first, lang, rules, ext.matches))
        else if parts == [] then
          Failure(EmptyPayload)
        else
          match parts[0].message
          case None => Failure(MissingKey("message"))
          case Some(first) => ClassifySingle(first, lang, rules, ext.matches);
      match outcome
      case Failure(e) => Failure(e)
      case Success(o) =>
        match m.channelType
        case None => Failure(MissingKey("channel_type"))
        case Some(channelType) =>
          Success(rec.(msgType := Some(o.msgType), message := Some(o.message), language := Some(o.language),
                       flow := FlowOrUnknown(o.flow), channelType := Some(channelType)))
  }
}
