# Chatbot conversation classifier: a Dafny model

This project models the core of a batch job. The job turns raw chatbot
conversation events into flat analytics records, one per event. The modelled
parts are the following:

- **Classification pipeline** (`corelib/entry_point.py`). For each user, in
  dictionary order, the driver decodes that user's messages from base64. It
  sorts them by timestamp, ascending and stable. It builds one formatted record
  per message and concatenates the per-user blocks. The record gets a message
  type, a message text, a language (`TH`, `ENG` or `UNKNOWN`), a flow name and a
  channel type.
  - A message whose source is `user` goes to the user classifier. It checks for
    a quick reply first, then attachments, then plain text. It finds the
    channel type in the channel directory.
  - Any other message goes to the bot classifier. A turn of several parts is
    judged by its first part alone. A turn of one part is text, quick reply or
    an attachment, and attachments go through their own decision table.
  - Flows are found by trying the flow rules in order, and each rule's regular
    expressions in order.
- **Input shaping** (`gluejob.py`). Raw messages are grouped by user: the
  recipient when the bot sent the message, the sender otherwise. The channel
  directory keeps the first bot message of each channel type.

Modules, one file each:

- `Wrappers`: Option and Result.
- `Messages`: the data model and the foreign routines. The routines are
  base64+UTF-8 decoding, `json.loads` read as a user payload or as a bot turn,
  `json.dumps`, and a regular-expression search. They are bundled in an
  `Externals` value that the pipeline takes as a parameter.
- `Language`: language detection.
- `FlowMatch`: flow matching.
- `Classify`: record initialisation and the attachment, user and bot
  classifiers.
- `Sorting`: the stable timestamp sort.
- `Pipeline`: decoding and the driver `main`, modelled as `Pipeline.Run`.
- `GlueJob`: grouping by user and building the channel directory.

Behaviour kept exactly as the source has it:

- The Thai language label is `TH`, as `corelib/entry_point.py:30` has it.
- A single bot part that has text and an empty `quickReplies` list gets type
  `""` (`corelib/entry_point.py:152-156`).
- A bot sequence whose first part has no `text` gets type and message `""` and
  flow `UNKNOWN` (`corelib/entry_point.py:135-144`, `170`).
- A user message without a directory entry for its channel fails with
  `UnresolvedChannel`, as the exhausted `next(...)` at
  `corelib/entry_point.py:118` raises. It does not fall back to a default.
- Any error aborts the whole run. There is no per-event skip policy.
- The driver treats only `source == "user"` as a user message
  (`corelib/entry_point.py:59`). Grouping treats only `source == "bot"` as a
  bot message (`gluejob.py:92`). Both tests are kept as written, so a message
  with any third source value is grouped under its sender and classified as a
  bot turn.

## Model

| member | source | states |
|---|---|---|
| Language.ContainsThai | corelib/entry_point.py:13 | the Thai pattern finds a match iff some character of the text lies in U+0E00..U+0E7F |
| Language.ContainsLatin | corelib/entry_point.py:14 | the English pattern finds a match iff some character of the text is an ASCII letter |
| Language.DetectLanguage | corelib/entry_point.py:120 | `TH` iff the text has a Thai character, even when Latin letters are present; `ENG` iff it has no Thai character and some ASCII letter; `UNKNOWN` iff it has neither, so empty text gives `UNKNOWN` |
| FlowMatch.AnyPatternMatches | corelib/entry_point.py:204-206 | true iff some regular expression of the rule finds a match in the text |
| FlowMatch.FirstMatchIsEarliest | corelib/entry_point.py:202-208 | no flow iff no pattern of any rule matches; otherwise the flow of the earliest rule, in list order, that has a matching pattern |
| FlowMatch.FirstMatchIsRuleFlow | corelib/entry_point.py:207 | any flow found is the flow name of some rule in the list |
| FlowMatch.FindMatchRegex | corelib/entry_point.py:202-208 | the nested loop with early return yields exactly the first-match flow characterised above |
| Classify.InitFormattedObject | corelib/entry_point.py:85-96 | copies channel id, source and interaction target, sets the user id, sets flow `UNKNOWN`; the UTC and Bangkok timestamps render the same instant, the message's timestamp; type, message, language and channel type not yet set |
| Classify.ClassifyAttachment | corelib/entry_point.py:174-200 | template with `templateType` `button` gives BUTTON_TEMPLATE with the payload text; any other template gives GENERIC_TEMPLATE with `<TEMPLATE>`; image gives IMAGE with `<IMAGE ATTACHMENT:` + url + `>`; any other type gives UNKNOWN_ATTACHMENT with `<UNKNOWN ATTACHMENT>`; fails exactly when a key read on the taken branch is missing |
| Classify.FirstChannelType | corelib/entry_point.py:118 | the channel type of the first directory entry whose channel id is the record's; none iff no entry has that id |
| Classify.ClassifyUserMsg | corelib/entry_point.py:98-124 | succeeds iff the payload parses, `text` is present whenever the quick-reply or text branch is taken, and the directory has the record's channel; quick reply wins over attachments, which win over text; the message is the `text` (or the serialised attachments); language is detected on the message, except ATTACHMENT, which is `UNKNOWN`; channel type from the directory; parse failure, missing `text` and unresolved channel are errors; flow and every other key unchanged |
| Classify.FlowOrUnknown | corelib/entry_point.py:170 | the flow written is never empty: the found flow when it is non-empty, `UNKNOWN` otherwise |
| Classify.ClassifySequence | corelib/entry_point.py:132-144 | with text in the first part: message is that text, type SEQUENCE_OF_MESSAGE iff a flow matches, UNKNOWN_SEQUENCE_OF_MESSAGE iff none does; without text: type and message `""` and no flow |
| Classify.ClassifySingle | corelib/entry_point.py:145-165 | with text: message is the text, flow from the matcher, QUICK_REPLY iff `quickReplies` is non-empty, TEXT iff absent, `""` iff empty; else with an attachment: type and message from the attachment table, language `UNKNOWN` for IMAGE; else type and message `""` |
| Classify.ClassifyBotMsg | corelib/entry_point.py:126-172 | succeeds iff the turn parses, is non-empty, its first part has `message`, the attachment (when used) classifies, and the event has a channel type; only part 0 is inspected; language is detected on the whole decoded text except IMAGE (`UNKNOWN`); flow is never empty; channel type is the event's own; other keys unchanged |
| Sorting.SortByTimestampIsStableSort | corelib/entry_point.py:50 | the sort is ascending by timestamp, a permutation of its input, and keeps input order among messages with equal timestamps |
| Pipeline.DecodeAll | corelib/entry_point.py:74-80 | succeeds iff every payload decodes; then one message per input, each the input with its payload replaced by the decoded text |
| Pipeline.DecodeMsgList | corelib/entry_point.py:74-80 | the decoding loop computes exactly the decoded list above, failing with `DecodeError` |
| Pipeline.ClassifyOne | corelib/entry_point.py:56-63 | a successful record is complete for its message and user: every key set, identity keys copied, both timestamps the message's instant, non-empty flow, language one of the three labels; a user record keeps flow `UNKNOWN` and takes the directory's channel type; a bot record keeps the event's channel type |
| Pipeline.MapUntilErrorPointwise | corelib/entry_point.py:54-64 | classifying a user's list succeeds iff every message classifies, and then yields exactly one record per message, in order |
| Pipeline.UserBlockShape | corelib/entry_point.py:46-64 | a user's block has one complete record per message of that user; record i describes message i of the stably sorted decoded list, so records ascend by timestamp |
| Pipeline.UserBlockLength | corelib/entry_point.py:46-64 | a successful user's block holds exactly as many records as that user has messages |
| Pipeline.PipelineOverSucceeds | corelib/entry_point.py:44-71 | the run succeeds iff every user's block does |
| Pipeline.PipelineOverOnePerMessage | corelib/entry_point.py:44-71 | a successful run emits exactly as many records as input messages |
| Pipeline.FormatMessages | corelib/entry_point.py:52-64 | the inner loop over one user's sorted messages yields exactly the records of the list, in order, or the first error raised |
| Pipeline.Run | corelib/entry_point.py:34-72 | the driver's nested loops return exactly the concatenation, in dictionary order, of the per-user blocks, or the first error raised |
| GlueJob.ForUserMembers | gluejob.py:91-97 | a message lands in a user's list iff it is an input message whose user key is that user |
| GlueJob.UsersInOrderSpec | gluejob.py:92-94 | the dictionary's users are pairwise distinct and are exactly the user keys that occur in the input |
| GlueJob.GetPerUserInteractMsgList | gluejob.py:89-98 | the loop builds a valid dictionary whose keys are the users in order of first appearance and whose list for each user is that user's messages in input order |
| GlueJob.PartitionLengths | gluejob.py:91-97 | the users' list lengths sum to the input length |
| GlueJob.BotMessages | gluejob.py:116 | the filtered list holds exactly the input messages whose source is `bot` |
| GlueJob.FirstOccurrencesAscend | gluejob.py:119-130 | the positions of first occurrences are in range and strictly ascending |
| GlueJob.FirstOccurrencesExact | gluejob.py:119-130 | a position is listed iff no earlier bot message has its channel type |
| GlueJob.FirstOfEachTypeSpec | gluejob.py:119-130 | the directory lists, in input order, the first bot message of each channel type, with that message's channel id and type |
| GlueJob.ChannelTypesDistinct | gluejob.py:122-130 | the channel types in the directory are pairwise distinct |
| GlueJob.ChannelTypesCovered | gluejob.py:119-130 | every bot message's channel type appears in the directory |
| GlueJob.GetChannelList | gluejob.py:111-132 | the loop over bot messages yields exactly that directory, and fails with a missing `channel_type` iff some bot message lacks one |

## Left out

- The Spark/Glue plumbing is left out: `CustomGlueJob`, `read_table`, `write_to_s3`, the DataFrame column derivations (`gluejob.py:37-73`, `140-153`) and the module-level `CustomGlueJob().run()`. These are distributed I/O with no decision logic.
- `get_flow_detection_regex` reads a file, and `print_logger` and the logger calls only log. Both are left out.
- `get_formatted_dict_of_per_user_msg` only forwards to `main`. The empty `sort_msg_list_by_timestamp` stub is never called. Both are left out.
- base64 and UTF-8 decoding (RFC 4648 section 4), `json.loads` and `json.dumps` are foreign library calls. They are modelled as total functions supplied in `Externals`. The first two may fail.
- `re.search` is modelled as a supplied `matches(pattern, text)` predicate. An invalid pattern raising `re.error` is not modelled.
- JSON values of an unexpected type are not modelled separately. Examples are a `text` that is not a string, or a `payload` that is not an object. Python's `in` on a list or a string is not modelled either. The parser produces typed payloads, so all such cases count as its failure (`ParseError`).
- The record `id` from `uuid.uuid4()` is left out, because randomness cannot be modelled. Uniqueness of ids is therefore not stated.
- `datetime.fromtimestamp` with time zones is modelled as a pair of epoch milliseconds and a zone. Float division, microsecond rounding and the calendar rendering are not modelled.
- The module-level globals are replaced by parameters. These are the channel list and the flow rules; the logger is left out (see above).
- The classifiers update the record dictionary in place. Here they return the updated record value. The caller uses only the returned object, so no sharing is lost.
- `decode_msg_list` overwrites each input dictionary's `message` in place. Here it returns new messages, so the caller's inputs are not shown as changed.
- The inner loop of `main` (`corelib/entry_point.py:52-64`) is its own method, `Pipeline.FormatMessages`, which `Pipeline.Run` calls once per user. It dispatches each message through `ClassifyOne`, the function form of the loop body at `corelib/entry_point.py:56-63`.
- Raw messages are assumed to carry `source`, `channel_id`, `timestamp`, `interact_with`, `sender_id` and `recipient_id`, so a `KeyError` on these is not modelled. This makes the `'source' in msg` guard at `gluejob.py:116` always true. Only `channel_type` is optional.
- Only the first error raised is modelled, as one of `DecodeError`, `ParseError`, `MissingKey`, `EmptyPayload` and `UnresolvedChannel`. Python's exception classes and tracebacks are not modelled.
