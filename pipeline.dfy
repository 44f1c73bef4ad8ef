/**
 * The driver: for each user in dictionary order, decode the user's messages,
 * sort them by timestamp, classify each into one record, and concatenate the
 * per-user blocks. Any error aborts the whole run.
 */
module Pipeline {
  import opened Wrappers
  import opened Messages
  import opened Language
  import opened Classify
  import opened Sorting

  /** Every message of `msgs` with its payload decoded, or `DecodeError` when one cannot be. */
  function DecodeAll(msgs: seq<Msg>, ext: Externals): (r: Result<seq<Msg>, Error>)
    ensures r.Success? <==> forall i :: 0 <= i < |msgs| ==> ext.b64Decode(msgs[i].message).Some?
    ensures r.Failure? ==> r.error == DecodeError
    ensures r.Success? ==>
              && |r.value| == |msgs|
              && forall i :: 0 <= i < |msgs| ==>
                   r.value[i] == msgs[i].(message := ext.b64Decode(msgs[i].message).value)
  {
    if msgs == [] then Success([])
    else
      var init := msgs[..|msgs| - 1];
      var last := msgs[|msgs| - 1];
      match DecodeAll(init, ext)
      case Failure(e) => Failure(e)
      case Success(decoded) =>
        match ext.b64Decode(last.message)
        case None => Failure(DecodeError)
        case Some(text) => Success(decoded + [last.(message := text)])
  }

  /** The decoding loop, which rewrites each message's payload in turn. */
  method DecodeMsgList(msgs: seq<Msg>, ext: Externals) returns (res: Result<seq<Msg>, Error>)
    ensures res == DecodeAll(msgs, ext)
  {
    var decodedMsgList: seq<Msg> := [];
    for i := 0 to |msgs|
      invariant DecodeAll(msgs[..i], ext) == Success(decodedMsgList)
    {
      var msgObject := msgs[i];
      assert msgs[..i + 1][..i] == msgs[..i];
      match ext.b64Decode(msgObject.message)
      case None =>
        assert DecodeAll(msgs[..i + 1], ext).Failure?;
        assert !ext.b64Decode(msgs[i].message).Some?;
        return Failure(DecodeError);
      case Some(decodedMsg) =>
        msgObject := msgObject.(message := decodedMsg);
        decodedMsgList := decodedMsgList + [msgObject];
    }
    assert msgs[..|msgs|] == msgs;
    return Success(decodedMsgList);
  }

  /**
   * The body of the driver's inner loop: the record initialised for message
   * `m` of user `userId`, completed by the classifier its source selects.
   */
  function ClassifyOne(m: Msg, userId: string, channels: seq<Channel>, rules: seq<FlowRule>, ext: Externals)
    : (r: Result<Formatted, Error>)
    ensures r.Success? ==> Describes(r.value, m, userId)
    ensures r.Success? && m.source == "user" ==>
              r.value.flow == UNKNOWN && r.value.channelType == FirstChannelType(channels, m.channelId)
    ensures r.Success? && m.source != "user" ==> r.value.channelType == m.channelType
  {
    var rec := InitFormattedObject(m, userId);
    if m.source == "user" then ClassifyUserMsg(m, rec, channels, ext)
    else ClassifyBotMsg(m, rec, rules, ext)
  }

  /**
   * `r` is a complete record of message `m` for user `userId`: every key set,
   * identity keys copied, both timestamps the instant of `m`, a non-empty flow.
   */
  ghost predicate Describes(r: Formatted, m: Msg, userId: string) {
    && r.channelId == m.channelId
    && r.userId == userId
    && r.source == m.source
    && r.interactWith == m.interactWith
    && r.utcTimestamp == Timestamp(m.timestamp, Utc)
    && r.thaiTimestamp == Timestamp(m.timestamp, AsiaBangkok)
    && r.flow != ""
    && r.msgType.Some? && r.message.Some? && r.language.Some? && r.channelType.Some?
    && r.language.value in {THAI_LANG, EN_LANG, UNKNOWN_LANG}
  }

  /** `f` applied to each element of `s` in order, stopping at the first error. */
  function MapUntilError<A, B>(s: seq<A>, f: A -> Result<B, Error>): Result<seq<B>, Error> {
    if s == [] then Success([])
    else
      match MapUntilError(s[..|s| - 1], f)
      case Failure(e) => Failure(e)
      case Success(rs) =>
        match f(s[|s| - 1])
        case Failure(e) => Failure(e)
        case Success(r) => Success(rs + [r])
  }

  /** Once a prefix fails, the whole sequence fails with the same error. */
  lemma {:induction false} MapUntilErrorFailurePersists<A, B>(s: seq<A>, n: nat, f: A -> Result<B, Error>)
    requires n <= |s|
    requires MapUntilError(s[..n], f).Failure?
    ensures MapUntilError(s, f) == MapUntilError(s[..n], f)
  {
    if n < |s| {
      assert s[..|s| - 1][..n] == s[..n];
      MapUntilErrorFailurePersists(s[..|s| - 1], n, f);
    } else {
      assert s[..n] == s;
    }
  }

  /** Success exactly when every element succeeds, giving one result per element, in order. */
  lemma {:induction false} MapUntilErrorPointwise<A, B>(s: seq<A>, f: A -> Result<B, Error>)
    ensures MapUntilError(s, f).Success? <==> forall i :: 0 <= i < |s| ==> f(s[i]).Success?
    ensures MapUntilError(s, f).Success? ==>
              && |MapUntilError(s, f).value| == |s|
              && forall i :: 0 <= i < |s| ==> f(s[i]) == Success(MapUntilError(s, f).value[i])
  {
    if s != [] {
      var init := s[..|s| - 1];
      MapUntilErrorPointwise(init, f);
      assert forall i :: 0 <= i < |init| ==> init[i] == s[i];
    }
  }

  /** The records of `msgs` in order, or the first error raised. */
  function ClassifyAll(msgs: seq<Msg>, userId: string, channels: seq<Channel>, rules: seq<FlowRule>, ext: Externals)
    : Result<seq<Formatted>, Error>
  {
    MapUntilError(msgs, m => ClassifyOne(m, userId, channels, rules, ext))
  }

  /** The records of one user: decode, sort by timestamp, classify. */
  function UserBlock(userId: string, msgs: seq<Msg>, channels: seq<Channel>, rules: seq<FlowRule>, ext: Externals)
    : Result<seq<Formatted>, Error>
  {
    match DecodeAll(msgs, ext)
    case Failure(e) => Failure(e)
    case Success(decoded) => ClassifyAll(SortByTimestamp(decoded), userId, channels, rules, ext)
  }

  /**
   * A user's block has one complete record per message of that user, in
   * ascending timestamp order; record `i` describes message `i` of the stably
   * sorted decoded list.
   */
  lemma UserBlockShape(userId: string, msgs: seq<Msg>, channels: seq<Channel>, rules: seq<FlowRule>, ext: Externals)
    ensures UserBlock(userId, msgs, channels, rules, ext).Success? ==>
              var rs := UserBlock(userId, msgs, channels, rules, ext).value;
              var sorted := SortByTimestamp(DecodeAll(msgs, ext).value);
              && |rs| == |msgs| == |sorted|
              && (forall i :: 0 <= i < |rs| ==> Describes(rs[i], sorted[i], userId))
              && (forall i, j :: 0 <= i < j < |rs| ==> rs[i].utcTimestamp.epochMs <= rs[j].utcTimestamp.epochMs)
  {
    if UserBlock(userId, msgs, channels, rules, ext).Success? {
      var sorted := SortByTimestamp(DecodeAll(msgs, ext).value);
      SortByTimestampIsStableSort(DecodeAll(msgs, ext).value);
      MapUntilErrorPointwise(sorted, m => ClassifyOne(m, userId, channels, rules, ext));
    }
  }

  /** A user's block has one record per message of that user. */
  lemma UserBlockLength(userId: string, msgs: seq<Msg>, channels: seq<Channel>, rules: seq<FlowRule>, ext: Externals)
    ensures UserBlock(userId, msgs, channels, rules, ext).Success? ==>
              |UserBlock(userId, msgs, channels, rules, ext).value| == |msgs|
  {
    if UserBlock(userId, msgs, channels, rules, ext).Success? {
      var decoded := DecodeAll(msgs, ext).value;
      SortPermutes(decoded);
      MapUntilErrorPointwise(SortByTimestamp(decoded), m => ClassifyOne(m, userId, channels, rules, ext));
    }
  }

  /** The concatenated blocks of the users `keys`, or the first error raised. */
  function PipelineOver(keys: seq<string>, users: OrderedMap<string, seq<Msg>>, channels: seq<Channel>,
                        rules: seq<FlowRule>, ext: Externals): Result<seq<Formatted>, Error>
    requires forall i :: 0 <= i < |keys| ==> keys[i] in users.entries
  {
    if keys == [] then Success([])
    else
      var u := keys[|keys| - 1];
      match PipelineOver(keys[..|keys| - 1], users, channels, rules, ext)
      case Failure(e) => Failure(e)
      case Success(acc) =>
        match UserBlock(u, users.entries[u], channels, rules, ext)
        case Failure(e) => Failure(e)
        case Success(block) => Success(acc + block)
  }

  /** What the driver returns for the given directory, rules and per-user messages. */
  function Pipeline(channels: seq<Channel>, rules: seq<FlowRule>, users: OrderedMap<string, seq<Msg>>, ext: Externals)
    : Result<seq<Formatted>, Error>
    requires users.Valid()
  {
    assert forall i :: 0 <= i < |users.keys| ==> users.keys[i] in users.entries;
    PipelineOver(users.keys, users, channels, rules, ext)
  }

  lemma {:induction false} PipelineFailurePersists(keys: seq<string>, n: nat, users: OrderedMap<string, seq<Msg>>,
                                                   channels: seq<Channel>, rules: seq<FlowRule>, ext: Externals)
    requires n <= |keys|
    requires forall i :: 0 <= i < |keys| ==> keys[i] in users.entries
    requires PipelineOver(keys[..n], users, channels, rules, ext).Failure?
    ensures PipelineOver(keys, users, channels, rules, ext) == PipelineOver(keys[..n], users, channels, rules, ext)
  {
    if n < |keys| {
      assert keys[..|keys| - 1][..n] == keys[..n];
      PipelineFailurePersists(keys[..|keys| - 1], n, users, channels, rules, ext);
    } else {
      assert keys[..n] == keys;
    }
  }

  /** Total number of messages held for the users `keys`. */
  function MessageCount(keys: seq<string>, users: OrderedMap<string, seq<Msg>>): nat
    requires forall i :: 0 <= i < |keys| ==> keys[i] in users.entries
  {
    if keys == [] then 0
    else MessageCount(keys[..|keys| - 1], users) + |users.entries[keys[|keys| - 1]]|
  }

  /** The run succeeds exactly when every user's block does. */
  lemma {:induction false} PipelineOverSucceeds(keys: seq<string>, users: OrderedMap<string, seq<Msg>>,
                                                channels: seq<Channel>, rules: seq<FlowRule>, ext: Externals)
    requires forall i :: 0 <= i < |keys| ==> keys[i] in users.entries
    ensures PipelineOver(keys, users, channels, rules, ext).Success? <==>
              forall i :: 0 <= i < |keys| ==> UserBlock(keys[i], users.entries[keys[i]], channels, rules, ext).Success?
  {
    if keys != [] {
      var init := keys[..|keys| - 1];
      PipelineOverSucceeds(init, users, channels, rules, ext);
      assert forall i :: 0 <= i < |init| ==> init[i] == keys[i];
    }
  }

  /** A successful run emits exactly one record per input message. */
  lemma {:induction false} PipelineOverOnePerMessage(keys: seq<string>, users: OrderedMap<string, seq<Msg>>,
                                                     channels: seq<Channel>, rules: seq<FlowRule>, ext: Externals)
    requires forall i :: 0 <= i < |keys| ==> keys[i] in users.entries
    ensures PipelineOver(keys, users, channels, rules, ext).Success? ==>
              |PipelineOver(keys, users, channels, rules, ext).value| == MessageCount(keys, users)
  {
    if keys != [] {
      var init := keys[..|keys| - 1];
      var u := keys[|keys| - 1];
      PipelineOverOnePerMessage(init, users, channels, rules, ext);
      UserBlockLength(u, users.entries[u], channels, rules, ext);
    }
  }

  /** The driver's inner loop: one record per sorted message of user `userId`, appended in order. */
  method FormatMessages(sortedMsgList: seq<Msg>, userId: string, channels: seq<Channel>, rules: seq<FlowRule>,
                        ext: Externals) returns (res: Result<seq<Formatted>, Error>)
    ensures res == ClassifyAll(sortedMsgList, userId, channels, rules, ext)
  {
    var formattedMsgList: seq<Formatted> := [];
    ghost var classify := m => ClassifyOne(m, userId, channels, rules, ext);
    for j := 0 to |sortedMsgList|
      invariant MapUntilError(sortedMsgList[..j], classify) == Success(formattedMsgList)
    {
      var msgObject := sortedMsgList[j];
      assert sortedMsgList[..j + 1][..j] == sortedMsgList[..j];
      var result := ClassifyOne(msgObject, userId, channels, rules, ext);
      if result.Failure? {
        MapUntilErrorFailurePersists(sortedMsgList, j + 1, classify);
        return Failure(result.error);
      }
      formattedMsgList := formattedMsgList + [result.value];
    }
    assert sortedMsgList[..|sortedMsgList|] == sortedMsgList;
    return Success(formattedMsgList);
  }

  /** The driver's outer loop, appending each user's block. */
  method Run(channels: seq<Channel>, rules: seq<FlowRule>, users: OrderedMap<string, seq<Msg>>, ext: Externals)
    returns (res: Result<seq<Formatted>, Error>)
    requires users.Valid()
    ensures res == Pipeline(channels, rules, users, ext)
  {
    assert forall i :: 0 <= i < |users.keys| ==> users.keys[i] in users.entries;
    var allMessages: seq<Formatted> := [];
    for i := 0 to |users.keys|
      invariant PipelineOver(users.keys[..i], users, channels, rules, ext) == Success(allMessages)
    {
      var userId := users.keys[i];
      var msgList := users.entries[userId];
      ghost var prefix := users.keys[..i + 1];
      assert prefix[..i] == users.keys[..i] && prefix[i] == userId;
      ghost var block := UserBlock(userId, msgList, channels, rules, ext);
      assert PipelineOver(prefix, users, channels, rules, ext) ==
               if block.Failure? then Failure(block.error) else Success(allMessages + block.value);
      var decoded := DecodeMsgList(msgList, ext);
      if decoded.Failure? {
        PipelineFailurePersists(users.keys, i + 1, users, channels, rules, ext);
        return Failure(decoded.error);
      }
      var sortedMsgList := SortByTimestamp(decoded.value);
      var formatted := FormatMessages(sortedMsgList, userId, channels, rules, ext);
      if formatted.Failure? {
        PipelineFailurePersists(users.keys, i + 1, users, channels, rules, ext);
        return Failure(formatted.error);
      }
      var formattedMsgList := formatted.value;
      allMessages := allMessages + formattedMsgList;
    }
    assert users.keys[..|users.keys|] == users.keys;
    return Success(allMessages);
  }
}
