/**
 * The two input-shaping helpers of the batch job: grouping the raw messages by
 * user, and building the channel directory from the messages the bot sent.
 */
module GlueJob {
  import opened Wrappers
  import opened Messages

  /** The user a message belongs to: its recipient when the bot sent it, else its sender. */
  function UserKey(m: Msg): string {
    if m.source == "bot" then m.recipientId else m.senderId
  }

  /** The messages of `msgs` that belong to user `k`, in input order. */
  function ForUser(msgs: seq<Msg>, k: string): seq<Msg> {
    if msgs == [] then []
    else
      var last := msgs[|msgs| - 1];
      ForUser(msgs[..|msgs| - 1], k) + (if UserKey(last) == k then [last] else [])
  }

  /** The distinct users of `msgs` in order of first appearance. */
  function UsersInOrder(msgs: seq<Msg>): seq<string> {
    if msgs == [] then []
    else
      var users := UsersInOrder(msgs[..|msgs| - 1]);
      var k := UserKey(msgs[|msgs| - 1]);
      if k in users then users else users + [k]
  }

  /** A user's list holds exactly the input messages that belong to that user. */
  lemma {:induction false} ForUserMembers(msgs: seq<Msg>, k: string)
    ensures forall x :: x in ForUser(msgs, k) <==> x in msgs && UserKey(x) == k
  {
    if msgs != [] {
      var init := msgs[..|msgs| - 1];
      ForUserMembers(init, k);
      assert msgs == init + [msgs[|msgs| - 1]];
    }
  }

  /** The users listed are pairwise distinct and are exactly the users that occur in the input. */
  lemma {:induction false} UsersInOrderSpec(msgs: seq<Msg>)
    ensures forall i, j :: 0 <= i < j < |UsersInOrder(msgs)| ==> UsersInOrder(msgs)[i] != UsersInOrder(msgs)[j]
    ensures forall k :: k in UsersInOrder(msgs) <==> exists i :: 0 <= i < |msgs| && UserKey(msgs[i]) == k
  {
    if msgs != [] {
      var init := msgs[..|msgs| - 1];
      UsersInOrderSpec(init);
      assert forall i :: 0 <= i < |init| ==> init[i] == msgs[i];
    }
  }

  /** A user not yet seen has no messages. */
  lemma {:induction false} ForUserOfUnseen(msgs: seq<Msg>, k: string)
    requires k !in UsersInOrder(msgs)
    ensures ForUser(msgs, k) == []
  {
    if msgs != [] {
      var init := msgs[..|msgs| - 1];
      assert UserKey(msgs[|msgs| - 1]) in UsersInOrder(msgs);
      assert forall u :: u in UsersInOrder(init) ==> u in UsersInOrder(msgs);
      ForUserOfUnseen(init, k);
    }
  }

  /** The invariant of the grouping loop: `d` holds the grouping of `msgs`. */
  ghost predicate GroupsOf(d: OrderedMap<string, seq<Msg>>, msgs: seq<Msg>) {
    && d.Valid()
    && d.keys == UsersInOrder(msgs)
    && forall k :: k in d.entries ==> d.entries[k] == ForUser(msgs, k)
  }

  /** Appending a message of a user not seen so far adds that user at the end, with a one-message list. */
  lemma GroupNewUser(d: OrderedMap<string, seq<Msg>>, msgs: seq<Msg>, m: Msg)
    requires GroupsOf(d, msgs) && UserKey(m) !in d.entries
    ensures GroupsOf(OrderedMap(d.keys + [UserKey(m)], d.entries[UserKey(m) := [m]]), msgs + [m])
  {
    var u := UserKey(m);
    var next := msgs + [m];
    assert next[..|msgs|] == msgs;
    assert u !in UsersInOrder(msgs);
    ForUserOfUnseen(msgs, u);
  }

  /** Appending a message of a user already seen appends it to that user's list only. */
  lemma GroupKnownUser(d: OrderedMap<string, seq<Msg>>, msgs: seq<Msg>, m: Msg)
    requires GroupsOf(d, msgs) && UserKey(m) in d.entries
    ensures GroupsOf(d.(entries := d.entries[UserKey(m) := d.entries[UserKey(m)] + [m]]), msgs + [m])
  {
  }

  /** The grouping loop, which adds each message to its user's list in the dictionary. */
  method GetPerUserInteractMsgList(msgList: seq<Msg>) returns (d: OrderedMap<string, seq<Msg>>)
    ensures d.Valid()
    ensures d.keys == UsersInOrder(msgList)
    ensures forall k :: k in d.entries ==> d.entries[k] == ForUser(msgList, k)
  {
    d := OrderedMap([], map[]);
    for i := 0 to |msgList|
      invariant GroupsOf(d, msgList[..i])
    {
      var msg := msgList[i];
      var userId := if msg.source == "bot" then msg.recipientId else msg.senderId;
      assert msgList[..i + 1] == msgList[..i] + [msg];
      if userId !in d.entries {
        GroupNewUser(d, msgList[..i], msg);
        d := OrderedMap(d.keys + [userId], d.entries[userId := [msg]]);
      } else {
        GroupKnownUser(d, msgList[..i], msg);
        var prevMsgList := d.entries[userId];
        d := d.(entries := d.entries[userId := prevMsgList + [msg]]);
      }
    }
    assert msgList[..|msgList|] == msgList;
  }

  /** The summed lengths of the lists of the users `keys`. */
  function TotalLength(keys: seq<string>, msgs: seq<Msg>): nat {
    if keys == [] then 0
    else TotalLength(keys[..|keys| - 1], msgs) + |ForUser(msgs, keys[|keys| - 1])|
  }

  lemma {:induction false} TotalLengthStep(keys: seq<string>, msgs: seq<Msg>, m: Msg)
    requires forall i, j :: 0 <= i < j < |keys| ==> keys[i] != keys[j]
    ensures TotalLength(keys, msgs + [m]) == TotalLength(keys, msgs) + (if UserKey(m) in keys then 1 else 0)
  {
    if keys != [] {
      var init := keys[..|keys| - 1];
      TotalLengthStep(init, msgs, m);
      assert (msgs + [m])[..|msgs|] == msgs;
      assert UserKey(m) in keys <==> UserKey(m) in init || UserKey(m) == keys[|keys| - 1];
    }
  }

  /** Grouping is a partition: the users' lists together are as long as the input. */
  lemma {:induction false} PartitionLengths(msgs: seq<Msg>)
    ensures TotalLength(UsersInOrder(msgs), msgs) == |msgs|
  {
    if msgs != [] {
      var init := msgs[..|msgs| - 1];
      var m := msgs[|msgs| - 1];
      var users := UsersInOrder(init);
      PartitionLengths(init);
      UsersInOrderSpec(init);
      assert msgs == init + [m];
      TotalLengthStep(users, init, m);
      if UserKey(m) !in users {
        ForUserOfUnseen(init, UserKey(m));
        assert (users + [UserKey(m)])[..|users|] == users;
      }
    }
  }

  /** The messages the bot sent, in input order. */
  function BotMessages(msgs: seq<Msg>): (bots: seq<Msg>)
    ensures forall x :: x in bots <==> x in msgs && x.source == "bot"
  {
    if msgs == [] then []
    else
      var last := msgs[|msgs| - 1];
      assert msgs == msgs[..|msgs| - 1] + [last];
      BotMessages(msgs[..|msgs| - 1]) + (if last.source == "bot" then [last] else [])
  }

  /** No message before position `i` has the channel type of message `i`. */
  ghost predicate IsFirstOfType(bots: seq<Msg>, i: int)
    requires 0 <= i < |bots|
  {
    forall j :: 0 <= j < i ==> bots[j].channelType != bots[i].channelType
  }

  ghost predicate AllTyped(bots: seq<Msg>) {
    forall i :: 0 <= i < |bots| ==> bots[i].channelType.Some?
  }

  /** Positions of the first message of each channel type, ascending. */
  ghost function FirstOccurrences(bots: seq<Msg>): seq<nat> {
    if bots == [] then []
    else FirstOccurrences(bots[..|bots| - 1]) + (if IsFirstOfType(bots, |bots| - 1) then [|bots| - 1] else [])
  }

  /** The directory entry of each first occurrence, in the order of the input. */
  ghost function FirstOfEachType(bots: seq<Msg>): seq<Channel>
    requires AllTyped(bots)
  {
    if bots == [] then []
    else
      var n := |bots| - 1;
      FirstOfEachType(bots[..n])
        + (if IsFirstOfType(bots, n) then [Channel(bots[n].channelId, bots[n].channelType.value)] else [])
  }

  /** The positions listed are in range and ascend. */
  lemma {:induction false} FirstOccurrencesAscend(bots: seq<Msg>)
    ensures forall j :: 0 <= j < |FirstOccurrences(bots)| ==> FirstOccurrences(bots)[j] < |bots|
    ensures forall j1, j2 :: 0 <= j1 < j2 < |FirstOccurrences(bots)| ==>
              FirstOccurrences(bots)[j1] < FirstOccurrences(bots)[j2]
  {
    if bots != [] {
      var n := |bots| - 1;
      var prev := FirstOccurrences(bots[..n]);
      FirstOccurrencesAscend(bots[..n]);
      assert forall j :: 0 <= j < |prev| ==> prev[j] < n;
      assert FirstOccurrences(bots) == prev + (if IsFirstOfType(bots, n) then [n] else []);
    }
  }

  /** Every position listed is a first occurrence of its channel type, and every first occurrence is listed. */
  lemma {:induction false} FirstOccurrencesExact(bots: seq<Msg>)
    ensures var idx := FirstOccurrences(bots);
            forall i :: 0 <= i < |bots| ==> (i in idx <==> IsFirstOfType(bots, i))
  {
    if bots != [] {
      var n := |bots| - 1;
      var init := bots[..n];
      FirstOccurrencesExact(init);
      FirstOccurrencesAscend(init);
      assert forall i :: 0 <= i < n ==> init[i] == bots[i];
      assert forall i :: 0 <= i < n ==> (IsFirstOfType(init, i) <==> IsFirstOfType(bots, i));
    }
  }

  /**
   * The directory lists, in input order, the first message of each channel
   * type: entry `j` carries the channel id and type of the message at the
   * `j`-th first-occurrence position.
   */
  lemma {:induction false} FirstOfEachTypeSpec(bots: seq<Msg>)
    requires AllTyped(bots)
    ensures var idx := FirstOccurrences(bots);
            var r := FirstOfEachType(bots);
            && |r| == |idx|
            && (forall j :: 0 <= j < |idx| ==> idx[j] < |bots|)
            && (forall j :: 0 <= j < |r| ==>
                  r[j] == Channel(bots[idx[j]].channelId, bots[idx[j]].channelType.value))
  {
    if bots != [] {
      var n := |bots| - 1;
      var init := bots[..n];
      FirstOfEachTypeSpec(init);
      assert forall i :: 0 <= i < n ==> init[i] == bots[i];
      assert AllTyped(init);
      assert IsFirstOfType(init + [bots[n]], n) == IsFirstOfType(bots, n) by { assert init + [bots[n]] == bots; }
    }
  }

  /** The channel types in the directory are pairwise distinct. */
  lemma ChannelTypesDistinct(bots: seq<Msg>)
    requires AllTyped(bots)
    ensures forall j1, j2 :: 0 <= j1 < j2 < |FirstOfEachType(bots)| ==>
              FirstOfEachType(bots)[j1].channelType != FirstOfEachType(bots)[j2].channelType
  {
    FirstOccurrencesAscend(bots);
    FirstOccurrencesExact(bots);
    FirstOfEachTypeSpec(bots);
    var idx := FirstOccurrences(bots);
    forall j1, j2 | 0 <= j1 < j2 < |FirstOfEachType(bots)|
      ensures FirstOfEachType(bots)[j1].channelType != FirstOfEachType(bots)[j2].channelType
    {
      assert idx[j2] in idx;
      assert IsFirstOfType(bots, idx[j2]);
      assert bots[idx[j1]].channelType != bots[idx[j2]].channelType;
    }
  }

  /** Every message of `bots` has its channel type listed in `channels`. */
  ghost predicate CoversTypes(channels: seq<Channel>, bots: seq<Msg>) {
    forall i :: 0 <= i < |bots| ==>
      exists j :: 0 <= j < |channels| && Some(channels[j].channelType) == bots[i].channelType
  }

  /** Every bot message's channel type appears in the directory. */
  lemma {:induction false} ChannelTypesCovered(bots: seq<Msg>)
    requires AllTyped(bots)
    ensures CoversTypes(FirstOfEachType(bots), bots)
  {
    if bots != [] {
      var n := |bots| - 1;
      var init := bots[..n];
      ChannelTypesCovered(init);
      assert forall i :: 0 <= i < n ==> init[i] == bots[i];
      assert AllTyped(init);
      var r := FirstOfEachType(bots);
      var r0 := FirstOfEachType(init);
      assert forall j :: 0 <= j < |r0| ==> r[j] == r0[j];
      forall i | 0 <= i < |bots|
        ensures exists j :: 0 <= j < |r| && Some(r[j].channelType) == bots[i].channelType
      {
        var i0 := i;
        if i == n && !IsFirstOfType(bots, n) {
          i0 :| 0 <= i0 < n && bots[i0].channelType == bots[n].channelType;
        }
        if i0 < n {
          assert init[i0] == bots[i0];
          var j :| 0 <= j < |r0| && Some(r0[j].channelType) == init[i0].channelType;
          assert Some(r[j].channelType) == bots[i].channelType;
        } else {
          assert Some(r[|r| - 1].channelType) == bots[n].channelType;
        }
      }
    }
  }

  /** The channel types carried by the messages of `bots`. */
  ghost function SeenTypes(bots: seq<Msg>): set<Option<string>> {
    set j | 0 <= j < |bots| :: bots[j].channelType
  }

  /** One step of the directory loop: message `i` is listed exactly when its channel type was not seen before it. */
  lemma ChannelListStep(bots: seq<Msg>, i: nat)
    requires i < |bots| && AllTyped(bots[..i]) && bots[i].channelType.Some?
    ensures AllTyped(bots[..i + 1])
    ensures SeenTypes(bots[..i + 1]) == SeenTypes(bots[..i]) + {bots[i].channelType}
    ensures FirstOfEachType(bots[..i + 1]) ==
              FirstOfEachType(bots[..i])
                + (if bots[i].channelType !in SeenTypes(bots[..i])
                   then [Channel(bots[i].channelId, bots[i].channelType.value)] else [])
  {
    var prefix := bots[..i + 1];
    assert prefix[..i] == bots[..i];
    assert forall j :: 0 <= j <= i ==> prefix[j] == bots[j];
    assert SeenTypes(prefix) == SeenTypes(bots[..i]) + {bots[i].channelType} by {
      assert prefix[i] == bots[i];
    }
    if bots[i].channelType in SeenTypes(bots[..i]) {
      var j :| 0 <= j < i && bots[..i][j].channelType == bots[i].channelType;
      assert prefix[j].channelType == prefix[i].channelType;
    }
  }

  /** The directory loop: keep a bot message when its channel type has not been seen before. */
  method GetChannelList(msgList: seq<Msg>) returns (res: Result<seq<Channel>, Error>)
    ensures res.Failure? <==> !AllTyped(BotMessages(msgList))
    ensures res.Failure? ==> res.error == MissingKey("channel_type")
    ensures res.Success? ==> res.value == FirstOfEachType(BotMessages(msgList))
  {
    var allCh: seq<Channel> := [];
    var allChType: seq<string> := [];
    var botMsgList := BotMessages(msgList);
    for i := 0 to |botMsgList|
      invariant AllTyped(botMsgList[..i])
      invariant allCh == FirstOfEachType(botMsgList[..i])
      invariant forall t :: t in allChType <==> Some(t) in SeenTypes(botMsgList[..i])
    {
      var msg := botMsgList[i];
      match msg.channelType
      case None =>
        assert !AllTyped(botMsgList) by { assert botMsgList[i].channelType.None?; }
        return Failure(MissingKey("channel_type"));
      case Some(chType) =>
        var chId := msg.channelId;
        ChannelListStep(botMsgList, i);
        if chType !in allChType {
          allCh := allCh + [Channel(chId, chType)];
          allChType := allChType + [chType];
        }
    }
    assert botMsgList[..|botMsgList|] == botMsgList;
    return Success(allCh);
  }
}
