/**
 * `BotService`: the two in-memory stores and the handlers of `Run` that
 * update them in place, the per-batch dispatch loop, one iteration of the
 * polling loop, and the hourly fan-out. Telegram and Gemini are inputs:
 * fetch outcomes, a per-chat send result and a reply function.
 */
module Bot {
  import opened Wrappers
  import opened Text
  import opened Telegram
  import opened Backoff
  import opened Channels
  import opened Polls
  import opened Routing
  import Chunks

  /** The shared state of the update loop and the hourly tick. */
  datatype Registry = Registry(channels: map<int, bool>, polls: map<string, PollData>)

  /** What handling some updates does: the new state, the sends, and whether Go panicked. */
  datatype Effect = Effect(registry: Registry, out: seq<Outbound>, crashed: bool)

  /**
   * One update through the routing of `Run`. Only a poll answer touches
   * the poll registry (and only by deleting), only a command touches the
   * channel set, and only the index panic crashes.
   */
  function DispatchUpdate(reg: Registry, u: Update, userName: GoString, selfId: int,
                          respond: GoString -> GoString): (e: Effect)
    ensures e.crashed <==> u.pollAnswer.Some? && AnswerPoll(reg.polls, u.pollAnswer.value.pollId).IndexOutOfRange?
    ensures e.crashed ==> e.registry == reg && e.out == []
    ensures e.registry.polls.Keys <= reg.polls.Keys
    ensures forall k :: k in e.registry.polls ==> e.registry.polls[k] == reg.polls[k]
    ensures !RouteOf(u, userName, selfId).ToPollAnswer? ==> e.registry.polls == reg.polls
    ensures !RouteOf(u, userName, selfId).ToCommand? ==> e.registry.channels == reg.channels
    ensures NoneDisabled(reg.channels) ==> NoneDisabled(e.registry.channels)
  {
    match RouteOf(u, userName, selfId)
    case ToPollAnswer(pa) =>
      (match AnswerPoll(reg.polls, pa.pollId)
       case NoSuchPoll => Effect(reg, [], false)
       case IndexOutOfRange => Effect(reg, [], true)
       case Revealed(m, rest) => Effect(reg.(polls := rest), [m], false))
    case ToCommand(msg) =>
      var cmd := msg.command.value;
      Effect(reg.(channels := ApplyCommand(reg.channels, msg.chatId, cmd)),
             [NoticeMessage(msg.chatId, NoticeFor(cmd))], false)
    case ToQuery(msg) =>
      Effect(reg, QueryReplies(msg, userName, respond), false)
    case Ignored =>
      Effect(reg, [], false)
  }

  /** A batch dispatched in arrival order; the first panic ends it. */
  function DispatchBatch(reg: Registry, us: seq<Update>, userName: GoString, selfId: int,
                         respond: GoString -> GoString): Effect
    decreases |us|
  {
    if us == [] then
      Effect(reg, [], false)
    else
      var before := DispatchBatch(reg, us[..|us| - 1], userName, selfId, respond);
      if before.crashed then
        before
      else
        var step := DispatchUpdate(before.registry, us[|us| - 1], userName, selfId, respond);
        Effect(step.registry, before.out + step.out, step.crashed)
  }

  /** A batch without a poll answer neither panics nor touches the poll registry. */
  lemma {:induction false} QuietBatch(reg: Registry, us: seq<Update>, userName: GoString, selfId: int,
                                      respond: GoString -> GoString)
    requires forall k :: 0 <= k < |us| ==> us[k].pollAnswer.None?
    ensures var r := DispatchBatch(reg, us, userName, selfId, respond);
      !r.crashed && r.registry.polls == reg.polls
    decreases |us|
  {
    if us != [] {
      var front := us[..|us| - 1];
      assert forall k :: 0 <= k < |front| ==> front[k] == us[k];
      QuietBatch(reg, front, userName, selfId, respond);
    }
  }

  /**
   * Over a whole batch the channel set keeps "no chat maps to false" and
   * the poll registry only loses entries: `Run` never registers a poll.
   */
  lemma {:induction false} DispatchBatchKeeps(reg: Registry, us: seq<Update>, userName: GoString, selfId: int,
                                              respond: GoString -> GoString)
    ensures NoneDisabled(reg.channels) ==> NoneDisabled(DispatchBatch(reg, us, userName, selfId, respond).registry.channels)
    ensures DispatchBatch(reg, us, userName, selfId, respond).registry.polls.Keys <= reg.polls.Keys
    ensures var polls := DispatchBatch(reg, us, userName, selfId, respond).registry.polls;
      forall k :: k in polls ==> polls[k] == reg.polls[k]
    decreases |us|
  {
    if us != [] {
      DispatchBatchKeeps(reg, us[..|us| - 1], userName, selfId, respond);
    }
  }

  /** Once an update panics, the rest of the batch is never handled. */
  lemma {:induction false} CrashIsFinal(reg: Registry, us: seq<Update>, i: nat, userName: GoString, selfId: int,
                                        respond: GoString -> GoString)
    requires i <= |us|
    requires DispatchBatch(reg, us[..i], userName, selfId, respond).crashed
    ensures DispatchBatch(reg, us, userName, selfId, respond) == DispatchBatch(reg, us[..i], userName, selfId, respond)
    decreases |us| - i
  {
    if i < |us| {
      var n := |us| - 1;
      assert us[..n][..i] == us[..i];
      CrashIsFinal(reg, us[..n], i, userName, selfId, respond);
    } else {
      assert us[..i] == us;
    }
  }

  /**
   * Two answers to the same registered poll in one batch: one reveal,
   * the entry gone, and the second answer a no-op.
   */
  lemma RepeatedAnswerInBatch(reg: Registry, u1: Update, u2: Update, userName: GoString, selfId: int,
                              respond: GoString -> GoString)
    requires u1.pollAnswer.Some? && u2.pollAnswer.Some? && u1.pollAnswer.value.pollId == u2.pollAnswer.value.pollId
    requires AnswerPoll(reg.polls, u1.pollAnswer.value.pollId).Revealed?
    ensures var e := DispatchBatch(reg, [u1, u2], userName, selfId, respond);
      && e.out == [AnswerPoll(reg.polls, u1.pollAnswer.value.pollId).announcement]
      && e.registry == reg.(polls := reg.polls - {u1.pollAnswer.value.pollId})
      && !e.crashed
  {
    assert [u1, u2][..1] == [u1];
    assert [u1][..0] == [];
    var pid := u1.pollAnswer.value.pollId;
    var first := DispatchBatch(reg, [u1], userName, selfId, respond);
    assert first == DispatchUpdate(reg, u1, userName, selfId, respond) by {
      assert DispatchBatch(reg, [u1][..0], userName, selfId, respond) == Effect(reg, [], false);
    }
    assert first.registry.polls == reg.polls - {pid};
    AnswerOnce(reg.polls, pid);
  }

  /** Update IDs in arrival order are strictly increasing, as Telegram hands them out. */
  predicate IdsIncrease(us: seq<Update>)
  {
    forall i, j :: 0 <= i < j < |us| ==> us[i].updateId < us[j].updateId
  }

  /** The offset after a batch: one past the ID of its last update, or unchanged if empty. */
  function LastOffset(offset: int, us: seq<Update>): (r: int)
    ensures us == [] ==> r == offset
    ensures IdsIncrease(us) ==> forall k :: 0 <= k < |us| ==> us[k].updateId < r
  {
    if us == [] then offset else us[|us| - 1].updateId + 1
  }

  /**
   * The offset follows the last update, not the highest ID: a batch that
   * arrived out of order would leave its highest update to be fetched again.
   */
  lemma OffsetIsLastNotHighest(a: Update, b: Update)
    requires a.updateId == 5 && b.updateId == 3
    ensures LastOffset(0, [a, b]) == 4 && a.updateId >= LastOffset(0, [a, b])
  {
  }

  /** The offset the next fetch asks for: unchanged after any fetch error. */
  function NextOffset(offset: int, o: FetchOutcome): (r: int)
    ensures o.FetchFailed? ==> r == offset
    ensures o.Fetched? && o.updates == [] ==> r == offset
    ensures o.Fetched? && IdsIncrease(o.updates) ==> forall k :: 0 <= k < |o.updates| ==> o.updates[k].updateId < r
  {
    if o.FetchFailed? then offset else LastOffset(offset, o.updates)
  }

  /**
   * The offsets a run of fetches asked for: 0 first, then each one
   * follows from the previous one and that fetch's outcome.
   */
  ghost predicate OffsetsFollow(outcomes: seq<FetchOutcome>, requested: seq<int>)
  {
    && |requested| <= |outcomes|
    && (requested != [] ==> requested[0] == 0)
    && forall k :: 0 <= k < |requested| - 1 ==> requested[k + 1] == NextOffset(requested[k], outcomes[k])
  }

  /**
   * The sleeps of a run of fetches: each is the pause for its outcome at
   * the delay reached so far, so none is longer than 60s.
   */
  ghost predicate PausesFollow(outcomes: seq<FetchOutcome>, pauses: seq<int>)
  {
    && |pauses| <= |outcomes|
    && (forall k :: 0 <= k < |pauses| ==> pauses[k] == PauseFor(DelayAfter(BaseDelay, outcomes[..k]), outcomes[k]))
    && (forall k :: 0 <= k < |pauses| ==> pauses[k] <= MaxDelay)
  }

  lemma OffsetsExtend(outcomes: seq<FetchOutcome>, requested: seq<int>, offset: int)
    requires OffsetsFollow(outcomes, requested) && |requested| < |outcomes|
    requires requested == [] ==> offset == 0
    requires requested != [] ==> offset == NextOffset(requested[|requested| - 1], outcomes[|requested| - 1])
    ensures OffsetsFollow(outcomes, requested + [offset])
  {
  }

  lemma PausesExtend(outcomes: seq<FetchOutcome>, pauses: seq<int>, pause: int)
    requires PausesFollow(outcomes, pauses) && |pauses| < |outcomes|
    requires pause == PauseFor(DelayAfter(BaseDelay, outcomes[..|pauses|]), outcomes[|pauses|])
    ensures PausesFollow(outcomes, pauses + [pause])
  {
    DelayAfterBounded(outcomes[..|pauses|]);
    assert pause <= MaxDelay;
    var ps := pauses + [pause];
    forall k | 0 <= k < |ps|
      ensures ps[k] == PauseFor(DelayAfter(BaseDelay, outcomes[..k]), outcomes[k]) && ps[k] <= MaxDelay
    {
      if k < |pauses| {
        assert ps[k] == pauses[k];
      }
    }
  }

  class BotService {
    /** `api.Self.UserName` and `api.Self.ID`. */
    const userName: GoString
    const selfId: int
    /** chat ID to enabled; a key is deleted rather than set to false. */
    var activeChannels: map<int, bool>
    /** poll ID to the data needed to reveal its answer. */
    var activePolls: map<string, PollData>

    ghost predicate Valid()
      reads this
    {
      NoneDisabled(activeChannels)
    }

    ghost function State(): Registry
      reads this
    {
      Registry(activeChannels, activePolls)
    }

    /** The stores as `NewBotService` makes them: both empty. */
    constructor (userName: GoString, selfId: int)
      ensures Valid()
      ensures this.userName == userName && this.selfId == selfId
      ensures activeChannels == map[] && activePolls == map[]
    {
      this.userName := userName;
      this.selfId := selfId;
      activeChannels := map[];
      activePolls := map[];
    }

    /** `handleCommand`: one fixed reply, and for activate/deactivate an in-place update. */
    method HandleCommand(msg: Message) returns (out: seq<Outbound>)
      requires Valid() && msg.command.Some?
      modifies this`activeChannels
      ensures Valid()
      ensures activeChannels == ApplyCommand(old(activeChannels), msg.chatId, msg.command.value)
      ensures out == [NoticeMessage(msg.chatId, NoticeFor(msg.command.value))]
    {
      var cmd := msg.command.value;
      if cmd == "start" {
        out := [NoticeMessage(msg.chatId, Greeting)];
      } else if cmd == "help" {
        out := [NoticeMessage(msg.chatId, Help)];
      } else if cmd == "activate" {
        activeChannels := activeChannels[msg.chatId := true];
        out := [NoticeMessage(msg.chatId, Activated)];
      } else if cmd == "deactivate" {
        activeChannels := activeChannels - {msg.chatId};
        out := [NoticeMessage(msg.chatId, Deactivated)];
      } else {
        out := [NoticeMessage(msg.chatId, UnknownCommand)];
      }
    }

    /** The poll-answer branch of `Run`: reveal, then delete the entry. */
    method HandlePollAnswer(pa: PollAnswer) returns (out: seq<Outbound>, crashed: bool)
      modifies this`activePolls
      ensures match AnswerPoll(old(activePolls), pa.pollId)
        case NoSuchPoll => out == [] && !crashed && activePolls == old(activePolls)
        case IndexOutOfRange => out == [] && crashed && activePolls == old(activePolls)
        case Revealed(m, rest) => out == [m] && !crashed && activePolls == rest
    {
      out, crashed := [], false;
      if pa.pollId in activePolls {
        var pd := activePolls[pa.pollId];
        if !(0 <= pd.correctOption < |pd.options|) {
          crashed := true;
          return;
        }
        var announcement := RevealText(pd.correctOption + 1, pd.options[pd.correctOption]);
        out := [TextMessage(pd.chatId, announcement, pd.messageId)];
        activePolls := activePolls - {pa.pollId};
      }
    }

    /** `handleQuery`: cut the user name out, ask the model, send the reply in chunks. */
    method HandleQuery(msg: Message, respond: GoString -> GoString) returns (out: seq<Outbound>)
      ensures out == QueryReplies(msg, userName, respond)
    {
      var clean := RemoveAll(msg.text, userName);
      var resp := respond(clean);
      out := Chunks.SendChunks(msg.chatId, resp, msg.messageId);
    }

    /** The body of the per-update loop of `Run`, by the source's nil checks. */
    method Dispatch(u: Update, respond: GoString -> GoString) returns (out: seq<Outbound>, crashed: bool)
      requires Valid()
      modifies this
      ensures Valid()
      ensures Effect(State(), out, crashed) == DispatchUpdate(old(State()), u, userName, selfId, respond)
    {
      out, crashed := [], false;
      if u.pollAnswer.Some? {
        out, crashed := HandlePollAnswer(u.pollAnswer.value);
      } else if u.channelPost.Some? {
        if u.channelPost.value.command.Some? {
          out := HandleCommand(u.channelPost.value);
        }
      } else if u.message.Some? {
        var msg := u.message.value;
        if msg.command.Some? {
          out := HandleCommand(msg);
        } else if IsBotMentioned(msg.text, userName) || msg.repliedFromId == Some(selfId) {
          out := HandleQuery(msg, respond);
        }
      }
    }

    /**
     * The loop over a fetched batch: the offset moves past each update
     * before it is handled, in arrival order, until a panic.
     */
    method ProcessBatch(updates: seq<Update>, offset: int, respond: GoString -> GoString)
      returns (newOffset: int, out: seq<Outbound>, crashed: bool)
      requires Valid()
      modifies this
      ensures Valid()
      ensures Effect(State(), out, crashed) == DispatchBatch(old(State()), updates, userName, selfId, respond)
      ensures !crashed ==> newOffset == LastOffset(offset, updates)
    {
      newOffset, out, crashed := offset, [], false;
      var i := 0;
      while i < |updates| && !crashed
        invariant 0 <= i <= |updates|
        invariant Valid()
        invariant Effect(State(), out, crashed) == DispatchBatch(old(State()), updates[..i], userName, selfId, respond)
        invariant !crashed ==> newOffset == LastOffset(offset, updates[..i])
        decreases |updates| - i
      {
        newOffset := updates[i].updateId + 1;
        var more;
        assert updates[..i + 1][..i] == updates[..i];
        more, crashed := Dispatch(updates[i], respond);
        out := out + more;
        i := i + 1;
      }
      if crashed {
        CrashIsFinal(old(State()), updates, i, userName, selfId, respond);
      } else {
        assert updates[..i] == updates;
      }
    }

    /**
     * One iteration of `Run` with the fetch outcome given: on an error the
     * offset and the stores are untouched (a conflict also clears the
     * webhook and doubles the delay up to 60s, another error keeps it);
     * on success the delay resets to 5s and the batch is dispatched.
     */
    method Iterate(outcome: FetchOutcome, delay: int, offset: int, respond: GoString -> GoString)
      returns (newDelay: int, newOffset: int, pause: int, clearWebhook: bool, out: seq<Outbound>, crashed: bool)
      requires Valid()
      modifies this
      ensures Valid()
      ensures newDelay == NextDelay(delay, outcome)
      ensures clearWebhook == IsConflict(outcome)
      ensures !crashed ==> pause == PauseFor(delay, outcome) && newOffset == NextOffset(offset, outcome)
      ensures outcome.FetchFailed? ==> !crashed && out == [] && State() == old(State())
      ensures outcome.Fetched? ==>
        Effect(State(), out, crashed) == DispatchBatch(old(State()), outcome.updates, userName, selfId, respond)
    {
      match outcome
      case FetchFailed(err) =>
        newOffset, out, crashed := offset, [], false;
        if Contains(err, ConflictMarker) {
          clearWebhook := true;
          pause := delay;
          newDelay := delay * 2;
          if newDelay > MaxDelay {
            newDelay := MaxDelay;
          }
        } else {
          clearWebhook := false;
          pause := ErrorPause;
          newDelay := delay;
        }
      case Fetched(updates) =>
        clearWebhook := false;
        newDelay := BaseDelay;
        newOffset, out, crashed := ProcessBatch(updates, offset, respond);
        pause := IdlePause;
    }

    /**
     * `Run` over the first |outcomes| fetches (the source loops forever),
     * stopping early if a handler panics. `requested[k]` is the offset the
     * k-th fetch asked for and `pauses[k]` how long that iteration slept.
     */
    method Run(outcomes: seq<FetchOutcome>, respond: GoString -> GoString)
      returns (requested: seq<int>, pauses: seq<int>, out: seq<Outbound>, crashed: bool)
      requires Valid()
      modifies this
      ensures Valid()
      ensures activePolls.Keys <= old(activePolls).Keys
      ensures |requested| <= |outcomes|
      ensures !crashed ==> |requested| == |outcomes| && |pauses| == |requested|
      ensures crashed ==> |requested| > 0 && |pauses| == |requested| - 1
      ensures OffsetsFollow(outcomes, requested)
      ensures PausesFollow(outcomes, pauses)
    {
      var delay, offset := BaseDelay, 0;
      requested, pauses, out, crashed := [], [], [], false;
      var i := 0;
      while i < |outcomes| && !crashed
        invariant 0 <= i <= |outcomes|
        invariant Valid()
        invariant activePolls.Keys <= old(activePolls).Keys
        invariant |requested| == i
        invariant !crashed ==> |pauses| == i
        invariant crashed ==> i > 0 && |pauses| == i - 1
        invariant delay == DelayAfter(BaseDelay, outcomes[..i])
        invariant !crashed ==> offset == (if i == 0 then 0 else NextOffset(requested[i - 1], outcomes[i - 1]))
        invariant OffsetsFollow(outcomes, requested)
        invariant PausesFollow(outcomes, pauses)
        decreases |outcomes| - i
      {
        OffsetsExtend(outcomes, requested, offset);
        requested := requested + [offset];
        ghost var before := State();
        var newDelay, newOffset, pause, clearWebhook, more, failed := Iterate(outcomes[i], delay, offset, respond);
        if outcomes[i].Fetched? {
          DispatchBatchKeeps(before, outcomes[i].updates, userName, selfId, respond);
        }
        out := out + more;
        crashed := failed;
        if !crashed {
          PausesExtend(outcomes, pauses, pause);
          pauses := pauses + [pause];
        }
        assert outcomes[..i + 1][..i] == outcomes[..i];
        delay, offset := newDelay, newOffset;
        i := i + 1;
      }
    }

    /**
     * `sendHourlyPoll`: nothing without active chats or without a decoded
     * quiz; otherwise one poll send per active chat, in the order Go's map
     * iteration happens to give (`order`), where a failed send registers
     * nothing and does not stop the loop.
     */
    method SendHourlyPoll(quiz: Option<Quiz>, order: seq<int>, send: int -> SendResult)
      returns (out: seq<Outbound>, attempted: seq<int>)
      requires forall c :: c in activeChannels <==> c in order
      requires forall i, j :: 0 <= i < j < |order| ==> order[i] != order[j]
      modifies this`activePolls
      ensures |activeChannels| == 0 || quiz.None? ==> attempted == [] && activePolls == old(activePolls)
      ensures |activeChannels| > 0 && quiz.Some? ==> attempted == order
      ensures |out| == |attempted|
      ensures forall k :: 0 <= k < |out| ==>
        out[k] == PollMessage(attempted[k], quiz.value.question, quiz.value.choices)
      ensures quiz.Some? ==> activePolls == RegisterAll(old(activePolls), attempted, quiz.value, send)
    {
      out, attempted := [], [];
      if |activeChannels| == 0 || quiz.None? {
        return;
      }
      var q := quiz.value;
      for i := 0 to |order|
        invariant attempted == order[..i]
        invariant |out| == i
        invariant forall k :: 0 <= k < i ==> out[k] == PollMessage(order[k], q.question, q.choices)
        invariant activePolls == RegisterAll(old(activePolls), attempted, q, send)
      {
        var chatId := order[i];
        out := out + [PollMessage(chatId, q.question, q.choices)];
        var sent := send(chatId);
        assert order[..i + 1][..i] == order[..i];
        attempted := order[..i + 1];
        if sent.Sent? && sent.pollId.Some? {
          activePolls := activePolls[sent.pollId.value := PollData(chatId, sent.messageId, q.answerIndex, q.choices)];
        }
      }
      assert order[..|order|] == order;
    }
  }
}
