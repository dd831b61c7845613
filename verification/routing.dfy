/** Which handler of `Run` an update goes to, and what a query sends back. */
module Routing {
  import opened Wrappers
  import opened Text
  import opened Telegram
  import Chunks

  /** `isBotMentioned`: the user name occurs in the text, ignoring ASCII case. */
  function IsBotMentioned(text: GoString, userName: GoString): (r: bool)
    ensures r <==> exists i: nat :: OccursAt(Lower(text), Lower(userName), i)
  {
    Contains(Lower(text), Lower(userName))
  }

  /** A verbatim occurrence of the user name is a mention. */
  lemma MentionVerbatim(text: GoString, userName: GoString, i: nat)
    requires OccursAt(text, userName, i)
    ensures IsBotMentioned(text, userName)
  {
    LowerKeepsOccurrence(text, userName, i);
  }

  /** The mention check reads the text through `Lower`: lowering it first changes nothing. */
  lemma MentionIgnoresCase(text: GoString, userName: GoString)
    ensures IsBotMentioned(Lower(text), userName) == IsBotMentioned(text, userName)
    ensures IsBotMentioned(text, Lower(userName)) == IsBotMentioned(text, userName)
  {
    LowerIdempotent(text);
    LowerIdempotent(userName);
  }

  /** A non-command message is for the bot if it mentions it or replies to one of its messages. */
  predicate AddressesBot(msg: Message, userName: GoString, selfId: int)
  {
    IsBotMentioned(msg.text, userName) || msg.repliedFromId == Some(selfId)
  }

  datatype Route =
    | ToPollAnswer(answer: PollAnswer)
    | ToCommand(msg: Message)
    | ToQuery(msg: Message)
    | Ignored

  /**
   * The routing of `Run`, by nil checks in this order: a poll answer wins;
   * a channel post is handled only as a command and otherwise dropped; a
   * message goes to the command handler if it is a command, else to the
   * query handler if it addresses the bot; anything else is ignored.
   */
  function RouteOf(u: Update, userName: GoString, selfId: int): (r: Route)
    ensures r.ToPollAnswer? <==> u.pollAnswer.Some?
    ensures r.ToPollAnswer? ==> r.answer == u.pollAnswer.value
    ensures r.ToCommand? <==>
      && u.pollAnswer.None?
      && (if u.channelPost.Some? then u.channelPost.value.command.Some?
          else u.message.Some? && u.message.value.command.Some?)
    ensures r.ToCommand? ==>
      r.msg == (if u.channelPost.Some? then u.channelPost.value else u.message.value)
    ensures r.ToQuery? <==>
      && u.pollAnswer.None? && u.channelPost.None? && u.message.Some?
      && u.message.value.command.None? && AddressesBot(u.message.value, userName, selfId)
    ensures r.ToQuery? ==> r.msg == u.message.value
    ensures r.ToCommand? ==> r.msg.command.Some?
  {
    if u.pollAnswer.Some? then
      ToPollAnswer(u.pollAnswer.value)
    else if u.channelPost.Some? then
      if u.channelPost.value.command.Some? then ToCommand(u.channelPost.value) else Ignored
    else if u.message.Some? then
      var msg := u.message.value;
      if msg.command.Some? then ToCommand(msg)
      else if AddressesBot(msg, userName, selfId) then ToQuery(msg)
      else Ignored
    else
      Ignored
  }

  /**
   * `handleQuery`: the user name is cut out of the text (case-sensitively)
   * and the model's reply to that text goes back in chunks. Every message
   * is a non-empty reply to the user's message in the asking chat, all but
   * the last are full, and together they are exactly the model's reply.
   */
  function QueryReplies(msg: Message, userName: GoString, respond: GoString -> GoString): (out: seq<Outbound>)
    ensures forall k :: 0 <= k < |out| ==>
      out[k].TextMessage? && out[k].chatId == msg.chatId && out[k].replyTo == msg.messageId
      && 0 < |out[k].text| <= Chunks.MaxChunk
    ensures forall k :: 0 <= k < |out| - 1 ==> |out[k].text| == Chunks.MaxChunk
    ensures Chunks.Concat(Texts(out)) == respond(RemoveAll(msg.text, userName))
  {
    var pieces := Chunks.Pieces(respond(RemoveAll(msg.text, userName)));
    var out := seq(|pieces|, k requires 0 <= k < |pieces| => TextMessage(msg.chatId, pieces[k], msg.messageId));
    assert Texts(out) == pieces;
    out
  }

  /** The texts of a run of outbound messages, in order. */
  function Texts(out: seq<Outbound>): seq<GoString>
  {
    seq(|out|, k requires 0 <= k < |out| => if out[k].TextMessage? then out[k].text else [])
  }
}
