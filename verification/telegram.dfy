/**
 * The parts of the Telegram Bot API types that the update loop reads or
 * produces. Everything the platform does with them (delivery, polls,
 * network errors) happens outside the model.
 */
module Telegram {
  import opened Wrappers
  import opened Text

  /**
   * A message or channel post. `command` is `Some(name)` exactly when the
   * library's `IsCommand()` holds, and `name` is what `Command()` returns.
   * `repliedFromId` is the sender ID of the message this one replies to.
   */
  datatype Message = Message(
    chatId: int,
    messageId: int,
    text: GoString,
    command: Option<string>,
    repliedFromId: Option<int>)

  /** A user's answer to a non-anonymous poll; the chosen options are never read. */
  datatype PollAnswer = PollAnswer(pollId: string, optionIds: seq<int>)

  /** One update: three optional parts, as the library's struct holds them. */
  datatype Update = Update(
    updateId: int,
    message: Option<Message>,
    channelPost: Option<Message>,
    pollAnswer: Option<PollAnswer>)

  /** The fixed replies of `handleCommand`, whose wording is not modelled. */
  datatype NoticeKind = Greeting | Help | Activated | Deactivated | UnknownCommand

  /**
   * One outbound `Send`. `replyTo` is the library's `ReplyToMessageID`,
   * where 0 means "not a reply".
   */
  datatype Outbound =
    | TextMessage(chatId: int, text: GoString, replyTo: int)
    | NoticeMessage(chatId: int, kind: NoticeKind)
    | PollMessage(chatId: int, question: GoString, options: seq<GoString>)

  /** What `Send` of a poll returned: an error, or the sent message and, if present, its poll. */
  datatype SendResult = SendFailed | Sent(messageId: int, pollId: Option<string>)

  /** The poll ID a send makes known, if it succeeded and carried a poll. */
  function IssuedPoll(r: SendResult): Option<string>
  {
    if r.Sent? then r.pollId else None
  }
}
