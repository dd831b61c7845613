/**
 * The poll registry `activePolls` (poll ID to `PollData`): how the hourly
 * fan-out fills it and how a poll answer reveals and removes an entry.
 */
module Polls {
  import opened Wrappers
  import opened Text
  import opened Telegram

  /** What the bot keeps per sent quiz poll to reveal its answer later. */
  datatype PollData = PollData(chatId: int, messageId: int, correctOption: int, options: seq<GoString>)

  /**
   * The decoded quiz JSON. Decoding checks types only: nothing bounds the
   * number of choices or the answer index.
   */
  datatype Quiz = Quiz(question: GoString, choices: seq<GoString>, answerIndex: int)

  /** The bytes of "✅ The correct answer is option " (the check mark is three UTF-8 bytes). */
  const RevealPrefix: GoString := [226, 156, 133, 32, 84, 104, 101, 32, 99, 111, 114, 114, 101, 99,
    116, 32, 97, 110, 115, 119, 101, 114, 32, 105, 115, 32, 111, 112, 116, 105, 111, 110, 32]
  /** The bytes of ": " between the option number and its text. */
  const Separator: GoString := [58, 32]

  /** Reads a reveal message back into the option number and text it names. */
  function ParseReveal(t: GoString): Option<(nat, GoString)>
  {
    if |t| < |RevealPrefix| || t[..|RevealPrefix|] != RevealPrefix then
      None
    else
      var rest := t[|RevealPrefix|..];
      var k := DigitRun(rest);
      if k == 0 || |rest| < k + 2 || rest[k..k + 2] != Separator then None
      else Some((DigitsValue(rest[..k]), rest[k + 2..]))
  }

  /**
   * The reveal message for the 1-based option `number` whose text is
   * `option`. The layout is unambiguous: it reads back into exactly the
   * number and the option it was built from.
   */
  function RevealText(number: nat, option: GoString): (r: GoString)
    ensures ParseReveal(r) == Some((number, option))
  {
    var d := Decimal(number);
    var t := RevealPrefix + d + Separator + option;
    assert t == RevealPrefix + (d + Separator + option);
    assert t[..|RevealPrefix|] == RevealPrefix;
    var rest := t[|RevealPrefix|..];
    assert rest == d + (Separator + option);
    DigitRunOfDecimal(d, Separator + option);
    assert rest[|d|..|d| + 2] == Separator;
    assert rest[..|d|] == d && rest[|d| + 2..] == option;
    DecimalValue(number);
    t
  }


  /** The stored index can be used to look its option up. */
  predicate InRange(pd: PollData)
  {
    0 <= pd.correctOption < |pd.options|
  }

  /** The result of a poll answer against the registry. */
  datatype AnswerOutcome =
    | NoSuchPoll
    | IndexOutOfRange
    | Revealed(announcement: Outbound, remaining: map<string, PollData>)

  /**
   * The poll-answer branch of `Run`: an unknown poll ID does nothing; a
   * known one sends one reveal as a reply to the poll message and deletes
   * that entry. `Options[CorrectOption]` with an index out of range is a
   * Go runtime panic, which is `IndexOutOfRange` here.
   */
  function AnswerPoll(polls: map<string, PollData>, pollId: string): (r: AnswerOutcome)
    ensures r.NoSuchPoll? <==> pollId !in polls
    ensures r.IndexOutOfRange? <==> pollId in polls && !InRange(polls[pollId])
    ensures r.Revealed? ==> r.remaining.Keys == polls.Keys - {pollId}
    ensures r.Revealed? ==> forall k :: k in r.remaining ==> r.remaining[k] == polls[k]
    ensures r.Revealed? ==>
      var pd := polls[pollId];
      && r.announcement.TextMessage?
      && r.announcement.chatId == pd.chatId
      && r.announcement.replyTo == pd.messageId
      && ParseReveal(r.announcement.text) == Some((pd.correctOption + 1, pd.options[pd.correctOption]))
  {
    if pollId !in polls then
      NoSuchPoll
    else
      var pd := polls[pollId];
      if !InRange(pd) then
        IndexOutOfRange
      else
        Revealed(TextMessage(pd.chatId, RevealText(pd.correctOption + 1, pd.options[pd.correctOption]), pd.messageId),
                 polls - {pollId})
  }

  /** A second answer to the same poll finds nothing: each poll is revealed at most once. */
  lemma AnswerOnce(polls: map<string, PollData>, pollId: string)
    requires AnswerPoll(polls, pollId).Revealed?
    ensures AnswerPoll(AnswerPoll(polls, pollId).remaining, pollId) == NoSuchPoll
  {
  }

  /** The registry entry one fan-out send adds, if any. */
  function Register(polls: map<string, PollData>, chat: int, q: Quiz, r: SendResult): (m: map<string, PollData>)
    ensures IssuedPoll(r).None? ==> m == polls
    ensures IssuedPoll(r).Some? ==>
      m.Keys == polls.Keys + {IssuedPoll(r).value}
      && m[IssuedPoll(r).value] == PollData(chat, r.messageId, q.answerIndex, q.choices)
    ensures forall k :: k in polls && Some(k) != IssuedPoll(r) ==> k in m && m[k] == polls[k]
  {
    match IssuedPoll(r)
    case Some(pid) => polls[pid := PollData(chat, r.messageId, q.answerIndex, q.choices)]
    case None => polls
  }

  /**
   * The registry after `sendHourlyPoll` has sent `q` to the chats of
   * `order`, in that order, with `send` giving each chat's send result.
   */
  function RegisterAll(polls: map<string, PollData>, order: seq<int>, q: Quiz, send: int -> SendResult): (m: map<string, PollData>)
    ensures polls.Keys <= m.Keys
    ensures (forall j :: 0 <= j < |order| ==> IssuedPoll(send(order[j])).None?) ==> m == polls
    decreases |order|
  {
    if order == [] then polls
    else
      var c := order[|order| - 1];
      var front := order[..|order| - 1];
      assert forall j :: 0 <= j < |front| ==> front[j] == order[j];
      Register(RegisterAll(polls, front, q, send), c, q, send(c))
  }

  /** The fan-out adds exactly the poll IDs of the successful sends, and no other key. */
  lemma {:induction false} RegisterAllKeys(polls: map<string, PollData>, order: seq<int>, q: Quiz, send: int -> SendResult)
    ensures forall k :: k in RegisterAll(polls, order, q, send) <==>
      k in polls || exists j :: 0 <= j < |order| && IssuedPoll(send(order[j])) == Some(k)
    decreases |order|
  {
    if order != [] {
      var n := |order| - 1;
      RegisterAllKeys(polls, order[..n], q, send);
      forall k
        ensures k in RegisterAll(polls, order, q, send) <==>
          k in polls || exists j :: 0 <= j < |order| && IssuedPoll(send(order[j])) == Some(k)
      {
        if exists j :: 0 <= j < |order| && IssuedPoll(send(order[j])) == Some(k) {
          var j :| 0 <= j < |order| && IssuedPoll(send(order[j])) == Some(k);
          if j < n {
            assert order[..n][j] == order[j];
          }
        }
        if exists j :: 0 <= j < n && IssuedPoll(send(order[..n][j])) == Some(k) {
          var j :| 0 <= j < n && IssuedPoll(send(order[..n][j])) == Some(k);
          assert order[..n][j] == order[j];
        }
      }
    }
  }

  /**
   * The entry under a poll ID is the data of the last send that issued
   * it: that chat, its message ID, the quiz's answer index and choices.
   */
  lemma {:induction false} RegisterAllEntry(polls: map<string, PollData>, order: seq<int>, q: Quiz, send: int -> SendResult, j: nat)
    requires j < |order| && IssuedPoll(send(order[j])).Some?
    requires forall i :: j < i < |order| ==> IssuedPoll(send(order[i])) != IssuedPoll(send(order[j]))
    ensures IssuedPoll(send(order[j])).value in RegisterAll(polls, order, q, send)
    ensures RegisterAll(polls, order, q, send)[IssuedPoll(send(order[j])).value]
      == PollData(order[j], send(order[j]).messageId, q.answerIndex, q.choices)
    decreases |order|
  {
    var n := |order| - 1;
    if j < n {
      forall i | j < i < n
        ensures IssuedPoll(send(order[..n][i])) != IssuedPoll(send(order[..n][j]))
      {
        assert order[..n][i] == order[i];
      }
      RegisterAllEntry(polls, order[..n], q, send, j);
    }
  }

  /** An entry whose poll ID no send issued keeps its old value. */
  lemma {:induction false} RegisterAllUntouched(polls: map<string, PollData>, order: seq<int>, q: Quiz, send: int -> SendResult, k: string)
    requires k in polls
    requires forall j :: 0 <= j < |order| ==> IssuedPoll(send(order[j])) != Some(k)
    ensures k in RegisterAll(polls, order, q, send) && RegisterAll(polls, order, q, send)[k] == polls[k]
    decreases |order|
  {
    if order != [] {
      var n := |order| - 1;
      forall j | 0 <= j < n
        ensures IssuedPoll(send(order[..n][j])) != Some(k)
      {
        assert order[..n][j] == order[j];
      }
      RegisterAllUntouched(polls, order[..n], q, send, k);
    }
  }

  /**
   * Two destinations, both sends succeed with distinct poll IDs: two
   * entries, one per chat, sharing the answer index and the choices.
   */
  lemma TwoDestinations(q: Quiz, a: int, b: int, send: int -> SendResult)
    requires a != b
    requires IssuedPoll(send(a)).Some? && IssuedPoll(send(b)).Some?
    requires IssuedPoll(send(a)) != IssuedPoll(send(b))
    ensures RegisterAll(map[], [a, b], q, send) == map[
      IssuedPoll(send(a)).value := PollData(a, send(a).messageId, q.answerIndex, q.choices),
      IssuedPoll(send(b)).value := PollData(b, send(b).messageId, q.answerIndex, q.choices)]
  {
    assert [a, b][..1] == [a];
    assert [a][..0] == [];
    var first := RegisterAll(map[], [a], q, send);
    assert RegisterAll(map[], [a][..0], q, send) == map[];
    assert first == Register(map[], a, q, send(a));
    assert first == map[IssuedPoll(send(a)).value := PollData(a, send(a).messageId, q.answerIndex, q.choices)];
    assert RegisterAll(map[], [a, b], q, send) == Register(first, b, q, send(b));
  }

  /** Every stored index is usable. */
  predicate WellFormed(polls: map<string, PollData>)
  {
    forall k :: k in polls ==> InRange(polls[k])
  }

  /**
   * The as-written fan-out stores whatever index the quiz JSON held: one
   * successful send of a quiz with an out-of-range index makes the next
   * answer to that poll hit the index panic.
   */
  lemma UnvalidatedIndexPanics(polls: map<string, PollData>, c: int, q: Quiz, send: int -> SendResult)
    requires !(0 <= q.answerIndex < |q.choices|)
    requires IssuedPoll(send(c)).Some?
    ensures AnswerPoll(RegisterAll(polls, [c], q, send), IssuedPoll(send(c)).value) == IndexOutOfRange
  {
    assert [c][..0] == [];
  }

  /** The quiz the generation prompt asks for: a question, four choices, an index in [0, 3]. */
  predicate ValidQuiz(q: Quiz)
  {
    |q.question| > 0 && |q.choices| == 4 && 0 <= q.answerIndex < 4
  }

  lemma {:induction false} RegisterAllKeepsWellFormed(polls: map<string, PollData>, order: seq<int>, q: Quiz, send: int -> SendResult)
    requires WellFormed(polls) && 0 <= q.answerIndex < |q.choices|
    ensures WellFormed(RegisterAll(polls, order, q, send))
    decreases |order|
  {
    if order != [] {
      RegisterAllKeepsWellFormed(polls, order[..|order| - 1], q, send);
    }
  }

  /**
   * The fan-out with the validation the quiz format calls for: an invalid
   * quiz abandons the tick, so the registry never holds a bad index.
   */
  function RegisterValidated(polls: map<string, PollData>, order: seq<int>, q: Quiz, send: int -> SendResult): (r: map<string, PollData>)
    ensures ValidQuiz(q) ==> r == RegisterAll(polls, order, q, send)
    ensures !ValidQuiz(q) ==> r == polls
    ensures WellFormed(polls) ==> WellFormed(r)
  {
    if ValidQuiz(q) then
      assert WellFormed(polls) ==> WellFormed(RegisterAll(polls, order, q, send)) by {
        if WellFormed(polls) {
          RegisterAllKeepsWellFormed(polls, order, q, send);
        }
      }
      RegisterAll(polls, order, q, send)
    else
      polls
  }

  /** With a well-formed registry the reveal never panics. */
  lemma WellFormedNeverPanics(polls: map<string, PollData>, pollId: string)
    requires WellFormed(polls)
    ensures AnswerPoll(polls, pollId) != IndexOutOfRange
  {
  }
}
