/**
 * The destination set `activeChannels` (chat ID to bool) and the effect
 * of each command of `handleCommand` on it.
 */
module Channels {
  import opened Telegram

  /** Absence means disabled and presence means enabled: no chat maps to false. */
  predicate NoneDisabled(m: map<int, bool>)
  {
    forall c :: c in m ==> m[c]
  }

  /** The chats a broadcast tick sends to. */
  function Enabled(m: map<int, bool>): set<int>
  {
    set c | c in m && m[c]
  }

  /**
   * The channel set after command `cmd` from chat `chat`: "activate"
   * stores true, "deactivate" deletes the key, every other command leaves
   * the set alone, and no other chat is ever touched.
   */
  function ApplyCommand(m: map<int, bool>, chat: int, cmd: string): (r: map<int, bool>)
    ensures cmd == "activate" ==> chat in r && r[chat]
    ensures cmd == "deactivate" ==> chat !in r
    ensures cmd != "activate" && cmd != "deactivate" ==> r == m
    ensures forall c :: c != chat ==> (c in r <==> c in m)
    ensures forall c :: c != chat && c in m ==> r[c] == m[c]
    ensures NoneDisabled(m) ==> NoneDisabled(r)
  {
    if cmd == "activate" then m[chat := true]
    else if cmd == "deactivate" then m - {chat}
    else m
  }

  /** The single reply `handleCommand` sends back for `cmd`. */
  function NoticeFor(cmd: string): (r: NoticeKind)
    ensures r == Greeting <==> cmd == "start"
    ensures r == Help <==> cmd == "help"
    ensures r == Activated <==> cmd == "activate"
    ensures r == Deactivated <==> cmd == "deactivate"
    ensures r != Activated && r != Deactivated ==> forall m, chat :: ApplyCommand(m, chat, cmd) == m
  {
    if cmd == "start" then Greeting
    else if cmd == "help" then Help
    else if cmd == "activate" then Activated
    else if cmd == "deactivate" then Deactivated
    else UnknownCommand
  }

  /** Where no chat maps to false, the enabled chats are exactly the keys. */
  lemma EnabledIsKeys(m: map<int, bool>)
    requires NoneDisabled(m)
    ensures Enabled(m) == m.Keys
  {
    forall c | c in m.Keys
      ensures c in Enabled(m)
    {
      assert m[c];
    }
  }

  /** Opting in and then out leaves the set as if the chat had never been in it. */
  lemma ActivateThenDeactivate(m: map<int, bool>, chat: int)
    ensures ApplyCommand(ApplyCommand(m, chat, "activate"), chat, "deactivate") == m - {chat}
  {
  }

  /** A second "activate" or "deactivate" from the same chat changes nothing. */
  lemma CommandsIdempotent(m: map<int, bool>, chat: int, cmd: string)
    requires cmd == "activate" || cmd == "deactivate"
    ensures ApplyCommand(ApplyCommand(m, chat, cmd), chat, cmd) == ApplyCommand(m, chat, cmd)
  {
  }
}
