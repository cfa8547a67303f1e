/**
 * The toast notifications of `showMessage`. Only the order of the calls is
 * modelled: each call removes the message on screen, if any, and appends its own.
 */
module Notices {

  datatype Kind = Info | Success | Error | Loading

  datatype Notice = Notice(text: string, kind: Kind)

  const FillRequired := Notice("Please fill in all required fields", Error)
  const SelectSkill := Notice("Please select at least one skill", Error)
  const ProfileCreated := Notice("Profile created successfully!", Success)
  const SendingMessage := Notice("Sending message...", Loading)
  const MessageSent := Notice("Message sent successfully!", Success)

  /** The messages in the document after one call: the first one found is removed, the new one appended. */
  function Show(screen: seq<Notice>, n: Notice): (after: seq<Notice>)
    ensures |after| == if screen == [] then 1 else |screen|
    ensures after[|after| - 1] == n
    ensures after[..|after| - 1] == if screen == [] then [] else screen[1..]
  {
    (if screen == [] then [] else screen[1..]) + [n]
  }

  /** The messages in the document after a run of calls, in call order. */
  function ShowAll(screen: seq<Notice>, calls: seq<Notice>): (after: seq<Notice>)
    ensures calls == [] ==> after == screen
    ensures calls != [] ==> 0 < |after| <= |screen| + 1 && after[|after| - 1] == calls[|calls| - 1]
  {
    if calls == [] then screen else Show(ShowAll(screen, calls[..|calls| - 1]), calls[|calls| - 1])
  }

  /** Starting from at most one message, a run of calls leaves exactly the last one on screen. */
  lemma {:induction false} LastCallWins(screen: seq<Notice>, calls: seq<Notice>)
    requires |screen| <= 1 && calls != []
    ensures ShowAll(screen, calls) == [calls[|calls| - 1]]
  {
    var init := calls[..|calls| - 1];
    if init != [] {
      LastCallWins(screen, init);
    }
  }
}
