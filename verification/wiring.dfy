/** The chat window passes `handleSend` to the composer as `onSend`: what
    the composer forwards is what a send turn receives. */
module Wiring {
  import Composer
  import Chat

  /** Anything the composer forwards passes the send turn's own guard: the
      turn appends the raw composer text and the preview as the user
      message. */
  lemma ForwardedSendIsHandled(c: Composer.ComposerState, a: Composer.Action, st: Chat.ChatState,
                               ocr: string -> Chat.OcrOutcome,
                               analyze: seq<string> -> Chat.AnalyzerOutcome)
    requires Composer.Apply(c, a).sent.Some?
    ensures var s := Composer.Apply(c, a).sent.value;
            var t := Chat.HandleSend(st, s.text, s.image, ocr, analyze);
            && t.settlement != Chat.Ignored
            && t.state.messages[|st.messages|] == Chat.UserMessage(c.input, c.preview)
  {
    var s := Composer.Apply(c, a).sent.value;
    var t := Chat.HandleSend(st, s.text, s.image, ocr, analyze);
    assert t.state.messages[..|st.messages| + 1][|st.messages|] == t.state.messages[|st.messages|];
  }

  /** The outside code one send turn calls. Each turn gets its own pair:
      the analyzer samples its reply and the network may fail only for a
      while, so re-sending the same text may end differently. */
  datatype Oracles = Oracles(ocr: string -> Chat.OcrOutcome,
                             analyze: seq<string> -> Chat.AnalyzerOutcome)

  /** The chat state after the sends are handled one after another, send
      `i` with the oracles `os[i]`, each turn settling before the next
      starts. No send, blank or not, removes or changes an earlier
      message. */
  function HandleAll(st: Chat.ChatState, sends: seq<Composer.Send>, os: seq<Oracles>): (r: Chat.ChatState)
    requires |os| == |sends|
    ensures |st.messages| <= |r.messages| && r.messages[..|st.messages|] == st.messages
    decreases |sends|
  {
    if sends == [] then st
    else
      var t := Chat.HandleSend(st, sends[0].text, sends[0].image, os[0].ocr, os[0].analyze);
      var r := HandleAll(t.state, sends[1..], os[1..]);
      assert t.state.messages[..|st.messages|] == st.messages by {
        if t.settlement != Chat.Ignored {
          assert t.state.messages[..|st.messages| + 1][..|st.messages|] == st.messages;
        }
      }
      assert r.messages[..|st.messages|] == r.messages[..|t.state.messages|][..|st.messages|];
      r
  }

  /** A session of composer actions handled in turn, each send with its
      own oracles: the earlier messages stay as they were and every
      forwarded message adds at least one. */
  lemma {:induction false} SessionKeepsHistory(c: Composer.ComposerState, actions: seq<Composer.Action>,
                                               st: Chat.ChatState, os: seq<Oracles>)
    requires |os| == |Composer.Run(c, actions).1|
    ensures var sends := Composer.Run(c, actions).1;
            var after := HandleAll(st, sends, os);
            && |after.messages| >= |st.messages| + |sends|
            && after.messages[..|st.messages|] == st.messages
  {
    Composer.RunSendsAreNonEmpty(c, actions);
    HandledSendsGrow(st, Composer.Run(c, actions).1, os);
  }

  lemma {:induction false} HandledSendsGrow(st: Chat.ChatState, sends: seq<Composer.Send>, os: seq<Oracles>)
    requires |os| == |sends|
    requires forall i :: 0 <= i < |sends| ==> !Chat.Ignores(sends[i].text, sends[i].image)
    ensures |HandleAll(st, sends, os).messages| >= |st.messages| + |sends|
    decreases |sends|
  {
    if sends != [] {
      var t := Chat.HandleSend(st, sends[0].text, sends[0].image, os[0].ocr, os[0].analyze);
      HandledSendsGrow(t.state, sends[1..], os[1..]);
    }
  }
}
