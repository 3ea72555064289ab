/**
 The gateway's message value and the per-recipient loop shapes its
 providers use (`sachet.go` and the provider packages).
 */
module Sachet {
  import opened Wrappers
  import Text

  /** `sachet.Message`: `kind` is the Go field `Type`. */
  datatype Message = Message(to: seq<string>, from: string, text: string, kind: string)

  /**
   What a "stop at the first error" loop did: the recipients it contacted,
   in order, and the error it returned.
   */
  datatype Fanout = Fanout(attempted: seq<string>, error: Option<string>)

  /**
   `for _, r := range recipients { if err := send(r); err != nil { return err } }`:
   recipients are contacted in order; the first failure ends the loop and is
   returned, and nobody after it is contacted.
   */
  function SendEach(recipients: seq<string>, send: string -> Option<string>): (r: Fanout)
    ensures r.attempted <= recipients
    ensures r.error.None? ==> r.attempted == recipients
    ensures r.error.Some? ==> |r.attempted| > 0 && send(r.attempted[|r.attempted| - 1]) == r.error
    ensures forall j :: 0 <= j < |r.attempted| && (r.error.None? || j < |r.attempted| - 1)
                        ==> send(r.attempted[j]).None?
  {
    if |recipients| == 0 then Fanout([], None)
    else if send(recipients[0]).Some? then Fanout([recipients[0]], send(recipients[0]))
    else
      var rest := SendEach(recipients[1..], send);
      Fanout([recipients[0]] + rest.attempted, rest.error)
  }

  /** The loop reports success exactly when every recipient's send succeeds. */
  lemma {:induction false} SendEachSucceedsIffAll(recipients: seq<string>, send: string -> Option<string>)
    ensures SendEach(recipients, send).error.None?
            <==> forall i :: 0 <= i < |recipients| ==> send(recipients[i]).None?
  {
    if |recipients| > 0 && send(recipients[0]).None? {
      SendEachSucceedsIffAll(recipients[1..], send);
      assert forall i :: 1 <= i < |recipients| ==> recipients[i] == recipients[1..][i - 1];
    }
  }

  /**
   `for _, r := range recipients { _, err = send(r) }; return err`: every
   recipient is contacted and only the last call's outcome survives.
   */
  function SendAllKeepLast(recipients: seq<string>, send: string -> Option<string>): (r: Option<string>)
    ensures |recipients| == 0 ==> r.None?
    ensures |recipients| > 0 ==> r == send(recipients[|recipients| - 1])
  {
    if |recipients| == 0 then None
    else if |recipients| == 1 then send(recipients[0])
    else SendAllKeepLast(recipients[1..], send)
  }

  /**
   What the SAP and SFR providers do to a text before sending it: every
   line break becomes `" - "`, so the text fits on one line.
   */
  function OneLine(text: string): (r: string)
    ensures '\n' !in r
    ensures '\n' !in text ==> r == text
    ensures |r| == |text| + 2 * Text.Count(text, '\n')
  {
    Text.ReplaceAllLength(text, '\n', " - ");
    Text.ReplaceAllUnchanged(text, '\n', " - ");
    Text.ReplaceAll(text, '\n', " - ")
  }

  /** The sanitised text is the text's lines joined with `" - "`. */
  lemma OneLineJoinsLines(text: string)
    ensures OneLine(text) == Text.Join(Text.Split(text, '\n'), " - ")
  {
    Text.ReplaceAllIsSplitJoin(text, '\n', " - ");
  }
}
