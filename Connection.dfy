/** The connection indicator of `updateConnectionStatus`
    (public/js/script.js): the text and colour of the `.subtitle` element. */
module Connection {
  import opened Wrappers

  /** The text and colour that lines 35-36 of public/js/script.js assign to
      the `.subtitle` element, or `None` when the page has no such element. */
  type Subtitle = Option<(string, string)>

  const NominalText := "Real-Time Status Checker"
  const NominalColour := "#64748b"
  const ReconnectingText := "RECONNECTING..."
  const ReconnectingColour := "#ff0033"

  /** The indicator's text and colour for a connection state. */
  function Indicator(isConnected: bool): (style: (string, string))
    ensures style == (NominalText, NominalColour) <==> isConnected
    ensures style == (ReconnectingText, ReconnectingColour) <==> !isConnected
  {
    if isConnected then (NominalText, NominalColour) else (ReconnectingText, ReconnectingColour)
  }

  /** The two states are told apart by the text alone and by the colour
      alone. */
  lemma IndicatorDistinguishes(a: bool, b: bool)
    ensures Indicator(a).0 == Indicator(b).0 <==> a == b
    ensures Indicator(a).1 == Indicator(b).1 <==> a == b
  {
    assert NominalColour[1] != ReconnectingColour[1];
  }

  /** What one `updateConnectionStatus(isConnected)` call leaves in the
      subtitle: restyled when present, nothing when absent. */
  function Restyle(sub: Subtitle, isConnected: bool): (r: Subtitle)
    ensures r.Some? <==> sub.Some?
    ensures r.Some? ==> r.value == Indicator(isConnected)
  {
    match sub
    case None => None
    case Some(_) => Some(Indicator(isConnected))
  }

  /** The subtitle after a sequence of calls, first to last. */
  function AfterCalls(sub: Subtitle, calls: seq<bool>): Subtitle
    decreases |calls|
  {
    if calls == [] then sub else AfterCalls(Restyle(sub, calls[0]), calls[1..])
  }

  /** A later call overwrites an earlier one entirely. */
  lemma RestyleOverwrites(sub: Subtitle, a: bool, b: bool)
    ensures Restyle(Restyle(sub, a), b) == Restyle(sub, b)
  {
  }

  /** The last call decides the indicator, whatever came before it; with no
      subtitle element every call does nothing. */
  lemma {:induction false} LastCallDecides(sub: Subtitle, calls: seq<bool>)
    requires calls != []
    ensures AfterCalls(sub, calls) == Restyle(sub, calls[|calls| - 1])
    ensures sub.None? ==> AfterCalls(sub, calls) == None
    decreases |calls|
  {
    if |calls| == 1 {
      assert calls[1..] == [];
    } else {
      LastCallDecides(Restyle(sub, calls[0]), calls[1..]);
      RestyleOverwrites(sub, calls[0], calls[|calls| - 1]);
    }
  }

  /** Connect, disconnect, connect ends in the connected style. */
  lemma ReconnectEndsConnected(sub: Subtitle)
    requires sub.Some?
    ensures AfterCalls(sub, [true, false, true]) == Some((NominalText, NominalColour))
  {
    LastCallDecides(sub, [true, false, true]);
  }
}
