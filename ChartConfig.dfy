/** The two data mappings of the detail chart `showChart` builds
    (public/js/script.js): the bar's value and its tooltip text. */
module ChartConfig {

  /** The y-axis maximum of the chart. */
  const AxisMax := 100

  /** `status === 'up' ? 100 : 0`: a full bar for a node that is up, an empty
      one for anything else. */
  function BarValue(status: string): (v: int)
    ensures 0 <= v <= AxisMax
    ensures v == AxisMax <==> status == "up"
    ensures status != "up" ==> v == 0
  {
    if status == "up" then 100 else 0
  }

  /** The tooltip label callback: `Status: Up` exactly when the raw value is
      100, `Status: Down` otherwise. */
  function TooltipLabel(raw: int): (text: string)
    ensures text == "Status: Up" || text == "Status: Down"
    ensures text == "Status: Up" <==> raw == 100
  {
    "Status: " + (if raw == 100 then "Up" else "Down")
  }

  /** The tooltip of a node's chart says Up if and only if the node's status
      is `up`. */
  lemma TooltipSaysUpIffUp(status: string)
    ensures TooltipLabel(BarValue(status)) == "Status: Up" <==> status == "up"
    ensures TooltipLabel(BarValue(status)) == "Status: Down" <==> status != "up"
  {
  }
}
