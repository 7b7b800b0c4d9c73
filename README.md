# NeXeon status checker — a Dafny model

This project models the browser widget `NeXeonStatusChecker` of the NeXeon
website monitor. The widget shows the live up/down status of a set of named
nodes that a server pushes over a socket. It also opens a detail chart for a
node on demand. The model covers the four pieces of logic inside the widget:

- **HTML escaping** (`Escape`). `escapeHtml` is five global replaces: `&`,
  `<`, `>`, `"`, `'`, in that order. The model proves the chain equals a
  per-character substitution. It also proves that the output has no raw
  `<`, `>`, `"` or `'`, that every `&` in it begins one of the five
  references, and that undoing the five character references gives back the
  input.
- **Node rendering** (`Render`). `createNodeElement` is a template literal.
  The model proves where each field of the node lands. The escaped name goes
  in `data-node` and in the name span. The upper-cased status goes in the
  status div. The raw status goes in the class. The raw name and status go
  in the `onclick` arguments, unescaped, exactly as the code writes them. `updateNodes`
  renders a snapshot as the fragments of its entries, joined in order.
- **Connection indicator** (`Connection`, and the handlers in `Dashboard`).
  The subtitle is restyled to one of two (text, colour) pairs. The two pairs
  differ in both text and colour. The last call decides.
- **Detail-chart lifecycle** (`Dashboard`). The widget is the class
  `StatusChecker`. Its fields are the container markup, the subtitle,
  `this.chart`, and the overlays present in `document.body`. Charts are
  objects of class `ChartHandle` that count their `destroy()` calls.
  `ShowChart` appends an overlay and destroys the current chart before making
  a new one. The close handler removes its own overlay and destroys whatever
  chart is current. It never clears `this.chart`. The model keeps this
  behaviour. So several overlays can be open at once, and one chart can be
  destroyed twice. `OverlaysAccumulate` shows both. Still, at every point at
  most one chart is not destroyed, and that chart is the current one.

The socket, the clock and the animation frames are not modelled. Each event
handler is a method that is called directly.

In four places the widget does not do what a reader might expect of it. The
model follows the code in each:

- One might expect one detail view at a time. The code appends a new overlay
  on every `showChart` and never removes the earlier ones.
- One might expect the node name in capitals ("NODE-A"). The code
  upper-cases only the status. The name is shown escaped but otherwise as it
  was sent.
- One might expect a missing DOM element to be skipped. That holds for the
  subtitle and the timestamp label. A missing container makes line 71 throw.
- One might expect every node name to be escaped against markup injection.
  The class attribute embeds the raw status, and the `onclick` call embeds
  the raw name and status. `Render.NodeElementSlots` states this.

## Model

| member | source | states |
|---|---|---|
| Escape.ReplaceAll | public/js/script.js:57-61 | one `replace(/c/g, rep)` step: every character of the result is an input character other than `c`, or a character of `rep`; without `c` in the input, the input comes back unchanged |
| Escape.ReplaceAllConcat | public/js/script.js:57-61 | a global replace of a concatenation is the concatenation of the replaces |
| Escape.EscapeHtml | public/js/script.js:55-62 | the escaped text contains no raw `<`, `>`, `"` or `'` |
| Escape.EscapeHtmlConcat | public/js/script.js:55-62 | escaping works piece by piece over a concatenation |
| Escape.EscapeHtmlIsPerCharacter | public/js/script.js:56-61 | the chain of five replaces, `&` first, equals substituting each character on its own: `&`→`&amp;`, `<`→`&lt;`, `>`→`&gt;`, `"`→`&quot;`, `'`→`&#039;`, any other character unchanged |
| Escape.LaterEntitiesNotReescaped | public/js/script.js:57-58 | `<` becomes `&lt;`, never `&amp;lt;`, and `&` becomes `&amp;` |
| Escape.EscapeHtmlInert | public/js/script.js:55-62 | the output holds no raw `<`, `>`, `"` or `'`, and every `&` in it begins one of the five references |
| Escape.DecodeEscapeHtml | public/js/script.js:55-62 | decoding the five references in the escaped text gives back the input exactly, so no character is lost or altered |
| Render.ToUpper | public/js/script.js:49 | `toUpperCase` keeps the length and upper-cases each character in place |
| Render.StatusTexts | public/js/script.js:49 | status `up` is shown as `UP` and `down` as `DOWN` |
| Render.CreateNodeElement | public/js/script.js:40-53 | the markup opens the node div and ends with the text that closes it; where each field lands in between is `Render.NodeElementSlots` |
| Render.Join | public/js/script.js:41-52 | `join('')`, and the evaluation of a template literal: no parts give the empty string, otherwise the result starts with the first part; `Render.JoinConcat` splits it over a concatenation |
| Render.NodeElementSlots | public/js/script.js:41-52 | the markup starts with the node div; the raw status is in the class; `escapeHtml(name)` is the `data-node` value and the name-span text; the raw name and raw status are the `showChart` arguments; the upper-cased status is the status-div text |
| Render.NameRendersAsText | public/js/script.js:45 | the name span holds text that cannot open a tag or close an attribute, and whose five character references decode (`DecodeEntities`) to exactly the node's name |
| Render.Fragments | public/js/script.js:70 | `map(createNodeElement)`: one fragment per entry, fragment `i` rendering entry `i` |
| Render.RenderNodes | public/js/script.js:70 | `map(createNodeElement).join('')`: an empty snapshot gives empty markup, otherwise the markup starts with the first entry's; `Render.RenderNodesAt` places every entry |
| Render.JoinConcat | public/js/script.js:70 | `join('')` of a concatenation is the concatenation of the joins |
| Render.RenderNodesConcat | public/js/script.js:70 | a snapshot renders as the markup of its first part followed by the markup of the rest |
| Render.RenderNodesAt | public/js/script.js:70-71 | entry `i`'s markup sits between the markup of the entries before it and the markup of those after it; an empty snapshot renders as empty markup |
| ChartConfig.BarValue | public/js/script.js:142 | the bar value lies within the 0–100 y-axis range; it is 100 exactly when the status is `up`, and 0 for any other status |
| ChartConfig.TooltipLabel | public/js/script.js:196 | the tooltip reads `Status: Up` or `Status: Down`; it reads `Status: Up` exactly when the raw value is 100 |
| ChartConfig.TooltipSaysUpIffUp | public/js/script.js:142-196 | a node's chart tooltip says Up if and only if its status is `up`, and Down otherwise |
| Connection.Restyle | public/js/script.js:32-38 | the subtitle stays absent when it is absent; a subtitle that is present takes the indicator of the new state |
| Connection.Indicator | public/js/script.js:35-36 | the style is ("Real-Time Status Checker", "#64748b") exactly when connected and ("RECONNECTING...", "#ff0033") exactly when not |
| Connection.IndicatorDistinguishes | public/js/script.js:35-36 | connected and disconnected differ in text alone and also in colour alone |
| Connection.LastCallDecides | public/js/script.js:22-38 | after any non-empty sequence of calls, the subtitle is what the last call alone would make it; a missing subtitle stays missing |
| Connection.ReconnectEndsConnected | public/js/script.js:22-30 | connect, disconnect, connect ends with ("Real-Time Status Checker", "#64748b") |
| Dashboard.Without | public/js/script.js:127 | `removeChild`: the body keeps every overlay except the removed one |
| Dashboard.WithoutIncreasing | public/js/script.js:127 | removing an overlay keeps the rest in creation order |
| Dashboard.ChartHandle.constructor | public/js/script.js:138-155 | a new chart has the node name as its one category and `BarValue(status)` as its one value, and has never been destroyed |
| Dashboard.ChartHandle.Destroy | public/js/script.js:152 | each `destroy()` call is counted |
| Dashboard.StatusChecker.constructor | public/js/script.js:2-9 | a new widget has no chart and no overlays, and has refreshed its timestamp once |
| Dashboard.StatusChecker.UpdateTimestamp | public/js/script.js:77-84 | one more timestamp refresh, nothing else changes |
| Dashboard.StatusChecker.UpdateConnectionStatus | public/js/script.js:32-38 | a present subtitle becomes ("Real-Time Status Checker", "#64748b") when connected and ("RECONNECTING...", "#ff0033") when not; an absent one stays absent |
| Dashboard.StatusChecker.HandleConnect | public/js/script.js:22-25 | the subtitle is restyled as connected |
| Dashboard.StatusChecker.HandleDisconnect | public/js/script.js:27-30 | the subtitle is restyled as disconnected |
| Dashboard.StatusChecker.UpdateNodes | public/js/script.js:64-75 | a non-array payload leaves the container and the timestamp as they were; an array sets the markup assigned to the container to exactly the rendering of its entries, with nothing from before, and refreshes the timestamp |
| Dashboard.StatusChecker.ShowChart | public/js/script.js:103-205 | a new overlay is appended after the earlier ones, which stay; the previous chart, if any, is destroyed once more; `this.chart` becomes a fresh, live chart for the node, drawn in the new overlay, whose tooltip says Up exactly when the status is `up`; no other chart changes |
| Dashboard.StatusChecker.CloseChart | public/js/script.js:126-131 | the handler removes its own overlay and destroys the current chart once more; `this.chart` is not cleared; if the overlay is already gone, nothing changes |
| Dashboard.AtMostOneLiveChart | public/js/script.js:151-155 | any two charts that are not destroyed are the same chart |
| Dashboard.ReconnectEndsNominal | public/js/script.js:22-38 | connect, disconnect, connect on the widget leaves the subtitle at ("Real-Time Status Checker", "#64748b") |
| Dashboard.OverlaysAccumulate | public/js/script.js:103-155 | two `showChart` calls leave two overlays open; closing both destroys the second chart twice |

## Left out

- The socket transport (`io()` and the three `socket.on` registrations, lines 3 and 11-15) is a foreign library. Each handler is a method that is called directly.
- `updateTimestamp` needs the clock and the locale (`Date`, `toLocaleTimeString`, `toLocaleDateString`), and `setInterval` repeats it every 60 s (lines 17-20, 77-84). The model counts refreshes only.
- `addNodeAnimations` (lines 86-97) sets each `.node` element's inline opacity and transform at once, then changes them again on the next frame. These `style` attributes are not tracked. Neither is the browser's re-serialisation of the assigned markup, which for example reads a `&#039;` back as `'`. `container` is the string that line 71 assigns.
- The logging of `addSystemStatus` and `console.error` (lines 66, 99-101) and the `DOMContentLoaded` bootstrap (lines 208-210) are left out.
- Chart.js itself and the chart's visual options are left out: colours, fonts, animation and overlay styling (lines 104-125, 143-147, 156-204). A chart keeps only its category, its value and its tooltip text.
- Every overlay gets the same DOM id, `chart-container` (line 105). The model gives each overlay its own identity, since `removeChild` works on the element itself, not on its id.
- Render.ToUpper: only upper-cases the ASCII letters a–z. JavaScript's `toUpperCase` also maps letters outside ASCII, and some of them (such as `ß`) to two characters.
- Payload entries are records with string `name` and `status`. If an entry is not such a record, evaluating its template (lines 42-49) can throw in the middle of `map`, and the container is then left as it was. This case is not modelled.
- A missing status container makes `this.container.innerHTML = …` throw (line 71). The model always has a container.
- The inline `onclick` call that opens a chart is not parsed or run. The model states only which raw text the call embeds.
- `Escape.DecodeEntities` undoes only the five character references. It is not code from the widget. It is the inverse against which escaping is proved lossless.
- Render.NameRendersAsText: states the read-back only under `DecodeEntities`, not under a full HTML parse of the markup `innerHTML` receives (line 71). Such a parse also changes other characters: a carriage return becomes a line feed, a NUL in text is dropped, and a NUL in an attribute value becomes U+FFFD.
