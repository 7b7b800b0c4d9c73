/** The `NeXeonStatusChecker` widget of public/js/script.js: the state its
    event handlers change, and the handlers themselves. */
module Dashboard {
  import opened Wrappers
  import opened Render
  import opened ChartConfig
  import opened Connection

  /** What a `statusUpdate` event carries: an array of node records, or
      anything else. */
  datatype Payload = NotArray | Array(nodes: seq<Node>)

  /** A chart made by `new Chart(canvas, config)`: its one category (the node name),
      its one data value, the overlay whose canvas it draws on, and how many
      times `destroy()` has been called on it. */
  class ChartHandle {
    const category: string
    const value: int
    const overlay: nat
    var destroyCalls: nat

    constructor (nodeName: string, status: string, overlay: nat)
      ensures category == nodeName && value == BarValue(status) && this.overlay == overlay
      ensures destroyCalls == 0
    {
      category := nodeName;
      value := BarValue(status);
      this.overlay := overlay;
      destroyCalls := 0;
    }

    predicate Destroyed()
      reads this
    {
      destroyCalls > 0
    }

    /** The text the chart's tooltip shows for its bar. */
    function Tooltip(): string
    {
      TooltipLabel(value)
    }

    method Destroy()
      modifies this
      ensures destroyCalls == old(destroyCalls) + 1
    {
      destroyCalls := destroyCalls + 1;
    }
  }

  /** Strictly increasing: overlays sit in the body in the order they were
      created, each once. */
  predicate Increasing(s: seq<nat>)
  {
    forall i, j :: 0 <= i < j < |s| ==> s[i] < s[j]
  }

  /** `s` with `x` taken out (`removeChild` of an element that occurs once). */
  function Without(s: seq<nat>, x: nat): (r: seq<nat>)
    ensures forall y :: y in r <==> y in s && y != x
    ensures |r| <= |s|
  {
    if s == [] then []
    else (if s[0] == x then [] else [s[0]]) + Without(s[1..], x)
  }

  lemma {:induction false} WithoutIncreasing(s: seq<nat>, x: nat)
    requires Increasing(s)
    ensures Increasing(Without(s, x))
  {
    if s != [] {
      WithoutIncreasing(s[1..], x);
      var rest := Without(s[1..], x);
      forall y | y in rest ensures s[0] < y {
        var k :| 0 <= k < |s[1..]| && s[1..][k] == y;
        assert s[k + 1] == y;
      }
      if s[0] == x {
        assert Without(s, x) == rest;
      } else {
        var r := Without(s, x);
        assert r == [s[0]] + rest;
        forall i, j | 0 <= i < j < |r| ensures r[i] < r[j] {
          assert r[j] == rest[j - 1];
          if i > 0 {
            assert r[i] == rest[i - 1];
          } else {
            assert rest[j - 1] in rest;
          }
        }
      }
    }
  }

  lemma AppendIncreasing(s: seq<nat>, x: nat)
    requires Increasing(s) && forall y :: y in s ==> y < x
    ensures Increasing(s + [x])
  {
    forall i, j | 0 <= i < j < |s + [x]| ensures (s + [x])[i] < (s + [x])[j] {
      assert (s + [x])[i] == s[i] && s[i] in s;
    }
  }

  class StatusChecker {
    /** The markup assigned to `this.container.innerHTML` (line 71 of
        public/js/script.js). */
    var container: string
    /** How many times `updateTimestamp` has run; the clock text it writes
        is not modelled. */
    var timestampRefreshes: nat
    /** The `.subtitle` element's text and colour, if the page has one. */
    var subtitle: Subtitle
    /** `this.chart`. */
    var chart: Option<ChartHandle>
    /** The chart overlays appended to `document.body`, oldest first. */
    var body: seq<nat>
    /** How many overlays `showChart` has created; the next one's identity. */
    var overlaysCreated: nat
    /** Every chart ever constructed. */
    ghost var charts: set<ChartHandle>

    ghost predicate Valid()
      reads this, charts
    {
      (chart.Some? ==> chart.value in charts) &&
      // at most one chart is alive, and it is the current one
      (forall h :: h in charts && !h.Destroyed() ==> chart == Some(h)) &&
      (forall h :: h in charts ==> h.overlay < overlaysCreated) &&
      (forall o :: o in body ==> o < overlaysCreated) &&
      Increasing(body)
    }

    /** `new NeXeonStatusChecker()` on a page whose container holds
        `markup` and whose subtitle is `subtitle`; `initializeTimeago`
        refreshes the timestamp once. */
    constructor (markup: string, subtitle: Subtitle)
      ensures Valid()
      ensures container == markup && this.subtitle == subtitle && timestampRefreshes == 1
      ensures chart == None && body == [] && overlaysCreated == 0 && charts == {}
    {
      container := markup;
      this.subtitle := subtitle;
      timestampRefreshes := 1;
      chart := None;
      body := [];
      overlaysCreated := 0;
      charts := {};
    }

    /** `updateTimestamp`. */
    method UpdateTimestamp()
      requires Valid()
      modifies this`timestampRefreshes
      ensures Valid()
      ensures timestampRefreshes == old(timestampRefreshes) + 1
    {
      timestampRefreshes := timestampRefreshes + 1;
    }

    /** `updateConnectionStatus(isConnected)`. */
    method UpdateConnectionStatus(isConnected: bool)
      requires Valid()
      modifies this`subtitle
      ensures Valid()
      ensures subtitle == Restyle(old(subtitle), isConnected)
      ensures isConnected && subtitle.Some? ==> subtitle.value == (NominalText, NominalColour)
      ensures !isConnected && subtitle.Some? ==> subtitle.value == (ReconnectingText, ReconnectingColour)
    {
      if subtitle.Some? {
        subtitle := Some(Indicator(isConnected));
      }
    }

    /** `handleConnect`: the nominal style. */
    method HandleConnect()
      requires Valid()
      modifies this`subtitle
      ensures Valid()
      ensures subtitle == Restyle(old(subtitle), true)
    {
      UpdateConnectionStatus(true);
    }

    /** `handleDisconnect`: the reconnecting style. */
    method HandleDisconnect()
      requires Valid()
      modifies this`subtitle
      ensures Valid()
      ensures subtitle == Restyle(old(subtitle), false)
    {
      UpdateConnectionStatus(false);
    }

    /** `updateNodes(statuses)`: a payload that is not an array changes
        nothing; an array replaces the whole container with the markup of
        its entries, in order, and refreshes the timestamp. */
    method UpdateNodes(p: Payload)
      requires Valid()
      modifies this`container, this`timestampRefreshes
      ensures Valid()
      ensures p.NotArray? ==> container == old(container) && timestampRefreshes == old(timestampRefreshes)
      ensures p.Array? ==> container == RenderNodes(p.nodes) && timestampRefreshes == old(timestampRefreshes) + 1
    {
      if !p.Array? {
        return;
      }
      container := RenderNodes(p.nodes);
      UpdateTimestamp();
    }

    /** `showChart(nodeName, status)`: appends a new overlay, destroys the
        current chart if there is one, and makes a chart for this node the
        current one. Earlier overlays stay in the body. Returns the new
        overlay, whose close button runs `CloseChart` on it. */
    method ShowChart(nodeName: string, status: string) returns (overlay: nat)
      requires Valid()
      modifies this`body, this`overlaysCreated, this`chart, this`charts, charts
      ensures Valid()
      ensures overlay == old(overlaysCreated) && overlay !in old(body)
      ensures body == old(body) + [overlay]
      ensures chart.Some? && fresh(chart.value) && charts == old(charts) + {chart.value}
      ensures chart.value.category == nodeName && chart.value.value == BarValue(status)
      ensures chart.value.overlay == overlay && !chart.value.Destroyed()
      ensures chart.value.Tooltip() == "Status: Up" <==> status == "up"
      ensures old(chart).Some? ==> old(chart).value.destroyCalls == old(chart.value.destroyCalls) + 1
      ensures forall h :: h in old(charts) && Some(h) != old(chart) ==> h.destroyCalls == old(h.destroyCalls)
    {
      overlay := overlaysCreated;
      overlaysCreated := overlaysCreated + 1;
      AppendIncreasing(body, overlay);
      body := body + [overlay];
      if chart.Some? {
        chart.value.Destroy();
      }
      var h := new ChartHandle(nodeName, status, overlay);
      chart := Some(h);
      charts := charts + {h};
    }

    /** The close button of `overlay`: removes that overlay and destroys
        whatever chart is current at the time, without clearing
        `this.chart`. If the overlay is no longer in the body,
        `removeChild` throws before anything changes. */
    method CloseChart(overlay: nat)
      requires Valid()
      modifies this`body, charts
      ensures Valid()
      ensures chart == old(chart)
      ensures overlay in old(body) ==> body == Without(old(body), overlay)
      ensures overlay !in old(body) ==> body == old(body)
      ensures overlay in old(body) && chart.Some? ==> chart.value.destroyCalls == old(chart.value.destroyCalls) + 1
      ensures forall h :: h in charts && (overlay !in old(body) || Some(h) != chart) ==> h.destroyCalls == old(h.destroyCalls)
    {
      if overlay !in body {
        return;
      }
      WithoutIncreasing(body, overlay);
      body := Without(body, overlay);
      if chart.Some? {
        chart.value.Destroy();
      }
    }
  }

  /** Any two live charts are the same chart. */
  lemma AtMostOneLiveChart(c: StatusChecker, g: ChartHandle, h: ChartHandle)
    requires c.Valid()
    requires g in c.charts && h in c.charts && !g.Destroyed() && !h.Destroyed()
    ensures g == h
  {
  }

  /** Connect, disconnect, connect: the subtitle ends in the nominal
      style. */
  method ReconnectEndsNominal() returns (shown: Subtitle)
    ensures shown == Some((NominalText, NominalColour))
  {
    var c := new StatusChecker("", Some(("", "")));
    c.HandleConnect();
    c.HandleDisconnect();
    assert c.subtitle == Some((ReconnectingText, ReconnectingColour));
    c.HandleConnect();
    shown := c.subtitle;
  }

  /** Two charts opened one after the other leave two overlays on screen;
      closing the first destroys the second chart, which its own overlay
      still shows, and closing the second destroys it a second time. */
  method OverlaysAccumulate() returns (openAfterTwoShows: nat, destroyCallsAfterTwoCloses: nat)
    ensures openAfterTwoShows == 2
    ensures destroyCallsAfterTwoCloses == 2
  {
    var c := new StatusChecker("", Some((NominalText, NominalColour)));
    var a := c.ShowChart("node-A", "up");
    var first := c.chart.value;
    var b := c.ShowChart("node-B", "down");
    var second := c.chart.value;
    assert first.Destroyed() && !second.Destroyed();
    openAfterTwoShows := |c.body|;
    c.CloseChart(a);
    assert c.body == [b] && second.destroyCalls == 1;
    c.CloseChart(b);
    assert c.body == [];
    destroyCallsAfterTwoCloses := second.destroyCalls;
  }
}
