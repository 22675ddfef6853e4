/** The stand-alone heatmap generator (hci_logger/processing/heatmap.py): the event
    filters of `generate_from_events`, `generate_click_heatmap` and
    `generate_comparison`, and the grid each panel is drawn from. Colormaps,
    figures and files are left out; a panel is its grid and its title. */
module Heatmap {
  import opened Wrappers
  import opened Text
  import opened MouseEvents
  import opened ActivityGrid

  /** The types `generate_from_events` keeps when it is given none. */
  const DefaultEventTypes: seq<EventType> := [Move, Click]

  /** `[e for e in events if e.get('event_type') in event_types]`. */
  function OfTypes(events: seq<MouseEvent>, types: seq<EventType>): (r: seq<MouseEvent>)
    ensures |r| <= |events|
    ensures forall e :: e in r <==> e in events && e.eventType in types
  {
    if events == [] then []
    else (if events[0].eventType in types then [events[0]] else []) + OfTypes(events[1..], types)
  }

  /** The move events, in order. */
  function Moves(events: seq<MouseEvent>): (r: seq<MouseEvent>)
    ensures |r| <= |events|
    ensures forall e :: e in r <==> e in events && e.eventType == Move
  {
    if events == [] then []
    else (if events[0].eventType == Move then [events[0]] else []) + Moves(events[1..])
  }

  /** The clicks whose `pressed` flag is True, in order. */
  function PressedClicks(events: seq<MouseEvent>): (r: seq<MouseEvent>)
    ensures |r| <= |events|
    ensures forall e :: e in r <==> e in events && IsPressedClick(e)
  {
    if events == [] then []
    else (if IsPressedClick(events[0]) then [events[0]] else []) + PressedClicks(events[1..])
  }

  /** Moves and pressed clicks never overlap, so together they are at most all events. */
  lemma {:induction false} MovesAndClicksPartition(events: seq<MouseEvent>)
    ensures |Moves(events)| + |PressedClicks(events)| <= |events|
  {
    if events != [] {
      MovesAndClicksPartition(events[1..]);
    }
  }

  /** With no explicit list, moves and clicks are kept, scrolls dropped. */
  lemma DefaultKeepsMovesAndClicks(events: seq<MouseEvent>)
    ensures forall e :: e in OfTypes(events, DefaultEventTypes) <==> e in events && e.eventType != Scroll
  {
  }

  /** A rendered panel: the grid drawn and the title above it. */
  datatype Panel = Panel(grid: Grid, title: string)

  datatype Comparison = Comparison(movePanel: Option<Panel>, clickPanel: Option<Panel>)

  class HeatmapGenerator {
    const screenWidth: int
    const screenHeight: int

    predicate Valid() {
      screenWidth > 0 && screenHeight > 0
    }

    constructor (screenWidth: int, screenHeight: int)
      requires screenWidth > 0 && screenHeight > 0
      ensures Valid() && this.screenWidth == screenWidth && this.screenHeight == screenHeight
    {
      this.screenWidth := screenWidth;
      this.screenHeight := screenHeight;
    }

    /** `generate_from_events`: nothing is drawn when no event of the requested types
        remains; otherwise one panel over their coordinates, titled with their count.
        `None` for the types stands for the default list. */
    method GenerateFromEvents(events: seq<MouseEvent>, eventTypes: Option<seq<EventType>>, blur: Grid -> Grid)
      returns (panel: Option<Panel>)
      requires Valid()
      ensures var kept := OfTypes(events, eventTypes.GetOr(DefaultEventTypes));
        && (panel == None <==> kept == [])
        && (kept != [] ==> panel == Some(Panel(HeatmapOf(Coords(kept), screenWidth, screenHeight, blur),
                                               "Heatmap - " + NatToString(|kept|) + " eventos")))
    {
      var types := if eventTypes.None? then DefaultEventTypes else eventTypes.value;
      var kept := OfTypes(events, types);
      if kept == [] {
        return None;
      }
      var grid := CreateHeatmapArray(Coords(kept), screenWidth, screenHeight, blur);
      panel := Some(Panel(grid, "Heatmap - " + NatToString(|kept|) + " eventos"));
    }

    /** `generate_click_heatmap`: only clicks with `pressed is True`. */
    method GenerateClickHeatmap(events: seq<MouseEvent>, blur: Grid -> Grid) returns (panel: Option<Panel>)
      requires Valid()
      ensures var clicks := PressedClicks(events);
        && (panel == None <==> clicks == [])
        && (clicks != [] ==> panel == Some(Panel(HeatmapOf(Coords(clicks), screenWidth, screenHeight, blur),
                                                 "Click Heatmap - " + NatToString(|clicks|) + " clicks")))
    {
      var clicks := PressedClicks(events);
      if clicks == [] {
        return None;
      }
      var grid := CreateHeatmapArray(Coords(clicks), screenWidth, screenHeight, blur);
      panel := Some(Panel(grid, "Click Heatmap - " + NatToString(|clicks|) + " clicks"));
    }

    /** `generate_comparison`: moves on the left, pressed clicks on the right (with
        blur radii 15 and 30), each panel drawn only when it has events; nothing at
        all when both are empty. */
    method GenerateComparison(events: seq<MouseEvent>, blurMove: Grid -> Grid, blurClick: Grid -> Grid)
      returns (r: Option<Comparison>)
      requires Valid()
      ensures var moves, clicks := Moves(events), PressedClicks(events);
        && (r == None <==> moves == [] && clicks == [])
        && (r.Some? ==>
              && (r.value.movePanel == if moves == [] then None
                  else Some(Panel(HeatmapOf(Coords(moves), screenWidth, screenHeight, blurMove),
                                  "Movimientos del Mouse (" + NatToString(|moves|) + " eventos)")))
              && (r.value.clickPanel == if clicks == [] then None
                  else Some(Panel(HeatmapOf(Coords(clicks), screenWidth, screenHeight, blurClick),
                                  "Clicks del Mouse (" + NatToString(|clicks|) + " eventos)"))))
    {
      var moves, clicks := Moves(events), PressedClicks(events);
      if moves == [] && clicks == [] {
        return None;
      }
      var movePanel: Option<Panel> := None;
      if moves != [] {
        var grid := CreateHeatmapArray(Coords(moves), screenWidth, screenHeight, blurMove);
        movePanel := Some(Panel(grid, "Movimientos del Mouse (" + NatToString(|moves|) + " eventos)"));
      }
      var clickPanel: Option<Panel> := None;
      if clicks != [] {
        var grid := CreateHeatmapArray(Coords(clicks), screenWidth, screenHeight, blurClick);
        clickPanel := Some(Panel(grid, "Clicks del Mouse (" + NatToString(|clicks|) + " eventos)"));
      }
      r := Some(Comparison(movePanel, clickPanel));
    }
  }
}
