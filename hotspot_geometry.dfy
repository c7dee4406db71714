/** Where the three right-click hotspots sit on the frame: the top one
    centred on the top edge, the side ones centred vertically on the left and
    right edges. */
module HotspotGeometry {

  import opened Resources
  import opened Settings
  import opened PyInt
  import opened Qt

  /** compute_top_hotspot_geometry: centred horizontally (left margin and
      right margin differ by at most one pixel, the extra one on the right),
      flush with the top. */
  function TopHotspot(sp: SpriteProperties, hs: HotspotSettings): (r: Rect)
    ensures r.w == hs.topHotspotWidth && r.h == hs.topHotspotHeight && r.y == 0
    ensures r.x <= sp.frameWidth - (r.x + r.w) <= r.x + 1
  {
    var w := hs.topHotspotWidth;
    Rect(FloorDiv(sp.frameWidth - w, 2), 0, w, hs.topHotspotHeight)
  }

  /** compute_left_hotspot_geometry: flush with the left edge, centred
      vertically. */
  function LeftHotspot(sp: SpriteProperties, hs: HotspotSettings): (r: Rect)
    ensures r.w == hs.sideHotspotWidth && r.h == hs.sideHotspotHeight && r.x == 0
    ensures r.y <= sp.frameHeight - (r.y + r.h) <= r.y + 1
  {
    var h := hs.sideHotspotHeight;
    Rect(0, FloorDiv(sp.frameHeight - h, 2), hs.sideHotspotWidth, h)
  }

  /** compute_right_hotspot_geometry: flush with the right edge, centred
      vertically. */
  function RightHotspot(sp: SpriteProperties, hs: HotspotSettings): (r: Rect)
    ensures r.w == hs.sideHotspotWidth && r.h == hs.sideHotspotHeight
    ensures r.x + r.w == sp.frameWidth
  {
    var w, h := hs.sideHotspotWidth, hs.sideHotspotHeight;
    Rect(sp.frameWidth - w, FloorDiv(sp.frameHeight - h, 2), w, h)
  }

  /** The side hotspots are mirror images of each other. */
  lemma SideHotspotsMirror(sp: SpriteProperties, hs: HotspotSettings)
    ensures var l, r := LeftHotspot(sp, hs), RightHotspot(sp, hs);
      r.y == l.y && r.w == l.w && r.h == l.h && r.x == sp.frameWidth - l.x - l.w
  {
  }

  predicate Inside(r: Rect, width: int, height: int)
  {
    0 <= r.x && r.x + r.w <= width && 0 <= r.y && r.y + r.h <= height
  }

  /** Hotspots no larger than the frame lie inside it. */
  lemma HotspotsInsideFrame(sp: SpriteProperties, hs: HotspotSettings)
    requires 0 <= hs.topHotspotWidth <= sp.frameWidth && 0 <= hs.topHotspotHeight <= sp.frameHeight
    requires 0 <= hs.sideHotspotWidth <= sp.frameWidth && 0 <= hs.sideHotspotHeight <= sp.frameHeight
    ensures Inside(TopHotspot(sp, hs), sp.frameWidth, sp.frameHeight)
    ensures Inside(LeftHotspot(sp, hs), sp.frameWidth, sp.frameHeight)
    ensures Inside(RightHotspot(sp, hs), sp.frameWidth, sp.frameHeight)
  {
  }
}
