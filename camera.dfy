/**
 * The orbit camera of the 3D preview frame: yaw, pitch and zoom driven by
 * mouse drags, the wheel and the `w`/`r` keys. Degrees and distances are
 * exact reals; each handler's redraw request is not modelled.
 */
module ViewCamera {
  import opened Wrappers
  import opened PyText

  const DefaultYaw: real := 30.0
  const DefaultPitch: real := -15.0
  const DefaultZoom: real := 2.5
  const MinZoom: real := 0.5
  const MaxZoom: real := 10.0
  const MaxPitch: real := 89.9

  /** `max(lo, min(hi, x))`. */
  function Clamp(lo: real, hi: real, x: real): (r: real)
    requires lo <= hi
    ensures lo <= r <= hi
    ensures lo <= x <= hi ==> r == x
    ensures x < lo ==> r == lo
    ensures x > hi ==> r == hi
  {
    var m := if hi < x then hi else x;
    if lo < m then m else lo
  }

  /** Clamping twice is clamping once. */
  lemma ClampIdempotent(lo: real, hi: real, x: real)
    requires lo <= hi
    ensures Clamp(lo, hi, Clamp(lo, hi, x)) == Clamp(lo, hi, x)
  {
  }

  class OrbitCamera {
    var yaw: real
    var pitch: real
    var zoom: real
    var wireframe: bool
    /** `_drag_last`: the pointer position of the last drag event. */
    var dragLast: Option<(int, int)>

    /** Zoom and pitch stay inside the clamps. */
    predicate Valid()
      reads this
    {
      MinZoom <= zoom <= MaxZoom && -MaxPitch <= pitch <= MaxPitch
    }

    /** The camera fields as the frame's constructor sets them. */
    constructor ()
      ensures Valid()
      ensures yaw == DefaultYaw && pitch == DefaultPitch && zoom == DefaultZoom
      ensures !wireframe && dragLast == None
    {
      yaw, pitch, zoom := DefaultYaw, DefaultPitch, DefaultZoom;
      wireframe := false;
      dragLast := None;
    }

    /** `_on_drag_start`. */
    method DragStart(x: int, y: int)
      requires Valid()
      modifies this
      ensures Valid()
      ensures dragLast == Some((x, y))
      ensures yaw == old(yaw) && pitch == old(pitch) && zoom == old(zoom) && wireframe == old(wireframe)
    {
      dragLast := Some((x, y));
    }

    /** `_on_drag_move`: half a degree per pixel, pitch clamped to
        [-89.9, 89.9]; nothing happens before a drag has started. */
    method DragMove(x: int, y: int)
      requires Valid()
      modifies this
      ensures Valid()
      ensures old(dragLast) == None ==> yaw == old(yaw) && pitch == old(pitch) && dragLast == None
      ensures old(dragLast).Some? ==>
        var (lx, ly) := old(dragLast).value;
        yaw == old(yaw) + (x - lx) as real * 0.5
        && pitch == Clamp(-MaxPitch, MaxPitch, old(pitch) + (y - ly) as real * 0.5)
        && dragLast == Some((x, y))
      ensures zoom == old(zoom) && wireframe == old(wireframe)
    {
      if dragLast.None? {
        return;
      }
      var (lx, ly) := dragLast.value;
      var dx := x - lx;
      var dy := y - ly;
      dragLast := Some((x, y));
      yaw := yaw + dx as real * 0.5;
      pitch := pitch + dy as real * 0.5;
      pitch := Clamp(-MaxPitch, MaxPitch, pitch);
    }

    /** `_zoom_dir`: a positive direction moves the camera in by 10%,
        any other moves it out by 10%, within [0.5, 10]. */
    method ZoomDir(direction: int)
      requires Valid()
      modifies this
      ensures Valid()
      ensures zoom == Clamp(MinZoom, MaxZoom, old(zoom) * (if direction > 0 then 0.9 else 1.1))
      ensures direction > 0 ==> zoom <= old(zoom)
      ensures direction <= 0 ==> zoom >= old(zoom)
      ensures yaw == old(yaw) && pitch == old(pitch) && wireframe == old(wireframe) && dragLast == old(dragLast)
    {
      var factor := if direction > 0 then 0.9 else 1.1;
      zoom := Clamp(MinZoom, MaxZoom, zoom * factor);
    }

    /** `_on_wheel`: a positive wheel delta zooms in, any other zooms out. */
    method Wheel(delta: int)
      requires Valid()
      modifies this
      ensures Valid()
      ensures zoom == Clamp(MinZoom, MaxZoom, old(zoom) * (if delta > 0 then 0.9 else 1.1))
      ensures yaw == old(yaw) && pitch == old(pitch) && wireframe == old(wireframe) && dragLast == old(dragLast)
    {
      var direction := if delta > 0 then 1 else -1;
      ZoomDir(direction);
    }

    /** `_on_key`: `w` (either case) toggles wireframe, `r` resets the view. */
    method OnKey(ch: string)
      requires Valid()
      modifies this
      ensures Valid()
      ensures Lower(ch) == "w" ==> wireframe == !old(wireframe) && yaw == old(yaw) && pitch == old(pitch) && zoom == old(zoom)
      ensures Lower(ch) == "r" ==> wireframe == old(wireframe) && yaw == DefaultYaw && pitch == DefaultPitch && zoom == DefaultZoom
      ensures Lower(ch) != "w" && Lower(ch) != "r" ==> wireframe == old(wireframe) && yaw == old(yaw) && pitch == old(pitch) && zoom == old(zoom)
      ensures dragLast == old(dragLast)
    {
      var k := Lower(ch);
      if k == "w" {
        wireframe := !wireframe;
      } else if k == "r" {
        yaw, pitch, zoom := DefaultYaw, DefaultPitch, DefaultZoom;
      }
    }
  }
}
