/**
 * The decisions of the project map (frontend/src/components/MapboxMap.tsx):
 * the bounding box of the projects, whether the camera fits that box or flies
 * to a single point, which projects the current view shows, the highlighted
 * project, and the marker colour given by the sell-through rate.  The map
 * widget itself, its timers and camera animations are not modelled; the view
 * bounds are a parameter.
 */
module MapboxMap {
  import opened Wrappers
  import opened Numeric
  import opened Collections

  /** The fields of a project the map reads. */
  datatype MapProject = MapProject(
    id: string,
    longitude: real,
    latitude: real,
    soldUnits: Option<real>,
    totalUnits: Option<real>)

  datatype Bounds = Bounds(minLng: real, maxLng: real, minLat: real, maxLat: real)

  // ---------------------------------------------------------------------------
  // Bounds of the projects
  // ---------------------------------------------------------------------------

  function Min(a: real, b: real): real {
    if a <= b then a else b
  }

  function Max(a: real, b: real): real {
    if a >= b then a else b
  }

  /** One step of the `reduce`. */
  function Widen(acc: Bounds, p: MapProject): Bounds {
    Bounds(Min(acc.minLng, p.longitude), Max(acc.maxLng, p.longitude),
           Min(acc.minLat, p.latitude), Max(acc.maxLat, p.latitude))
  }

  /** `projects.reduce(widen, init)`. */
  function Reduce(init: Bounds, ps: seq<MapProject>): Bounds {
    if ps == [] then init else Widen(Reduce(init, ps[..|ps| - 1]), ps[|ps| - 1])
  }

  /** The reduction, started at the first project's point. */
  function ProjectBounds(ps: seq<MapProject>): Bounds
    requires ps != []
  {
    Reduce(Bounds(ps[0].longitude, ps[0].longitude, ps[0].latitude, ps[0].latitude), ps)
  }

  /** The point lies in the box, edges included. */
  predicate Inside(b: Bounds, lng: real, lat: real) {
    b.minLng <= lng <= b.maxLng && b.minLat <= lat <= b.maxLat
  }

  /** Every project lies in the reduced box, and the box only grows from `init`. */
  lemma {:induction false} ReduceCovers(init: Bounds, ps: seq<MapProject>)
    ensures var b := Reduce(init, ps);
      b.minLng <= init.minLng && init.maxLng <= b.maxLng && b.minLat <= init.minLat && init.maxLat <= b.maxLat &&
      forall i :: 0 <= i < |ps| ==> Inside(b, ps[i].longitude, ps[i].latitude)
  {
    if ps != [] {
      var init' := ps[..|ps| - 1];
      ReduceCovers(init, init');
      assert forall i :: 0 <= i < |init'| ==> init'[i] == ps[i];
    }
  }

  /** Each edge of the reduced box is the initial edge or some project's coordinate. */
  lemma {:induction false} ReduceTight(init: Bounds, ps: seq<MapProject>)
    ensures var b := Reduce(init, ps);
      (b.minLng == init.minLng || exists i :: 0 <= i < |ps| && b.minLng == ps[i].longitude) &&
      (b.maxLng == init.maxLng || exists i :: 0 <= i < |ps| && b.maxLng == ps[i].longitude) &&
      (b.minLat == init.minLat || exists i :: 0 <= i < |ps| && b.minLat == ps[i].latitude) &&
      (b.maxLat == init.maxLat || exists i :: 0 <= i < |ps| && b.maxLat == ps[i].latitude)
  {
    if ps != [] {
      var init' := ps[..|ps| - 1];
      ReduceTight(init, init');
      assert forall i :: 0 <= i < |init'| ==> init'[i] == ps[i];
    }
  }

  /** The reduced box is the smallest box holding every project: each edge is some project's coordinate. */
  lemma ProjectBoundsTight(ps: seq<MapProject>)
    requires ps != []
    ensures var b := ProjectBounds(ps);
      (forall i :: 0 <= i < |ps| ==> Inside(b, ps[i].longitude, ps[i].latitude)) &&
      (exists i :: 0 <= i < |ps| && b.minLng == ps[i].longitude) &&
      (exists i :: 0 <= i < |ps| && b.maxLng == ps[i].longitude) &&
      (exists i :: 0 <= i < |ps| && b.minLat == ps[i].latitude) &&
      (exists i :: 0 <= i < |ps| && b.maxLat == ps[i].latitude)
  {
    var init := Bounds(ps[0].longitude, ps[0].longitude, ps[0].latitude, ps[0].latitude);
    ReduceCovers(init, ps);
    ReduceTight(init, ps);
  }

  // ---------------------------------------------------------------------------
  // Camera
  // ---------------------------------------------------------------------------

  /** `fitBounds([sw, ne], {padding: 80})`, or `flyTo({center, zoom: 12})`. */
  datatype Camera = FitBounds(box: Bounds) | FlyTo(lng: real, lat: real, zoom: nat)

  /** What the load effect does once the map is loaded. */
  datatype LoadEffect = MoveCamera(camera: Camera) | EmitNoIds | NoEffect

  /** The single-point case flies; any spread on either axis fits the box. */
  function CameraFor(b: Bounds): Camera {
    if b.minLng != b.maxLng || b.minLat != b.maxLat then FitBounds(b) else FlyTo(b.minLng, b.minLat, 12)
  }

  /** The load effect: with projects, move the camera; without, report no visible ids if anyone listens. */
  function OnLoad(ps: seq<MapProject>, listening: bool): LoadEffect {
    if |ps| > 0 then MoveCamera(CameraFor(ProjectBounds(ps)))
    else if listening then EmitNoIds
    else NoEffect
  }

  /** The camera flies exactly when every project stands on the first one's point, and then flies there. */
  lemma FlyIffSinglePoint(ps: seq<MapProject>)
    requires ps != []
    ensures OnLoad(ps, true).MoveCamera? && OnLoad(ps, false).MoveCamera?
    ensures OnLoad(ps, true).camera.FlyTo? <==>
      forall i :: 0 <= i < |ps| ==> ps[i].longitude == ps[0].longitude && ps[i].latitude == ps[0].latitude
    ensures OnLoad(ps, true).camera.FlyTo? ==> OnLoad(ps, true).camera == FlyTo(ps[0].longitude, ps[0].latitude, 12)
    ensures OnLoad(ps, true).camera.FitBounds? ==> OnLoad(ps, true).camera.box == ProjectBounds(ps)
  {
    ProjectBoundsTight(ps);
  }

  /** Without projects the listener hears `[]`, and no camera move happens. */
  lemma NoProjectsNoIds(listening: bool)
    ensures OnLoad([], listening) == if listening then EmitNoIds else NoEffect
  {
  }

  // ---------------------------------------------------------------------------
  // Visible projects
  // ---------------------------------------------------------------------------

  function Id(p: MapProject): string {
    p.id
  }

  /** `projects.filter(p => bounds.contains([lng, lat])).map(p => p.id)`. */
  function VisibleIds(ps: seq<MapProject>, view: Bounds): seq<string> {
    MapSeq(Filter(ps, (p: MapProject) => Inside(view, p.longitude, p.latitude)), Id)
  }

  /** Once the view holds the box of all projects (after `fitBounds`), every project is visible, in order. */
  lemma AllVisibleAfterFit(ps: seq<MapProject>, view: Bounds)
    requires ps != []
    requires var b := ProjectBounds(ps);
      view.minLng <= b.minLng && b.maxLng <= view.maxLng && view.minLat <= b.minLat && b.maxLat <= view.maxLat
    ensures VisibleIds(ps, view) == MapSeq(ps, Id)
  {
    ProjectBoundsTight(ps);
    FilterAll(ps, (p: MapProject) => Inside(view, p.longitude, p.latitude));
  }

  /** A visible id belongs to a project inside the view, and every project inside the view is listed. */
  lemma VisibleIdsExact(ps: seq<MapProject>, view: Bounds)
    ensures forall i :: 0 <= i < |ps| && Inside(view, ps[i].longitude, ps[i].latitude) ==> ps[i].id in VisibleIds(ps, view)
    ensures forall k :: 0 <= k < |VisibleIds(ps, view)| ==>
      exists i :: 0 <= i < |ps| && ps[i].id == VisibleIds(ps, view)[k] && Inside(view, ps[i].longitude, ps[i].latitude)
  {
    var inView := (p: MapProject) => Inside(view, p.longitude, p.latitude);
    var kept := Filter(ps, inView);
    FilterIn(ps, inView);
    forall i | 0 <= i < |ps| && Inside(view, ps[i].longitude, ps[i].latitude)
      ensures ps[i].id in VisibleIds(ps, view)
    {
      assert ps[i] in kept;
      var k :| 0 <= k < |kept| && kept[k] == ps[i];
      assert VisibleIds(ps, view)[k] == ps[i].id;
    }
    forall k | 0 <= k < |VisibleIds(ps, view)|
      ensures exists i :: 0 <= i < |ps| && ps[i].id == VisibleIds(ps, view)[k] && Inside(view, ps[i].longitude, ps[i].latitude)
    {
      assert kept[k] in kept;
      var i :| 0 <= i < |ps| && ps[i] == kept[k];
    }
  }

  // ---------------------------------------------------------------------------
  // Highlight
  // ---------------------------------------------------------------------------

  /** `projects.find(p => p.id === highlightedProjectId)`. */
  function Find(ps: seq<MapProject>, id: string): (r: Option<nat>)
    ensures r.Some? ==> r.value < |ps| && ps[r.value].id == id
    ensures r.Some? ==> forall j :: 0 <= j < r.value ==> ps[j].id != id
    ensures r.None? ==> forall j :: 0 <= j < |ps| ==> ps[j].id != id
  {
    if ps == [] then None
    else if ps[0].id == id then Some(0)
    else match Find(ps[1..], id)
      case Some(k) => Some(k + 1)
      case None => None
  }

  /** The highlight flies to the first project with the id, at zoom 15. */
  function HighlightCamera(ps: seq<MapProject>, highlighted: Option<string>): Option<Camera> {
    if highlighted.None? || highlighted.value == "" || ps == [] then None
    else match Find(ps, highlighted.value)
      case Some(k) => Some(FlyTo(ps[k].longitude, ps[k].latitude, 15))
      case None => None
  }

  /** A highlight moves the camera exactly when some project has the id, and to the first such project. */
  lemma HighlightTarget(ps: seq<MapProject>, id: string)
    requires id != ""
    ensures HighlightCamera(ps, Some(id)).Some? <==> exists j :: 0 <= j < |ps| && ps[j].id == id
    ensures HighlightCamera(ps, Some(id)).Some? ==>
      exists k :: 0 <= k < |ps| && ps[k].id == id && (forall j :: 0 <= j < k ==> ps[j].id != id) &&
        HighlightCamera(ps, Some(id)) == Some(FlyTo(ps[k].longitude, ps[k].latitude, 15))
  {
  }

  // ---------------------------------------------------------------------------
  // Sell-through and markers
  // ---------------------------------------------------------------------------

  /** `getSellThroughRate`: 0 unless both figures are truthy, else the rounded percentage. */
  function SellThroughRate(sold: Option<real>, total: Option<real>): int {
    if !Truthy(sold) || !Truthy(total) then 0 else JsRound(sold.value / total.value * 100.0)
  }

  /** A rate is a whole percentage between 0 and 100 whenever 0 <= sold <= total. */
  lemma SellThroughBounds(sold: real, total: real)
    requires 0.0 <= sold <= total && total > 0.0
    ensures 0 <= SellThroughRate(Some(sold), Some(total)) <= 100
  {
    if sold != 0.0 {
      assert sold / total <= 1.0;
    }
  }

  /** The four marker colours, darkest first. */
  datatype Tone = Tone(color: string)

  const Darkest: Tone := Tone("#0F766E")
  const Dark: Tone := Tone("#14867F")
  const Light: Tone := Tone("#2C9A93")
  const Lightest: Tone := Tone("#5AAFA7")

  /** `getMarkerTone`. */
  function MarkerTone(p: MapProject): Tone {
    ToneOf(SellThroughRate(p.soldUnits, p.totalUnits))
  }

  function ToneOf(rate: int): Tone {
    if rate >= 80 then Darkest else if rate >= 50 then Dark else if rate >= 20 then Light else Lightest
  }

  /** Position of a tone from lightest (0) to darkest (3). */
  function Shade(t: Tone): nat {
    if t == Darkest then 3 else if t == Dark then 2 else if t == Light then 1 else 0
  }

  /** A higher rate never gets a lighter marker, and each tone is the band its thresholds name. */
  lemma ToneMonotone(a: int, b: int)
    requires a <= b
    ensures Shade(ToneOf(a)) <= Shade(ToneOf(b))
    ensures Shade(ToneOf(a)) == (if a >= 80 then 3 else if a >= 50 then 2 else if a >= 20 then 1 else 0)
  {
  }

  /** A project without sales or units is drawn in the lightest tone. */
  lemma NoFiguresLightest(p: MapProject)
    requires !Truthy(p.soldUnits) || !Truthy(p.totalUnits)
    ensures MarkerTone(p) == Lightest
  {
  }
}
