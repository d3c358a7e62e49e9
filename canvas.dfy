/** The dashboard canvas: the ordered list of placed components that the
    dashboard page keeps in its `components` state, how it is loaded from the
    backend, how it is turned into grid-layout descriptions, how live grid
    reports patch it, and how end-of-gesture saves, deletes and edits reach the
    backend. Backend calls are outcome parameters; the requests the page would
    send are returned so that contracts can speak about them. */
module Canvas {
  import opened Common

  datatype Kind = Chart | Table | Kpi

  /** Grid placement in grid units. */
  datatype Placement = Placement(x: int, y: int, w: int, h: int)

  /** A component's content, owned by the editor modals and never inspected here. */
  datatype Payload = Payload(json: string)

  /** The `{}` sent when a component has no content yet. */
  const EmptyConfig := Payload("{}")

  /** `ComponentItem`: `id` keys the grid, `backendId` is present once the backend knows it. */
  datatype Item = Item(
    id: string,
    kind: Kind,
    title: string,
    data: Option<Payload>,
    layout: Option<Placement>,
    backendId: Option<string>)

  /** `if (component.backendId)`: JavaScript truthiness, so an absent and an empty id both
      count as unknown to the backend. */
  predicate Known(backendId: Option<string>) {
    backendId.Some? && backendId.value != ""
  }

  /** A component record as the backend lists it; absent numeric columns are `None`. */
  datatype BackendComponent = BackendComponent(
    id: string,
    kind: Kind,
    name: string,
    config: Option<Payload>,
    positionX: Option<int>,
    positionY: Option<int>,
    width: Option<int>,
    height: Option<int>)

  /** One item of the grid library's packing output: `(i, x, y, w, h)`. */
  datatype GridItem = GridItem(i: string, x: int, y: int, w: int, h: int)

  /** One entry of the declarative layout handed to the grid library. */
  datatype GridEntry = GridEntry(i: string, x: int, y: int, w: int, h: int, minW: int, minH: int, maxH: int)

  /** The per-breakpoint layouts object. */
  datatype Layouts = Layouts(lg: seq<GridEntry>, md: seq<GridEntry>, sm: seq<GridEntry>, xs: seq<GridEntry>)

  /** The backend requests the page issues. */
  datatype Request =
    | UpdatePosition(componentId: string, x: int, y: int, w: int, h: int)
    | UpdateContent(componentId: string, name: string, config: Option<Payload>)
    | CreateComponent(dashboardId: Option<string>, name: string, kind: Kind, config: Option<Payload>,
                      x: int, y: int, w: int, h: int)
    | DeleteComponent(componentId: string)

  /** How a backend call settles: resolved (with the record id it returns) or rejected. */
  datatype CallOutcome = Resolved(id: string) | Rejected

  /** The content a modal hands to `handleSaveComponent`. */
  datatype Content = Content(kind: Kind, title: string, data: Option<Payload>)

  /** JavaScript's `n || d` on an optional number: absent or zero falls back to `d`. */
  function OrDefault(n: Option<int>, d: int): int {
    if n.Some? && n.value != 0 then n.value else d
  }

  function DefaultWidth(kind: Kind): int { if kind == Kpi then 3 else 6 }
  function DefaultHeight(kind: Kind): int { if kind == Kpi then 2 else 4 }

  // ---------------------------------------------------------------------------
  // Loading

  function FromBackend(comp: BackendComponent): Item {
    Item(comp.id, comp.kind, comp.name, comp.config,
         Some(Placement(OrDefault(comp.positionX, 0), OrDefault(comp.positionY, 0),
                        OrDefault(comp.width, DefaultWidth(comp.kind)),
                        OrDefault(comp.height, DefaultHeight(comp.kind)))),
         Some(comp.id))
  }

  /** The mapping of backend records onto canvas items performed on load. */
  function LoadItems(comps: seq<BackendComponent>): (items: seq<Item>)
    ensures |items| == |comps|
    ensures forall k :: 0 <= k < |comps| ==>
      && items[k].id == comps[k].id
      && items[k].backendId == Some(comps[k].id)
      && items[k].kind == comps[k].kind
      && items[k].title == comps[k].name
      && items[k].data == comps[k].config
      && items[k].layout.Some?
    ensures forall k :: 0 <= k < |comps| ==>
      var p := items[k].layout.value;
      && p.w != 0 && p.h != 0
      && (comps[k].width.None? || comps[k].width == Some(0) ==> p.w == (if comps[k].kind == Kpi then 3 else 6))
      && (comps[k].height.None? || comps[k].height == Some(0) ==> p.h == (if comps[k].kind == Kpi then 2 else 4))
      && (comps[k].width.Some? && comps[k].width.value != 0 ==> p.w == comps[k].width.value)
      && (comps[k].height.Some? && comps[k].height.value != 0 ==> p.h == comps[k].height.value)
      && (comps[k].positionX.None? ==> p.x == 0) && (comps[k].positionY.None? ==> p.y == 0)
      && (comps[k].positionX.Some? ==> p.x == comps[k].positionX.value)
      && (comps[k].positionY.Some? ==> p.y == comps[k].positionY.value)
  {
    seq(|comps|, k requires 0 <= k < |comps| => FromBackend(comps[k]))
  }

  // ---------------------------------------------------------------------------
  // Layout generation

  function MinSize(kind: Kind): int { if kind == Kpi then 2 else 3 }
  function MaxHeight(kind: Kind): int { if kind == Kpi then 4 else 8 }

  function EntryFor(c: Item): GridEntry {
    var x := if c.layout.Some? then c.layout.value.x else 0;
    var y := if c.layout.Some? then c.layout.value.y else 0;
    var w := if c.layout.Some? && c.layout.value.w != 0 then c.layout.value.w else 4;
    var h := if c.layout.Some? && c.layout.value.h != 0 then c.layout.value.h else 3;
    GridEntry(c.id, x, y, w, h, MinSize(c.kind), MinSize(c.kind), MaxHeight(c.kind))
  }

  /** `generateLayouts`: one entry per component, in order, the same list for every breakpoint. */
  function GenerateLayouts(components: seq<Item>): (r: Layouts)
    ensures r.md == r.lg && r.sm == r.lg && r.xs == r.lg
    ensures |r.lg| == |components|
    ensures forall k :: 0 <= k < |components| ==> r.lg[k].i == components[k].id
    ensures forall k :: 0 <= k < |components| && components[k].kind == Kpi ==>
      r.lg[k].minW == 2 && r.lg[k].minH == 2 && r.lg[k].maxH == 4
    ensures forall k :: 0 <= k < |components| && components[k].kind != Kpi ==>
      r.lg[k].minW == 3 && r.lg[k].minH == 3 && r.lg[k].maxH == 8
    ensures forall k :: 0 <= k < |components| && components[k].layout.None? ==>
      r.lg[k].x == 0 && r.lg[k].y == 0 && r.lg[k].w == 4 && r.lg[k].h == 3
    ensures forall k :: 0 <= k < |components| && components[k].layout.Some? ==>
      var p := components[k].layout.value;
      r.lg[k].x == p.x && r.lg[k].y == p.y
      && r.lg[k].w == (if p.w == 0 then 4 else p.w) && r.lg[k].h == (if p.h == 0 then 3 else p.h)
  {
    var layout := seq(|components|, k requires 0 <= k < |components| => EntryFor(components[k]));
    Layouts(layout, layout, layout, layout)
  }

  // ---------------------------------------------------------------------------
  // Lookup by id (`Array.prototype.find` / `findIndex` over the first match)

  function IndexOfEntry(report: seq<GridItem>, id: string): (r: Option<nat>)
    ensures r.Some? ==> r.value < |report| && report[r.value].i == id
    ensures r.Some? ==> forall j :: 0 <= j < r.value ==> report[j].i != id
    ensures r.None? <==> forall j :: 0 <= j < |report| ==> report[j].i != id
  {
    if report == [] then None
    else if report[0].i == id then Some(0)
    else match IndexOfEntry(report[1..], id)
      case None => None
      case Some(k) => Some(k + 1)
  }

  function IndexOfItem(items: seq<Item>, id: string): (r: Option<nat>)
    ensures r.Some? ==> r.value < |items| && items[r.value].id == id
    ensures r.Some? ==> forall j :: 0 <= j < r.value ==> items[j].id != id
    ensures r.None? <==> forall j :: 0 <= j < |items| ==> items[j].id != id
  {
    if items == [] then None
    else if items[0].id == id then Some(0)
    else match IndexOfItem(items[1..], id)
      case None => None
      case Some(k) => Some(k + 1)
  }

  /** The index of an item depends only on the ids, so it survives any change of the other fields. */
  lemma {:induction false} IndexOfItemSameIds(a: seq<Item>, b: seq<Item>, id: string)
    requires |a| == |b| && forall k :: 0 <= k < |a| ==> a[k].id == b[k].id
    ensures IndexOfItem(a, id) == IndexOfItem(b, id)
  {
    if a != [] && a[0].id != id {
      IndexOfItemSameIds(a[1..], b[1..], id);
    }
  }

  // ---------------------------------------------------------------------------
  // Live layout changes

  function Patched(c: Item, report: seq<GridItem>): Item {
    match IndexOfEntry(report, c.id)
    case None => c
    case Some(j) => c.(layout := Some(Placement(report[j].x, report[j].y, report[j].w, report[j].h)))
  }

  /** `handleLayoutChange`: the first reported entry with a component's id replaces its layout. */
  function ApplyLayoutChange(items: seq<Item>, report: seq<GridItem>): (r: seq<Item>)
    ensures |r| == |items|
    ensures forall k :: 0 <= k < |items| ==> r[k] == items[k].(layout := r[k].layout)
    ensures forall k :: 0 <= k < |items| && (forall j :: 0 <= j < |report| ==> report[j].i != items[k].id) ==>
      r[k] == items[k]
    ensures forall k, j :: 0 <= k < |items| && 0 <= j < |report| && report[j].i == items[k].id
                           && (forall j' :: 0 <= j' < j ==> report[j'].i != items[k].id) ==>
      r[k].layout == Some(Placement(report[j].x, report[j].y, report[j].w, report[j].h))
  {
    seq(|items|, k requires 0 <= k < |items| => Patched(items[k], report))
  }

  /** Re-applying the same grid report changes nothing more. */
  lemma LayoutChangeIdempotent(items: seq<Item>, report: seq<GridItem>)
    ensures ApplyLayoutChange(ApplyLayoutChange(items, report), report) == ApplyLayoutChange(items, report)
  {
  }

  // ---------------------------------------------------------------------------
  // End-of-gesture save

  /** The request (if any) the save issues for one layout entry, decided against the snapshot. */
  function PlanEntry(snapshot: seq<Item>, dashboardId: Option<string>, e: GridItem): (r: seq<Request>)
    ensures |r| == if IndexOfItem(snapshot, e.i).Some? then 1 else 0
  {
    match IndexOfItem(snapshot, e.i)
    case None => []
    case Some(k) =>
      var c := snapshot[k];
      if Known(c.backendId) then [UpdatePosition(c.backendId.value, e.x, e.y, e.w, e.h)]
      else [CreateComponent(dashboardId, c.title, c.kind, Some(c.data.GetOr(EmptyConfig)), e.x, e.y, e.w, e.h)]
  }

  function PlannedCalls(snapshot: seq<Item>, dashboardId: Option<string>, report: seq<GridItem>): (r: seq<Request>)
    ensures |r| <= |report|
    ensures (forall j :: 0 <= j < |report| ==> IndexOfItem(snapshot, report[j].i).Some?) ==> |r| == |report|
  {
    if report == [] then [] else PlanEntry(snapshot, dashboardId, report[0]) + PlannedCalls(snapshot, dashboardId, report[1..])
  }

  /** `setComponents(prev => prev.map(c => c.id === id ? {...c, backendId} : c))`. */
  function AssignBackendId(items: seq<Item>, id: string, backendId: string): (r: seq<Item>)
    ensures |r| == |items|
    ensures forall k :: 0 <= k < |items| ==>
      r[k] == if items[k].id == id then items[k].(backendId := Some(backendId)) else items[k]
  {
    seq(|items|, k requires 0 <= k < |items| =>
      if items[k].id == id then items[k].(backendId := Some(backendId)) else items[k])
  }

  /** Whether the entry's component (in the snapshot) is one the save creates. */
  predicate IsCreateEntry(snapshot: seq<Item>, e: GridItem) {
    var k := IndexOfItem(snapshot, e.i);
    k.Some? && !Known(snapshot[k.value].backendId)
  }

  predicate IsUpdateEntry(snapshot: seq<Item>, e: GridItem) {
    var k := IndexOfItem(snapshot, e.i);
    k.Some? && Known(snapshot[k.value].backendId)
  }

  /** The local effect of one entry's settled call: only a resolved create records an id. */
  function EntryEffect(current: seq<Item>, snapshot: seq<Item>, e: GridItem, outcome: CallOutcome): (r: seq<Item>)
    ensures outcome.Rejected? || !IsCreateEntry(snapshot, e) ==> r == current
  {
    if IsCreateEntry(snapshot, e) && outcome.Resolved? then AssignBackendId(current, e.i, outcome.id) else current
  }

  function AfterSave(current: seq<Item>, snapshot: seq<Item>, report: seq<GridItem>, outcomes: seq<CallOutcome>): (r: seq<Item>)
    requires |outcomes| == |report|
    ensures (forall j :: 0 <= j < |outcomes| ==> outcomes[j].Rejected?) ==> r == current
    decreases |report|
  {
    if report == [] then current
    else AfterSave(EntryEffect(current, snapshot, report[0], outcomes[0]), snapshot, report[1..], outcomes[1..])
  }

  /** Whether some position update of the batch rejects, which turns the toast into an error. */
  predicate UpdateRejected(snapshot: seq<Item>, report: seq<GridItem>, outcomes: seq<CallOutcome>)
    requires |outcomes| == |report|
    ensures (forall j :: 0 <= j < |outcomes| ==> outcomes[j].Resolved?) ==> !UpdateRejected(snapshot, report, outcomes)
    decreases |report|
  {
    report != []
    && ((IsUpdateEntry(snapshot, report[0]) && outcomes[0].Rejected?)
        || UpdateRejected(snapshot, report[1..], outcomes[1..]))
  }

  /** The error toast appears exactly when some entry of the batch is a position update whose
      call rejected. */
  lemma {:induction false} UpdateRejectedWitness(snapshot: seq<Item>, report: seq<GridItem>, outcomes: seq<CallOutcome>)
    requires |outcomes| == |report|
    ensures UpdateRejected(snapshot, report, outcomes)
            <==> exists j :: 0 <= j < |report| && IsUpdateEntry(snapshot, report[j]) && outcomes[j].Rejected?
    decreases |report|
  {
    if report != [] {
      UpdateRejectedWitness(snapshot, report[1..], outcomes[1..]);
      if UpdateRejected(snapshot, report[1..], outcomes[1..]) {
        var j :| 0 <= j < |report[1..]| && IsUpdateEntry(snapshot, report[1..][j]) && outcomes[1..][j].Rejected?;
        assert report[j + 1] == report[1..][j] && outcomes[j + 1] == outcomes[1..][j];
      }
      if exists j :: 0 <= j < |report| && IsUpdateEntry(snapshot, report[j]) && outcomes[j].Rejected? {
        var j :| 0 <= j < |report| && IsUpdateEntry(snapshot, report[j]) && outcomes[j].Rejected?;
        if j > 0 {
          assert report[1..][j - 1] == report[j] && outcomes[1..][j - 1] == outcomes[j];
        }
      }
    }
  }

  lemma ConcatAssoc<T>(a: seq<T>, b: seq<T>, c: seq<T>)
    ensures (a + b) + c == a + (b + c)
  {
  }

  /** The requests of a batch are the requests of its parts, in order. */
  lemma {:induction false} PlannedCallsAppend(snapshot: seq<Item>, d: Option<string>, a: seq<GridItem>, b: seq<GridItem>)
    ensures PlannedCalls(snapshot, d, a + b) == PlannedCalls(snapshot, d, a) + PlannedCalls(snapshot, d, b)
  {
    if a == [] {
      assert a + b == b;
    } else {
      assert (a + b)[1..] == a[1..] + b;
      PlannedCallsAppend(snapshot, d, a[1..], b);
    }
  }

  /** Each layout entry yields: nothing when no component has its id; one position update
      carrying its x, y, w, h when the first such component has a non-empty backend id; one create
      otherwise. */
  lemma PlanEntryCases(snapshot: seq<Item>, d: Option<string>, e: GridItem)
    ensures (forall k :: 0 <= k < |snapshot| ==> snapshot[k].id != e.i) ==> PlannedCalls(snapshot, d, [e]) == []
    ensures forall k :: 0 <= k < |snapshot| && snapshot[k].id == e.i
                        && (forall j :: 0 <= j < k ==> snapshot[j].id != e.i) ==>
      PlannedCalls(snapshot, d, [e]) ==
        if Known(snapshot[k].backendId) then [UpdatePosition(snapshot[k].backendId.value, e.x, e.y, e.w, e.h)]
        else [CreateComponent(d, snapshot[k].title, snapshot[k].kind, Some(snapshot[k].data.GetOr(EmptyConfig)),
                              e.x, e.y, e.w, e.h)]
  {
    assert [e][1..] == [];
    forall k | 0 <= k < |snapshot| && snapshot[k].id == e.i && (forall j :: 0 <= j < k ==> snapshot[j].id != e.i)
      ensures IndexOfItem(snapshot, e.i) == Some(k)
    {
      assert IndexOfItem(snapshot, e.i).Some?;
    }
  }

  /** Saving changes nothing but backend ids, and an id changes only to the id returned by a
      resolved create issued for an entry carrying that component's id. */
  lemma {:induction false} AfterSaveOnlyRecordsCreatedIds(current: seq<Item>, snapshot: seq<Item>,
                                                          report: seq<GridItem>, outcomes: seq<CallOutcome>)
    requires |outcomes| == |report|
    ensures var r := AfterSave(current, snapshot, report, outcomes);
      && |r| == |current|
      && (forall k :: 0 <= k < |current| ==> r[k] == current[k].(backendId := r[k].backendId))
      && (forall k :: 0 <= k < |current| && r[k].backendId != current[k].backendId ==>
            r[k].backendId.Some? &&
            exists j :: 0 <= j < |report| && report[j].i == current[k].id && IsCreateEntry(snapshot, report[j])
                        && outcomes[j] == Resolved(r[k].backendId.value))
    decreases |report|
  {
    if report != [] {
      var next := EntryEffect(current, snapshot, report[0], outcomes[0]);
      AfterSaveOnlyRecordsCreatedIds(next, snapshot, report[1..], outcomes[1..]);
      var r := AfterSave(current, snapshot, report, outcomes);
      assert r == AfterSave(next, snapshot, report[1..], outcomes[1..]);
      forall k | 0 <= k < |current| && r[k].backendId != current[k].backendId
        ensures r[k].backendId.Some?
        ensures exists j :: 0 <= j < |report| && report[j].i == current[k].id && IsCreateEntry(snapshot, report[j])
                            && outcomes[j] == Resolved(r[k].backendId.value)
      {
        if r[k].backendId != next[k].backendId {
          var j :| 0 <= j < |report[1..]| && report[1..][j].i == next[k].id && IsCreateEntry(snapshot, report[1..][j])
                   && outcomes[1..][j] == Resolved(r[k].backendId.value);
          assert report[j + 1] == report[1..][j];
        } else {
          assert next[k].backendId != current[k].backendId;
          assert report[0].i == current[k].id && IsCreateEntry(snapshot, report[0]);
        }
      }
    }
  }

  /** A component whose every entry's call rejected keeps its backend id through the save. */
  lemma AfterSaveKeepsUnresolved(current: seq<Item>, snapshot: seq<Item>,
                                 report: seq<GridItem>, outcomes: seq<CallOutcome>, k: nat)
    requires |outcomes| == |report| && k < |current|
    requires forall j :: 0 <= j < |report| && report[j].i == current[k].id ==> outcomes[j].Rejected?
    ensures k < |AfterSave(current, snapshot, report, outcomes)|
    ensures AfterSave(current, snapshot, report, outcomes)[k].backendId == current[k].backendId
  {
    AfterSaveOnlyRecordsCreatedIds(current, snapshot, report, outcomes);
  }

  /** The converse: a resolved create records its id on every component carrying the entry's
      id, unless a later resolved create for the same id records its own instead. */
  lemma {:induction false} AfterSaveRecordsResolvedCreate(current: seq<Item>, snapshot: seq<Item>,
                                                          report: seq<GridItem>, outcomes: seq<CallOutcome>,
                                                          j: nat, k: nat)
    requires |outcomes| == |report| && j < |report| && k < |current|
    requires report[j].i == current[k].id && IsCreateEntry(snapshot, report[j]) && outcomes[j].Resolved?
    requires forall j' :: j < j' < |report| && report[j'].i == current[k].id ==> outcomes[j'].Rejected?
    ensures k < |AfterSave(current, snapshot, report, outcomes)|
    ensures AfterSave(current, snapshot, report, outcomes)[k].backendId == Some(outcomes[j].id)
    decreases |report|
  {
    var next := EntryEffect(current, snapshot, report[0], outcomes[0]);
    assert AfterSave(current, snapshot, report, outcomes) == AfterSave(next, snapshot, report[1..], outcomes[1..]);
    assert |next| == |current| && next[k].id == current[k].id;
    if j == 0 {
      assert next[k].backendId == Some(outcomes[0].id);
      forall j' | 0 <= j' < |report[1..]| && report[1..][j'].i == next[k].id
        ensures outcomes[1..][j'].Rejected?
      {
        assert report[1..][j'] == report[j' + 1] && outcomes[1..][j'] == outcomes[j' + 1];
      }
      AfterSaveKeepsUnresolved(next, snapshot, report[1..], outcomes[1..], k);
    } else {
      forall j' | j - 1 < j' < |report[1..]| && report[1..][j'].i == next[k].id
        ensures outcomes[1..][j'].Rejected?
      {
        assert report[1..][j'] == report[j' + 1] && outcomes[1..][j'] == outcomes[j' + 1];
      }
      assert report[1..][j - 1] == report[j] && outcomes[1..][j - 1] == outcomes[j];
      AfterSaveRecordsResolvedCreate(next, snapshot, report[1..], outcomes[1..], j - 1, k);
    }
  }

  /** A resolved create records the returned id on that component only: afterwards the same
      entry plans a position update against that id, unless the id is empty, which is falsy and
      so plans the same create again. */
  lemma CreateThenUpdate(snapshot: seq<Item>, d: Option<string>, e: GridItem, id: string)
    requires IsCreateEntry(snapshot, e)
    ensures var after := AfterSave(snapshot, snapshot, [e], [Resolved(id)]);
      && |after| == |snapshot|
      && (forall k :: 0 <= k < |snapshot| ==>
            after[k] == if snapshot[k].id == e.i then snapshot[k].(backendId := Some(id)) else snapshot[k])
      && PlannedCalls(after, d, [e]) == if id != "" then [UpdatePosition(id, e.x, e.y, e.w, e.h)]
                                        else PlannedCalls(snapshot, d, [e])
  {
    var after := AfterSave(snapshot, snapshot, [e], [Resolved(id)]);
    assert [e][1..] == [] && [Resolved(id)][1..] == [];
    var withId := AssignBackendId(snapshot, e.i, id);
    assert EntryEffect(snapshot, snapshot, e, Resolved(id)) == withId;
    assert after == AfterSave(withId, snapshot, [], []) == withId;
    IndexOfItemSameIds(snapshot, after, e.i);
  }

  /** A component none of whose entries in a save got a resolved call is still unknown to the
      backend in the list that save leaves, so the next save plans the very same create. */
  lemma RejectedCreateRetried(s: seq<Item>, d: Option<string>, report: seq<GridItem>,
                              outcomes: seq<CallOutcome>, e: GridItem)
    requires |outcomes| == |report| && IsCreateEntry(s, e)
    requires forall j :: 0 <= j < |report| && report[j].i == e.i ==> outcomes[j].Rejected?
    ensures IsCreateEntry(AfterSave(s, s, report, outcomes), e)
    ensures PlannedCalls(AfterSave(s, s, report, outcomes), d, [e]) == PlannedCalls(s, d, [e])
  {
    var after := AfterSave(s, s, report, outcomes);
    AfterSaveOnlyRecordsCreatedIds(s, s, report, outcomes);
    IndexOfItemSameIds(s, after, e.i);
    var k := IndexOfItem(s, e.i).value;
    assert after[k].backendId == s[k].backendId;
    assert after[k] == s[k];
    assert [e][1..] == [];
  }

  // ---------------------------------------------------------------------------
  // Deleting and placing new components

  /** `prev.filter(c => c.id !== id)`. */
  function RemoveItem(items: seq<Item>, id: string): (r: seq<Item>)
    ensures forall k :: 0 <= k < |r| ==> r[k].id != id && r[k] in items
    ensures forall k :: 0 <= k < |items| && items[k].id != id ==> items[k] in r
    ensures (forall k :: 0 <= k < |items| ==> items[k].id != id) ==> r == items
  {
    Filter(items, (c: Item) => c.id != id)
  }

  /** Removal keeps the survivors in their original order. */
  lemma RemoveItemAppend(a: seq<Item>, b: seq<Item>, id: string)
    ensures RemoveItem(a + b, id) == RemoveItem(a, id) + RemoveItem(b, id)
  {
    FilterAppend(a, b, (c: Item) => c.id != id);
  }

  /** `(c.layout?.y || 0) + (c.layout?.h || 3)`. */
  function Bottom(c: Item): int {
    (if c.layout.Some? then c.layout.value.y else 0)
    + (if c.layout.Some? && c.layout.value.h != 0 then c.layout.value.h else 3)
  }

  /** `Math.max(0, ...components.map(Bottom))`. */
  function MaxBottom(items: seq<Item>): (m: int)
    ensures m >= 0
    ensures forall k :: 0 <= k < |items| ==> Bottom(items[k]) <= m
    ensures m == 0 || exists k :: 0 <= k < |items| && Bottom(items[k]) == m
  {
    if items == [] then 0
    else
      var rest := MaxBottom(items[1..]);
      var b := Bottom(items[0]);
      assert forall k :: 1 <= k < |items| ==> Bottom(items[k]) == Bottom(items[1..][k - 1]);
      if b > rest then b else rest
  }

  /** The placement given to a new component: left edge, below everything that exists. */
  function DefaultPlacement(kind: Kind, items: seq<Item>): (p: Placement)
    ensures p.x == 0 && p.y >= 0
    ensures forall k :: 0 <= k < |items| ==> Bottom(items[k]) <= p.y
    ensures p.y == 0 || exists k :: 0 <= k < |items| && Bottom(items[k]) == p.y
    ensures p.w == (if kind == Kpi then 3 else 6) && p.h == (if kind == Kpi then 2 else 4)
  {
    Placement(0, MaxBottom(items), DefaultWidth(kind), DefaultHeight(kind))
  }

  /** The edit path's list update: new content, same id, layout and backend id. */
  function ReplaceContent(items: seq<Item>, id: string, content: Content): (r: seq<Item>)
    ensures |r| == |items|
    ensures forall k :: 0 <= k < |items| && items[k].id != id ==> r[k] == items[k]
    ensures forall k :: 0 <= k < |items| && items[k].id == id ==>
      r[k] == Item(id, content.kind, content.title, content.data, items[k].layout, items[k].backendId)
  {
    seq(|items|, k requires 0 <= k < |items| =>
      if items[k].id == id then Item(id, content.kind, content.title, content.data, items[k].layout, items[k].backendId)
      else items[k])
  }

  /** The asynchronous callback run for one layout entry of a save: look the component up in the
      snapshot, issue its update or create, and on a resolved create record the returned id in
      the live list. A rejected create is swallowed; a rejected update is reported to the caller. */
  method SaveEntry(snapshot: seq<Item>, current: seq<Item>, dashboardId: Option<string>, e: GridItem, outcome: CallOutcome)
    returns (issued: seq<Request>, next: seq<Item>, updateRejected: bool)
    ensures issued == PlanEntry(snapshot, dashboardId, e)
    ensures next == EntryEffect(current, snapshot, e, outcome)
    ensures updateRejected <==> IsUpdateEntry(snapshot, e) && outcome.Rejected?
  {
    issued, next, updateRejected := [], current, false;
    var k := IndexOfItem(snapshot, e.i);
    if k.Some? {
      var c := snapshot[k.value];
      if Known(c.backendId) {
        issued := [UpdatePosition(c.backendId.value, e.x, e.y, e.w, e.h)];
        updateRejected := outcome.Rejected?;
      } else {
        issued := [CreateComponent(dashboardId, c.title, c.kind, Some(c.data.GetOr(EmptyConfig)), e.x, e.y, e.w, e.h)];
        if outcome.Resolved? {
          next := AssignBackendId(current, c.id, outcome.id);
        }
      }
    }
  }

  /** The callbacks of one save, run entry by entry against the list as it was when the save
      started: the requests issued, the live list after every recorded id, and whether some
      position update rejected. */
  method SaveAll(snapshot: seq<Item>, dashboardId: Option<string>, report: seq<GridItem>, outcomes: seq<CallOutcome>)
    returns (calls: seq<Request>, live: seq<Item>, rejected: bool)
    requires |outcomes| == |report|
    ensures calls == PlannedCalls(snapshot, dashboardId, report)
    ensures live == AfterSave(snapshot, snapshot, report, outcomes)
    ensures rejected <==> UpdateRejected(snapshot, report, outcomes)
  {
    live, calls, rejected := snapshot, [], false;
    var rest, pending := report, outcomes;
    while rest != []
      invariant |pending| == |rest|
      invariant calls + PlannedCalls(snapshot, dashboardId, rest) == PlannedCalls(snapshot, dashboardId, report)
      invariant AfterSave(live, snapshot, rest, pending) == AfterSave(snapshot, snapshot, report, outcomes)
      invariant (rejected || UpdateRejected(snapshot, rest, pending)) == UpdateRejected(snapshot, report, outcomes)
      decreases |rest|
    {
      ghost var callsBefore := calls;
      var issued, next, updateRejected := SaveEntry(snapshot, live, dashboardId, rest[0], pending[0]);
      ConcatAssoc(callsBefore, issued, PlannedCalls(snapshot, dashboardId, rest[1..]));
      calls := calls + issued;
      live := next;
      rejected := rejected || updateRejected;
      rest, pending := rest[1..], pending[1..];
    }
  }

  // ---------------------------------------------------------------------------
  // The page state

  class Canvas {
    var components: seq<Item>
    var loading: bool
    /** The dashboard being shown (`currentDashboardId`). */
    const dashboardId: Option<string>

    constructor (dashboardId: Option<string>)
      ensures this.dashboardId == dashboardId && components == [] && loading
    {
      this.dashboardId := dashboardId;
      components := [];
      loading := true;
    }

    /** `loadDashboard`: `fetched` is the component list the backend returned, or `None`
        when that request rejected (the list is then left as it was). */
    method Load(fetched: Option<seq<BackendComponent>>) returns (toast: Option<Toast>)
      modifies this
      ensures fetched.Some? ==> components == LoadItems(fetched.value) && toast.None?
      ensures fetched.None? ==> components == old(components)
                                && toast == Some(ErrorToast("Failed to load dashboard"))
      ensures !loading
    {
      loading := true;
      if fetched.Some? {
        components := LoadItems(fetched.value);
        toast := None;
      } else {
        toast := Some(ErrorToast("Failed to load dashboard"));
      }
      loading := false;
    }

    /** `generateLayouts` over the current state. */
    function Layout(): (r: Layouts)
      reads this
      ensures r.md == r.lg && r.sm == r.lg && r.xs == r.lg
      ensures |r.lg| == |components|
      ensures forall k :: 0 <= k < |components| ==> r.lg[k].i == components[k].id
      ensures forall k :: 0 <= k < |components| && components[k].kind == Kpi ==>
        r.lg[k].minW == 2 && r.lg[k].minH == 2 && r.lg[k].maxH == 4
      ensures forall k :: 0 <= k < |components| && components[k].kind != Kpi ==>
        r.lg[k].minW == 3 && r.lg[k].minH == 3 && r.lg[k].maxH == 8
      ensures forall k :: 0 <= k < |components| && components[k].layout.None? ==>
        r.lg[k].x == 0 && r.lg[k].y == 0 && r.lg[k].w == 4 && r.lg[k].h == 3
      ensures forall k :: 0 <= k < |components| && components[k].layout.Some? ==>
        var p := components[k].layout.value;
        r.lg[k].x == p.x && r.lg[k].y == p.y
        && r.lg[k].w == (if p.w == 0 then 4 else p.w) && r.lg[k].h == (if p.h == 0 then 3 else p.h)
    {
      GenerateLayouts(components)
    }

    /** `handleLayoutChange`. */
    method LayoutChange(report: seq<GridItem>)
      modifies this
      ensures components == ApplyLayoutChange(old(components), report)
      ensures loading == old(loading)
    {
      components := ApplyLayoutChange(components, report);
    }

    /** `handleLayoutSave` on drag or resize stop. Entries are processed in order (the model of
        `Promise.all`); `outcomes[j]` is how the call issued for entry `j` settles. Lookups use
        the list as it was when the save started; recorded ids are applied to the live list. */
    method LayoutSave(report: seq<GridItem>, outcomes: seq<CallOutcome>) returns (calls: seq<Request>, toast: Toast)
      requires |outcomes| == |report|
      modifies this
      ensures calls == PlannedCalls(old(components), dashboardId, report)
      ensures components == AfterSave(old(components), old(components), report, outcomes)
      ensures toast == if UpdateRejected(old(components), report, outcomes)
                       then ErrorToast("Failed to save layout changes")
                       else SuccessToast("Layout saved successfully")
      ensures loading == old(loading)
    {
      var live, rejected;
      calls, live, rejected := SaveAll(components, dashboardId, report, outcomes);
      components := live;
      toast := if rejected then ErrorToast("Failed to save layout changes") else SuccessToast("Layout saved successfully");
    }

    /** `handleDeleteComponent`: `deleteSucceeded` is how the backend delete settles. The item
        leaves the list whatever happens. */
    method Delete(id: string, deleteSucceeded: bool) returns (calls: seq<Request>, toast: Option<Toast>)
      modifies this
      ensures components == RemoveItem(old(components), id)
      ensures var k := IndexOfItem(old(components), id);
        if k.Some? && Known(old(components)[k.value].backendId) then
          calls == [DeleteComponent(old(components)[k.value].backendId.value)]
          && toast == Some(if deleteSucceeded then SuccessToast("Component deleted successfully")
                           else ErrorToast("Failed to delete component"))
        else calls == [] && toast.None?
      ensures loading == old(loading)
    {
      var k := IndexOfItem(components, id);
      if k.Some? && Known(components[k.value].backendId) {
        calls := [DeleteComponent(components[k.value].backendId.value)];
        toast := Some(if deleteSucceeded then SuccessToast("Component deleted successfully")
                      else ErrorToast("Failed to delete component"));
      } else {
        calls := [];
        toast := None;
      }
      components := RemoveItem(components, id);
    }

    /** `handleSaveComponent`: `editing` is the component the modal was opened for (or `None` for
        a new one) and `outcome` how the single backend call settles. */
    method SaveComponent(editing: Option<Item>, content: Content, outcome: CallOutcome)
      returns (calls: seq<Request>, toast: Toast)
      modifies this
      ensures editing.Some? ==>
        && calls == (if Known(editing.value.backendId)
                     then [UpdateContent(editing.value.backendId.value, content.title, content.data)] else [])
        && (if Known(editing.value.backendId) && outcome.Rejected? then
              components == old(components) && toast == ErrorToast("Failed to save component")
            else
              components == ReplaceContent(old(components), editing.value.id, content)
              && toast == SuccessToast("Component updated successfully"))
      ensures editing.None? ==>
        var p := DefaultPlacement(content.kind, old(components));
        && calls == [CreateComponent(dashboardId, content.title, content.kind, content.data, p.x, p.y, p.w, p.h)]
        && (if outcome.Resolved? then
              components == old(components) + [Item(outcome.id, content.kind, content.title, content.data,
                                                    Some(p), Some(outcome.id))]
              && toast == SuccessToast("Component created successfully")
            else
              components == old(components) && toast == ErrorToast("Failed to save component"))
      ensures loading == old(loading)
    {
      if editing.Some? {
        var e := editing.value;
        if Known(e.backendId) {
          calls := [UpdateContent(e.backendId.value, content.title, content.data)];
          if outcome.Rejected? {
            toast := ErrorToast("Failed to save component");
            return;
          }
        } else {
          calls := [];
        }
        components := ReplaceContent(components, e.id, content);
        toast := SuccessToast("Component updated successfully");
      } else {
        var p := DefaultPlacement(content.kind, components);
        calls := [CreateComponent(dashboardId, content.title, content.kind, content.data, p.x, p.y, p.w, p.h)];
        if outcome.Resolved? {
          components := components + [Item(outcome.id, content.kind, content.title, content.data,
                                           Some(p), Some(outcome.id))];
          toast := SuccessToast("Component created successfully");
        } else {
          toast := ErrorToast("Failed to save component");
        }
      }
    }
  }
}
