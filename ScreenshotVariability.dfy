/** The screenshot-variability step of the experiment wizard: a walk over the
    element table taken from the wizard store that shows the first element
    not yet processed, lets the user attach a variability function to it (or
    delete it), and hands the table back to the store once the walk is over. */
module ScreenshotVariability {
  import opened Options
  import opened ElementTable
  import G = GuiCoordinates

  // ---------------------------------------------------------------- catalogue

  /** A variability function and the ids of the parameters it takes. */
  datatype VariabilityFunction = VariabilityFunction(id: nat, functionName: string,
                                                     description: string, params: seq<nat>)

  datatype Parameter = Parameter(id: nat, caption: string, placeholder: string, dataType: string,
                                 validationNeeds: string, description: string)

  const FunctionList: seq<VariabilityFunction> := [
    VariabilityFunction(1, "copy_image", "copy an image without changes", [1, 2]),
    VariabilityFunction(2, "change_ui", "change element in ui", [])
  ]

  const ParamList: seq<Parameter> := [
    Parameter(1, "Insert text", "Text", "String", "Required", "Insert a text in the screenshot "),
    Parameter(2, "Random UI", "0", "Integer", "Required", "Change the number passed of GUI elements randomly")
  ]

  /** The catalogue entry for parameter `id`, if there is one. */
  function FindParam(params: seq<Parameter>, id: nat): (r: Option<Parameter>)
    ensures r.Some? ==> r.value in params && r.value.id == id
    ensures r.None? ==> forall p :: p in params ==> p.id != id
  {
    if params == [] then None
    else if params[0].id == id then Some(params[0])
    else FindParam(params[1..], id)
  }

  /** Every parameter a function of the catalogue names is in the parameter list. */
  lemma CatalogueClosed()
    ensures forall f, id :: f in FunctionList && id in f.params ==> FindParam(ParamList, id).Some?
  {
    assert FindParam(ParamList, 1).Some? && FindParam(ParamList, 2).Some?;
  }

  // ---------------------------------------------------------------- elements

  /** The values of an element's `params` object. */
  datatype ParamValue = Text(text: string) | Number(number: int)

  /** An element of the wizard table: its rectangle in image pixels, the
      image resolution, its colour, and what this step records about it. */
  datatype Element = Element(x1: int, y1: int, x2: int, y2: int, resolutionImg: G.Extent,
                             randomColor: string, processed: bool, functionVariability: int,
                             params: seq<ParamValue>)

  /** The current element before any is selected (`params` is the empty object). */
  const InitialElement := Element(0, 0, 0, 0, G.Extent(0, 0), "", false, 0, [])

  /** What saveElements writes into the current element. */
  function Mark(e: Element, functionId: int): (r: Element)
    ensures r.processed && r.functionVariability == functionId
    ensures r.params == [Text("text"), Number(1)]
    ensures G.Rect(r.x1, r.y1, r.x2, r.y2) == G.Rect(e.x1, e.y1, e.x2, e.y2)
    ensures r.resolutionImg == e.resolutionImg && r.randomColor == e.randomColor
  {
    e.(functionVariability := functionId, params := [Text("text"), Number(1)], processed := true)
  }

  predicate Pending(entries: map<string, Element>, k: string) {
    k in entries && !entries[k].processed
  }

  /** The first of `keys` whose element is not processed. */
  function FirstPendingIn(entries: map<string, Element>, keys: seq<string>): (r: Option<string>)
    ensures r.Some? ==> r.value in keys && Pending(entries, r.value)
    ensures r.None? ==> forall k :: k in keys ==> !Pending(entries, k)
  {
    if keys == [] then None
    else if Pending(entries, keys[0]) then Some(keys[0])
    else FirstPendingIn(entries, keys[1..])
  }

  /** The element the walk selects next: the first pending one in insertion order. */
  function FirstPending(t: Table<Element>): Option<string> {
    FirstPendingIn(t.entries, t.keys)
  }

  /** The names of the elements still to be processed. */
  function PendingNames(t: Table<Element>): set<string> {
    set k | k in t.entries && !t.entries[k].processed
  }

  /** Position `i` holds a pending element and none before it is pending. */
  ghost predicate FirstPendingAt(entries: map<string, Element>, keys: seq<string>, i: int) {
    && 0 <= i < |keys| && Pending(entries, keys[i])
    && forall j :: 0 <= j < i ==> !Pending(entries, keys[j])
  }

  /** FirstPendingIn selects `k` exactly when `k` stands at the first pending position. */
  lemma {:induction false} FirstPendingInIff(entries: map<string, Element>, keys: seq<string>, k: string)
    ensures FirstPendingIn(entries, keys) == Some(k)
            <==> exists i :: FirstPendingAt(entries, keys, i) && keys[i] == k
    decreases |keys|
  {
    if keys == [] {
    } else if Pending(entries, keys[0]) {
      if FirstPendingIn(entries, keys) == Some(k) {
        assert FirstPendingAt(entries, keys, 0);
      }
      forall i | FirstPendingAt(entries, keys, i) && keys[i] == k
        ensures i == 0 && keys[0] == k
      {
      }
    } else {
      FirstPendingInIff(entries, keys[1..], k);
      if FirstPendingIn(entries, keys) == Some(k) {
        var i :| FirstPendingAt(entries, keys[1..], i) && keys[1..][i] == k;
        assert FirstPendingAt(entries, keys, i + 1);
      }
      forall i | FirstPendingAt(entries, keys, i) && keys[i] == k
        ensures FirstPendingIn(entries, keys) == Some(k)
      {
        assert i != 0;
        assert FirstPendingAt(entries, keys[1..], i - 1);
      }
    }
  }

  /** The walk finds nothing exactly when no element is pending. */
  lemma FirstPendingNoneIff(t: Table<Element>)
    requires t.Valid()
    ensures FirstPending(t).None? <==> PendingNames(t) == {}
  {
    if FirstPending(t).Some? {
      assert FirstPending(t).value in PendingNames(t);
    }
  }

  /** Saving the selected element marks it processed: it is never selected
      again, the other elements keep their state, and one name fewer is pending. */
  lemma SaveRemovesFromPending(t: Table<Element>, k: string, e: Element, functionId: int)
    requires t.Valid()
    ensures FirstPending(Put(t, k, Mark(e, functionId))) != Some(k)
    ensures PendingNames(Put(t, k, Mark(e, functionId))) == PendingNames(t) - {k}
    ensures k in PendingNames(t) ==> |PendingNames(Put(t, k, Mark(e, functionId)))| == |PendingNames(t)| - 1
  {
    var r := Put(t, k, Mark(e, functionId));
    assert PendingNames(r) == PendingNames(t) - {k};
  }

  /** Deleting the current element takes it off the pending names and changes nothing else. */
  lemma DeleteRemovesFromPending(t: Table<Element>, k: string)
    requires t.Valid()
    ensures PendingNames(Delete(t, k)) == PendingNames(t) - {k}
    ensures FirstPending(Delete(t, k)) != Some(k)
  {
    var r := Delete(t, k);
    assert PendingNames(r) == PendingNames(t) - {k};
  }

  // ---------------------------------------------------------------- the walk

  /** `n` copies of `t`: the tables dispatched by `n` turns of the loop. */
  function Repeat(t: Table<Element>, n: nat): (r: seq<Table<Element>>)
    ensures |r| == n
    ensures forall i :: 0 <= i < n ==> r[i] == t
  {
    if n == 0 then [] else Repeat(t, n - 1) + [t]
  }

  /** The part of the state onEvent can change. */
  datatype View = View(coordinates: Element, elementName: string, count: nat)

  /** onEvent's effect on the view: with a non-zero count, the first pending
      element becomes the current one and the count drops by one; otherwise
      (count zero, or nothing pending) the view stays. */
  function NextView(t: Table<Element>, v: View): (r: View)
    ensures v.count == 0 ==> r == v
    ensures v.count != 0 && FirstPending(t).None? ==> r == v
    ensures v.count != 0 && FirstPending(t).Some? ==>
              r.elementName == FirstPending(t).value && r.count == v.count - 1
              && r.coordinates == t.entries[r.elementName] && !r.coordinates.processed
  {
    if v.count == 0 then v
    else match FirstPending(t)
      case None => v
      case Some(k) => View(t.entries[k], k, v.count - 1)
  }

  /** What onEvent dispatches to the store: the table once per name when the
      count is zero, nothing otherwise. */
  function Dispatches(t: Table<Element>, count: nat): (r: seq<Table<Element>>)
    ensures count == 0 ==> r == Repeat(t, |t.keys|)
    ensures count != 0 ==> r == []
  {
    if count == 0 then Repeat(t, |t.keys|) else []
  }

  /** The first pending position is the one selected. */
  lemma {:induction false} FirstPendingAtSelects(entries: map<string, Element>, keys: seq<string>, i: int)
    requires FirstPendingAt(entries, keys, i)
    ensures FirstPendingIn(entries, keys) == Some(keys[i])
    decreases i
  {
    if i > 0 {
      assert !Pending(entries, keys[0]);
      assert FirstPendingAt(entries, keys[1..], i - 1);
      FirstPendingAtSelects(entries, keys[1..], i - 1);
    }
  }

  /** With no pending position nothing is selected. */
  lemma {:induction false} NoPendingFound(entries: map<string, Element>, keys: seq<string>)
    requires forall j :: 0 <= j < |keys| ==> !Pending(entries, keys[j])
    ensures FirstPendingIn(entries, keys) == None
    decreases |keys|
  {
    if keys != [] {
      assert !Pending(entries, keys[0]);
      NoPendingFound(entries, keys[1..]);
    }
  }

  /** The count only goes down, one selection at a time. */
  lemma NextViewCount(t: Table<Element>, v: View)
    ensures NextView(t, v).count == v.count || NextView(t, v).count == v.count - 1
    ensures NextView(t, v).count == v.count - 1 <==> v.count != 0 && FirstPending(t).Some?
  {
  }

  /** State of the screen: the working copy of the table, the current element
      and its name, the chosen function, the count of selections left, the
      display size, and the tables dispatched to the wizard store so far. */
  class VariabilityWalk {
    var elements: Table<Element>
    var coordinates: Element
    var elementName: string
    var functionId: int
    var count: nat
    var resolutionBrw: G.Extent
    var dispatched: seq<Table<Element>>

    ghost predicate Valid()
      reads this
    {
      elements.Valid()
    }

    function CurrentView(): View
      reads this
    {
      View(coordinates, elementName, count)
    }

    /** The initial state: a copy of the store's table, a zero element, no
        name, no function, and a count of one per element. */
    constructor (storeElements: Table<Element>)
      requires storeElements.Valid()
      ensures Valid()
      ensures elements == storeElements && count == |storeElements.keys|
      ensures coordinates == InitialElement && elementName == "" && functionId == 0
      ensures resolutionBrw == G.Extent(0, 0) && dispatched == []
    {
      elements := storeElements;
      coordinates := InitialElement;
      elementName := "";
      functionId := 0;
      count := |storeElements.keys|;
      resolutionBrw := G.Extent(0, 0);
      dispatched := [];
    }

    /** onEvent: scans the names in order; with a zero count every turn
        dispatches the table, otherwise the first pending element is selected
        and the scan stops. The setters take effect once the scan is over. */
    method OnEvent()
      modifies this`coordinates, this`elementName, this`count, this`dispatched
      ensures CurrentView() == NextView(elements, old(CurrentView()))
      ensures dispatched == old(dispatched) + Dispatches(elements, old(count))
    {
      var t := elements;
      var countTmp: int := count;
      var selected: Option<string> := None;
      var sent: seq<Table<Element>> := [];
      var i := 0;
      while i < |t.keys|
        invariant 0 <= i <= |t.keys|
        invariant selected == None && countTmp == count
        invariant sent == if count == 0 then Repeat(t, i) else []
        invariant count != 0 ==> forall j :: 0 <= j < i ==> !Pending(t.entries, t.keys[j])
      {
        var key := t.keys[i];
        if count == 0 || |t.keys| == 0 {
          sent := sent + [t];
        } else if Pending(t.entries, key) {
          assert FirstPendingAt(t.entries, t.keys, i);
          FirstPendingAtSelects(t.entries, t.keys, i);
          selected := Some(key);
          countTmp := countTmp - 1;
          break;
        }
        i := i + 1;
      }
      if selected == None && count != 0 {
        NoPendingFound(t.entries, t.keys);
      }
      dispatched := dispatched + sent;
      if selected.Some? {
        coordinates := t.entries[selected.value];
        elementName := selected.value;
        count := countTmp;
      }
    }

    /** getResolutionBRW followed by onEvent, on the image's load. */
    method OnLoadImage(display: G.Extent)
      requires Valid()
      modifies this`resolutionBrw, this`coordinates, this`elementName, this`count, this`dispatched
      ensures resolutionBrw == display
      ensures CurrentView() == NextView(elements, old(CurrentView()))
      ensures dispatched == old(dispatched) + Dispatches(elements, old(count))
    {
      resolutionBrw := display;
      OnEvent();
    }

    /** handleChange: the function chosen in the selector. */
    method SelectFunction(id: int)
      modifies this`functionId
      ensures functionId == id
    {
      functionId := id;
    }

    /** saveElements: the current element, marked processed with the chosen
        function, is stored under the current name; then onEvent. */
    method SaveElements()
      requires Valid()
      modifies this`elements, this`coordinates, this`elementName, this`count, this`dispatched
      ensures Valid()
      ensures elements == Put(old(elements), old(elementName), Mark(old(coordinates), functionId))
      ensures CurrentView() == NextView(elements, old(CurrentView()).(coordinates := Mark(old(coordinates), functionId)))
      ensures dispatched == old(dispatched) + Dispatches(elements, old(count))
    {
      coordinates := Mark(coordinates, functionId);
      elements := Put(elements, elementName, coordinates);
      OnEvent();
    }

    /** removeElement: the current name is deleted from the table; then onEvent. */
    method RemoveElement()
      requires Valid()
      modifies this`elements, this`coordinates, this`elementName, this`count, this`dispatched
      ensures Valid()
      ensures elements == Delete(old(elements), old(elementName))
      ensures CurrentView() == NextView(elements, old(CurrentView()))
      ensures dispatched == old(dispatched) + Dispatches(elements, old(count))
    {
      elements := Delete(elements, elementName);
      OnEvent();
    }

    /** The overlay drawn for the current element. */
    function CurrentOverlay(): (b: G.Box)
      reads this
      requires G.Positive(coordinates.resolutionImg)
      ensures G.NonNegative(resolutionBrw) && coordinates.x1 <= coordinates.x2 && coordinates.y1 <= coordinates.y2
              ==> b.width >= 0 && b.height >= 0
    {
      G.Overlay(G.Rect(coordinates.x1, coordinates.y1, coordinates.x2, coordinates.y2),
                resolutionBrw, coordinates.resolutionImg)
    }
  }
}
