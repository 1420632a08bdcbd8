/**
 * The ticket template editor: a canvas record, a list of positioned elements,
 * a selection snapshot, a dragging flag and a drag offset, driven by mouse
 * events and property edits.
 */
module TicketDesigner {
  import opened Options
  import opened Seqs
  import opened JsStrings
  import opened JsNumbers

  datatype Kind = Text | QrCode

  /** The element properties the editor reads and writes. */
  datatype Prop = Content | X | Y | FontSize | FontFamily | Color | FontWeight | TextAlign | Width | Height | Dynamic

  /** A property value: text, a number, the `NaN` a failed `parseInt` gives, or a flag. */
  datatype PropValue = Str(s: string) | Num(n: int) | NotANumber | Flag(b: bool)

  datatype Element = Element(id: string, kind: Kind, props: map<Prop, PropValue>)

  datatype Canvas = Canvas(width: int, height: int, background: string, backgroundImage: Option<string>)

  /** The elements every ticket needs; the editor refuses to delete them. */
  const Protected: seq<string> := ["qr-code", "attendee-name", "ticket-type"]

  const InitialCanvas := Canvas(1000, 500, "#ffffff", None)

  /** `a || b` on text: the first operand unless it is absent or empty. */
  function OrDefault(s: Option<string>, default: string): (r: string)
    ensures s.Some? && s.value != [] ==> r == s.value
    ensures s.None? || s.value == [] ==> r == default
  {
    if s.Some? && s.value != [] then s.value else default
  }

  function TextElement(id: string, content: string, x: int, y: int, size: int, color: string, weight: string, dynamic: bool): Element {
    Element(id, Text, map[Content := Str(content), X := Num(x), Y := Num(y), FontSize := Num(size),
      FontFamily := Str("Arial"), Color := Str(color), FontWeight := Str(weight), Dynamic := Flag(dynamic)])
  }

  /**
   * The six starting elements. The event's title and location fill the first
   * and fourth; `dateText` is the event date already formatted for display,
   * absent when the event has no date.
   */
  function InitialElements(title: Option<string>, dateText: Option<string>, location: Option<string>): seq<Element> {
    [ TextElement("event-name", OrDefault(title, "Event Name"), 50, 50, 24, "#000000", "bold", false),
      TextElement("attendee-name", "{attendee_name}", 50, 100, 18, "#333333", "normal", true),
      TextElement("event-date", if dateText.Some? then dateText.value else "Event Date", 50, 150, 16, "#555555", "normal", false),
      TextElement("venue", OrDefault(location, "Venue Location"), 50, 180, 16, "#555555", "normal", false),
      Element("qr-code", QrCode, map[Content := Str("{ticket_id}"), X := Num(800), Y := Num(50),
        Width := Num(150), Height := Num(150), Dynamic := Flag(true)]),
      TextElement("ticket-type", "{ticket_type}", 800, 220, 16, "#333333", "bold", true) ]
  }

  /** Some element carries this id. */
  predicate HasId(elements: seq<Element>, id: string) {
    exists i | 0 <= i < |elements| :: elements[i].id == id
  }

  /** `Math.max(0, Math.min(hi, v))`. */
  function Clamp(v: int, hi: int): (r: int)
    ensures r >= 0
    ensures hi >= 0 ==> r <= hi
    ensures 0 <= v <= hi ==> r == v
    ensures v < 0 ==> r == 0
    ensures hi >= 0 && v > hi ==> r == hi
  {
    var m := if hi < v then hi else v;
    if 0 < m then m else 0
  }

  /** `elements.map(el => el.id === id ? { ...el, [prop]: v } : el)`. */
  function SetProp(elements: seq<Element>, id: string, prop: Prop, v: PropValue): (r: seq<Element>)
    ensures |r| == |elements|
    ensures forall i | 0 <= i < |r| :: r[i].id == elements[i].id && r[i].kind == elements[i].kind
    ensures forall i | 0 <= i < |r| && elements[i].id != id :: r[i] == elements[i]
    ensures forall i | 0 <= i < |r| && elements[i].id == id :: r[i].props == elements[i].props[prop := v]
  {
    seq(|elements|, i requires 0 <= i < |elements| =>
      if elements[i].id == id then elements[i].(props := elements[i].props[prop := v]) else elements[i])
  }

  /** Updating one property keeps every id, so every element that was there still is. */
  lemma SetPropKeepsIds(elements: seq<Element>, id: string, prop: Prop, v: PropValue, other: string)
    ensures HasId(SetProp(elements, id, prop, v), other) <==> HasId(elements, other)
  {
    var r := SetProp(elements, id, prop, v);
    if HasId(elements, other) {
      var i :| 0 <= i < |elements| && elements[i].id == other;
      assert r[i].id == other;
    }
  }

  /** The updated property reads back as written, and every other property is as before. */
  lemma SetPropReads(elements: seq<Element>, id: string, prop: Prop, v: PropValue, i: nat, p: Prop)
    requires i < |elements| && elements[i].id == id
    ensures SetProp(elements, id, prop, v)[i].props[prop] == v
    ensures p != prop ==> (p in SetProp(elements, id, prop, v)[i].props <==> p in elements[i].props)
    ensures p != prop && p in elements[i].props ==> SetProp(elements, id, prop, v)[i].props[p] == elements[i].props[p]
  {
  }

  /** The drag update: the element with `id` moves to the clamped position, the rest stay. */
  function MoveTo(elements: seq<Element>, id: string, x: int, y: int): seq<Element> {
    SetProp(SetProp(elements, id, X, Num(x)), id, Y, Num(y))
  }

  /** `templateId` picks the background colour; any unknown id gives white. */
  function TemplateBackground(templateId: string): (r: string)
    ensures templateId == "vip" ==> r == "#fef3c7"
    ensures templateId == "concert" ==> r == "#dbeafe"
    ensures templateId != "vip" && templateId != "concert" ==> r == "#ffffff"
  {
    if templateId == "vip" then "#fef3c7"
    else if templateId == "concert" then "#dbeafe"
    else "#ffffff"
  }

  /** `parseInt(text)` as a property value. */
  function IntValue(text: string): PropValue {
    match ParseInt(text)
    case None => NotANumber
    case Some(n) => Num(n)
  }

  /** The element `addTextElement` appends, with the clock reading made a parameter. */
  function NewTextElement(stamp: string): Element {
    TextElement("text-" + stamp, "New Text", 100, 100, 16, "#000000", "normal", false)
  }

  /**
   * Several `updateElement` calls made by one handler, as React applies them:
   * every call maps over the `elements` of the same render, so the last call's
   * list replaces the others, while the selection updates are functional and
   * all apply in turn.
   */
  function BatchedUpdates(elements: seq<Element>, selected: Element, updates: seq<(Prop, PropValue)>): (r: (seq<Element>, Element))
    requires updates != []
  {
    var last := updates[|updates| - 1];
    (SetProp(elements, selected.id, last.0, last.1), ApplyAll(selected, updates))
  }

  /** The functional selection updates `prev => ({ ...prev, [prop]: v })`, applied in order. */
  function ApplyAll(el: Element, updates: seq<(Prop, PropValue)>): (r: Element)
    ensures r.id == el.id && r.kind == el.kind
    ensures forall p | p in el.props :: p in r.props
    ensures forall k | 0 <= k < |updates| :: updates[k].0 in r.props
    ensures updates != [] ==> r.props[updates[|updates| - 1].0] == updates[|updates| - 1].1
    decreases |updates|
  {
    if updates == [] then el
    else ApplyAll(el.(props := el.props[updates[0].0 := updates[0].1]), updates[1..])
  }

  /** The QR size field as written: `updateElement('width', size); updateElement('height', size)`. */
  function QrSizeAsWritten(elements: seq<Element>, selected: Element, text: string): (seq<Element>, Element) {
    BatchedUpdates(elements, selected, [(Width, IntValue(text)), (Height, IntValue(text))])
  }

  /**
   * As written, the QR size field leaves the width in the element list as it
   * was and sets only the height, while the selection shows the new width.
   */
  lemma {:induction false} QrSizeAsWrittenLosesWidth(elements: seq<Element>, selected: Element, text: string, i: nat)
    requires i < |elements| && elements[i].id == selected.id && Width in elements[i].props
    ensures QrSizeAsWritten(elements, selected, text).0[i].props[Width] == elements[i].props[Width]
    ensures QrSizeAsWritten(elements, selected, text).0[i].props[Height] == IntValue(text)
    ensures QrSizeAsWritten(elements, selected, text).1.props[Width] == IntValue(text)
  {
    var size := IntValue(text);
    var updates := [(Width, size), (Height, size)];
    assert updates[1..] == [(Height, size)];
    assert [(Height, size)][1..] == [];
    var once := selected.(props := selected.props[Width := size]);
    assert ApplyAll(selected, updates) == ApplyAll(once, [(Height, size)]);
    assert ApplyAll(once, [(Height, size)]) == ApplyAll(once.(props := once.props[Height := size]), []);
  }

  /**
   * On the starting template, typing a whole number such as 200 into the QR
   * size field leaves the QR code 150 wide and makes it that number high.
   */
  lemma QrSizeExample(title: Option<string>, dateText: Option<string>, location: Option<string>, size: string)
    requires size != [] && AllDigits(size, 10)
    ensures InitialElements(title, dateText, location)[4].id == "qr-code"
    ensures QrSizeAsWritten(InitialElements(title, dateText, location), InitialElements(title, dateText, location)[4], size).0[4].props[Width] == Num(150)
    ensures QrSizeAsWritten(InitialElements(title, dateText, location), InitialElements(title, dateText, location)[4], size).0[4].props[Height] == Num(JsNumbers.Value(size, 10))
  {
    var elements := InitialElements(title, dateText, location);
    ParseIntOfDigits(size);
    QrSizeAsWrittenLosesWidth(elements, elements[4], size, 4);
  }

  /** The editor's state. */
  class Designer {
    var elements: seq<Element>
    /** A copy of the element taken when it was picked, not a live reference. */
    var selected: Option<Element>
    var dragging: bool
    var dragOffset: (int, int)
    var canvas: Canvas

    /**
     * The protected elements are always on the ticket, and a selection names
     * an element that is there.
     */
    ghost predicate Valid()
      reads this
    {
      (forall id | id in Protected :: HasId(elements, id))
      && (selected.Some? ==> HasId(elements, selected.value.id))
    }

    constructor(title: Option<string>, dateText: Option<string>, location: Option<string>)
      ensures Valid()
      ensures elements == InitialElements(title, dateText, location)
      ensures selected == None && !dragging && dragOffset == (0, 0) && canvas == InitialCanvas
    {
      elements := InitialElements(title, dateText, location);
      selected := None;
      dragging := false;
      dragOffset := (0, 0);
      canvas := InitialCanvas;
      new;
      assert elements[1].id == "attendee-name" && elements[4].id == "qr-code" && elements[5].id == "ticket-type";
    }

    /**
     * A mouse press on the element at `i`: it becomes the selection and
     * dragging starts. `(left, top)` is the element's corner relative to the
     * canvas.
     */
    method ElementClick(i: nat, clientX: int, clientY: int, left: int, top: int)
      requires Valid() && i < |elements|
      modifies this
      ensures Valid()
      ensures selected == Some(old(elements)[i]) && dragging && dragOffset == (clientX - left, clientY - top)
      ensures elements == old(elements) && canvas == old(canvas)
    {
      selected := Some(elements[i]);
      dragOffset := (clientX - left, clientY - top);
      dragging := true;
    }

    /** A click on the bare canvas drops the selection; dragging is left as it is. */
    method CanvasClick()
      requires Valid()
      modifies this
      ensures Valid()
      ensures selected == None
      ensures elements == old(elements) && dragging == old(dragging) && dragOffset == old(dragOffset) && canvas == old(canvas)
    {
      selected := None;
    }

    /**
     * Mouse movement: nothing happens unless dragging with a selection;
     * otherwise the selected element moves to the mouse position less the offset,
     * clamped to stay 20 units inside the canvas.
     */
    method MouseMove(clientX: int, clientY: int, canvasLeft: int, canvasTop: int)
      requires Valid()
      modifies this
      ensures Valid()
      ensures !old(dragging) || old(selected).None? ==> elements == old(elements)
      ensures old(dragging) && old(selected).Some? ==>
        elements == MoveTo(old(elements), old(selected).value.id,
          Clamp(clientX - canvasLeft - old(dragOffset).0, old(canvas).width - 20),
          Clamp(clientY - canvasTop - old(dragOffset).1, old(canvas).height - 20))
      ensures selected == old(selected) && dragging == old(dragging) && dragOffset == old(dragOffset) && canvas == old(canvas)
    {
      if !dragging || selected.None? {
        return;
      }
      var x := clientX - canvasLeft - dragOffset.0;
      var y := clientY - canvasTop - dragOffset.1;
      var id := selected.value.id;
      var moved := MoveTo(elements, id, Clamp(x, canvas.width - 20), Clamp(y, canvas.height - 20));
      KeepsIds(moved);
      elements := moved;
    }

    /** Releasing the mouse button ends dragging and keeps the selection. */
    method MouseUp()
      requires Valid()
      modifies this
      ensures Valid()
      ensures !dragging
      ensures elements == old(elements) && selected == old(selected) && dragOffset == old(dragOffset) && canvas == old(canvas)
    {
      dragging := false;
    }

    /**
     * `updateElement(prop, v)`: without a selection nothing changes; otherwise
     * the elements with the selected id get `prop` set to `v`, and so does the
     * selection snapshot.
     */
    method UpdateElement(prop: Prop, v: PropValue)
      requires Valid()
      modifies this
      ensures Valid()
      ensures old(selected).None? ==> elements == old(elements) && selected == None
      ensures old(selected).Some? ==>
        elements == SetProp(old(elements), old(selected).value.id, prop, v)
        && selected == Some(old(selected).value.(props := old(selected).value.props[prop := v]))
      ensures dragging == old(dragging) && dragOffset == old(dragOffset) && canvas == old(canvas)
    {
      if selected.None? {
        return;
      }
      var sel := selected.value;
      var updated := SetProp(elements, sel.id, prop, v);
      KeepsIds(updated);
      elements := updated;
      selected := Some(sel.(props := sel.props[prop := v]));
    }

    /**
     * The QR size field with both updates applied to the element list, as
     * evidently intended (see `QrSizeAsWrittenLosesWidth`).
     */
    method SetQrSize(text: string)
      requires Valid()
      modifies this
      ensures Valid()
      ensures old(selected).None? ==> elements == old(elements) && selected == None
      ensures old(selected).Some? ==>
        var size := IntValue(text);
        elements == SetProp(SetProp(old(elements), old(selected).value.id, Width, size), old(selected).value.id, Height, size)
        && selected == Some(ApplyAll(old(selected).value, [(Width, size), (Height, size)]))
      ensures dragging == old(dragging) && dragOffset == old(dragOffset) && canvas == old(canvas)
    {
      var size := IntValue(text);
      ghost var before := selected;
      UpdateElement(Width, size);
      UpdateElement(Height, size);
      if before.Some? {
        var updates := [(Width, size), (Height, size)];
        assert updates[1..] == [(Height, size)];
        assert [(Height, size)][1..] == [];
        var once := before.value.(props := before.value.props[Width := size]);
        assert ApplyAll(before.value, updates) == ApplyAll(once, [(Height, size)]);
        assert ApplyAll(once, [(Height, size)]) == ApplyAll(once.(props := once.props[Height := size]), []);
      }
    }

    /** A fresh text element with id `text-<stamp>` is appended and selected. */
    method AddTextElement(stamp: string)
      requires Valid()
      modifies this
      ensures Valid()
      ensures elements == old(elements) + [NewTextElement(stamp)] && |elements| == |old(elements)| + 1
      ensures selected == Some(NewTextElement(stamp))
      ensures dragging == old(dragging) && dragOffset == old(dragOffset) && canvas == old(canvas)
    {
      var el := NewTextElement(stamp);
      var grown := elements + [el];
      assert grown[|elements|] == el;
      forall id | HasId(elements, id)
        ensures HasId(grown, id)
      {
        var i :| 0 <= i < |elements| && elements[i].id == id;
        assert grown[i].id == id;
      }
      elements := grown;
      selected := Some(el);
    }

    /**
     * Deletes the selection: refused without one or for a protected id;
     * otherwise every element with that id goes, the rest keep their order,
     * and the selection is cleared.
     */
    method DeleteSelected()
      requires Valid()
      modifies this
      ensures Valid()
      ensures old(selected).None? || old(selected).value.id in Protected ==>
        elements == old(elements) && selected == old(selected)
      ensures old(selected).Some? && old(selected).value.id !in Protected ==>
        var id := old(selected).value.id;
        elements == Filter(old(elements), (el: Element) => el.id != id) && selected == None
      ensures dragging == old(dragging) && dragOffset == old(dragOffset) && canvas == old(canvas)
    {
      if selected.None? {
        return;
      }
      var id := selected.value.id;
      if id in Protected {
        return;
      }
      var kept := Filter(elements, (el: Element) => el.id != id);
      forall other | other in Protected
        ensures HasId(kept, other)
      {
        var i :| 0 <= i < |elements| && elements[i].id == other;
        assert elements[i] in kept;
        var j :| 0 <= j < |kept| && kept[j] == elements[i];
      }
      elements := kept;
      selected := None;
    }

    /** A template button: only the canvas background changes. */
    method LoadTemplate(templateId: string)
      requires Valid()
      modifies this
      ensures Valid()
      ensures canvas == old(canvas).(background := TemplateBackground(templateId))
      ensures elements == old(elements) && selected == old(selected) && dragging == old(dragging) && dragOffset == old(dragOffset)
    {
      canvas := canvas.(background := TemplateBackground(templateId));
    }

    /**
     * A background image was chosen; `dataUrl` is what the file reader
     * produced. Only a type starting with `image/` is taken.
     */
    method LoadBackground(mimeType: Option<string>, dataUrl: string)
      requires Valid()
      modifies this
      ensures Valid()
      ensures mimeType.Some? && StartsWith(mimeType.value, "image/") ==>
        canvas == old(canvas).(backgroundImage := Some(dataUrl))
      ensures mimeType.None? || !StartsWith(mimeType.value, "image/") ==> canvas == old(canvas)
      ensures elements == old(elements) && selected == old(selected) && dragging == old(dragging) && dragOffset == old(dragOffset)
    {
      if mimeType.None? {
        return;
      }
      if !StartsWith(mimeType.value, "image/") {
        return;
      }
      canvas := canvas.(backgroundImage := Some(dataUrl));
    }

    /** A list with the same ids as `elements`, position by position, keeps `Valid`. */
    lemma KeepsIds(next: seq<Element>)
      requires Valid()
      requires |next| == |elements| && forall i | 0 <= i < |next| :: next[i].id == elements[i].id
      ensures forall id :: HasId(next, id) <==> HasId(elements, id)
    {
      forall id
        ensures HasId(next, id) <==> HasId(elements, id)
      {
        if HasId(elements, id) {
          var i :| 0 <= i < |elements| && elements[i].id == id;
          assert next[i].id == id;
        }
        if HasId(next, id) {
          var i :| 0 <= i < |next| && next[i].id == id;
          assert elements[i].id == id;
        }
      }
    }
  }

  /** After the corrected size update every element with the QR code's id is square. */
  lemma SetQrSizeSquare(elements: seq<Element>, id: string, size: PropValue)
    ensures var r := SetProp(SetProp(elements, id, Width, size), id, Height, size);
      forall i | 0 <= i < |r| && r[i].id == id :: r[i].props[Width] == size && r[i].props[Height] == size
  {
  }

  /** The protected elements and a selection of a present element survive any single edit. */
  lemma MoveToKeepsIds(elements: seq<Element>, id: string, x: int, y: int, other: string)
    ensures HasId(MoveTo(elements, id, x, y), other) <==> HasId(elements, other)
  {
    SetPropKeepsIds(elements, id, X, Num(x), other);
    SetPropKeepsIds(SetProp(elements, id, X, Num(x)), id, Y, Num(y), other);
  }

  /** A drag lands the element at the clamped position and leaves every other element alone. */
  lemma MoveToPlaces(elements: seq<Element>, id: string, x: int, y: int, i: nat)
    requires i < |elements|
    ensures elements[i].id == id ==> MoveTo(elements, id, x, y)[i].props[X] == Num(x) && MoveTo(elements, id, x, y)[i].props[Y] == Num(y)
    ensures elements[i].id != id ==> MoveTo(elements, id, x, y)[i] == elements[i]
  {
  }
}
