/**
  The editor's image node (`src/editor/ImageNode.tsx`): a node holding a
  source URL, an optional alternative text and optional pixel sizes, its JSON
  form, its HTML form, and the drag handle of the component that renders it.
  Sizes are whole pixels here; `undefined` is `None`.
*/
module ImageNodes {
  import opened Wrappers
  import opened Strings

  /** `ImagePayload`: what `$createImageNode` is given. */
  datatype ImagePayload = ImagePayload(src: string, alt: Option<string>, width: Option<int>, height: Option<int>)

  /** `SerializedImageNode`: the node's JSON record. */
  datatype SerializedImageNode = SerializedImageNode(
    kind: string, version: int,
    src: string, alt: Option<string>, width: Option<int>, height: Option<int>)

  /** JavaScript truthiness of an optional string. */
  predicate TruthyText(s: Option<string>) {
    s.Some? && s.value != ""
  }

  /** A size whose `Npx` text the element's style keeps: `exportDOM` assigns it only for a
      truthy size, and CSS `width` and `height` accept no negative length, so the browser
      ignores the assignment of a negative one. */
  predicate KeptLength(n: Option<int>) {
    n.Some? && n.value > 0
  }

  /** The payload fields a JSON record carries, as `importJSON` reads them. */
  function PayloadOf(s: SerializedImageNode): ImagePayload {
    ImagePayload(s.src, s.alt, s.width, s.height)
  }

  /** The JSON record `exportJSON` builds for a node with payload `p`. */
  function Serialize(p: ImagePayload): (s: SerializedImageNode)
    ensures s.kind == "image" && s.version == 1
    ensures PayloadOf(s) == p
  {
    SerializedImageNode("image", 1, p.src, p.alt, p.width, p.height)
  }

  /** An HTML element as a list of attributes and a list of style properties, each in the order they were set. */
  datatype DomElement = DomElement(tag: string, attributes: seq<(string, string)>, style: seq<(string, string)>)

  /** The value last set under `name`, if any. */
  function Lookup(props: seq<(string, string)>, name: string): (r: Option<string>)
    ensures r.None? <==> forall k :: 0 <= k < |props| ==> props[k].0 != name
  {
    if props == [] then None
    else if props[|props| - 1].0 == name then Some(props[|props| - 1].1)
    else Lookup(props[..|props| - 1], name)
  }

  /** Setting a property makes it the value looked up under its own name. */
  lemma LookupSnoc(props: seq<(string, string)>, name: string, value: string)
    ensures Lookup(props + [(name, value)], name) == Some(value)
  {
  }

  /** One property, set only when `cond` holds. */
  function OptionalProp(cond: bool, name: string, value: string): seq<(string, string)> {
    if cond then [(name, value)] else []
  }

  /** An optional property decides the lookup under its own name when it is set, and
      leaves every other name as it was. */
  lemma LookupOptional(props: seq<(string, string)>, cond: bool, name: string, value: string, query: string)
    ensures Lookup(props + OptionalProp(cond, name, value), query)
            == if cond && query == name then Some(value) else Lookup(props, query)
  {
    var p := props + OptionalProp(cond, name, value);
    if cond {
      assert p[..|p| - 1] == props;
    } else {
      assert p == props;
    }
  }

  function DomAttributes(src: string, alt: Option<string>, width: Option<int>, height: Option<int>): seq<(string, string)> {
    [("src", src)]
    + OptionalProp(TruthyText(alt), "alt", alt.GetOr(""))
    + OptionalProp(TruthyNumber(width), "width", IntToString(width.GetOr(0)))
    + OptionalProp(TruthyNumber(height), "height", IntToString(height.GetOr(0)))
  }

  /** The element's style after the assignments: a size assignment the browser rejects leaves
      no entry. */
  function DomStyle(width: Option<int>, height: Option<int>): seq<(string, string)> {
    OptionalProp(KeptLength(width), "width", IntToString(width.GetOr(0)) + "px")
    + OptionalProp(KeptLength(height), "height", IntToString(height.GetOr(0)) + "px")
    + [("maxWidth", "100%")]
  }

  lemma DomAttributesLookup(src: string, alt: Option<string>, width: Option<int>, height: Option<int>, query: string)
    ensures Lookup(DomAttributes(src, alt, width, height), query) ==
            if query == "height" && TruthyNumber(height) then Some(IntToString(height.value))
            else if query == "width" && TruthyNumber(width) then Some(IntToString(width.value))
            else if query == "alt" && TruthyText(alt) then alt
            else if query == "src" then Some(src)
            else None
  {
    var a0 := [("src", src)];
    var a1 := a0 + OptionalProp(TruthyText(alt), "alt", alt.GetOr(""));
    var a2 := a1 + OptionalProp(TruthyNumber(width), "width", IntToString(width.GetOr(0)));
    assert Lookup(a0, query) == if query == "src" then Some(src) else None by {
      assert a0[..0] == [];
    }
    LookupOptional(a0, TruthyText(alt), "alt", alt.GetOr(""), query);
    LookupOptional(a1, TruthyNumber(width), "width", IntToString(width.GetOr(0)), query);
    LookupOptional(a2, TruthyNumber(height), "height", IntToString(height.GetOr(0)), query);
  }

  lemma DomStyleLookup(width: Option<int>, height: Option<int>, query: string)
    ensures Lookup(DomStyle(width, height), query) ==
            if query == "maxWidth" then Some("100%")
            else if query == "height" && KeptLength(height) then Some(IntToString(height.value) + "px")
            else if query == "width" && KeptLength(width) then Some(IntToString(width.value) + "px")
            else None
  {
    var s1 := OptionalProp(KeptLength(width), "width", IntToString(width.GetOr(0)) + "px");
    var s2 := s1 + OptionalProp(KeptLength(height), "height", IntToString(height.GetOr(0)) + "px");
    LookupOptional([], KeptLength(width), "width", IntToString(width.GetOr(0)) + "px", query);
    assert [] + s1 == s1;
    LookupOptional(s1, KeptLength(height), "height", IntToString(height.GetOr(0)) + "px", query);
    var st := s2 + [("maxWidth", "100%")];
    assert st[..|st| - 1] == s2;
  }

  class ImageNode {
    var src: string
    var alt: Option<string>
    var width: Option<int>
    var height: Option<int>
    /** The node key; `None` lets the editor assign a fresh one. */
    var key: Option<string>

    function Payload(): (p: ImagePayload)
      reads this
      ensures p.src == src && p.alt == alt && p.width == width && p.height == height
    {
      ImagePayload(src, alt, width, height)
    }

    constructor(src: string, alt: Option<string>, width: Option<int>, height: Option<int>, key: Option<string>)
      ensures this.src == src && this.alt == alt && this.width == width && this.height == height
      ensures this.key == key
    {
      this.src := src;
      this.alt := alt;
      this.width := width;
      this.height := height;
      this.key := key;
    }

    /** `ImageNode.clone`: a new node with the same payload and the same key. */
    static method Clone(node: ImageNode) returns (c: ImageNode)
      ensures fresh(c)
      ensures c.Payload() == node.Payload() && c.key == node.key
    {
      c := new ImageNode(node.src, node.alt, node.width, node.height, node.key);
    }

    /** `ImageNode.importJSON`: a new node with the record's payload and no key. */
    static method ImportJSON(s: SerializedImageNode) returns (n: ImageNode)
      ensures fresh(n)
      ensures n.Payload() == PayloadOf(s) && n.key == None
    {
      n := new ImageNode(s.src, s.alt, s.width, s.height, None);
    }

    /** `ImageNode.exportJSON`: tagged `image`, version 1, and reading it back gives this node's payload. */
    function ExportJSON(): (s: SerializedImageNode)
      reads this
      ensures s.kind == "image" && s.version == 1
      ensures PayloadOf(s) == Payload()
    {
      Serialize(Payload())
    }

    /** The `onResize` callback `decorate` passes down: it sets the two sizes and nothing else. */
    method OnResize(w: int, h: int)
      modifies this
      ensures width == Some(w) && height == Some(h)
      ensures src == old(src) && alt == old(alt) && key == old(key)
    {
      width := Some(w);
      height := Some(h);
    }

    /** `ImageNode.exportDOM`: an `img` that always carries `src` and `max-width: 100%`; `alt`
        only when it is a non-empty string; each size as an attribute when it is present and
        non-zero, and as a `px` style when it is positive (a negative length is assigned but
        not kept). */
    function ExportDOM(): (e: DomElement)
      reads this
      ensures e.tag == "img"
      ensures Lookup(e.attributes, "src") == Some(src)
      ensures Lookup(e.attributes, "alt").Some? <==> TruthyText(alt)
      ensures TruthyText(alt) ==> Lookup(e.attributes, "alt") == alt
      ensures Lookup(e.attributes, "width").Some? <==> TruthyNumber(width)
      ensures TruthyNumber(width) ==> Lookup(e.attributes, "width") == Some(IntToString(width.value))
      ensures Lookup(e.style, "width").Some? <==> KeptLength(width)
      ensures KeptLength(width) ==> Lookup(e.style, "width") == Some(IntToString(width.value) + "px")
      ensures Lookup(e.style, "width").Some? ==> Lookup(e.attributes, "width").Some?
      ensures Lookup(e.attributes, "height").Some? <==> TruthyNumber(height)
      ensures TruthyNumber(height) ==> Lookup(e.attributes, "height") == Some(IntToString(height.value))
      ensures Lookup(e.style, "height").Some? <==> KeptLength(height)
      ensures KeptLength(height) ==> Lookup(e.style, "height") == Some(IntToString(height.value) + "px")
      ensures Lookup(e.style, "height").Some? ==> Lookup(e.attributes, "height").Some?
      ensures Lookup(e.style, "maxWidth") == Some("100%")
      ensures |e.attributes| == 1 + (if TruthyText(alt) then 1 else 0)
                + (if TruthyNumber(width) then 1 else 0) + (if TruthyNumber(height) then 1 else 0)
      ensures |e.style| == 1 + (if KeptLength(width) then 1 else 0) + (if KeptLength(height) then 1 else 0)
    {
      DomAttributesLookup(src, alt, width, height, "src");
      DomAttributesLookup(src, alt, width, height, "alt");
      DomAttributesLookup(src, alt, width, height, "width");
      DomAttributesLookup(src, alt, width, height, "height");
      DomStyleLookup(width, height, "width");
      DomStyleLookup(width, height, "height");
      DomStyleLookup(width, height, "maxWidth");
      DomElement("img", DomAttributes(src, alt, width, height), DomStyle(width, height))
    }
  }

  /** `$createImageNode`: a new node carrying the payload unchanged, with no key. */
  method CreateImageNode(p: ImagePayload) returns (n: ImageNode)
    ensures fresh(n)
    ensures n.Payload() == p && n.key == None
  {
    n := new ImageNode(p.src, p.alt, p.width, p.height, None);
  }

  /** Exporting a node to JSON and importing the record gives a node with the same payload. */
  method ExportImport(n: ImageNode) returns (m: ImageNode)
    ensures fresh(m)
    ensures m.Payload() == n.Payload()
  {
    var s := n.ExportJSON();
    m := ImageNode.ImportJSON(s);
  }

  /** Reading a well-tagged record and writing it back gives the same record. */
  lemma ImportExportRecord(s: SerializedImageNode)
    requires s.kind == "image" && s.version == 1
    ensures Serialize(PayloadOf(s)) == s
  {
  }

  // ---------------------------------------------------------------------------
  // The resize handle of `ImageComponent`

  /** `a || b || 100` over a stored size and the rendered size (`None` when the image is not mounted). */
  function StartSize(stored: Option<int>, rendered: Option<int>): (r: int)
    ensures TruthyNumber(stored) ==> r == stored.value
    ensures !TruthyNumber(stored) && TruthyNumber(rendered) ==> r == rendered.value
    ensures !TruthyNumber(stored) && !TruthyNumber(rendered) ==> r == 100
    ensures r != 0
  {
    if TruthyNumber(stored) then stored.value
    else if TruthyNumber(rendered) then rendered.value
    else 100
  }

  function Max(a: int, b: int): (m: int)
    ensures m >= a && m >= b && (m == a || m == b)
  {
    if a >= b then a else b
  }

  /** What one `mousedown` captures: the pointer position and the size at that moment. */
  datatype Drag = Drag(startX: int, startY: int, startWidth: int, startHeight: int)

  /** The size a move to (`x`, `y`) gives under one drag: never below 20 pixels either way. */
  function Resized(d: Drag, x: int, y: int): (r: (int, int))
    ensures r.0 >= 20 && r.1 >= 20
    ensures r.0 >= d.startWidth + (x - d.startX) && r.1 >= d.startHeight + (y - d.startY)
    ensures r.0 == 20 || r.0 == d.startWidth + (x - d.startX)
    ensures r.1 == 20 || r.1 == d.startHeight + (y - d.startY)
  {
    (Max(20, d.startWidth + (x - d.startX)), Max(20, d.startHeight + (y - d.startY)))
  }

  /** The sizes each active drag reports for one move, in the order the listeners were added. */
  function ResizedAll(drags: seq<Drag>, x: int, y: int): (r: seq<(int, int)>)
    ensures |r| == |drags|
    ensures forall k :: 0 <= k < |r| ==> r[k] == Resized(drags[k], x, y)
  {
    seq(|drags|, k requires 0 <= k < |drags| => Resized(drags[k], x, y))
  }

  /**
    `ImageComponent`: `size` is its state; `drags` are the `mousemove`
    listeners `handleMouseDown` has left on the window (each with what it
    captured), which `mouseup` removes; `resizes` records the `onResize` calls.
  */
  class ImageComponent {
    var width: Option<int>
    var height: Option<int>
    const hasOnResize: bool
    var drags: seq<Drag>
    var resizes: seq<(int, int)>

    constructor(width: Option<int>, height: Option<int>, hasOnResize: bool)
      ensures this.width == width && this.height == height && this.hasOnResize == hasOnResize
      ensures drags == [] && resizes == []
    {
      this.width := width;
      this.height := height;
      this.hasOnResize := hasOnResize;
      drags := [];
      resizes := [];
    }

    /** `handleMouseDown`: the starting size falls back from the state, to the rendered size, to 100. */
    method MouseDown(x: int, y: int, renderedWidth: Option<int>, renderedHeight: Option<int>)
      modifies this
      ensures drags == old(drags) + [Drag(x, y, StartSize(width, renderedWidth), StartSize(height, renderedHeight))]
      ensures width == old(width) && height == old(height) && resizes == old(resizes)
    {
      drags := drags + [Drag(x, y, StartSize(width, renderedWidth), StartSize(height, renderedHeight))];
    }

    /** A `mousemove`: each listener in turn sets the size and reports it; the last one's size stays. */
    method MouseMove(x: int, y: int)
      modifies this
      ensures drags == old(drags)
      ensures resizes == old(resizes) + (if hasOnResize then ResizedAll(drags, x, y) else [])
      ensures drags == [] ==> width == old(width) && height == old(height)
      ensures drags != [] ==>
                var last := Resized(drags[|drags| - 1], x, y);
                width == Some(last.0) && height == Some(last.1)
      ensures drags != [] ==> width.value >= 20 && height.value >= 20
    {
      var i := 0;
      while i < |drags|
        invariant 0 <= i <= |drags|
        invariant drags == old(drags)
        invariant resizes == old(resizes) + (if hasOnResize then ResizedAll(drags[..i], x, y) else [])
        invariant i == 0 ==> width == old(width) && height == old(height)
        invariant i > 0 ==>
                    var last := Resized(drags[i - 1], x, y);
                    width == Some(last.0) && height == Some(last.1)
      {
        var r := Resized(drags[i], x, y);
        width, height := Some(r.0), Some(r.1);
        if hasOnResize {
          assert ResizedAll(drags[..i + 1], x, y) == ResizedAll(drags[..i], x, y) + [r];
          resizes := resizes + [r];
        }
        i := i + 1;
      }
      assert drags[..i] == drags;
    }

    /** A `mouseup`: every listener pair removes itself. */
    method MouseUp()
      modifies this
      ensures drags == []
      ensures width == old(width) && height == old(height) && resizes == old(resizes)
    {
      drags := [];
    }
  }
}
