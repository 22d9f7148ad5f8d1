/** The dict-to-XML mapping of the order document: `@key` entries become
    attributes, `#text` the element's text, a dict one namespaced child, a
    list repeated children with the same tag and a scalar a child holding
    its text. Elements are values; text serialisation and schema
    validation belong to the XML libraries and are not modelled. */
module XmlGen {
  import opened PyCore
  import opened Template

  const NS: string := "http://epgu.gosuslugi.ru/elk/status/1.0.2"
  const ROOT_TAG: string := "ElkOrderRequest"
  const XML_ERROR: Error := Raised("Error creating XML file")
  const NO_SCHEMA: string := "XSD schema not loaded"

  datatype XElem = XElem(tag: string, attrs: map<string, string>, text: Option<string>, children: seq<XElem>)

  /** The Clark-notation name of `tag` in the order namespace. */
  function Qualified(tag: string): (q: string)
    ensures StartsWith(q, "{" + NS + "}") && q[|NS| + 2..] == tag
  {
    "{" + NS + "}" + tag
  }

  /** The attributes after setting each pair in turn to `str(value)`. */
  function SetAttrs(attrs: map<string, string>, pairs: seq<(string, Value)>): (r: map<string, string>)
    ensures forall k :: k in r <==> k in attrs || exists i :: 0 <= i < |pairs| && pairs[i].0 == k
    ensures pairs != [] ==> r[pairs[|pairs| - 1].0] == PyStr(pairs[|pairs| - 1].1)
  {
    if pairs == [] then attrs
    else
      var pre := pairs[..|pairs| - 1];
      var r := SetAttrs(attrs, pre)[pairs[|pairs| - 1].0 := PyStr(pairs[|pairs| - 1].1)];
      assert forall i :: 0 <= i < |pre| ==> pre[i] == pairs[i];
      r
  }

  /** `_create_element_with_ns`: a childless namespaced element, with the
      given text and every attribute set to the text of its value. */
  method CreateElementWithNs(tag: string, text: Option<string>, attributes: seq<(string, Value)>) returns (e: XElem)
    ensures e == XElem(Qualified(tag), SetAttrs(map[], attributes), text, [])
  {
    e := XElem(Qualified(tag), map[], None, []);
    if text.Some? {
      e := e.(text := text);
    }
    var i := 0;
    while i < |attributes|
      invariant 0 <= i <= |attributes|
      invariant e == XElem(Qualified(tag), SetAttrs(map[], attributes[..i]), text, [])
    {
      SetAttrsStep(attributes, i);
      e := e.(attrs := e.attrs[attributes[i].0 := PyStr(attributes[i].1)]);
      i := i + 1;
    }
    assert attributes[..i] == attributes;
  }

  /** Setting one more pair sets its key over what the earlier pairs set. */
  lemma SetAttrsStep(pairs: seq<(string, Value)>, i: nat)
    requires i < |pairs|
    ensures SetAttrs(map[], pairs[..i + 1]) == SetAttrs(map[], pairs[..i])[pairs[i].0 := PyStr(pairs[i].1)]
  {
    assert pairs[..i + 1][..i] == pairs[..i];
  }

  /** The element `_create_element_with_ns` builds with no attributes. */
  function NewElement(tag: string, text: Option<string>): XElem
  {
    XElem(Qualified(tag), map[], text, [])
  }

  /** `str(value)`: defined here for scalars only; the text Python gives a
      list, a dict or a template object is not part of this model. */
  function Text(n: Node): (r: Result<string>)
    ensures r.Ok? <==> n.Leaf?
    ensures n.Leaf? ==> r.value == PyStr(n.v)
  {
    if n.Leaf? then Ok(PyStr(n.v)) else Err(Unsupported("str() of a container"))
  }

  // ------------------------------------------------------ _dict_to_xml

  /** `_dict_to_xml(parent, dict(es))`: the parent after every entry in order. */
  function AddEntries(p: XElem, es: seq<Entry>): Result<XElem>
    decreases es, 1
  {
    if es == [] then Ok(p)
    else
      var q :- AddEntries(p, es[..|es| - 1]);
      AddEntry(q, es[|es| - 1])
  }

  /** One key of `_dict_to_xml`. */
  function AddEntry(p: XElem, e: Entry): Result<XElem>
    decreases e, 0
  {
    if StartsWith(e.key, "@") then
      var s :- Text(e.val);
      Ok(p.(attrs := p.attrs[e.key[1..] := s]))
    else if e.key == "#text" then
      var s :- Text(e.val);
      Ok(p.(text := Some(s)))
    else match e.val
      case Dict(es) =>
        var c :- AddEntries(NewElement(e.key, None), es);
        Ok(p.(children := p.children + [c]))
      case List(items) => AddItems(p, e.key, items)
      case _ =>
        var s :- Text(e.val);
        Ok(p.(children := p.children + [NewElement(e.key, Some(s))]))
  }

  /** The items of a list value, each a child named `key`. */
  function AddItems(p: XElem, key: string, items: seq<Node>): Result<XElem>
    decreases items, 1
  {
    if items == [] then Ok(p)
    else
      var q :- AddItems(p, key, items[..|items| - 1]);
      var item := items[|items| - 1];
      if item.Dict? then
        var c :- AddEntries(NewElement(key, None), item.entries);
        Ok(q.(children := q.children + [c]))
      else
        var s :- Text(item);
        Ok(q.(children := q.children + [NewElement(key, Some(s))]))
  }

  /** A failure part-way through stops the whole conversion with that failure. */
  lemma {:induction false} AddEntriesStops(p: XElem, es: seq<Entry>, k: nat)
    requires k <= |es| && AddEntries(p, es[..k]).Err?
    ensures AddEntries(p, es) == AddEntries(p, es[..k])
    decreases |es| - k
  {
    if k < |es| {
      assert es[..k + 1][..k] == es[..k];
      AddEntriesStops(p, es, k + 1);
    } else {
      assert es[..k] == es;
    }
  }

  lemma {:induction false} AddItemsStops(p: XElem, key: string, items: seq<Node>, k: nat)
    requires k <= |items| && AddItems(p, key, items[..k]).Err?
    ensures AddItems(p, key, items) == AddItems(p, key, items[..k])
    decreases |items| - k
  {
    if k < |items| {
      assert items[..k + 1][..k] == items[..k];
      AddItemsStops(p, key, items, k + 1);
    } else {
      assert items[..k] == items;
    }
  }

  /** `_dict_to_xml`, with its loops over the keys and over each list,
      changing the parent element step by step. */
  method DictToXml(parent: XElem, data: seq<Entry>) returns (r: Result<XElem>)
    ensures r == AddEntries(parent, data)
    decreases data
  {
    var p := parent;
    var i := 0;
    assert data[..0] == [];
    while i < |data|
      invariant 0 <= i <= |data|
      invariant AddEntries(parent, data[..i]) == Ok(p)
    {
      var key := data[i].key;
      var value := data[i].val;
      assert data[..i + 1][..i] == data[..i] && data[..i + 1][i] == data[i];
      assert AddEntries(parent, data[..i + 1]) == AddEntry(p, data[i]);
      if StartsWith(key, "@") {
        if !value.Leaf? {
          AddEntriesStops(parent, data, i + 1);
          return Err(Unsupported("str() of a container"));
        }
        p := p.(attrs := p.attrs[key[1..] := PyStr(value.v)]);
      } else if key == "#text" {
        if !value.Leaf? {
          AddEntriesStops(parent, data, i + 1);
          return Err(Unsupported("str() of a container"));
        }
        p := p.(text := Some(PyStr(value.v)));
      } else if value.Dict? {
        assert data[i] in data;
        var child := DictToXml(NewElement(key, None), value.entries);
        if child.Err? {
          AddEntriesStops(parent, data, i + 1);
          return child;
        }
        p := p.(children := p.children + [child.value]);
      } else if value.List? {
        var q := p;
        var j := 0;
        assert value.items[..0] == [];
        while j < |value.items|
          invariant 0 <= j <= |value.items|
          invariant AddItems(p, key, value.items[..j]) == Ok(q)
        {
          var item := value.items[j];
          assert value.items[..j + 1][..j] == value.items[..j] && value.items[..j + 1][j] == item;
          if item.Dict? {
            assert data[i] in data && item in value.items;
            var child := DictToXml(NewElement(key, None), item.entries);
            if child.Err? {
              AddItemsStops(p, key, value.items, j + 1);
              AddEntriesStops(parent, data, i + 1);
              return child;
            }
            q := q.(children := q.children + [child.value]);
          } else {
            if !item.Leaf? {
              AddItemsStops(p, key, value.items, j + 1);
              AddEntriesStops(parent, data, i + 1);
              return Err(Unsupported("str() of a container"));
            }
            q := q.(children := q.children + [NewElement(key, Some(PyStr(item.v)))]);
          }
          j := j + 1;
        }
        assert value.items[..j] == value.items;
        p := q;
      } else {
        if !value.Leaf? {
          AddEntriesStops(parent, data, i + 1);
          return Err(Unsupported("str() of a container"));
        }
        p := p.(children := p.children + [NewElement(key, Some(PyStr(value.v)))]);
      }
      i := i + 1;
    }
    assert data[..i] == data;
    return Ok(p);
  }

  /** `json_to_xml` up to the text serialisation: the tree under a root
      element, or the one error it reports for any failure. */
  function JsonToXmlTree(json: Node, rootTag: string): (r: Result<XElem>)
    ensures r.Err? ==> r.error == XML_ERROR
    ensures r.Ok? ==> json.Dict? && r.value.tag == Qualified(rootTag)
  {
    if !json.Dict? then Err(XML_ERROR)
    else match AddEntries(NewElement(rootTag, None), json.entries)
      case Ok(e) => AddEntriesKeepsTag(NewElement(rootTag, None), json.entries); Ok(e)
      case Err(_) => Err(XML_ERROR)
  }

  method JsonToXml(json: Node, rootTag: string) returns (r: Result<XElem>)
    ensures r == JsonToXmlTree(json, rootTag)
  {
    if !json.Dict? {
      return Err(XML_ERROR);
    }
    var root := CreateElementWithNs(rootTag, None, []);
    var t := DictToXml(root, json.entries);
    if t.Err? {
      return Err(XML_ERROR);
    }
    return t;
  }

  // ------------------------------------------------------- validate_xml

  /** What `validate_xml` returns. */
  datatype Validation = Validation(valid: bool, message: Option<string>, errors: seq<string>)

  /** The schema check of the XML library, abstracted. */
  type SchemaCheck = string -> Validation

  /** `validate_xml`: without a loaded schema, never valid. */
  function ValidateXml(schema: Option<SchemaCheck>, xml: string): (r: Validation)
    ensures schema.None? ==> !r.valid && r.errors == [NO_SCHEMA] && r.message.None?
  {
    match schema
    case None => Validation(false, None, [NO_SCHEMA])
    case Some(check) => check(xml)
  }

  // ---------------------------------------------------------- properties

  /** None of the entry steps renames the parent. */
  lemma {:induction false} AddEntriesKeepsTag(p: XElem, es: seq<Entry>)
    requires AddEntries(p, es).Ok?
    ensures AddEntries(p, es).value.tag == p.tag
    ensures |p.children| <= |AddEntries(p, es).value.children|
    ensures AddEntries(p, es).value.children[..|p.children|] == p.children
    decreases es, 1
  {
    if es != [] {
      AddEntriesKeepsTag(p, es[..|es| - 1]);
      var q := AddEntries(p, es[..|es| - 1]).value;
      AddEntryKeepsTag(q, es[|es| - 1]);
      var r := AddEntries(p, es).value;
      assert r.children[..|p.children|] == q.children[..|q.children|][..|p.children|];
    }
  }

  lemma {:induction false} AddEntryKeepsTag(p: XElem, e: Entry)
    requires AddEntry(p, e).Ok?
    ensures AddEntry(p, e).value.tag == p.tag
    ensures |p.children| <= |AddEntry(p, e).value.children|
    ensures AddEntry(p, e).value.children[..|p.children|] == p.children
    decreases e, 0
  {
    if !StartsWith(e.key, "@") && e.key != "#text" && e.val.List? {
      AddItemsKeepsTag(p, e.key, e.val.items);
    }
  }

  lemma {:induction false} AddItemsKeepsTag(p: XElem, key: string, items: seq<Node>)
    requires AddItems(p, key, items).Ok?
    ensures AddItems(p, key, items).value.tag == p.tag
    ensures |p.children| <= |AddItems(p, key, items).value.children|
    ensures AddItems(p, key, items).value.children[..|p.children|] == p.children
    decreases items, 1
  {
    if items != [] {
      AddItemsKeepsTag(p, key, items[..|items| - 1]);
      var q := AddItems(p, key, items[..|items| - 1]).value;
      var r := AddItems(p, key, items).value;
      assert r.children[..|q.children|] == q.children;
      assert r.children[..|p.children|] == q.children[..|q.children|][..|p.children|];
    }
  }

  /** Keys are handled in order: converting `a + b` converts `a`, then `b`. */
  lemma {:induction false} AddEntriesAppend(p: XElem, a: seq<Entry>, b: seq<Entry>)
    ensures AddEntries(p, a + b) == (var q :- AddEntries(p, a); AddEntries(q, b))
    decreases |b|
  {
    if b == [] {
      assert a + b == a;
    } else {
      assert (a + b)[..|a + b| - 1] == a + b[..|b| - 1];
      assert (a + b)[|a + b| - 1] == b[|b| - 1];
      AddEntriesAppend(p, a, b[..|b| - 1]);
    }
  }

  /** How many children one entry adds: none for an attribute or the text,
      one for a dict or a scalar, one per item for a list. */
  function Emits(e: Entry): nat
  {
    if StartsWith(e.key, "@") || e.key == "#text" then 0
    else if e.val.List? then |e.val.items|
    else 1
  }

  function EmitsAll(es: seq<Entry>): nat
  {
    if es == [] then 0 else EmitsAll(es[..|es| - 1]) + Emits(es[|es| - 1])
  }

  lemma {:induction false} AddItemsCount(p: XElem, key: string, items: seq<Node>)
    requires AddItems(p, key, items).Ok?
    ensures |AddItems(p, key, items).value.children| == |p.children| + |items|
    ensures forall i :: |p.children| <= i < |p.children| + |items| ==>
              AddItems(p, key, items).value.children[i].tag == Qualified(key)
    decreases items
  {
    if items != [] {
      AddItemsCount(p, key, items[..|items| - 1]);
      var item := items[|items| - 1];
      if item.Dict? {
        AddEntriesKeepsTag(NewElement(key, None), item.entries);
      }
    }
  }

  /** The children a dict yields: exactly the emitted count, appended after
      the parent's own. */
  lemma {:induction false} AddEntriesCount(p: XElem, es: seq<Entry>)
    requires AddEntries(p, es).Ok?
    ensures |AddEntries(p, es).value.children| == |p.children| + EmitsAll(es)
    decreases es
  {
    if es != [] {
      AddEntriesCount(p, es[..|es| - 1]);
      var q := AddEntries(p, es[..|es| - 1]).value;
      var e := es[|es| - 1];
      if !StartsWith(e.key, "@") && e.key != "#text" && e.val.List? {
        AddItemsCount(q, e.key, e.val.items);
      }
    }
  }

  /** An attribute entry sets the attribute `key[1:]` and adds no child. */
  lemma AttributeEntry(p: XElem, name: string, v: Value)
    ensures AddEntry(p, Entry("@" + name, Leaf(v)))
         == Ok(p.(attrs := p.attrs[name := PyStr(v)]))
  {
    var k := "@" + name;
    assert StartsWith(k, "@") && k[1..] == name;
  }

  /** A scalar entry adds one child named after the key and holding the text. */
  lemma ScalarEntry(p: XElem, key: string, v: Value)
    requires !StartsWith(key, "@") && key != "#text"
    ensures AddEntry(p, Entry(key, Leaf(v)))
         == Ok(p.(children := p.children + [XElem(Qualified(key), map[], Some(PyStr(v)), [])]))
  {
  }

  /** Every element tag the mapping builds is in the order namespace. */
  predicate Namespaced(e: XElem)
    decreases e
  {
    StartsWith(e.tag, "{" + NS + "}") && forall c :: c in e.children ==> Namespaced(c)
  }

  lemma {:induction false} AddEntriesNamespaced(p: XElem, es: seq<Entry>)
    requires Namespaced(p) && AddEntries(p, es).Ok?
    ensures Namespaced(AddEntries(p, es).value)
    decreases es, 1
  {
    if es != [] {
      AddEntriesNamespaced(p, es[..|es| - 1]);
      AddEntryNamespaced(AddEntries(p, es[..|es| - 1]).value, es[|es| - 1]);
    }
  }

  lemma {:induction false} AddEntryNamespaced(p: XElem, e: Entry)
    requires Namespaced(p) && AddEntry(p, e).Ok?
    ensures Namespaced(AddEntry(p, e).value)
    decreases e, 0
  {
    if StartsWith(e.key, "@") || e.key == "#text" {
    } else if e.val.Dict? {
      var c := AddEntries(NewElement(e.key, None), e.val.entries).value;
      AddEntriesNamespaced(NewElement(e.key, None), e.val.entries);
      ChildrenNamespaced(p, c);
    } else if e.val.List? {
      AddItemsNamespaced(p, e.key, e.val.items);
    } else {
      ChildrenNamespaced(p, NewElement(e.key, Some(Text(e.val).value)));
    }
  }

  lemma {:induction false} AddItemsNamespaced(p: XElem, key: string, items: seq<Node>)
    requires Namespaced(p) && AddItems(p, key, items).Ok?
    ensures Namespaced(AddItems(p, key, items).value)
    decreases items, 1
  {
    if items != [] {
      AddItemsNamespaced(p, key, items[..|items| - 1]);
      var q := AddItems(p, key, items[..|items| - 1]).value;
      var item := items[|items| - 1];
      if item.Dict? {
        AddEntriesNamespaced(NewElement(key, None), item.entries);
        ChildrenNamespaced(q, AddEntries(NewElement(key, None), item.entries).value);
      } else {
        ChildrenNamespaced(q, NewElement(key, Some(Text(item).value)));
      }
    }
  }

  lemma ChildrenNamespaced(p: XElem, c: XElem)
    requires Namespaced(p) && Namespaced(c)
    ensures Namespaced(p.(children := p.children + [c]))
  {
    var q := p.(children := p.children + [c]);
    forall d | d in q.children
      ensures Namespaced(d)
    {
      if d != c {
        assert d in p.children;
      }
    }
  }

  /** The order document is a namespaced tree under `ElkOrderRequest`. */
  lemma JsonToXmlNamespaced(json: Node)
    requires JsonToXmlTree(json, ROOT_TAG).Ok?
    ensures Namespaced(JsonToXmlTree(json, ROOT_TAG).value)
    ensures JsonToXmlTree(json, ROOT_TAG).value.tag == Qualified(ROOT_TAG)
  {
    AddEntriesNamespaced(NewElement(ROOT_TAG, None), json.entries);
  }
}
