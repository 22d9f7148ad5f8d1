/** The template evaluation engine. A template is a JSON-like tree in which
    two marker dicts stand for computed parts: a *field*
    (`_DataTemplateElement_`), whose value comes from a chain of database
    lookups, and a *conditional* (`_ConditionalElement_`), which keeps its
    sub-tree only when a condition on a lookup chain holds. The tree is first
    converted (marker dicts become nodes), then filled for one record key. */
module Template {
  import opened PyCore
  import DbConnector

  // ---------------------------------------------------------------- data model

  /** One lookup step (`DataTemplateHowToElement`); a `Null` field is absent. */
  datatype HowTo = HowTo(table: Value, column: Value, conditionColumn: Value, after: Value)

  /** A dict entry, in insertion order. */
  datatype Entry = Entry(key: string, val: Node)

  /** The single condition a conditional keeps. */
  datatype Condition =
    | Equal(expected: Node)
    | ValuesIn(collection: Node)
    | EmptyIs(flag: Node)

  /** A template tree: plain JSON (`Leaf`, `List`, `Dict`) and, once converted,
      the two computed node kinds. */
  datatype Node =
    | Leaf(v: Value)
    | List(items: seq<Node>)
    | Dict(entries: seq<Entry>)
    | Element(example: Node, howto: seq<HowTo>)
    | Conditional(howto: seq<HowTo>, condition: Condition, result: Node)

  const ELEMENT_MARKER: string := "_DataTemplateElement_"
  const CONDITIONAL_MARKER: string := "_ConditionalElement_"

  // ---------------------------------------------------------- dict primitives

  predicate HasKey(es: seq<Entry>, k: string)
  {
    exists i :: 0 <= i < |es| && es[i].key == k
  }

  /** The position of the first entry with key `k`. */
  function FindKey(es: seq<Entry>, k: string): (r: Option<nat>)
    ensures r.Some? ==> r.value < |es| && es[r.value].key == k
    ensures r.None? <==> !HasKey(es, k)
  {
    if es == [] then None
    else if es[0].key == k then Some(0)
    else
      match FindKey(es[1..], k)
      case None =>
        assert forall i :: 1 <= i < |es| ==> es[i] == es[1..][i - 1];
        None
      case Some(j) => Some(j + 1)
  }

  /** `obj.get(k, None)`. */
  function GetOrNone(es: seq<Entry>, k: string): Node
  {
    match FindKey(es, k)
    case None => Leaf(Null)
    case Some(i) => es[i].val
  }

  /** `obj[k]` on a dict. */
  function Get(es: seq<Entry>, k: string): (r: Result<Node>)
    ensures r.Ok? <==> HasKey(es, k)
    ensures r.Ok? ==> r.value == GetOrNone(es, k)
    ensures r.Err? ==> r.error == KeyError(k)
  {
    match FindKey(es, k)
    case None => Err(KeyError(k))
    case Some(i) => Ok(es[i].val)
  }

  /** The optional value stored under `k`, absent when the key is missing. */
  function GetOption(es: seq<Entry>, k: string): (r: Option<Node>)
    ensures r.Some? <==> HasKey(es, k)
    ensures r.Some? ==> r.value == GetOrNone(es, k)
  {
    match FindKey(es, k)
    case None => None
    case Some(i) => Some(es[i].val)
  }

  // ------------------------------------------------------- lookup steps as dicts

  /** `type(n).__name__` of a node. */
  function NodeTypeName(n: Node): string
  {
    match n
    case Leaf(v) => TypeName(v)
    case List(_) => "list"
    case Dict(_) => "dict"
    case Element(_, _) => "DataTemplateElement"
    case Conditional(_, _, _) => "ConditionalElement"
  }

  /** The TypeError `n[k]` raises for a string key `k` when `n` is not a dict. */
  function SubscriptError(n: Node): (e: Error)
    requires !n.Dict?
    ensures e.TypeError?
  {
    match n
    case List(_) => TypeError("list indices must be integers or slices, not str")
    case Leaf(Str(_)) => TypeError("string indices must be integers, not 'str'")
    case _ => TypeError("'" + NodeTypeName(n) + "' object is not subscriptable")
  }

  /** The TypeError `for x in n` raises when `n` cannot be iterated. */
  function IterError(n: Node): Error
  {
    TypeError("'" + NodeTypeName(n) + "' object is not iterable")
  }

  /** A step field's value; the model keeps only scalar fields. */
  function ScalarField(n: Node): (r: Result<Value>)
    ensures r.Ok? <==> n.Leaf?
    ensures r.Ok? ==> r.value == n.v
  {
    if n.Leaf? then Ok(n.v) else Err(Unsupported("non-scalar lookup field"))
  }

  /** `DataTemplateHowToElement.from_dict`: the two names are required, the
      other two default to `None`. */
  function HowToFromDict(obj: Node): Result<HowTo>
  {
    if !obj.Dict? then Err(SubscriptError(obj))
    else
      var t :- Get(obj.entries, "table_name");
      var c :- Get(obj.entries, "column_name");
      var table :- ScalarField(t);
      var column :- ScalarField(c);
      var conditionColumn :- ScalarField(GetOrNone(obj.entries, "condition_column"));
      var after :- ScalarField(GetOrNone(obj.entries, "after"));
      Ok(HowTo(table, column, conditionColumn, after))
  }

  /** A step is read from a dict that holds both names, each field taken
      from its key or `None`; a missing name raises `KeyError`. */
  lemma HowToFromDictMeaning(obj: Node)
    ensures !obj.Dict? ==> HowToFromDict(obj) == Err(SubscriptError(obj))
    ensures obj.Dict? && !HasKey(obj.entries, "table_name") ==> HowToFromDict(obj) == Err(KeyError("table_name"))
    ensures obj.Dict? && HasKey(obj.entries, "table_name") && !HasKey(obj.entries, "column_name")
            ==> HowToFromDict(obj) == Err(KeyError("column_name"))
    ensures HowToFromDict(obj).Ok? ==> obj.Dict?
    ensures HowToFromDict(obj).Ok? ==>
              var h := HowToFromDict(obj).value;
              && Leaf(h.table) == GetOrNone(obj.entries, "table_name")
              && Leaf(h.column) == GetOrNone(obj.entries, "column_name")
              && Leaf(h.conditionColumn) == GetOrNone(obj.entries, "condition_column")
              && Leaf(h.after) == GetOrNone(obj.entries, "after")
  {
  }

  /** The entry for one step field, or nothing when the field is `None`. */
  function Present(k: string, v: Value): (r: seq<Entry>)
    ensures |r| <= 1 && forall i :: 0 <= i < |r| ==> r[i] == Entry(k, Leaf(v))
  {
    if v == Null then [] else [Entry(k, Leaf(v))]
  }

  /** `es` holds `v` under `k`, and holds the key at all exactly when `v` is not `None`. */
  predicate Carries(es: seq<Entry>, k: string, v: Value)
  {
    (HasKey(es, k) <==> v != Null) && GetOrNone(es, k) == Leaf(v)
  }

  /** The present fields of a step, in the order `to_dict` lists them. */
  function StepEntries(h: HowTo): seq<Entry>
  {
    Present("table_name", h.table) + Present("column_name", h.column)
    + Present("condition_column", h.conditionColumn) + Present("after", h.after)
  }

  /** `DataTemplateHowToElement.to_dict`. */
  function HowToToDict(h: HowTo): Node
  {
    Dict(StepEntries(h))
  }

  /** A serialised step carries each of its four fields under its own key,
      present exactly when the field is not `None`, and no other key. */
  lemma HowToDictCarries(h: HowTo)
    ensures var r := HowToToDict(h);
            && r.Dict?
            && Carries(r.entries, "table_name", h.table)
            && Carries(r.entries, "column_name", h.column)
            && Carries(r.entries, "condition_column", h.conditionColumn)
            && Carries(r.entries, "after", h.after)
            && forall i :: 0 <= i < |r.entries| ==>
                 r.entries[i].key in {"table_name", "column_name", "condition_column", "after"}
  {
    CarriesTable(h);
    CarriesColumn(h);
    CarriesConditionColumn(h);
    CarriesAfter(h);
    StepEntriesKeys(h);
  }

  lemma StepEntriesKeys(h: HowTo)
    ensures forall i :: 0 <= i < |StepEntries(h)| ==>
              StepEntries(h)[i].key in {"table_name", "column_name", "condition_column", "after"}
  {
    var a := Present("table_name", h.table);
    var b := Present("column_name", h.column);
    var c := Present("condition_column", h.conditionColumn);
    var d := Present("after", h.after);
    var es := a + b + c + d;
    assert es == StepEntries(h);
    forall i | 0 <= i < |es|
      ensures es[i].key in {"table_name", "column_name", "condition_column", "after"}
    {
      if i < |a| {
        assert es[i] == a[i];
      } else if i < |a| + |b| {
        assert es[i] == b[i - |a|];
      } else if i < |a| + |b| + |c| {
        assert es[i] == c[i - |a| - |b|];
      } else {
        assert es[i] == d[i - |a| - |b| - |c|];
      }
    }
  }

  lemma KeysDistinct()
    ensures "table_name" != "column_name" && "table_name" != "condition_column"
    ensures "table_name" != "after" && "column_name" != "after"
    ensures "column_name" != "condition_column" && "condition_column" != "after"
  {
    assert "table_name"[0] != "column_name"[0] && "table_name"[0] != "condition_column"[0];
    assert "table_name"[0] != "after"[0] && "column_name"[0] != "after"[0];
    assert "column_name"[2] != "condition_column"[2] && "condition_column"[0] != "after"[0];
  }

  lemma CarriesTable(h: HowTo)
    ensures Carries(StepEntries(h), "table_name", h.table)
  {
    KeysDistinct();
    var a := Present("table_name", h.table);
    var rest := Present("column_name", h.column) + Present("condition_column", h.conditionColumn)
              + Present("after", h.after);
    CarriesIn([], a, rest, "table_name", h.table);
    assert StepEntries(h) == [] + a + rest;
  }

  lemma CarriesColumn(h: HowTo)
    ensures Carries(StepEntries(h), "column_name", h.column)
  {
    KeysDistinct();
    var a := Present("table_name", h.table);
    var b := Present("column_name", h.column);
    var rest := Present("condition_column", h.conditionColumn) + Present("after", h.after);
    CarriesIn(a, b, rest, "column_name", h.column);
    assert StepEntries(h) == a + b + rest;
  }

  lemma CarriesConditionColumn(h: HowTo)
    ensures Carries(StepEntries(h), "condition_column", h.conditionColumn)
  {
    KeysDistinct();
    var pre := Present("table_name", h.table) + Present("column_name", h.column);
    var c := Present("condition_column", h.conditionColumn);
    CarriesIn(pre, c, Present("after", h.after), "condition_column", h.conditionColumn);
  }

  lemma CarriesAfter(h: HowTo)
    ensures Carries(StepEntries(h), "after", h.after)
  {
    KeysDistinct();
    var pre := Present("table_name", h.table) + Present("column_name", h.column)
             + Present("condition_column", h.conditionColumn);
    var d := Present("after", h.after);
    CarriesIn(pre, d, [], "after", h.after);
    assert StepEntries(h) == pre + d + [];
  }

  /** The one field entry in the middle of a run of other-keyed entries is what a lookup finds. */
  lemma CarriesIn(pre: seq<Entry>, mid: seq<Entry>, post: seq<Entry>, k: string, v: Value)
    requires mid == Present(k, v)
    requires forall i :: 0 <= i < |pre| ==> pre[i].key != k
    requires forall i :: 0 <= i < |post| ==> post[i].key != k
    ensures Carries(pre + mid + post, k, v)
  {
    var es := pre + mid + post;
    if v == Null {
      assert es == pre + post;
      assert !HasKey(es, k) by {
        forall i | 0 <= i < |es| ensures es[i].key != k {
          if i < |pre| { assert es[i] == pre[i]; } else { assert es[i] == post[i - |pre|]; }
        }
      }
    } else {
      assert es[|pre|] == Entry(k, Leaf(v));
      var f := FindKey(es, k);
      assert f.Some?;
      FirstKey(pre, mid + post, k);
      assert es == pre + (mid + post);
    }
  }

  /** A key missing from a prefix is found where the rest starts to hold it. */
  lemma {:induction false} FirstKey(pre: seq<Entry>, rest: seq<Entry>, k: string)
    requires forall i :: 0 <= i < |pre| ==> pre[i].key != k
    requires rest != [] && rest[0].key == k
    ensures FindKey(pre + rest, k) == Some(|pre|)
    decreases |pre|
  {
    if pre != [] {
      assert (pre + rest)[1..] == pre[1..] + rest;
      FirstKey(pre[1..], rest, k);
    }
  }

  /** `from_dict(to_dict(e))` gives `e` back exactly when the two required
      names are present; a step with no table or no column name serialises
      to a dict `from_dict` refuses. */
  lemma HowToRoundTrip(h: HowTo)
    ensures HowToFromDict(HowToToDict(h)).Ok? <==> h.table != Null && h.column != Null
    ensures HowToFromDict(HowToToDict(h)).Ok? ==> HowToFromDict(HowToToDict(h)).value == h
  {
    HowToDictCarries(h);
    HowToFromDictMeaning(HowToToDict(h));
  }

  /** The step list of a field or conditional: every item converted in order;
      an empty dict or empty string iterates to no steps. */
  function HowToList(n: Node): (r: Result<seq<HowTo>>)
    ensures n.List? ==> r == HowToItems(n.items)
    ensures r.Ok? && !n.List? ==> r.value == []
  {
    match n
    case List(xs) => HowToItems(xs)
    case Dict(es) => if es == [] then Ok([]) else Err(SubscriptError(Leaf(Str(es[0].key))))
    case Leaf(Str(s)) => if s == [] then Ok([]) else Err(SubscriptError(Leaf(Str([s[0]]))))
    case _ => Err(IterError(n))
  }

  /** `[DataTemplateHowToElement.from_dict(h) for h in xs]`. */
  function HowToItems(xs: seq<Node>): Result<seq<HowTo>>
  {
    if xs == [] then Ok([])
    else
      var h :- HowToFromDict(xs[0]);
      var rest :- HowToItems(xs[1..]);
      Ok([h] + rest)
  }

  /** The step list converts exactly when every item does. */
  lemma {:induction false} HowToItemsOk(xs: seq<Node>)
    ensures HowToItems(xs).Ok? <==> forall i :: 0 <= i < |xs| ==> HowToFromDict(xs[i]).Ok?
  {
    if xs != [] {
      HowToItemsOk(xs[1..]);
      if HowToFromDict(xs[0]).Ok? {
        if HowToItems(xs[1..]).Err? {
          var j :| 0 <= j < |xs[1..]| && HowToFromDict(xs[1..][j]).Err?;
          assert xs[1..][j] == xs[j + 1];
        } else {
          forall i | 1 <= i < |xs|
            ensures HowToFromDict(xs[i]).Ok?
          {
            assert xs[i] == xs[1..][i - 1];
          }
        }
      }
    }
  }

  /** A converted step list holds each item's step at the item's position. */
  lemma {:induction false} HowToItemsAt(xs: seq<Node>)
    requires HowToItems(xs).Ok?
    ensures |HowToItems(xs).value| == |xs|
    ensures forall i :: 0 <= i < |xs| ==> HowToFromDict(xs[i]) == Ok(HowToItems(xs).value[i])
  {
    if xs != [] {
      HowToItemsAt(xs[1..]);
      var rest := HowToItems(xs[1..]).value;
      var hs := HowToItems(xs).value;
      assert hs == [HowToFromDict(xs[0]).value] + rest;
      forall i | 1 <= i < |xs|
        ensures HowToFromDict(xs[i]) == Ok(hs[i])
      {
        assert xs[i] == xs[1..][i - 1] && hs[i] == rest[i - 1];
      }
    }
  }

  /** `[h.to_dict() for h in hs]`. */
  function HowTosToDict(hs: seq<HowTo>): (r: seq<Node>)
    ensures |r| == |hs| && forall i :: 0 <= i < |hs| ==> r[i] == HowToToDict(hs[i])
  {
    if hs == [] then [] else [HowToToDict(hs[0])] + HowTosToDict(hs[1..])
  }

  /** Every step names its table and its column. */
  predicate StepsComplete(hs: seq<HowTo>)
  {
    forall i :: 0 <= i < |hs| ==> hs[i].table != Null && hs[i].column != Null
  }

  lemma StepsRoundTrip(hs: seq<HowTo>)
    requires StepsComplete(hs)
    ensures HowToList(List(HowTosToDict(hs))) == Ok(hs)
  {
    var xs := HowTosToDict(hs);
    forall i | 0 <= i < |hs| ensures HowToFromDict(xs[i]) == Ok(hs[i]) {
      HowToRoundTrip(hs[i]);
    }
    var r := HowToItems(xs);
    HowToItemsOk(xs);
    HowToItemsAt(xs);
    assert HowToList(List(xs)) == r;
    assert r.Ok?;
    assert |r.value| == |hs|;
    forall i | 0 <= i < |hs| ensures r.value[i] == hs[i] {
      assert HowToFromDict(xs[i]) == Ok(r.value[i]);
    }
    assert r.value == hs;
  }

  // ------------------------------------------------------- evaluating a step

  /** The database probe: the value in `column` of `table` in the first row
      whose `keyColumn` has the text `keyText`. `None` means no row came back;
      `Some(Null)` a row whose value is NULL. */
  type Lookup = (string, string, string, string) -> Option<Value>

  /** The `after` expression applied to a fetched value; `None` means it raised. */
  type Transform = (string, Value) -> Option<Value>

  /** The connector (absent when the template is filled without one) and the
      interpretation of `after` expressions. */
  datatype Env = Env(db: Option<Lookup>, apply: Transform)

  /** The column a step matches its key against. */
  function KeyColumn(h: HowTo): (c: string)
    ensures h.conditionColumn != Null ==> c == PyStr(h.conditionColumn)
    ensures h.conditionColumn == Null ==> c == DbConnector.INDEX_COLUMN
  {
    if h.conditionColumn != Null then PyStr(h.conditionColumn) else DbConnector.INDEX_COLUMN
  }

  /** What one probe of step `h` returns for key `key`. */
  function Probe(h: HowTo, db: Lookup, key: Value): Option<Value>
  {
    db(PyStr(h.table), PyStr(h.column), KeyColumn(h), PyStr(key))
  }

  /** `DataTemplateHowToElement.to_value`. */
  function StepValue(h: HowTo, env: Env, key: Value): (r: Result<Value>)
    ensures r.Err? <==> env.db.None?
    ensures r.Err? ==> r.error.AttributeError?
    ensures env.db.Some? && Probe(h, env.db.value, key) in {None, Some(Null)} ==> r == Ok(Null)
    ensures env.db.Some? && h.after == Null && Probe(h, env.db.value, key).Some?
            ==> r == Ok(Probe(h, env.db.value, key).value)
    ensures env.db.Some? && h.after != Null && Probe(h, env.db.value, key).Some?
            && Probe(h, env.db.value, key).value != Null
            ==> var t := env.apply(PyStr(h.after), Probe(h, env.db.value, key).value);
                r == Ok(if t.Some? then t.value else Null)
  {
    if env.db.None? then Err(NoAttribute(Null, if h.conditionColumn == Null then "get_index_column_name" else "fetchall"))
    else
      var fetched := Probe(h, env.db.value, key);
      if fetched.None? || fetched.value == Null then Ok(Null)
      else if h.after == Null then Ok(fetched.value)
      else
        match env.apply(PyStr(h.after), fetched.value)
        case None => Ok(Null)
        case Some(t) => Ok(t)
  }

  /** A step chain: each step's result is the next step's key. */
  function Chain(steps: seq<HowTo>, env: Env, seed: Value): (r: Result<Value>)
    ensures steps == [] ==> r == Ok(seed)
    ensures env.db.Some? ==> r.Ok?
    ensures env.db.None? && steps != [] ==> r.Err?
  {
    if steps == [] then Ok(seed)
    else
      var v :- StepValue(steps[0], env, seed);
      Chain(steps[1..], env, v)
  }

  /** Running two chains one after the other is running their concatenation. */
  lemma {:induction false} ChainAppend(s1: seq<HowTo>, s2: seq<HowTo>, env: Env, seed: Value)
    ensures Chain(s1 + s2, env, seed)
         == (match Chain(s1, env, seed) case Err(e) => Err(e) case Ok(m) => Chain(s2, env, m))
    decreases |s1|
  {
    if s1 == [] {
      assert s1 + s2 == s2;
    } else {
      assert (s1 + s2)[0] == s1[0];
      assert (s1 + s2)[1..] == s1[1..] + s2;
      match StepValue(s1[0], env, seed)
      case Err(_) =>
      case Ok(v) => ChainAppend(s1[1..], s2, env, v);
    }
  }

  /** A chain does not stop at a miss: once step `i` yields nothing, the rest of
      the chain runs from `None`, whose key text is "None". */
  lemma ChainPassesMiss(steps: seq<HowTo>, i: nat, env: Env, seed: Value)
    requires i < |steps|
    requires Chain(steps[..i + 1], env, seed) == Ok(Null)
    ensures Chain(steps, env, seed) == Chain(steps[i + 1..], env, Null)
    ensures PyStr(Null) == "None"
  {
    var front := steps[..i + 1];
    var back := steps[i + 1..];
    assert front + back == steps;
    ChainAppend(front, back, env, seed);
    assert Chain(front, env, seed) == Ok(Null);
    assert Chain(front + back, env, seed) == Chain(back, env, Null);
  }

  // ---------------------------------------------------------------- fields

  /** `DataTemplateElement.to_value`. */
  function ElementValue(example: Node, howto: seq<HowTo>, env: Env, ind: Value): (r: Result<Node>)
    ensures env.db.None? ==> r == Ok(example)
    ensures env.db.Some? && ind == Null ==> r == Err(Raised("DataTemplateElement::to_value got ind=None"))
    ensures env.db.Some? && ind != Null ==> r == Ok(Leaf(Str(PyStr(Chain(howto, env, ind).value))))
    ensures env.db.Some? && ind != Null && Chain(howto, env, ind) == Ok(Null) ==> r == Ok(Leaf(Str("None")))
  {
    if env.db.None? then Ok(example)
    else if ind == Null then Err(Raised("DataTemplateElement::to_value got ind=None"))
    else
      var last := Chain(howto, env, ind).value;
      Ok(Leaf(Str(PyStr(last))))
  }

  /** The loop of `DataTemplateElement.to_value`, threading each step's result into the next. */
  method ElementToValue(n: Node, env: Env, ind: Value) returns (r: Result<Node>)
    requires n.Element?
    ensures r == ElementValue(n.example, n.howto, env, ind)
  {
    if env.db.None? {
      return Ok(n.example);
    }
    if ind == Null {
      return Err(Raised("DataTemplateElement::to_value got ind=None"));
    }
    var last := ind;
    var i := 0;
    while i < |n.howto|
      invariant 0 <= i <= |n.howto|
      invariant Chain(n.howto, env, ind) == Chain(n.howto[i..], env, last)
    {
      assert n.howto[i..][1..] == n.howto[i + 1..];
      last := StepValue(n.howto[i], env, last).value;
      i := i + 1;
    }
    return Ok(Leaf(Str(PyStr(last))));
  }

  // ---------------------------------------------------------------- conditions

  /** Python `value == node` for a scalar value. */
  predicate PyEq(v: Value, n: Node)
  {
    n.Leaf? && ScalarEq(v, n.v)
  }

  /** Python `v in collection`. */
  function Contains(coll: Node, v: Value): (r: Result<bool>)
    ensures coll.List? ==> r == Ok(exists i :: 0 <= i < |coll.items| && PyEq(v, coll.items[i]))
    ensures coll.Dict? ==> r == Ok(v.Str? && HasKey(coll.entries, v.s))
    ensures coll.Leaf? && coll.v.Str? ==> (r.Ok? <==> v.Str?)
    ensures coll.Leaf? && coll.v.Str? && v.Str? ==> r == Ok(IsSubstring(v.s, coll.v.s))
    ensures !coll.List? && !coll.Dict? && !(coll.Leaf? && coll.v.Str?) ==> r.Err? && r.error.TypeError?
  {
    match coll
    case List(xs) => Ok(exists i :: 0 <= i < |xs| && PyEq(v, xs[i]))
    case Dict(es) => Ok(v.Str? && HasKey(es, v.s))
    case Leaf(Str(s)) =>
      if v.Str? then Ok(IsSubstring(v.s, s))
      else Err(TypeError("'in <string>' requires string as left operand, not " + TypeName(v)))
    case _ => Err(TypeError("argument of type '" + NodeTypeName(coll) + "' is not iterable"))
  }

  /** Whether condition `c` holds of the chain's final value. */
  function Holds(c: Condition, v: Value): (r: Result<bool>)
    ensures c.Equal? ==> r == Ok(PyEq(v, c.expected))
    ensures c.ValuesIn? ==> r == Contains(c.collection, v)
    ensures c.EmptyIs? ==> r == Ok(PyEq(Bool(v == Null || v == Str("")), c.flag))
  {
    match c
    case Equal(x) => Ok(PyEq(v, x))
    case ValuesIn(coll) => Contains(coll, v)
    case EmptyIs(flag) => Ok(PyEq(Bool(v == Null || v == Str("")), flag))
  }

  /** Equality is membership in a one-item list. */
  lemma EqualIsSingletonIn(x: Node, v: Value)
    ensures Holds(Equal(x), v) == Holds(ValuesIn(List([x])), v)
  {
    assert (exists i :: 0 <= i < 1 && PyEq(v, [x][i])) <==> PyEq(v, x) by {
      if PyEq(v, x) { assert PyEq(v, [x][0]); }
    }
  }

  /** Of the two flags, exactly one holds: the empty test with `true` holds
      iff the one with `false` does not. Python's `True == 1` makes the
      flag 1 act as `true`; a string flag never holds. */
  lemma EmptyFlags(v: Value, text: string)
    ensures Holds(EmptyIs(Leaf(Bool(true))), v) == Ok(v == Null || v == Str(""))
    ensures Holds(EmptyIs(Leaf(Bool(false))), v) == Ok(!(v == Null || v == Str("")))
    ensures Holds(EmptyIs(Leaf(Int(1))), v) == Holds(EmptyIs(Leaf(Bool(true))), v)
    ensures Holds(EmptyIs(Leaf(Int(0))), v) == Holds(EmptyIs(Leaf(Bool(false))), v)
    ensures Holds(EmptyIs(Leaf(Str(text))), v) == Ok(false)
  {
  }

  /** `ConditionalElement.to_value`: the stored result, unprocessed, when
      the condition holds of the chain's value; nothing otherwise. */
  function ConditionalValue(howto: seq<HowTo>, cond: Condition, result: Node, env: Env, ind: Value)
    : (r: Result<Option<Node>>)
    ensures r.Ok? <==> Chain(howto, env, ind).Ok? && Holds(cond, Chain(howto, env, ind).value).Ok?
    ensures r.Ok? ==> (r.value.Some? <==> Holds(cond, Chain(howto, env, ind).value) == Ok(true))
    ensures r.Ok? && r.value.Some? ==> r.value.value == result
  {
    var last :- Chain(howto, env, ind);
    var met :- Holds(cond, last);
    Ok(if met then Some(result) else None)
  }

  /** The loop of `ConditionalElement.to_value`. */
  method ConditionalToValue(n: Node, env: Env, ind: Value) returns (r: Result<Option<Node>>)
    requires n.Conditional?
    ensures r == ConditionalValue(n.howto, n.condition, n.result, env, ind)
  {
    var last := ind;
    var i := 0;
    while i < |n.howto|
      invariant 0 <= i <= |n.howto|
      invariant Chain(n.howto, env, ind) == Chain(n.howto[i..], env, last)
    {
      assert n.howto[i..][1..] == n.howto[i + 1..];
      var v := StepValue(n.howto[i], env, last);
      if v.Err? {
        return Err(v.error);
      }
      last := v.value;
      i := i + 1;
    }
    var met := Holds(n.condition, last);
    if met.Err? {
      return Err(met.error);
    }
    if met.value {
      return Ok(Some(n.result));
    }
    return Ok(None);
  }

  // ---------------------------------------------------------------- conversion

  /** `DataTemplateElement.from_dict_able`. */
  predicate FromDictAble(n: Node)
  {
    n.Dict? && HasKey(n.entries, ELEMENT_MARKER)
  }

  /** `DataTemplateElement.from_dict`: the example is kept verbatim, the steps converted. */
  function ElementFromDict(obj: Node): (r: Result<Node>)
    ensures obj.Dict? && !HasKey(obj.entries, ELEMENT_MARKER) ==> r == Err(KeyError(ELEMENT_MARKER))
    ensures r.Ok? ==> r.value.Element? && FromDictAble(obj)
    ensures r.Ok? ==> var inner := GetOrNone(obj.entries, ELEMENT_MARKER);
                      inner.Dict? && r.value.example == GetOrNone(inner.entries, "example")
                      && HowToList(GetOrNone(inner.entries, "howto")) == Ok(r.value.howto)
  {
    if !obj.Dict? then Err(SubscriptError(obj))
    else
      var inner :- Get(obj.entries, ELEMENT_MARKER);
      if !inner.Dict? then Err(SubscriptError(inner))
      else
        var example :- Get(inner.entries, "example");
        var howtoNode :- Get(inner.entries, "howto");
        var howto :- HowToList(howtoNode);
        Ok(Element(example, howto))
  }

  /** `DataTemplateElement.to_dict`. */
  function ElementToDict(example: Node, howto: seq<HowTo>): Node
  {
    Dict([Entry(ELEMENT_MARKER, Dict([Entry("example", example), Entry("howto", List(HowTosToDict(howto)))]))])
  }

  lemma ElementRoundTrip(example: Node, howto: seq<HowTo>)
    requires StepsComplete(howto)
    ensures ElementFromDict(ElementToDict(example, howto)) == Ok(Element(example, howto))
  {
    var body := [Entry("example", example), Entry("howto", List(HowTosToDict(howto)))];
    assert "example" != "howto" by { assert "example"[0] != "howto"[0]; }
    assert FindKey([Entry(ELEMENT_MARKER, Dict(body))], ELEMENT_MARKER) == Some(0);
    assert FindKey(body, "example") == Some(0);
    assert FindKey(body, "howto") == Some(1) by {
      assert body[1..] == [Entry("howto", List(HowTosToDict(howto)))];
    }
    StepsRoundTrip(howto);
  }

  /** The `ConditionalElement` constructor: exactly one condition is kept,
      by priority equal, then in, then empty. */
  function NewConditional(howto: seq<HowTo>, result: Node,
                          equal: Option<Node>, valuesIn: Option<Node>, empty: Option<Node>): (r: Result<Node>)
    ensures r.Ok? <==> equal.Some? || valuesIn.Some? || empty.Some?
    ensures r.Err? ==> r.error == ValueError("ConditionalElement must have one condition")
    ensures r.Ok? ==> r.value.Conditional? && r.value.howto == howto && r.value.result == result
    ensures equal.Some? ==> r.value.condition == Equal(equal.value)
    ensures equal.None? && valuesIn.Some? ==> r.value.condition == ValuesIn(valuesIn.value)
    ensures equal.None? && valuesIn.None? && empty.Some? ==> r.value.condition == EmptyIs(empty.value)
  {
    if equal.Some? then Ok(Conditional(howto, Equal(equal.value), result))
    else if valuesIn.Some? then Ok(Conditional(howto, ValuesIn(valuesIn.value), result))
    else if empty.Some? then Ok(Conditional(howto, EmptyIs(empty.value), result))
    else Err(ValueError("ConditionalElement must have one condition"))
  }

  /** `DataTemplate._convert_special_nodes`: with `toDict` false, marker dicts
      become nodes (the field marker is tested first); with `toDict` true the
      tree comes back as it was. */
  function Conversion(n: Node, toDict: bool): (r: Result<Node>)
    ensures toDict ==> r == Ok(n)
    ensures n.Leaf? || n.Element? || n.Conditional? ==> r == Ok(n)
    decreases n, 1
  {
    match n
    case Dict(es) =>
      if HasKey(es, ELEMENT_MARKER) then (if toDict then Ok(n) else ElementFromDict(n))
      else if HasKey(es, CONDITIONAL_MARKER) then (if toDict then Ok(n) else ConditionalFromDict(n))
      else
        var es' :- ConvertEntries(es, toDict);
        Ok(Dict(es'))
    case List(xs) =>
      var xs' :- ConvertItems(xs, toDict);
      Ok(List(xs'))
    case _ => Ok(n)
  }

  /** The values of a plain dict, converted one by one in order. */
  function ConvertEntries(es: seq<Entry>, toDict: bool): (r: Result<seq<Entry>>)
    ensures toDict ==> r == Ok(es)
    decreases es, 1
  {
    if es == [] then Ok([])
    else
      var v :- Conversion(es[0].val, toDict);
      var rest :- ConvertEntries(es[1..], toDict);
      assert es == [es[0]] + es[1..];
      Ok([Entry(es[0].key, v)] + rest)
  }

  /** Converting a dict's values keeps its keys, in order. */
  lemma {:induction false} ConvertEntriesKeys(es: seq<Entry>, toDict: bool)
    requires ConvertEntries(es, toDict).Ok?
    ensures var out := ConvertEntries(es, toDict).value;
            |out| == |es| && forall i :: 0 <= i < |es| ==> out[i].key == es[i].key
  {
    if es != [] {
      ConvertEntriesKeys(es[1..], toDict);
      var out := ConvertEntries(es, toDict).value;
      var rest := ConvertEntries(es[1..], toDict).value;
      assert out == [Entry(es[0].key, Conversion(es[0].val, toDict).value)] + rest;
      forall i | 1 <= i < |es|
        ensures out[i].key == es[i].key
      {
        assert out[i] == rest[i - 1] && es[i] == es[1..][i - 1];
      }
    }
  }

  /** The items of a list, converted one by one in order. */
  function ConvertItems(xs: seq<Node>, toDict: bool): (r: Result<seq<Node>>)
    ensures toDict ==> r == Ok(xs)
    ensures r.Ok? ==> |r.value| == |xs|
    decreases xs, 1
  {
    if xs == [] then Ok([])
    else
      var v :- Conversion(xs[0], toDict);
      var rest :- ConvertItems(xs[1..], toDict);
      assert xs == [xs[0]] + xs[1..];
      Ok([v] + rest)
  }

  /** `ConditionalElement.from_dict`: steps, then the condition by priority,
      then the result, converted recursively. */
  function ConditionalFromDict(obj: Node): (r: Result<Node>)
    ensures r.Ok? ==> r.value.Conditional?
    decreases obj, 0
  {
    if !obj.Dict? then Err(SubscriptError(obj))
    else
      match FindKey(obj.entries, CONDITIONAL_MARKER)
      case None => Err(KeyError(CONDITIONAL_MARKER))
      case Some(i) =>
        var data := obj.entries[i].val;
        if !data.Dict? then Err(SubscriptError(data))
        else
          var howtoNode :- Get(data.entries, "howto");
          var howto :- HowToList(howtoNode);
          var equal := GetOption(data.entries, "condition_value_equal");
          var valuesIn := if equal.Some? then None else GetOption(data.entries, "condition_values_in");
          var empty := if equal.Some? || valuesIn.Some? then None
                       else GetOption(data.entries, "condition_value_empty");
          match FindKey(data.entries, "result")
          case None => Err(KeyError("result"))
          case Some(j) =>
            var result :- Conversion(data.entries[j].val, false);
            NewConditional(howto, result, equal, valuesIn, empty)
  }

  /** The method form of `_convert_special_nodes`, building the new dict and
      list in loops. */
  method ConvertSpecialNodes(n: Node, toDict: bool) returns (r: Result<Node>)
    ensures r == Conversion(n, toDict)
    decreases n
  {
    match n {
      case Dict(es) =>
        if HasKey(es, ELEMENT_MARKER) {
          if toDict { return Ok(n); }
          return ElementFromDict(n);
        }
        if HasKey(es, CONDITIONAL_MARKER) {
          if toDict { return Ok(n); }
          return ConditionalFromDict(n);
        }
        var converted := ConvertEntriesLoop(es, toDict);
        if converted.Err? {
          return Err(converted.error);
        }
        return Ok(Dict(converted.value));
      case List(xs) =>
        var converted := ConvertItemsLoop(xs, toDict);
        if converted.Err? {
          return Err(converted.error);
        }
        return Ok(List(converted.value));
      case _ =>
        return Ok(n);
    }
  }

  /** The loop of `_convert_special_nodes` over a plain dict's values. */
  method ConvertEntriesLoop(es: seq<Entry>, toDict: bool) returns (r: Result<seq<Entry>>)
    ensures r == ConvertEntries(es, toDict)
    decreases es
  {
    var out: seq<Entry> := [];
    var i := 0;
    assert es[i..] == es;
    PrefixedNothing(ConvertEntries(es, toDict));
    while i < |es|
      invariant 0 <= i <= |es|
      invariant ConvertEntries(es, toDict) == Prefixed(out, ConvertEntries(es[i..], toDict))
    {
      assert es[i..][0] == es[i] && es[i..][1..] == es[i + 1..];
      var v := ConvertSpecialNodes(es[i].val, toDict);
      if v.Err? {
        assert ConvertEntries(es[i..], toDict) == Err(v.error);
        return Err(v.error);
      }
      assert ConvertEntries(es[i..], toDict)
          == Prefixed([Entry(es[i].key, v.value)], ConvertEntries(es[i + 1..], toDict));
      PrefixedAppend(out, [Entry(es[i].key, v.value)], ConvertEntries(es[i + 1..], toDict));
      out := out + [Entry(es[i].key, v.value)];
      i := i + 1;
    }
    assert es[i..] == [];
    PrefixedEnd(out, ConvertEntries(es[i..], toDict));
    return Ok(out);
  }

  /** The loop of `_convert_special_nodes` over a list's items. */
  method ConvertItemsLoop(xs: seq<Node>, toDict: bool) returns (r: Result<seq<Node>>)
    ensures r == ConvertItems(xs, toDict)
    decreases xs
  {
    var out: seq<Node> := [];
    var i := 0;
    assert xs[i..] == xs;
    PrefixedNothing(ConvertItems(xs, toDict));
    while i < |xs|
      invariant 0 <= i <= |xs|
      invariant ConvertItems(xs, toDict) == Prefixed(out, ConvertItems(xs[i..], toDict))
    {
      assert xs[i..][0] == xs[i] && xs[i..][1..] == xs[i + 1..];
      var v := ConvertSpecialNodes(xs[i], toDict);
      if v.Err? {
        assert ConvertItems(xs[i..], toDict) == Err(v.error);
        return Err(v.error);
      }
      assert ConvertItems(xs[i..], toDict) == Prefixed([v.value], ConvertItems(xs[i + 1..], toDict));
      PrefixedAppend(out, [v.value], ConvertItems(xs[i + 1..], toDict));
      out := out + [v.value];
      i := i + 1;
    }
    assert xs[i..] == [];
    PrefixedEnd(out, ConvertItems(xs[i..], toDict));
    return Ok(out);
  }

  lemma PrefixedNothing<T>(r: Result<seq<T>>)
    ensures Prefixed([], r) == r
  {
    if r.Ok? {
      assert [] + r.value == r.value;
    }
  }

  lemma PrefixedAppend<T>(acc: seq<T>, x: seq<T>, r: Result<seq<T>>)
    ensures Prefixed(acc, Prefixed(x, r)) == Prefixed(acc + x, r)
  {
    if r.Ok? {
      assert acc + (x + r.value) == acc + x + r.value;
    }
  }

  lemma PrefixedEnd<T>(acc: seq<T>, r: Result<seq<T>>)
    requires r == Ok([])
    ensures Prefixed(acc, r) == Ok(acc)
  {
    assert acc + [] == acc;
  }

  /** `acc` followed by the result, or the error. */
  function Prefixed<T>(acc: seq<T>, r: Result<seq<T>>): Result<seq<T>>
  {
    match r
    case Err(e) => Err(e)
    case Ok(rest) => Ok(acc + rest)
  }

  // ------------------------------------------------------------ serialisation

  /** The entry `to_dict` writes for a conditional's condition. */
  function ConditionEntry(c: Condition): Entry
  {
    match c
    case Equal(x) => Entry("condition_value_equal", x)
    case ValuesIn(x) => Entry("condition_values_in", x)
    case EmptyIs(x) => Entry("condition_value_empty", x)
  }

  /** The value a condition compares against. */
  function ConditionArg(c: Condition): Node
  {
    match c
    case Equal(x) => x
    case ValuesIn(x) => x
    case EmptyIs(x) => x
  }

  /** The dict `ConditionalElement.to_dict` builds around an already serialised result. */
  function ConditionalDict(howto: seq<HowTo>, cond: Condition, result: Node): Node
  {
    Dict([Entry(CONDITIONAL_MARKER,
                Dict([Entry("howto", List(HowTosToDict(howto))), ConditionEntry(cond), Entry("result", result)]))])
  }

  /** `ConditionalElement.to_dict` as written: a result that is itself a field
      or conditional is serialised, but any other result goes through
      `_convert_special_nodes(result, to_dict=True)`, which hands it back
      unchanged, nodes nested inside it included. */
  function ConditionalToDict(howto: seq<HowTo>, cond: Condition, result: Node): Node
    decreases result
  {
    var r := match result
      case Element(ex, hs) => ElementToDict(ex, hs)
      case Conditional(hs, c, rr) => ConditionalToDict(hs, c, rr)
      case _ => Conversion(result, true).value;
    ConditionalDict(howto, cond, r)
  }

  /** A tree JSON can hold: no field or conditional node anywhere. */
  predicate IsPlain(n: Node)
  {
    match n
    case Leaf(_) => true
    case List(xs) => forall i :: 0 <= i < |xs| ==> IsPlain(xs[i])
    case Dict(es) => forall i :: 0 <= i < |es| ==> IsPlain(es[i].val)
    case Element(_, _) => false
    case Conditional(_, _, _) => false
  }

  /** The as-written `to_dict` leaves a field that sits inside a plain dict
      of a conditional's result as a node: the output is not JSON. */
  lemma ToDictKeepsNestedField()
    ensures !IsPlain(ConditionalToDict([], Equal(Leaf(Int(0))), Dict([Entry("a", Element(Leaf(Str("x")), []))])))
  {
    var result := Dict([Entry("a", Element(Leaf(Str("x")), []))]);
    var d := ConditionalToDict([], Equal(Leaf(Int(0))), result);
    assert Conversion(result, true) == Ok(result);
    var body := d.entries[0].val;
    assert body.entries[2].val == result;
    assert !IsPlain(result.entries[0].val);
  }

  /** A converted tree back as JSON, every field and conditional at any depth
      written as its marker dict (the serialisation the as-written `to_dict`
      intends for a conditional's result). */
  function Serialize(n: Node): (r: Node)
    ensures n.Dict? ==> r.Dict? && |r.entries| == |n.entries|
                        && forall i :: 0 <= i < |n.entries| ==> r.entries[i].key == n.entries[i].key
  {
    match n
    case Leaf(_) => n
    case List(xs) => List(SerializeItems(xs))
    case Dict(es) => Dict(SerializeEntries(es))
    case Element(ex, hs) => ElementToDict(ex, hs)
    case Conditional(hs, c, res) => ConditionalDict(hs, c, Serialize(res))
  }

  function SerializeEntries(es: seq<Entry>): (r: seq<Entry>)
    ensures |r| == |es| && forall i :: 0 <= i < |es| ==> r[i] == Entry(es[i].key, Serialize(es[i].val))
  {
    if es == [] then [] else [Entry(es[0].key, Serialize(es[0].val))] + SerializeEntries(es[1..])
  }

  function SerializeItems(xs: seq<Node>): (r: seq<Node>)
    ensures |r| == |xs| && forall i :: 0 <= i < |xs| ==> r[i] == Serialize(xs[i])
  {
    if xs == [] then [] else [Serialize(xs[0])] + SerializeItems(xs[1..])
  }

  /** A converted tree `Serialize` can write and read back: plain dicts carry
      no marker key, every step names its table and column, and examples and
      condition values are plain. */
  predicate Serializable(n: Node)
  {
    match n
    case Leaf(_) => true
    case List(xs) => forall i :: 0 <= i < |xs| ==> Serializable(xs[i])
    case Dict(es) =>
      && !HasKey(es, ELEMENT_MARKER) && !HasKey(es, CONDITIONAL_MARKER)
      && forall i :: 0 <= i < |es| ==> Serializable(es[i].val)
    case Element(ex, hs) => IsPlain(ex) && StepsComplete(hs)
    case Conditional(hs, c, res) => IsPlain(ConditionArg(c)) && StepsComplete(hs) && Serializable(res)
  }

  lemma StepDictsPlain(hs: seq<HowTo>)
    ensures IsPlain(List(HowTosToDict(hs)))
  {
    var xs := HowTosToDict(hs);
    forall i | 0 <= i < |xs| ensures IsPlain(xs[i]) {
      var es := xs[i].entries;
      assert forall j :: 0 <= j < |es| ==> es[j].val.Leaf? by {
        assert es == StepEntries(hs[i]);
      }
    }
  }

  /** The corrected serialisation yields JSON. */
  lemma {:induction false} SerializeIsPlain(n: Node)
    requires Serializable(n)
    ensures IsPlain(Serialize(n))
    decreases n, 1
  {
    match n
    case Leaf(_) =>
    case List(xs) =>
      forall i | 0 <= i < |xs| ensures IsPlain(SerializeItems(xs)[i]) { SerializeIsPlain(xs[i]); }
    case Dict(es) =>
      forall i | 0 <= i < |es| ensures IsPlain(SerializeEntries(es)[i].val) { SerializeIsPlain(es[i].val); }
    case Element(ex, hs) =>
      ElementDictPlain(ex, hs);
    case Conditional(hs, c, res) =>
      SerializeIsPlain(res);
      ConditionalDictPlain(hs, c, Serialize(res));
  }

  lemma ElementDictPlain(ex: Node, hs: seq<HowTo>)
    requires IsPlain(ex)
    ensures IsPlain(ElementToDict(ex, hs))
  {
    StepDictsPlain(hs);
    var body := [Entry("example", ex), Entry("howto", List(HowTosToDict(hs)))];
    assert forall j :: 0 <= j < |body| ==> IsPlain(body[j].val);
    assert IsPlain(Dict(body));
  }

  lemma ConditionalDictPlain(hs: seq<HowTo>, c: Condition, res: Node)
    requires IsPlain(ConditionArg(c)) && IsPlain(res)
    ensures IsPlain(ConditionalDict(hs, c, res))
  {
    StepDictsPlain(hs);
    var body := [Entry("howto", List(HowTosToDict(hs))), ConditionEntry(c), Entry("result", res)];
    assert ConditionEntry(c).val == ConditionArg(c);
    assert forall j :: 0 <= j < |body| ==> IsPlain(body[j].val);
    assert IsPlain(Dict(body));
  }

  lemma MarkersDistinct()
    ensures ELEMENT_MARKER != CONDITIONAL_MARKER
  {
    assert ELEMENT_MARKER[1] != CONDITIONAL_MARKER[1];
  }

  lemma ElementSerialRoundTrip(ex: Node, hs: seq<HowTo>)
    requires StepsComplete(hs)
    ensures Conversion(ElementToDict(ex, hs), false) == Ok(Element(ex, hs))
  {
    assert ElementToDict(ex, hs).entries[0].key == ELEMENT_MARKER;
    ElementRoundTrip(ex, hs);
  }

  /** Which condition key a conditional's body carries, if the condition is `c`. */
  lemma ConditionKeys(c: Condition)
    ensures ConditionEntry(c).key != "howto" && ConditionEntry(c).key != "result"
    ensures c.Equal? <==> ConditionEntry(c).key == "condition_value_equal"
    ensures c.ValuesIn? <==> ConditionEntry(c).key == "condition_values_in"
    ensures c.EmptyIs? <==> ConditionEntry(c).key == "condition_value_empty"
  {
    assert "condition_value_equal"[15] != "condition_values_in"[15];
    assert "condition_value_equal"[17] != "condition_value_empty"[17];
    assert "condition_values_in"[15] != "condition_value_empty"[15];
  }

  lemma ConditionalSerialRoundTrip(hs: seq<HowTo>, c: Condition, res: Node)
    requires StepsComplete(hs)
    requires Conversion(Serialize(res), false) == Ok(res)
    ensures Conversion(ConditionalDict(hs, c, Serialize(res)), false) == Ok(Conditional(hs, c, res))
  {
    var obj := ConditionalDict(hs, c, Serialize(res));
    MarkersDistinct();
    assert !FromDictAble(obj);
    assert FindKey(obj.entries, CONDITIONAL_MARKER) == Some(0);
    ConditionalBodyLookups(hs, c, Serialize(res));
    StepsRoundTrip(hs);
    assert Conversion(obj, false) == ConditionalFromDict(obj);
  }

  /** Where the body of a serialised conditional holds its steps, its
      condition and its result. */
  lemma ConditionalBodyLookups(hs: seq<HowTo>, c: Condition, result: Node)
    ensures var body := [Entry("howto", List(HowTosToDict(hs))), ConditionEntry(c), Entry("result", result)];
            && FindKey(body, "howto") == Some(0)
            && FindKey(body, "result") == Some(2)
            && GetOption(body, "condition_value_equal") == (if c.Equal? then Some(c.expected) else None)
            && (!c.Equal? ==> GetOption(body, "condition_values_in") == (if c.ValuesIn? then Some(c.collection) else None))
            && (c.EmptyIs? ==> GetOption(body, "condition_value_empty") == Some(c.flag))
  {
    var body := [Entry("howto", List(HowTosToDict(hs))), ConditionEntry(c), Entry("result", result)];
    ConditionKeys(c);
    assert "howto" != "result";
    assert FindKey(body, "howto") == Some(0);
    assert FindKey(body, "result") == Some(2) by {
      assert body[1..][1..] == [Entry("result", result)];
      assert FindKey(body[1..][1..], "result") == Some(0);
      assert body[1..][0].key != "result";
      assert FindKey(body[1..], "result") == Some(1);
    }
    assert "condition_value_equal" != "howto" && "condition_values_in" != "howto";
    assert "condition_value_empty" != "howto";
    assert "condition_value_equal" != "result" && "condition_values_in" != "result";
    assert "condition_value_empty" != "result";
    match c
    case Equal(x) =>
      assert GetOption(body, "condition_value_equal") == Some(x);
    case ValuesIn(x) =>
      assert GetOption(body, "condition_value_equal") == None;
      assert GetOption(body, "condition_values_in") == Some(x);
    case EmptyIs(x) =>
      assert GetOption(body, "condition_value_equal") == None;
      assert GetOption(body, "condition_values_in") == None;
      assert GetOption(body, "condition_value_empty") == Some(x);
  }

  /** Reading back what `Serialize` wrote gives the same converted tree. */
  lemma {:induction false} SerializeRoundTrip(n: Node)
    requires Serializable(n)
    ensures Conversion(Serialize(n), false) == Ok(n)
    decreases n, 1
  {
    match n
    case Leaf(_) =>
    case List(xs) =>
      SerializeItemsRoundTrip(xs);
    case Dict(es) =>
      var out := SerializeEntries(es);
      assert !HasKey(out, ELEMENT_MARKER) && !HasKey(out, CONDITIONAL_MARKER) by {
        assert forall i :: 0 <= i < |out| ==> out[i].key == es[i].key;
      }
      SerializeEntriesRoundTrip(es);
    case Element(ex, hs) =>
      ElementSerialRoundTrip(ex, hs);
    case Conditional(hs, c, res) =>
      SerializeRoundTrip(res);
      ConditionalSerialRoundTrip(hs, c, res);
  }

  lemma {:induction false} SerializeEntriesRoundTrip(es: seq<Entry>)
    requires forall i :: 0 <= i < |es| ==> Serializable(es[i].val)
    ensures ConvertEntries(SerializeEntries(es), false) == Ok(es)
    decreases es, 0
  {
    if es != [] {
      var out := SerializeEntries(es);
      assert out[0] == Entry(es[0].key, Serialize(es[0].val));
      assert out[1..] == SerializeEntries(es[1..]);
      SerializeRoundTrip(es[0].val);
      SerializeEntriesRoundTrip(es[1..]);
      assert es == [Entry(es[0].key, es[0].val)] + es[1..];
    }
  }

  lemma {:induction false} SerializeItemsRoundTrip(xs: seq<Node>)
    requires forall i :: 0 <= i < |xs| ==> Serializable(xs[i])
    ensures ConvertItems(SerializeItems(xs), false) == Ok(xs)
    decreases xs, 0
  {
    if xs != [] {
      var out := SerializeItems(xs);
      assert out == [Serialize(xs[0])] + SerializeItems(xs[1..]);
      SerializeRoundTrip(xs[0]);
      SerializeItemsRoundTrip(xs[1..]);
      ConvertItemsCons(Serialize(xs[0]), SerializeItems(xs[1..]), xs[0], xs[1..]);
      assert xs == [xs[0]] + xs[1..];
    }
  }

  /** Converting a list whose head and tail convert. */
  lemma ConvertItemsCons(y: Node, ys: seq<Node>, a: Node, b: seq<Node>)
    requires Conversion(y, false) == Ok(a) && ConvertItems(ys, false) == Ok(b)
    ensures ConvertItems([y] + ys, false) == Ok([a] + b)
  {
    assert ([y] + ys)[0] == y && ([y] + ys)[1..] == ys;
  }

  /** No plain dict of the tree (outside examples and condition values, which
      are kept verbatim) still carries a marker key. */
  predicate Resolved(n: Node)
  {
    match n
    case Leaf(_) => true
    case List(xs) => forall i :: 0 <= i < |xs| ==> Resolved(xs[i])
    case Dict(es) =>
      && !HasKey(es, ELEMENT_MARKER) && !HasKey(es, CONDITIONAL_MARKER)
      && forall i :: 0 <= i < |es| ==> Resolved(es[i].val)
    case Element(_, _) => true
    case Conditional(_, _, res) => Resolved(res)
  }

  /** Converting JSON replaces every marker dict it reaches by a node. */
  lemma {:induction false} ConversionResolves(n: Node)
    requires IsPlain(n) && Conversion(n, false).Ok?
    ensures Resolved(Conversion(n, false).value)
    decreases n, 1
  {
    match n
    case Dict(es) =>
      if HasKey(es, ELEMENT_MARKER) {
      } else if HasKey(es, CONDITIONAL_MARKER) {
        ConditionalFromDictResolves(n);
      } else {
        var out := ConvertEntries(es, false).value;
        ConvertEntriesResolves(es);
        ConvertEntriesKeys(es, false);
      }
    case List(xs) =>
      ConvertItemsResolves(xs);
    case _ =>
  }

  lemma {:induction false} ConvertEntriesResolves(es: seq<Entry>)
    requires forall i :: 0 <= i < |es| ==> IsPlain(es[i].val)
    requires ConvertEntries(es, false).Ok?
    ensures var out := ConvertEntries(es, false).value;
            forall i :: 0 <= i < |out| ==> Resolved(out[i].val)
    decreases es, 1
  {
    if es != [] {
      var out := ConvertEntries(es, false).value;
      ConversionResolves(es[0].val);
      ConvertEntriesResolves(es[1..]);
      assert out == [Entry(es[0].key, Conversion(es[0].val, false).value)] + ConvertEntries(es[1..], false).value;
    }
  }

  lemma {:induction false} ConvertItemsResolves(xs: seq<Node>)
    requires forall i :: 0 <= i < |xs| ==> IsPlain(xs[i])
    requires ConvertItems(xs, false).Ok?
    ensures var out := ConvertItems(xs, false).value;
            forall i :: 0 <= i < |out| ==> Resolved(out[i])
    decreases xs, 1
  {
    if xs != [] {
      var out := ConvertItems(xs, false).value;
      ConversionResolves(xs[0]);
      ConvertItemsResolves(xs[1..]);
      assert out == [Conversion(xs[0], false).value] + ConvertItems(xs[1..], false).value;
    }
  }

  lemma {:induction false} ConditionalFromDictResolves(obj: Node)
    requires IsPlain(obj) && ConditionalFromDict(obj).Ok?
    ensures Resolved(ConditionalFromDict(obj).value)
    decreases obj, 0
  {
    var i := FindKey(obj.entries, CONDITIONAL_MARKER).value;
    var data := obj.entries[i].val;
    var j := FindKey(data.entries, "result").value;
    assert IsPlain(data);
    ConversionResolves(data.entries[j].val);
    assert ConditionalFromDict(obj).value.result == Conversion(data.entries[j].val, false).value;
  }

  // ---------------------------------------------------------------- filling

  /** `DataTemplate._fill_recursive` for record key `ind`: containers are
      filled item by item, dropping what comes out as `None`; a field yields
      its value; a conditional that fires is replaced by its result, filled
      with the same key, and otherwise by `None`. */
  function Fill(n: Node, env: Env, ind: Value): (r: Result<Node>)
    ensures n.Leaf? ==> r == Ok(n)
    ensures n.Element? ==> r == ElementValue(n.example, n.howto, env, ind)
    decreases n
  {
    match n
    case Leaf(_) => Ok(n)
    case List(xs) =>
      var ys :- FillItems(xs, env, ind);
      Ok(List(ys))
    case Dict(es) =>
      var fs :- FillEntries(es, env, ind);
      Ok(Dict(fs))
    case Element(ex, hs) => ElementValue(ex, hs, env, ind)
    case Conditional(hs, c, res) =>
      var picked :- ConditionalValue(hs, c, res, env, ind);
      if picked.None? then Ok(Leaf(Null)) else Fill(res, env, ind)
  }

  /** The entries of a filled dict: each value filled in order, an entry
      whose value comes out as `None` left out. */
  function FillEntries(es: seq<Entry>, env: Env, ind: Value): (r: Result<seq<Entry>>)
    ensures r.Ok? ==> forall j :: 0 <= j < |r.value| ==> r.value[j].val != Leaf(Null)
    decreases es
  {
    if es == [] then Ok([])
    else
      var v :- Fill(es[0].val, env, ind);
      var rest :- FillEntries(es[1..], env, ind);
      Ok(if v == Leaf(Null) then rest else [Entry(es[0].key, v)] + rest)
  }

  /** The items of a filled list: each item filled in order, an item that
      comes out as `None` left out. */
  function FillItems(xs: seq<Node>, env: Env, ind: Value): (r: Result<seq<Node>>)
    ensures r.Ok? ==> forall j :: 0 <= j < |r.value| ==> r.value[j] != Leaf(Null)
    decreases xs
  {
    if xs == [] then Ok([])
    else
      var v :- Fill(xs[0], env, ind);
      var rest :- FillItems(xs[1..], env, ind);
      Ok(if v == Leaf(Null) then rest else [v] + rest)
  }

  /** A fired conditional is filled as its result, with the same key. */
  lemma FillFiredConditional(hs: seq<HowTo>, c: Condition, res: Node, env: Env, ind: Value)
    ensures ConditionalValue(hs, c, res, env, ind) == Ok(Some(res))
            ==> Fill(Conditional(hs, c, res), env, ind) == Fill(res, env, ind)
    ensures ConditionalValue(hs, c, res, env, ind) == Ok(None)
            ==> Fill(Conditional(hs, c, res), env, ind) == Ok(Leaf(Null))
  {
  }

  /** Filling a dict fails exactly when filling one of its values fails. */
  lemma {:induction false} FillEntriesOk(es: seq<Entry>, env: Env, ind: Value)
    ensures FillEntries(es, env, ind).Ok? <==> forall i :: 0 <= i < |es| ==> Fill(es[i].val, env, ind).Ok?
    decreases es
  {
    if es != [] {
      FillEntriesOk(es[1..], env, ind);
      assert forall i :: 1 <= i < |es| ==> es[i] == es[1..][i - 1];
      if !FillEntries(es, env, ind).Ok? && Fill(es[0].val, env, ind).Ok? {
        assert !forall i :: 1 <= i < |es| ==> Fill(es[i].val, env, ind).Ok?;
      }
    }
  }

  /** A filled dict keeps every entry whose filled value is not `None`. */
  lemma {:induction false} FillEntriesKeeps(es: seq<Entry>, env: Env, ind: Value, i: nat)
    requires FillEntries(es, env, ind).Ok? && i < |es|
    requires Fill(es[i].val, env, ind).Ok? && Fill(es[i].val, env, ind).value != Leaf(Null)
    ensures Entry(es[i].key, Fill(es[i].val, env, ind).value) in FillEntries(es, env, ind).value
    decreases es
  {
    if i > 0 {
      assert es[i] == es[1..][i - 1];
      FillEntriesKeeps(es[1..], env, ind, i - 1);
    }
  }

  /** A filled dict holds nothing but filled values of its entries, under their keys. */
  lemma {:induction false} FillEntriesOnlyFrom(es: seq<Entry>, env: Env, ind: Value)
    requires FillEntries(es, env, ind).Ok?
    ensures var out := FillEntries(es, env, ind).value;
            forall j :: 0 <= j < |out| ==>
              exists i :: 0 <= i < |es| && es[i].key == out[j].key && Fill(es[i].val, env, ind) == Ok(out[j].val)
    decreases es
  {
    if es != [] {
      FillEntriesOnlyFrom(es[1..], env, ind);
      var out := FillEntries(es, env, ind).value;
      var rest := FillEntries(es[1..], env, ind).value;
      var v := Fill(es[0].val, env, ind).value;
      assert out == if v == Leaf(Null) then rest else [Entry(es[0].key, v)] + rest;
      forall j | 0 <= j < |out|
        ensures exists i :: 0 <= i < |es| && es[i].key == out[j].key && Fill(es[i].val, env, ind) == Ok(out[j].val)
      {
        if v != Leaf(Null) && j == 0 {
          assert es[0].key == out[0].key;
        } else {
          var k := if v == Leaf(Null) then j else j - 1;
          assert out[j] == rest[k];
          FilledFromTail(es, env, ind, rest[k]);
        }
      }
    }
  }

  /** An entry filled from the tail of a dict is filled from the dict. */
  lemma FilledFromTail(es: seq<Entry>, env: Env, ind: Value, e: Entry)
    requires es != []
    requires exists i :: 0 <= i < |es[1..]| && es[1..][i].key == e.key && Fill(es[1..][i].val, env, ind) == Ok(e.val)
    ensures exists i :: 0 <= i < |es| && es[i].key == e.key && Fill(es[i].val, env, ind) == Ok(e.val)
  {
    var i :| 0 <= i < |es[1..]| && es[1..][i].key == e.key && Fill(es[1..][i].val, env, ind) == Ok(e.val);
    assert es[i + 1] == es[1..][i];
  }

  /** Filling a list fails exactly when filling one of its items fails. */
  lemma {:induction false} FillItemsOk(xs: seq<Node>, env: Env, ind: Value)
    ensures FillItems(xs, env, ind).Ok? <==> forall i :: 0 <= i < |xs| ==> Fill(xs[i], env, ind).Ok?
    decreases xs
  {
    if xs != [] {
      FillItemsOk(xs[1..], env, ind);
      assert forall i :: 1 <= i < |xs| ==> xs[i] == xs[1..][i - 1];
      if !FillItems(xs, env, ind).Ok? && Fill(xs[0], env, ind).Ok? {
        assert !forall i :: 1 <= i < |xs| ==> Fill(xs[i], env, ind).Ok?;
      }
    }
  }

  /** A filled list keeps every item whose filled value is not `None`. */
  lemma {:induction false} FillItemsKeeps(xs: seq<Node>, env: Env, ind: Value, i: nat)
    requires FillItems(xs, env, ind).Ok? && i < |xs|
    requires Fill(xs[i], env, ind).Ok? && Fill(xs[i], env, ind).value != Leaf(Null)
    ensures Fill(xs[i], env, ind).value in FillItems(xs, env, ind).value
    decreases xs
  {
    if i > 0 {
      assert xs[i] == xs[1..][i - 1];
      FillItemsKeeps(xs[1..], env, ind, i - 1);
    }
  }

  /** A filled list holds nothing but filled values of its items. */
  lemma {:induction false} FillItemsOnlyFrom(xs: seq<Node>, env: Env, ind: Value)
    requires FillItems(xs, env, ind).Ok?
    ensures var out := FillItems(xs, env, ind).value;
            forall j :: 0 <= j < |out| ==> exists i :: 0 <= i < |xs| && Fill(xs[i], env, ind) == Ok(out[j])
    decreases xs
  {
    if xs != [] {
      FillItemsOnlyFrom(xs[1..], env, ind);
      var out := FillItems(xs, env, ind).value;
      var rest := FillItems(xs[1..], env, ind).value;
      var v := Fill(xs[0], env, ind).value;
      assert out == if v == Leaf(Null) then rest else [v] + rest;
      forall j | 0 <= j < |out|
        ensures exists i :: 0 <= i < |xs| && Fill(xs[i], env, ind) == Ok(out[j])
      {
        if v != Leaf(Null) && j == 0 {
          assert Fill(xs[0], env, ind) == Ok(out[0]);
        } else {
          var k := if v == Leaf(Null) then j else j - 1;
          assert out[j] == rest[k];
          var i :| 0 <= i < |xs[1..]| && Fill(xs[1..][i], env, ind) == Ok(rest[k]);
          assert xs[i + 1] == xs[1..][i];
        }
      }
    }
  }

  /** The result of `FillEntries` on `a` followed by the result on `b`, or the first error. */
  function Concat<T>(x: Result<seq<T>>, y: Result<seq<T>>): Result<seq<T>>
  {
    match x
    case Err(e) => Err(e)
    case Ok(u) => match y case Err(e) => Err(e) case Ok(w) => Ok(u + w)
  }

  /** Filling keeps the relative order of the entries that survive: filling
      a concatenation is concatenating the fills. */
  lemma {:induction false} FillEntriesAppend(a: seq<Entry>, b: seq<Entry>, env: Env, ind: Value)
    ensures FillEntries(a + b, env, ind) == Concat(FillEntries(a, env, ind), FillEntries(b, env, ind))
    decreases a
  {
    if a == [] {
      assert a + b == b;
      if FillEntries(b, env, ind).Ok? {
        assert [] + FillEntries(b, env, ind).value == FillEntries(b, env, ind).value;
      }
    } else {
      assert (a + b)[0] == a[0] && (a + b)[1..] == a[1..] + b;
      FillEntriesAppend(a[1..], b, env, ind);
      var v := Fill(a[0].val, env, ind);
      if v.Ok? && FillEntries(a[1..], env, ind).Ok? && FillEntries(b, env, ind).Ok? {
        var x := FillEntries(a[1..], env, ind).value;
        var y := FillEntries(b, env, ind).value;
        assert [Entry(a[0].key, v.value)] + x + y == [Entry(a[0].key, v.value)] + (x + y);
      }
    }
  }

  /** Filling keeps the relative order of the items that survive. */
  lemma {:induction false} FillItemsAppend(a: seq<Node>, b: seq<Node>, env: Env, ind: Value)
    ensures FillItems(a + b, env, ind) == Concat(FillItems(a, env, ind), FillItems(b, env, ind))
    decreases a
  {
    if a == [] {
      assert a + b == b;
      if FillItems(b, env, ind).Ok? {
        assert [] + FillItems(b, env, ind).value == FillItems(b, env, ind).value;
      }
    } else {
      assert (a + b)[0] == a[0] && (a + b)[1..] == a[1..] + b;
      FillItemsAppend(a[1..], b, env, ind);
      var v := Fill(a[0], env, ind);
      if v.Ok? && FillItems(a[1..], env, ind).Ok? && FillItems(b, env, ind).Ok? {
        var x := FillItems(a[1..], env, ind).value;
        var y := FillItems(b, env, ind).value;
        assert [v.value] + x + y == [v.value] + (x + y);
      }
    }
  }

  /** A filled document: only plain values, and no `None` inside a container. */
  predicate Settled(n: Node)
  {
    match n
    case Leaf(_) => true
    case List(xs) => forall i :: 0 <= i < |xs| ==> xs[i] != Leaf(Null) && Settled(xs[i])
    case Dict(es) => forall i :: 0 <= i < |es| ==> es[i].val != Leaf(Null) && Settled(es[i].val)
    case Element(_, _) => false
    case Conditional(_, _, _) => false
  }

  /** Filling leaves a filled document as it is, whatever the connector and key. */
  lemma {:induction false} FillFixesSettled(n: Node, env: Env, ind: Value)
    requires Settled(n)
    ensures Fill(n, env, ind) == Ok(n)
    decreases n, 1
  {
    match n
    case Leaf(_) =>
    case List(xs) => FillFixesSettledItems(xs, env, ind);
    case Dict(es) => FillFixesSettledEntries(es, env, ind);
  }

  lemma {:induction false} FillFixesSettledEntries(es: seq<Entry>, env: Env, ind: Value)
    requires forall i :: 0 <= i < |es| ==> es[i].val != Leaf(Null) && Settled(es[i].val)
    ensures FillEntries(es, env, ind) == Ok(es)
    decreases es, 0
  {
    if es != [] {
      FillFixesSettled(es[0].val, env, ind);
      assert forall i :: 1 <= i < |es| ==> es[i] == es[1..][i - 1];
      FillFixesSettledEntries(es[1..], env, ind);
      assert es == [Entry(es[0].key, es[0].val)] + es[1..];
    }
  }

  lemma {:induction false} FillFixesSettledItems(xs: seq<Node>, env: Env, ind: Value)
    requires forall i :: 0 <= i < |xs| ==> xs[i] != Leaf(Null) && Settled(xs[i])
    ensures FillItems(xs, env, ind) == Ok(xs)
    decreases xs, 0
  {
    if xs != [] {
      FillFixesSettled(xs[0], env, ind);
      assert forall i :: 1 <= i < |xs| ==> xs[i] == xs[1..][i - 1];
      FillFixesSettledItems(xs[1..], env, ind);
      assert xs == [xs[0]] + xs[1..];
    }
  }

  /** With a connector, what filling produces is a filled document. */
  lemma {:induction false} FillSettles(n: Node, env: Env, ind: Value)
    requires env.db.Some? && Fill(n, env, ind).Ok?
    ensures Settled(Fill(n, env, ind).value)
    decreases n, 1
  {
    match n
    case Leaf(_) =>
    case List(xs) => FillSettlesItems(xs, env, ind);
    case Dict(es) => FillSettlesEntries(es, env, ind);
    case Element(_, _) =>
    case Conditional(hs, c, res) =>
      if ConditionalValue(hs, c, res, env, ind).value.Some? {
        FillSettles(res, env, ind);
      }
  }

  lemma {:induction false} FillSettlesEntries(es: seq<Entry>, env: Env, ind: Value)
    requires env.db.Some? && FillEntries(es, env, ind).Ok?
    ensures var out := FillEntries(es, env, ind).value;
            forall j :: 0 <= j < |out| ==> Settled(out[j].val)
    decreases es, 0
  {
    if es != [] {
      FillSettles(es[0].val, env, ind);
      FillSettlesEntries(es[1..], env, ind);
    }
  }

  lemma {:induction false} FillSettlesItems(xs: seq<Node>, env: Env, ind: Value)
    requires env.db.Some? && FillItems(xs, env, ind).Ok?
    ensures var out := FillItems(xs, env, ind).value;
            forall j :: 0 <= j < |out| ==> Settled(out[j])
    decreases xs, 0
  {
    if xs != [] {
      FillSettles(xs[0], env, ind);
      FillSettlesItems(xs[1..], env, ind);
    }
  }

  /** With a connector, filling twice is filling once. */
  lemma FillIdempotent(n: Node, env: Env, ind: Value, ind2: Value)
    requires env.db.Some? && Fill(n, env, ind).Ok?
    ensures Fill(Fill(n, env, ind).value, env, ind2) == Fill(n, env, ind)
  {
    FillSettles(n, env, ind);
    FillFixesSettled(Fill(n, env, ind).value, env, ind2);
  }

  /** The method form of `_fill_recursive`, building the new dict and list in loops. */
  method FillRecursive(n: Node, env: Env, ind: Value) returns (r: Result<Node>)
    ensures r == Fill(n, env, ind)
    decreases n
  {
    match n {
      case Leaf(_) =>
        return Ok(n);
      case Element(_, _) =>
        r := ElementToValue(n, env, ind);
      case Conditional(_, _, res) =>
        var picked := ConditionalToValue(n, env, ind);
        if picked.Err? {
          return Err(picked.error);
        }
        if picked.value.None? {
          return Ok(Leaf(Null));
        }
        r := FillRecursive(res, env, ind);
      case Dict(es) =>
        var fs := FillEntriesLoop(es, env, ind);
        if fs.Err? {
          return Err(fs.error);
        }
        return Ok(Dict(fs.value));
      case List(xs) =>
        var ys := FillItemsLoop(xs, env, ind);
        if ys.Err? {
          return Err(ys.error);
        }
        return Ok(List(ys.value));
    }
  }

  /** The loop of `_fill_recursive` over a dict: each value filled in turn,
      kept unless it comes out as `None`. */
  method FillEntriesLoop(es: seq<Entry>, env: Env, ind: Value) returns (r: Result<seq<Entry>>)
    ensures r == FillEntries(es, env, ind)
    decreases es
  {
    var out: seq<Entry> := [];
    var i := 0;
    assert es[i..] == es;
    PrefixedNothing(FillEntries(es, env, ind));
    while i < |es|
      invariant 0 <= i <= |es|
      invariant FillEntries(es, env, ind) == Prefixed(out, FillEntries(es[i..], env, ind))
    {
      assert es[i..][0] == es[i] && es[i..][1..] == es[i + 1..];
      var v := FillRecursive(es[i].val, env, ind);
      if v.Err? {
        assert FillEntries(es[i..], env, ind) == Err(v.error);
        return Err(v.error);
      }
      var kept := if v.value == Leaf(Null) then [] else [Entry(es[i].key, v.value)];
      if FillEntries(es[i + 1..], env, ind).Ok? {
        assert [] + FillEntries(es[i + 1..], env, ind).value == FillEntries(es[i + 1..], env, ind).value;
      }
      assert FillEntries(es[i..], env, ind) == Prefixed(kept, FillEntries(es[i + 1..], env, ind));
      PrefixedAppend(out, kept, FillEntries(es[i + 1..], env, ind));
      out := out + kept;
      i := i + 1;
    }
    assert es[i..] == [];
    PrefixedEnd(out, FillEntries(es[i..], env, ind));
    return Ok(out);
  }

  /** The loop of `_fill_recursive` over a list: each item filled in turn,
      kept unless it comes out as `None`. */
  method FillItemsLoop(xs: seq<Node>, env: Env, ind: Value) returns (r: Result<seq<Node>>)
    ensures r == FillItems(xs, env, ind)
    decreases xs
  {
    var out: seq<Node> := [];
    var i := 0;
    assert xs[i..] == xs;
    PrefixedNothing(FillItems(xs, env, ind));
    while i < |xs|
      invariant 0 <= i <= |xs|
      invariant FillItems(xs, env, ind) == Prefixed(out, FillItems(xs[i..], env, ind))
    {
      assert xs[i..][0] == xs[i] && xs[i..][1..] == xs[i + 1..];
      var v := FillRecursive(xs[i], env, ind);
      if v.Err? {
        assert FillItems(xs[i..], env, ind) == Err(v.error);
        return Err(v.error);
      }
      var kept := if v.value == Leaf(Null) then [] else [v.value];
      if FillItems(xs[i + 1..], env, ind).Ok? {
        assert [] + FillItems(xs[i + 1..], env, ind).value == FillItems(xs[i + 1..], env, ind).value;
      }
      assert FillItems(xs[i..], env, ind) == Prefixed(kept, FillItems(xs[i + 1..], env, ind));
      PrefixedAppend(out, kept, FillItems(xs[i + 1..], env, ind));
      out := out + kept;
      i := i + 1;
    }
    assert xs[i..] == [];
    PrefixedEnd(out, FillItems(xs[i..], env, ind));
    return Ok(out);
  }

  /** `DataTemplate`: the converted template tree, replaced by its filled
      form for one record. */
  class DataTemplate {
    var data: Node

    constructor Of(d: Node)
      ensures data == d
    {
      data := d;
    }

    /** `DataTemplate(data_template_json)`: the converted tree, or the error
        the conversion raised. */
    static method New(json: Node) returns (r: Result<DataTemplate>)
      ensures r.Ok? <==> Conversion(json, false).Ok?
      ensures r.Ok? ==> fresh(r.value) && r.value.data == Conversion(json, false).value
      ensures r.Err? ==> r.error == Conversion(json, false).error
    {
      var d := ConvertSpecialNodes(json, false);
      if d.Err? {
        return Err(d.error);
      }
      var t := new DataTemplate.Of(d.value);
      return Ok(t);
    }

    /** `fill_template`: `data` becomes its fill for `ind`, and `ind` is
        returned; when filling raises, `data` is left as it was. */
    method FillTemplate(env: Env, ind: Value) returns (r: Result<Value>)
      modifies this
      ensures Fill(old(data), env, ind).Ok? ==> data == Fill(old(data), env, ind).value && r == Ok(ind)
      ensures Fill(old(data), env, ind).Err? ==> data == old(data) && r == Err(Fill(old(data), env, ind).error)
    {
      var filled := FillRecursive(data, env, ind);
      if filled.Err? {
        return Err(filled.error);
      }
      data := filled.value;
      return Ok(ind);
    }
  }
}
