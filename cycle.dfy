/** One iteration of the monitoring loop: scan for new records, form and
    validate the order XML of every record that is new or failed before,
    promote formed records whose object has kind 150002, and list the files
    of promoted records to send. */
module Cycle {
  import opened PyCore
  import opened Template
  import opened XmlGen
  import opened Tracker
  import opened DbConnector

  const NEW: string := "NEW"
  const FORM_SUCC: string := "FORM_SUCC"
  const FORM_FAIL: string := "FORM_FAIL"
  const KIND: string := "150002"

  /** The statuses each step selects. */
  const TO_FORM: seq<string> := [NEW, FORM_FAIL]
  const FORMED: seq<string> := [FORM_SUCC]
  const TO_SEND: seq<string> := [KIND]

  /** What one cycle consults outside the tracker. */
  datatype Services = Services(
    /** The database lookups and the `after` evaluator the template fill uses. */
    env: Env,
    /** The template JSON, loaded once before the loop. */
    template: Node,
    /** The XML libraries' text serialisation of an element tree. */
    serialize: XElem -> string,
    /** The loaded XSD schema, if any. */
    schema: Option<SchemaCheck>,
    /** The rows of the "kinds" query for a uid, or the error it raised. */
    kinds: string -> Result<seq<Value>>,
    /** The uids the scan query returns. */
    newRows: seq<string>)

  /** `str(e)` of an exception. */
  function ErrorText(e: Error): string
  {
    match e
    case KeyError(k) => "'" + k + "'"
    case TypeError(w) => w
    case ValueError(w) => w
    case AttributeError(w) => w
    case Raised(m) => m
    case Unsupported(w) => w
  }

  /** `str(DATA_FOLDER / f"{uid}.xml")` with `DATA_FOLDER = Path("./data")`:
      pathlib joins the name onto `data` unless the name is absolute, in
      which case it replaces it, and writes the result in canonical form. */
  function XmlPath(uid: string): string
  {
    var name := uid + ".xml";
    var root := PathRoot(name);
    if root == "" then Join("/", ["data"] + PathParts(name)) else root + Join("/", PathParts(name))
  }

  /** The root pathlib reads off a POSIX path: none for a relative path,
      `//` for exactly two leading slashes, else `/`. */
  function PathRoot(p: string): string
  {
    if p == [] || p[0] != '/' then ""
    else if |p| >= 2 && p[1] == '/' && (|p| == 2 || p[2] != '/') then "//"
    else "/"
  }

  /** The components pathlib keeps of a POSIX path: the pieces between
      slashes, without the empty ones and `.`. */
  function PathParts(p: string): seq<string>
  {
    KeptParts(SplitOn(p, '/'))
  }

  /** Every component pathlib keeps is a proper one. */
  lemma PartsAreComponents(p: string)
    ensures forall i :: 0 <= i < |PathParts(p)| ==> Component(PathParts(p)[i])
  {
    var pieces := SplitOn(p, '/');
    var parts := KeptParts(pieces);
    assert forall i :: 0 <= i < |parts| ==> parts[i] in pieces;
  }

  /** A component of a canonical path: not empty, not `.`, no slash. */
  predicate Component(c: string)
  {
    c != "" && c != "." && '/' !in c
  }

  /** The pieces that are neither empty nor `.`, in order. */
  function KeptParts(pieces: seq<string>): (parts: seq<string>)
    ensures forall i :: 0 <= i < |parts| ==> parts[i] != "" && parts[i] != "." && parts[i] in pieces
    ensures |pieces| > 0 && pieces[|pieces| - 1] != "" && pieces[|pieces| - 1] != "." ==> |parts| > 0
  {
    if pieces == [] then []
    else (if pieces[0] != "" && pieces[0] != "." then [pieces[0]] else []) + KeptParts(pieces[1..])
  }

  /** The path is in pathlib's canonical form: read again, it has the root
      of the name and its components, after `data` when the name is relative. */
  lemma XmlPathCanonical(uid: string)
    ensures PathRoot(XmlPath(uid)) == PathRoot(uid + ".xml")
    ensures PathParts(XmlPath(uid)) ==
              (if PathRoot(uid + ".xml") == "" then ["data"] else []) + PathParts(uid + ".xml")
  {
    var name := uid + ".xml";
    var parts := PathParts(name);
    NameKept(name);
    PartsAreComponents(name);
    if PathRoot(name) == "" {
      ReadAgainRelative(["data"] + parts);
    } else if PathRoot(name) == "/" {
      ReadAgainAbsolute(parts);
    } else {
      ReadAgainDouble(parts);
    }
  }

  /** Components joined with slashes read back as a relative path with
      those components. */
  lemma ReadAgainRelative(parts: seq<string>)
    requires |parts| >= 1 && forall i :: 0 <= i < |parts| ==> Component(parts[i])
    ensures PathRoot(Join("/", parts)) == ""
    ensures PathParts(Join("/", parts)) == parts
  {
    JoinHead(parts);
    SplitJoined(parts);
    KeptComponents(parts);
  }

  /** A slash, then components joined with slashes, read back as an
      absolute path with those components. */
  lemma ReadAgainAbsolute(parts: seq<string>)
    requires |parts| >= 1 && forall i :: 0 <= i < |parts| ==> Component(parts[i])
    ensures PathRoot("/" + Join("/", parts)) == "/"
    ensures PathParts("/" + Join("/", parts)) == parts
  {
    var joined := Join("/", parts);
    var p := "/" + joined;
    JoinHead(parts);
    assert p[1] == parts[0][0];
    assert parts[0][0] != '/' by { assert Component(parts[0]); }
    assert SplitOn(p, '/') == [""] + parts by {
      SplitJoined(parts);
      LeadingSlash(joined);
    }
    assert KeptParts([""] + parts) == parts by {
      KeptComponents(parts);
      KeptEmpty(parts);
    }
    assert KeptParts(SplitOn(p, '/')) == parts;
    assert PathParts(p) == KeptParts(SplitOn(p, '/'));
  }

  /** Two slashes, then components joined with slashes, read back as a path
      with the root `//` and those components. */
  lemma ReadAgainDouble(parts: seq<string>)
    requires |parts| >= 1 && forall i :: 0 <= i < |parts| ==> Component(parts[i])
    ensures PathRoot("//" + Join("/", parts)) == "//"
    ensures PathParts("//" + Join("/", parts)) == parts
  {
    var joined := Join("/", parts);
    var q := "/" + joined;
    var p := "//" + joined;
    JoinHead(parts);
    assert p[2] == parts[0][0];
    assert parts[0][0] != '/' by { assert Component(parts[0]); }
    ReadAgainAbsolute(parts);
    DoubleSlash(joined);
    assert KeptParts([""] + SplitOn(q, '/')) == KeptParts(SplitOn(q, '/')) by {
      KeptEmpty(SplitOn(q, '/'));
    }
    assert PathParts(p) == KeptParts(SplitOn(p, '/'));
  }

  lemma DoubleSlash(s: string)
    ensures SplitOn("//" + s, '/') == [""] + SplitOn("/" + s, '/')
  {
    assert IndexOf("//" + s, '/') == 0;
    assert ("//" + s)[1..] == "/" + s;
  }

  /** A uid without slashes is stored as `data/<uid>.xml`. */
  lemma XmlPathPlain(uid: string)
    requires '/' !in uid
    ensures XmlPath(uid) == "data/" + uid + ".xml"
  {
    var name := uid + ".xml";
    NameComponent(uid);
    var one: seq<string> := [name];
    assert SplitOn(name, '/') == one;
    assert one[1..] == [];
    assert KeptParts(one) == [name] + KeptParts(one[1..]);
    assert PathParts(name) == KeptParts(SplitOn(name, '/')) == one;
    assert Join("/", ["data"] + one) == "data/" + name;
    assert "data/" + uid + ".xml" == "data/" + name;
  }

  /** A doubled slash and a `.` directory in a relative uid disappear from
      the stored path. */
  lemma XmlPathCollapses(dir: string, uid: string)
    requires Component(dir) && '/' !in uid
    ensures XmlPath(dir + "//" + uid) == "data/" + dir + "/" + uid + ".xml"
    ensures XmlPath(dir + "/./" + uid) == "data/" + dir + "/" + uid + ".xml"
  {
    XmlPathCollapsesPiece(dir, "", uid);
    assert dir + "/" + "" + "/" + uid == dir + "//" + uid;
    XmlPathCollapsesPiece(dir, ".", uid);
    assert dir + "/" + "." + "/" + uid == dir + "/./" + uid;
  }

  lemma XmlPathCollapsesPiece(dir: string, piece: string, uid: string)
    requires Component(dir) && '/' !in uid && (piece == "" || piece == ".")
    ensures XmlPath(dir + "/" + piece + "/" + uid) == "data/" + dir + "/" + uid + ".xml"
  {
    var last := uid + ".xml";
    NameComponent(uid);
    RelativeParts(dir, piece, last);
    Join3(dir, piece, last);
    assert dir + "/" + piece + "/" + uid + ".xml" == dir + "/" + piece + "/" + last;
    Join3("data", dir, last);
    assert "data/" + dir + "/" + uid + ".xml" == "data" + "/" + dir + "/" + last;
  }

  /** The components of a relative path written as `dir`, `piece` and
      `last` joined with slashes, where `piece` is empty or `.`. */
  lemma RelativeParts(dir: string, piece: string, last: string)
    requires Component(dir) && Component(last) && (piece == "" || piece == ".")
    ensures PathRoot(Join("/", [dir, piece, last])) == ""
    ensures PathParts(Join("/", [dir, piece, last])) == [dir, last]
  {
    var pieces := [dir, piece, last];
    var p := Join("/", pieces);
    Join3(dir, piece, last);
    assert p[0] == dir[0];
    assert dir[0] != '/' by { assert Component(dir); }
    assert '/' !in piece;
    JoinSplitOn(pieces, '/');
    Kept3(dir, piece, last);
    assert PathParts(p) == KeptParts(SplitOn(p, '/'));
  }

  lemma Join3(a: string, b: string, c: string)
    ensures Join("/", [a, b, c]) == a + "/" + b + "/" + c
  {
    assert [a, b, c][1..] == [b, c];
    assert [b, c][1..] == [c];
    assert Join("/", [b, c]) == b + "/" + c;
    assert Join("/", [a, b, c]) == a + "/" + (b + "/" + c);
  }

  lemma Kept3(a: string, b: string, c: string)
    requires Component(a) && Component(c) && (b == "" || b == ".")
    ensures KeptParts([a, b, c]) == [a, c]
  {
    assert [a, b, c][1..] == [b, c];
    assert [b, c][1..] == [c];
    var none: seq<string> := [];
    assert [c][1..] == none;
    assert KeptParts([c]) == [c];
    assert KeptParts([b, c]) == [c];
  }

  /** An absolute uid replaces the data folder. */
  lemma XmlPathAbsolute(uid: string)
    requires '/' !in uid
    ensures XmlPath("/" + uid) == "/" + uid + ".xml"
  {
    var last := uid + ".xml";
    NameComponent(uid);
    ReadAgainAbsolute([last]);
    assert Join("/", [last]) == last;
    assert "/" + uid + ".xml" == "/" + last;
  }

  /** `<uid>.xml` is a single component when the uid has no slash. */
  lemma NameComponent(uid: string)
    requires '/' !in uid
    ensures Component(uid + ".xml")
  {
    var name := uid + ".xml";
    assert '/' !in name by {
      assert forall i :: 0 <= i < |name| ==> name[i] == (if i < |uid| then uid[i] else ".xml"[i - |uid|]);
    }
    assert |name| >= 4;
  }

  /** The last component of a name ending in a character other than `/`
      ends in that character, so it is kept when that character is not `.`. */
  lemma NameKept(name: string)
    requires name != [] && name[|name| - 1] != '/' && name[|name| - 1] != '.'
    ensures PathParts(name) != []
  {
    var pieces := SplitOn(name, '/');
    LastPiece(name, '/');
    var last := pieces[|pieces| - 1];
    assert last != "." by {
      assert last[|last| - 1] != '.';
    }
    assert Component(last);
  }

  lemma {:induction false} LastPiece(s: string, sep: char)
    requires s != [] && s[|s| - 1] != sep
    ensures Last(SplitOn(s, sep)) != [] && Last(Last(SplitOn(s, sep))) == s[|s| - 1]
    decreases |s|
  {
    if sep in s {
      var k := IndexOf(s, sep);
      var t := s[k + 1..];
      assert t != [] && t[|t| - 1] == s[|s| - 1];
      LastPiece(t, sep);
      var rest := SplitOn(t, sep);
      assert SplitOn(s, sep) == [s[..k]] + rest;
      assert Last([s[..k]] + rest) == Last(rest);
    }
  }

  function Last<T>(s: seq<T>): T
    requires s != []
  {
    s[|s| - 1]
  }

  /** Joining components with slashes and splitting again gives them back. */
  lemma SplitJoined(parts: seq<string>)
    requires |parts| >= 1 && forall i :: 0 <= i < |parts| ==> Component(parts[i])
    ensures SplitOn(Join("/", parts), '/') == parts
  {
    assert forall i :: 0 <= i < |parts| ==> '/' !in parts[i] by {
      forall i | 0 <= i < |parts| ensures '/' !in parts[i] {
        assert Component(parts[i]);
      }
    }
    JoinSplitOn(parts, '/');
  }

  /** Joining pieces without the separator and splitting again gives them back. */
  lemma {:induction false} JoinSplitOn(parts: seq<string>, sep: char)
    requires |parts| >= 1
    requires forall i :: 0 <= i < |parts| ==> sep !in parts[i]
    ensures SplitOn(Join([sep], parts), sep) == parts
  {
    if |parts| > 1 {
      var rest := parts[1..];
      var s := Join([sep], parts);
      assert s == parts[0] + [sep] + Join([sep], rest);
      assert s[..|parts[0]|] == parts[0];
      assert s[|parts[0]|] == sep;
      var k := IndexOf(s, sep);
      assert k == |parts[0]|;
      assert s[k + 1..] == Join([sep], rest);
      JoinSplitOn(rest, sep);
    }
  }

  lemma JoinHead(parts: seq<string>)
    requires |parts| >= 1 && parts[0] != ""
    ensures Join("/", parts) != [] && Join("/", parts)[0] == parts[0][0]
  {
  }

  /** Components are all kept. */
  lemma {:induction false} KeptComponents(parts: seq<string>)
    requires forall i :: 0 <= i < |parts| ==> Component(parts[i])
    ensures KeptParts(parts) == parts
  {
    if parts != [] {
      KeptComponents(parts[1..]);
    }
  }

  /** An empty piece in front is dropped. */
  lemma KeptEmpty(pieces: seq<string>)
    ensures KeptParts([""] + pieces) == KeptParts(pieces)
  {
    assert ([""] + pieces)[1..] == pieces;
  }

  lemma LeadingSlash(s: string)
    ensures SplitOn("/" + s, '/') == [""] + SplitOn(s, '/')
  {
    assert IndexOf("/" + s, '/') == 0;
    assert ("/" + s)[1..] == s;
  }

  /** Building a fresh template, filling it for `uid`, building the XML and
      validating its text: the validation result, or the first error. */
  function Attempt(s: Services, uid: string): Result<Validation>
  {
    var converted :- Conversion(s.template, false);
    var filled :- Fill(converted, s.env, Str(uid));
    var tree :- JsonToXmlTree(filled, ROOT_TAG);
    Ok(ValidateXml(s.schema, s.serialize(tree)))
  }

  /** The error text of an invalid document: its message when one is given, else its errors joined. */
  function FailureText(v: Validation): string
  {
    if v.message.Some? && v.message.value != "" then v.message.value else Join("; ", v.errors)
  }

  /** The fields of a record whose document was built and is valid. */
  function Formed(uid: string): Fields
  {
    map["status" := Str(FORM_SUCC), "path_to_xml" := Str(XmlPath(uid)), "error_text" := Null]
  }

  /** The fields of a record whose document failed, with the reason. */
  function Failed(text: string): Fields
  {
    map["status" := Str(FORM_FAIL), "error_text" := Str(text)]
  }

  /** The fields step 2 writes for one record. */
  function Outcome(s: Services, uid: string): Fields
  {
    match Attempt(s, uid)
    case Err(e) => Failed(ErrorText(e))
    case Ok(v) =>
      if v.valid then Formed(uid)
      else Failed(FailureText(v))
  }

  /** A record is formed exactly when its document is built and valid, and
      then its file is recorded and its error cleared; otherwise it is
      failed with the error's text or the validation's. */
  lemma OutcomeMeaning(s: Services, uid: string)
    ensures var kw := Outcome(s, uid);
            && "status" in kw && "error_text" in kw
            && (kw["status"] == Str(FORM_SUCC) <==> Attempt(s, uid).Ok? && Attempt(s, uid).value.valid)
            && (kw["status"] != Str(FORM_SUCC) ==> kw["status"] == Str(FORM_FAIL) && kw["error_text"].Str?)
            && (kw["status"] == Str(FORM_SUCC) ==>
                  kw == Formed(uid))
            && (Attempt(s, uid).Err? ==> kw == Failed(ErrorText(Attempt(s, uid).error)))
            && (Attempt(s, uid).Ok? && !Attempt(s, uid).value.valid ==> kw == Failed(FailureText(Attempt(s, uid).value)))
  {
  }

  /** Whether the "kinds" of `uid` include 150002, or the error of asking. */
  function HasKind(s: Services, uid: string): Result<bool>
  {
    var rows :- s.kinds(uid);
    Ok(KIND in KindsFromRows(rows))
  }

  /** The tracker's records after step 2. */
  function AfterForming(s: Services, d: map<string, Fields>): (r: map<string, Fields>)
    ensures forall u :: u in r <==> u in d
  {
    map u | u in d :: if HasStatus(d[u], TO_FORM) then Merge(d[u], Outcome(s, u)) else d[u]
  }

  /** The tracker's records after step 3. */
  function AfterKinds(s: Services, d: map<string, Fields>): (r: map<string, Fields>)
    ensures forall u :: u in r <==> u in d
  {
    map u | u in d :: if HasStatus(d[u], FORMED) then Merge(d[u], Promotion(s, u)) else d[u]
  }

  /** Step 4's `rec['path_to_xml']` of every record, in order. */
  function Paths(rs: seq<Record>): (r: Result<seq<Value>>)
    ensures r.Ok? ==> |r.value| == |rs|
  {
    if rs == [] then Ok([])
    else if "path_to_xml" !in rs[0].fields then Err(KeyError("path_to_xml"))
    else
      var rest :- Paths(rs[1..]);
      Ok([rs[0].fields["path_to_xml"]] + rest)
  }

  /** The `try` block of step 2 up to the validation, with a fresh template
      for the record. */
  method TryForm(s: Services, uid: string) returns (r: Result<Validation>)
    ensures r == Attempt(s, uid)
  {
    var made := DataTemplate.New(s.template);
    if made.Err? {
      return Err(made.error);
    }
    var template := made.value;
    var filled := template.FillTemplate(s.env, Str(uid));
    if filled.Err? {
      return Err(filled.error);
    }
    var tree := JsonToXml(template.data, ROOT_TAG);
    if tree.Err? {
      return Err(tree.error);
    }
    return Ok(ValidateXml(s.schema, s.serialize(tree.value)));
  }

  /** Step 2 for one record, with a fresh template for it. */
  method ProcessRecord(s: Services, uid: string) returns (kw: Fields)
    ensures kw == Outcome(s, uid)
  {
    var attempt := TryForm(s, uid);
    if attempt.Err? {
      return Failed(ErrorText(attempt.error));
    }
    var result := attempt.value;
    if result.valid {
      kw := Formed(uid);
    } else {
      kw := Failed(FailureText(result));
    }
  }

  /** What a snapshot taken by `GetRecordsByStatus` provides: every
      selected record matches, and every matching record is selected. */
  lemma Snapshot(order: seq<string>, d: map<string, Fields>, statuses: seq<string>)
    requires forall u :: u in d <==> u in order
    ensures var rs := Select(order, d, statuses);
            forall j :: 0 <= j < |rs| ==> rs[j].uid in d && HasStatus(d[rs[j].uid], statuses)
    ensures var rs := Select(order, d, statuses);
            forall u :: u in d && HasStatus(d[u], statuses) ==> exists j :: 0 <= j < |rs| && rs[j].uid == u
  {
    var rs := Select(order, d, statuses);
    forall j | 0 <= j < |rs|
      ensures rs[j].uid in d && HasStatus(d[rs[j].uid], statuses)
    {
      assert rs[j] in rs;
    }
    forall u | u in d && HasStatus(d[u], statuses)
      ensures exists j :: 0 <= j < |rs| && rs[j].uid == u
    {
      SelectComplete(order, d, statuses, u);
      var j :| 0 <= j < |rs| && rs[j] == Record(u, d[u]);
    }
  }

  /** The records `d0` after the uids in `done` were each brought to their
      `target` record. */
  ghost predicate AppliedTo(d: map<string, Fields>, d0: map<string, Fields>, done: set<string>, target: map<string, Fields>)
  {
    (forall u :: u in d <==> u in d0)
    && forall u :: u in d0 ==> u in target && d[u] == if u in done then target[u] else d0[u]
  }

  /** Updating one more uid with the fields that lead to its target; updating
      one twice with the same fields is updating it once. */
  lemma AppliedStep(d: map<string, Fields>, d0: map<string, Fields>, done: set<string>, uid: string,
                    kw: Fields, target: map<string, Fields>)
    requires AppliedTo(d, d0, done, target) && uid in d0 && target[uid] == Merge(d0[uid], kw)
    ensures AppliedTo(d[uid := Merge(d[uid], kw)], d0, done + {uid}, target)
  {
    assert Merge(Merge(d0[uid], kw), kw) == Merge(d0[uid], kw);
  }

  /** Once the updated uids are exactly the matching ones, and the others
      are their own target, the records are the target. */
  lemma AppliedAll(d: map<string, Fields>, d0: map<string, Fields>, done: set<string>,
                   target: map<string, Fields>, statuses: seq<string>)
    requires AppliedTo(d, d0, done, target) && target.Keys == d0.Keys
    requires forall u :: u in d0 ==> (u in done <==> HasStatus(d0[u], statuses))
    requires forall u :: u in d0 && !HasStatus(d0[u], statuses) ==> target[u] == d0[u]
    ensures d == target
  {
  }

  /** Step 2's target: selected records get their outcome, the others stay. */
  lemma FormingTarget(s: Services, d0: map<string, Fields>)
    ensures var t := AfterForming(s, d0);
            && t.Keys == d0.Keys
            && (forall u :: u in d0 && !HasStatus(d0[u], TO_FORM) ==> t[u] == d0[u])
            && forall u :: u in d0 && HasStatus(d0[u], TO_FORM) ==> t[u] == Merge(d0[u], Outcome(s, u))
  {
  }

  /** Step 3's target: formed records get their promotion, the others stay. */
  lemma KindsTarget(s: Services, d0: map<string, Fields>)
    ensures var t := AfterKinds(s, d0);
            && t.Keys == d0.Keys
            && (forall u :: u in d0 && !HasStatus(d0[u], FORMED) ==> t[u] == d0[u])
            && forall u :: u in d0 && HasStatus(d0[u], FORMED) ==> t[u] == Merge(d0[u], Promotion(s, u))
  {
  }

  lemma DoneGrows(snap: seq<Record>, i: nat, done: set<string>)
    requires i < |snap| && forall j :: 0 <= j < i ==> snap[j].uid in done
    ensures forall j :: 0 <= j < i + 1 ==> snap[j].uid in done + {snap[i].uid}
  {
  }

  /** The i-th record of a snapshot is a matching, stored one. */
  lemma SnapshotAt(order: seq<string>, d: map<string, Fields>, statuses: seq<string>, i: nat)
    requires forall u :: u in d <==> u in order
    requires i < |Select(order, d, statuses)|
    ensures var u := Select(order, d, statuses)[i].uid;
            u in d && HasStatus(d[u], statuses)
  {
    Snapshot(order, d, statuses);
  }

  /** After a whole snapshot, the updated uids are exactly the matching ones. */
  lemma SnapshotDone(order: seq<string>, d: map<string, Fields>, statuses: seq<string>, done: set<string>)
    requires forall u :: u in d <==> u in order
    requires forall j :: 0 <= j < |Select(order, d, statuses)| ==> Select(order, d, statuses)[j].uid in done
    requires forall u :: u in done ==> u in d && HasStatus(d[u], statuses)
    ensures forall u :: u in d ==> (u in done <==> HasStatus(d[u], statuses))
  {
    Snapshot(order, d, statuses);
    var snap := Select(order, d, statuses);
    forall u | u in d
      ensures u in done <==> HasStatus(d[u], statuses)
    {
      if HasStatus(d[u], statuses) {
        var j :| 0 <= j < |snap| && snap[j].uid == u;
      }
    }
  }

  /** Step 2 for one selected record, written back through the tracker. */
  method FormOne(tracker: RecordTracker, s: Services, uid: string,
                 ghost d0: map<string, Fields>, ghost done: set<string>, ghost target: map<string, Fields>)
    requires tracker.Valid() && tracker.disk == Some(Dump(tracker.uids, tracker.data))
    requires AppliedTo(tracker.data, d0, done, target) && uid in d0 && target[uid] == Merge(d0[uid], Outcome(s, uid))
    modifies tracker
    ensures tracker.Valid() && tracker.disk == Some(Dump(tracker.uids, tracker.data))
    ensures tracker.uids == old(tracker.uids)
    ensures AppliedTo(tracker.data, d0, done + {uid}, target)
  {
    var fields := ProcessRecord(s, uid);
    InsertOne(tracker.uids, uid);
    AppliedStep(tracker.data, d0, done, uid, fields, target);
    tracker.UpdateRecord(uid, fields);
  }

  /** Step 2: every record selected beforehand gets its outcome; nothing else changes. */
  method FormRecords(tracker: RecordTracker, s: Services)
    requires tracker.Valid() && tracker.disk == Some(Dump(tracker.uids, tracker.data))
    modifies tracker
    ensures tracker.Valid() && tracker.disk == Some(Dump(tracker.uids, tracker.data))
    ensures tracker.uids == old(tracker.uids)
    ensures tracker.data == AfterForming(s, old(tracker.data))
  {
    var snap := tracker.GetRecordsByStatus(TO_FORM);
    ghost var d0 := tracker.data;
    ghost var done: set<string> := {};
    ghost var target := AfterForming(s, d0);
    FormingTarget(s, d0);
    var i := 0;
    while i < |snap|
      invariant 0 <= i <= |snap|
      invariant tracker.Valid() && tracker.disk == Some(Dump(tracker.uids, tracker.data))
      invariant tracker.uids == old(tracker.uids)
      invariant AppliedTo(tracker.data, d0, done, target)
      invariant forall j :: 0 <= j < i ==> snap[j].uid in done
      invariant forall u :: u in done ==> u in d0 && HasStatus(d0[u], TO_FORM)
    {
      var uid := snap[i].uid;
      SnapshotAt(tracker.uids, d0, TO_FORM, i);
      FormOne(tracker, s, uid, d0, done, target);
      DoneGrows(snap, i, done);
      done := done + {uid};
      i := i + 1;
    }
    SnapshotDone(tracker.uids, d0, TO_FORM, done);
    AppliedAll(tracker.data, d0, done, target, TO_FORM);
  }

  /** The update step 3 makes to a formed record. */
  function Promotion(s: Services, uid: string): Fields
  {
    if HasKind(s, uid) == Ok(true) then map["status" := Str(KIND)] else map[]
  }

  /** Step 3 for one formed record. */
  method PromoteIfKind(tracker: RecordTracker, s: Services, uid: string,
                       ghost d0: map<string, Fields>, ghost done: set<string>, ghost target: map<string, Fields>)
    requires tracker.Valid() && tracker.disk == Some(Dump(tracker.uids, tracker.data))
    requires AppliedTo(tracker.data, d0, done, target) && uid in d0 && target[uid] == Merge(d0[uid], Promotion(s, uid))
    modifies tracker
    ensures tracker.Valid() && tracker.disk == Some(Dump(tracker.uids, tracker.data))
    ensures tracker.uids == old(tracker.uids)
    ensures AppliedTo(tracker.data, d0, done + {uid}, target)
  {
    AppliedStep(tracker.data, d0, done, uid, Promotion(s, uid), target);
    var rows := s.kinds(uid);
    if rows.Ok? && KIND in KindsFromRows(rows.value) {
      InsertOne(tracker.uids, uid);
      tracker.UpdateRecord(uid, map["status" := Str(KIND)]);
    } else {
      MergeNothing(tracker.data, uid);
    }
  }

  /** Updating a record with no fields leaves the records as they are. */
  lemma MergeNothing(d: map<string, Fields>, uid: string)
    requires uid in d
    ensures d[uid := Merge(d[uid], map[])] == d
  {
    assert Merge(d[uid], map[]) == d[uid];
  }

  /** Step 3: a formed record whose kinds include 150002 is promoted; an
      error or a missing kind leaves it alone. */
  method CheckKinds(tracker: RecordTracker, s: Services)
    requires tracker.Valid() && tracker.disk == Some(Dump(tracker.uids, tracker.data))
    modifies tracker
    ensures tracker.Valid() && tracker.disk == Some(Dump(tracker.uids, tracker.data))
    ensures tracker.uids == old(tracker.uids)
    ensures tracker.data == AfterKinds(s, old(tracker.data))
  {
    var snap := tracker.GetRecordsByStatus(FORMED);
    ghost var d0 := tracker.data;
    ghost var done: set<string> := {};
    ghost var target := AfterKinds(s, d0);
    KindsTarget(s, d0);
    var i := 0;
    while i < |snap|
      invariant 0 <= i <= |snap|
      invariant tracker.Valid() && tracker.disk == Some(Dump(tracker.uids, tracker.data))
      invariant tracker.uids == old(tracker.uids)
      invariant AppliedTo(tracker.data, d0, done, target)
      invariant forall j :: 0 <= j < i ==> snap[j].uid in done
      invariant forall u :: u in done ==> u in d0 && HasStatus(d0[u], FORMED)
    {
      var uid := snap[i].uid;
      SnapshotAt(tracker.uids, d0, FORMED, i);
      PromoteIfKind(tracker, s, uid, d0, done, target);
      DoneGrows(snap, i, done);
      done := done + {uid};
      i := i + 1;
    }
    SnapshotDone(tracker.uids, d0, FORMED, done);
    AppliedAll(tracker.data, d0, done, target, FORMED);
  }

  /** Step 4: the files of every promoted record, or the `KeyError` of one
      that has none. */
  method FilesToSend(tracker: RecordTracker) returns (r: Result<seq<Value>>)
    requires tracker.Valid()
    ensures r == Paths(Select(tracker.uids, tracker.data, TO_SEND))
  {
    var snap := tracker.GetRecordsByStatus(TO_SEND);
    var acc: seq<Value> := [];
    var i := 0;
    assert snap[i..] == snap;
    PrefixedNothing(Paths(snap));
    while i < |snap|
      invariant 0 <= i <= |snap|
      invariant Paths(snap) == Prefixed(acc, Paths(snap[i..]))
    {
      assert snap[i..][0] == snap[i] && snap[i..][1..] == snap[i + 1..];
      if "path_to_xml" !in snap[i].fields {
        return Err(KeyError("path_to_xml"));
      }
      PrefixedAppend(acc, [snap[i].fields["path_to_xml"]], Paths(snap[i + 1..]));
      acc := acc + [snap[i].fields["path_to_xml"]];
      i := i + 1;
    }
    PrefixedEnd(acc, Paths(snap[i..]));
    return Ok(acc);
  }

  /** One iteration of the `while True` loop. */
  method RunCycle(tracker: RecordTracker, s: Services) returns (toSend: Result<seq<Value>>)
    requires tracker.Valid()
    modifies tracker
    ensures tracker.Valid() && tracker.disk == Some(Dump(tracker.uids, tracker.data))
    ensures tracker.uids == InsertOrder(old(tracker.uids), s.newRows)
    ensures tracker.data == CycleData(s, old(tracker.data))
    ensures toSend == Paths(Select(tracker.uids, tracker.data, TO_SEND))
  {
    tracker.ScanNewRecords(s.newRows);
    FormRecords(tracker, s);
    CheckKinds(tracker, s);
    toSend := FilesToSend(tracker);
  }

  /** The tracker's records after a whole cycle. */
  function CycleData(s: Services, d: map<string, Fields>): map<string, Fields>
  {
    AfterKinds(s, AfterForming(s, ScanData(d, s.newRows)))
  }

  // ------------------------------------------------------- the state machine

  /** A cycle never forgets a record. */
  lemma CycleKeepsUids(s: Services, d: map<string, Fields>, u: string)
    requires u in d
    ensures u in CycleData(s, d)
  {
  }

  /** A record already promoted to 150002 is left exactly as it was. */
  lemma PromotedIsFinal(s: Services, d: map<string, Fields>, u: string)
    requires u in d && d[u]["status" := Str(KIND)] == d[u]
    ensures CycleData(s, d)[u] == d[u]
  {
    assert d[u]["status"] == Str(KIND);
    assert !HasStatus(d[u], TO_FORM) by { assert KIND != NEW && KIND != FORM_FAIL; }
    assert !HasStatus(d[u], FORMED) by { assert KIND != FORM_SUCC; }
  }

  /** A new record whose document validates and whose object has kind
      150002 is formed and promoted in the same cycle, with its file recorded. */
  lemma NewRecordPromoted(s: Services, d: map<string, Fields>, u: string)
    requires u !in d && u in s.newRows
    requires Attempt(s, u).Ok? && Attempt(s, u).value.valid
    requires HasKind(s, u) == Ok(true)
    ensures u in CycleData(s, d)
    ensures var r := CycleData(s, d)[u];
            && "status" in r && r["status"] == Str(KIND)
            && "path_to_xml" in r && r["path_to_xml"] == Str(XmlPath(u))
            && "error_text" in r && r["error_text"] == Null
  {
    OutcomeMeaning(s, u);
    var d1 := ScanData(d, s.newRows);
    assert u in d1 && d1[u] == NEW_FIELDS;
    FormingTarget(s, d1);
    var d2 := AfterForming(s, d1);
    assert d2[u] == Merge(NEW_FIELDS, Formed(u));
    FormedThenPromoted(NEW_FIELDS, u);
    KindsTarget(s, d2);
    assert CycleData(s, d)[u] == Merge(Merge(NEW_FIELDS, Formed(u)), map["status" := Str(KIND)]);
  }

  /** A formed record is one step 3 selects; promoting it keeps its file. */
  lemma FormedThenPromoted(f: Fields, u: string)
    ensures HasStatus(Merge(f, Formed(u)), FORMED)
    ensures var r := Merge(Merge(f, Formed(u)), map["status" := Str(KIND)]);
            && "status" in r && r["status"] == Str(KIND)
            && "path_to_xml" in r && r["path_to_xml"] == Str(XmlPath(u))
            && "error_text" in r && r["error_text"] == Null
  {
    var g := Merge(f, Formed(u));
    assert g["status"] == Str(FORM_SUCC);
  }

  /** A record whose attempt fails is marked failed with the error's text,
      and is attempted again by the next cycle. */
  lemma FailedRecordRetried(s: Services, d: map<string, Fields>, u: string)
    requires u in d && HasStatus(d[u], TO_FORM) && Attempt(s, u).Err?
    ensures var r := CycleData(s, d)[u];
            && r["status"] == Str(FORM_FAIL) && r["error_text"] == Str(ErrorText(Attempt(s, u).error))
            && HasStatus(r, TO_FORM)
  {
    OutcomeMeaning(s, u);
    var d1 := ScanData(d, s.newRows);
    assert d1[u] == d[u];
    var d2 := AfterForming(s, d1);
    assert d2[u] == Merge(d[u], Failed(ErrorText(Attempt(s, u).error)));
    assert !HasStatus(d2[u], FORMED);
  }

  /** An invalid document is reported by its message, or by its errors joined. */
  lemma InvalidRecordReported(s: Services, d: map<string, Fields>, u: string)
    requires u in d && HasStatus(d[u], TO_FORM)
    requires Attempt(s, u).Ok? && !Attempt(s, u).value.valid
    ensures CycleData(s, d)[u]["error_text"] == Str(FailureText(Attempt(s, u).value))
    ensures CycleData(s, d)[u]["status"] == Str(FORM_FAIL)
  {
    OutcomeMeaning(s, u);
    var d2 := AfterForming(s, ScanData(d, s.newRows));
    assert !HasStatus(d2[u], FORMED);
  }

  /** Without a schema nothing validates, so no record is ever formed. */
  lemma NoSchemaNeverForms(s: Services, uid: string)
    requires s.schema.None? && Attempt(s, uid).Ok?
    ensures Outcome(s, uid) == Failed("XSD schema not loaded")
  {
  }

  /** A formed record stays formed while its kinds lack 150002 or cannot be read. */
  lemma FormedWaits(s: Services, d: map<string, Fields>, u: string)
    requires u in d && d[u]["status" := Str(FORM_SUCC)] == d[u] && HasKind(s, u) != Ok(true)
    ensures CycleData(s, d)[u] == d[u]
  {
    assert d[u]["status"] == Str(FORM_SUCC);
    assert !HasStatus(d[u], TO_FORM);
  }

  // ------------------------------------------ as written: the logger refuses `force_print`

  /** `str(e)` of the TypeError a call of `Logger.log(self, *args)` raises
      when it is given the keyword argument `k`. */
  function UnexpectedKeyword(k: string): string
  {
    "Logger.log() got an unexpected keyword argument '" + k + "'"
  }

  /** The keywords of `logger.log(..., force_print=True)`. */
  const FORCE_PRINT: seq<string> := ["force_print"]

  const LOG_ERROR: string := UnexpectedKeyword("force_print")
  const LOG_RAISES: Error := TypeError(LOG_ERROR)

  /** `logger.log(*args, **keywords)`: the logger takes positional arguments
      only, so the first keyword raises. */
  function Log(keywords: seq<string>): (r: Result<()>)
    ensures r.Ok? <==> keywords == []
    ensures r.Err? ==> r.error == TypeError(UnexpectedKeyword(keywords[0]))
  {
    if keywords == [] then Ok(()) else Err(TypeError(UnexpectedKeyword(keywords[0])))
  }

  /** Every `force_print` log call of the loop raises the same TypeError. */
  lemma ForcePrintRaises()
    ensures Log(FORCE_PRINT) == Err(LOG_RAISES)
    ensures ErrorText(LOG_RAISES) == LOG_ERROR
  {
  }

  /** A record after step 2's `try` and `except` blocks as written: the
      outcome is written; when the `try` block reached its log call, that
      call's TypeError is caught and written over it. */
  function FormedAsWritten(s: Services, uid: string, f: Fields): Fields
  {
    var kw := Merge(f, Outcome(s, uid));
    if Attempt(s, uid).Ok? then Merge(kw, Failed(LOG_ERROR)) else kw
  }

  /** Step 2 for one record as written; the exception the `except` block's
      own log call raises out of `main()`. */
  method FormOneAsWritten(tracker: RecordTracker, s: Services, uid: string) returns (raised: Error)
    requires tracker.Valid() && uid in tracker.data
    modifies tracker
    ensures tracker.Valid() && tracker.disk == Some(Dump(tracker.uids, tracker.data))
    ensures tracker.uids == old(tracker.uids)
    ensures tracker.data == old(tracker.data)[uid := FormedAsWritten(s, uid, old(tracker.data)[uid])]
    ensures raised == LOG_RAISES
  {
    ForcePrintRaises();
    InsertOne(tracker.uids, uid);
    ghost var d0 := tracker.data;
    ghost var f := d0[uid];
    var attempt := TryForm(s, uid);
    var caught: Error;
    if attempt.Ok? {
      var kw := if attempt.value.valid then Formed(uid) else Failed(FailureText(attempt.value));
      assert kw == Outcome(s, uid);
      tracker.UpdateRecord(uid, kw);
      assert tracker.data == d0[uid := Merge(f, kw)];
      caught := Log(FORCE_PRINT).error;
    } else {
      assert Failed(ErrorText(attempt.error)) == Outcome(s, uid);
      caught := attempt.error;
    }
    ghost var before := tracker.data;
    ghost var g := before[uid];
    assert Existing(before, uid) == g;
    tracker.UpdateRecord(uid, Failed(ErrorText(caught)));
    assert tracker.data == before[uid := Merge(g, Failed(ErrorText(caught)))];
    if attempt.Ok? {
      UpdateTwice(d0, uid, g, Merge(g, Failed(ErrorText(caught))));
    }
    raised := Log(FORCE_PRINT).error;
  }

  /** Writing a key twice keeps the second value only. */
  lemma UpdateTwice(d: map<string, Fields>, k: string, x: Fields, y: Fields)
    ensures d[k := x][k := y] == d[k := y]
  {
  }

  /** Step 3 for one formed record as written: the promotion is written, then
      the log call raises, and so does the `except` block's. */
  method CheckKindAsWritten(tracker: RecordTracker, s: Services, uid: string) returns (raised: Error)
    requires tracker.Valid() && tracker.disk == Some(Dump(tracker.uids, tracker.data)) && uid in tracker.data
    modifies tracker
    ensures tracker.Valid() && tracker.disk == Some(Dump(tracker.uids, tracker.data))
    ensures tracker.uids == old(tracker.uids)
    ensures tracker.data == old(tracker.data)[uid := Merge(old(tracker.data)[uid], Promotion(s, uid))]
    ensures raised == LOG_RAISES
  {
    ForcePrintRaises();
    var rows := s.kinds(uid);
    if rows.Ok? && KIND in KindsFromRows(rows.value) {
      InsertOne(tracker.uids, uid);
      tracker.UpdateRecord(uid, map["status" := Str(KIND)]);
    } else {
      MergeNothing(tracker.data, uid);
    }
    raised := Log(FORCE_PRINT).error;
  }

  /** One iteration of the loop as written: the records after it, and the
      list of files to send or the exception that ends `main()`. Step 2's
      loop never passes its first record, and step 3 runs only when step 2
      selects nothing, stopping at its own first record. */
  function CycleAsWritten(s: Services, order: seq<string>, d: map<string, Fields>): (map<string, Fields>, Result<seq<Value>>)
    requires forall u :: u in order <==> u in d
  {
    var order1 := InsertOrder(order, s.newRows);
    var d1 := ScanData(d, s.newRows);
    var forming := Select(order1, d1, TO_FORM);
    if forming != [] then
      var u := forming[0].uid;
      assert forming[0] in forming;
      (d1[u := FormedAsWritten(s, u, d1[u])], Err(LOG_RAISES))
    else
      var formed := Select(order1, d1, FORMED);
      if formed != [] then
        var u := formed[0].uid;
        assert formed[0] in formed;
        (d1[u := Merge(d1[u], Promotion(s, u))], Err(LOG_RAISES))
      else (d1, Paths(Select(order1, d1, TO_SEND)))
  }

  /** One iteration of the `while True` loop as written. Step 2 and step 3
      each iterate a snapshot, but the first record either step reaches
      ends `main()`, so the model stops there. */
  method RunCycleAsWritten(tracker: RecordTracker, s: Services) returns (r: Result<seq<Value>>)
    requires tracker.Valid()
    modifies tracker
    ensures tracker.Valid() && tracker.disk == Some(Dump(tracker.uids, tracker.data))
    ensures tracker.uids == InsertOrder(old(tracker.uids), s.newRows)
    ensures (tracker.data, r) == CycleAsWritten(s, old(tracker.uids), old(tracker.data))
  {
    tracker.ScanNewRecords(s.newRows);
    var forming := tracker.GetRecordsByStatus(TO_FORM);
    if forming != [] {
      assert forming[0] in forming;
      var raised := FormOneAsWritten(tracker, s, forming[0].uid);
      return Err(raised);
    }
    var formed := tracker.GetRecordsByStatus(FORMED);
    if formed != [] {
      assert formed[0] in formed;
      var raised := CheckKindAsWritten(tracker, s, formed[0].uid);
      return Err(raised);
    }
    r := FilesToSend(tracker);
  }

  /** As written, step 2 never leaves a record formed: the log call after a
      valid document raises, and its text is written over the outcome. */
  lemma NeverFormedAsWritten(s: Services, uid: string, f: Fields)
    ensures var r := FormedAsWritten(s, uid, f);
            && "status" in r && r["status"] == Str(FORM_FAIL) && !HasStatus(r, FORMED)
            && "error_text" in r
            && (Attempt(s, uid).Ok? ==> r["error_text"] == Str(LOG_ERROR))
            && (Attempt(s, uid).Err? ==> r["error_text"] == Str(ErrorText(Attempt(s, uid).error)))
            && (Attempt(s, uid).Ok? && Attempt(s, uid).value.valid ==>
                  "path_to_xml" in r && r["path_to_xml"] == Str(XmlPath(uid)))
  {
    var kw := Merge(f, Outcome(s, uid));
    var r := FormedAsWritten(s, uid, f);
    match Attempt(s, uid)
    case Err(e) =>
      assert Outcome(s, uid) == Failed(ErrorText(e));
      assert r == kw;
      assert "status" in Outcome(s, uid) && "error_text" in Outcome(s, uid);
    case Ok(v) =>
      var fail := Failed(LOG_ERROR);
      assert r == Merge(kw, fail);
      assert "status" in fail && fail["status"] == Str(FORM_FAIL);
      assert "error_text" in fail && fail["error_text"] == Str(LOG_ERROR);
      assert "path_to_xml" !in fail;
      if v.valid {
        assert Outcome(s, uid) == Formed(uid);
        assert "path_to_xml" in Outcome(s, uid);
        assert kw["path_to_xml"] == Str(XmlPath(uid));
      }
  }

  /** As written, an iteration with a record to form changes that record
      only, leaves every other record as the scan left it, and ends `main()`
      with the logger's TypeError. */
  lemma StepTwoStopsAtFirst(s: Services, order: seq<string>, d: map<string, Fields>)
    requires forall u :: u in order <==> u in d
    requires Select(InsertOrder(order, s.newRows), ScanData(d, s.newRows), TO_FORM) != []
    ensures var u := Select(InsertOrder(order, s.newRows), ScanData(d, s.newRows), TO_FORM)[0].uid;
            var d1 := ScanData(d, s.newRows);
            var (d2, r) := CycleAsWritten(s, order, d);
            && u in d1 && HasStatus(d1[u], TO_FORM)
            && r == Err(LOG_RAISES)
            && d2 == d1[u := FormedAsWritten(s, u, d1[u])]
            && "status" in d2[u] && d2[u]["status"] == Str(FORM_FAIL)
            && forall v :: v in d1 && v != u ==> v in d2 && d2[v] == d1[v]
  {
    var forming := Select(InsertOrder(order, s.newRows), ScanData(d, s.newRows), TO_FORM);
    assert forming[0] in forming;
    NeverFormedAsWritten(s, forming[0].uid, ScanData(d, s.newRows)[forming[0].uid]);
  }

  /** The smallest input that shows it: an empty tracker and one new uid
      whose document validates. The intended cycle forms the record; as
      written it ends `FORM_FAIL` with the logger's text, and `main()` exits. */
  lemma NewValidRecordFailsAsWritten(s: Services, u: string)
    requires s.newRows == [u] && Attempt(s, u).Ok? && Attempt(s, u).value.valid
    ensures var (d2, r) := CycleAsWritten(s, [], map[]);
            && r == Err(LOG_RAISES) && d2.Keys == {u}
            && "status" in d2[u] && d2[u]["status"] == Str(FORM_FAIL)
            && "path_to_xml" in d2[u] && d2[u]["path_to_xml"] == Str(XmlPath(u))
            && "error_text" in d2[u] && d2[u]["error_text"] == Str(LOG_ERROR)
    ensures u in AfterForming(s, ScanData(map[], s.newRows))
    ensures AfterForming(s, ScanData(map[], s.newRows))[u] == Merge(NEW_FIELDS, Formed(u))
  {
    var d1 := ScanData(map[], s.newRows);
    assert d1 == map[u := NEW_FIELDS];
    assert InsertOrder([], s.newRows) == [u] by { InsertOne([], u); }
    assert HasStatus(NEW_FIELDS, TO_FORM);
    assert Select([u], d1, TO_FORM) == [Record(u, NEW_FIELDS)] by {
      assert [u][..0] == [];
    }
    NeverFormedAsWritten(s, u, NEW_FIELDS);
    OutcomeMeaning(s, u);
    StepTwoStopsAtFirst(s, [], map[]);
    var r := FormedAsWritten(s, u, NEW_FIELDS);
    assert CycleAsWritten(s, [], map[]).0 == d1[u := r];
  }

  /** As written, step 3 runs only when step 2 has nothing to form, and then
      its first formed record ends `main()`: only that record may change. */
  lemma StepThreeStopsAtFirst(s: Services, order: seq<string>, d: map<string, Fields>)
    requires forall u :: u in order <==> u in d
    requires Select(InsertOrder(order, s.newRows), ScanData(d, s.newRows), TO_FORM) == []
    requires Select(InsertOrder(order, s.newRows), ScanData(d, s.newRows), FORMED) != []
    ensures var u := Select(InsertOrder(order, s.newRows), ScanData(d, s.newRows), FORMED)[0].uid;
            var d1 := ScanData(d, s.newRows);
            var (d2, r) := CycleAsWritten(s, order, d);
            && u in d1 && HasStatus(d1[u], FORMED)
            && r == Err(LOG_RAISES)
            && d2 == d1[u := Merge(d1[u], Promotion(s, u))]
            && (HasKind(s, u) == Ok(true) ==> "status" in d2[u] && d2[u]["status"] == Str(KIND))
  {
    var formed := Select(InsertOrder(order, s.newRows), ScanData(d, s.newRows), FORMED);
    assert formed[0] in formed;
  }
}
