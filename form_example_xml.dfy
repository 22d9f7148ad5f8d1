/** The example order document of the database tester: each trademark,
    paired with its applicant contact, becomes one `order` whose applicant is
    a `user` (a person, identified by passport) or an `organization` (a
    legal entity or a sole proprietor, identified by INN and OGRN). Elements
    are values; the text of an element is the Python object assigned to it.
    Turning a truthy text that is not a string into XML raises, as
    ElementTree's `tostring` does, and so does parsing the written document
    back when a text holds a character XML 1.0 forbids. */
module FormExampleXml {
  import opened PyCore
  import XmlGen
  import FormXml

  /** A database row as a dict of column name to value. */
  type Row = map<string, Value>

  /** An element as ElementTree holds it before serialisation. */
  datatype Elem = Elem(tag: string, attrs: map<string, string>, text: Option<Value>, children: seq<Elem>)

  const SERIALIZE_ERROR: Error := TypeError("cannot serialize a text that is not a string")
  const PARSE_ERROR: Error := Raised("not well-formed (invalid token)")

  /** The fixed values the document falls back on. */
  const DEFAULT_PASSPORT: string := "1234567890"
  const DEFAULT_LAST_NAME: string := "Иванов"
  const DEFAULT_FIRST_NAME: string := "Иван"
  const DEFAULT_MIDDLE_NAME: string := "Иванович"
  const DEFAULT_IP_OGRN: string := "300000000000000"

  /** Python `d.get(key, default)`. */
  function GetOr(d: Row, key: string, default: Value): Value
  {
    if key in d then d[key] else default
  }

  /** Python `len()` of a scalar: only a string has one. */
  function Len(v: Value): (r: Result<nat>)
    ensures r.Ok? <==> v.Str?
    ensures v.Str? ==> r.value == |v.s|
  {
    if v.Str? then Ok(|v.s|) else Err(LenError(v))
  }

  /** `ET.SubElement(parent, tag)` with nothing set. */
  function Empty(tag: string): Elem
  {
    Elem(tag, map[], None, [])
  }

  /** `ET.SubElement(parent, tag).text = text`. */
  function Leaf(tag: string, text: Value): Elem
  {
    Elem(tag, map[], Some(text), [])
  }

  /** `parent` with `child` appended as its last sub-element. */
  function Append(parent: Elem, child: Elem): (r: Elem)
    ensures r.tag == parent.tag && r.attrs == parent.attrs && r.text == parent.text
    ensures r.children == parent.children + [child]
  {
    parent.(children := parent.children + [child])
  }

  // ------------------------------------------------------ applicant type

  /** What `determine_applicant_type` returns. */
  datatype ApplicantType = Legal | Ip | Individual

  /** The label the source returns for each kind. */
  function Label(t: ApplicantType): string
  {
    match t
    case Legal => "legal"
    case Ip => "ip"
    case Individual => "individual"
  }

  /** `determine_applicant_type`. A passport number leads to `individual`,
      which is also the answer without one, so it does not decide anything. */
  function DetermineApplicantType(contact: Row): Result<ApplicantType>
  {
    var inn := GetOr(contact, "inn", Null);
    if Truthy(inn) then
      var n :- Len(inn);
      if n == 10 then Ok(Legal) else if n == 12 then Ok(Ip) else Ok(Individual)
    else Ok(Individual)
  }

  /** A truthy INN of ten characters is a legal entity, of twelve a sole
      proprietor; every other contact is a person, except that a truthy INN
      that is not a string has no length and raises. */
  lemma ApplicantTypeMeaning(contact: Row)
    ensures var inn := GetOr(contact, "inn", Null); var r := DetermineApplicantType(contact);
            && (r.Err? <==> Truthy(inn) && !inn.Str?)
            && (r == Ok(Legal) <==> inn.Str? && |inn.s| == 10)
            && (r == Ok(Ip) <==> inn.Str? && |inn.s| == 12)
            && (r == Ok(Individual) <==> !Truthy(inn) || (inn.Str? && |inn.s| != 10 && |inn.s| != 12))
  {
  }

  // ------------------------------------------------------ split_fio

  /** The three parts `split_fio` returns: surname, first name, patronymic. */
  datatype Fio = Fio(last: string, first: string, middle: string)

  /** `split_fio`: the whitespace-separated words of the name; the third
      part holds every word after the second, joined by single spaces. */
  function SplitFio(fullName: Value): Result<Fio>
  {
    if !fullName.Str? then Err(NoAttribute(fullName, "split")) else Ok(FioOfWords(Split(fullName.s)))
  }

  /** The three parts cut from a list of words. */
  function FioOfWords(parts: seq<string>): Fio
  {
    if |parts| >= 3 then Fio(parts[0], parts[1], Join(" ", parts[2..]))
    else if |parts| == 2 then Fio(parts[0], parts[1], "")
    else if |parts| == 1 then Fio(parts[0], "", "")
    else Fio("", "", "")
  }

  /** `split_fio` and the contact clean-up's `parse_fio` cut every string
      name into the same three parts: the one splits the name, the other its
      stripped copy, and stripping does not change the words. */
  lemma SplitFioAgrees(s: string)
    ensures SplitFio(Str(s)).Ok? && FormXml.Fio(Str(s)).Ok?
    ensures var f := SplitFio(Str(s)).value; var d := FormXml.Fio(Str(s)).value;
            f == Fio(d.lastName, d.firstName, d.middleName)
  {
    FormXml.FioOfText(s);
    var ws := Split(s);
    assert SplitFio(Str(s)) == Ok(FioOfWords(ws));
  }

  /** Only a string can be split; the parts are words, a missing one is
      empty, and the second or third is set only when the one before is. */
  lemma SplitFioParts(v: Value)
    ensures SplitFio(v).Ok? <==> v.Str?
    ensures SplitFio(v).Ok? ==>
              var f := SplitFio(v).value;
              && (f.first != "" ==> f.last != "")
              && (f.middle != "" ==> f.first != "")
              && (f.last == "" <==> Split(v.s) == [])
              && forall j :: 0 <= j < |f.last| ==> !IsSpace(f.last[j])
  {
    if v.Str? {
      SplitGivesWords(v.s);
      var ws := Split(v.s);
      if |ws| >= 3 {
        assert ws[0] != [] && ws[1] != [];
      } else if |ws| >= 1 {
        assert ws[0] != [];
      }
    }
  }

  /** The non-empty parts, joined by spaces again, are the words of the name. */
  lemma SplitFioKeepsWords(s: string)
    ensures SplitFio(Str(s)).Ok?
    ensures var f := SplitFio(Str(s)).value;
            Split(Join(" ", [f.last, f.first, f.middle])) == Split(s)
  {
    SplitFioAgrees(s);
    FormXml.FioKeepsWords(s);
  }

  // ------------------------------------------------------ user element

  /** Python `x if x else default` for a text that ends up in the document. */
  function OrDefault(v: Value, default: string): Value
  {
    if Truthy(v) then v else Str(default)
  }

  /** The `user` element `create_user_element` appends. */
  function UserElement(contact: Row): Result<Elem>
  {
    var fio :- SplitFio(GetOr(contact, "name", Str("")));
    Ok(UserOf(fio, GetOr(contact, "passport_number", Str(""))))
  }

  /** The `user` element of a person with these name parts and passport. */
  function UserOf(f: Fio, passport: Value): Elem
  {
    var doc := [Leaf("PersonalDocType", Str("1")),
                Leaf("number", OrDefault(passport, DEFAULT_PASSPORT)),
                Leaf("lastName", OrDefault(Str(f.last), DEFAULT_LAST_NAME)),
                Leaf("firstName", OrDefault(Str(f.first), DEFAULT_FIRST_NAME))]
               + (if f.middle != "" then [Leaf("middleName", Str(f.middle))] else [])
               + [Leaf("citizenship", Str("1"))];
    Elem("user", map[], None, [Elem("userPersonalDoc", map[], None, doc)])
  }

  /** `create_user_element`: the `user` element and its personal document,
      appended to `parent` one sub-element at a time. */
  method CreateUserElement(parent: Elem, contact: Row) returns (r: Result<Elem>)
    ensures UserElement(contact).Err? ==> r == Err(UserElement(contact).error)
    ensures UserElement(contact).Ok? ==> r == Ok(Append(parent, UserElement(contact).value))
  {
    var fio := SplitFio(GetOr(contact, "name", Str("")));
    if fio.Err? {
      return Err(fio.error);
    }
    var passport := GetOr(contact, "passport_number", Str(""));
    var doc := CreatePersonalDoc(fio.value, passport);
    var user := Append(Empty("user"), doc);
    assert user.children == [doc];
    return Ok(Append(parent, user));
  }

  /** The `userPersonalDoc` element of `create_user_element`, filled one
      sub-element at a time. */
  method CreatePersonalDoc(f: Fio, passport: Value) returns (doc: Elem)
    ensures [doc] == UserOf(f, passport).children
  {
    ghost var first4 := [Leaf("PersonalDocType", Str("1")),
                         Leaf("number", OrDefault(passport, DEFAULT_PASSPORT)),
                         Leaf("lastName", OrDefault(Str(f.last), DEFAULT_LAST_NAME)),
                         Leaf("firstName", OrDefault(Str(f.first), DEFAULT_FIRST_NAME))];
    ghost var middle := if f.middle != "" then [Leaf("middleName", Str(f.middle))] else [];
    doc := Empty("userPersonalDoc");
    doc := Append(doc, Leaf("PersonalDocType", Str("1")));
    doc := Append(doc, Leaf("number", if Truthy(passport) then passport else Str(DEFAULT_PASSPORT)));
    doc := Append(doc, Leaf("lastName", if f.last != "" then Str(f.last) else Str(DEFAULT_LAST_NAME)));
    doc := Append(doc, Leaf("firstName", if f.first != "" then Str(f.first) else Str(DEFAULT_FIRST_NAME)));
    assert doc.children == first4;
    if f.middle != "" {
      doc := Append(doc, Leaf("middleName", Str(f.middle)));
    }
    assert doc.children == first4 + middle;
    doc := Append(doc, Leaf("citizenship", Str("1")));
    assert doc == Elem("userPersonalDoc", map[], None, first4 + middle + [Leaf("citizenship", Str("1"))]);
  }

  /** The personal document holds, in order, the document type, the passport
      number or the fixed one, the surname and first name or the fixed ones,
      the patronymic only when there is one, and the citizenship. */
  lemma UserOfMeaning(f: Fio, passport: Value)
    ensures var u := UserOf(f, passport);
            && u.tag == "user" && |u.children| == 1 && u.children[0].tag == "userPersonalDoc"
            && var doc := u.children[0].children;
            && |doc| == (if f.middle == "" then 5 else 6)
            && doc[1] == Leaf("number", if Truthy(passport) then passport else Str(DEFAULT_PASSPORT))
            && doc[2].text == Some(Str(if f.last == "" then DEFAULT_LAST_NAME else f.last))
            && doc[3].text == Some(Str(if f.first == "" then DEFAULT_FIRST_NAME else f.first))
            && (f.middle != "" ==> doc[4] == Leaf("middleName", Str(f.middle)))
            && (forall i :: 0 <= i < |doc| && doc[i].tag == "middleName" ==> f.middle != "")
            && doc[|doc| - 1] == Leaf("citizenship", Str("1"))
  {
  }

  /** A contact whose name is stored as NULL (`name` present with value
      None) makes `create_user_element` raise: `dict.get` returns the None,
      not the default, and None has no `split`. */
  lemma UserElementNullName(contact: Row)
    requires "name" in contact && contact["name"] == Null
    ensures UserElement(contact) == Err(NoAttribute(Null, "split"))
  {
  }

  // ------------------------------------------------------ organization element

  /** The `ogrn` element when the contact has a truthy OGRN. */
  function OgrnOr(contact: Row, default: Option<string>): Option<Elem>
  {
    var ogrn := GetOr(contact, "ogrn", Null);
    if Truthy(ogrn) then Some(Leaf("ogrn", ogrn))
    else if default.Some? then Some(Leaf("ogrn", Str(default.value)))
    else None
  }

  /** The name parts of a sole proprietor that are not empty, in order. */
  function NameParts(f: Fio): (r: seq<Elem>)
    ensures |r| <= 3
    ensures forall i :: 0 <= i < |r| ==> r[i].text.Some? && r[i].text.value.Str? && r[i].text.value.s != ""
  {
    (if f.last != "" then [Leaf("lastName", Str(f.last))] else [])
    + (if f.first != "" then [Leaf("firstName", Str(f.first))] else [])
    + (if f.middle != "" then [Leaf("middleName", Str(f.middle))] else [])
  }

  /** The `organization` element `create_organization_element` appends. */
  function OrganizationElement(contact: Row): Result<Elem>
  {
    var inn := GetOr(contact, "inn", Str(""));
    var n :- Len(inn);
    var name := GetOr(contact, "name", Null);
    if n == 10 then Ok(Elem("organization", map[], None, [LegalOf(contact, inn)]))
    else if n == 12 then
      var names :- if Truthy(name) then
                     var f :- SplitFio(name);
                     Ok(NameParts(f))
                   else Ok([]);
      Ok(Elem("organization", map[], None, [ProprietorOf(contact, inn, names)]))
    else Ok(Empty("organization"))
  }

  /** The `ogrn_inn_UL` element of a legal entity with this INN. */
  function LegalOf(contact: Row, inn: Value): Elem
  {
    var ogrn := GetOr(contact, "ogrn", Null);
    var kio := GetOr(contact, "kio", Null);
    var name := GetOr(contact, "name", Null);
    var id := if Truthy(ogrn) then Leaf("ogrn", ogrn)
              else Elem("inn_kpp", map[], None, [Leaf("inn", inn)] + (if Truthy(kio) then [Leaf("kpp", kio)] else []));
    Elem("ogrn_inn_UL", map[], None, [id] + (if Truthy(name) then [Leaf("UlTitle", name)] else []))
  }

  /** The `ogrn_inn_IP` element of a sole proprietor with this INN and these name parts. */
  function ProprietorOf(contact: Row, inn: Value, names: seq<Elem>): Elem
  {
    var ogrn := GetOr(contact, "ogrn", Null);
    Elem("ogrn_inn_IP", map[], None, [Leaf("ogrn", OrDefault(ogrn, DEFAULT_IP_OGRN)), Leaf("inn", inn)] + names)
  }

  /** `create_organization_element`, appending to `parent` one sub-element
      at a time. */
  method CreateOrganizationElement(parent: Elem, contact: Row) returns (r: Result<Elem>)
    ensures OrganizationElement(contact).Err? ==> r == Err(OrganizationElement(contact).error)
    ensures OrganizationElement(contact).Ok? ==> r == Ok(Append(parent, OrganizationElement(contact).value))
  {
    var org := Empty("organization");
    var inn := GetOr(contact, "inn", Str(""));
    if !inn.Str? {
      return Err(LenError(inn));
    }
    if |inn.s| == 10 {
      var ul := CreateLegal(contact, inn);
      org := Append(org, ul);
      assert org == Elem("organization", map[], None, [ul]);
    } else if |inn.s| == 12 {
      var ip := CreateProprietor(contact, inn);
      if ip.Err? {
        return Err(ip.error);
      }
      org := Append(org, ip.value);
      assert org == Elem("organization", map[], None, [ip.value]);
    }
    return Ok(Append(parent, org));
  }

  /** The name parts of a sole proprietor that are not empty, appended to `ip` in order. */
  method AppendNameParts(ip: Elem, f: Fio) returns (r: Elem)
    ensures r == ip.(children := ip.children + NameParts(f))
  {
    r := ip;
    ghost var a := if f.last != "" then [Leaf("lastName", Str(f.last))] else [];
    ghost var b := if f.first != "" then [Leaf("firstName", Str(f.first))] else [];
    if f.last != "" {
      r := Append(r, Leaf("lastName", Str(f.last)));
    }
    assert r.children == ip.children + a;
    if f.first != "" {
      r := Append(r, Leaf("firstName", Str(f.first)));
    }
    assert r.children == ip.children + a + b;
    if f.middle != "" {
      r := Append(r, Leaf("middleName", Str(f.middle)));
    }
  }

  /** The legal-entity branch of `create_organization_element`. */
  method CreateLegal(contact: Row, inn: Value) returns (ul: Elem)
    ensures ul == LegalOf(contact, inn)
  {
    ul := Empty("ogrn_inn_UL");
    ghost var id: Elem;
    if Truthy(GetOr(contact, "ogrn", Null)) {
      id := Leaf("ogrn", contact["ogrn"]);
      ul := Append(ul, Leaf("ogrn", contact["ogrn"]));
    } else {
      var innKpp := Empty("inn_kpp");
      innKpp := Append(innKpp, Leaf("inn", inn));
      ghost var kpp: seq<Elem> := [];
      if Truthy(GetOr(contact, "kio", Null)) {
        innKpp := Append(innKpp, Leaf("kpp", contact["kio"]));
        kpp := [Leaf("kpp", contact["kio"])];
      }
      assert innKpp.children == [Leaf("inn", inn)] + kpp;
      id := innKpp;
      ul := Append(ul, innKpp);
    }
    assert ul.children == [id];
    ghost var title: seq<Elem> := [];
    if Truthy(GetOr(contact, "name", Null)) {
      ul := Append(ul, Leaf("UlTitle", contact["name"]));
      title := [Leaf("UlTitle", contact["name"])];
    }
    assert ul.children == [id] + title;
  }

  /** The sole-proprietor branch of `create_organization_element`. */
  method CreateProprietor(contact: Row, inn: Value) returns (r: Result<Elem>)
    ensures var name := GetOr(contact, "name", Null);
            && (Truthy(name) && SplitFio(name).Err? ==> r == Err(SplitFio(name).error))
            && (Truthy(name) && SplitFio(name).Ok? ==> r == Ok(ProprietorOf(contact, inn, NameParts(SplitFio(name).value))))
            && (!Truthy(name) ==> r == Ok(ProprietorOf(contact, inn, [])))
  {
    var ip := Empty("ogrn_inn_IP");
    if Truthy(GetOr(contact, "ogrn", Null)) {
      ip := Append(ip, Leaf("ogrn", contact["ogrn"]));
    } else {
      ip := Append(ip, Leaf("ogrn", Str(DEFAULT_IP_OGRN)));
    }
    ip := Append(ip, Leaf("inn", inn));
    ghost var front := ip.children;
    assert front == [Leaf("ogrn", OrDefault(GetOr(contact, "ogrn", Null), DEFAULT_IP_OGRN)), Leaf("inn", inn)];
    ghost var names: seq<Elem> := [];
    if Truthy(GetOr(contact, "name", Null)) {
      var fio := SplitFio(contact["name"]);
      if fio.Err? {
        return Err(fio.error);
      }
      ip := AppendNameParts(ip, fio.value);
      names := NameParts(fio.value);
    }
    assert ip.children == front + names;
    assert ip == ProprietorOf(contact, inn, names);
    return Ok(ip);
  }

  /** A legal entity is identified by its OGRN when it has one and else by
      its INN and, when present, its KPP, followed by its name as `UlTitle`
      when it has one; a sole proprietor by its OGRN (or
      the fixed one), its INN and the parts of its name that are not empty;
      any other INN length leaves the organization empty. */
  lemma OrganizationMeaning(contact: Row)
    requires OrganizationElement(contact).Ok?
    ensures var org := OrganizationElement(contact).value; var inn := GetOr(contact, "inn", Str(""));
            var ogrn := GetOr(contact, "ogrn", Null); var kio := GetOr(contact, "kio", Null);
            var name := GetOr(contact, "name", Null);
            && inn.Str? && org.tag == "organization"
            && (|inn.s| == 10 ==>
                  |org.children| == 1 && org.children[0].tag == "ogrn_inn_UL"
                  && org.children[0].children[1..] == (if Truthy(name) then [Leaf("UlTitle", name)] else [])
                  && (Truthy(ogrn) ==> org.children[0].children[0] == Leaf("ogrn", ogrn))
                  && (!Truthy(ogrn) ==>
                        org.children[0].children[0] ==
                          Elem("inn_kpp", map[], None, [Leaf("inn", inn)] + (if Truthy(kio) then [Leaf("kpp", kio)] else []))))
            && (|inn.s| == 12 ==>
                  |org.children| == 1 && org.children[0].tag == "ogrn_inn_IP"
                  && org.children[0].children[0] == Leaf("ogrn", if Truthy(ogrn) then ogrn else Str(DEFAULT_IP_OGRN))
                  && org.children[0].children[1] == Leaf("inn", inn)
                  && forall i :: 2 <= i < |org.children[0].children| ==>
                       org.children[0].children[i].text.Some? && org.children[0].children[i].text.value != Str(""))
            && (|inn.s| != 10 && |inn.s| != 12 ==> org.children == [])
  {
    var inn := GetOr(contact, "inn", Str(""));
    var name := GetOr(contact, "name", Null);
    if |inn.s| == 12 {
      var names := if Truthy(name) then NameParts(SplitFio(name).value) else [];
      var ip := ProprietorOf(contact, inn, names);
      assert OrganizationElement(contact).value.children == [ip];
      assert forall i :: 2 <= i < |ip.children| ==> ip.children[i] == names[i - 2];
    }
  }

  // ------------------------------------------------------ orders

  /** The placeholder `user` of an order whose contact was not found. */
  function PlaceholderUser(): Elem
  {
    Elem("user", map[], None, [Elem("userPersonalDoc", map[], None,
      [Leaf("PersonalDocType", Str("1")), Leaf("number", Str(DEFAULT_PASSPORT)),
       Leaf("lastName", Str(DEFAULT_LAST_NAME)), Leaf("firstName", Str(DEFAULT_FIRST_NAME)),
       Leaf("middleName", Str(DEFAULT_MIDDLE_NAME)), Leaf("citizenship", Str("1"))])])
  }

  /** The applicant element of a found contact. */
  function Applicant(contact: Row): Result<Elem>
  {
    var t :- DetermineApplicantType(contact);
    if t == Individual || t == Ip then
      var n :- Len(GetOr(contact, "inn", Str("")));
      if n != 12 then UserElement(contact) else OrganizationElement(contact)
    else OrganizationElement(contact)
  }

  /** Python truthiness of an optional dict: found and not empty. */
  predicate Found(contact: Option<Row>)
  {
    contact.Some? && |contact.value| > 0
  }

  /** A found contact gets a `user` exactly when it is a person and an
      `organization` otherwise; a missing or empty one the placeholder user. */
  lemma ApplicantChoice(contact: Row)
    requires Applicant(contact).Ok?
    ensures DetermineApplicantType(contact).Ok?
    ensures Applicant(contact).value.tag == "user" <==> DetermineApplicantType(contact).value == Individual
    ensures Applicant(contact).value.tag == "organization" <==> DetermineApplicantType(contact).value != Individual
  {
    ApplicantTypeMeaning(contact);
    var t := DetermineApplicantType(contact).value;
    if t == Individual {
      var inn := GetOr(contact, "inn", Str(""));
      assert inn.Str? && |inn.s| != 12;
    } else if t == Ip {
      assert GetOr(contact, "inn", Str("")) == GetOr(contact, "inn", Null);
    }
  }

  /** A contact whose INN is stored as NULL is a person by its type, yet the
      order's length test `len(contact.get('inn', ''))` then meets the None
      and raises. */
  lemma ApplicantNullInn(contact: Row)
    requires "inn" in contact && contact["inn"] == Null
    ensures DetermineApplicantType(contact) == Ok(Individual)
    ensures Applicant(contact) == Err(LenError(Null))
  {
  }

  /** The text of `orderNumber`: the trademark's key, or a number from 1. */
  function OrderNumber(i: nat, trademark: Row): string
  {
    var uid := GetOr(trademark, "rutmk_uid", Str(""));
    if Truthy(uid) then PyStr(uid) else "trademark_" + NatToDecimal(i + 1)
  }

  /** The order with index `i`, stamped with `now`. */
  function Order(i: nat, trademark: Row, contact: Option<Row>, now: string): Result<Elem>
  {
    var applicant :- if Found(contact) then Applicant(contact.value) else Ok(PlaceholderUser());
    Ok(OrderOf(applicant, OrderNumber(i, trademark), now))
  }

  /** The `order` element around an applicant: the fixed sender, service,
      region, office and status history, the order number and the date. */
  function OrderOf(applicant: Elem, number: string, now: string): (o: Elem)
    ensures |o.children| == 8 && o.children[0] == applicant
    ensures o.children[4] == Leaf(XmlGen.Qualified("orderNumber"), Str(number))
  {
    Elem(XmlGen.Qualified("order"), map[], None,
      [applicant,
       Leaf(XmlGen.Qualified("senderInn"), Str("1234567890")),
       Leaf(XmlGen.Qualified("serviceTargetCode"), Str("12345678901234567890")),
       Leaf(XmlGen.Qualified("userSelectedRegion"), Str("45000000")),
       Leaf(XmlGen.Qualified("orderNumber"), Str(number)),
       Leaf(XmlGen.Qualified("requestDate"), Str(now)),
       OfficeInfo(),
       StatusHistoryList(now)])
  }

  /** The fixed `OfficeInfo` element of an order. */
  function OfficeInfo(): Elem
  {
    Elem(XmlGen.Qualified("OfficeInfo"), map[], None,
      [Leaf(XmlGen.Qualified("OfficeName"), Str("МФЦ Центрального района")), Leaf(XmlGen.Qualified("ApplicationAcceptance"), Str("1"))])
  }

  /** The status history of an order: one status, dated `now`. */
  function StatusHistoryList(now: string): Elem
  {
    Elem(XmlGen.Qualified("statusHistoryList"), map[], None,
      [Elem(XmlGen.Qualified("statusHistory"), map[], None,
         [Leaf(XmlGen.Qualified("status"), Str("1")), Leaf(XmlGen.Qualified("IsInformed"), Str("False")), Leaf(XmlGen.Qualified("statusDate"), Str(now))])])
  }

  /** The outcome of each order, one per pair of trademark and contact;
      `clock(i)` is what `datetime.now().isoformat()` returns in iteration `i`. */
  function OrderResults(trademarks: seq<Row>, contacts: seq<Option<Row>>, clock: nat -> string): (rs: seq<Result<Elem>>)
    ensures |rs| == PairCount(trademarks, contacts)
    ensures forall i :: 0 <= i < |rs| ==> rs[i] == Order(i, trademarks[i], contacts[i], clock(i))
  {
    var n := PairCount(trademarks, contacts);
    seq(n, i requires 0 <= i < n => Order(i, trademarks[i], contacts[i], clock(i)))
  }

  /** The values of a run of steps taken in order, or the first failure. */
  function Collect(rs: seq<Result<Elem>>): Result<seq<Elem>>
  {
    if rs == [] then Ok([])
    else
      var front :- Collect(rs[..|rs| - 1]);
      var last :- rs[|rs| - 1];
      Ok(front + [last])
  }

  /** `zip`: as many pairs as the shorter list has items. */
  function PairCount(trademarks: seq<Row>, contacts: seq<Option<Row>>): (n: nat)
    ensures n <= |trademarks| && n <= |contacts|
    ensures n == |trademarks| || n == |contacts|
  {
    if |trademarks| <= |contacts| then |trademarks| else |contacts|
  }

  /** The root element around the orders. */
  function Root(orders: seq<Elem>): Elem
  {
    Elem(XmlGen.Qualified("ElkOrderRequest"), map["env" := "EPGU"], None,
      [Elem(XmlGen.Qualified("CreateOrdersRequest"), map[], None, [Elem(XmlGen.Qualified("orders"), map[], None, orders)])])
  }

  /** Every text of the tree that ElementTree writes out is a string: a
      falsy text (unset, `None`, `0`, `False`, empty) is skipped, any other
      object raises. */
  predicate Serialisable(e: Elem)
  {
    (e.text.None? || !Truthy(e.text.value) || e.text.value.Str?)
    && forall i :: 0 <= i < |e.children| ==> Serialisable(e.children[i])
  }

  /** A character XML 1.0 allows in a document (production `Char` of
      section 2.2 of the XML 1.0 recommendation); surrogates are not
      characters here. */
  predicate XmlChar(c: char)
  {
    c == '\t' || c == '\n' || c == '\r'
    || (' ' <= c <= '\U{D7FF}') || ('\U{E000}' <= c <= '\U{FFFD}') || '\U{10000}' <= c
  }

  /** Every string text of the tree is made of characters XML 1.0 allows,
      so the serialised document parses again. */
  predicate Parsable(e: Elem)
  {
    (e.text.None? || !e.text.value.Str? || forall k :: 0 <= k < |e.text.value.s| ==> XmlChar(e.text.value.s[k]))
    && forall i :: 0 <= i < |e.children| ==> Parsable(e.children[i])
  }

  /** The document `create_xml_from_trademarks` builds, each order stamped
      with the clock reading of its own iteration, or what it raises: writing out a text that is not a string raises,
      and so does parsing back (for pretty-printing) a text holding a
      character XML forbids. */
  function XmlFromTrademarks(trademarks: seq<Row>, contacts: seq<Option<Row>>, clock: nat -> string): Result<Elem>
  {
    var orders :- Collect(OrderResults(trademarks, contacts, clock));
    var root := Root(orders);
    if !Serialisable(root) then Err(SERIALIZE_ERROR)
    else if !Parsable(root) then Err(PARSE_ERROR)
    else Ok(root)
  }

  /** `create_xml_from_trademarks`: the root, then one order per pair of
      trademark and contact, appended in a loop; the clock readings are the
      parameter `clock`, one per iteration. */
  method CreateXmlFromTrademarks(trademarks: seq<Row>, contacts: seq<Option<Row>>, clock: nat -> string)
    returns (r: Result<Elem>)
    ensures r == XmlFromTrademarks(trademarks, contacts, clock)
  {
    var orders := CreateOrders(trademarks, contacts, clock);
    if orders.Err? {
      return Err(orders.error);
    }
    ghost var all := orders.value.children;
    assert orders.value == Elem(XmlGen.Qualified("orders"), map[], None, all);
    var request := Append(Empty(XmlGen.Qualified("CreateOrdersRequest")), orders.value);
    assert request.children == [orders.value];
    var root := Elem(XmlGen.Qualified("ElkOrderRequest"), map["env" := "EPGU"], None, []);
    root := Append(root, request);
    assert root.children == [request];
    assert root == Root(all);
    if !Serialisable(root) {
      return Err(SERIALIZE_ERROR);
    }
    if !Parsable(root) {
      return Err(PARSE_ERROR);
    }
    return Ok(root);
  }

  /** The `orders` element of `create_xml_from_trademarks`, one order
      appended per pair in the loop over `zip(trademarks, contacts_info)`;
      iteration `i` reads the clock as `clock(i)`. */
  method CreateOrders(trademarks: seq<Row>, contacts: seq<Option<Row>>, clock: nat -> string)
    returns (r: Result<Elem>)
    ensures var all := Collect(OrderResults(trademarks, contacts, clock));
            && (all.Err? ==> r == Err(all.error))
            && (all.Ok? ==> r == Ok(Elem(XmlGen.Qualified("orders"), map[], None, all.value)))
  {
    ghost var rs := OrderResults(trademarks, contacts, clock);
    var n := PairCount(trademarks, contacts);
    var orders := Empty(XmlGen.Qualified("orders"));
    var i := 0;
    while i < n
      invariant 0 <= i <= n
      invariant Collect(rs[..i]) == Ok(orders.children)
      invariant orders == Elem(XmlGen.Qualified("orders"), map[], None, orders.children)
    {
      var order := CreateOrder(i, trademarks[i], contacts[i], clock(i));
      CollectStep(rs, i, orders.children);
      if order.Err? {
        CollectStops(rs, i + 1);
        return Err(order.error);
      }
      orders := Append(orders, order.value);
      i := i + 1;
    }
    assert rs[..n] == rs;
    return Ok(orders);
  }

  /** The body of the loop of `create_xml_from_trademarks`: one `order`
      element, its applicant first, then its fixed and computed parts. */
  method CreateOrder(i: nat, trademark: Row, contact: Option<Row>, now: string) returns (r: Result<Elem>)
    ensures r == Order(i, trademark, contact, now)
  {
    var order := AddApplicant(Empty(XmlGen.Qualified("order")), contact);
    if order.Err? {
      return Err(order.error);
    }
    var done := FinishOrder(order.value, i, trademark, now);
    return Ok(done);
  }

  /** The applicant of the loop body, appended to the empty `order`: the
      element for the found contact, or the placeholder user. */
  method AddApplicant(order: Elem, contact: Option<Row>) returns (r: Result<Elem>)
    ensures var a := if Found(contact) then Applicant(contact.value) else Ok(PlaceholderUser());
            && (a.Err? ==> r == Err(a.error))
            && (a.Ok? ==> r == Ok(Append(order, a.value)))
  {
    if !Found(contact) {
      return Ok(Append(order, PlaceholderUser()));
    }
    var t := DetermineApplicantType(contact.value);
    if t.Err? {
      return Err(t.error);
    }
    var inn := GetOr(contact.value, "inn", Str(""));
    if (t.value == Individual || t.value == Ip) && !inn.Str? {
      return Err(LenError(inn));
    }
    if (t.value == Individual || t.value == Ip) && |inn.s| != 12 {
      r := CreateUserElement(order, contact.value);
    } else {
      r := CreateOrganizationElement(order, contact.value);
    }
  }

  /** The rest of the loop body: the fixed sender, service and region, the
      order number, the date, the office and the status history, appended
      after the applicant. */
  method FinishOrder(order: Elem, i: nat, trademark: Row, now: string) returns (o: Elem)
    requires order == Elem(XmlGen.Qualified("order"), map[], None, order.children) && |order.children| == 1
    ensures o == OrderOf(order.children[0], OrderNumber(i, trademark), now)
  {
    ghost var applicant := order.children[0];
    o := order;
    o := Append(o, Leaf(XmlGen.Qualified("senderInn"), Str("1234567890")));
    o := Append(o, Leaf(XmlGen.Qualified("serviceTargetCode"), Str("12345678901234567890")));
    o := Append(o, Leaf(XmlGen.Qualified("userSelectedRegion"), Str("45000000")));
    var uid := GetOr(trademark, "rutmk_uid", Str(""));
    var number := if Truthy(uid) then PyStr(uid) else "trademark_" + NatToDecimal(i + 1);
    o := Append(o, Leaf(XmlGen.Qualified("orderNumber"), Str(number)));
    o := Append(o, Leaf(XmlGen.Qualified("requestDate"), Str(now)));
    var office := CreateOfficeInfo();
    o := Append(o, office);
    var list := CreateStatusHistory(now);
    o := Append(o, list);
    assert o.children == [applicant, Leaf(XmlGen.Qualified("senderInn"), Str("1234567890")),
      Leaf(XmlGen.Qualified("serviceTargetCode"), Str("12345678901234567890")), Leaf(XmlGen.Qualified("userSelectedRegion"), Str("45000000")),
      Leaf(XmlGen.Qualified("orderNumber"), Str(number)), Leaf(XmlGen.Qualified("requestDate"), Str(now)), office, list];
  }

  /** The office element, filled one sub-element at a time. */
  method CreateOfficeInfo() returns (office: Elem)
    ensures office == OfficeInfo()
  {
    office := Empty(XmlGen.Qualified("OfficeInfo"));
    office := Append(office, Leaf(XmlGen.Qualified("OfficeName"), Str("МФЦ Центрального района")));
    office := Append(office, Leaf(XmlGen.Qualified("ApplicationAcceptance"), Str("1")));
    assert office.children == [Leaf(XmlGen.Qualified("OfficeName"), Str("МФЦ Центрального района")), Leaf(XmlGen.Qualified("ApplicationAcceptance"), Str("1"))];
  }

  /** The status history list, filled one sub-element at a time. */
  method CreateStatusHistory(now: string) returns (list: Elem)
    ensures list == StatusHistoryList(now)
  {
    var history := Empty(XmlGen.Qualified("statusHistory"));
    history := Append(history, Leaf(XmlGen.Qualified("status"), Str("1")));
    history := Append(history, Leaf(XmlGen.Qualified("IsInformed"), Str("False")));
    history := Append(history, Leaf(XmlGen.Qualified("statusDate"), Str(now)));
    assert history.children == [Leaf(XmlGen.Qualified("status"), Str("1")), Leaf(XmlGen.Qualified("IsInformed"), Str("False")), Leaf(XmlGen.Qualified("statusDate"), Str(now))];
    list := Append(Empty(XmlGen.Qualified("statusHistoryList")), history);
    assert list.children == [history];
  }

  /** One more step of a run that has succeeded so far. */
  lemma CollectStep(rs: seq<Result<Elem>>, i: nat, done: seq<Elem>)
    requires i < |rs| && Collect(rs[..i]) == Ok(done)
    ensures rs[i].Err? ==> Collect(rs[..i + 1]) == Err(rs[i].error)
    ensures rs[i].Ok? ==> Collect(rs[..i + 1]) == Ok(done + [rs[i].value])
  {
    assert rs[..i + 1][..i] == rs[..i];
  }

  /** A failure among the first `k` steps is the failure of them all. */
  lemma {:induction false} CollectStops(rs: seq<Result<Elem>>, k: nat)
    requires k <= |rs| && Collect(rs[..k]).Err?
    ensures Collect(rs) == Collect(rs[..k])
    decreases |rs| - k
  {
    if k < |rs| {
      assert rs[..k + 1][..k] == rs[..k];
      CollectStops(rs, k + 1);
    } else {
      assert rs[..k] == rs;
    }
  }

  /** A run succeeds exactly when every step does, and then gives each
      step's value at its own position. */
  lemma {:induction false} CollectMeaning(rs: seq<Result<Elem>>)
    ensures Collect(rs).Ok? <==> forall i :: 0 <= i < |rs| ==> rs[i].Ok?
    ensures Collect(rs).Ok? ==>
              |Collect(rs).value| == |rs| && forall i :: 0 <= i < |rs| ==> rs[i] == Ok(Collect(rs).value[i])
  {
    if rs != [] {
      var front := rs[..|rs| - 1];
      CollectMeaning(front);
      assert forall i :: 0 <= i < |front| ==> front[i] == rs[i];
    }
  }

  /** Every order of the document carries its trademark's key, or
      `trademark_<position from 1>` when the key is missing or empty, and an
      applicant chosen from its contact; its request and status dates are
      both the clock reading of its own iteration. */
  lemma DocumentMeaning(trademarks: seq<Row>, contacts: seq<Option<Row>>, clock: nat -> string)
    requires XmlFromTrademarks(trademarks, contacts, clock).Ok?
    ensures var doc := XmlFromTrademarks(trademarks, contacts, clock).value;
            var orders := doc.children[0].children[0].children;
            && doc.attrs == map["env" := "EPGU"]
            && |orders| == PairCount(trademarks, contacts)
            && forall i :: 0 <= i < |orders| ==>
                 && |orders[i].children| == 8
                 && orders[i].children[4] == Leaf(XmlGen.Qualified("orderNumber"), Str(OrderNumber(i, trademarks[i])))
                 && orders[i].children[5] == Leaf(XmlGen.Qualified("requestDate"), Str(clock(i)))
                 && orders[i].children[7] == StatusHistoryList(clock(i))
                 && (Found(contacts[i]) ==> Ok(orders[i].children[0]) == Applicant(contacts[i].value))
                 && (!Found(contacts[i]) ==> orders[i].children[0] == PlaceholderUser())
  {
    var rs := OrderResults(trademarks, contacts, clock);
    CollectMeaning(rs);
    var orders := Collect(rs).value;
    assert XmlFromTrademarks(trademarks, contacts, clock).value == Root(orders);
    forall i | 0 <= i < |orders|
      ensures |orders[i].children| == 8
      ensures orders[i].children[4] == Leaf(XmlGen.Qualified("orderNumber"), Str(OrderNumber(i, trademarks[i])))
      ensures orders[i].children[5] == Leaf(XmlGen.Qualified("requestDate"), Str(clock(i)))
      ensures orders[i].children[7] == StatusHistoryList(clock(i))
      ensures Found(contacts[i]) ==> Ok(orders[i].children[0]) == Applicant(contacts[i].value)
      ensures !Found(contacts[i]) ==> orders[i].children[0] == PlaceholderUser()
    {
      OrderMeaning(i, trademarks[i], contacts[i], clock(i), orders[i]);
    }
  }

  /** An order holds its number, its reading of the clock as both request
      and status date, and the applicant chosen from its contact. */
  lemma OrderMeaning(i: nat, trademark: Row, contact: Option<Row>, now: string, o: Elem)
    requires Order(i, trademark, contact, now) == Ok(o)
    ensures |o.children| == 8
    ensures o.children[4] == Leaf(XmlGen.Qualified("orderNumber"), Str(OrderNumber(i, trademark)))
    ensures o.children[5] == Leaf(XmlGen.Qualified("requestDate"), Str(now))
    ensures o.children[7] == StatusHistoryList(now)
    ensures Found(contact) ==> Ok(o.children[0]) == Applicant(contact.value)
    ensures !Found(contact) ==> o.children[0] == PlaceholderUser()
  {
  }

  /** The order number of a trademark without a key is its position from 1. */
  lemma OrderNumberFallback(i: nat, trademark: Row)
    requires !Truthy(GetOr(trademark, "rutmk_uid", Str("")))
    ensures OrderNumber(i, trademark) == "trademark_" + NatToDecimal(i + 1)
    ensures DecimalValue(OrderNumber(i, trademark)[10..]) == i + 1
  {
    var s := OrderNumber(i, trademark);
    assert s[10..] == NatToDecimal(i + 1);
    DecimalRoundTrip(i + 1);
  }

  /** A text that is not a string anywhere in the document makes it raise;
      the OGRN stored as a number is one. */
  lemma NumericOgrnRaises(contact: Row, clock: nat -> string)
    requires "inn" in contact && contact["inn"].Str? && |contact["inn"].s| == 10
    requires "ogrn" in contact && contact["ogrn"].Int? && contact["ogrn"].i != 0
    ensures XmlFromTrademarks([map[]], [Some(contact)], clock) == Err(SERIALIZE_ERROR)
  {
    var tm: seq<Row> := [map[]];
    var cs := [Some(contact)];
    assert Found(cs[0]);
    assert DetermineApplicantType(contact) == Ok(Legal);
    var org := OrganizationElement(contact).value;
    assert !Serialisable(org.children[0].children[0]);
    assert !Serialisable(org.children[0]);
    assert !Serialisable(org);
    var rs := OrderResults(tm, cs, clock);
    assert rs == [Order(0, tm[0], cs[0], clock(0))];
    CollectMeaning(rs);
    if Collect(rs).Ok? {
      var orders := Collect(rs).value;
      assert orders[0].children[0] == org;
      assert !Serialisable(orders[0]);
      var root := Root(orders);
      assert root.children[0].children[0].children == orders;
      assert !Serialisable(root.children[0].children[0]);
      assert !Serialisable(root.children[0]);
    }
  }

  /** A character XML forbids (a control character, say) in the name of a
      legal entity means no document comes back: either a text that is not
      a string raises first, or parsing the written document back does. */
  lemma IllegalCharRaises(contact: Row, clock: nat -> string, k: nat)
    requires "inn" in contact && contact["inn"].Str? && |contact["inn"].s| == 10
    requires "name" in contact && contact["name"].Str? && k < |contact["name"].s|
    requires !XmlChar(contact["name"].s[k])
    ensures var r := XmlFromTrademarks([map[]], [Some(contact)], clock);
            r == Err(SERIALIZE_ERROR) || r == Err(PARSE_ERROR)
  {
    var tm: seq<Row> := [map[]];
    var cs := [Some(contact)];
    assert Found(cs[0]);
    assert DetermineApplicantType(contact) == Ok(Legal);
    var org := OrganizationElement(contact).value;
    var ul := org.children[0];
    assert ul.children[|ul.children| - 1] == Leaf("UlTitle", contact["name"]);
    assert !Parsable(ul.children[|ul.children| - 1]);
    assert !Parsable(ul);
    assert !Parsable(org);
    var rs := OrderResults(tm, cs, clock);
    assert rs == [Order(0, tm[0], cs[0], clock(0))];
    CollectMeaning(rs);
    if Collect(rs).Ok? {
      var orders := Collect(rs).value;
      assert orders[0].children[0] == org;
      assert !Parsable(orders[0]);
      var root := Root(orders);
      assert root.children[0].children[0].children == orders;
      assert !Parsable(root.children[0].children[0]);
      assert !Parsable(root.children[0]);
    }
  }
}
