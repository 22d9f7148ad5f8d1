/** The contact clean-up of the database tester: splitting a full name into
    its parts and enriching a contact dict with the name parts, the kind of
    person behind the INN and the lists of e-mails and phones. */
module FormXml {
  import opened PyCore

  /** A contact row as a dict of column name to value. */
  type Contact = map<string, Value>

  /** A value of the enriched dict: a scalar, or a list of strings. */
  datatype Item = Scalar(v: Value) | Texts(items: seq<string>)

  /** The keys of the dict `parse_fio` returns. */
  const FIO_KEYS: set<string> := {"first_name", "last_name", "middle_name", "full_name"}

  /** The keys each later step of `enhance_contact_data` writes. */
  const ENTITY_KEYS: set<string> := {"entity_type", "inn_length"}
  const EMAIL_KEYS: set<string> := {"email_list", "primary_email"}
  const PHONE_KEYS: set<string> := {"phone_list", "primary_phone"}

  /** The keys `enhance_contact_data` may write over the copied contact. */
  const WRITTEN_KEYS: set<string> := FIO_KEYS + ENTITY_KEYS + EMAIL_KEYS + PHONE_KEYS + {"data_collected_at"}

  /** The dict `parse_fio` returns: its four keys are fixed, so they are fields here. */
  datatype FioDict = FioDict(firstName: string, lastName: string, middleName: string, fullName: Value)

  /** The same dict with its keys written out. */
  function AsItems(f: FioDict): map<string, Item>
  {
    map["first_name" := Scalar(Str(f.firstName)), "last_name" := Scalar(Str(f.lastName)),
        "middle_name" := Scalar(Str(f.middleName)), "full_name" := Scalar(f.fullName)]
  }

  /** The dict `parse_fio` returns for `fullName`, or what it raises. */
  function Fio(fullName: Value): Result<FioDict>
  {
    if !Truthy(fullName) then Ok(FioDict("", "", "", fullName))
    else if !fullName.Str? then Err(NoAttribute(fullName, "strip"))
    else
      Ok(FioParts(Split(Strip(fullName.s)), fullName))
  }

  /** The dict filled from the words of a name. */
  function FioParts(parts: seq<string>, fullName: Value): FioDict
  {
    if |parts| >= 3 then FioDict(parts[1], parts[0], Join(" ", parts[2..]), fullName)
    else if |parts| == 2 then FioDict(parts[1], parts[0], "", fullName)
    else if |parts| == 1 then FioDict("", parts[0], "", fullName)
    else FioDict("", "", "", fullName)
  }

  /** `parse_fio`: a dict of empty parts holding the input, then filled in
      key by key from the whitespace-separated words of the name. */
  method ParseFio(fullName: Value) returns (r: Result<FioDict>)
    ensures r == Fio(fullName)
  {
    var result := FioDict("", "", "", fullName);
    if !Truthy(fullName) {
      return Ok(result);
    }
    if !fullName.Str? {
      return Err(NoAttribute(fullName, "strip"));
    }
    var parts := Split(Strip(fullName.s));
    if |parts| >= 3 {
      result := result.(lastName := parts[0]);
      result := result.(firstName := parts[1]);
      result := result.(middleName := Join(" ", parts[2..]));
    } else if |parts| == 2 {
      result := result.(lastName := parts[0]);
      result := result.(firstName := parts[1]);
    } else if |parts| == 1 {
      result := result.(lastName := parts[0]);
    }
    return Ok(result);
  }

  /** A name that is a string is always parsed: the surname is the first word,
      the first name the second, the patronymic every further word joined by
      single spaces, a missing part is empty, and `full_name` is the input as
      given, surrounding whitespace included. */
  lemma FioOfText(s: string)
    ensures Fio(Str(s)).Ok?
    ensures var d := Fio(Str(s)).value; var ws := Split(s);
            d.fullName == Str(s)
            && d.lastName == (if |ws| >= 1 then ws[0] else "")
            && d.firstName == (if |ws| >= 2 then ws[1] else "")
            && d.middleName == (if |ws| >= 3 then Join(" ", ws[2..]) else "")
  {
    var ws := Split(s);
    SplitStrip(s);
    assert Split(Strip(s)) == ws;
    if s == "" {
      assert ws == [] by { assert DropSpace(s) == []; }
      assert Fio(Str(s)) == Ok(FioDict("", "", "", Str(s)));
    } else {
      assert Truthy(Str(s));
      assert Fio(Str(s)) == Ok(FioParts(ws, Str(s)));
    }
  }

  /** A falsy name (None, '', 0, False) gives three empty parts. */
  lemma FioOfFalsy(v: Value)
    requires !Truthy(v)
    ensures Fio(v) == Ok(FioDict("", "", "", v))
  {
  }

  /** A truthy name that is not a string has no `strip`. */
  lemma FioOfOther(v: Value)
    requires Truthy(v) && !v.Str?
    ensures Fio(v) == Err(NoAttribute(v, "strip"))
  {
  }

  /** The three parts, joined again by spaces, split into the words of the
      name: parsing loses no word and invents none. */
  lemma FioKeepsWords(s: string)
    ensures Fio(Str(s)).Ok?
    ensures var d := Fio(Str(s)).value;
            Split(Join(" ", [d.lastName, d.firstName, d.middleName])) == Split(s)
  {
    FioOfText(s);
    var ws := Split(s);
    SplitGivesWords(s);
    if |ws| >= 3 {
      RejoinMany(ws);
    } else if |ws| == 2 {
      RejoinTwo(ws);
    } else if |ws| == 1 {
      RejoinOne(ws[0]);
    } else {
      RejoinNone();
    }
  }

  lemma JoinThree(a: string, b: string, c: string)
    ensures Join(" ", [a, b, c]) == a + " " + (b + " " + c)
  {
    assert [a, b, c][1..] == [b, c] && [b, c][1..] == [c];
    assert Join(" ", [c]) == c;
    assert Join(" ", [b, c]) == b + " " + c;
  }

  lemma RejoinMany(ws: seq<string>)
    requires |ws| >= 3 && Words(ws)
    ensures Split(Join(" ", [ws[0], ws[1], Join(" ", ws[2..])])) == ws
  {
    JoinThree(ws[0], ws[1], Join(" ", ws[2..]));
    assert ws[1..][1..] == ws[2..];
    assert Join(" ", ws[1..]) == ws[1] + " " + Join(" ", ws[2..]);
    SplitJoinRoundTrip(ws);
  }

  lemma RejoinTwo(ws: seq<string>)
    requires |ws| == 2 && Words(ws)
    ensures Split(Join(" ", [ws[0], ws[1], ""])) == ws
  {
    JoinThree(ws[0], ws[1], "");
    assert Join(" ", ws) == ws[0] + " " + ws[1] by { assert ws[1..] == [ws[1]]; }
    assert ws[0] + " " + (ws[1] + " " + "") == Join(" ", ws) + [' '];
    SplitSnocSpace(Join(" ", ws), ' ');
    SplitJoinRoundTrip(ws);
  }

  lemma RejoinOne(w: string)
    requires w != [] && forall j :: 0 <= j < |w| ==> !IsSpace(w[j])
    ensures Split(Join(" ", [w, "", ""])) == [w]
  {
    JoinThree(w, "", "");
    assert w + " " + ("" + " " + "") == w + [' '] + [' '];
    SplitSnocSpace(w + [' '], ' ');
    SplitSnocSpace(w, ' ');
    SplitOneWord(w);
  }

  lemma RejoinNone()
    ensures Split(Join(" ", ["", "", ""])) == []
  {
    JoinThree("", "", "");
    assert "" + " " + ("" + " " + "") == [] + [' '] + [' '];
    SplitSnocSpace([] + [' '], ' ');
    SplitSnocSpace([], ' ');
  }

  /** `contact_data.copy()`, seen as a dict of items. */
  function Lift(d: map<string, Value>): (e: map<string, Item>)
    ensures e.Keys == d.Keys && forall k :: k in d ==> e[k] == Scalar(d[k])
  {
    map k | k in d :: Scalar(d[k])
  }

  /** `s.strip()` of every piece, in order. */
  function StripAll(ps: seq<string>): (r: seq<string>)
    ensures |r| == |ps| && forall i :: 0 <= i < |ps| ==> r[i] == Strip(ps[i])
  {
    seq(|ps|, i requires 0 <= i < |ps| => Strip(ps[i]))
  }

  /** The name keys of the enriched dict. */
  function FioFields(c: Contact): Result<map<string, Item>>
  {
    if "full_name" in c then
      var fio :- Fio(c["full_name"]);
      Ok(AsItems(fio))
    else Ok(map[])
  }

  /** The keys that tell what kind of person the contact is. */
  function EntityFields(c: Contact): Result<map<string, Item>>
  {
    if "inn" in c then
      if !c["inn"].Str? then Err(LenError(c["inn"]))
      else if |c["inn"].s| == 10 then Ok(map["entity_type" := Scalar(Str("legal_entity")), "inn_length" := Scalar(Int(10))])
      else if |c["inn"].s| == 12 then Ok(map["entity_type" := Scalar(Str("individual_entrepreneur")), "inn_length" := Scalar(Int(12))])
      else Ok(map["entity_type" := Scalar(Str("unknown"))])
    else if "passport_number" in c then Ok(map["entity_type" := Scalar(Str("individual"))])
    else Ok(map["entity_type" := Scalar(Str("unknown"))])
  }

  /** The list and the primary value kept for a `sep`-separated column. */
  function ListFields(c: Contact, key: string, sep: char, listKey: string, primaryKey: string): Result<map<string, Item>>
  {
    if key in c && Truthy(c[key]) then
      if !c[key].Str? then Err(NoAttribute(c[key], "split"))
      else
        var parts := SplitOn(c[key].s, sep);
        Ok(map[listKey := Texts(StripAll(parts)), primaryKey := Scalar(Str(Strip(parts[0])))])
    else Ok(map[])
  }

  function Emails(c: Contact): Result<map<string, Item>>
  {
    ListFields(c, "email", ',', "email_list", "primary_email")
  }

  function Phones(c: Contact): Result<map<string, Item>>
  {
    ListFields(c, "phone", ';', "phone_list", "primary_phone")
  }

  /** The dict `enhance_contact_data` returns, stamped with `now`, or what it raises. */
  function Enhance(c: Contact, now: string): Result<map<string, Item>>
  {
    var fio :- FioFields(c);
    var entity :- EntityFields(c);
    var emails :- Emails(c);
    var phones :- Phones(c);
    Ok(Lift(c) + fio + entity + emails + phones + map["data_collected_at" := Scalar(Str(now))])
  }

  /** The entity-type step of `enhance_contact_data`, applied to `enhanced`. */
  method SetEntityType(enhanced: map<string, Item>, contact: Contact) returns (r: Result<map<string, Item>>)
    ensures EntityFields(contact).Err? ==> r == Err(EntityFields(contact).error)
    ensures EntityFields(contact).Ok? ==> r == Ok(enhanced + EntityFields(contact).value)
  {
    var e := enhanced;
    if "inn" in contact {
      var inn := contact["inn"];
      if !inn.Str? {
        return Err(LenError(inn));
      }
      if |inn.s| == 10 {
        e := e["entity_type" := Scalar(Str("legal_entity"))];
        e := e["inn_length" := Scalar(Int(10))];
        assert e == enhanced + map["entity_type" := Scalar(Str("legal_entity")), "inn_length" := Scalar(Int(10))];
      } else if |inn.s| == 12 {
        e := e["entity_type" := Scalar(Str("individual_entrepreneur"))];
        e := e["inn_length" := Scalar(Int(12))];
        assert e == enhanced + map["entity_type" := Scalar(Str("individual_entrepreneur")), "inn_length" := Scalar(Int(12))];
      } else {
        e := e["entity_type" := Scalar(Str("unknown"))];
        assert e == enhanced + map["entity_type" := Scalar(Str("unknown"))];
      }
    } else if "passport_number" in contact {
      e := e["entity_type" := Scalar(Str("individual"))];
      assert e == enhanced + map["entity_type" := Scalar(Str("individual"))];
    } else {
      e := e["entity_type" := Scalar(Str("unknown"))];
      assert e == enhanced + map["entity_type" := Scalar(Str("unknown"))];
    }
    return Ok(e);
  }

  /** The e-mail or phone step of `enhance_contact_data`, applied to `enhanced`. */
  method AddList(enhanced: map<string, Item>, contact: Contact, key: string, sep: char, listKey: string, primaryKey: string)
    returns (r: Result<map<string, Item>>)
    requires listKey != primaryKey
    ensures ListFields(contact, key, sep, listKey, primaryKey).Err? ==> r == Err(ListFields(contact, key, sep, listKey, primaryKey).error)
    ensures ListFields(contact, key, sep, listKey, primaryKey).Ok? ==> r == Ok(enhanced + ListFields(contact, key, sep, listKey, primaryKey).value)
  {
    var e := enhanced;
    if key in contact && Truthy(contact[key]) {
      if !contact[key].Str? {
        return Err(NoAttribute(contact[key], "split"));
      }
      var parts := SplitOn(contact[key].s, sep);
      e := e[listKey := Texts(StripAll(parts))];
      e := e[primaryKey := Scalar(Str(Strip(parts[0])))];
      assert e == enhanced + map[listKey := Texts(StripAll(parts)), primaryKey := Scalar(Str(Strip(parts[0])))];
    } else {
      assert e == enhanced + map[];
    }
    return Ok(e);
  }

  /** `enhance_contact_data`: a copy of the contact updated step by step.
      The clock reading is the parameter `now`. */
  method EnhanceContactData(contact: Contact, now: string) returns (r: Result<map<string, Item>>)
    ensures r == Enhance(contact, now)
  {
    var enhanced := Lift(contact);
    if "full_name" in contact {
      var parsed := ParseFio(contact["full_name"]);
      if parsed.Err? {
        return Err(parsed.error);
      }
      enhanced := enhanced + AsItems(parsed.value);
    } else {
      assert enhanced == Lift(contact) + map[];
    }
    assert FioFields(contact).Ok? && enhanced == Lift(contact) + FioFields(contact).value;
    r := EnhanceRest(enhanced, contact, now);
  }

  /** The steps of `enhance_contact_data` after the name: the kind of
      person, the e-mails, the phones and the time stamp. */
  method EnhanceRest(enhanced: map<string, Item>, contact: Contact, now: string) returns (r: Result<map<string, Item>>)
    ensures var ent := EntityFields(contact); var em := Emails(contact); var ph := Phones(contact);
            && (ent.Err? ==> r == Err(ent.error))
            && (ent.Ok? && em.Err? ==> r == Err(em.error))
            && (ent.Ok? && em.Ok? && ph.Err? ==> r == Err(ph.error))
            && (ent.Ok? && em.Ok? && ph.Ok? ==>
                  r == Ok(enhanced + ent.value + em.value + ph.value + map["data_collected_at" := Scalar(Str(now))]))
  {
    var step := SetEntityType(enhanced, contact);
    if step.Err? {
      return Err(step.error);
    }
    var e := step.value;
    step := AddList(e, contact, "email", ',', "email_list", "primary_email");
    if step.Err? {
      return Err(step.error);
    }
    e := step.value;
    step := AddList(e, contact, "phone", ';', "phone_list", "primary_phone");
    if step.Err? {
      return Err(step.error);
    }
    e := step.value;
    ghost var done := e;
    e := e["data_collected_at" := Scalar(Str(now))];
    assert e == done + map["data_collected_at" := Scalar(Str(now))];
    return Ok(e);
  }

  /** `parse_fio` raises exactly on a truthy name that is not a string. */
  lemma FioFieldsFails(c: Contact)
    ensures FioFields(c).Err? <==> "full_name" in c && Truthy(c["full_name"]) && !c["full_name"].Str?
  {
    if "full_name" in c && c["full_name"].Str? {
      FioOfText(c["full_name"].s);
    }
  }

  /** Exactly four inputs raise: a truthy non-string name, a non-string INN,
      and a truthy non-string e-mail or phone. */
  lemma EnhanceFails(c: Contact, now: string)
    ensures Enhance(c, now).Err? <==>
            ("full_name" in c && Truthy(c["full_name"]) && !c["full_name"].Str?)
            || ("inn" in c && !c["inn"].Str?)
            || ("email" in c && Truthy(c["email"]) && !c["email"].Str?)
            || ("phone" in c && Truthy(c["phone"]) && !c["phone"].Str?)
  {
    FioFieldsFails(c);
    EnhanceSteps(c, now);
    assert EntityFields(c).Err? <==> "inn" in c && !c["inn"].Str?;
    assert Emails(c).Err? <==> "email" in c && Truthy(c["email"]) && !c["email"].Str?;
    assert Phones(c).Err? <==> "phone" in c && Truthy(c["phone"]) && !c["phone"].Str?;
  }

  /** The enriched dict is built when every step succeeds, from the steps' keys. */
  lemma EnhanceSteps(c: Contact, now: string)
    ensures Enhance(c, now).Ok? <==> FioFields(c).Ok? && EntityFields(c).Ok? && Emails(c).Ok? && Phones(c).Ok?
    ensures Enhance(c, now).Ok? ==>
              Enhance(c, now).value == Lift(c) + FioFields(c).value + EntityFields(c).value
                                       + Emails(c).value + Phones(c).value
                                       + map["data_collected_at" := Scalar(Str(now))]
  {
  }

  lemma ListFieldsKeys(c: Contact, key: string, sep: char, listKey: string, primaryKey: string)
    requires ListFields(c, key, sep, listKey, primaryKey).Ok?
    ensures ListFields(c, key, sep, listKey, primaryKey).value.Keys <= {listKey, primaryKey}
  {
  }

  /** The pieces the enriched dict is made of, and the keys each may write. */
  lemma EnhanceParts(c: Contact, now: string)
    requires Enhance(c, now).Ok?
    ensures FioFields(c).Ok? && EntityFields(c).Ok? && Emails(c).Ok? && Phones(c).Ok?
    ensures Enhance(c, now).value == Lift(c) + FioFields(c).value + EntityFields(c).value
                                     + Emails(c).value + Phones(c).value
                                     + map["data_collected_at" := Scalar(Str(now))]
    ensures FioFields(c).value.Keys <= FIO_KEYS
    ensures EntityFields(c).value.Keys <= ENTITY_KEYS
    ensures Emails(c).value.Keys <= EMAIL_KEYS
    ensures Phones(c).value.Keys <= PHONE_KEYS
  {
    EnhanceSteps(c, now);
    ListFieldsKeys(c, "email", ',', "email_list", "primary_email");
    ListFieldsKeys(c, "phone", ';', "phone_list", "primary_phone");
  }

  /** Every key of the contact survives, and one that is not written keeps its value. */
  lemma EnhanceKeepsContact(c: Contact, now: string)
    requires Enhance(c, now).Ok?
    ensures var e := Enhance(c, now).value;
            (forall k :: k in c ==> k in e)
            && forall k :: k in c && k !in WRITTEN_KEYS ==> e[k] == Scalar(c[k])
  {
    EnhanceParts(c, now);
  }

  /** The kind of contact, by the INN's length, else by a passport. */
  lemma EnhanceEntityType(c: Contact, now: string)
    requires Enhance(c, now).Ok?
    ensures "entity_type" in Enhance(c, now).value && ("inn" in c ==> c["inn"].Str?)
    ensures var e := Enhance(c, now).value;
            && ("inn" in c && |c["inn"].s| == 10 ==>
                  e["entity_type"] == Scalar(Str("legal_entity")) && "inn_length" in e && e["inn_length"] == Scalar(Int(10)))
            && ("inn" in c && |c["inn"].s| == 12 ==>
                  e["entity_type"] == Scalar(Str("individual_entrepreneur")) && "inn_length" in e && e["inn_length"] == Scalar(Int(12)))
            && ("inn" in c && |c["inn"].s| != 10 && |c["inn"].s| != 12 ==> e["entity_type"] == Scalar(Str("unknown")))
            && ("inn" !in c && "passport_number" in c ==> e["entity_type"] == Scalar(Str("individual")))
            && ("inn" !in c && "passport_number" !in c ==> e["entity_type"] == Scalar(Str("unknown")))
  {
    EnhanceParts(c, now);
    var ent := EntityFields(c).value;
    StepsWin(Lift(c), FioFields(c).value, ent, Emails(c).value, Phones(c).value,
             map["data_collected_at" := Scalar(Str(now))]);
    assert "entity_type" in ent;
  }

  /** A truthy text column becomes the stripped pieces between separators,
      which with the separator put back give the column; the primary value
      is the first piece. */
  lemma ListFieldsMeaning(c: Contact, key: string, sep: char, listKey: string, primaryKey: string)
    requires key in c && c[key].Str? && c[key].s != ""
    requires listKey != primaryKey
    ensures ListFields(c, key, sep, listKey, primaryKey).Ok?
    ensures var f := ListFields(c, key, sep, listKey, primaryKey).value;
            exists pieces: seq<string> ::
              Join([sep], pieces) == c[key].s && |pieces| >= 1
              && (forall i :: 0 <= i < |pieces| ==> sep !in pieces[i])
              && f[listKey] == Texts(StripAll(pieces))
              && f[primaryKey] == Scalar(Str(f[listKey].items[0]))
  {
    var pieces := SplitOn(c[key].s, sep);
    SplitOnJoin(c[key].s, sep);
  }

  /** The e-mail and phone lists of the enriched dict come from those columns. */
  lemma EnhanceLists(c: Contact, now: string)
    requires Enhance(c, now).Ok?
    ensures var e := Enhance(c, now).value;
            (forall k :: k in Emails(c).value ==> k in e && e[k] == Emails(c).value[k])
            && forall k :: k in Phones(c).value ==> k in e && e[k] == Phones(c).value[k]
  {
    EnhanceParts(c, now);
    StepsWin(Lift(c), FioFields(c).value, EntityFields(c).value, Emails(c).value, Phones(c).value,
             map["data_collected_at" := Scalar(Str(now))]);
  }

  lemma FioFieldsValue(c: Contact)
    requires "full_name" in c && FioFields(c).Ok?
    ensures Fio(c["full_name"]).Ok? && FioFields(c).value == AsItems(Fio(c["full_name"]).value)
  {
  }

  /** The name keys of the enriched dict are those `parse_fio` gives. */
  lemma EnhanceFio(c: Contact, now: string)
    requires Enhance(c, now).Ok? && "full_name" in c
    ensures Fio(c["full_name"]).Ok?
    ensures var e := Enhance(c, now).value; var d := AsItems(Fio(c["full_name"]).value);
            forall k :: k in d ==> k in e && e[k] == d[k]
  {
    EnhanceParts(c, now);
    FioFieldsValue(c);
    StepsWin(Lift(c), FioFields(c).value, EntityFields(c).value, Emails(c).value, Phones(c).value,
             map["data_collected_at" := Scalar(Str(now))]);
  }

  /** What each step writes is written over by no later step. */
  lemma StepsWin(base: map<string, Item>, fio: map<string, Item>, ent: map<string, Item>,
                 em: map<string, Item>, ph: map<string, Item>, stamp: map<string, Item>)
    requires fio.Keys <= FIO_KEYS && ent.Keys <= ENTITY_KEYS
    requires em.Keys <= EMAIL_KEYS && ph.Keys <= PHONE_KEYS
    requires stamp.Keys == {"data_collected_at"}
    ensures var e := base + fio + ent + em + ph + stamp;
            && (forall k :: k in fio ==> k in e && e[k] == fio[k])
            && (forall k :: k in ent ==> k in e && e[k] == ent[k])
            && (forall k :: k in em ==> k in e && e[k] == em[k])
            && (forall k :: k in ph ==> k in e && e[k] == ph[k])
  {
    KeysApart();
  }

  /** The steps of `enhance_contact_data` write disjoint sets of keys. */
  lemma KeysApart()
    ensures FIO_KEYS !! ENTITY_KEYS && FIO_KEYS !! EMAIL_KEYS && FIO_KEYS !! PHONE_KEYS
    ensures ENTITY_KEYS !! EMAIL_KEYS && ENTITY_KEYS !! PHONE_KEYS && EMAIL_KEYS !! PHONE_KEYS
    ensures "data_collected_at" !in FIO_KEYS + ENTITY_KEYS + EMAIL_KEYS + PHONE_KEYS
  {
  }
}
