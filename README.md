# FIPS trademark order pipeline — a Dafny model

The repository watches a PostgreSQL copy of the FIPS trademark register. For
each new trademark record (`rutmk_uid`), it fills a JSON template from the
database and turns the result into an EPGU `ElkOrderRequest` XML order. It
checks the order against an XSD schema and records the outcome in a small JSON
tracker file. Once a formed record's object turns out to have kind `150002`,
the record is marked to be sent.

This project models the core of that pipeline, one Dafny module per source file.

- `Template` (`main/src/data_template.py`): the template engine.
  - A template is a JSON tree in which two kinds of marker dict stand for computed values:
    - `_DataTemplateElement_` is a field: an example value and a chain of database lookup steps.
    - `_ConditionalElement_` is a conditional: a chain, one condition and a result subtree.
  - `DataTemplate(json)` replaces the marker dicts by objects.
  - `fill_template` evaluates the tree for one record key. Dict keys and list items that evaluate to `None` are dropped.
  - The model has three parts:
    - the tree (`Node`) with its conversion, its serialisation and its filling;
    - every operation as a function, plus a method with the source's loops proved equal to that function;
    - a `DataTemplate` class whose `data` field `fill_template` replaces.
  - The database is a parameter (`Lookup`), and so is the `eval` of an `after` expression (`Transform`).
- `Validate` (`test/validate.py`): the checksum validators for OGRN, SNILS, INN and KPP, and the name-driven `validate_function` / `validate_list_functions`.
  - The digit loops are methods proved equal to the closed forms.
  - The closed forms are proved to be the published check-digit rules.
- `Tracker` (`main/src/tracker.py`): `RecordTracker` as a class.
  - Its fields are the dict's key order, its records and the file on disk.
  - Each method writes the file back.
  - Saving and loading round-trip.
- `Cycle` (`main/main.py`): one iteration of the monitoring loop.
  1. Scan for new uids.
  2. Form and validate the XML of every `NEW` or `FORM_FAIL` record.
  3. Promote a formed record whose kinds include `150002`.
  4. List the files to send.
  - Each step is a method on the tracker, proved against a function of the old records.
  - The lemmas state the record life cycle.
  - These members state the cycle as intended, with a logger that accepts `force_print`. As written, `Logger.log` takes positional arguments only, so every `logger.log(..., force_print=True)` raises `TypeError`. A second group of members (`Cycle.RunCycleAsWritten` and the lemmas beside it) models the cycle as written: the first record step 2 or step 3 reaches ends the iteration with that error (see Findings).
- `XmlGen` (`main/src/xml_generator.py`): the dict-to-XML mapping into the EPGU namespace, and the schema check's no-schema case.
- `DbConnector` (`main/src/db_connector.py`): the processed-id tracker and its `NOT IN` clause, the identity column, and the conversion of the kinds query's rows.
- `FormXml` (`database_tester/form_xml.py`): `parse_fio` and `enhance_contact_data`, which clean up a contact row.
- `FormExampleXml` (`database_tester/form_example_xml.py`): the example order document built from trademarks and contacts.
- `PyCore`: the Python run-time notions the modules share:
  - values and truthiness;
  - `str()`, `int()`, `split()`, `strip()` and `join`;
  - exceptions as `Result`.

Python exceptions are `Err` values of a `Result`. Python `None` is `Null`. A
dict of the template tree (`Template.Node`) is a sequence of entries in
insertion order. The tracker keeps its key order in a field of its own. The
other dicts are maps, whose key order is not modelled (see "Left out").

## Model

| member | source | states |
|---|---|---|
| Template.HowToFromDictMeaning | main/src/data_template.py:16-23 | A lookup step is read from a dict that holds `table_name` and `column_name`. A missing one raises `KeyError` naming the first missing key, and a non-dict raises. The optional fields default to `None`. |
| Template.HowToDictCarries | main/src/data_template.py:25-33 | A step's dict carries each of the four fields under its own key, exactly when the field is not `None`, and holds no other key. |
| Template.HowToRoundTrip | main/src/data_template.py:16-33 | Reading back a written step succeeds exactly when its table and column are set, and then gives the same step. |
| Template.HowToItemsOk | main/src/data_template.py:78 | A step list converts exactly when every item converts. |
| Template.HowToItemsAt | main/src/data_template.py:78 | A converted step list holds each item's step at the item's position. |
| Template.StepsRoundTrip | main/src/data_template.py:65-80 | A list of complete steps, written and read back, is the same list. |
| Template.KeyColumn | main/src/data_template.py:36 | A step matches on its condition column, or on `rutmk_uid` when none is given. |
| Template.StepValue | main/src/data_template.py:35-53 | Without a connector a step raises. With one, the result is as follows: a missing row or NULL gives `None`; without `after`, the fetched value; with `after`, the transformed value, or `None` when the transform raised. |
| Template.ChainAppend | main/src/data_template.py:87-90 | Running two step chains one after the other is running their concatenation. |
| Template.ChainPassesMiss | main/src/data_template.py:87-91 | A miss does not stop a chain: the remaining steps run with `None` as their key. |
| Template.ElementValue | main/src/data_template.py:82-91 | A field gives its example without a connector and raises on a `None` key. Otherwise it gives the text of its chain's result, which is `"None"` after a miss. |
| Template.ElementToValue | main/src/data_template.py:82-91 | The loop threading each step's result into the next computes `ElementValue`. |
| Template.Contains | main/src/data_template.py:162 | Python `in`: list membership by `==`, key of a dict, substring of a string, and `TypeError` on anything else. |
| Template.Holds | main/src/data_template.py:159-167 | Each of the three conditions: equality with the expected value; membership in the collection; emptiness (None or "") compared with the flag. |
| Template.EqualIsSingletonIn | main/src/data_template.py:159-162 | The equality condition is membership in a one-item list. |
| Template.EmptyFlags | main/src/data_template.py:163-167 | The empty test with `True` (or `1`) holds exactly on an empty value, with `False` (or `0`) exactly on a non-empty one, and with a string never. |
| Template.ConditionalValue | main/src/data_template.py:148-173 | A conditional gives its stored result, unprocessed, exactly when its condition holds of its chain's value. Otherwise it gives `None`, and it raises only when the chain or the test raises. |
| Template.ConditionalToValue | main/src/data_template.py:148-173 | The loop of `ConditionalElement.to_value` computes `ConditionalValue`. |
| Template.ElementFromDict | main/src/data_template.py:73-80 | A field dict must hold its marker. The field keeps the example verbatim and the converted step list. |
| Template.ElementRoundTrip | main/src/data_template.py:65-80 | A field written by `to_dict` and read by `from_dict` is the same field. |
| Template.NewConditional | main/src/data_template.py:95-106 | A conditional keeps exactly one condition, chosen by the priority equal, then in, then empty. With none it raises the `ValueError`. |
| Template.Conversion | main/src/data_template.py:182-212 | In `to_dict` mode every node comes back unchanged, and scalars always do. |
| Template.ConvertEntriesKeys | main/src/data_template.py:200-204 | Converting a plain dict keeps its keys, in order. |
| Template.ConvertItems | main/src/data_template.py:206-208 | Converting a list keeps its length, or the node unchanged in `to_dict` mode. |
| Template.ConvertSpecialNodes | main/src/data_template.py:182-212 | The recursive method with its dict and list loops computes `Conversion`. |
| Template.ConvertEntriesLoop | main/src/data_template.py:201-204 | The loop over a dict's values computes `ConvertEntries`. |
| Template.ConvertItemsLoop | main/src/data_template.py:206-208 | The loop over a list's items computes `ConvertItems`. |
| Template.ConversionResolves | main/src/data_template.py:182-212 | Converting JSON leaves no marker dict behind, at any depth the conversion reaches. |
| Template.ToDictKeepsNestedField | main/src/data_template.py:139-146 | As written, a conditional whose result is a plain dict holding a field serialises that field as an object, not as JSON (see Findings). |
| Template.SerializeIsPlain | main/src/data_template.py:126-146 | The corrected serialisation of a converted tree is plain JSON at every depth. |
| Template.SerializeRoundTrip | main/src/data_template.py:108-146 | Converting the corrected serialisation of a tree gives back the same tree, at every depth. |
| Template.ElementSerialRoundTrip | main/src/data_template.py:191-194 | A serialised field converts back to the same field. |
| Template.ConditionalSerialRoundTrip | main/src/data_template.py:108-124 | A serialised conditional converts back to the same steps, condition and result. |
| Template.Fill | main/src/data_template.py:214-249 | Filling leaves a scalar unchanged and replaces a field by its value. |
| Template.FillEntries | main/src/data_template.py:219-225 | A filled dict holds no `None` value. |
| Template.FillItems | main/src/data_template.py:227-233 | A filled list holds no `None` item. |
| Template.FillFiredConditional | main/src/data_template.py:239-245 | A conditional that fires is filled as its result; one that does not fire gives `None`. |
| Template.FillEntriesOk | main/src/data_template.py:219-225 | Filling a dict fails exactly when filling one of its values fails. |
| Template.FillEntriesKeeps | main/src/data_template.py:221-224 | Every key whose filled value is not `None` is kept, with that value. |
| Template.FillEntriesOnlyFrom | main/src/data_template.py:219-225 | A filled dict holds only filled values of its own entries, under their keys. |
| Template.FillItemsOk | main/src/data_template.py:227-233 | Filling a list fails exactly when filling one of its items fails. |
| Template.FillItemsKeeps | main/src/data_template.py:229-232 | Every item whose filled value is not `None` is kept. |
| Template.FillItemsOnlyFrom | main/src/data_template.py:227-233 | A filled list holds only filled values of its own items. |
| Template.FillEntriesAppend | main/src/data_template.py:221-224 | Filling a dict keeps the relative order of the surviving entries: `a + b` fills as `a`, then `b`. |
| Template.FillItemsAppend | main/src/data_template.py:229-232 | Filling a list keeps the relative order of the surviving items. |
| Template.FillFixesSettled | main/src/data_template.py:214-249 | Filling leaves a filled document unchanged, whatever the connector and key. |
| Template.FillSettles | main/src/data_template.py:214-249 | With a connector, the result of filling is a filled document: plain values only, with no `None` inside a container. |
| Template.FillIdempotent | main/src/data_template.py:214-249 | With a connector, filling twice is filling once. |
| Template.FillRecursive | main/src/data_template.py:214-249 | The recursive method with its dict and list loops computes `Fill`. |
| Template.FillEntriesLoop | main/src/data_template.py:219-225 | The dict loop computes `FillEntries`. |
| Template.FillItemsLoop | main/src/data_template.py:227-233 | The list loop computes `FillItems`. |
| Template.DataTemplate.New | main/src/data_template.py:177-179 | A template object holds the converted tree, or the construction raises what the conversion raised. |
| Template.DataTemplate.FillTemplate | main/src/data_template.py:251-253 | `data` becomes its fill for the key, and the key is returned. When filling raises, `data` is left as it was. |
| Validate.OgrnControl | test/validate.py:4-13 | The OGRN check digit: one ASCII digit. It succeeds exactly when the first 12 (UL) or 14 (IP) characters read as an integer through `int()`, which takes decimal digits of any script. It raises for another type code. |
| Validate.SnilsControl | test/validate.py:15-23 | The SNILS check pair: two ASCII digits. It succeeds exactly when the first nine characters are decimal digits of any script, as `int()` reads them, and otherwise raises the `int()` error. |
| Validate.InnControl | test/validate.py:25-44 | The INN check digits, in ASCII: one for UL over nine decimal digits, two for IP/FL over ten. Digits of any script are read, another character raises the `int()` error, and another type code raises. |
| Validate.SumDigits | test/validate.py:28-30 | The `enumerate` loop succeeds exactly when every character is a decimal digit of some script, and then gives the weighted sum of the digits' values. |
| Validate.GetControlSnils | test/validate.py:15-23 | The SNILS loop computes `SnilsControl`, so it accepts decimal digits of any script. |
| Validate.GetControlInn | test/validate.py:25-44 | The two INN loops compute `InnControl`, so they accept decimal digits of any script. |
| Validate.ValidateOgrn | test/validate.py:50-57 | `None` is not valid and a wrong length is not valid. An unknown type code raises. The check digit is read through `int()`, so digits of any script are accepted (`Validate.OgrnMeaning`). |
| Validate.ValidateSnils | test/validate.py:59-62 | `None` is not valid, a length other than 11 is not valid, and a value without `len` raises. |
| Validate.ValidateInn | test/validate.py:64-71 | `None` is not valid and a length other than 10 (UL) or 12 (FL/IP) is not valid. An unknown type code raises. The check digits are read through `int()`, so digits of any script are accepted (`Validate.InnUlMeaning`). |
| Validate.ValidateKpp | test/validate.py:73-76 | A KPP is valid exactly when it is a string of nine characters. |
| Validate.OgrnMeaning | test/validate.py:50-56 | An OGRN of the right length, all decimal digits of any script, is valid exactly when its last character is the ASCII digit of the rest's number mod 11 (UL) or mod 13 (IP), mod 10. |
| Validate.InnUlMeaning | test/validate.py:67-68 | A ten-digit legal INN (digits of any script) is valid exactly when its last character is the check digit of the first nine. |
| Validate.InnPersonMeaning | test/validate.py:69-70 | A twelve-digit personal INN (digits of any script) is valid exactly when its last two characters are the check pair of the first ten. |
| Validate.SnilsMeaning | test/validate.py:59-62 | An eleven-digit SNILS (digits of any script) is valid exactly when its last two characters are the check pair of the first nine. |
| Validate.InnUlCompletes | test/validate.py:25-32 | Any nine digits followed by their check digit form a valid legal INN. |
| Validate.SnilsCompletes | test/validate.py:15-23 | Any nine digits followed by their check pair form a valid SNILS. |
| Validate.SnilsNonDigitRaises | test/validate.py:18-19 | An eleven-character SNILS with a character that is no decimal digit of any script among its first nine raises the `int()` error instead of returning false. |
| Validate.InnUlExample | test/validate.py:25-32 | The check digit of 771000001 is 5, so 7710000015 is valid and 7710000016 is not. |
| Validate.SnilsValidExample | test/validate.py:15-23 | 112-233-445 95 is a valid SNILS. |
| Validate.SnilsInvalidExample | test/validate.py:59-62 | 112-233-445 00 is not a valid SNILS. |
| Validate.SnilsOtherScriptExample | test/validate.py:15-62 | The same SNILS written in Arabic-Indic digits, ١١٢٢٣٣٤٤٥٩٥, is read by `int()` and validates to false: the check pair is the ASCII "95", which differs from "٩٥". |
| Validate.ValidateFunction | test/validate.py:82-102 | A name ending in `optional`, or `allow_none`, lets `None` pass. |
| Validate.UnknownNameFails | test/validate.py:88-102 | An unknown validator name on a non-`None` value gives false. |
| Validate.OptionalSuffix | test/validate.py:83-85 | On a non-`None` value, `name optional` validates as `name`. |
| Validate.ValidateAllMeaning | test/validate.py:104-108 | A list of validators passes exactly when every one passes. |
| Validate.AllPassIff | test/validate.py:104-108 | Scanning the validators' results with an early exit gives `True` exactly when every result is `True`. |
| Validate.FailureStops | test/validate.py:104-108 | The first result that is an error or `False` decides the scan, whatever follows it. |
| Validate.ValidateAllStops | test/validate.py:104-108 | The first failing validator decides the list, whatever follows it. |
| Validate.PrefixDecides | test/validate.py:104-108 | Once a validator fails after passing ones, appending more validators changes nothing. |
| Validate.ValidateListFunctions | test/validate.py:104-108 | The early-exit loop computes `ValidateAll`. |
| Tracker.InsertOrder | main/src/tracker.py:44-47 | Assigning keys into a dict keeps the old key order as a prefix and adds exactly the new keys. |
| Tracker.InsertOrderDistinct | main/src/tracker.py:44-47 | The key order never holds a uid twice. |
| Tracker.InsertOrderIdempotent | main/src/tracker.py:44-47 | Assigning the same keys twice gives the order of assigning them once. |
| Tracker.DumpLoadRoundTrip | main/src/tracker.py:13-21 | A saved tracker loads back with the same uids, in the same order, with the same records. |
| Tracker.SelectComplete | main/src/tracker.py:50-56 | Every record whose status is among those asked for is selected. |
| Tracker.SelectUids | main/src/tracker.py:50-56 | A uid is selected exactly when it is tracked and its status matches. |
| Tracker.SelectAppend | main/src/tracker.py:53-55 | Selection keeps the dict's order. |
| Tracker.SelectDistinct | main/src/tracker.py:50-56 | No uid is selected twice. |
| Tracker.ScanData | main/src/tracker.py:44-47 | A scan adds every new uid with status `NEW` and leaves every tracked record as it was. |
| Tracker.Merge | main/src/tracker.py:62 | `dict.update`: the new fields win, the others are kept, and nothing else appears. |
| Tracker.RecordTracker.constructor | main/src/tracker.py:9-17 | A missing file gives an empty tracker. Otherwise the tracker holds the file's records in file order. |
| Tracker.RecordTracker.Save | main/src/tracker.py:19-21 | The file becomes the dump of the tracker, and the tracker itself is unchanged. |
| Tracker.RecordTracker.ScanNewRecords | main/src/tracker.py:23-48 | The new uids are appended as `NEW`, tracked records are kept, and the file is written. |
| Tracker.RecordTracker.GetRecordsByStatus | main/src/tracker.py:50-56 | The loop returns the matching records, in key order. |
| Tracker.RecordTracker.UpdateRecord | main/src/tracker.py:58-63 | The record is created if missing and updated with the fields, nothing else changes, and the file is written. |
| Tracker.ScanIdempotent | main/src/tracker.py:23-48 | Scanning the same rows twice is scanning them once. |
| Tracker.UpdateFields | main/src/tracker.py:58-63 | After an update, a given field is the new value, or the old one, or absent when it was never set. |
| Cycle.OutcomeMeaning | main/main.py:57-82 | Intended cycle: a record is marked `FORM_SUCC` with its XML path exactly when its document is built and valid. Otherwise it is marked `FORM_FAIL`, with the exception's text or the validation message (or the joined errors). |
| Cycle.ProcessRecord | main/main.py:57-82 | Intended cycle: forming one record with a fresh template computes `Outcome`. |
| Cycle.XmlPathCanonical | main/main.py:66 | The recorded XML path is in pathlib's canonical form. Read again, it has the root of `<uid>.xml` and its components, after `data` when the name is relative. |
| Cycle.XmlPathPlain | main/main.py:66 | A uid without a slash is recorded as `data/<uid>.xml`. |
| Cycle.XmlPathCollapses | main/main.py:66 | A doubled slash or a `.` directory in a relative uid disappears: both `d//u` and `d/./u` give `data/d/u.xml`. |
| Cycle.XmlPathAbsolute | main/main.py:66 | An absolute uid `/u` replaces the data folder: the path is `/u.xml`. |
| Cycle.Snapshot | main/main.py:53 | The snapshot step 2 iterates holds exactly the tracked records whose status matches. |
| Cycle.FormRecords | main/main.py:52-85 | Intended cycle: step 2 gives every `NEW`/`FORM_FAIL` record its outcome, leaves the others, and keeps the key order and the file in step. |
| Cycle.CheckKinds | main/main.py:87-101 | Intended cycle: step 3 promotes a formed record to `150002` when its kinds include it, and changes nothing else. A query error leaves the record as it was. |
| Cycle.FilesToSend | main/main.py:103-106 | Step 4 lists the XML path of every promoted record, in order, or fails on one without a path. |
| Cycle.RunCycle | main/main.py:43-106 | Intended cycle: one cycle is the scan, then steps 2, 3 and 4 in order. The tracker ends as `CycleData` of the old records, and the file matches it. |
| Cycle.CycleKeepsUids | main/main.py:43-106 | A cycle never drops a record. |
| Cycle.PromotedIsFinal | main/main.py:87-106 | A record already at `150002` is left exactly as it was. |
| Cycle.NewRecordPromoted | main/main.py:45-94 | Intended cycle: in one cycle, a new uid whose document validates and whose object has kind 150002 ends at `150002`, with its XML path and no error text. |
| Cycle.FailedRecordRetried | main/main.py:81-82 | Intended cycle: a record whose attempt raises is marked `FORM_FAIL` with the error's text, and the next cycle selects it again. |
| Cycle.InvalidRecordReported | main/main.py:75-78 | Intended cycle: an invalid document is reported by its message, or by its errors joined with `"; "`. |
| Cycle.NoSchemaNeverForms | main/main.py:71-79 | Intended cycle: without a loaded schema no record is ever formed: its error text is "XSD schema not loaded". |
| Cycle.FormedWaits | main/main.py:87-101 | Intended cycle: a formed record stays as it is while its kinds lack 150002 or cannot be read. |
| Cycle.TryForm | main/main.py:57-71 | The `try` block run step by step (fresh template, fill, XML, validation) gives `Attempt`: the validation result, or the first exception raised. |
| Cycle.Log | main/src/logger.py:11 | `Logger.log` takes positional arguments only: a call succeeds exactly when it passes no keyword, and the first keyword raises `TypeError` "Logger.log() got an unexpected keyword argument '<keyword>'". |
| Cycle.ForcePrintRaises | main/main.py:74-101 | Every `logger.log(..., force_print=True)` of the loop raises that `TypeError`, whose text names `force_print`. |
| Cycle.FormOneAsWritten | main/main.py:57-83 | As written, step 2 on one record writes its outcome. When the `try` block got as far as its log call, that call's `TypeError` is caught and `FORM_FAIL` with its text is written over the outcome. The `except` block's own log call then raises the `TypeError` out of `main()`. The file is written, and no other record or key changes. |
| Cycle.NeverFormedAsWritten | main/main.py:72-83 | As written, a record step 2 reaches always ends `FORM_FAIL`, never `FORM_SUCC`. Its error text is the logger's when the attempt completed (a valid document keeps its XML path), and the exception's text when the attempt raised. |
| Cycle.CheckKindAsWritten | main/main.py:91-101 | As written, step 3 on one record promotes it to `150002` when its kinds include that kind, and changes nothing otherwise. Either way it then raises the logger's `TypeError` out of `main()`. |
| Cycle.RunCycleAsWritten | main/main.py:43-106 | As written, one iteration is the scan, then step 2 on the first selected record only, or, when step 2 selects none, step 3 on the first formed record only; either raises the logger's `TypeError`. Only when both select nothing does step 4 list the files. The tracker and result are `CycleAsWritten` of the old records. |
| Cycle.StepTwoStopsAtFirst | main/main.py:53-83 | As written, when some record is to be formed, only the first such record changes, to `FORM_FAIL`. Every other record stays as the scan left it, and the iteration ends with the `TypeError`. |
| Cycle.StepThreeStopsAtFirst | main/main.py:87-101 | As written, when no record is to be formed and one is formed, only the first formed record changes. It is promoted when its kinds include 150002, and the iteration ends with the `TypeError`. |
| Cycle.NewValidRecordFailsAsWritten | main/main.py:43-83 | For an empty tracker and one new uid whose document validates, the intended step 2 marks the record `FORM_SUCC`. As written, the record ends `FORM_FAIL` with its XML path and the logger's text, and the iteration raises. |
| XmlGen.Qualified | main/src/xml_generator.py:21-22 | Every element name is in Clark notation in the EPGU namespace, with the tag recoverable after it. |
| XmlGen.SetAttrs | main/src/xml_generator.py:27-29 | The attributes are exactly the keys set, and the last pair sets its key to `str(value)`. |
| XmlGen.CreateElementWithNs | main/src/xml_generator.py:19-31 | A childless namespaced element with the text and the attributes set in order. |
| XmlGen.SetAttrsStep | main/src/xml_generator.py:28-29 | Each attribute pair sets its key over what the earlier pairs set. |
| XmlGen.DictToXml | main/src/xml_generator.py:33-62 | The loops over keys and lists compute `AddEntries`. |
| XmlGen.AddEntriesStops | main/src/xml_generator.py:38-62 | A failing key stops the whole conversion with that failure. |
| XmlGen.JsonToXmlTree | main/src/xml_generator.py:64-83 | Any failure is reported as "Error creating XML file". A success comes from a dict and has the namespaced root tag. |
| XmlGen.JsonToXml | main/src/xml_generator.py:64-83 | The method computes `JsonToXmlTree`. |
| XmlGen.ValidateXml | main/src/xml_generator.py:93-123 | Without a schema the result is invalid, with the single error "XSD schema not loaded". |
| XmlGen.AddEntriesKeepsTag | main/src/xml_generator.py:38-62 | Converting a dict never renames the parent and only appends to its children. |
| XmlGen.AddEntriesAppend | main/src/xml_generator.py:38 | Keys are handled in order: `a + b` converts `a`, then `b`. |
| XmlGen.AddItemsCount | main/src/xml_generator.py:49-58 | A list adds one child per item, each named after the key. |
| XmlGen.AddEntriesCount | main/src/xml_generator.py:38-62 | A dict adds no child for an attribute or the text, one per scalar or dict, and one per list item. |
| XmlGen.AttributeEntry | main/src/xml_generator.py:39-41 | An `@name` key sets the attribute `name` to `str(value)` and adds no child. |
| XmlGen.ScalarEntry | main/src/xml_generator.py:59-62 | A scalar under a plain key adds one namespaced child holding `str(value)`. |
| XmlGen.JsonToXmlNamespaced | main/src/xml_generator.py:64-71 | Every element of the order document is in the EPGU namespace, under `ElkOrderRequest`. |
| DbConnector.WhereClause | main/src/db_connector.py:17-21 | No ids give `(true)`. Otherwise the clause excludes the quoted, comma-separated ids on `rutmk_uid`. |
| DbConnector.WhereAppend | main/src/db_connector.py:14-21 | Adding an id extends the `NOT IN` list by that one quoted id. |
| DbConnector.WhereInjective | main/src/db_connector.py:17-21 | When no id holds a quote, the clause determines the list of ids exactly. |
| DbConnector.WhereDoesNotEscape | main/src/db_connector.py:20 | Ids are not escaped: the single id `a', 'b` gives the same clause as the two ids `a` and `b`. |
| DbConnector.IndexTrackProcessed.constructor | main/src/db_connector.py:7-8 | A new tracker has no used ids. |
| DbConnector.IndexTrackProcessed.Add | main/src/db_connector.py:14-15 | The id is appended to the used ids. |
| DbConnector.IndexTrackProcessed.Where | main/src/db_connector.py:17-21 | The object's clause is `WhereClause` of its used ids. |
| DbConnector.Connector.GetIndexColumnName | main/src/db_connector.py:35-36 | The identity column is `rutmk_uid`, the processed-id tracker's column. |
| DbConnector.Connector.MarkLastIndex | main/src/db_connector.py:67-68 | The id is appended to the connector's processed ids. |
| DbConnector.KindsFromRows | main/src/db_connector.py:64-65 | One kind per row, each the text of the row's first column. |
| DbConnector.KindMatches | main/src/db_connector.py:65 | A kind matches `"150002"` exactly when the row held that text or that integer. |
| FormXml.ParseFio | database_tester/form_xml.py:267-294 | The method computes `Fio`. |
| FormXml.FioOfText | database_tester/form_xml.py:281-292 | A string name splits into surname, first name and the remaining words joined by spaces. Missing parts are empty. |
| FormXml.FioOfFalsy | database_tester/form_xml.py:278-279 | A falsy name gives three empty parts and keeps the input. |
| FormXml.FioOfOther | database_tester/form_xml.py:281 | A truthy name that is not a string raises (no `strip`). |
| FormXml.FioKeepsWords | database_tester/form_xml.py:281-292 | The three parts, joined by spaces, split into exactly the words of the name. |
| FormXml.EnhanceContactData | database_tester/form_xml.py:296-337 | The step-by-step method computes `Enhance`. |
| FormXml.EnhanceRest | database_tester/form_xml.py:307-335 | The steps after the name raise the first step's error, or add their keys and the timestamp. |
| FormXml.SetEntityType | database_tester/form_xml.py:307-321 | The entity-type step raises or adds its keys. |
| FormXml.AddList | database_tester/form_xml.py:323-332 | The e-mail or phone step raises or adds its list and primary value. |
| FormXml.FioFieldsFails | database_tester/form_xml.py:303-305 | Name parsing raises exactly on a truthy `full_name` that is not a string. |
| FormXml.EnhanceFails | database_tester/form_xml.py:296-337 | The clean-up raises exactly on four inputs: a truthy non-string name; a non-string INN; a truthy non-string e-mail; a truthy non-string phone. |
| FormXml.EnhanceSteps | database_tester/form_xml.py:296-337 | The enriched dict is the copy of the contact, updated in turn by each step's keys and the timestamp. |
| FormXml.EnhanceKeepsContact | database_tester/form_xml.py:300 | Every key of the contact survives. A key no step writes keeps its value. |
| FormXml.EnhanceEntityType | database_tester/form_xml.py:307-321 | The entity type is decided by INN length (10 legal, 12 entrepreneur, else unknown), then by a passport (individual), else unknown. The INN length is recorded for 10 and 12. |
| FormXml.ListFieldsMeaning | database_tester/form_xml.py:324-332 | A non-empty text column becomes its stripped separator-free pieces, which join back to the text. The primary value is the first piece. |
| FormXml.EnhanceLists | database_tester/form_xml.py:323-332 | The e-mail and phone keys of the result are those their steps computed. |
| FormXml.EnhanceFio | database_tester/form_xml.py:302-305 | The name keys of the result are exactly those `parse_fio` gives. |
| FormExampleXml.ApplicantTypeMeaning | database_tester/form_example_xml.py:66-84 | A truthy INN of length 10 is legal and of length 12 is ip; anything else is individual. A truthy INN without `len` raises. |
| FormExampleXml.SplitFioParts | database_tester/form_example_xml.py:86-98 | Only a string splits. The parts are filled left to right, and the surname is empty exactly when there are no words. |
| FormExampleXml.SplitFioAgrees | database_tester/form_example_xml.py:86-98 | `split_fio` cuts a string exactly as the contact clean-up's `parse_fio` does. |
| FormExampleXml.SplitFioKeepsWords | database_tester/form_example_xml.py:86-98 | The parts, joined by spaces, split into exactly the words of the name. |
| FormExampleXml.CreateUserElement | database_tester/form_example_xml.py:100-130 | The method appends `UserElement` to the parent, or raises what splitting the name raised. |
| FormExampleXml.CreatePersonalDoc | database_tester/form_example_xml.py:111-128 | The personal document built one sub-element at a time is that of `UserOf`. |
| FormExampleXml.UserOfMeaning | database_tester/form_example_xml.py:111-128 | The personal document is, in order: document type; passport (or the default); surname and first name (or defaults); patronymic only when present; citizenship. |
| FormExampleXml.UserElementNullName | database_tester/form_example_xml.py:107 | A contact whose name is NULL makes the user element raise. |
| FormExampleXml.CreateOrganizationElement | database_tester/form_example_xml.py:132-179 | The method appends `OrganizationElement` to the parent, or raises. |
| FormExampleXml.CreateLegal | database_tester/form_example_xml.py:139-155 | The legal-entity branch builds `LegalOf`. |
| FormExampleXml.CreateProprietor | database_tester/form_example_xml.py:157-177 | The sole-proprietor branch builds `ProprietorOf` with the non-empty name parts, or raises what splitting raised. |
| FormExampleXml.AppendNameParts | database_tester/form_example_xml.py:172-177 | The non-empty name parts are appended in order. |
| FormExampleXml.OrganizationMeaning | database_tester/form_example_xml.py:132-179 | A legal entity is identified by OGRN, else by INN and KPP, followed by its name as `UlTitle` exactly when the name is truthy. A proprietor has an OGRN (or the default), its INN and non-empty name parts. Any other INN length gives an empty organization. |
| FormExampleXml.ApplicantChoice | database_tester/form_example_xml.py:201-209 | A found contact gets a `user` exactly when its type is individual, and an `organization` otherwise. |
| FormExampleXml.ApplicantNullInn | database_tester/form_example_xml.py:202-203 | A contact whose INN is NULL is typed individual, yet building its applicant raises on `len(None)`. |
| FormExampleXml.OrderOf | database_tester/form_example_xml.py:198-250 | An order has eight children: the applicant first, and the order number fifth. |
| FormExampleXml.OrderResults | database_tester/form_example_xml.py:197-237 | One order per pair of trademark and contact, with the pair's index and the clock reading of the pair's own iteration. |
| FormExampleXml.PairCount | database_tester/form_example_xml.py:197 | `zip` stops at the shorter list. |
| FormExampleXml.CreateXmlFromTrademarks | database_tester/form_example_xml.py:181-258 | The method computes `XmlFromTrademarks`, with one clock reading per order. Writing out a truthy text that is not a string raises (a falsy one is skipped). Parsing the written text back raises when a text holds a character XML 1.0 forbids. |
| FormExampleXml.CreateOrders | database_tester/form_example_xml.py:194-250 | The loop builds the `orders` element from every order, each stamped with its own iteration's clock reading, or raises the first order's error. |
| FormExampleXml.CreateOrder | database_tester/form_example_xml.py:198-250 | The loop body builds `Order`. |
| FormExampleXml.AddApplicant | database_tester/form_example_xml.py:200-219 | A found contact gets its applicant, and a missing one the placeholder user. |
| FormExampleXml.FinishOrder | database_tester/form_example_xml.py:221-250 | The fixed sender, service, region, number, date, office and status history follow the applicant. |
| FormExampleXml.CreateOfficeInfo | database_tester/form_example_xml.py:241-243 | The office element built step by step is `OfficeInfo`. |
| FormExampleXml.CreateStatusHistory | database_tester/form_example_xml.py:246-250 | The status history built step by step is `StatusHistoryList`. |
| FormExampleXml.CollectMeaning | database_tester/form_example_xml.py:197-250 | The orders are built exactly when every order builds, each at its index. |
| FormExampleXml.DocumentMeaning | database_tester/form_example_xml.py:181-250 | The document's root has `env="EPGU"` and one order per pair. Each order carries its trademark's number and the applicant chosen from its contact, or the placeholder. Its request date and its status date are both the clock reading of its own iteration. |
| FormExampleXml.OrderMeaning | database_tester/form_example_xml.py:198-250 | An order holds its number and the applicant chosen from its contact. Its request date and its status history carry the one reading `now`. |
| FormExampleXml.OrderNumberFallback | database_tester/form_example_xml.py:231-234 | A trademark without a key is numbered `trademark_<i+1>`. |
| FormExampleXml.NumericOgrnRaises | database_tester/form_example_xml.py:143-144 | A legal contact whose OGRN is an integer makes serialising the document raise. |
| FormExampleXml.IllegalCharRaises | database_tester/form_example_xml.py:154-258 | A legal contact whose name holds a character XML 1.0 forbids, such as U+0001, gets no document. Either serialising raises first, or parsing the serialised text back for pretty-printing does. |
| PyCore.SplitJoinRoundTrip | database_tester/form_example_xml.py:90-92 | `split()` undoes joining words with single spaces. |
| PyCore.SplitGivesWords | database_tester/form_example_xml.py:90 | `split()` gives non-empty words free of whitespace. |
| PyCore.SplitStrip | database_tester/form_xml.py:281 | `s.strip().split()` is `s.split()`. |
| PyCore.SplitOnJoin | database_tester/form_xml.py:325 | Joining the pieces of `s.split(sep)` with `sep` gives back `s`. |
| PyCore.PyIntOfDigits | test/validate.py:7 | `int()` of a string of decimal digits, of any script, is the number it denotes. |
| PyCore.PyIntOfChar | test/validate.py:19 | `int()` of one character succeeds exactly on a decimal digit of any script, and gives its value. |
| PyCore.ArabicIndicDigit | test/validate.py:19 | The Arabic-Indic digits U+0660 to U+0669 are decimal digits with the values 0 to 9. |
| PyCore.SpaceNonDigit | test/validate.py:7 | No whitespace character that `int()` strips is a decimal digit. |
| PyCore.PyIntOfArabicIndicDigit | test/validate.py:19 | `int("٣")` is 3. |
| PyCore.PyIntOfArabicIndicNumber | test/validate.py:7 | `int("٤٢")` is 42. |
| PyCore.DecimalRoundTrip | database_tester/form_example_xml.py:233 | Reading back the decimal text of a number gives the number. |

## Behaviour worth knowing

- A lookup miss does not cut the chain short. The next step is probed with `None` as its key (`Template.ChainPassesMiss`).
- An error in an `after` transform is caught and turns into `None`. The record goes on being filled.
- A conditional tests one of three conditions: equal, in and empty.
- A filled field is the text of its chain's result. Nothing else is applied to it.
- A record's status is one of `NEW`, `FORM_SUCC`, `FORM_FAIL` and `150002`.

## Left out

- Database access is not modelled:
  - the connection and cursors, `fetchall`, `get_debug_info` and the SQL text;
  - a lookup is the parameter `Lookup`, the scan's result the parameter `newRows`, and the kinds query's rows a parameter.
- Template.StepValue and Cycle.Outcome: a lookup never raises. Database errors while filling are not modelled. In the code the query text is built with an f-string and `fetchall` is not guarded, so a key holding a quote or a bad table or column name raises, and the record is marked `FORM_FAIL`. Nor is the carry-over of a failed transaction modelled. The connection runs without autocommit and is never rolled back, so after one failed query the later queries fail too, in later records and in step 3. In the model a record's outcome depends on its own uid only.
- The `eval` of an `after` expression is not modelled. It is the parameter `Transform`, where `None` means it raised.
- `DataTemplate.create_example_json` and the writing of the default template are left out. They are file set-up, not part of a cycle.
- The XML text is not modelled:
  - `ET.tostring` and the `minidom` pretty-printing are the parameter `serialize`;
  - the XSD library's check is the parameter `SchemaCheck`;
  - loading the schema is not part of this model.
- `validate_xml_string` is not part of this model; nothing calls it.
- Files are not modelled as I/O:
  - writing the XML file is left out, and only its path is recorded;
  - the tracker's JSON file is the field `disk`, holding the dumped records;
  - the per-record log files and `print` are left out. Of the logger, only its signature is modelled (`Cycle.Log`), because that signature refuses `force_print`.
- Clocks are parameters. In `FormExampleXml` the parameter `clock` gives `clock(i)`: the `datetime.now()` reading of the i-th order's iteration, shared by that order's request date and status date. In `FormXml` the enrichment timestamp is the parameter `now`. Nothing constrains the readings, so they need not increase.
- The `while True` loop and `time.sleep` are left out; one iteration is modelled (`Cycle.RunCycle`).
- Floats and JSON values other than `None`, booleans, integers and strings are left out.
- Key order of the dicts modelled as maps is not modelled. These are a record's fields (`Tracker.Fields`), a contact (`FormXml.Contact`, `FormExampleXml.Row`), the enriched contact of `FormXml` and the attributes of `XmlGen.XElem` and `FormExampleXml.Elem`. Nothing in the code branches on their order. The order of fields in the tracker file and of attributes in the written XML is not captured.
- PyCore.IsDigit: the decimal digits are those of Unicode 15.0 (general category Nd). A Python built on another Unicode version may know more or fewer scripts.
- XmlGen.Text: `str()` of a list, a dict or a template object is a modelled failure, not Python's text for it.
- Template.ScalarField: a step field holding a list or dict is a modelled failure, not the text Python would put in the query.
- XmlGen.ValidateXml: only the no-schema case is stated. With a schema, the result is the schema check's, and its message and error texts are the library's.
- Template.ConditionalFromDict: its contract states only that a conditional results; what it reads is stated by `Template.ConditionalSerialRoundTrip` and `Template.ConditionalBodyLookups`.
- Template.DataTemplate.New and Template.DataTemplate.FillTemplate: deep-copying the template JSON is implicit, because trees are values.
- `get_contact_info` and the other database readers of the tester scripts are not part of this model.
- PyCore.INT_ERROR: the `int()` error's text stops at "invalid literal for int() with base 10". Python goes on with a colon and the repr of the literal.
- FormExampleXml.SERIALIZE_ERROR: the text of ElementTree's serialisation error is not Python's. Python's names the value and its type.
- FormExampleXml.PARSE_ERROR: the `minidom` parse error's text has no line and column, which Python's gives.
- Cycle.OutcomeMeaning: states the intended cycle, with a logger that accepts `force_print`. As written, the logger's `TypeError` overrides it; `Cycle.CycleAsWritten` states what happens then.
- Cycle.ProcessRecord: states the intended cycle, with a logger that accepts `force_print`. As written, the logger's `TypeError` overrides it; `Cycle.CycleAsWritten` states what happens then.
- Cycle.FormRecords: states the intended cycle, with a logger that accepts `force_print`. As written, the logger's `TypeError` overrides it; `Cycle.CycleAsWritten` states what happens then.
- Cycle.CheckKinds: states the intended cycle, with a logger that accepts `force_print`. As written, the logger's `TypeError` overrides it; `Cycle.CycleAsWritten` states what happens then.
- Cycle.RunCycle: states the intended cycle, with a logger that accepts `force_print`. As written, the logger's `TypeError` overrides it; `Cycle.CycleAsWritten` states what happens then.
- Cycle.NewRecordPromoted: states the intended cycle, with a logger that accepts `force_print`. As written, the logger's `TypeError` overrides it; `Cycle.CycleAsWritten` states what happens then.
- Cycle.FailedRecordRetried: states the intended cycle, with a logger that accepts `force_print`. As written, the logger's `TypeError` overrides it; `Cycle.CycleAsWritten` states what happens then.
- Cycle.InvalidRecordReported: states the intended cycle, with a logger that accepts `force_print`. As written, the logger's `TypeError` overrides it; `Cycle.CycleAsWritten` states what happens then.
- Cycle.NoSchemaNeverForms: states the intended cycle, with a logger that accepts `force_print`. As written, the logger's `TypeError` overrides it; `Cycle.CycleAsWritten` states what happens then.
- Cycle.FormedWaits: states the intended cycle, with a logger that accepts `force_print`. As written, the logger's `TypeError` overrides it; `Cycle.CycleAsWritten` states what happens then.

## Findings

| source | as written | input that shows it | evidently intended | confidence | as-written member | corrected member |
|---|---|---|---|---|---|---|
| main/src/data_template.py:139-146 | A conditional's result that is a plain dict or list goes through `_convert_special_nodes(result, to_dict=True)`. That call returns it unchanged, so fields and conditionals nested inside it stay objects. | A conditional whose result is `{"a": <field>}` | The comment says nested special nodes are converted too: the output should be JSON at every depth | high (not executed) | Template.ToDictKeepsNestedField | Template.SerializeRoundTrip |
| main/main.py:74-101 | Every `logger.log(..., force_print=True)` call passes a keyword that `Logger.log(self, *args)` (main/src/logger.py:11) does not take, so each raises `TypeError`. In step 2 the `try` block's call is caught, and `FORM_FAIL` with the `TypeError`'s text overwrites the record. The `except` block's call then raises out of `main()`. Step 3 stops the same way at its first record. | An empty tracker and one new uid whose document validates | The calls log their message, so records are formed, promoted and listed | high (not executed) | Cycle.NewValidRecordFailsAsWritten | Cycle.NewRecordPromoted |
