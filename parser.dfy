/**
 * The object/link row builder of parser/openapi.py.
 *
 * The builder turns one document into the rows of objects.csv (Endpoint,
 * Info, externalDocs, then every schema followed by its properties) and the
 * rows of links.csv (the root link, Endpoint to Info, then every schema's
 * endpoint link followed by its property links). Rows are returned instead
 * of written; a Python exception becomes `Err`, and since the temporary
 * file is renamed only after the last row, a failed conversion publishes
 * no rows at all.
 */
module Parser {
  import opened Results
  import opened Text
  import opened Documents
  import opened Model

  const EndpointName: string := "Endpoint"
  const InfoName: string := "Info"
  const ExternalDocsName: string := "externalDocs"

  const ClassColumn: string := "class"
  const IdentityColumn: string := "identity"
  const NameColumn: string := "core.name"
  const DescriptionColumn: string := "core.description"
  const BaseColumns: seq<string> := [ClassColumn, IdentityColumn, NameColumn, DescriptionColumn]

  /** The objects.csv header: the four core columns, then every attribute key. */
  const HeaderColumns: seq<string> := BaseColumns + AttributeValues

  /** The exceptions that abort a conversion. */
  datatype Failure =
    | InfoDescriptionWithoutLength           // len() of None, a number or a bool: TypeError
    | InfoDescriptionNotText                 // a non-empty list or object has no replace(): AttributeError
    | SchemasNotObject                       // components.schemas missing or not an object: .items() fails
    | NoProperties(schema: string)           // schemavalue['properties']: KeyError or TypeError
    | PropertiesNotObject(schema: string)    // .items() on a non-object
    | PropertyNotObject(schema: string, property: string)  // propertyvalue.get() on a non-object
    | TableExists                            // objects.csv or links.csv already in the output directory

  /** A row of objects.csv: column name to cell value. */
  type Row = map<string, Json>

  /** A row of links.csv. */
  datatype Link = Link(association: string, fromIdentity: string, toIdentity: string)

  // ---------------------------------------------------------------------
  // The header, built as the constructor builds its ordered dict

  /** Inserting keys into an ordered dict: a key already present keeps its place. */
  function InsertKeys(keys: seq<string>, added: seq<string>): seq<string>
    decreases |added|
  {
    if added == [] then keys
    else InsertKeys(if added[0] in keys then keys else keys + [added[0]], added[1..])
  }

  lemma {:induction false} InsertKeysShape(keys: seq<string>, added: seq<string>)
    requires Distinct(keys)
    ensures Distinct(InsertKeys(keys, added))
    ensures |keys| <= |InsertKeys(keys, added)| && InsertKeys(keys, added)[..|keys|] == keys
    ensures forall c :: c in InsertKeys(keys, added) <==> c in keys || c in added
    decreases |added|
  {
    if added != [] {
      var next := if added[0] in keys then keys else keys + [added[0]];
      InsertKeysShape(next, added[1..]);
      assert next[..|keys|] == keys;
      assert added == [added[0]] + added[1..];
    }
  }

  lemma {:induction false} InsertFreshKeys(keys: seq<string>, added: seq<string>)
    requires Distinct(keys + added)
    ensures InsertKeys(keys, added) == keys + added
    decreases |added|
  {
    if added != [] {
      assert added[0] !in keys by {
        assert (keys + added)[|keys|] == added[0];
        assert forall k :: 0 <= k < |keys| ==> (keys + added)[k] == keys[k];
      }
      assert keys + added == (keys + [added[0]]) + added[1..];
      InsertFreshKeys(keys + [added[0]], added[1..]);
    }
  }

  lemma {:induction false} InsertKeysAppend(keys: seq<string>, added: seq<string>, x: string)
    ensures InsertKeys(keys, added + [x]) == InsertKeys(InsertKeys(keys, added), [x])
    decreases |added|
  {
    if added == [] {
      assert added + [x] == [x];
    } else {
      var next := if added[0] in keys then keys else keys + [added[0]];
      assert (added + [x])[1..] == added[1..] + [x];
      InsertKeysAppend(next, added[1..], x);
    }
  }

  /**
   * The constructor's loop over `vars(model)`: start from the four core
   * columns and add the value of every `_attr_` field.
   */
  method BuildObjectsHead(fields: seq<(string, string)>) returns (head: seq<string>)
    ensures head == InsertKeys(BaseColumns, AttributeFieldValues(fields))
    ensures Distinct(head) && |head| >= 4 && head[..4] == BaseColumns
    ensures forall c :: c in head <==> c in BaseColumns || c in AttributeFieldValues(fields)
  {
    head := BaseColumns;
    var i := 0;
    while i < |fields|
      invariant 0 <= i <= |fields|
      invariant head == InsertKeys(BaseColumns, AttributeFieldValues(fields[..i]))
    {
      var (attr, attrval) := fields[i];
      assert fields[..i + 1] == fields[..i] + [fields[i]];
      AttributeFieldValuesAppend(fields[..i], [fields[i]]);
      assert [fields[i]][1..] == [];
      if StartsWith(attr, "_attr_") {
        assert AttributeFieldValues([fields[i]]) == [attrval];
        InsertKeysAppend(BaseColumns, AttributeFieldValues(fields[..i]), attrval);
        assert [attrval][1..] == [];
        if attrval !in head {
          head := head + [attrval];
        }
      } else {
        assert AttributeFieldValues([fields[i]]) == [];
        assert AttributeFieldValues(fields[..i]) + [] == AttributeFieldValues(fields[..i]);
      }
      i := i + 1;
    }
    assert fields[..i] == fields;
    InsertKeysShape(BaseColumns, AttributeFieldValues(fields));
  }

  /** The model's fields give exactly the nineteen distinct columns of `HeaderColumns`. */
  lemma HeaderFromModel()
    ensures InsertKeys(BaseColumns, AttributeFieldValues(Fields)) == HeaderColumns
    ensures |HeaderColumns| == 19 && Distinct(HeaderColumns)
  {
    AttributeFieldsAreAttributes();
    AttributeNamespaces();
    forall i, j | 0 <= i < j < |HeaderColumns| ensures HeaderColumns[i] != HeaderColumns[j] {
      if j < 4 {
      } else if i < 4 {
        var a, b := HeaderColumns[i], HeaderColumns[j];
        assert b == AttributeValues[j - 4];
        assert |a| < 20 <= |b|;
      } else {
        assert HeaderColumns[i] == AttributeValues[i - 4] && HeaderColumns[j] == AttributeValues[j - 4];
      }
    }
    InsertFreshKeys(BaseColumns, AttributeValues);
  }

  // ---------------------------------------------------------------------
  // Object rows

  /** `copy.deepcopy(self._objects_head)`: every column set to ''. */
  function BlankRow(head: seq<string>): Row
  {
    map c | c in head :: Str("")
  }

  const InfoIdentity: string := EndpointName + "/" + InfoName
  const ExternalDocsIdentity: string := EndpointName + "/" + ExternalDocsName

  function SchemaIdentity(schema: string): string
  {
    EndpointName + "/Schemas/" + schema
  }

  function PropertyIdentity(schema: string, property: string): string
  {
    SchemaIdentity(schema) + "/" + property
  }

  function EndpointRow(head: seq<string>): Row
  {
    BlankRow(head)[ClassColumn := Str(ClassEndpoint)][IdentityColumn := Str(EndpointName)]
                  [NameColumn := Str(EndpointName)][DescriptionColumn := Str(EndpointName)]
  }

  /** The Info description after `if len(d) > 0: d = d.replace('\n', '\\n')`. */
  function InfoDescription(d: Json): Result<Json, Failure>
  {
    match d
    case Str(s) => Ok(Str(if |s| > 0 then ReplaceAll(s, "\n", "\\n") else s))
    case Arr(items) => if |items| > 0 then Err(InfoDescriptionNotText) else Ok(d)
    case Obj(members) => if |members| > 0 then Err(InfoDescriptionNotText) else Ok(d)
    case _ => Err(InfoDescriptionWithoutLength)
  }

  function InfoRow(head: seq<string>, doc: Json): Result<Row, Failure>
  {
    match InfoDescription(SafeGet(doc, "info.description", Null))
    case Err(e) => Err(e)
    case Ok(desc) =>
      Ok(InfoRowOf(head, desc, SafeGet(doc, "info.contact.email", Null), SafeGet(doc, "info.title", Null),
                   SafeGet(doc, "info.termsOfService", Null), SafeGet(doc, "info.license.name", Null),
                   SafeGet(doc, "info.version", Null)))
  }

  /** The Info row, given the escaped description and the looked-up Info fields. */
  function InfoRowOf(head: seq<string>, desc: Json, email: Json, title: Json, terms: Json, license: Json, version: Json): Row
  {
    BlankRow(head)[ClassColumn := Str(ClassInfo)][IdentityColumn := Str(InfoIdentity)]
                  [NameColumn := Str(InfoName)][DescriptionColumn := desc]
                  [AttrInfoContactEmail := email]
                  [AttrInfoTitle := title]
                  [AttrInfoDescription := desc]
                  [AttrInfoTermsOfService := terms]
                  [AttrInfoLicenseName := license]
                  [AttrInfoVersion := version]
  }

  function ExternalDocsRow(head: seq<string>, doc: Json): Row
  {
    BlankRow(head)[ClassColumn := Str(ClassExternalDocs)][NameColumn := Str(ExternalDocsName)]
                  [IdentityColumn := Str(ExternalDocsIdentity)]
                  [DescriptionColumn := SafeGet(doc, "externalDocs.description", Null)]
                  [AttrExternalDocsUrl := SafeGet(doc, "externalDocs.url", Null)]
  }

  /** `safe_get('components.schemas').items()` */
  function SchemasOf(doc: Json): Result<seq<(string, Json)>, Failure>
  {
    match SafeGet(doc, "components.schemas", Null)
    case Obj(members) => Ok(members)
    case _ => Err(SchemasNotObject)
  }

  /** `schemavalue['properties'].items()` */
  function PropertiesOf(schema: string, value: Json): Result<seq<(string, Json)>, Failure>
  {
    match value
    case Obj(members) =>
      (match Lookup(members, "properties")
       case None => Err(NoProperties(schema))
       case Some(Obj(props)) => Ok(props)
       case Some(_) => Err(PropertiesNotObject(schema)))
    case _ => Err(NoProperties(schema))
  }

  function SchemaRow(head: seq<string>, schema: string): Row
  {
    BlankRow(head)[ClassColumn := Str(ClassSchema)][NameColumn := Str(schema)]
                  [IdentityColumn := Str(SchemaIdentity(schema))]
                  [DescriptionColumn := Str(SchemaIdentity(schema))]
  }

  function PropertyRow(head: seq<string>, schemaIdentity: string, property: string, value: seq<(string, Json)>): Row
  {
    BlankRow(head)[ClassColumn := Str(ClassProperty)][NameColumn := Str(property)]
                  [IdentityColumn := Str(schemaIdentity + "/" + property)]
                  [AttrPropertyDatatype := Get(value, "type", Null)]
                  [AttrPropertyDataFormat := Get(value, "format", Null)]
                  [AttrPropertyExample := Get(value, "example", Null)]
  }

  /** The inner loop of `convert_objects_schema`: one row per property. */
  function PropertyRows(head: seq<string>, schema: string, props: seq<(string, Json)>): Result<seq<Row>, Failure>
    decreases |props|
  {
    if props == [] then Ok([])
    else
      match props[0].1
      case Obj(value) => Prepend([PropertyRow(head, SchemaIdentity(schema), props[0].0, value)],
                                 PropertyRows(head, schema, props[1..]))
      case _ => Err(PropertyNotObject(schema, props[0].0))
  }

  /** The outer loop of `convert_objects_schema`: each schema row, then its property rows. */
  function SchemaRows(head: seq<string>, schemas: seq<(string, Json)>): Result<seq<Row>, Failure>
    decreases |schemas|
  {
    if schemas == [] then Ok([])
    else
      var (name, value) := schemas[0];
      match PropertiesOf(name, value)
      case Err(e) => Err(e)
      case Ok(props) =>
        match PropertyRows(head, name, props)
        case Err(e) => Err(e)
        case Ok(propRows) => Prepend([SchemaRow(head, name)] + propRows, SchemaRows(head, schemas[1..]))
  }

  /** What `convert_objects` writes: Endpoint, Info, externalDocs, then the schema rows. */
  function ObjectRows(head: seq<string>, doc: Json): Result<seq<Row>, Failure>
  {
    match InfoRow(head, doc)
    case Err(e) => Err(e)
    case Ok(info) =>
      match SchemasOf(doc)
      case Err(e) => Err(e)
      case Ok(schemas) => Prepend([EndpointRow(head), info, ExternalDocsRow(head, doc)], SchemaRows(head, schemas))
  }

  // ---------------------------------------------------------------------
  // Link rows

  const RootLink: Link := Link(AssocResourceParentChild, "", EndpointName)
  const EndpointInfoLink: Link := Link(AssocEndpointInfo, EndpointName, InfoIdentity)

  function EndpointSchemaLink(schema: string): Link
  {
    Link(AssocEndpointSchema, EndpointName, SchemaIdentity(schema))
  }

  /** The inner loop of `convert_links_endpointschemaproperty`. */
  function PropertyLinks(schemaIdentity: string, props: seq<(string, Json)>): seq<Link>
    decreases |props|
  {
    if props == [] then []
    else [Link(AssocSchemaProperty, schemaIdentity, schemaIdentity + "/" + props[0].0)]
         + PropertyLinks(schemaIdentity, props[1..])
  }

  /** The outer loop of `convert_links_endpointschemaproperty`. */
  function SchemaLinks(schemas: seq<(string, Json)>): Result<seq<Link>, Failure>
    decreases |schemas|
  {
    if schemas == [] then Ok([])
    else
      var (name, value) := schemas[0];
      match PropertiesOf(name, value)
      case Err(e) => Err(e)
      case Ok(props) =>
        var schemaLink := EndpointSchemaLink(name);
        Prepend([schemaLink] + PropertyLinks(schemaLink.toIdentity, props), SchemaLinks(schemas[1..]))
  }

  /** What `convert_links` writes: the root link, Endpoint to Info, then the schema links. */
  function LinkRows(doc: Json): Result<seq<Link>, Failure>
  {
    match SchemasOf(doc)
    case Err(e) => Err(e)
    case Ok(schemas) => Prepend([RootLink, EndpointInfoLink], SchemaLinks(schemas))
  }

  // ---------------------------------------------------------------------
  // The parser object

  class OpenAPIParser {
    const spec: Json
    const objectsHead: seq<string>

    constructor (spec: Json)
      ensures this.spec == spec
      ensures objectsHead == HeaderColumns
    {
      this.spec := spec;
      var head := BuildObjectsHead(Fields);
      HeaderFromModel();
      objectsHead := head;
    }

    /**
     * `convert_objects(False)`: fails when objects.csv is already in the
     * output directory, otherwise emits the object rows one at a time.
     */
    method ConvertObjects(objectsCsvExists: bool) returns (r: Result<seq<Row>, Failure>)
      ensures r == if objectsCsvExists then Err(TableExists) else ObjectRows(objectsHead, spec)
    {
      if objectsCsvExists {
        return Err(TableExists);
      }
      var info := InfoRow(objectsHead, spec);
      if info.Err? {
        return Err(info.error);
      }
      var fixedRows := [EndpointRow(objectsHead), info.value, ExternalDocsRow(objectsHead, spec)];
      var schemasOr := SchemasOf(spec);
      if schemasOr.Err? {
        return Err(schemasOr.error);
      }
      var rowsOr := RowsOfSchemas(schemasOr.value);
      if rowsOr.Err? {
        return Err(rowsOr.error);
      }
      r := Ok(fixedRows + rowsOr.value);
    }

    /** The outer loop of `convert_objects_schema`, over the schemas in document order. */
    method RowsOfSchemas(schemas: seq<(string, Json)>) returns (r: Result<seq<Row>, Failure>)
      ensures r == SchemaRows(objectsHead, schemas)
    {
      var rows: seq<Row> := [];
      var i := 0;
      assert schemas[i..] == schemas;
      PrependNothing(SchemaRows(objectsHead, schemas));
      while i < |schemas|
        invariant 0 <= i <= |schemas|
        invariant Prepend(rows, SchemaRows(objectsHead, schemas[i..])) == SchemaRows(objectsHead, schemas)
      {
        var name := schemas[i].0;
        assert schemas[i..][0] == schemas[i] && schemas[i..][1..] == schemas[i + 1..];
        var propsOr := PropertiesOf(name, schemas[i].1);
        if propsOr.Err? {
          return Err(propsOr.error);
        }
        var blockOr := RowsOfSchema(name, propsOr.value);
        if blockOr.Err? {
          return Err(blockOr.error);
        }
        var block := blockOr.value;
        PrependTwice(rows, block, SchemaRows(objectsHead, schemas[i + 1..]));
        rows := rows + block;
        i := i + 1;
      }
      assert schemas[i..] == [];
      assert SchemaRows(objectsHead, schemas) == Ok(rows + []);
      assert rows + [] == rows;
      r := Ok(rows);
    }

    /** One pass of the outer loop of `convert_objects_schema`: the schema row, then its property rows. */
    method RowsOfSchema(name: string, props: seq<(string, Json)>) returns (r: Result<seq<Row>, Failure>)
      ensures r == Prepend([SchemaRow(objectsHead, name)], PropertyRows(objectsHead, name, props))
    {
      var block := [SchemaRow(objectsHead, name)];
      var j := 0;
      assert props[j..] == props;
      while j < |props|
        invariant 0 <= j <= |props|
        invariant Prepend(block, PropertyRows(objectsHead, name, props[j..]))
               == Prepend([SchemaRow(objectsHead, name)], PropertyRows(objectsHead, name, props))
      {
        var (property, propertyValue) := props[j];
        assert props[j..][0] == props[j] && props[j..][1..] == props[j + 1..];
        if !propertyValue.Obj? {
          return Err(PropertyNotObject(name, property));
        }
        var row := PropertyRow(objectsHead, SchemaIdentity(name), property, propertyValue.members);
        PrependTwice(block, [row], PropertyRows(objectsHead, name, props[j + 1..]));
        block := block + [row];
        j := j + 1;
      }
      assert props[j..] == [];
      assert block + [] == block;
      r := Ok(block);
    }

    /**
     * `convert_links(False)`: fails when links.csv is already in the output
     * directory, otherwise emits the link rows one at a time.
     */
    method ConvertLinks(linksCsvExists: bool) returns (r: Result<seq<Link>, Failure>)
      ensures r == if linksCsvExists then Err(TableExists) else LinkRows(spec)
    {
      if linksCsvExists {
        return Err(TableExists);
      }
      var fixedLinks := [RootLink, EndpointInfoLink];
      var schemasOr := SchemasOf(spec);
      if schemasOr.Err? {
        return Err(schemasOr.error);
      }
      var schemas := schemasOr.value;
      var links: seq<Link> := [];
      var i := 0;
      assert schemas[i..] == schemas;
      PrependNothing(SchemaLinks(schemas));
      while i < |schemas|
        invariant 0 <= i <= |schemas|
        invariant Prepend(links, SchemaLinks(schemas[i..])) == SchemaLinks(schemas)
      {
        var name := schemas[i].0;
        assert schemas[i..][0] == schemas[i] && schemas[i..][1..] == schemas[i + 1..];
        var propsOr := PropertiesOf(name, schemas[i].1);
        if propsOr.Err? {
          return Err(propsOr.error);
        }
        var block := LinksOfSchema(name, propsOr.value);
        PrependTwice(links, block, SchemaLinks(schemas[i + 1..]));
        links := links + block;
        i := i + 1;
      }
      assert schemas[i..] == [];
      assert SchemaLinks(schemas) == Ok(links + []);
      assert links + [] == links;
      r := Ok(fixedLinks + links);
    }

    /** One pass of the outer loop of `convert_links_endpointschemaproperty`. */
    method LinksOfSchema(name: string, props: seq<(string, Json)>) returns (block: seq<Link>)
      ensures block == [EndpointSchemaLink(name)] + PropertyLinks(SchemaIdentity(name), props)
    {
      var endpointSchema := EndpointSchemaLink(name);
      block := [endpointSchema];
      var j := 0;
      while j < |props|
        invariant 0 <= j <= |props|
        invariant block + PropertyLinks(endpointSchema.toIdentity, props[j..])
               == [endpointSchema] + PropertyLinks(endpointSchema.toIdentity, props)
      {
        assert props[j..][0] == props[j] && props[j..][1..] == props[j + 1..];
        var schemaProperty := Link(AssocSchemaProperty, endpointSchema.toIdentity,
                                   endpointSchema.toIdentity + "/" + props[j].0);
        block := block + [schemaProperty];
        j := j + 1;
      }
      assert props[j..] == [];
    }
  }
}
