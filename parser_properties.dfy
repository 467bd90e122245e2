/**
 * What the row builder of parser/openapi.py guarantees about the rows it
 * emits for one document: their order, counts, contents and failure cases,
 * that every link points at an emitted object, and (for schema names without
 * `/`) that no two objects share an identity.
 *
 * The reference is the traversal: every schema of `components.schemas` in
 * document order, each followed by its properties in document order.
 */
module ParserProperties {
  import opened Results
  import opened Text
  import opened Documents
  import opened Model
  import opened Parser

  /** One schema-tree object, as the traversal visits it. */
  datatype Node =
    | SchemaNode(schema: string)
    | PropertyNode(schema: string, property: string, value: Json)

  function NodeIdentity(n: Node): string
  {
    match n
    case SchemaNode(s) => SchemaIdentity(s)
    case PropertyNode(s, p, _) => PropertyIdentity(s, p)
  }

  function PropertyNodes(schema: string, props: seq<(string, Json)>): (nodes: seq<Node>)
    ensures |nodes| == |props|
    ensures forall k :: 0 <= k < |props| ==> nodes[k] == PropertyNode(schema, props[k].0, props[k].1)
    decreases |props|
  {
    if props == [] then []
    else [PropertyNode(schema, props[0].0, props[0].1)] + PropertyNodes(schema, props[1..])
  }

  /** Every schema followed by its properties; fails where `schemavalue['properties'].items()` fails. */
  function SchemaNodes(schemas: seq<(string, Json)>): Result<seq<Node>, Failure>
    decreases |schemas|
  {
    if schemas == [] then Ok([])
    else
      match PropertiesOf(schemas[0].0, schemas[0].1)
      case Err(e) => Err(e)
      case Ok(props) =>
        Prepend([SchemaNode(schemas[0].0)] + PropertyNodes(schemas[0].0, props), SchemaNodes(schemas[1..]))
  }

  function Traversal(doc: Json): Result<seq<Node>, Failure>
  {
    match SchemasOf(doc)
    case Err(e) => Err(e)
    case Ok(schemas) => SchemaNodes(schemas)
  }

  /** The number of properties over all schemas (schemas without a property map count none). */
  function PropertyTotal(schemas: seq<(string, Json)>): nat
    decreases |schemas|
  {
    if schemas == [] then 0
    else
      (match PropertiesOf(schemas[0].0, schemas[0].1) case Ok(props) => |props| case Err(_) => 0)
      + PropertyTotal(schemas[1..])
  }

  predicate PropertiesAreObjects(nodes: seq<Node>)
  {
    forall i :: 0 <= i < |nodes| && nodes[i].PropertyNode? ==> nodes[i].value.Obj?
  }

  /** The columns a row builder sets for a node. */
  function NodeColumns(n: Node): set<string>
  {
    match n
    case SchemaNode(_) => {ClassColumn, NameColumn, IdentityColumn, DescriptionColumn}
    case PropertyNode(_, _, _) =>
      {ClassColumn, NameColumn, IdentityColumn, AttrPropertyDatatype, AttrPropertyDataFormat, AttrPropertyExample}
  }

  /**
   * The object row the builder emits for a node: the columns the builder
   * sets hold the node's values, every other header column stays blank.
   */
  predicate RowFollows(head: seq<string>, row: Row, n: Node)
  {
    && row.Keys == (set c | c in head) + NodeColumns(n)
    && IdentityColumn in row && row[IdentityColumn] == Str(NodeIdentity(n))
    && (forall c :: c in head && c !in NodeColumns(n) ==> row[c] == Str(""))
    && match n
       case SchemaNode(s) =>
         && row[ClassColumn] == Str(ClassSchema)
         && row[NameColumn] == Str(s)
         && row[DescriptionColumn] == Str(SchemaIdentity(s))
       case PropertyNode(s, p, v) =>
         && row[ClassColumn] == Str(ClassProperty)
         && row[NameColumn] == Str(p)
         && v.Obj?
         && row[AttrPropertyDatatype] == Get(v.members, "type", Null)
         && row[AttrPropertyDataFormat] == Get(v.members, "format", Null)
         && row[AttrPropertyExample] == Get(v.members, "example", Null)
  }

  predicate RowsFollow(head: seq<string>, rows: seq<Row>, nodes: seq<Node>)
  {
    |rows| == |nodes| && forall i :: 0 <= i < |rows| ==> RowFollows(head, rows[i], nodes[i])
  }

  /** The link row the builder emits for a node: from its parent, to the node. */
  predicate LinkFollows(l: Link, n: Node)
  {
    && l.toIdentity == NodeIdentity(n)
    && match n
       case SchemaNode(_) => l.association == AssocEndpointSchema && l.fromIdentity == EndpointName
       case PropertyNode(s, _, _) => l.association == AssocSchemaProperty && l.fromIdentity == SchemaIdentity(s)
  }

  predicate LinksFollow(links: seq<Link>, nodes: seq<Node>)
  {
    |links| == |nodes| && forall i :: 0 <= i < |links| ==> LinkFollows(links[i], nodes[i])
  }

  /**
   * Every property node comes after its schema's node, with only properties
   * of that schema in between: each schema is immediately followed by its
   * properties.
   */
  predicate ParentsFirst(nodes: seq<Node>)
  {
    forall i :: 0 <= i < |nodes| && nodes[i].PropertyNode? ==>
      exists j :: 0 <= j < i && nodes[j] == SchemaNode(nodes[i].schema)
        && forall m :: j < m <= i ==> nodes[m].PropertyNode? && nodes[m].schema == nodes[i].schema
  }

  // ---------------------------------------------------------------------
  // Concatenation helpers

  lemma RowsFollowConcat(head: seq<string>, r1: seq<Row>, n1: seq<Node>, r2: seq<Row>, n2: seq<Node>)
    requires RowsFollow(head, r1, n1) && RowsFollow(head, r2, n2)
    ensures RowsFollow(head, r1 + r2, n1 + n2)
  {
    forall i | 0 <= i < |r1 + r2| ensures RowFollows(head, (r1 + r2)[i], (n1 + n2)[i]) {
      if i < |r1| {
        assert (r1 + r2)[i] == r1[i] && (n1 + n2)[i] == n1[i];
      } else {
        assert (r1 + r2)[i] == r2[i - |r1|] && (n1 + n2)[i] == n2[i - |r1|];
      }
    }
  }

  lemma LinksFollowConcat(l1: seq<Link>, n1: seq<Node>, l2: seq<Link>, n2: seq<Node>)
    requires LinksFollow(l1, n1) && LinksFollow(l2, n2)
    ensures LinksFollow(l1 + l2, n1 + n2)
  {
    forall i | 0 <= i < |l1 + l2| ensures LinkFollows((l1 + l2)[i], (n1 + n2)[i]) {
      if i < |l1| {
        assert (l1 + l2)[i] == l1[i] && (n1 + n2)[i] == n1[i];
      } else {
        assert (l1 + l2)[i] == l2[i - |l1|] && (n1 + n2)[i] == n2[i - |l1|];
      }
    }
  }

  lemma PropertiesAreObjectsConcat(a: seq<Node>, b: seq<Node>)
    ensures PropertiesAreObjects(a + b) <==> PropertiesAreObjects(a) && PropertiesAreObjects(b)
  {
    if PropertiesAreObjects(a) && PropertiesAreObjects(b) {
      forall i | 0 <= i < |a + b| && (a + b)[i].PropertyNode? ensures (a + b)[i].value.Obj? {
        if i < |a| {
          assert (a + b)[i] == a[i];
        } else {
          assert (a + b)[i] == b[i - |a|];
        }
      }
    }
    if PropertiesAreObjects(a + b) {
      forall i | 0 <= i < |a| && a[i].PropertyNode? ensures a[i].value.Obj? {
        assert (a + b)[i] == a[i];
      }
      forall i | 0 <= i < |b| && b[i].PropertyNode? ensures b[i].value.Obj? {
        assert (a + b)[|a| + i] == b[i];
      }
    }
  }

  // ---------------------------------------------------------------------
  // The object rows follow the traversal

  /** A schema's row has the shape its node calls for. */
  lemma SchemaRowFollows(head: seq<string>, schema: string)
    ensures RowFollows(head, SchemaRow(head, schema), SchemaNode(schema))
  {
  }

  /** A property's row has the shape its node calls for. */
  lemma PropertyRowFollows(head: seq<string>, schema: string, property: string, value: seq<(string, Json)>)
    ensures RowFollows(head, PropertyRow(head, SchemaIdentity(schema), property, value),
                       PropertyNode(schema, property, Obj(value)))
  {
  }

  lemma {:induction false} PropertyRowsFollow(head: seq<string>, schema: string, props: seq<(string, Json)>)
    ensures PropertyRows(head, schema, props).Ok? <==> PropertiesAreObjects(PropertyNodes(schema, props))
    ensures PropertyRows(head, schema, props).Ok? ==>
              RowsFollow(head, PropertyRows(head, schema, props).value, PropertyNodes(schema, props))
    decreases |props|
  {
    if props != [] {
      PropertyRowsFollow(head, schema, props[1..]);
      var first := PropertyNode(schema, props[0].0, props[0].1);
      var rest := PropertyNodes(schema, props[1..]);
      assert PropertyNodes(schema, props) == [first] + rest;
      PropertiesAreObjectsConcat([first], rest);
      match props[0].1 {
        case Obj(value) =>
          var row := PropertyRow(head, SchemaIdentity(schema), props[0].0, value);
          PropertyRowFollows(head, schema, props[0].0, value);
          if PropertyRows(head, schema, props[1..]).Ok? {
            RowsFollowConcat(head, [row], [first], PropertyRows(head, schema, props[1..]).value, rest);
          }
        case _ =>
          assert !PropertiesAreObjects([first]);
      }
    }
  }

  lemma {:induction false} SchemaRowsFollow(head: seq<string>, schemas: seq<(string, Json)>)
    ensures SchemaRows(head, schemas).Ok? <==>
              SchemaNodes(schemas).Ok? && PropertiesAreObjects(SchemaNodes(schemas).value)
    ensures SchemaRows(head, schemas).Ok? ==>
              RowsFollow(head, SchemaRows(head, schemas).value, SchemaNodes(schemas).value)
    decreases |schemas|
  {
    if schemas != [] {
      var (name, value) := schemas[0];
      SchemaRowsFollow(head, schemas[1..]);
      match PropertiesOf(name, value) {
        case Err(e) =>
        case Ok(props) =>
          PropertyRowsFollow(head, name, props);
          var block := [SchemaNode(name)] + PropertyNodes(name, props);
          PropertiesAreObjectsConcat([SchemaNode(name)], PropertyNodes(name, props));
          if SchemaNodes(schemas[1..]).Ok? {
            PropertiesAreObjectsConcat(block, SchemaNodes(schemas[1..]).value);
          }
          if SchemaRows(head, schemas).Ok? {
            var propRows := PropertyRows(head, name, props).value;
            var schemaRow := SchemaRow(head, name);
            SchemaRowFollows(head, name);
            RowsFollowConcat(head, [schemaRow], [SchemaNode(name)], propRows, PropertyNodes(name, props));
            RowsFollowConcat(head, [schemaRow] + propRows, block,
                             SchemaRows(head, schemas[1..]).value, SchemaNodes(schemas[1..]).value);
          }
      }
    }
  }

  /**
   * `convert_objects` succeeds exactly when the Info description has a
   * length and is text or empty, `components.schemas` is an object, every
   * schema has a `properties` object and every property is an object. Its
   * rows are then Endpoint, Info, externalDocs, and one row per traversal
   * node, in traversal order.
   */
  lemma ObjectRowsFollowTraversal(head: seq<string>, doc: Json)
    ensures ObjectRows(head, doc).Ok? <==>
              && InfoRow(head, doc).Ok?
              && Traversal(doc).Ok?
              && PropertiesAreObjects(Traversal(doc).value)
    ensures ObjectRows(head, doc).Ok? ==>
              var rows := ObjectRows(head, doc).value;
              && |rows| == 3 + |Traversal(doc).value|
              && rows[0] == EndpointRow(head)
              && rows[1] == InfoRow(head, doc).value
              && rows[2] == ExternalDocsRow(head, doc)
              && RowsFollow(head, rows[3..], Traversal(doc).value)
  {
    ObjectRowsSucceed(head, doc);
    if ObjectRows(head, doc).Ok? {
      ObjectRowsShape(head, doc);
    }
  }

  lemma ObjectRowsSucceed(head: seq<string>, doc: Json)
    ensures ObjectRows(head, doc).Ok? <==>
              && InfoRow(head, doc).Ok?
              && Traversal(doc).Ok?
              && PropertiesAreObjects(Traversal(doc).value)
  {
    if InfoRow(head, doc).Ok? && SchemasOf(doc).Ok? {
      SchemaRowsFollow(head, SchemasOf(doc).value);
    }
  }

  lemma ObjectRowsShape(head: seq<string>, doc: Json)
    requires ObjectRows(head, doc).Ok?
    ensures Traversal(doc).Ok?
    ensures var rows := ObjectRows(head, doc).value;
              && |rows| == 3 + |Traversal(doc).value|
              && rows[0] == EndpointRow(head)
              && rows[1] == InfoRow(head, doc).value
              && rows[2] == ExternalDocsRow(head, doc)
              && RowsFollow(head, rows[3..], Traversal(doc).value)
  {
    var schemas := SchemasOf(doc).value;
    SchemaRowsFollow(head, schemas);
    var rows := ObjectRows(head, doc).value;
    assert rows[3..] == SchemaRows(head, schemas).value;
  }

  // ---------------------------------------------------------------------
  // The link rows follow the traversal

  lemma {:induction false} PropertyLinksFollow(schema: string, props: seq<(string, Json)>)
    ensures LinksFollow(PropertyLinks(SchemaIdentity(schema), props), PropertyNodes(schema, props))
    decreases |props|
  {
    if props != [] {
      PropertyLinksFollow(schema, props[1..]);
      var link := Link(AssocSchemaProperty, SchemaIdentity(schema), SchemaIdentity(schema) + "/" + props[0].0);
      assert LinkFollows(link, PropertyNode(schema, props[0].0, props[0].1));
      LinksFollowConcat([link], [PropertyNode(schema, props[0].0, props[0].1)],
                        PropertyLinks(SchemaIdentity(schema), props[1..]), PropertyNodes(schema, props[1..]));
    }
  }

  lemma {:induction false} SchemaLinksFollow(schemas: seq<(string, Json)>)
    ensures SchemaLinks(schemas).Ok? <==> SchemaNodes(schemas).Ok?
    ensures SchemaLinks(schemas).Ok? ==> LinksFollow(SchemaLinks(schemas).value, SchemaNodes(schemas).value)
    decreases |schemas|
  {
    if schemas != [] {
      var (name, value) := schemas[0];
      SchemaLinksFollow(schemas[1..]);
      match PropertiesOf(name, value) {
        case Err(e) =>
        case Ok(props) =>
          PropertyLinksFollow(name, props);
          if SchemaLinks(schemas).Ok? {
            var block := [EndpointSchemaLink(name)] + PropertyLinks(SchemaIdentity(name), props);
            LinksFollowConcat([EndpointSchemaLink(name)], [SchemaNode(name)],
                              PropertyLinks(SchemaIdentity(name), props), PropertyNodes(name, props));
            LinksFollowConcat(block, [SchemaNode(name)] + PropertyNodes(name, props),
                              SchemaLinks(schemas[1..]).value, SchemaNodes(schemas[1..]).value);
          }
      }
    }
  }

  /**
   * `convert_links` succeeds exactly when the traversal does; its rows are
   * the root link, Endpoint to Info, and one link per traversal node.
   */
  lemma LinkRowsFollowTraversal(doc: Json)
    ensures LinkRows(doc).Ok? <==> Traversal(doc).Ok?
    ensures LinkRows(doc).Ok? ==>
              var links := LinkRows(doc).value;
              && |links| == 2 + |Traversal(doc).value|
              && links[0] == RootLink
              && links[1] == EndpointInfoLink
              && LinksFollow(links[2..], Traversal(doc).value)
  {
    if SchemasOf(doc).Ok? {
      SchemaLinksFollow(SchemasOf(doc).value);
      if LinkRows(doc).Ok? {
        assert LinkRows(doc).value[2..] == SchemaLinks(SchemasOf(doc).value).value;
      }
    }
  }

  /** A document whose objects convert always has its links convert too. */
  lemma ObjectsConvertThenLinksConvert(head: seq<string>, doc: Json)
    requires ObjectRows(head, doc).Ok?
    ensures LinkRows(doc).Ok?
  {
    ObjectRowsFollowTraversal(head, doc);
    LinkRowsFollowTraversal(doc);
  }

  // ---------------------------------------------------------------------
  // Counts

  lemma {:induction false} TraversalSize(schemas: seq<(string, Json)>)
    requires SchemaNodes(schemas).Ok?
    ensures |SchemaNodes(schemas).value| == |schemas| + PropertyTotal(schemas)
    decreases |schemas|
  {
    if schemas != [] {
      TraversalSize(schemas[1..]);
    }
  }

  /**
   * objects.csv has 3 + #schemas + #properties rows and links.csv has
   * 2 + #schemas + #properties rows.
   */
  lemma RowCounts(head: seq<string>, doc: Json)
    requires ObjectRows(head, doc).Ok?
    ensures SchemasOf(doc).Ok? && LinkRows(doc).Ok?
    ensures |ObjectRows(head, doc).value| == 3 + |SchemasOf(doc).value| + PropertyTotal(SchemasOf(doc).value)
    ensures |LinkRows(doc).value| == 2 + |SchemasOf(doc).value| + PropertyTotal(SchemasOf(doc).value)
  {
    ObjectRowsFollowTraversal(head, doc);
    LinkRowsFollowTraversal(doc);
    TraversalSize(SchemasOf(doc).value);
  }

  // ---------------------------------------------------------------------
  // Order

  /** A schema node followed by properties of that schema. */
  predicate SchemaBlock(name: string, block: seq<Node>)
  {
    && |block| > 0 && block[0] == SchemaNode(name)
    && forall m :: 0 < m < |block| ==> block[m].PropertyNode? && block[m].schema == name
  }

  /** A schema block in front of nodes whose parents come first keeps that order. */
  lemma BlockParentsFirst(name: string, block: seq<Node>, rest: seq<Node>)
    requires SchemaBlock(name, block) && ParentsFirst(rest)
    ensures ParentsFirst(block + rest)
  {
    var nodes := block + rest;
    forall i | 0 <= i < |nodes| && nodes[i].PropertyNode?
      ensures exists j :: 0 <= j < i && nodes[j] == SchemaNode(nodes[i].schema)
                && forall m :: j < m <= i ==> nodes[m].PropertyNode? && nodes[m].schema == nodes[i].schema
    {
      if i < |block| {
        assert nodes[0] == SchemaNode(name);
        forall m | 0 < m <= i ensures nodes[m].PropertyNode? && nodes[m].schema == nodes[i].schema {
          assert nodes[m] == block[m];
        }
      } else {
        var k := i - |block|;
        assert nodes[i] == rest[k];
        var j :| 0 <= j < k && rest[j] == SchemaNode(rest[k].schema)
                 && forall m :: j < m <= k ==> rest[m].PropertyNode? && rest[m].schema == rest[k].schema;
        assert nodes[|block| + j] == rest[j];
        forall m | |block| + j < m <= i ensures nodes[m].PropertyNode? && nodes[m].schema == nodes[i].schema {
          assert nodes[m] == rest[m - |block|];
        }
      }
    }
  }

  lemma {:induction false} SchemaNodesParentsFirst(schemas: seq<(string, Json)>)
    requires SchemaNodes(schemas).Ok?
    ensures ParentsFirst(SchemaNodes(schemas).value)
    decreases |schemas|
  {
    if schemas != [] {
      var name := schemas[0].0;
      var props := PropertiesOf(name, schemas[0].1).value;
      var block := [SchemaNode(name)] + PropertyNodes(name, props);
      SchemaNodesParentsFirst(schemas[1..]);
      BlockOf(name, props);
      BlockParentsFirst(name, block, SchemaNodes(schemas[1..]).value);
    }
  }

  // ---------------------------------------------------------------------
  // Links refer to objects

  /**
   * Object rows and link rows side by side with the traversal nodes they
   * come from: row 3 + i and link 2 + i both come from node i.
   */
  predicate Aligned(head: seq<string>, rows: seq<Row>, links: seq<Link>, nodes: seq<Node>)
  {
    && |rows| == 3 + |nodes| && |links| == 2 + |nodes|
    && rows[0] == EndpointRow(head)
    && IdentityColumn in rows[1] && rows[1][IdentityColumn] == Str(InfoIdentity)
    && IdentityColumn in rows[2] && rows[2][IdentityColumn] == Str(ExternalDocsIdentity)
    && links[0] == RootLink && links[1] == EndpointInfoLink
    && ParentsFirst(nodes)
    && forall i :: 0 <= i < |nodes| ==> RowFollows(head, rows[3 + i], nodes[i]) && LinkFollows(links[2 + i], nodes[i])
  }

  /** The Info row carries its fixed identity: every column set after it is another column. */
  lemma InfoRowIdentity(head: seq<string>, desc: Json, email: Json, title: Json, terms: Json, license: Json, version: Json)
    ensures var row := InfoRowOf(head, desc, email, title, terms, license, version);
      IdentityColumn in row && row[IdentityColumn] == Str(InfoIdentity)
  {
    // every attribute column starts with "com.", the identity column with 'i'
    assert PackageName[0] == 'c' && IdentityColumn[0] == 'i';
    assert AttrInfoContactEmail[0] == AttrInfoTitle[0] == AttrInfoDescription[0] == 'c';
    assert AttrInfoTermsOfService[0] == AttrInfoLicenseName[0] == AttrInfoVersion[0] == 'c';
    assert NameColumn[0] == DescriptionColumn[0] == 'c';
  }

  lemma FixedRowIdentities(head: seq<string>, doc: Json)
    ensures InfoRow(head, doc).Ok? ==>
              IdentityColumn in InfoRow(head, doc).value && InfoRow(head, doc).value[IdentityColumn] == Str(InfoIdentity)
    ensures IdentityColumn in ExternalDocsRow(head, doc) && ExternalDocsRow(head, doc)[IdentityColumn] == Str(ExternalDocsIdentity)
  {
    var d := SafeGet(doc, "info.description", Null);
    if InfoDescription(d).Ok? {
      InfoRowIdentity(head, InfoDescription(d).value, SafeGet(doc, "info.contact.email", Null), SafeGet(doc, "info.title", Null),
                      SafeGet(doc, "info.termsOfService", Null), SafeGet(doc, "info.license.name", Null),
                      SafeGet(doc, "info.version", Null));
    }
    assert DescriptionColumn[0] == AttrExternalDocsUrl[0] == 'c' && IdentityColumn[0] == 'i';
  }

  lemma Alignment(head: seq<string>, doc: Json)
    requires ObjectRows(head, doc).Ok?
    ensures LinkRows(doc).Ok? && Traversal(doc).Ok?
    ensures Aligned(head, ObjectRows(head, doc).value, LinkRows(doc).value, Traversal(doc).value)
  {
    ObjectRowsFollowTraversal(head, doc);
    LinkRowsFollowTraversal(doc);
    SchemaNodesParentsFirst(SchemasOf(doc).value);
    FixedRowIdentities(head, doc);
    AlignedFromParts(head, ObjectRows(head, doc).value, LinkRows(doc).value, Traversal(doc).value);
  }

  /** The fixed rows and links, then rows and links that follow the nodes, line up. */
  lemma AlignedFromParts(head: seq<string>, rows: seq<Row>, links: seq<Link>, nodes: seq<Node>)
    requires |rows| == 3 + |nodes| && |links| == 2 + |nodes|
    requires rows[0] == EndpointRow(head)
    requires IdentityColumn in rows[1] && rows[1][IdentityColumn] == Str(InfoIdentity)
    requires IdentityColumn in rows[2] && rows[2][IdentityColumn] == Str(ExternalDocsIdentity)
    requires links[0] == RootLink && links[1] == EndpointInfoLink
    requires ParentsFirst(nodes)
    requires RowsFollow(head, rows[3..], nodes) && LinksFollow(links[2..], nodes)
    ensures Aligned(head, rows, links, nodes)
  {
    forall i | 0 <= i < |nodes| ensures RowFollows(head, rows[3 + i], nodes[i]) && LinkFollows(links[2 + i], nodes[i]) {
      assert rows[3..][i] == rows[3 + i];
      assert links[2..][i] == links[2 + i];
    }
  }

  /** The object row a link points at: the first two links at the first two rows, the rest one row further on. */
  function TargetRow(k: nat): nat
  {
    if k < 2 then k else k + 1
  }

  predicate PointsAtRow(links: seq<Link>, rows: seq<Row>, k: nat)
    requires k < |links| && TargetRow(k) < |rows|
  {
    IdentityColumn in rows[TargetRow(k)] && rows[TargetRow(k)][IdentityColumn] == Str(links[k].toIdentity)
  }

  predicate StartsAtEarlierRow(links: seq<Link>, rows: seq<Row>, k: nat)
    requires k < |links| && TargetRow(k) <= |rows|
  {
    exists j :: 0 <= j < TargetRow(k) && IdentityColumn in rows[j] && rows[j][IdentityColumn] == Str(links[k].fromIdentity)
  }

  lemma AlignedTargets(head: seq<string>, rows: seq<Row>, links: seq<Link>, nodes: seq<Node>)
    requires Aligned(head, rows, links, nodes)
    ensures forall k :: 0 <= k < |links| ==> PointsAtRow(links, rows, k)
  {
    forall k | 0 <= k < |links| ensures PointsAtRow(links, rows, k) {
      if k >= 2 {
        assert RowFollows(head, rows[3 + (k - 2)], nodes[k - 2]) && LinkFollows(links[2 + (k - 2)], nodes[k - 2]);
      }
    }
  }

  lemma AlignedSources(head: seq<string>, rows: seq<Row>, links: seq<Link>, nodes: seq<Node>)
    requires Aligned(head, rows, links, nodes)
    ensures forall k :: 1 <= k < |links| ==> StartsAtEarlierRow(links, rows, k)
  {
    EndpointRowIdentity(head);
    forall k | 1 <= k < |links| ensures StartsAtEarlierRow(links, rows, k) {
      if k >= 2 && nodes[k - 2].PropertyNode? {
        AlignedPropertySource(head, rows, links, nodes, k);
      } else {
        assert k >= 2 ==> LinkFollows(links[2 + (k - 2)], nodes[k - 2]);
        assert rows[0][IdentityColumn] == Str(links[k].fromIdentity);
      }
    }
  }

  /** Where parents come first, a property node has its schema's node before it. */
  lemma ParentBefore(nodes: seq<Node>, i: nat) returns (j: nat)
    requires ParentsFirst(nodes) && i < |nodes| && nodes[i].PropertyNode?
    ensures j < i && nodes[j] == SchemaNode(nodes[i].schema)
  {
    j :| 0 <= j < i && nodes[j] == SchemaNode(nodes[i].schema)
         && forall m :: j < m <= i ==> nodes[m].PropertyNode? && nodes[m].schema == nodes[i].schema;
  }

  /** A property's link starts at its schema's row, which comes before the property's row. */
  lemma AlignedPropertySource(head: seq<string>, rows: seq<Row>, links: seq<Link>, nodes: seq<Node>, k: nat)
    requires Aligned(head, rows, links, nodes)
    requires 2 <= k < |links| && nodes[k - 2].PropertyNode?
    ensures StartsAtEarlierRow(links, rows, k)
  {
    var n := nodes[k - 2];
    assert LinkFollows(links[2 + (k - 2)], n);
    var j := ParentBefore(nodes, k - 2);
    assert RowFollows(head, rows[3 + j], nodes[j]);
    assert rows[3 + j][IdentityColumn] == Str(links[k].fromIdentity);
  }

  lemma NodeIdentityPrefix(n: Node)
    ensures StartsWith(NodeIdentity(n), "Endpoint/Schemas/")
  {
    var prefix := "Endpoint/Schemas/";
    match n {
      case SchemaNode(s) =>
        assert NodeIdentity(n) == prefix + s;
      case PropertyNode(s, p, _) =>
        assert NodeIdentity(n) == prefix + (s + "/" + p);
    }
  }

  /** Identity of a schema-tree object differs from the three fixed identities (at index 9 or in length). */
  lemma NodeIdentityNotFixed(n: Node)
    ensures NodeIdentity(n) != EndpointName
    ensures NodeIdentity(n) != InfoIdentity
    ensures NodeIdentity(n) != ExternalDocsIdentity
  {
    NodeIdentityPrefix(n);
    assert NodeIdentity(n)[9] == 'S';
    assert ExternalDocsIdentity[9] == 'e';
  }

  lemma AlignedSkipsExternalDocs(head: seq<string>, rows: seq<Row>, links: seq<Link>, nodes: seq<Node>)
    requires Aligned(head, rows, links, nodes)
    ensures forall k :: 0 <= k < |links| ==> links[k].toIdentity != ExternalDocsIdentity
  {
    forall k | 0 <= k < |links| ensures links[k].toIdentity != ExternalDocsIdentity {
      if k >= 2 {
        assert LinkFollows(links[2 + (k - 2)], nodes[k - 2]);
        NodeIdentityNotFixed(nodes[k - 2]);
      }
    }
  }

  /**
   * When both tables convert, link k points at the identity of object row
   * TargetRow(k), every link but the root one starts at the identity of an
   * earlier object row, the root link starts at the empty identity, and no
   * link points at externalDocs.
   */
  lemma LinksReferToObjects(head: seq<string>, doc: Json)
    requires ObjectRows(head, doc).Ok?
    ensures LinkRows(doc).Ok?
    ensures var rows, links := ObjectRows(head, doc).value, LinkRows(doc).value;
      && |rows| == |links| + 1
      && links[0].fromIdentity == ""
      && (forall k :: 0 <= k < |links| ==> PointsAtRow(links, rows, k))
      && (forall k :: 1 <= k < |links| ==> StartsAtEarlierRow(links, rows, k))
      && (forall k :: 0 <= k < |links| ==> links[k].toIdentity != ExternalDocsIdentity)
  {
    Alignment(head, doc);
    var rows, links, nodes := ObjectRows(head, doc).value, LinkRows(doc).value, Traversal(doc).value;
    AlignedTargets(head, rows, links, nodes);
    AlignedSources(head, rows, links, nodes);
    AlignedSkipsExternalDocs(head, rows, links, nodes);
  }

  // ---------------------------------------------------------------------
  // Identities are unique

  /**
   * Schema names are distinct and free of `/` (an OpenAPI document restricts
   * component names to letters, digits, `.`, `-` and `_`), and each schema's
   * property names are distinct.
   */
  predicate WellNamed(schemas: seq<(string, Json)>)
  {
    && DistinctKeys(schemas)
    && (forall i :: 0 <= i < |schemas| ==> '/' !in schemas[i].0)
    && (forall i :: 0 <= i < |schemas| && PropertiesOf(schemas[i].0, schemas[i].1).Ok? ==>
          DistinctKeys(PropertiesOf(schemas[i].0, schemas[i].1).value))
  }

  /** What an identity adds after the schema name: nothing for a schema, `/` and the name for a property. */
  function NodeTail(n: Node): string
  {
    match n
    case SchemaNode(_) => ""
    case PropertyNode(_, p, _) => "/" + p
  }

  lemma NodeIdentitySplit(n: Node)
    ensures NodeIdentity(n) == "Endpoint/Schemas/" + (n.schema + NodeTail(n))
  {
  }

  /** The text before the first `/`. */
  function UpToSlash(x: string): string
    decreases |x|
  {
    if x == [] || x[0] == '/' then [] else [x[0]] + UpToSlash(x[1..])
  }

  lemma {:induction false} UpToSlashOf(s: string, t: string)
    requires '/' !in s
    requires t == [] || t[0] == '/'
    ensures UpToSlash(s + t) == s
    decreases |s|
  {
    if s == [] {
      assert s + t == t;
    } else {
      assert (s + t)[0] == s[0];
      assert (s + t)[1..] == s[1..] + t;
      UpToSlashOf(s[1..], t);
    }
  }

  /** A `/`-free name followed by nothing or by `/...` can be read back unambiguously. */
  lemma SlashFreeSplit(s1: string, t1: string, s2: string, t2: string)
    requires '/' !in s1 && '/' !in s2
    requires t1 == [] || t1[0] == '/'
    requires t2 == [] || t2[0] == '/'
    requires s1 + t1 == s2 + t2
    ensures s1 == s2 && t1 == t2
  {
    var x := s1 + t1;
    UpToSlashOf(s1, t1);
    UpToSlashOf(s2, t2);
    assert t1 == x[|s1|..] == t2;
  }

  /** Two nodes of `/`-free schemas with one identity are the same schema, or the same property. */
  lemma SameIdentity(a: Node, b: Node)
    requires '/' !in a.schema && '/' !in b.schema
    requires NodeIdentity(a) == NodeIdentity(b)
    ensures a.schema == b.schema && a.SchemaNode? == b.SchemaNode?
    ensures a.PropertyNode? ==> a.property == b.property
  {
    var prefix := "Endpoint/Schemas/";
    NodeIdentitySplit(a);
    NodeIdentitySplit(b);
    assert a.schema + NodeTail(a) == NodeIdentity(a)[|prefix|..] == b.schema + NodeTail(b);
    SlashFreeSplit(a.schema, NodeTail(a), b.schema, NodeTail(b));
    if a.PropertyNode? && b.PropertyNode? {
      assert a.property == NodeTail(a)[1..] == NodeTail(b)[1..] == b.property;
    }
  }

  /** Every node belongs to one of the schemas. */
  lemma {:induction false} NodesOfSchemas(schemas: seq<(string, Json)>)
    requires SchemaNodes(schemas).Ok?
    ensures forall i :: 0 <= i < |SchemaNodes(schemas).value| ==>
              exists k :: 0 <= k < |schemas| && schemas[k].0 == SchemaNodes(schemas).value[i].schema
    decreases |schemas|
  {
    if schemas != [] {
      var name := schemas[0].0;
      var props := PropertiesOf(name, schemas[0].1).value;
      var block := [SchemaNode(name)] + PropertyNodes(name, props);
      var rest := SchemaNodes(schemas[1..]).value;
      NodesOfSchemas(schemas[1..]);
      var nodes := SchemaNodes(schemas).value;
      assert nodes == block + rest;
      forall i | 0 <= i < |nodes| ensures exists k :: 0 <= k < |schemas| && schemas[k].0 == nodes[i].schema {
        if i < |block| {
          assert nodes[i] == block[i];
          assert schemas[0].0 == nodes[i].schema;
        } else {
          assert nodes[i] == rest[i - |block|];
          var k :| 0 <= k < |schemas[1..]| && schemas[1..][k].0 == rest[i - |block|].schema;
          assert schemas[k + 1].0 == nodes[i].schema;
        }
      }
    }
  }

  predicate IdentitiesDistinct(nodes: seq<Node>)
  {
    forall i, j :: 0 <= i < j < |nodes| ==> NodeIdentity(nodes[i]) != NodeIdentity(nodes[j])
  }

  lemma {:induction false} SchemaNodesDistinct(schemas: seq<(string, Json)>)
    requires WellNamed(schemas)
    requires SchemaNodes(schemas).Ok?
    ensures IdentitiesDistinct(SchemaNodes(schemas).value)
    decreases |schemas|
  {
    if schemas != [] {
      var name := schemas[0].0;
      var props := PropertiesOf(name, schemas[0].1).value;
      var block := [SchemaNode(name)] + PropertyNodes(name, props);
      var tail := schemas[1..];
      var rest := SchemaNodes(tail).value;
      WellNamedTail(schemas);
      SchemaNodesDistinct(tail);
      NodesOfSchemas(tail);
      forall i | 0 <= i < |rest| ensures rest[i].schema != name && '/' !in rest[i].schema {
        var k :| 0 <= k < |tail| && tail[k].0 == rest[i].schema;
        assert tail[k] == schemas[k + 1];
      }
      BlockOf(name, props);
      BlockIdentitiesDistinct(name, props);
      ConcatIdentitiesDistinct(name, block, rest);
      assert SchemaNodes(schemas).value == block + rest;
    }
  }

  lemma WellNamedTail(schemas: seq<(string, Json)>)
    requires WellNamed(schemas) && schemas != []
    ensures WellNamed(schemas[1..])
  {
    var tail := schemas[1..];
    forall i, j | 0 <= i < j < |tail| ensures tail[i].0 != tail[j].0 {
      assert tail[i] == schemas[i + 1] && tail[j] == schemas[j + 1];
    }
    forall i | 0 <= i < |tail| ensures '/' !in tail[i].0 {
      assert tail[i] == schemas[i + 1];
    }
    forall i | 0 <= i < |tail| && PropertiesOf(tail[i].0, tail[i].1).Ok?
      ensures DistinctKeys(PropertiesOf(tail[i].0, tail[i].1).value)
    {
      assert tail[i] == schemas[i + 1];
    }
  }

  /** A schema's node and its property nodes form a schema block. */
  lemma BlockOf(name: string, props: seq<(string, Json)>)
    ensures SchemaBlock(name, [SchemaNode(name)] + PropertyNodes(name, props))
  {
    var block := [SchemaNode(name)] + PropertyNodes(name, props);
    forall m | 0 < m < |block| ensures block[m].PropertyNode? && block[m].schema == name {
      assert block[m] == PropertyNodes(name, props)[m - 1];
    }
  }

  /** Within one schema, distinct property names give distinct identities. */
  lemma BlockIdentitiesDistinct(name: string, props: seq<(string, Json)>)
    requires '/' !in name && DistinctKeys(props)
    ensures IdentitiesDistinct([SchemaNode(name)] + PropertyNodes(name, props))
  {
    var block := [SchemaNode(name)] + PropertyNodes(name, props);
    forall i, j | 0 <= i < j < |block| ensures NodeIdentity(block[i]) != NodeIdentity(block[j]) {
      assert block[j] == PropertyNodes(name, props)[j - 1];
      if i > 0 {
        assert block[i] == PropertyNodes(name, props)[i - 1];
      }
      DifferentIdentity(block[i], block[j]);
    }
  }

  /** A schema block in front of nodes of other, plain-named schemas keeps identities distinct. */
  lemma ConcatIdentitiesDistinct(name: string, block: seq<Node>, rest: seq<Node>)
    requires '/' !in name && SchemaBlock(name, block)
    requires IdentitiesDistinct(block) && IdentitiesDistinct(rest)
    requires forall i :: 0 <= i < |rest| ==> rest[i].schema != name && '/' !in rest[i].schema
    ensures IdentitiesDistinct(block + rest)
  {
    var nodes := block + rest;
    forall i, j | 0 <= i < j < |nodes| ensures NodeIdentity(nodes[i]) != NodeIdentity(nodes[j]) {
      if j < |block| {
        assert nodes[i] == block[i] && nodes[j] == block[j];
      } else if i < |block| {
        assert nodes[i] == block[i] && nodes[j] == rest[j - |block|];
        DifferentIdentity(nodes[i], nodes[j]);
      } else {
        assert nodes[i] == rest[i - |block|] && nodes[j] == rest[j - |block|];
      }
    }
  }

  lemma DifferentIdentity(a: Node, b: Node)
    requires '/' !in a.schema && '/' !in b.schema
    requires a.schema != b.schema || a.SchemaNode? != b.SchemaNode? || (a.PropertyNode? && b.PropertyNode? && a.property != b.property)
    ensures NodeIdentity(a) != NodeIdentity(b)
  {
    if NodeIdentity(a) == NodeIdentity(b) {
      SameIdentity(a, b);
    }
  }

  lemma EndpointRowIdentity(head: seq<string>)
    ensures IdentityColumn in EndpointRow(head) && EndpointRow(head)[IdentityColumn] == Str(EndpointName)
  {
    assert NameColumn[0] == DescriptionColumn[0] == 'c' && IdentityColumn[0] == 'i';
  }

  /**
   * When objects convert and the schemas are well named, every object row
   * has an identity and no two rows share one.
   */
  lemma IdentitiesUnique(head: seq<string>, doc: Json)
    requires ObjectRows(head, doc).Ok?
    requires SchemasOf(doc).Ok? ==> WellNamed(SchemasOf(doc).value)
    ensures forall i :: 0 <= i < |ObjectRows(head, doc).value| ==> IdentityColumn in ObjectRows(head, doc).value[i]
    ensures forall i, j :: 0 <= i < j < |ObjectRows(head, doc).value| ==>
              ObjectRows(head, doc).value[i][IdentityColumn] != ObjectRows(head, doc).value[j][IdentityColumn]
  {
    Alignment(head, doc);
    var rows, links, nodes := ObjectRows(head, doc).value, LinkRows(doc).value, Traversal(doc).value;
    SchemaNodesDistinct(SchemasOf(doc).value);
    AlignedIdentitiesUnique(head, rows, links, nodes);
  }

  /** The identity of object row i: the three fixed rows, then one per node. */
  function RowIdentity(nodes: seq<Node>, i: nat): string
    requires i < 3 + |nodes|
  {
    if i == 0 then EndpointName
    else if i == 1 then InfoIdentity
    else if i == 2 then ExternalDocsIdentity
    else NodeIdentity(nodes[i - 3])
  }

  lemma AlignedRowIdentities(head: seq<string>, rows: seq<Row>, links: seq<Link>, nodes: seq<Node>)
    requires Aligned(head, rows, links, nodes)
    ensures forall i :: 0 <= i < |rows| ==> IdentityColumn in rows[i] && rows[i][IdentityColumn] == Str(RowIdentity(nodes, i))
  {
    EndpointRowIdentity(head);
    forall i | 3 <= i < |rows| ensures IdentityColumn in rows[i] && rows[i][IdentityColumn] == Str(NodeIdentity(nodes[i - 3])) {
      assert RowFollows(head, rows[3 + (i - 3)], nodes[i - 3]);
    }
  }

  lemma RowIdentitiesDistinct(nodes: seq<Node>)
    requires IdentitiesDistinct(nodes)
    ensures forall i, j :: 0 <= i < j < 3 + |nodes| ==> RowIdentity(nodes, i) != RowIdentity(nodes, j)
  {
    assert |EndpointName| == 8 && |InfoIdentity| == 13 && |ExternalDocsIdentity| == 21;
    forall i, j | 0 <= i < j < 3 + |nodes| && i < 3 <= j ensures RowIdentity(nodes, i) != RowIdentity(nodes, j) {
      NodeIdentityNotFixed(nodes[j - 3]);
    }
  }

  lemma AlignedIdentitiesUnique(head: seq<string>, rows: seq<Row>, links: seq<Link>, nodes: seq<Node>)
    requires Aligned(head, rows, links, nodes)
    requires IdentitiesDistinct(nodes)
    ensures forall i :: 0 <= i < |rows| ==> IdentityColumn in rows[i]
    ensures forall i, j :: 0 <= i < j < |rows| ==> rows[i][IdentityColumn] != rows[j][IdentityColumn]
  {
    AlignedRowIdentities(head, rows, links, nodes);
    RowIdentitiesDistinct(nodes);
    forall i, j | 0 <= i < j < |rows| ensures rows[i][IdentityColumn] != rows[j][IdentityColumn] {
      assert rows[i][IdentityColumn] == Str(RowIdentity(nodes, i));
    }
  }

  /** Without the `/` restriction identities can clash: schema `A/x` has the identity of property `x` of schema `A`. */
  lemma SlashedSchemaNameClashes()
    ensures SchemaIdentity("A/x") == PropertyIdentity("A", "x")
    ensures NodeIdentity(SchemaNode("A/x")) == NodeIdentity(PropertyNode("A", "x", Obj([])))
  {
  }

  // ---------------------------------------------------------------------
  // The Info description

  /**
   * `len(d)` raises for a missing (None), boolean or numeric description;
   * a non-empty list or object has a length but no `replace`; text has its
   * line breaks escaped, and an empty list or object passes unchanged.
   */
  lemma InfoDescriptionOutcome(d: Json)
    ensures InfoDescription(d) == Err(InfoDescriptionWithoutLength) <==> d.Null? || d.Bool? || d.Num?
    ensures InfoDescription(d) == Err(InfoDescriptionNotText) <==>
              (d.Arr? && |d.items| > 0) || (d.Obj? && |d.members| > 0)
    ensures (d == Arr([]) || d == Obj([])) ==> InfoDescription(d) == Ok(d)
    ensures d.Str? ==>
              && InfoDescription(d) == Ok(Str(ReplaceAll(d.s, "\n", "\\n")))
              && '\n' !in ReplaceAll(d.s, "\n", "\\n")
              && |ReplaceAll(d.s, "\n", "\\n")| == |d.s| + CountMatches(d.s, "\n")
  {
    if d.Str? {
      ReplaceRemovesChar(d.s, '\n', "\\n");
      ReplaceLength(d.s, "\n", "\\n");
      if |d.s| == 0 {
        ReplaceWithoutMatch(d.s, "\n", "\\n");
      }
    }
  }

  /** The Info row's description column and its infodescription attribute hold the same escaped description. */
  lemma InfoRowDescription(head: seq<string>, doc: Json)
    requires InfoRow(head, doc).Ok?
    ensures InfoDescription(SafeGet(doc, "info.description", Null)).Ok?
    ensures var row, desc := InfoRow(head, doc).value, InfoDescription(SafeGet(doc, "info.description", Null)).value;
      && DescriptionColumn in row && AttrInfoDescription in row
      && row[DescriptionColumn] == desc && row[AttrInfoDescription] == desc
  {
    var d := SafeGet(doc, "info.description", Null);
    InfoRowOfDescription(head, InfoDescription(d).value, SafeGet(doc, "info.contact.email", Null),
                         SafeGet(doc, "info.title", Null), SafeGet(doc, "info.termsOfService", Null),
                         SafeGet(doc, "info.license.name", Null), SafeGet(doc, "info.version", Null));
  }

  lemma InfoRowOfDescription(head: seq<string>, desc: Json, email: Json, title: Json, terms: Json, license: Json, version: Json)
    ensures var row := InfoRowOf(head, desc, email, title, terms, license, version);
      && DescriptionColumn in row && AttrInfoDescription in row
      && row[DescriptionColumn] == desc && row[AttrInfoDescription] == desc
  {
    assert DescriptionColumn[2] == 'r';
    assert AttrInfoContactEmail[2] == AttrInfoTitle[2] == AttrInfoTermsOfService[2] == 'm';
    assert AttrInfoLicenseName[2] == AttrInfoVersion[2] == 'm';
    assert |AttrInfoDescription| != |AttrInfoContactEmail|;
    assert |AttrInfoDescription| != |AttrInfoTitle|;
    assert |AttrInfoDescription| != |AttrInfoTermsOfService|;
    assert AttrInfoDescription[32] == 'd' && AttrInfoLicenseName[32] == 'l';
    assert |AttrInfoDescription| != |AttrInfoVersion|;
  }

  // ---------------------------------------------------------------------
  // Failures

  lemma {:induction false} SchemaNodesFail(schemas: seq<(string, Json)>)
    ensures SchemaNodes(schemas).Ok? <==>
              forall i :: 0 <= i < |schemas| ==> PropertiesOf(schemas[i].0, schemas[i].1).Ok?
    decreases |schemas|
  {
    if schemas != [] {
      SchemaNodesFail(schemas[1..]);
      assert forall i :: 1 <= i < |schemas| ==> schemas[i] == schemas[1..][i - 1];
    }
  }

  /**
   * The three ways a conversion aborts: the Info description is missing,
   * `components.schemas` is missing, or some schema has no `properties`.
   * Then neither table is produced (links still are when only the Info
   * description is missing).
   */
  lemma ConversionAborts(head: seq<string>, doc: Json)
    ensures SafeGet(doc, "info.description", Null) == Null ==>
              ObjectRows(head, doc) == Err(InfoDescriptionWithoutLength)
    ensures SafeGet(doc, "components.schemas", Null) == Null ==>
              ObjectRows(head, doc).Err? && LinkRows(doc) == Err(SchemasNotObject)
    ensures (SchemasOf(doc).Ok? &&
             exists i :: 0 <= i < |SchemasOf(doc).value| &&
               PropertiesOf(SchemasOf(doc).value[i].0, SchemasOf(doc).value[i].1).Err?) ==>
              ObjectRows(head, doc).Err? && LinkRows(doc).Err?
  {
    ObjectRowsFollowTraversal(head, doc);
    LinkRowsFollowTraversal(doc);
    if SchemasOf(doc).Ok? {
      SchemaNodesFail(SchemasOf(doc).value);
    }
  }

  // ---------------------------------------------------------------------
  // Rows fit the header

  lemma HeaderHoldsRowColumns()
    ensures ClassColumn in HeaderColumns && IdentityColumn in HeaderColumns
    ensures NameColumn in HeaderColumns && DescriptionColumn in HeaderColumns
    ensures AttrInfoVersion in HeaderColumns && AttrInfoTitle in HeaderColumns
    ensures AttrInfoDescription in HeaderColumns && AttrInfoTermsOfService in HeaderColumns
    ensures AttrInfoContactEmail in HeaderColumns && AttrInfoLicenseName in HeaderColumns
    ensures AttrExternalDocsUrl in HeaderColumns && AttrPropertyExample in HeaderColumns
    ensures AttrPropertyDatatype in HeaderColumns && AttrPropertyDataFormat in HeaderColumns
  {
    assert HeaderColumns[5] == AttrInfoVersion && HeaderColumns[6] == AttrInfoTitle;
    assert HeaderColumns[7] == AttrInfoDescription && HeaderColumns[8] == AttrInfoTermsOfService;
    assert HeaderColumns[9] == AttrInfoContactEmail && HeaderColumns[10] == AttrInfoLicenseName;
    assert HeaderColumns[11] == AttrExternalDocsUrl && HeaderColumns[12] == AttrPropertyExample;
    assert HeaderColumns[14] == AttrPropertyDatatype && HeaderColumns[15] == AttrPropertyDataFormat;
  }

  /** The columns some row builder sets. */
  predicate HoldsRowColumns(head: seq<string>)
  {
    && ClassColumn in head && IdentityColumn in head && NameColumn in head && DescriptionColumn in head
    && AttrInfoVersion in head && AttrInfoTitle in head && AttrInfoDescription in head
    && AttrInfoTermsOfService in head && AttrInfoContactEmail in head && AttrInfoLicenseName in head
    && AttrExternalDocsUrl in head && AttrPropertyExample in head
    && AttrPropertyDatatype in head && AttrPropertyDataFormat in head
  }

  lemma FixedRowKeys(head: seq<string>, doc: Json)
    requires HoldsRowColumns(head)
    ensures EndpointRow(head).Keys == (set c | c in head)
    ensures ExternalDocsRow(head, doc).Keys == (set c | c in head)
  {
  }

  lemma InfoRowOfKeys(head: seq<string>, desc: Json, email: Json, title: Json, terms: Json, license: Json, version: Json)
    requires HoldsRowColumns(head)
    ensures InfoRowOf(head, desc, email, title, terms, license, version).Keys == (set c | c in head)
  {
  }

  lemma InfoRowKeys(head: seq<string>, doc: Json)
    requires HoldsRowColumns(head) && InfoRow(head, doc).Ok?
    ensures InfoRow(head, doc).value.Keys == (set c | c in head)
  {
    var d := SafeGet(doc, "info.description", Null);
    InfoRowOfKeys(head, InfoDescription(d).value, SafeGet(doc, "info.contact.email", Null),
                  SafeGet(doc, "info.title", Null), SafeGet(doc, "info.termsOfService", Null),
                  SafeGet(doc, "info.license.name", Null), SafeGet(doc, "info.version", Null));
  }

  lemma AlignedFitHeader(head: seq<string>, rows: seq<Row>, links: seq<Link>, nodes: seq<Node>)
    requires Aligned(head, rows, links, nodes) && HoldsRowColumns(head)
    requires rows[0].Keys == (set c | c in head)
    requires rows[1].Keys == (set c | c in head) && rows[2].Keys == (set c | c in head)
    ensures forall r :: r in rows ==> r.Keys == (set c | c in head)
  {
    forall i | 3 <= i < |rows| ensures rows[i].Keys == (set c | c in head) {
      assert RowFollows(head, rows[3 + (i - 3)], nodes[i - 3]);
      NodeColumnsInHeader(head, nodes[i - 3]);
    }
    forall r | r in rows ensures r.Keys == (set c | c in head) {
      var i :| 0 <= i < |rows| && rows[i] == r;
    }
  }

  lemma NodeColumnsInHeader(head: seq<string>, n: Node)
    requires HoldsRowColumns(head)
    ensures NodeColumns(n) <= (set c | c in head)
  {
  }

  lemma ObjectRowsFitColumns(head: seq<string>, doc: Json)
    requires HoldsRowColumns(head)
    requires ObjectRows(head, doc).Ok?
    ensures forall r :: r in ObjectRows(head, doc).value ==> r.Keys == (set c | c in head)
  {
    Alignment(head, doc);
    ObjectRowsFollowTraversal(head, doc);
    FixedRowKeys(head, doc);
    InfoRowKeys(head, doc);
    AlignedFitHeader(head, ObjectRows(head, doc).value, LinkRows(doc).value, Traversal(doc).value);
  }

  /**
   * With the model's header every object row has exactly the header's
   * columns, so the CSV writer neither meets an unknown key nor leaves a
   * column without a value.
   */
  lemma ObjectRowsFitHeader(doc: Json)
    requires ObjectRows(HeaderColumns, doc).Ok?
    ensures forall r :: r in ObjectRows(HeaderColumns, doc).value ==> r.Keys == (set c | c in HeaderColumns)
  {
    HeaderHoldsRowColumns();
    ObjectRowsFitColumns(HeaderColumns, doc);
  }
}
