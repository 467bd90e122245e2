/**
 * The catalog model's tag strings (model/model.py): class tags, attribute
 * keys and association tags, and the instance fields of `OpenAPIModel`
 * in the order its constructor assigns them.
 */
module Model {
  import opened Text

  const PackageName: string := "com.informatica.ldm.openapi"
  /** Namespace of the attributes the model inherits from the relational base model. */
  const RelationalNamespace: string := "com.infa.ldm.relational."

  // 1) classes
  const ClassEndpoint: string := PackageName + ".endpoint"
  const ClassInfo: string := PackageName + ".info"
  const ClassExternalDocs: string := PackageName + ".externaldocs"
  const ClassSchema: string := PackageName + ".schema"
  const ClassProperty: string := PackageName + ".property"

  // 2) attributes
  const AttrEndpointVersion: string := PackageName + ".openapi"
  const AttrInfoVersion: string := PackageName + ".infoversion"
  const AttrInfoTitle: string := PackageName + ".infotitle"
  const AttrInfoDescription: string := PackageName + ".infodescription"
  const AttrInfoTermsOfService: string := PackageName + ".infotermsOfService"
  const AttrInfoContactEmail: string := PackageName + ".infocontactemail"
  const AttrInfoLicenseName: string := PackageName + ".infolicensename"
  const AttrExternalDocsUrl: string := PackageName + ".externaldocsurl"
  const AttrPropertyExample: string := PackageName + ".propertyexample"

  // 2.1) attributes inherited from the relational base model
  const AttrPropertyPrimaryKey: string := "com.infa.ldm.relational.PrimaryKeyColumn"
  const AttrPropertyDatatype: string := "com.infa.ldm.relational.Datatype"
  const AttrPropertyDataFormat: string := "com.infa.ldm.relational.FieldFormat"
  const AttrPropertyNullable: string := "com.infa.ldm.relational.Nullable"
  const AttrPropertyMaxLength: string := "com.infa.ldm.relational.DatatypeLength"
  const AttrPropertyScale: string := "com.infa.ldm.relational.DatatypeScale"

  // 3) associations
  const AssocResourceParentChild: string := "core.ResourceParentChild"
  const AssocEndpointInfo: string := PackageName + ".endpointinfo"
  const AssocEndpointSchema: string := PackageName + ".endpointschema"
  const AssocSchemaProperty: string := PackageName + ".schemaproperty"

  // 4) lineage within the data source
  const AssocDataSourceDataFlow: string := "core.DataSourceDataFlow"
  const AssocDataSetDataFlow: string := "core.DataSetDataFlow"
  const AssocDirectionalDataFlow: string := "core.DirectionalDataFlow"

  const ClassSuffixes: seq<string> := [".endpoint", ".info", ".externaldocs", ".schema", ".property"]
  const ClassTags: seq<string> := [ClassEndpoint, ClassInfo, ClassExternalDocs, ClassSchema, ClassProperty]

  /** The nine attributes of the model's own package, in declaration order. */
  const PackageAttributes: seq<string> :=
    [AttrEndpointVersion, AttrInfoVersion, AttrInfoTitle, AttrInfoDescription, AttrInfoTermsOfService,
     AttrInfoContactEmail, AttrInfoLicenseName, AttrExternalDocsUrl, AttrPropertyExample]
  const PackageAttributeSuffixes: seq<string> :=
    [".openapi", ".infoversion", ".infotitle", ".infodescription", ".infotermsOfService",
     ".infocontactemail", ".infolicensename", ".externaldocsurl", ".propertyexample"]

  /** The six inherited attributes, in declaration order. */
  const InheritedAttributes: seq<string> :=
    [AttrPropertyPrimaryKey, AttrPropertyDatatype, AttrPropertyDataFormat,
     AttrPropertyNullable, AttrPropertyMaxLength, AttrPropertyScale]
  const InheritedAttributeNames: seq<string> :=
    ["PrimaryKeyColumn", "Datatype", "FieldFormat", "Nullable", "DatatypeLength", "DatatypeScale"]

  /** Every attribute key, in declaration order. */
  const AttributeValues: seq<string> := PackageAttributes + InheritedAttributes

  const AssociationTags: seq<string> :=
    [AssocResourceParentChild, AssocEndpointInfo, AssocEndpointSchema, AssocSchemaProperty,
     AssocDataSourceDataFlow, AssocDataSetDataFlow, AssocDirectionalDataFlow]

  /** `vars(OpenAPIModel())`: field name and value, in assignment order. */
  const Fields: seq<(string, string)> := ClassFields + AttributeFields + AssociationFields

  const ClassFields: seq<(string, string)> :=
    [("_packagename", PackageName),
     ("_class_endpoint", ClassEndpoint),
     ("_class_info", ClassInfo),
     ("_class_externaldocs", ClassExternalDocs),
     ("_class_schema", ClassSchema),
     ("_class_property", ClassProperty)]

  const AttributeFields: seq<(string, string)> :=
    [("_attr_endpoint_version", AttrEndpointVersion),
     ("_attr_infoversion", AttrInfoVersion),
     ("_attr_infotitle", AttrInfoTitle),
     ("_attr_infodescription", AttrInfoDescription),
     ("_attr_infotermsOfService", AttrInfoTermsOfService),
     ("_attr_infocontactemail", AttrInfoContactEmail),
     ("_attr_infolicensename", AttrInfoLicenseName),
     ("_attr_externaldocs_url", AttrExternalDocsUrl),
     ("_attr_property_example", AttrPropertyExample),
     ("_attr_property_primarykey", AttrPropertyPrimaryKey),
     ("_attr_property_datatype", AttrPropertyDatatype),
     ("_attr_property_dataformat", AttrPropertyDataFormat),
     ("_attr_property_nullable", AttrPropertyNullable),
     ("_attr_property_maxlength", AttrPropertyMaxLength),
     ("_attr_property_scale", AttrPropertyScale)]

  const AssociationFields: seq<(string, string)> :=
    [("_association_resourceparanchild", AssocResourceParentChild),
     ("_association_endpointinfo", AssocEndpointInfo),
     ("_association_enndpointschema", AssocEndpointSchema),
     ("_association_schemaproperty", AssocSchemaProperty),
     ("_association_datasourcedataflow", AssocDataSourceDataFlow),
     ("_association_datasetdataflow", AssocDataSetDataFlow),
     ("_association_directionaldataflow", AssocDirectionalDataFlow)]

  predicate Distinct(s: seq<string>)
  {
    forall i, j :: 0 <= i < j < |s| ==> s[i] != s[j]
  }

  /** The values of the fields whose name starts with `_attr_`, in field order. */
  function AttributeFieldValues(fields: seq<(string, string)>): (values: seq<string>)
    ensures forall v :: v in values ==> exists i :: 0 <= i < |fields| && fields[i].1 == v && StartsWith(fields[i].0, "_attr_")
  {
    if fields == [] then []
    else
      var rest := AttributeFieldValues(fields[1..]);
      assert forall i :: 0 <= i < |fields[1..]| ==> fields[1..][i] == fields[i + 1];
      if StartsWith(fields[0].0, "_attr_") then [fields[0].1] + rest else rest
  }

  /** Every class tag is the package name, a dot and a suffix. */
  lemma ClassTagsInPackage()
    ensures |ClassTags| == |ClassSuffixes| == 5
    ensures forall k :: 0 <= k < |ClassTags| ==> ClassTags[k] == PackageName + ClassSuffixes[k]
    ensures forall k :: 0 <= k < |ClassSuffixes| ==> StartsWith(ClassSuffixes[k], ".")
    ensures Distinct(ClassTags)
  {
    forall i, j | 0 <= i < j < |ClassTags| ensures ClassTags[i] != ClassTags[j] {
      assert ClassTags[i][28] != ClassTags[j][28] || |ClassTags[i]| != |ClassTags[j]|;
    }
  }

  lemma PackageAttributesDistinct()
    ensures Distinct(PackageAttributes)
  {
    forall i, j | 0 <= i < j < |PackageAttributes| ensures PackageAttributes[i] != PackageAttributes[j] {
      var a, b := PackageAttributes[i], PackageAttributes[j];
      assert |a| != |b| || a[28] != b[28] || a[32] != b[32];
    }
  }

  lemma InheritedAttributesDistinct()
    ensures Distinct(InheritedAttributes)
  {
    forall i, j | 0 <= i < j < |InheritedAttributes| ensures InheritedAttributes[i] != InheritedAttributes[j] {
      var a, b := InheritedAttributes[i], InheritedAttributes[j];
      assert |a| != |b| || a[24] != b[24];
    }
  }

  lemma PackageAttributesShape()
    ensures |PackageAttributes| == |PackageAttributeSuffixes| == 9
    ensures forall k :: 0 <= k < 9 ==> PackageAttributes[k] == PackageName + PackageAttributeSuffixes[k]
  {
  }

  lemma InheritedAttributesShape()
    ensures |InheritedAttributes| == |InheritedAttributeNames| == 6
    ensures forall k :: 0 <= k < 6 ==> InheritedAttributes[k] == RelationalNamespace + InheritedAttributeNames[k]
  {
  }

  /**
   * The nine package attributes are the package name plus a dotted suffix,
   * the six inherited ones live in the relational namespace, and all fifteen
   * are pairwise distinct.
   */
  lemma AttributeNamespaces()
    ensures |PackageAttributes| == |PackageAttributeSuffixes| == 9
    ensures |InheritedAttributes| == |InheritedAttributeNames| == 6
    ensures forall k :: 0 <= k < 9 ==> PackageAttributes[k] == PackageName + PackageAttributeSuffixes[k]
    ensures forall k :: 0 <= k < 6 ==> InheritedAttributes[k] == RelationalNamespace + InheritedAttributeNames[k]
    ensures |AttributeValues| == 15 && Distinct(AttributeValues)
  {
    PackageAttributesShape();
    InheritedAttributesShape();
    PackageAttributesDistinct();
    InheritedAttributesDistinct();
    var p, q := PackageAttributes, InheritedAttributes;
    assert AttributeValues == p + q;
    forall i, j | 0 <= i < j < |p + q| ensures (p + q)[i] != (p + q)[j] {
      if j < 9 {
        assert (p + q)[i] == p[i] && (p + q)[j] == p[j];
      } else if i < 9 {
        assert (p + q)[i] == p[i] && (p + q)[j] == q[j - 9];
        assert p[i][7] == 'o' && q[j - 9][7] == 'a';
      } else {
        assert (p + q)[i] == q[i - 9] && (p + q)[j] == q[j - 9];
      }
    }
  }

  /**
   * The association tags are pairwise distinct; the parent-child tag and the
   * three lineage tags are in the `core.` namespace, the other three in the
   * model's package.
   */
  lemma AssociationNamespaces()
    ensures Distinct(AssociationTags)
    ensures forall k :: k in {0, 4, 5, 6} ==> StartsWith(AssociationTags[k], "core.")
    ensures forall k :: k in {1, 2, 3} ==> StartsWith(AssociationTags[k], PackageName + ".")
  {
    forall i, j | 0 <= i < j < |AssociationTags| ensures AssociationTags[i] != AssociationTags[j] {
      var a, b := AssociationTags[i], AssociationTags[j];
      assert |a| != |b| || a[5] != b[5] || a[28] != b[28];
    }
  }

  /** Scanning the model's fields for the `_attr_` prefix finds exactly the fifteen attribute keys, in order. */
  lemma AttributeFieldsAreAttributes()
    ensures AttributeFieldValues(Fields) == AttributeValues
  {
    AttributeFieldValuesAppend(ClassFields, AttributeFields + AssociationFields);
    AttributeFieldValuesAppend(AttributeFields, AssociationFields);
    assert ClassFields + AttributeFields + AssociationFields == ClassFields + (AttributeFields + AssociationFields);
    ClassFieldsAreNotAttributes();
    AssociationFieldsAreNotAttributes();
    AttributeFieldsAreAllAttributes();
  }

  lemma ClassFieldsAreNotAttributes()
    ensures AttributeFieldValues(ClassFields) == []
  {
    forall k | 0 <= k < |ClassFields| ensures !StartsWith(ClassFields[k].0, "_attr_") {
      assert ClassFields[k].0[1] != 'a';
    }
    NoAttributeFields(ClassFields);
  }

  lemma AssociationFieldsAreNotAttributes()
    ensures AttributeFieldValues(AssociationFields) == []
  {
    forall k | 0 <= k < |AssociationFields| ensures !StartsWith(AssociationFields[k].0, "_attr_") {
      assert AssociationFields[k].0[2] != 't';
    }
    NoAttributeFields(AssociationFields);
  }

  lemma AttributeFieldsAreAllAttributes()
    ensures AttributeFieldValues(AttributeFields) == AttributeValues
  {
    AttributeFieldsNamed();
    AllAttributeFields(AttributeFields);
    AttributeFieldsHoldAttributes();
  }

  /** Every attribute field's name starts with `_attr_`. */
  lemma AttributeFieldsNamed()
    ensures forall k :: 0 <= k < |AttributeFields| ==> StartsWith(AttributeFields[k].0, "_attr_")
  {
    forall k | 0 <= k < |AttributeFields| ensures StartsWith(AttributeFields[k].0, "_attr_") {
      var name := AttributeFields[k].0;
      assert |name| > 6 && name[0] == '_' && name[1] == 'a' && name[2] == 't' && name[3] == 't' && name[4] == 'r' && name[5] == '_';
      assert name[..6] == "_attr_";
    }
  }
  /** The attribute fields hold the attribute keys, in declaration order. */
  lemma AttributeFieldsHoldAttributes()
    ensures |AttributeFields| == |AttributeValues|
    ensures forall k :: 0 <= k < |AttributeFields| ==> AttributeFields[k].1 == AttributeValues[k]
  {
  }

  lemma {:induction false} AttributeFieldValuesAppend(a: seq<(string, string)>, b: seq<(string, string)>)
    ensures AttributeFieldValues(a + b) == AttributeFieldValues(a) + AttributeFieldValues(b)
    decreases |a|
  {
    if a != [] {
      assert (a + b)[0] == a[0];
      assert (a + b)[1..] == a[1..] + b;
      AttributeFieldValuesAppend(a[1..], b);
      var rest := AttributeFieldValues(a[1..]);
      if StartsWith(a[0].0, "_attr_") {
        assert AttributeFieldValues(a + b) == [a[0].1] + (rest + AttributeFieldValues(b));
      } else {
        assert AttributeFieldValues(a + b) == rest + AttributeFieldValues(b);
      }
    } else {
      assert a + b == b;
    }
  }

  lemma {:induction false} NoAttributeFields(fields: seq<(string, string)>)
    requires forall k :: 0 <= k < |fields| ==> !StartsWith(fields[k].0, "_attr_")
    ensures AttributeFieldValues(fields) == []
    decreases |fields|
  {
    if fields != [] {
      NoAttributeFields(fields[1..]);
    }
  }

  lemma {:induction false} AllAttributeFields(fields: seq<(string, string)>)
    requires forall k :: 0 <= k < |fields| ==> StartsWith(fields[k].0, "_attr_")
    ensures |AttributeFieldValues(fields)| == |fields|
    ensures forall k :: 0 <= k < |fields| ==> AttributeFieldValues(fields)[k] == fields[k].1
    decreases |fields|
  {
    if fields != [] {
      AllAttributeFields(fields[1..]);
      assert AttributeFieldValues(fields) == [fields[0].1] + AttributeFieldValues(fields[1..]);
    }
  }
}
