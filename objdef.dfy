/** Object definitions: the object classes and the attribute list of one
    mapped type, parsed from names with repetition markers. */
module ObjectDefinitions {
  import opened Wrappers
  import opened Values
  import SyntaxTypes
  import LdapSchema

  /** LdapObjectAttributeDefinition. `syntax` and `mapper` stay None until
      the definition is schemarized. */
  datatype AttributeDefinition = AttributeDefinition(
    name: string, must: bool, multi: bool,
    syntax: Option<string>, mapper: Option<SyntaxTypes.Converter>)

  predicate IsMarker(c: char) {
    c == '?' || c == '*' || c == '+'
  }

  /** One entry of the attribute list. Its last character selects the kind:
      `?` optional single, `*` optional multi, `+` required multi, anything
      else required single with the whole entry as name. An empty entry has
      no last character (IndexError). */
  function ParseAttribute(spec: string): PyResult<AttributeDefinition> {
    if |spec| == 0 then Err(IndexError)
    else
      var rep := spec[|spec| - 1];
      var base := spec[..|spec| - 1];
      if rep == '?' then Ok(AttributeDefinition(base, false, false, None, None))
      else if rep == '*' then Ok(AttributeDefinition(base, false, true, None, None))
      else if rep == '+' then Ok(AttributeDefinition(base, true, true, None, None))
      else Ok(AttributeDefinition(spec, true, false, None, None))
  }

  /** The marker that declares a given requiredness and cardinality. */
  function Marker(must: bool, multi: bool): string {
    if !must && !multi then "?"
    else if !must && multi then "*"
    else if must && multi then "+"
    else ""
  }

  /** The attribute-list entry that declares a definition. */
  function Unparse(a: AttributeDefinition): string {
    a.name + Marker(a.must, a.multi)
  }

  /** The four markers, one by one. */
  lemma ParseMarkers(x: string)
    ensures ParseAttribute(x + "?") == Ok(AttributeDefinition(x, false, false, None, None))
    ensures ParseAttribute(x + "*") == Ok(AttributeDefinition(x, false, true, None, None))
    ensures ParseAttribute(x + "+") == Ok(AttributeDefinition(x, true, true, None, None))
    ensures |x| > 0 && !IsMarker(x[|x| - 1]) ==> ParseAttribute(x) == Ok(AttributeDefinition(x, true, false, None, None))
  {
    assert (x + "?")[..|x|] == x && (x + "*")[..|x|] == x && (x + "+")[..|x|] == x;
  }

  /** Entry of a definition parses back to that definition (an unmarked name
      must be non-empty and must not itself end in a marker). */
  lemma ParseUnparse(a: AttributeDefinition)
    requires a.syntax == None && a.mapper == None
    requires a.must && !a.multi ==> a.name != "" && !IsMarker(a.name[|a.name| - 1])
    ensures ParseAttribute(Unparse(a)) == Ok(a)
  {
    if a.must && !a.multi {
      assert Unparse(a) == a.name;
    } else {
      ParseMarkers(a.name);
    }
  }

  /** And every non-empty entry is the entry of what it parses to. */
  lemma UnparseParse(spec: string)
    requires spec != ""
    ensures ParseAttribute(spec).Ok? && Unparse(ParseAttribute(spec).value) == spec
  {
    assert spec == spec[..|spec| - 1] + [spec[|spec| - 1]];
  }

  /** The whole attribute list, entry by entry in order; the first empty
      entry raises IndexError. */
  function ParseAttributes(specs: seq<string>): (r: PyResult<seq<AttributeDefinition>>)
    ensures r.Ok? <==> forall i :: 0 <= i < |specs| ==> specs[i] != ""
    ensures r.Err? ==> r.error == IndexError
    ensures r.Ok? ==> |r.value| == |specs|
    ensures r.Ok? ==> forall i :: 0 <= i < |specs| ==> r.value[i] == ParseAttribute(specs[i]).value
  {
    if |specs| == 0 then Ok([])
    else
      var init := ParseAttributes(specs[..|specs| - 1]);
      var last := ParseAttribute(specs[|specs| - 1]);
      if init.Err? then
        assert specs[..|specs| - 1] == specs[..|specs| - 1];
        Err(init.error)
      else if last.Err? then Err(last.error)
      else
        Ok(init.value + [last.value])
  }

  /** LdapObjectAttributeDefinition.schemarize: record the attribute type's
      syntax and the converter for it. */
  function SchemarizeAttribute(a: AttributeDefinition, schema: LdapSchema.Schema): (r: AttributeDefinition)
    ensures r.name == a.name && r.must == a.must && r.multi == a.multi
    ensures r.syntax.Some? <==> a.name in schema.syntaxOf
    ensures a.name in schema.syntaxOf ==> r.syntax == Some(schema.syntaxOf[a.name])
    ensures r.mapper.Some? ==> r.syntax == Some(SyntaxTypes.Oid(r.mapper.value))
    ensures r.mapper == LdapSchema.AttributeTypeMapper(schema, a.name)
  {
    var syntax := LdapSchema.AttributeTypeSyntax(schema, a.name);
    a.(syntax := syntax, mapper := SyntaxTypes.GetMapper(syntax))
  }

  /** Schemarizing twice is schemarizing once. */
  lemma SchemarizeIdempotent(a: AttributeDefinition, schema: LdapSchema.Schema)
    ensures SchemarizeAttribute(SchemarizeAttribute(a, schema), schema) == SchemarizeAttribute(a, schema)
  {
  }

  /** LdapObjectDefinition: the object-class list and the attribute
      definitions, which schemarize updates in place. */
  class ObjectDefinition {
    const oclist: seq<string>
    var attrlist: seq<AttributeDefinition>

    constructor (oclist: seq<string>)
      ensures this.oclist == oclist && attrlist == []
    {
      this.oclist := oclist;
      attrlist := [];
    }

    /** LdapObjectDefinition.schemarize. */
    method Schemarize(schema: LdapSchema.Schema)
      modifies this
      ensures |attrlist| == |old(attrlist)|
      ensures forall i :: 0 <= i < |attrlist| ==> attrlist[i] == SchemarizeAttribute(old(attrlist)[i], schema)
    {
      var i := 0;
      while i < |attrlist|
        invariant 0 <= i <= |attrlist| == |old(attrlist)|
        invariant forall k :: 0 <= k < i ==> attrlist[k] == SchemarizeAttribute(old(attrlist)[k], schema)
        invariant forall k :: i <= k < |attrlist| ==> attrlist[k] == old(attrlist)[k]
      {
        attrlist := attrlist[i := SchemarizeAttribute(attrlist[i], schema)];
        i := i + 1;
      }
    }
  }

  /** LdapObjectDefinition.__init__: append one parsed definition per entry
      of the attribute list; an empty entry raises IndexError. */
  method NewObjectDefinition(oclist: seq<string>, specs: seq<string>) returns (r: PyResult<ObjectDefinition>)
    ensures r.Ok? <==> ParseAttributes(specs).Ok?
    ensures r.Err? ==> r.error == IndexError
    ensures r.Ok? ==> fresh(r.value) && r.value.oclist == oclist && r.value.attrlist == ParseAttributes(specs).value
  {
    var d := new ObjectDefinition(oclist);
    var i := 0;
    while i < |specs|
      invariant 0 <= i <= |specs|
      invariant ParseAttributes(specs[..i]).Ok?
      invariant d.attrlist == ParseAttributes(specs[..i]).value
    {
      var spec := specs[i];
      assert specs[..i + 1][..i] == specs[..i];
      if |spec| == 0 {
        assert specs[i] == "";
        return Err(IndexError);
      }
      var a := ParseAttribute(spec);
      d.attrlist := d.attrlist + [a.value];
      i := i + 1;
    }
    assert specs[..i] == specs;
    return Ok(d);
  }
}
