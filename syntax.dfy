/** The syntax converter registry (LdapSyntaxTypeMapper): a fixed table from
    attribute-syntax OID to a converter between wire text and Python values. */
module SyntaxTypes {
  import opened Wrappers
  import opened Values
  import Numerals

  /** The converters the registry holds. */
  datatype Converter = Boolean | Unicode | IA5String | Integer | NumericString

  const BooleanOid: string := "1.3.6.1.4.1.1466.115.121.1.7"
  const UnicodeOid: string := "1.3.6.1.4.1.1466.115.121.1.15"
  const IA5StringOid: string := "1.3.6.1.4.1.1466.115.121.1.26"
  const IntegerOid: string := "1.3.6.1.4.1.1466.115.121.1.27"
  const NumericStringOid: string := "1.3.6.1.4.1.1466.115.121.1.36"
  /** Generalized Time and UTC Time: declared, never appended to the table. */
  const GentimeOid: string := "1.3.6.1.4.1.1466.115.121.1.24"
  const UTCTimeOid: string := "1.3.6.1.4.1.1466.115.121.1.53"

  function Oid(c: Converter): string {
    match c
    case Boolean => BooleanOid
    case Unicode => UnicodeOid
    case IA5String => IA5StringOid
    case Integer => IntegerOid
    case NumericString => NumericStringOid
  }

  /** The `mappers` list, in the order the class body appends to it. */
  const Mappers: seq<Converter> := [Boolean, Unicode, IA5String, Integer, NumericString]

  /** The dict __init__ builds from a list of converters: each one stored
      under its OID, a later one replacing an earlier one with the same OID. */
  function TableOf(mappers: seq<Converter>): (table: map<string, Converter>)
    ensures forall oid :: oid in table <==> exists c :: c in mappers && Oid(c) == oid
    ensures forall oid :: oid in table ==> table[oid] in mappers && Oid(table[oid]) == oid
  {
    if |mappers| == 0 then map[]
    else
      var last := mappers[|mappers| - 1];
      assert mappers == mappers[..|mappers| - 1] + [last];
      TableOf(mappers[..|mappers| - 1])[Oid(last) := last]
  }

  /** LdapSyntaxTypeMapper.__init__: the loop that fills the table. */
  method BuildTable(mappers: seq<Converter>) returns (table: map<string, Converter>)
    ensures table == TableOf(mappers)
    ensures forall c :: c in mappers ==> Oid(c) in table && Oid(table[Oid(c)]) == Oid(c)
  {
    table := map[];
    var i := 0;
    while i < |mappers|
      invariant 0 <= i <= |mappers|
      invariant table == TableOf(mappers[..i])
    {
      assert mappers[..i + 1][..i] == mappers[..i];
      table := table[Oid(mappers[i]) := mappers[i]];
      i := i + 1;
    }
    assert mappers[..i] == mappers;
  }

  /** The table every schema uses. */
  function Registry(): map<string, Converter> {
    TableOf(Mappers)
  }

  /** get_mapper: the converter registered for a syntax OID, or None (also
      when the schema gave no syntax at all). */
  function GetMapper(oid: Option<string>): (r: Option<Converter>)
    ensures r.Some? ==> oid == Some(Oid(r.value))
  {
    if oid.Some? && oid.value in Registry() then Some(Registry()[oid.value]) else None
  }

  lemma OidsDistinct(c: Converter, d: Converter)
    ensures Oid(c) == Oid(d) <==> c == d
  {
    if c != d {
      var x, y := Oid(c), Oid(d);
      assert |x| != |y| || x[|x| - 1] != y[|y| - 1] || x[|x| - 2] != y[|y| - 2];
    }
  }

  /** An OID finds a converter exactly when it is one of the five appended
      ones, and then it finds the converter declared with that OID. */
  lemma GetMapperExact(oid: string, c: Converter)
    ensures GetMapper(Some(oid)) == Some(c) <==> oid == Oid(c)
  {
    var k := if c.Boolean? then 0 else if c.Unicode? then 1 else if c.IA5String? then 2
             else if c.Integer? then 3 else 4;
    assert Mappers[k] == c;
    if oid == Oid(c) {
      var d := Registry()[oid];
      OidsDistinct(c, d);
    }
  }

  /** Generalized Time and UTC Time have OIDs but no converter. */
  lemma TimeSyntaxesUnmapped()
    ensures GetMapper(Some(GentimeOid)) == None
    ensures GetMapper(Some(UTCTimeOid)) == None
    ensures GetMapper(None) == None
  {
    forall c: Converter ensures Oid(c) != GentimeOid && Oid(c) != UTCTimeOid {
      var x := Oid(c);
      assert x[|x| - 1] != GentimeOid[|GentimeOid| - 1];
      assert x[|x| - 1] != UTCTimeOid[|UTCTimeOid| - 1];
    }
  }

  /** ldap_to_python: wire text to a Python value. Integer and NumericString
      raise ValueError on text that is not a decimal integer. */
  function LdapToPython(c: Converter, wire: string): PyResult<Value> {
    match c
    case Boolean => Ok(Bool(wire == "TRUE"))
    case Unicode => Ok(Str(wire))
    case IA5String => Ok(Str(wire))
    case Integer =>
      var n := Numerals.ParseInt(wire);
      if n.Some? then Ok(Int(n.value)) else Err(ValueError)
    case NumericString =>
      var n := Numerals.ParseInt(wire);
      if n.Some? then Ok(Str(Numerals.FormatInt(n.value))) else Err(ValueError)
  }

  /** python_to_ldap: a Python value to wire text. Unicode's encode() exists
      only on strings; NumericString goes through int(). */
  function PythonToLdap(c: Converter, v: Value): PyResult<string> {
    match c
    case Boolean => Ok(if Truthy(v) then "TRUE" else "FALSE")
    case Unicode => if v.Str? then Ok(v.s) else Err(AttributeError)
    case IA5String => Ok(PyStr(v))
    case Integer => Ok(PyStr(v))
    case NumericString =>
      var n := PyInt(v);
      if n.Ok? then Ok(Numerals.FormatInt(n.value)) else Err(n.error)
  }

  /** The wire texts each converter reproduces exactly. */
  predicate CanonicalWire(c: Converter, wire: string) {
    match c
    case Boolean => wire == "TRUE" || wire == "FALSE"
    case Unicode => true
    case IA5String => true
    case Integer => CanonicalDecimal(wire)
    case NumericString => CanonicalDecimal(wire)
  }

  predicate CanonicalDecimal(wire: string) {
    var n := Numerals.ParseInt(wire);
    n.Some? && Numerals.FormatInt(n.value) == wire
  }

  /** The Python values each converter produces. */
  predicate InRange(c: Converter, v: Value) {
    match c
    case Boolean => v.Bool?
    case Unicode => v.Str?
    case IA5String => v.Str?
    case Integer => v.Int?
    case NumericString => v.Str? && CanonicalDecimal(v.s)
  }

  /** Wire to value and back gives the wire text again, for canonical text,
      and the value is of the converter's kind. */
  lemma WireRoundTrip(c: Converter, wire: string)
    requires CanonicalWire(c, wire)
    ensures LdapToPython(c, wire).Ok? && InRange(c, LdapToPython(c, wire).value)
    ensures PythonToLdap(c, LdapToPython(c, wire).value) == Ok(wire)
  {
    if c.NumericString? {
      Numerals.ParseIdempotent(wire);
    }
  }

  /** Value to wire and back gives the value again. */
  lemma ValueRoundTrip(c: Converter, v: Value)
    requires InRange(c, v)
    ensures PythonToLdap(c, v).Ok?
    ensures LdapToPython(c, PythonToLdap(c, v).value) == Ok(v)
  {
    match c
    case Integer => Numerals.ParseFormat(v.i);
    case NumericString => Numerals.ParseIdempotent(v.s);
    case _ =>
  }

  /** Boolean is lossy: any wire text but "TRUE" decodes to False and
      encodes back as "FALSE"; any value encodes as "TRUE" or "FALSE". */
  lemma BooleanLossy(wire: string, v: Value)
    ensures LdapToPython(Boolean, wire) == Ok(Bool(wire == "TRUE"))
    ensures wire != "TRUE" ==> PythonToLdap(Boolean, LdapToPython(Boolean, wire).value) == Ok("FALSE")
    ensures PythonToLdap(Boolean, v) == Ok("TRUE") || PythonToLdap(Boolean, v) == Ok("FALSE")
  {
  }

  /** NumericString normalises: converting its own output changes nothing. */
  lemma NumericStringIdempotent(wire: string, text: string)
    requires LdapToPython(NumericString, wire) == Ok(Str(text))
    ensures LdapToPython(NumericString, text) == Ok(Str(text))
    ensures PythonToLdap(NumericString, Str(text)) == Ok(text)
  {
    var n := Numerals.ParseInt(wire).value;
    assert text == Numerals.FormatInt(n);
    NumericStringDecodeFixed(n, text);
    NumericStringEncodeFixed(n, text);
  }

  lemma NumericStringDecodeFixed(n: int, text: string)
    requires text == Numerals.FormatInt(n)
    ensures LdapToPython(NumericString, text) == Ok(Str(text))
  {
    Numerals.ParseFormat(n);
  }

  lemma NumericStringEncodeFixed(n: int, text: string)
    requires text == Numerals.FormatInt(n)
    ensures PythonToLdap(NumericString, Str(text)) == Ok(text)
  {
    Numerals.ParseFormat(n);
  }

  /** The Integer converter fails exactly on text int() rejects. */
  lemma IntegerErrors(wire: string)
    ensures LdapToPython(Integer, wire).Err? <==> Numerals.ParseInt(wire).None?
    ensures LdapToPython(NumericString, wire).Err? <==> Numerals.ParseInt(wire).None?
  {
  }
}
