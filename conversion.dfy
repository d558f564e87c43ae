/** LdapMapper.map_ldap_to_python and map_python_to_ldap: list-wise value
    conversion through an attribute's converter, or none at all. */
module Conversion {
  import opened Wrappers
  import opened Values
  import opened SyntaxTypes
  import opened ObjectDefinitions

  /** Field values of a mapped instance, by attribute name ("dn" included). */
  type Attrs = map<string, Value>

  /** getattr(obj, name, None): an absent field reads as None. */
  function GetAttr(attrs: Attrs, name: string): Value {
    if name in attrs then attrs[name] else Null
  }

  /** obj.dn; a missing (or non-text) dn raises AttributeError. */
  function DnOf(attrs: Attrs): (r: PyResult<string>)
    ensures r.Ok? <==> "dn" in attrs && attrs["dn"].Str?
    ensures r.Ok? ==> attrs["dn"] == Str(r.value)
  {
    if "dn" in attrs && attrs["dn"].Str? then Ok(attrs["dn"].s) else Err(AttributeError)
  }

  /** Wire values as Python sees them unconverted: a list of strings. */
  function WireValues(wires: seq<string>): (r: seq<Value>)
    ensures |r| == |wires| && forall i :: 0 <= i < |wires| ==> r[i] == Str(wires[i])
  {
    seq(|wires|, i requires 0 <= i < |wires| => Str(wires[i]))
  }

  /** [c.ldap_to_python(v) for v in wires]. */
  function ConvertFromWire(c: Converter, wires: seq<string>): (r: PyResult<seq<Value>>)
    ensures r.Ok? <==> forall i :: 0 <= i < |wires| ==> LdapToPython(c, wires[i]).Ok?
    ensures r.Ok? ==> |r.value| == |wires|
    ensures r.Ok? ==> forall i :: 0 <= i < |wires| ==> r.value[i] == LdapToPython(c, wires[i]).value
  {
    if wires == [] then Ok([])
    else
      var head := LdapToPython(c, wires[0]);
      if head.Err? then Err(head.error)
      else
        var rest := ConvertFromWire(c, wires[1..]);
        if rest.Err? then
          assert exists i :: 1 <= i < |wires| && LdapToPython(c, wires[i]).Err? by {
            var j :| 0 <= j < |wires[1..]| && LdapToPython(c, wires[1..][j]).Err?;
            assert wires[1..][j] == wires[j + 1];
          }
          Err(rest.error)
        else
          assert forall i :: 1 <= i < |wires| ==> wires[i] == wires[1..][i - 1];
          Ok([head.value] + rest.value)
  }

  /** [c.python_to_ldap(v) for v in values]. */
  function ConvertToWire(c: Converter, values: seq<Value>): (r: PyResult<seq<string>>)
    ensures r.Ok? <==> forall i :: 0 <= i < |values| ==> PythonToLdap(c, values[i]).Ok?
    ensures r.Ok? ==> |r.value| == |values|
    ensures r.Ok? ==> forall i :: 0 <= i < |values| ==> r.value[i] == PythonToLdap(c, values[i]).value
  {
    if values == [] then Ok([])
    else
      var head := PythonToLdap(c, values[0]);
      if head.Err? then Err(head.error)
      else
        var rest := ConvertToWire(c, values[1..]);
        if rest.Err? then
          assert exists i :: 1 <= i < |values| && PythonToLdap(c, values[i]).Err? by {
            var j :| 0 <= j < |values[1..]| && PythonToLdap(c, values[1..][j]).Err?;
            assert values[1..][j] == values[j + 1];
          }
          Err(rest.error)
        else
          assert forall i :: 1 <= i < |values| ==> values[i] == values[1..][i - 1];
          Ok([head.value] + rest.value)
  }

  /** Whether values pass through a definition's converter: only with a
      schema and a converter for the attribute's syntax. */
  predicate Converts(hasSchema: bool, a: AttributeDefinition) {
    hasSchema && a.mapper.Some?
  }

  /** map_ldap_to_python: without a schema or a converter the wire list
      itself; otherwise each value converted, in order. */
  function MapLdapToPython(hasSchema: bool, a: AttributeDefinition, wires: seq<string>): (r: PyResult<seq<Value>>)
    ensures r.Ok? ==> |r.value| == |wires|
    ensures !Converts(hasSchema, a) ==> r.Ok? && forall i :: 0 <= i < |wires| ==> r.value[i] == Str(wires[i])
    ensures r.Err? <==> Converts(hasSchema, a) && exists i :: 0 <= i < |wires| && LdapToPython(a.mapper.value, wires[i]).Err?
    ensures Converts(hasSchema, a) && r.Ok? ==>
      forall i :: 0 <= i < |wires| ==>
        LdapToPython(a.mapper.value, wires[i]).Ok? && r.value[i] == LdapToPython(a.mapper.value, wires[i]).value
  {
    if !hasSchema then Ok(WireValues(wires))
    else if a.mapper.None? then Ok(WireValues(wires))
    else ConvertFromWire(a.mapper.value, wires)
  }

  /** map_python_to_ldap: without a schema or a converter the value itself;
      otherwise a list of each item of the value converted, in order (the
      items of a string are its characters; None, a bool or an int is not
      iterable and raises TypeError). */
  function MapPythonToLdap(hasSchema: bool, a: AttributeDefinition, v: Value): (r: PyResult<Value>)
    ensures !Converts(hasSchema, a) ==> r == Ok(v)
    ensures Converts(hasSchema, a) && r.Ok? ==> Iterate(v).Ok? && r.value.List? && |r.value.items| == |Iterate(v).value|
    ensures Converts(hasSchema, a) ==>
      (r.Err? <==> (Iterate(v).Err? || exists i :: 0 <= i < |Iterate(v).value| && PythonToLdap(a.mapper.value, Iterate(v).value[i]).Err?))
    ensures Converts(hasSchema, a) && r.Ok? ==> forall i :: 0 <= i < |Iterate(v).value| ==>
      PythonToLdap(a.mapper.value, Iterate(v).value[i]).Ok? &&
      r.value.items[i] == Str(PythonToLdap(a.mapper.value, Iterate(v).value[i]).value)
  {
    if !hasSchema then Ok(v)
    else if a.mapper.None? then Ok(v)
    else
      var items := Iterate(v);
      if items.Err? then Err(items.error)
      else
        var wires := ConvertToWire(a.mapper.value, items.value);
        if wires.Err? then Err(wires.error) else Ok(List(WireValues(wires.value)))
  }

  /** What add and modify hand to map_python_to_ldap: a single value wrapped
      in a one-element list, a multi-valued field as it is. */
  function Wrap(a: AttributeDefinition, v: Value): (r: Value)
    ensures !a.multi ==> r == List([v])
    ensures a.multi ==> r == v
  {
    if a.multi then v else List([v])
  }

  /** A single-valued field goes out as a list of exactly one value: the
      field itself when no conversion applies, and otherwise its wire text,
      failing exactly when the converter rejects it. */
  lemma SingleSentAsOne(hasSchema: bool, a: AttributeDefinition, v: Value)
    requires !a.multi
    ensures !Converts(hasSchema, a) ==> MapPythonToLdap(hasSchema, a, Wrap(a, v)) == Ok(List([v]))
    ensures Converts(hasSchema, a) ==>
      (MapPythonToLdap(hasSchema, a, Wrap(a, v)).Err? <==> PythonToLdap(a.mapper.value, v).Err?)
    ensures Converts(hasSchema, a) && MapPythonToLdap(hasSchema, a, Wrap(a, v)).Ok? ==>
      MapPythonToLdap(hasSchema, a, Wrap(a, v)).value == List([Str(PythonToLdap(a.mapper.value, v).value)])
  {
    if Converts(hasSchema, a) {
      var r := MapPythonToLdap(hasSchema, a, Wrap(a, v));
      assert Iterate(List([v])) == Ok([v]);
      if r.Ok? {
        assert |r.value.items| == 1;
      }
    }
  }
}
