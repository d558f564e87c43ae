/** LdapMapper: the registration table and the operations on mapped
    instances. The server is not a field: the reads it answers are
    parameters (the directory, or a search's results) and the writes it
    receives are the requests the operations return. */
module LdapMapper {
  import opened Wrappers
  import opened Values
  import opened Dn
  import LdapSchema
  import opened ObjectDefinitions
  import opened Conversion
  import opened Building
  import opened Writing
  import opened Renaming

  /** The directory the server holds: dn to entry. */
  type Directory = map<string, Entry>

  /** An instance of a mapped type: the name of its type and its fields,
      "dn" among them. */
  class MappedObject {
    const cls: string
    var attrs: Attrs

    constructor (cls: string, attrs: Attrs)
      ensures this.cls == cls && this.attrs == attrs
    {
      this.cls := cls;
      this.attrs := attrs;
    }
  }

  /** passwd_s(dn, oldpw, newpw). */
  datatype PasswdCall = PasswdCall(dn: string, oldPasswd: string, newPasswd: string)

  class Mapper {
    const schema: Option<LdapSchema.Schema>
    var objdefs: map<string, ObjectDefinition>

    constructor (schema: Option<LdapSchema.Schema>)
      ensures this.schema == schema && objdefs == map[]
    {
      this.schema := schema;
      objdefs := map[];
    }

    /** register: schemarize the definition when there is a schema, then
        store it for the type (replacing any earlier one). */
    method Register(cls: string, def: ObjectDefinition)
      modifies this, def
      ensures objdefs == old(objdefs)[cls := def]
      ensures schema.None? ==> def.attrlist == old(def.attrlist)
      ensures schema.Some? ==> |def.attrlist| == |old(def.attrlist)|
      ensures schema.Some? ==>
        forall i :: 0 <= i < |def.attrlist| ==> def.attrlist[i] == SchemarizeAttribute(old(def.attrlist)[i], schema.value)
    {
      if schema.Some? {
        def.Schemarize(schema.value);
      }
      objdefs := objdefs[cls := def];
    }

    /** unregister: KeyError for a type that is not registered. */
    method Unregister(cls: string) returns (err: Option<Error>)
      modifies this
      ensures cls in old(objdefs) ==> err == None && objdefs == old(objdefs) - {cls}
      ensures cls !in old(objdefs) ==> err == Some(KeyError(cls)) && objdefs == old(objdefs)
    {
      if cls !in objdefs {
        return Some(KeyError(cls));
      }
      objdefs := objdefs - {cls};
      return None;
    }

    /** new_object: a fresh instance whose declared fields hold their
        defaults; KeyError for a type that is not registered. */
    method NewObject(cls: string) returns (r: PyResult<MappedObject>)
      ensures cls !in objdefs ==> r == Err(KeyError(cls))
      ensures cls in objdefs ==>
        r.Ok? && fresh(r.value) && r.value.cls == cls && r.value.attrs == DefaultAttrs(objdefs[cls].attrlist)
    {
      if cls !in objdefs {
        return Err(KeyError(cls));
      }
      var defs := objdefs[cls].attrlist;
      var obj := new MappedObject(cls, map[]);
      var i := 0;
      while i < |defs|
        invariant 0 <= i <= |defs|
        invariant obj.attrs == DefaultAttrs(defs[..i])
      {
        var a := defs[i];
        assert defs[..i + 1][..i] == defs[..i];
        obj.attrs := obj.attrs[a.name := Default(a)];
        i := i + 1;
      }
      assert defs[..i] == defs;
      return Ok(obj);
    }

    /** build: a fresh instance with the fields BuildAttrs gives, or the
        error it raises; KeyError for a type that is not registered. */
    method Build(cls: string, dn: string, entry: Entry) returns (r: PyResult<MappedObject>)
      ensures cls !in objdefs ==> r == Err(KeyError(cls))
      ensures cls in objdefs ==>
        var b := BuildAttrs(schema.Some?, objdefs[cls].attrlist, dn, entry);
        (r.Ok? <==> b.Ok?) && (r.Err? ==> r.error == b.error) &&
        (r.Ok? ==> fresh(r.value) && r.value.cls == cls && r.value.attrs == b.value)
    {
      if cls !in objdefs {
        return Err(KeyError(cls));
      }
      var defs := objdefs[cls].attrlist;
      var made := NewObject(cls);
      var obj := made.value;
      obj.attrs := obj.attrs["dn" := Str(dn)];
      var err := FillFields(obj, defs, entry);
      if err.Some? {
        return Err(err.value);
      }
      return Ok(obj);
    }

    /** build's loop: the definitions in order, each stored into the
        instance as BuildValue says; the first failing one stops the loop
        with its error. */
    method FillFields(obj: MappedObject, defs: seq<AttributeDefinition>, entry: Entry) returns (err: Option<Error>)
      modifies obj
      ensures var f := Fill(schema.Some?, defs, entry, old(obj.attrs));
        (err.None? <==> f.Ok?) && (err.Some? ==> f.error == err.value) && (f.Ok? ==> obj.attrs == f.value)
    {
      ghost var start := obj.attrs;
      var i := 0;
      while i < |defs|
        invariant 0 <= i <= |defs|
        invariant Fill(schema.Some?, defs[..i], entry, start) == Ok(obj.attrs)
      {
        FillStep(schema.Some?, defs, entry, start, i);
        var value := BuildStep(defs[i], entry);
        if value.Err? {
          FillFailsEarly(schema.Some?, defs, entry, start, i + 1);
          return Some(value.error);
        }
        if value.value.Some? {
          obj.attrs := obj.attrs[defs[i].name := value.value.value];
        }
        i := i + 1;
      }
      assert defs[..i] == defs;
      return None;
    }

    /** The body of build's loop for one definition: look the attribute up
        (KeyError, re-raised only when required), convert it, and take the
        first value when single-valued (IndexError when there is none). */
    method BuildStep(a: AttributeDefinition, entry: Entry) returns (r: PyResult<Option<Value>>)
      ensures r == BuildValue(schema.Some?, a, entry)
    {
      if a.name !in entry {
        if a.must {
          return Err(KeyError(a.name));
        }
        return Ok(None);
      }
      var values := MapLdapToPython(schema.Some?, a, entry[a.name]);
      if values.Err? {
        return Err(values.error);
      }
      if a.multi {
        return Ok(Some(List(values.value)));
      }
      if |values.value| == 0 {
        return Err(IndexError);
      }
      return Ok(Some(values.value[0]));
    }

    /** Whether build succeeds on every result of a search. */
    predicate BuildsAll(cls: string, results: seq<(string, Entry)>)
      reads this, objdefs.Values
    {
      cls in objdefs && forall k :: 0 <= k < |results| ==>
        BuildAttrs(schema.Some?, objdefs[cls].attrlist, results[k].0, results[k].1).Ok?
    }

    /** search: one built instance per result, in result order; no results
        give an empty list, registered type or not. */
    method Search(cls: string, results: seq<(string, Entry)>) returns (r: PyResult<seq<MappedObject>>)
      ensures results == [] ==> r == Ok([])
      ensures r.Ok? <==> results == [] || BuildsAll(cls, results)
      ensures results != [] && cls !in objdefs ==> r == Err(KeyError(cls))
      ensures r.Ok? ==> |r.value| == |results|
      ensures r.Ok? && results != [] ==>
        forall k :: 0 <= k < |results| ==>
          fresh(r.value[k]) && r.value[k].cls == cls &&
          r.value[k].attrs == BuildAttrs(schema.Some?, objdefs[cls].attrlist, results[k].0, results[k].1).value
    {
      var objects: seq<MappedObject> := [];
      var i := 0;
      while i < |results|
        invariant 0 <= i <= |results| && |objects| == i
        invariant i > 0 ==> cls in objdefs
        invariant forall k :: 0 <= k < i ==>
          BuildAttrs(schema.Some?, objdefs[cls].attrlist, results[k].0, results[k].1).Ok? &&
          fresh(objects[k]) && objects[k].cls == cls &&
          objects[k].attrs == BuildAttrs(schema.Some?, objdefs[cls].attrlist, results[k].0, results[k].1).value
      {
        var built := Build(cls, results[i].0, results[i].1);
        if built.Err? {
          return Err(built.error);
        }
        objects := objects + [built.value];
        i := i + 1;
      }
      return Ok(objects);
    }

    /** load: build from the entry at dn; NoSuchObject when there is none. */
    method Load(cls: string, directory: Directory, dn: string) returns (r: PyResult<MappedObject>)
      ensures dn !in directory ==> r == Err(NoSuchObject)
      ensures dn in directory && cls !in objdefs ==> r == Err(KeyError(cls))
      ensures dn in directory && cls in objdefs ==>
        var b := BuildAttrs(schema.Some?, objdefs[cls].attrlist, dn, directory[dn]);
        (r.Ok? <==> b.Ok?) && (r.Err? ==> r.error == b.error) &&
        (r.Ok? ==> fresh(r.value) && r.value.cls == cls && r.value.attrs == b.value)
    {
      if dn !in directory {
        return Err(NoSuchObject);
      }
      r := Build(cls, dn, directory[dn]);
    }

    /** load_parent: load the entry at the parent of the instance's dn. */
    method LoadParent(cls: string, obj: MappedObject, directory: Directory) returns (r: PyResult<MappedObject>)
      ensures DnOf(obj.attrs).Err? ==> r == Err(AttributeError)
      ensures DnOf(obj.attrs).Ok? ==>
        var dn := ParentDn(DnOf(obj.attrs).value);
        (dn !in directory ==> r == Err(NoSuchObject)) &&
        (dn in directory && cls !in objdefs ==> r == Err(KeyError(cls))) &&
        (dn in directory && cls in objdefs ==>
          var b := BuildAttrs(schema.Some?, objdefs[cls].attrlist, dn, directory[dn]);
          (r.Ok? <==> b.Ok?) && (r.Err? ==> r.error == b.error) &&
          (r.Ok? ==> fresh(r.value) && r.value.cls == cls && r.value.attrs == b.value))
    {
      var dn := DnOf(obj.attrs);
      if dn.Err? {
        return Err(dn.error);
      }
      r := Load(cls, directory, ParentDn(dn.value));
    }

    /** add: the request AddRequestFor gives for the instance's definition;
        KeyError for an unregistered type. */
    method Add(obj: MappedObject) returns (r: PyResult<AddRequest>)
      ensures obj.cls !in objdefs ==> r == Err(KeyError(obj.cls))
      ensures obj.cls in objdefs ==>
        r == AddRequestFor(schema.Some?, objdefs[obj.cls].oclist, objdefs[obj.cls].attrlist, obj.attrs)
    {
      if obj.cls !in objdefs {
        return Err(KeyError(obj.cls));
      }
      var def := objdefs[obj.cls];
      var items := CollectItems(def.attrlist, obj.attrs);
      if items.Err? {
        return Err(items.error);
      }
      var dn := DnOf(obj.attrs);
      if dn.Err? {
        return Err(dn.error);
      }
      return Ok(AddRequest(dn.value, [("objectClass", ClassesValue(def.oclist))] + items.value));
    }

    /** add's loop: a pair for every definition that is not objectclass and
        whose field is not None, converted; the first conversion that fails
        stops the loop with its error. */
    method CollectItems(defs: seq<AttributeDefinition>, attrs: Attrs) returns (r: PyResult<seq<Item>>)
      ensures r == AddItems(schema.Some?, defs, attrs)
    {
      var items: seq<Item> := [];
      var i := 0;
      while i < |defs|
        invariant 0 <= i <= |defs|
        invariant AddItems(schema.Some?, defs[..i], attrs) == Ok(items)
      {
        var a := defs[i];
        AddItemsStep(schema.Some?, defs, attrs, i);
        if !Text.IsObjectClassName(a.name) {
          var value := GetAttr(attrs, a.name);
          if value != Null {
            var sent := MapPythonToLdap(schema.Some?, a, Wrap(a, value));
            if sent.Err? {
              AddItemsFailEarly(schema.Some?, defs, attrs, i + 1);
              return Err(sent.error);
            }
            items := items + [(a.name, sent.value)];
          }
        }
        i := i + 1;
      }
      assert defs[..i] == defs;
      return Ok(items);
    }

    /** modify: the instance's dn (AttributeError when missing), the entry
        there (NoSuchObject when none), the type's definition (KeyError when
        unregistered), then the modifications ModifyOps gives. */
    method Modify(obj: MappedObject, directory: Directory) returns (r: PyResult<ModifyRequest>)
      ensures DnOf(obj.attrs).Err? ==> r == Err(AttributeError)
      ensures DnOf(obj.attrs).Ok? && DnOf(obj.attrs).value !in directory ==> r == Err(NoSuchObject)
      ensures DnOf(obj.attrs).Ok? && DnOf(obj.attrs).value in directory && obj.cls !in objdefs ==> r == Err(KeyError(obj.cls))
      ensures DnOf(obj.attrs).Ok? && DnOf(obj.attrs).value in directory && obj.cls in objdefs ==>
        var ops := ModifyOps(schema.Some?, objdefs[obj.cls].oclist, objdefs[obj.cls].attrlist, obj.attrs, directory[DnOf(obj.attrs).value]);
        (r.Ok? <==> ops.Ok?) && (r.Err? ==> r.error == ops.error) &&
        (r.Ok? ==> r.value == ModifyRequest(DnOf(obj.attrs).value, ops.value))
    {
      var dn := DnOf(obj.attrs);
      if dn.Err? {
        return Err(dn.error);
      }
      if dn.value !in directory {
        return Err(NoSuchObject);
      }
      var fetched := directory[dn.value];
      if obj.cls !in objdefs {
        return Err(KeyError(obj.cls));
      }
      var def := objdefs[obj.cls];
      var ops := CollectOps(def.oclist, def.attrlist, obj.attrs, fetched);
      if ops.Err? {
        return Err(ops.error);
      }
      return Ok(ModifyRequest(dn.value, ops.value));
    }

    /** modify's loop: the operations of each definition in order; the first
        definition that fails stops the loop with its error. */
    method CollectOps(oclist: seq<string>, defs: seq<AttributeDefinition>, attrs: Attrs, fetched: Entry)
      returns (r: PyResult<seq<ModOp>>)
      ensures r == ModifyOps(schema.Some?, oclist, defs, attrs, fetched)
    {
      var oplist: seq<ModOp> := [];
      var i := 0;
      while i < |defs|
        invariant 0 <= i <= |defs|
        invariant ModifyOps(schema.Some?, oclist, defs[..i], attrs, fetched) == Ok(oplist)
      {
        ModifyOpsStep(schema.Some?, oclist, defs, attrs, fetched, i);
        var step := AttributeStep(defs[i], oclist, attrs, fetched);
        if step.Err? {
          ModifyOpsFailEarly(schema.Some?, oclist, defs, attrs, fetched, i + 1);
          return Err(step.error);
        }
        oplist := oplist + step.value;
        i := i + 1;
      }
      assert defs[..i] == defs;
      return Ok(oplist);
    }

    /** The body of modify's loop for one definition: objectclass is
        compared after sorting; another field is replaced or added when set
        and deleted when None but present on the server. */
    method AttributeStep(a: AttributeDefinition, oclist: seq<string>, attrs: Attrs, fetched: Entry)
      returns (r: PyResult<seq<ModOp>>)
      ensures r == AttributeOps(schema.Some?, a, oclist, attrs, fetched)
    {
      var value := GetAttr(attrs, a.name);
      if Text.IsObjectClassName(a.name) {
        var items := Iterate(value);
        if items.Err? {
          return Err(items.error);
        }
        var oc1 := StringOrder.Sort(oclist);
        if AllStr(items.value) && StringOrder.Sort(Texts(items.value)) == oc1 {
          return Ok([]);
        }
        return Ok([ModReplace(a.name, List(WireValues(oc1)))]);
      }
      if value != Null {
        var sent := MapPythonToLdap(schema.Some?, a, Wrap(a, value));
        if sent.Err? {
          return Err(sent.error);
        }
        if a.name in fetched {
          return Ok([ModReplace(a.name, sent.value)]);
        }
        return Ok([ModAdd(a.name, sent.value)]);
      }
      if a.name in fetched {
        return Ok([ModDelete(a.name)]);
      }
      return Ok([]);
    }

    /** delete: delete_s on the instance's dn. */
    method Delete(obj: MappedObject) returns (r: PyResult<string>)
      ensures r == DnOf(obj.attrs)
    {
      r := DnOf(obj.attrs);
    }

    /** passwd: passwd_s on the instance's dn. */
    method Passwd(obj: MappedObject, oldPasswd: string, newPasswd: string) returns (r: PyResult<PasswdCall>)
      ensures DnOf(obj.attrs).Err? ==> r == Err(AttributeError)
      ensures DnOf(obj.attrs).Ok? ==> r == Ok(PasswdCall(DnOf(obj.attrs).value, oldPasswd, newPasswd))
    {
      var dn := DnOf(obj.attrs);
      if dn.Err? {
        return Err(dn.error);
      }
      return Ok(PasswdCall(dn.value, oldPasswd, newPasswd));
    }

    /** rename: the call sent and the instance's new fields as RenameOf
        gives them. */
    method Rename(obj: MappedObject, newRdn: string, newSdn: Option<string>, delold: bool)
      returns (call: Option<RenameCall>, err: Option<Error>)
      modifies obj
      ensures RenameOf(old(obj.attrs), newRdn, newSdn, delold) == RenameOutcome(call, obj.attrs, err)
    {
      var dn := DnOf(obj.attrs);
      if dn.Err? {
        return None, Some(dn.error);
      }
      var (oldRdn, oldSdn) := SplitDn(dn.value);
      var sdn := newSdn;
      if Given(sdn) && oldSdn == sdn.value {
        sdn := None;
      }
      call := Some(RenameCall(dn.value, newRdn, sdn, delold));
      var superior := if Given(sdn) then sdn.value else oldSdn;
      var oldAttr := Text.SplitOn(oldRdn, '=');
      var newAttr := Text.SplitOn(newRdn, '=');
      if delold {
        if oldAttr[0] !in obj.attrs {
          return call, Some(AttributeError);
        }
        obj.attrs := obj.attrs - {oldAttr[0]};
      }
      if |newAttr| < 2 {
        return call, Some(IndexError);
      }
      obj.attrs := obj.attrs[newAttr[0] := Str(newAttr[1])];
      obj.attrs := obj.attrs["dn" := Str(newRdn + "," + superior)];
      err := None;
    }
  }
}
