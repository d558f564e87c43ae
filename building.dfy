/** LdapMapper.new_object and LdapMapper.build on values: the fields a fresh
    instance starts with and the fields built from a directory entry. */
module Building {
  import opened Wrappers
  import opened Values
  import opened ObjectDefinitions
  import opened Conversion

  /** A directory entry as the server returns it: attribute name to its
      list of wire values. */
  type Entry = map<string, seq<string>>

  /** No two definitions share a name. */
  predicate UniqueNames(defs: seq<AttributeDefinition>) {
    forall i, j :: 0 <= i < j < |defs| ==> defs[i].name != defs[j].name
  }

  predicate Declares(defs: seq<AttributeDefinition>, name: string) {
    exists i :: 0 <= i < |defs| && defs[i].name == name
  }

  /** A name the definitions before the last declare, they all declare. */
  lemma DeclaresInit(defs: seq<AttributeDefinition>)
    requires defs != []
    ensures forall n :: Declares(defs[..|defs| - 1], n) ==> Declares(defs, n)
  {
    var init := defs[..|defs| - 1];
    forall n | Declares(init, n) ensures Declares(defs, n) {
      var i :| 0 <= i < |init| && init[i].name == n;
      assert defs[i] == init[i];
    }
  }

  /** The field new_object gives a definition: [] when multi-valued, None otherwise. */
  function Default(a: AttributeDefinition): (v: Value)
    ensures v == Null <==> !a.multi
    ensures a.multi ==> v == List([])
  {
    if a.multi then List([]) else Null
  }

  /** The fields after new_object's loop over the definitions in order. */
  function DefaultAttrs(defs: seq<AttributeDefinition>): (r: Attrs)
    ensures forall n :: n in r <==> Declares(defs, n)
  {
    if defs == [] then map[]
    else
      var init := defs[..|defs| - 1];
      var r := DefaultAttrs(init)[defs[|defs| - 1].name := Default(defs[|defs| - 1])];
      assert forall n :: Declares(defs, n) <==> Declares(init, n) || n == defs[|defs| - 1].name by {
        forall n | Declares(defs, n) ensures Declares(init, n) || n == defs[|defs| - 1].name {
          var i :| 0 <= i < |defs| && defs[i].name == n;
          if i < |defs| - 1 { assert init[i] == defs[i]; }
        }
        forall n | Declares(init, n) ensures Declares(defs, n) {
          var i :| 0 <= i < |init| && init[i].name == n;
          assert defs[i] == init[i];
        }
      }
      r
  }

  /** Each declared field of a fresh instance holds its default. */
  lemma {:induction false} DefaultAttrsValues(defs: seq<AttributeDefinition>)
    requires UniqueNames(defs)
    ensures forall i :: 0 <= i < |defs| ==> DefaultAttrs(defs)[defs[i].name] == Default(defs[i])
  {
    if defs != [] {
      var init := defs[..|defs| - 1];
      assert UniqueNames(init) by {
        forall i, j | 0 <= i < j < |init| ensures init[i].name != init[j].name {
          assert init[i] == defs[i] && init[j] == defs[j];
        }
      }
      DefaultAttrsValues(init);
      forall i | 0 <= i < |defs| - 1 ensures DefaultAttrs(defs)[defs[i].name] == Default(defs[i]) {
        assert init[i] == defs[i];
        assert defs[i].name != defs[|defs| - 1].name;
      }
    }
  }

  /** One step of build's loop. An absent attribute raises KeyError when
      required and otherwise leaves the field (None) untouched; a present
      one is converted and stored, as the list when multi-valued and as its
      first element (IndexError when there is none) otherwise. */
  function BuildValue(hasSchema: bool, a: AttributeDefinition, entry: Entry): (r: PyResult<Option<Value>>)
    ensures a.name !in entry ==> r == (if a.must then Err(KeyError(a.name)) else Ok(None))
    ensures a.name in entry ==> (r.Err? <==> MapLdapToPython(hasSchema, a, entry[a.name]).Err? || (!a.multi && entry[a.name] == []))
    ensures a.name in entry && !a.multi && entry[a.name] == [] ==> r == Err(IndexError)
    ensures a.name in entry && r.Ok? ==> r.value.Some? && MapLdapToPython(hasSchema, a, entry[a.name]).Ok?
    ensures a.name in entry && r.Ok? && a.multi ==> r.value.value == List(MapLdapToPython(hasSchema, a, entry[a.name]).value)
    ensures a.name in entry && r.Ok? && !a.multi ==> r.value.value == MapLdapToPython(hasSchema, a, entry[a.name]).value[0]
  {
    if a.name !in entry then (if a.must then Err(KeyError(a.name)) else Ok(None))
    else
      var values := MapLdapToPython(hasSchema, a, entry[a.name]);
      if values.Err? then Err(values.error)
      else if a.multi then Ok(Some(List(values.value)))
      else if |values.value| == 0 then Err(IndexError)
      else Ok(Some(values.value[0]))
  }

  /** build's loop over the definitions in order, from the given fields;
      the first failing definition raises. */
  function Fill(hasSchema: bool, defs: seq<AttributeDefinition>, entry: Entry, start: Attrs): (r: PyResult<Attrs>)
    ensures r.Ok? <==> forall i :: 0 <= i < |defs| ==> BuildValue(hasSchema, defs[i], entry).Ok?
    ensures r.Ok? ==> forall n :: n in start ==> n in r.value
    ensures r.Ok? ==> forall i :: 0 <= i < |defs| && BuildValue(hasSchema, defs[i], entry).value.Some? ==> defs[i].name in r.value
  {
    if defs == [] then Ok(start)
    else
      var init := defs[..|defs| - 1];
      var last := defs[|defs| - 1];
      var prev := Fill(hasSchema, init, entry, start);
      if prev.Err? then
        assert exists i :: 0 <= i < |init| && BuildValue(hasSchema, init[i], entry).Err?;
        Err(prev.error)
      else
        var v := BuildValue(hasSchema, last, entry);
        if v.Err? then Err(v.error)
        else
          assert forall i :: 0 <= i < |init| ==> init[i] == defs[i];
          Ok(if v.value.Some? then prev.value[last.name := v.value.value] else prev.value)
  }

  /** The fields build gives an instance of a type with these definitions,
      from the entry at `dn`. */
  function BuildAttrs(hasSchema: bool, defs: seq<AttributeDefinition>, dn: string, entry: Entry): PyResult<Attrs> {
    Fill(hasSchema, defs, entry, DefaultAttrs(defs)["dn" := Str(dn)])
  }

  /** build's loop adds no field but those of its definitions. */
  lemma {:induction false} FillKeys(hasSchema: bool, defs: seq<AttributeDefinition>, entry: Entry, start: Attrs)
    requires Fill(hasSchema, defs, entry, start).Ok?
    ensures forall n :: n in Fill(hasSchema, defs, entry, start).value ==> n in start || Declares(defs, n)
  {
    if defs != [] {
      var init := defs[..|defs| - 1];
      FillKeys(hasSchema, init, entry, start);
      DeclaresInit(defs);
    }
  }

  /** What build's loop leaves in each field: the stored value of every
      definition it stores, and the starting field everywhere else. */
  lemma {:induction false} FillValues(hasSchema: bool, defs: seq<AttributeDefinition>, entry: Entry, start: Attrs)
    requires UniqueNames(defs)
    requires Fill(hasSchema, defs, entry, start).Ok?
    ensures forall i :: 0 <= i < |defs| && BuildValue(hasSchema, defs[i], entry).value.Some? ==>
      Fill(hasSchema, defs, entry, start).value[defs[i].name] == BuildValue(hasSchema, defs[i], entry).value.value
    ensures forall n :: n in start && (forall i :: 0 <= i < |defs| && defs[i].name == n ==> BuildValue(hasSchema, defs[i], entry).value.None?) ==>
      Fill(hasSchema, defs, entry, start).value[n] == start[n]
  {
    if defs != [] {
      var init := defs[..|defs| - 1];
      var last := defs[|defs| - 1];
      assert forall i :: 0 <= i < |init| ==> init[i] == defs[i];
      assert UniqueNames(init);
      FillValues(hasSchema, init, entry, start);
      var prev := Fill(hasSchema, init, entry, start).value;
      var r := Fill(hasSchema, defs, entry, start).value;
      forall i | 0 <= i < |defs| && BuildValue(hasSchema, defs[i], entry).value.Some?
        ensures r[defs[i].name] == BuildValue(hasSchema, defs[i], entry).value.value
      {
        if i < |defs| - 1 {
          assert defs[i].name != last.name;
        }
      }
    }
  }

  /** build: the instance has its dn, every definition present in the entry
      holds its converted value (a list when multi-valued, the first value
      otherwise), and every other declared field keeps its new_object
      default. */
  lemma BuildFields(hasSchema: bool, defs: seq<AttributeDefinition>, dn: string, entry: Entry)
    requires UniqueNames(defs) && !Declares(defs, "dn")
    requires BuildAttrs(hasSchema, defs, dn, entry).Ok?
    ensures forall n :: n in BuildAttrs(hasSchema, defs, dn, entry).value <==> n == "dn" || Declares(defs, n)
    ensures BuildAttrs(hasSchema, defs, dn, entry).value["dn"] == Str(dn)
    ensures forall i :: 0 <= i < |defs| && defs[i].name in entry ==>
      BuildAttrs(hasSchema, defs, dn, entry).value[defs[i].name] ==
        if defs[i].multi then List(MapLdapToPython(hasSchema, defs[i], entry[defs[i].name]).value)
        else MapLdapToPython(hasSchema, defs[i], entry[defs[i].name]).value[0]
    ensures forall i :: 0 <= i < |defs| && defs[i].name !in entry ==>
      BuildAttrs(hasSchema, defs, dn, entry).value[defs[i].name] == Default(defs[i])
  {
    BuildKeys(hasSchema, defs, dn, entry);
    BuildPresent(hasSchema, defs, dn, entry);
    BuildUnstored(hasSchema, defs, dn, entry);
  }

  lemma BuildKeys(hasSchema: bool, defs: seq<AttributeDefinition>, dn: string, entry: Entry)
    requires BuildAttrs(hasSchema, defs, dn, entry).Ok?
    ensures forall n :: n in BuildAttrs(hasSchema, defs, dn, entry).value <==> n == "dn" || Declares(defs, n)
  {
    FillKeys(hasSchema, defs, entry, DefaultAttrs(defs)["dn" := Str(dn)]);
  }

  lemma BuildPresent(hasSchema: bool, defs: seq<AttributeDefinition>, dn: string, entry: Entry)
    requires UniqueNames(defs)
    requires BuildAttrs(hasSchema, defs, dn, entry).Ok?
    ensures forall i :: 0 <= i < |defs| && defs[i].name in entry ==>
      BuildAttrs(hasSchema, defs, dn, entry).value[defs[i].name] ==
        if defs[i].multi then List(MapLdapToPython(hasSchema, defs[i], entry[defs[i].name]).value)
        else MapLdapToPython(hasSchema, defs[i], entry[defs[i].name]).value[0]
  {
    FillValues(hasSchema, defs, entry, DefaultAttrs(defs)["dn" := Str(dn)]);
  }

  /** The fields build's loop does not store: dn and the absent ones. */
  lemma BuildUnstored(hasSchema: bool, defs: seq<AttributeDefinition>, dn: string, entry: Entry)
    requires UniqueNames(defs) && !Declares(defs, "dn")
    requires BuildAttrs(hasSchema, defs, dn, entry).Ok?
    ensures BuildAttrs(hasSchema, defs, dn, entry).value["dn"] == Str(dn)
    ensures forall i :: 0 <= i < |defs| && defs[i].name !in entry ==>
      BuildAttrs(hasSchema, defs, dn, entry).value[defs[i].name] == Default(defs[i])
  {
    var start := DefaultAttrs(defs)["dn" := Str(dn)];
    FillValues(hasSchema, defs, entry, start);
    DefaultAttrsValues(defs);
    var r := BuildAttrs(hasSchema, defs, dn, entry).value;
    forall i | 0 <= i < |defs| && defs[i].name !in entry ensures r[defs[i].name] == Default(defs[i]) {
      var n := defs[i].name;
      assert n != "dn";
      forall j | 0 <= j < |defs| && defs[j].name == n ensures BuildValue(hasSchema, defs[j], entry).value.None? {
        assert j == i;
      }
    }
  }

  /** build fails for a required attribute the entry lacks, and raises
      KeyError for that attribute once every earlier definition has built. */
  lemma BuildMissingRequired(hasSchema: bool, defs: seq<AttributeDefinition>, dn: string, entry: Entry, i: nat)
    requires i < |defs| && defs[i].must && defs[i].name !in entry
    ensures BuildAttrs(hasSchema, defs, dn, entry).Err?
    ensures (forall j :: 0 <= j < i ==> BuildValue(hasSchema, defs[j], entry).Ok?) ==>
      BuildAttrs(hasSchema, defs, dn, entry) == Err(KeyError(defs[i].name))
  {
    assert BuildValue(hasSchema, defs[i], entry) == Err(KeyError(defs[i].name));
    if forall j :: 0 <= j < i ==> BuildValue(hasSchema, defs[j], entry).Ok? {
      BuildFailsAt(hasSchema, defs, dn, entry, i);
    }
  }

  /** The first definition that fails decides build's error. */
  lemma BuildFailsAt(hasSchema: bool, defs: seq<AttributeDefinition>, dn: string, entry: Entry, i: nat)
    requires i < |defs| && BuildValue(hasSchema, defs[i], entry).Err?
    requires forall j :: 0 <= j < i ==> BuildValue(hasSchema, defs[j], entry).Ok?
    ensures BuildAttrs(hasSchema, defs, dn, entry) == Err(BuildValue(hasSchema, defs[i], entry).error)
  {
    var start := DefaultAttrs(defs)["dn" := Str(dn)];
    assert Fill(hasSchema, defs[..i], entry, start).Ok?;
    FillStep(hasSchema, defs, entry, start, i);
    FillFailsEarly(hasSchema, defs, entry, start, i + 1);
  }

  /** build raises IndexError for a single-valued attribute the entry holds
      with no values, once every earlier definition has built. */
  lemma BuildEmptySingle(hasSchema: bool, defs: seq<AttributeDefinition>, dn: string, entry: Entry, i: nat)
    requires i < |defs| && !defs[i].multi && defs[i].name in entry && entry[defs[i].name] == []
    requires forall j :: 0 <= j < i ==> BuildValue(hasSchema, defs[j], entry).Ok?
    ensures BuildAttrs(hasSchema, defs, dn, entry) == Err(IndexError)
  {
    assert BuildValue(hasSchema, defs[i], entry) == Err(IndexError);
    BuildFailsAt(hasSchema, defs, dn, entry, i);
  }

  /** build succeeds exactly when no required attribute is missing, no
      present single-valued attribute has an empty value list and every
      present value converts. */
  lemma BuildSucceeds(hasSchema: bool, defs: seq<AttributeDefinition>, dn: string, entry: Entry)
    ensures BuildAttrs(hasSchema, defs, dn, entry).Ok? <==>
      forall i :: 0 <= i < |defs| ==>
        if defs[i].name in entry then
          MapLdapToPython(hasSchema, defs[i], entry[defs[i].name]).Ok? && (defs[i].multi || entry[defs[i].name] != [])
        else !defs[i].must
  {
  }

  /** Once a prefix of the definitions fails, build's loop fails with that
      error. */
  lemma {:induction false} FillFailsEarly(hasSchema: bool, defs: seq<AttributeDefinition>, entry: Entry, start: Attrs, j: nat)
    requires j <= |defs| && Fill(hasSchema, defs[..j], entry, start).Err?
    ensures Fill(hasSchema, defs, entry, start) == Fill(hasSchema, defs[..j], entry, start)
    decreases |defs|
  {
    if j < |defs| {
      var init := defs[..|defs| - 1];
      assert init[..j] == defs[..j];
      FillFailsEarly(hasSchema, init, entry, start, j);
    } else {
      assert defs[..j] == defs;
    }
  }

  /** One more definition through build's loop. */
  lemma FillStep(hasSchema: bool, defs: seq<AttributeDefinition>, entry: Entry, start: Attrs, i: nat)
    requires i < |defs| && Fill(hasSchema, defs[..i], entry, start).Ok?
    ensures var prev := Fill(hasSchema, defs[..i], entry, start).value;
      var v := BuildValue(hasSchema, defs[i], entry);
      Fill(hasSchema, defs[..i + 1], entry, start) ==
        if v.Err? then Err(v.error)
        else if v.value.Some? then Ok(prev[defs[i].name := v.value.value])
        else Ok(prev)
  {
    assert defs[..i + 1][..i] == defs[..i];
  }
}
