/** LdapMapper.add and LdapMapper.modify on values: the request each sends
    to the server for an instance. */
module Writing {
  import opened Wrappers
  import opened Values
  import opened Text
  import opened StringOrder
  import opened ObjectDefinitions
  import opened Conversion
  import opened Building
  import opened SyntaxTypes

  /** One (attribute, values) pair of an add request. */
  type Item = (string, Value)

  /** The definitions add sends, in their order: not named objectclass (in
      any case) and not None on the instance. */
  function Sent(defs: seq<AttributeDefinition>, attrs: Attrs): (r: seq<AttributeDefinition>)
    ensures forall a :: a in r <==> a in defs && !IsObjectClassName(a.name) && GetAttr(attrs, a.name) != Null
  {
    if defs == [] then []
    else
      var init := defs[..|defs| - 1];
      var last := defs[|defs| - 1];
      assert defs == init + [last];
      Sent(init, attrs) + (if !IsObjectClassName(last.name) && GetAttr(attrs, last.name) != Null then [last] else [])
  }

  /** Whether add sends a definition's field. */
  predicate Sends(a: AttributeDefinition, attrs: Attrs) {
    !IsObjectClassName(a.name) && GetAttr(attrs, a.name) != Null
  }

  /** The positions of the definitions add sends, increasing; each one is
      sent, and SentIndicesComplete shows that every sent one is there. */
  function SentIndices(defs: seq<AttributeDefinition>, attrs: Attrs): (idx: seq<nat>)
    ensures forall k :: 0 <= k < |idx| ==> idx[k] < |defs| && Sends(defs[idx[k]], attrs)
    ensures forall k, l :: 0 <= k < l < |idx| ==> idx[k] < idx[l]
  {
    if defs == [] then []
    else
      var init, last := defs[..|defs| - 1], |defs| - 1;
      var prev := SentIndices(init, attrs);
      var idx := prev + (if Sends(defs[last], attrs) then [last] else []);
      assert forall k :: 0 <= k < |prev| ==> idx[k] == prev[k] && init[prev[k]] == defs[prev[k]];
      idx
  }

  /** Every position whose definition add sends is among those positions. */
  lemma {:induction false} SentIndicesComplete(defs: seq<AttributeDefinition>, attrs: Attrs)
    ensures forall i :: 0 <= i < |defs| && Sends(defs[i], attrs) ==> i in SentIndices(defs, attrs)
  {
    if defs != [] {
      var init := defs[..|defs| - 1];
      SentIndicesComplete(init, attrs);
      var prev := SentIndices(init, attrs);
      assert SentIndices(defs, attrs) == prev + (if Sends(defs[|defs| - 1], attrs) then [|defs| - 1] else []);
      forall i | 0 <= i < |init| && Sends(defs[i], attrs) ensures i in prev {
        assert init[i] == defs[i];
      }
    }
  }

  /** add sends the definitions at those positions, in that order: each
      sent definition once, in definition order. */
  lemma {:induction false} SentInOrder(defs: seq<AttributeDefinition>, attrs: Attrs)
    ensures |Sent(defs, attrs)| == |SentIndices(defs, attrs)|
    ensures forall k :: 0 <= k < |Sent(defs, attrs)| ==> Sent(defs, attrs)[k] == defs[SentIndices(defs, attrs)[k]]
  {
    if defs != [] {
      var init, last := defs[..|defs| - 1], defs[|defs| - 1];
      SentInOrder(init, attrs);
      var s0, i0 := Sent(init, attrs), SentIndices(init, attrs);
      assert Sent(defs, attrs) == s0 + (if Sends(last, attrs) then [last] else []);
      assert SentIndices(defs, attrs) == i0 + (if Sends(last, attrs) then [|defs| - 1] else []);
      forall k | 0 <= k < |Sent(defs, attrs)| ensures Sent(defs, attrs)[k] == defs[SentIndices(defs, attrs)[k]] {
        if k < |s0| {
          assert init[i0[k]] == defs[i0[k]];
        }
      }
    }
  }

  /** The pair add sends for a definition: the field, wrapped in a list
      when single-valued, through map_python_to_ldap. */
  function AddItem(hasSchema: bool, a: AttributeDefinition, attrs: Attrs): PyResult<Item> {
    var v := MapPythonToLdap(hasSchema, a, Wrap(a, GetAttr(attrs, a.name)));
    if v.Err? then Err(v.error) else Ok((a.name, v.value))
  }

  /** add's loop: one pair per sent definition, in order; the first
      conversion that fails raises. */
  function AddItems(hasSchema: bool, defs: seq<AttributeDefinition>, attrs: Attrs): (r: PyResult<seq<Item>>)
    ensures r.Ok? <==> forall k :: 0 <= k < |Sent(defs, attrs)| ==> AddItem(hasSchema, Sent(defs, attrs)[k], attrs).Ok?
    ensures r.Ok? ==> |r.value| == |Sent(defs, attrs)|
    ensures r.Ok? ==> forall k :: 0 <= k < |r.value| ==> r.value[k] == AddItem(hasSchema, Sent(defs, attrs)[k], attrs).value
  {
    if defs == [] then Ok([])
    else
      var init := defs[..|defs| - 1];
      var last := defs[|defs| - 1];
      var prev := AddItems(hasSchema, init, attrs);
      var sent := Sent(defs, attrs);
      assert Sent(init, attrs) == sent[..|Sent(init, attrs)|];
      if prev.Err? then
        Err(prev.error)
      else if IsObjectClassName(last.name) || GetAttr(attrs, last.name) == Null then
        assert sent == Sent(init, attrs);
        prev
      else
        var item := AddItem(hasSchema, last, attrs);
        assert sent == Sent(init, attrs) + [last];
        if item.Err? then Err(item.error) else Ok(prev.value + [item.value])
  }

  /** Once a prefix of the definitions fails, add's loop fails with that
      error. */
  lemma {:induction false} AddItemsFailEarly(hasSchema: bool, defs: seq<AttributeDefinition>, attrs: Attrs, j: nat)
    requires j <= |defs| && AddItems(hasSchema, defs[..j], attrs).Err?
    ensures AddItems(hasSchema, defs, attrs) == AddItems(hasSchema, defs[..j], attrs)
    decreases |defs|
  {
    if j < |defs| {
      var init := defs[..|defs| - 1];
      assert init[..j] == defs[..j];
      AddItemsFailEarly(hasSchema, init, attrs, j);
    } else {
      assert defs[..j] == defs;
    }
  }

  /** One more definition through add's loop. */
  lemma AddItemsStep(hasSchema: bool, defs: seq<AttributeDefinition>, attrs: Attrs, i: nat)
    requires i < |defs| && AddItems(hasSchema, defs[..i], attrs).Ok?
    ensures var prev := AddItems(hasSchema, defs[..i], attrs).value;
      AddItems(hasSchema, defs[..i + 1], attrs) ==
        if IsObjectClassName(defs[i].name) || GetAttr(attrs, defs[i].name) == Null then Ok(prev)
        else if AddItem(hasSchema, defs[i], attrs).Err? then Err(AddItem(hasSchema, defs[i], attrs).error)
        else Ok(prev + [AddItem(hasSchema, defs[i], attrs).value])
  {
    assert defs[..i + 1][..i] == defs[..i];
  }

  /** The object-class list as add sends it. */
  function ClassesValue(oclist: seq<string>): Value {
    List(WireValues(oclist))
  }

  /** add_s(dn, modlist). */
  datatype AddRequest = AddRequest(dn: string, modlist: seq<Item>)

  /** The request add sends: the object classes first, then the sent
      fields; the dn is read after the loop, so a conversion error wins
      over a missing dn. */
  function AddRequestFor(hasSchema: bool, oclist: seq<string>, defs: seq<AttributeDefinition>, attrs: Attrs): (r: PyResult<AddRequest>)
    ensures r.Ok? <==> AddItems(hasSchema, defs, attrs).Ok? && DnOf(attrs).Ok?
    ensures r.Ok? ==> r.value.dn == DnOf(attrs).value
    ensures r.Ok? ==> r.value.modlist == [("objectClass", ClassesValue(oclist))] + AddItems(hasSchema, defs, attrs).value
    ensures AddItems(hasSchema, defs, attrs).Err? ==> r == Err(AddItems(hasSchema, defs, attrs).error)
  {
    var items := AddItems(hasSchema, defs, attrs);
    if items.Err? then Err(items.error)
    else
      var dn := DnOf(attrs);
      if dn.Err? then Err(dn.error)
      else Ok(AddRequest(dn.value, [("objectClass", ClassesValue(oclist))] + items.value))
  }

  /** add: after the object classes, the request holds one pair per sent
      definition, in the order of Sent (which SentInOrder shows is
      definition order), carrying the field, a single value wrapped in a
      list, through map_python_to_ldap; without a conversion that is the
      field itself. */
  lemma AddSendsFields(hasSchema: bool, oclist: seq<string>, defs: seq<AttributeDefinition>, attrs: Attrs)
    requires AddRequestFor(hasSchema, oclist, defs, attrs).Ok?
    ensures var m := AddRequestFor(hasSchema, oclist, defs, attrs).value.modlist;
      |m| == 1 + |Sent(defs, attrs)| &&
      forall k :: 0 <= k < |Sent(defs, attrs)| ==> m[k + 1].0 == Sent(defs, attrs)[k].name
    ensures var m := AddRequestFor(hasSchema, oclist, defs, attrs).value.modlist;
      forall k :: 0 <= k < |Sent(defs, attrs)| && !Converts(hasSchema, Sent(defs, attrs)[k]) ==>
        m[k + 1].1 == Wrap(Sent(defs, attrs)[k], GetAttr(attrs, Sent(defs, attrs)[k].name))
    ensures var m := AddRequestFor(hasSchema, oclist, defs, attrs).value.modlist;
      forall k :: 0 <= k < |Sent(defs, attrs)| ==>
        MapPythonToLdap(hasSchema, Sent(defs, attrs)[k], Wrap(Sent(defs, attrs)[k], GetAttr(attrs, Sent(defs, attrs)[k].name))).Ok? &&
        m[k + 1].1 == MapPythonToLdap(hasSchema, Sent(defs, attrs)[k], Wrap(Sent(defs, attrs)[k], GetAttr(attrs, Sent(defs, attrs)[k].name))).value
  {
    var m := AddRequestFor(hasSchema, oclist, defs, attrs).value.modlist;
    forall k | 0 <= k < |Sent(defs, attrs)| ensures m[k + 1] == AddItems(hasSchema, defs, attrs).value[k] {
      assert m[1..][k] == m[k + 1];
    }
  }

  /** One modification of a modify request. */
  datatype ModOp = ModReplace(attr: string, values: Value) | ModAdd(attr: string, values: Value) | ModDelete(attr: string)

  predicate AllStr(vs: seq<Value>) {
    forall i :: 0 <= i < |vs| ==> vs[i].Str?
  }

  function Texts(vs: seq<Value>): (r: seq<string>)
    requires AllStr(vs)
    ensures |r| == |vs| && forall i :: 0 <= i < |vs| ==> vs[i] == Str(r[i])
  {
    seq(|vs|, i requires 0 <= i < |vs| => vs[i].s)
  }

  /** modify on the objectclass attribute: list(value) (TypeError for None or
      a scalar), and a replacement by the definition's classes, sorted,
      unless both sorted lists agree. */
  function ObjectClassOps(a: AttributeDefinition, oclist: seq<string>, v: Value): (r: PyResult<seq<ModOp>>)
    ensures r.Err? <==> Iterate(v).Err?
    ensures r.Err? ==> r.error == TypeError
    ensures r.Ok? ==> (r.value == [] <==> AllStr(Iterate(v).value) && multiset(Texts(Iterate(v).value)) == multiset(oclist))
    ensures r.Ok? && r.value != [] ==> exists sorted ::
      r.value == [ModReplace(a.name, List(WireValues(sorted)))] && Sorted(sorted) && multiset(sorted) == multiset(oclist)
  {
    var items := Iterate(v);
    if items.Err? then Err(items.error)
    else if AllStr(items.value) then
      SortEqualIff(Texts(items.value), oclist);
      if Sort(Texts(items.value)) == Sort(oclist) then Ok([])
      else Ok([ModReplace(a.name, List(WireValues(Sort(oclist))))])
    else
      assert !(AllStr(items.value));
      Ok([ModReplace(a.name, List(WireValues(Sort(oclist))))])
  }

  /** One step of modify's loop for a definition, given the entry fetched
      from the server. */
  function AttributeOps(hasSchema: bool, a: AttributeDefinition, oclist: seq<string>, attrs: Attrs, fetched: Entry): (r: PyResult<seq<ModOp>>)
    ensures r.Ok? ==> |r.value| <= 1 && forall k :: 0 <= k < |r.value| ==> r.value[k].attr == a.name
  {
    var v := GetAttr(attrs, a.name);
    if IsObjectClassName(a.name) then ObjectClassOps(a, oclist, v)
    else if v != Null then
      var values := MapPythonToLdap(hasSchema, a, Wrap(a, v));
      if values.Err? then Err(values.error)
      else if a.name in fetched then Ok([ModReplace(a.name, values.value)])
      else Ok([ModAdd(a.name, values.value)])
    else if a.name in fetched then Ok([ModDelete(a.name)])
    else Ok([])
  }

  /** modify's loop over the definitions in order; the first failing
      definition raises. */
  function ModifyOps(hasSchema: bool, oclist: seq<string>, defs: seq<AttributeDefinition>, attrs: Attrs, fetched: Entry): (r: PyResult<seq<ModOp>>)
    ensures r.Ok? <==> forall i :: 0 <= i < |defs| ==> AttributeOps(hasSchema, defs[i], oclist, attrs, fetched).Ok?
    ensures r.Ok? ==> forall k :: 0 <= k < |r.value| ==> Declares(defs, r.value[k].attr)
  {
    if defs == [] then Ok([])
    else
      var init := defs[..|defs| - 1];
      var last := defs[|defs| - 1];
      assert forall i :: 0 <= i < |init| ==> init[i] == defs[i];
      var prev := ModifyOps(hasSchema, oclist, init, attrs, fetched);
      if prev.Err? then Err(prev.error)
      else
        var ops := AttributeOps(hasSchema, last, oclist, attrs, fetched);
        if ops.Err? then Err(ops.error)
        else
          DeclaresInit(defs);
          Ok(prev.value + ops.value)
  }

  /** Once a prefix of the definitions fails, modify's loop fails with that
      error. */
  lemma {:induction false} ModifyOpsFailEarly(hasSchema: bool, oclist: seq<string>, defs: seq<AttributeDefinition>, attrs: Attrs, fetched: Entry, j: nat)
    requires j <= |defs| && ModifyOps(hasSchema, oclist, defs[..j], attrs, fetched).Err?
    ensures ModifyOps(hasSchema, oclist, defs, attrs, fetched) == ModifyOps(hasSchema, oclist, defs[..j], attrs, fetched)
    decreases |defs|
  {
    if j < |defs| {
      var init := defs[..|defs| - 1];
      assert init[..j] == defs[..j];
      ModifyOpsFailEarly(hasSchema, oclist, init, attrs, fetched, j);
    } else {
      assert defs[..j] == defs;
    }
  }

  /** One more definition through modify's loop. */
  lemma ModifyOpsStep(hasSchema: bool, oclist: seq<string>, defs: seq<AttributeDefinition>, attrs: Attrs, fetched: Entry, i: nat)
    requires i < |defs| && ModifyOps(hasSchema, oclist, defs[..i], attrs, fetched).Ok?
    ensures var prev := ModifyOps(hasSchema, oclist, defs[..i], attrs, fetched).value;
      var ops := AttributeOps(hasSchema, defs[i], oclist, attrs, fetched);
      ModifyOps(hasSchema, oclist, defs[..i + 1], attrs, fetched) ==
        if ops.Err? then Err(ops.error) else Ok(prev + ops.value)
  {
    assert defs[..i + 1][..i] == defs[..i];
  }

  /** modify_s(dn, modlist). */
  datatype ModifyRequest = ModifyRequest(dn: string, ops: seq<ModOp>)

  /** The attributes of a directory entry as values. */
  function EntryValues(entry: Entry): (r: Attrs)
    ensures r.Keys == entry.Keys
    ensures forall n :: n in entry ==> r[n] == List(WireValues(entry[n]))
  {
    map n | n in entry :: List(WireValues(entry[n]))
  }

  /** A value list with no values in it. */
  predicate NoValues(v: Value) {
    v == List([])
  }

  /** How the server applies one modification (section 4.6 of RFC 4511):
      replace sets the attribute, and with no values removes it (nothing
      happens when it is absent); add adds values, creating the attribute
      when it is absent; delete without values removes the attribute. An
      add of no values, which the server refuses, changes nothing here. */
  function ApplyOp(e: Attrs, op: ModOp): Attrs {
    match op
    case ModReplace(n, v) => if NoValues(v) then e - {n} else e[n := v]
    case ModAdd(n, v) =>
      if NoValues(v) then e
      else if n in e && e[n].List? && v.List? then e[n := List(e[n].items + v.items)] else e[n := v]
    case ModDelete(n) => e - {n}
  }

  function ApplyOps(e: Attrs, ops: seq<ModOp>): Attrs
    decreases |ops|
  {
    if ops == [] then e else ApplyOps(ApplyOp(e, ops[0]), ops[1..])
  }

  lemma {:induction false} ApplyOpsAppend(e: Attrs, a: seq<ModOp>, b: seq<ModOp>)
    ensures ApplyOps(e, a + b) == ApplyOps(ApplyOps(e, a), b)
    decreases |a|
  {
    if a != [] {
      assert (a + b)[1..] == a[1..] + b;
      ApplyOpsAppend(ApplyOp(e, a[0]), a[1..], b);
    } else {
      assert a + b == b;
    }
  }

  /** Modifications that do not name an attribute leave it as it was. */
  lemma {:induction false} ApplyOpsUntouched(e: Attrs, ops: seq<ModOp>, n: string)
    requires forall k :: 0 <= k < |ops| ==> ops[k].attr != n
    ensures n in ApplyOps(e, ops) <==> n in e
    ensures n in e ==> ApplyOps(e, ops)[n] == e[n]
    decreases |ops|
  {
    if ops != [] {
      ApplyOpsUntouched(ApplyOp(e, ops[0]), ops[1..], n);
    }
  }

  /** The value modify sends for a definition other than objectclass. */
  function Wanted(hasSchema: bool, a: AttributeDefinition, attrs: Attrs): PyResult<Value> {
    MapPythonToLdap(hasSchema, a, Wrap(a, GetAttr(attrs, a.name)))
  }

  /** A declared attribute other than objectclass is, in `e`, present
      exactly when its field is not None and sends at least one value, and
      then holds the value the field sends. */
  predicate Matches(hasSchema: bool, a: AttributeDefinition, attrs: Attrs, e: Attrs) {
    !IsObjectClassName(a.name) ==>
      (GetAttr(attrs, a.name) == Null ==> a.name !in e) &&
      (GetAttr(attrs, a.name) != Null ==>
        Wanted(hasSchema, a, attrs).Ok? &&
        (a.name in e <==> !NoValues(Wanted(hasSchema, a, attrs).value)) &&
        (a.name in e ==> e[a.name] == Wanted(hasSchema, a, attrs).value))
  }

  /** Every attribute none of the definitions names is in `e` as in `e0`. */
  ghost predicate KeepsUndeclared(defs: seq<AttributeDefinition>, e0: Attrs, e: Attrs) {
    forall n :: !Declares(defs, n) ==> (n in e <==> n in e0) && (n in e0 ==> e[n] == e0[n])
  }

  /** The modifications for one definition bring its attribute in line with
      the field, from a state where it is as fetched. */
  lemma AttributeOpsMatch(hasSchema: bool, a: AttributeDefinition, oclist: seq<string>, attrs: Attrs, fetched: Entry, mid: Attrs)
    requires AttributeOps(hasSchema, a, oclist, attrs, fetched).Ok?
    requires a.name in mid <==> a.name in fetched
    ensures Matches(hasSchema, a, attrs, ApplyOps(mid, AttributeOps(hasSchema, a, oclist, attrs, fetched).value))
  {
    var ops := AttributeOps(hasSchema, a, oclist, attrs, fetched).value;
    if !IsObjectClassName(a.name) && ops != [] {
      assert ApplyOps(mid, ops) == ApplyOp(mid, ops[0]);
    }
  }

  /** modify reconciles: once the server applies the request to the fetched
      entry, every declared attribute other than objectclass is present
      exactly when its field is not None and sends a value, with the
      field's converted value, and every undeclared attribute is as
      fetched. */
  lemma {:induction false} ModifyReconciles(hasSchema: bool, oclist: seq<string>, defs: seq<AttributeDefinition>, attrs: Attrs, fetched: Entry)
    requires UniqueNames(defs)
    requires ModifyOps(hasSchema, oclist, defs, attrs, fetched).Ok?
    ensures forall i :: 0 <= i < |defs| ==>
      Matches(hasSchema, defs[i], attrs, ApplyOps(EntryValues(fetched), ModifyOps(hasSchema, oclist, defs, attrs, fetched).value))
    ensures KeepsUndeclared(defs, EntryValues(fetched), ApplyOps(EntryValues(fetched), ModifyOps(hasSchema, oclist, defs, attrs, fetched).value))
  {
    var e0 := EntryValues(fetched);
    if defs != [] {
      var init := defs[..|defs| - 1];
      var last := defs[|defs| - 1];
      DeclaresLast(defs);
      ModifyReconciles(hasSchema, oclist, init, attrs, fetched);
      var prev := ModifyOps(hasSchema, oclist, init, attrs, fetched).value;
      var ops := AttributeOps(hasSchema, last, oclist, attrs, fetched).value;
      ModifyOpsLast(hasSchema, oclist, defs, attrs, fetched);
      ApplyOpsAppend(e0, prev, ops);
      var mid := ApplyOps(e0, prev);
      assert last.name in mid <==> last.name in fetched;
      AttributeOpsMatch(hasSchema, last, oclist, attrs, fetched, mid);
      StepKeepsMatches(hasSchema, init, last, attrs, mid, ops);
      StepKeepsUndeclared(init, last, e0, mid, ops);
      MatchesJoin(hasSchema, defs, init, attrs, ApplyOps(mid, ops));
    }
  }

  /** Matches for the definitions before the last and for the last one is
      Matches for all of them. */
  lemma MatchesJoin(hasSchema: bool, defs: seq<AttributeDefinition>, init: seq<AttributeDefinition>, attrs: Attrs, e: Attrs)
    requires defs != [] && init == defs[..|defs| - 1]
    requires forall i :: 0 <= i < |init| ==> Matches(hasSchema, init[i], attrs, e)
    requires Matches(hasSchema, defs[|defs| - 1], attrs, e)
    ensures forall i :: 0 <= i < |defs| ==> Matches(hasSchema, defs[i], attrs, e)
  {
    forall i | 0 <= i < |defs| ensures Matches(hasSchema, defs[i], attrs, e) {
      if i < |init| {
        assert init[i] == defs[i];
      }
    }
  }

  lemma ModifyOpsLast(hasSchema: bool, oclist: seq<string>, defs: seq<AttributeDefinition>, attrs: Attrs, fetched: Entry)
    requires defs != [] && ModifyOps(hasSchema, oclist, defs, attrs, fetched).Ok?
    ensures ModifyOps(hasSchema, oclist, defs[..|defs| - 1], attrs, fetched).Ok?
    ensures AttributeOps(hasSchema, defs[|defs| - 1], oclist, attrs, fetched).Ok?
    ensures ModifyOps(hasSchema, oclist, defs, attrs, fetched).value ==
      ModifyOps(hasSchema, oclist, defs[..|defs| - 1], attrs, fetched).value + AttributeOps(hasSchema, defs[|defs| - 1], oclist, attrs, fetched).value
  {
  }

  /** The definitions split as those before the last and the last one. */
  lemma DeclaresLast(defs: seq<AttributeDefinition>)
    requires UniqueNames(defs) && defs != []
    ensures var init := defs[..|defs| - 1];
      UniqueNames(init) && !Declares(init, defs[|defs| - 1].name) &&
      (forall i :: 0 <= i < |init| ==> defs[i] == init[i]) &&
      forall n :: Declares(defs, n) <==> Declares(init, n) || n == defs[|defs| - 1].name
  {
    var init, last := defs[..|defs| - 1], defs[|defs| - 1];
    assert forall i :: 0 <= i < |init| ==> defs[i] == init[i];
    forall n | Declares(defs, n) ensures Declares(init, n) || n == last.name {
      var i :| 0 <= i < |defs| && defs[i].name == n;
      if i < |init| { assert init[i].name == n; }
    }
  }

  /** The modifications of a later definition, which touch only its own
      attribute, keep the earlier definitions matched. */
  lemma StepKeepsMatches(hasSchema: bool, init: seq<AttributeDefinition>, last: AttributeDefinition, attrs: Attrs, mid: Attrs, ops: seq<ModOp>)
    requires !Declares(init, last.name)
    requires forall k :: 0 <= k < |ops| ==> ops[k].attr == last.name
    requires forall i :: 0 <= i < |init| ==> Matches(hasSchema, init[i], attrs, mid)
    ensures forall i :: 0 <= i < |init| ==> Matches(hasSchema, init[i], attrs, ApplyOps(mid, ops))
  {
    forall i | 0 <= i < |init| ensures Matches(hasSchema, init[i], attrs, ApplyOps(mid, ops)) {
      assert init[i].name != last.name;
      ApplyOpsUntouched(mid, ops, init[i].name);
    }
  }

  /** ... and keep every attribute no definition declares. */
  lemma StepKeepsUndeclared(init: seq<AttributeDefinition>, last: AttributeDefinition, e0: Attrs, mid: Attrs, ops: seq<ModOp>)
    requires forall k :: 0 <= k < |ops| ==> ops[k].attr == last.name
    requires KeepsUndeclared(init, e0, mid)
    ensures forall n :: !Declares(init, n) && n != last.name ==>
      (n in ApplyOps(mid, ops) <==> n in e0) && (n in e0 ==> ApplyOps(mid, ops)[n] == e0[n])
  {
    forall n | !Declares(init, n) && n != last.name
      ensures (n in ApplyOps(mid, ops) <==> n in e0) && (n in e0 ==> ApplyOps(mid, ops)[n] == e0[n])
    {
      ApplyOpsUntouched(mid, ops, n);
    }
  }

  /** Every modification one definition contributes is in modify's request. */
  lemma {:induction false} ModifyOpsIncludes(hasSchema: bool, oclist: seq<string>, defs: seq<AttributeDefinition>, attrs: Attrs, fetched: Entry, i: nat)
    requires i < |defs|
    requires ModifyOps(hasSchema, oclist, defs, attrs, fetched).Ok?
    ensures forall op :: op in AttributeOps(hasSchema, defs[i], oclist, attrs, fetched).value ==>
      op in ModifyOps(hasSchema, oclist, defs, attrs, fetched).value
  {
    var init := defs[..|defs| - 1];
    assert forall k :: 0 <= k < |init| ==> init[k] == defs[k];
    if i < |defs| - 1 {
      ModifyOpsIncludes(hasSchema, oclist, init, attrs, fetched, i);
    }
  }

  /** The modifications for a definition other than objectclass, case by
      case: a field that is not None is replaced when the entry has the
      attribute and added when it does not; a None field is deleted when
      the entry has the attribute and left alone when it does not. */
  lemma AttributeOpsCases(hasSchema: bool, a: AttributeDefinition, oclist: seq<string>, attrs: Attrs, fetched: Entry)
    requires !IsObjectClassName(a.name)
    ensures AttributeOps(hasSchema, a, oclist, attrs, fetched).Err? <==>
      GetAttr(attrs, a.name) != Null && Wanted(hasSchema, a, attrs).Err?
    ensures AttributeOps(hasSchema, a, oclist, attrs, fetched).Ok? ==>
      AttributeOps(hasSchema, a, oclist, attrs, fetched).value ==
        if GetAttr(attrs, a.name) == Null then
          (if a.name in fetched then [ModDelete(a.name)] else [])
        else if a.name in fetched then [ModReplace(a.name, Wanted(hasSchema, a, attrs).value)]
        else [ModAdd(a.name, Wanted(hasSchema, a, attrs).value)]
  {
  }

  /** A field built from an entry is never None. */
  lemma BuiltNotNull(hasSchema: bool, a: AttributeDefinition, entry: Entry)
    requires a.name in entry && BuildValue(hasSchema, a, entry).Ok?
    ensures BuildValue(hasSchema, a, entry).value.value != Null
  {
    var values := MapLdapToPython(hasSchema, a, entry[a.name]);
    if !a.multi && Converts(hasSchema, a) {
      var c := a.mapper.value;
      assert LdapToPython(c, entry[a.name][0]).Ok?;
      assert values.value[0] == LdapToPython(c, entry[a.name][0]).value;
    }
  }

  /** modify right after build, both against the same entry, replaces every
      declared attribute except objectclass that the entry holds: the
      request is not empty even though nothing changed. */
  lemma ModifyAfterBuild(hasSchema: bool, oclist: seq<string>, defs: seq<AttributeDefinition>, dn: string, entry: Entry, i: nat)
    requires UniqueNames(defs) && !Declares(defs, "dn")
    requires BuildAttrs(hasSchema, defs, dn, entry).Ok?
    requires ModifyOps(hasSchema, oclist, defs, BuildAttrs(hasSchema, defs, dn, entry).value, entry).Ok?
    requires i < |defs| && defs[i].name in entry && !IsObjectClassName(defs[i].name)
    ensures exists v :: ModReplace(defs[i].name, v) in ModifyOps(hasSchema, oclist, defs, BuildAttrs(hasSchema, defs, dn, entry).value, entry).value
  {
    var attrs := BuildAttrs(hasSchema, defs, dn, entry).value;
    var a := defs[i];
    BuildFields(hasSchema, defs, dn, entry);
    assert BuildValue(hasSchema, a, entry).Ok?;
    BuiltNotNull(hasSchema, a, entry);
    assert GetAttr(attrs, a.name) != Null;
    AttributeOpsCases(hasSchema, a, oclist, attrs, entry);
    ModifyOpsIncludes(hasSchema, oclist, defs, attrs, entry, i);
    assert ModReplace(a.name, Wanted(hasSchema, a, attrs).value) in AttributeOps(hasSchema, a, oclist, attrs, entry).value;
  }

  /** Building from {cn: ["x"], sn: ["y"]} and modifying at once sends a
      replacement of both attributes, not an empty request. */
  lemma ModifyUnchangedExample()
    ensures var defs := [AttributeDefinition("cn", true, false, None, None), AttributeDefinition("sn", true, false, None, None)];
      var entry := map["cn" := ["x"], "sn" := ["y"]];
      var built := map["cn" := Str("x"), "sn" := Str("y"), "dn" := Str("cn=x,dc=org")];
      BuildAttrs(false, defs, "cn=x,dc=org", entry) == Ok(built) &&
      ModifyOps(false, ["person"], defs, built, entry) == Ok([ModReplace("cn", List([Str("x")])), ModReplace("sn", List([Str("y")]))])
  {
    UnchangedBuild();
    UnchangedModify();
  }

  /** The build half of ModifyUnchangedExample. */
  lemma UnchangedBuild()
    ensures BuildAttrs(false, [AttributeDefinition("cn", true, false, None, None), AttributeDefinition("sn", true, false, None, None)],
      "cn=x,dc=org", map["cn" := ["x"], "sn" := ["y"]]) == Ok(map["cn" := Str("x"), "sn" := Str("y"), "dn" := Str("cn=x,dc=org")])
  {
    var cn := AttributeDefinition("cn", true, false, None, None);
    var sn := AttributeDefinition("sn", true, false, None, None);
    var defs := [cn, sn];
    var entry := map["cn" := ["x"], "sn" := ["y"]];
    var built := map["cn" := Str("x"), "sn" := Str("y"), "dn" := Str("cn=x,dc=org")];
    assert defs[..1] == [cn];
    assert [cn][..0] == [];
    assert WireValues(["x"]) == [Str("x")];
    assert WireValues(["y"]) == [Str("y")];
    assert DefaultAttrs([cn]) == map["cn" := Null];
    assert DefaultAttrs(defs) == map["cn" := Null, "sn" := Null];
    var start := map["cn" := Null, "sn" := Null, "dn" := Str("cn=x,dc=org")];
    assert DefaultAttrs(defs)["dn" := Str("cn=x,dc=org")] == start;
    assert MapLdapToPython(false, cn, ["x"]) == Ok([Str("x")]);
    assert MapLdapToPython(false, sn, ["y"]) == Ok([Str("y")]);
    assert BuildValue(false, cn, entry) == Ok(Some(Str("x")));
    assert BuildValue(false, sn, entry) == Ok(Some(Str("y")));
    assert Fill(false, [], entry, start) == Ok(start);
    assert Fill(false, [cn], entry, start) == Ok(start["cn" := Str("x")]);
    assert Fill(false, defs, entry, start) == Ok(start["cn" := Str("x")]["sn" := Str("y")]);
    assert start["cn" := Str("x")]["sn" := Str("y")] == built;
  }

  /** The modify half of ModifyUnchangedExample. */
  lemma UnchangedModify()
    ensures ModifyOps(false, ["person"], [AttributeDefinition("cn", true, false, None, None), AttributeDefinition("sn", true, false, None, None)],
      map["cn" := Str("x"), "sn" := Str("y"), "dn" := Str("cn=x,dc=org")], map["cn" := ["x"], "sn" := ["y"]]) ==
      Ok([ModReplace("cn", List([Str("x")])), ModReplace("sn", List([Str("y")]))])
  {
    var cn := AttributeDefinition("cn", true, false, None, None);
    var sn := AttributeDefinition("sn", true, false, None, None);
    var defs := [cn, sn];
    var entry := map["cn" := ["x"], "sn" := ["y"]];
    var built := map["cn" := Str("x"), "sn" := Str("y"), "dn" := Str("cn=x,dc=org")];
    assert !IsObjectClassName("cn") by { assert Lower("cn")[0] == 'c'; }
    assert !IsObjectClassName("sn") by { assert Lower("sn")[0] == 's'; }
    assert GetAttr(built, cn.name) == Str("x") && GetAttr(built, sn.name) == Str("y");
    assert AttributeOps(false, cn, ["person"], built, entry) == Ok([ModReplace("cn", List([Str("x")]))]);
    assert AttributeOps(false, sn, ["person"], built, entry) == Ok([ModReplace("sn", List([Str("y")]))]);
    assert ModifyOps(false, ["person"], [], built, entry) == Ok([]);
    assert [cn][..|[cn]| - 1] == [] && [cn][|[cn]| - 1] == cn;
    assert [] + [ModReplace("cn", List([Str("x")]))] == [ModReplace("cn", List([Str("x")]))];
    assert ModifyOps(false, ["person"], [cn], built, entry) == Ok([ModReplace("cn", List([Str("x")]))]);
    assert defs[|defs| - 1] == sn && defs[..|defs| - 1] == [cn];
    assert [ModReplace("cn", List([Str("x")]))] + [ModReplace("sn", List([Str("y")]))] ==
      [ModReplace("cn", List([Str("x")])), ModReplace("sn", List([Str("y")]))];
  }

  /** A multi-valued field left at new_object's [] is sent as a REPLACE with
      no values, so modify removes an attribute the entry holds. */
  lemma ModifyEmptyListExample()
    ensures var defs := [AttributeDefinition("mail", false, true, None, None)];
      var attrs := map["mail" := List([]), "dn" := Str("cn=x")];
      var entry := map["mail" := ["a@b"]];
      ModifyOps(false, [], defs, attrs, entry) == Ok([ModReplace("mail", List([]))]) &&
      "mail" !in ApplyOps(EntryValues(entry), [ModReplace("mail", List([]))])
  {
    var d := AttributeDefinition("mail", false, true, None, None);
    var attrs := map["mail" := List([]), "dn" := Str("cn=x")];
    var entry := map["mail" := ["a@b"]];
    assert !IsObjectClassName(d.name) by { assert Lower(d.name)[0] == 'm'; }
    assert GetAttr(attrs, "mail") == List([]);
    assert AttributeOps(false, d, [], attrs, entry) == Ok([ModReplace("mail", List([]))]);
    assert ModifyOps(false, [], [], attrs, entry) == Ok([]);
    assert [d][..|[d]| - 1] == [] && [d][|[d]| - 1] == d;
    assert [] + [ModReplace("mail", List([]))] == [ModReplace("mail", List([]))];
    var ops := [ModReplace("mail", List([]))];
    assert ApplyOps(EntryValues(entry), ops) == ApplyOps(ApplyOp(EntryValues(entry), ops[0]), ops[1..]);
    assert ops[1..] == [];
  }

  /** An attribute built as displayName: ["Test"] and then set to None is
      deleted by modify. */
  lemma ModifyDeleteExample()
    ensures var defs := [AttributeDefinition("displayName", false, false, None, None)];
      var entry := map["displayName" := ["Test"]];
      BuildAttrs(false, defs, "cn=x", entry) == Ok(map["displayName" := Str("Test"), "dn" := Str("cn=x")]) &&
      ModifyOps(false, [], defs, map["displayName" := Null, "dn" := Str("cn=x")], entry) == Ok([ModDelete("displayName")])
  {
    var d := AttributeDefinition("displayName", false, false, None, None);
    var entry := map["displayName" := ["Test"]];
    assert [d][..0] == [];
    assert DefaultAttrs([d]) == map["displayName" := Null];
    var start := map["displayName" := Null, "dn" := Str("cn=x")];
    assert DefaultAttrs([d])["dn" := Str("cn=x")] == start;
    assert WireValues(["Test"]) == [Str("Test")];
    assert MapLdapToPython(false, d, ["Test"]) == Ok([Str("Test")]);
    assert BuildValue(false, d, entry) == Ok(Some(Str("Test")));
    assert Fill(false, [], entry, start) == Ok(start);
    assert start["displayName" := Str("Test")] == map["displayName" := Str("Test"), "dn" := Str("cn=x")];
    var after := map["displayName" := Null, "dn" := Str("cn=x")];
    assert GetAttr(after, "displayName") == Null;
    assert "displayName" in entry;
    assert !IsObjectClassName(d.name) by { assert Lower(d.name)[0] == 'd'; }
    assert AttributeOps(false, d, [], after, entry) == Ok([ModDelete("displayName")]);
    assert ModifyOps(false, [], [], after, entry) == Ok([]);
    assert [d][..|[d]| - 1] == [] && [d][|[d]| - 1] == d;
    assert [] + [ModDelete("displayName")] == [ModDelete("displayName")];
    assert ModifyOps(false, [], [d], after, entry) == Ok([ModDelete("displayName")]);
    assert Fill(false, [d], entry, start) == Ok(start["displayName" := Str("Test")]);
    assert BuildAttrs(false, [d], "cn=x", entry) == Ok(map["displayName" := Str("Test"), "dn" := Str("cn=x")]);
  }
}
