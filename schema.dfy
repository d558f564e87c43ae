/** The schema facade (LdapSchema): attribute syntaxes and the breadth-first
    walk that collects the attributes of an object class and its superiors. */
module LdapSchema {
  import opened Wrappers
  import opened Values
  import SyntaxTypes

  /** An object class's `sup`: absent, one name, or a tuple of names. */
  datatype Superior = NoSup | Single(name: string) | Several(names: seq<string>)

  datatype ObjectClassDef = ObjectClassDef(must: seq<string>, may: seq<string>, sup: Superior)

  /** What the schema library answers: the syntax OID of each attribute type
      (after the library has followed the type's first superior) and each
      object class by name or OID. A name missing from `syntaxOf` is a type
      without a syntax here; the library raises KeyError for it. */
  datatype Schema = Schema(syntaxOf: map<string, string>, classes: map<string, ObjectClassDef>)

  type Classes = map<string, ObjectClassDef>

  /** get_attribute_type_syntax. */
  function AttributeTypeSyntax(schema: Schema, nameOrOid: string): (r: Option<string>)
    ensures r.Some? <==> nameOrOid in schema.syntaxOf
  {
    if nameOrOid in schema.syntaxOf then Some(schema.syntaxOf[nameOrOid]) else None
  }

  /** get_attribute_type_mapper: the converter for the attribute's syntax. */
  function AttributeTypeMapper(schema: Schema, nameOrOid: string): (r: Option<SyntaxTypes.Converter>)
    ensures r.Some? ==> nameOrOid in schema.syntaxOf && schema.syntaxOf[nameOrOid] == SyntaxTypes.Oid(r.value)
  {
    SyntaxTypes.GetMapper(AttributeTypeSyntax(schema, nameOrOid))
  }

  /** An attribute type finds a converter exactly when the schema knows its
      syntax and that syntax is the converter's OID. */
  lemma AttributeTypeMapperExact(schema: Schema, nameOrOid: string, c: SyntaxTypes.Converter)
    ensures AttributeTypeMapper(schema, nameOrOid) == Some(c) <==>
      nameOrOid in schema.syntaxOf && schema.syntaxOf[nameOrOid] == SyntaxTypes.Oid(c)
  {
    if nameOrOid in schema.syntaxOf {
      SyntaxTypes.GetMapperExact(schema.syntaxOf[nameOrOid], c);
    }
  }

  /** The names the walk enqueues after visiting a class: all of a tuple, the
      one name of a single `sup`, nothing for an empty (false) `sup`. */
  function Superiors(c: ObjectClassDef): seq<string> {
    match c.sup
    case NoSup => []
    case Single(name) => if name == "" then [] else [name]
    case Several(names) => names
  }

  /** Superiors of a name; a name the schema lacks has none. */
  function Sups(classes: Classes, name: string): seq<string> {
    if name in classes then Superiors(classes[name]) else []
  }

  /** Acyclic hierarchy: every known superior ranks strictly below the class. */
  ghost predicate Ranked(classes: Classes, rank: map<string, nat>) {
    forall n :: n in classes ==>
      (n in rank && forall s :: s in Superiors(classes[n]) && s in classes ==> s in rank && rank[s] < rank[n])
  }

  /** The number of classes the walk visits from one name, superiors
      included as often as they are reached. */
  ghost function ItemWeight(classes: Classes, rank: map<string, nat>, name: string): nat
    requires Ranked(classes, rank)
    decreases if name in classes then rank[name] else 0, 1, 0
  {
    if name in classes then 1 + SupWeight(classes, rank, name, 0) else 1
  }

  ghost function SupWeight(classes: Classes, rank: map<string, nat>, name: string, i: nat): nat
    requires Ranked(classes, rank) && name in classes && i <= |Superiors(classes[name])|
    decreases rank[name], 0, |Superiors(classes[name])| - i
  {
    var sups := Superiors(classes[name]);
    if i == |sups| then 0
    else
      assert sups[i] in sups;
      (if sups[i] in classes then ItemWeight(classes, rank, sups[i]) else 1) + SupWeight(classes, rank, name, i + 1)
  }

  ghost function QueueWeight(classes: Classes, rank: map<string, nat>, queue: seq<string>): nat
    requires Ranked(classes, rank)
  {
    if queue == [] then 0 else ItemWeight(classes, rank, queue[0]) + QueueWeight(classes, rank, queue[1..])
  }

  lemma {:induction false} SupWeightIsQueueWeight(classes: Classes, rank: map<string, nat>, name: string, i: nat)
    requires Ranked(classes, rank) && name in classes && i <= |Superiors(classes[name])|
    ensures SupWeight(classes, rank, name, i) == QueueWeight(classes, rank, Superiors(classes[name])[i..])
    decreases |Superiors(classes[name])| - i
  {
    var sups := Superiors(classes[name]);
    if i < |sups| {
      SupWeightIsQueueWeight(classes, rank, name, i + 1);
      assert sups[i..][1..] == sups[i + 1..];
      if sups[i] !in classes {
        assert ItemWeight(classes, rank, sups[i]) == 1;
      }
    }
  }

  lemma ItemWeightUnfold(classes: Classes, rank: map<string, nat>, name: string)
    requires Ranked(classes, rank)
    ensures ItemWeight(classes, rank, name) == 1 + QueueWeight(classes, rank, Sups(classes, name))
  {
    if name in classes {
      SupWeightIsQueueWeight(classes, rank, name, 0);
      assert Superiors(classes[name])[0..] == Superiors(classes[name]);
    }
  }

  lemma {:induction false} QueueWeightAppend(classes: Classes, rank: map<string, nat>, a: seq<string>, b: seq<string>)
    requires Ranked(classes, rank)
    ensures QueueWeight(classes, rank, a + b) == QueueWeight(classes, rank, a) + QueueWeight(classes, rank, b)
    decreases |a|
  {
    if a == [] {
      assert a + b == b;
    } else {
      assert (a + b)[1..] == a[1..] + b;
      QueueWeightAppend(classes, rank, a[1..], b);
    }
  }

  /** Popping a name and enqueueing its superiors lowers the weight by one. */
  lemma QueueWeightStep(classes: Classes, rank: map<string, nat>, queue: seq<string>)
    requires Ranked(classes, rank) && queue != []
    ensures QueueWeight(classes, rank, queue[1..] + Sups(classes, queue[0])) == QueueWeight(classes, rank, queue) - 1
  {
    QueueWeightAppend(classes, rank, queue[1..], Sups(classes, queue[0]));
    ItemWeightUnfold(classes, rank, queue[0]);
  }

  /** The order in which the FIFO loop of get_object_class_attrs pops names. */
  function Visit(classes: Classes, ghost rank: map<string, nat>, queue: seq<string>): seq<string>
    requires Ranked(classes, rank)
    decreases QueueWeight(classes, rank, queue)
  {
    if queue == [] then []
    else
      QueueWeightStep(classes, rank, queue);
      [queue[0]] + Visit(classes, rank, queue[1..] + Sups(classes, queue[0]))
  }

  /** All superiors of a list of names, in order: the next level down. */
  function Children(classes: Classes, names: seq<string>): seq<string> {
    if names == [] then [] else Sups(classes, names[0]) + Children(classes, names[1..])
  }

  lemma {:induction false} ChildrenAppend(classes: Classes, a: seq<string>, b: seq<string>)
    ensures Children(classes, a + b) == Children(classes, a) + Children(classes, b)
    decreases |a|
  {
    if a == [] {
      assert a + b == b;
    } else {
      assert (a + b)[1..] == a[1..] + b;
      ChildrenAppend(classes, a[1..], b);
    }
  }

  lemma {:induction false} QueueWeightChildren(classes: Classes, rank: map<string, nat>, q: seq<string>)
    requires Ranked(classes, rank)
    ensures QueueWeight(classes, rank, q) == |q| + QueueWeight(classes, rank, Children(classes, q))
    decreases |q|
  {
    if q != [] {
      QueueWeightChildren(classes, rank, q[1..]);
      ItemWeightUnfold(classes, rank, q[0]);
      QueueWeightAppend(classes, rank, Sups(classes, q[0]), Children(classes, q[1..]));
    }
  }

  /** Breadth-first order stated level by level: the names themselves, then
      all their superiors, then all of theirs, until a level is empty. */
  function LevelOrder(classes: Classes, ghost rank: map<string, nat>, level: seq<string>): seq<string>
    requires Ranked(classes, rank)
    decreases QueueWeight(classes, rank, level)
  {
    if level == [] then []
    else
      QueueWeightChildren(classes, rank, level);
      level + LevelOrder(classes, rank, Children(classes, level))
  }

  lemma {:induction false} VisitSplit(classes: Classes, rank: map<string, nat>, q: seq<string>, r: seq<string>)
    requires Ranked(classes, rank)
    ensures Visit(classes, rank, q + r) == q + Visit(classes, rank, r + Children(classes, q))
    decreases |q|
  {
    if q == [] {
      assert q + r == r && r + Children(classes, q) == r;
    } else {
      var x, rest := q[0], q[1..];
      assert (q + r)[0] == x;
      assert (q + r)[1..] + Sups(classes, x) == rest + (r + Sups(classes, x));
      VisitSplit(classes, rank, rest, r + Sups(classes, x));
      assert r + Sups(classes, x) + Children(classes, rest) == r + Children(classes, q);
      assert [x] + rest == q;
    }
  }

  /** The queue-based walk visits classes in breadth-first (level) order. */
  lemma {:induction false} VisitIsLevelOrder(classes: Classes, rank: map<string, nat>, q: seq<string>)
    requires Ranked(classes, rank)
    ensures Visit(classes, rank, q) == LevelOrder(classes, rank, q)
    decreases QueueWeight(classes, rank, q)
  {
    if q != [] {
      VisitSplit(classes, rank, q, []);
      assert q + [] == q && [] + Children(classes, q) == Children(classes, q);
      QueueWeightChildren(classes, rank, q);
      VisitIsLevelOrder(classes, rank, Children(classes, q));
    }
  }

  predicate AllKnown(classes: Classes, names: seq<string>) {
    forall k :: 0 <= k < |names| ==> names[k] in classes
  }

  /** The `must` lists of the named classes, concatenated in order. */
  function MustOf(classes: Classes, names: seq<string>): seq<string>
    requires AllKnown(classes, names)
  {
    if names == [] then [] else MustOf(classes, names[..|names| - 1]) + classes[names[|names| - 1]].must
  }

  /** The `may` lists of the named classes, concatenated in order. */
  function MayOf(classes: Classes, names: seq<string>): seq<string>
    requires AllKnown(classes, names)
  {
    if names == [] then [] else MayOf(classes, names[..|names| - 1]) + classes[names[|names| - 1]].may
  }

  /** What the walk returns after visiting `visited`: the concatenated must
      and may lists, or AttributeError when a visited name is not a class
      (the library's lookup gives None, which has no `must`). */
  function ClassAttrs(classes: Classes, visited: seq<string>): PyResult<(seq<string>, seq<string>)> {
    if AllKnown(classes, visited) then Ok((MustOf(classes, visited), MayOf(classes, visited))) else Err(AttributeError)
  }

  /** One turn of the loop: the popped name joins the visited ones. */
  lemma WalkStep(classes: Classes, rank: map<string, nat>, start: string, visited: seq<string>, queue: seq<string>)
    requires Ranked(classes, rank) && queue != []
    requires visited + Visit(classes, rank, queue) == Visit(classes, rank, [start])
    ensures (visited + [queue[0]]) + Visit(classes, rank, queue[1..] + Sups(classes, queue[0])) == Visit(classes, rank, [start])
    ensures queue[0] !in classes ==> !AllKnown(classes, Visit(classes, rank, [start]))
  {
    assert Visit(classes, rank, queue) == [queue[0]] + Visit(classes, rank, queue[1..] + Sups(classes, queue[0]));
    assert Visit(classes, rank, [start])[|visited|] == queue[0];
  }

  lemma WalkCollect(classes: Classes, visited: seq<string>, name: string)
    requires AllKnown(classes, visited) && name in classes
    ensures AllKnown(classes, visited + [name])
    ensures MustOf(classes, visited + [name]) == MustOf(classes, visited) + classes[name].must
    ensures MayOf(classes, visited + [name]) == MayOf(classes, visited) + classes[name].may
  {
    assert (visited + [name])[..|visited|] == visited;
  }

  /** get_object_class_attrs: pop the front of the queue, add the class's
      must and may names, enqueue its superiors; repeat until the queue is
      empty. The result is the must and may names of every class reached, in
      breadth-first order from the given class, duplicates kept. */
  method GetObjectClassAttrs(schema: Schema, nameOrOid: string, ghost rank: map<string, nat>)
    returns (r: PyResult<(seq<string>, seq<string>)>)
    requires Ranked(schema.classes, rank)
    ensures r == ClassAttrs(schema.classes, LevelOrder(schema.classes, rank, [nameOrOid]))
  {
    var classes := schema.classes;
    VisitIsLevelOrder(classes, rank, [nameOrOid]);
    var suplist := [nameOrOid];
    var mustAttrs: seq<string>, mayAttrs: seq<string> := [], [];
    ghost var visited: seq<string> := [];
    while suplist != []
      invariant visited + Visit(classes, rank, suplist) == Visit(classes, rank, [nameOrOid])
      invariant AllKnown(classes, visited)
      invariant mustAttrs == MustOf(classes, visited) && mayAttrs == MayOf(classes, visited)
      decreases QueueWeight(classes, rank, suplist)
    {
      var name := suplist[0];
      QueueWeightStep(classes, rank, suplist);
      WalkStep(classes, rank, nameOrOid, visited, suplist);
      ghost var next := suplist[1..] + Sups(classes, name);
      suplist := suplist[1..];
      if name !in classes {
        return Err(AttributeError);
      }
      var obj := classes[name];
      WalkCollect(classes, visited, name);
      mustAttrs := mustAttrs + obj.must;
      mayAttrs := mayAttrs + obj.may;
      match obj.sup {
        case Several(names) =>
          if names != [] { suplist := suplist + names; }
        case Single(sup) =>
          if sup != "" { suplist := suplist + [sup]; }
        case NoSup =>
      }
      assert suplist == next;
      visited := visited + [name];
    }
    assert visited == Visit(classes, rank, [nameOrOid]);
    return Ok((mustAttrs, mayAttrs));
  }

  /** The walk starts with the given class and goes on with its superiors. */
  lemma LevelOrderStart(classes: Classes, rank: map<string, nat>, name: string)
    requires Ranked(classes, rank)
    ensures LevelOrder(classes, rank, [name]) == [name] + LevelOrder(classes, rank, Sups(classes, name))
  {
    assert Children(classes, [name]) == Sups(classes, name) + Children(classes, []);
    assert Sups(classes, name) + [] == Sups(classes, name);
  }

  lemma LevelOrderUnfold(classes: Classes, rank: map<string, nat>, q: seq<string>)
    requires Ranked(classes, rank)
    ensures multiset(LevelOrder(classes, rank, q)) == multiset(q) + multiset(LevelOrder(classes, rank, Children(classes, q)))
  {
  }

  /** Walking from two queues joined visits each class as often as walking
      from each queue alone. */
  lemma {:induction false} LevelOrderAppend(classes: Classes, rank: map<string, nat>, q: seq<string>, r: seq<string>)
    requires Ranked(classes, rank)
    ensures multiset(LevelOrder(classes, rank, q + r))
         == multiset(LevelOrder(classes, rank, q)) + multiset(LevelOrder(classes, rank, r))
    decreases QueueWeight(classes, rank, q + r)
  {
    if q + r != [] {
      ChildrenAppend(classes, q, r);
      QueueWeightChildren(classes, rank, q + r);
      LevelOrderAppend(classes, rank, Children(classes, q), Children(classes, r));
      LevelOrderUnfold(classes, rank, q + r);
      LevelOrderUnfold(classes, rank, q);
      LevelOrderUnfold(classes, rank, r);
    } else {
      assert q == [] && r == [];
    }
  }

  /** A class with two superiors: the walk visits it once and then every
      class of both superior chains, each as often as its own walk does. */
  lemma TwoSuperiors(classes: Classes, rank: map<string, nat>, name: string, a: string, b: string)
    requires Ranked(classes, rank) && name in classes
    requires Superiors(classes[name]) == [a, b]
    ensures multiset(LevelOrder(classes, rank, [name]))
         == multiset{name} + multiset(LevelOrder(classes, rank, [a])) + multiset(LevelOrder(classes, rank, [b]))
  {
    LevelOrderStart(classes, rank, name);
    assert [a, b] == [a] + [b];
    LevelOrderAppend(classes, rank, [a], [b]);
  }

  lemma {:induction false} MustMember(classes: Classes, names: seq<string>, x: string)
    requires AllKnown(classes, names)
    ensures x in MustOf(classes, names) <==> exists n :: n in names && n in classes && x in classes[n].must
    ensures x in MayOf(classes, names) <==> exists n :: n in names && n in classes && x in classes[n].may
    decreases |names|
  {
    if names != [] {
      var init, last := names[..|names| - 1], names[|names| - 1];
      assert names == init + [last];
      MustMember(classes, init, x);
      assert forall n :: n in names <==> n in init || n == last;
    }
  }

  /** The attributes of a class with two superiors are its own together with
      those the two superior chains collect (the source also keeps repeats). */
  lemma TwoSuperiorsAttrs(classes: Classes, rank: map<string, nat>, name: string, a: string, b: string, x: string)
    requires Ranked(classes, rank) && name in classes
    requires Superiors(classes[name]) == [a, b]
    requires AllKnown(classes, LevelOrder(classes, rank, [name]))
    ensures AllKnown(classes, LevelOrder(classes, rank, [a])) && AllKnown(classes, LevelOrder(classes, rank, [b]))
    ensures x in MustOf(classes, LevelOrder(classes, rank, [name])) <==>
      x in classes[name].must || x in MustOf(classes, LevelOrder(classes, rank, [a])) || x in MustOf(classes, LevelOrder(classes, rank, [b]))
    ensures x in MayOf(classes, LevelOrder(classes, rank, [name])) <==>
      x in classes[name].may || x in MayOf(classes, LevelOrder(classes, rank, [a])) || x in MayOf(classes, LevelOrder(classes, rank, [b]))
  {
    var all, la, lb := LevelOrder(classes, rank, [name]), LevelOrder(classes, rank, [a]), LevelOrder(classes, rank, [b]);
    TwoSuperiorsVisits(classes, rank, name, a, b);
    assert AllKnown(classes, la) by {
      forall k | 0 <= k < |la| ensures la[k] in classes { assert la[k] in all; }
    }
    assert AllKnown(classes, lb) by {
      forall k | 0 <= k < |lb| ensures lb[k] in classes { assert lb[k] in all; }
    }
    MustMember(classes, all, x);
    MustMember(classes, la, x);
    MustMember(classes, lb, x);
  }

  /** The classes the walk from a class with two superiors reaches. */
  lemma TwoSuperiorsVisits(classes: Classes, rank: map<string, nat>, name: string, a: string, b: string)
    requires Ranked(classes, rank) && name in classes
    requires Superiors(classes[name]) == [a, b]
    ensures forall n :: n in LevelOrder(classes, rank, [name]) <==>
      n == name || n in LevelOrder(classes, rank, [a]) || n in LevelOrder(classes, rank, [b])
  {
    var all, la, lb := LevelOrder(classes, rank, [name]), LevelOrder(classes, rank, [a]), LevelOrder(classes, rank, [b]);
    TwoSuperiors(classes, rank, name, a, b);
    forall n ensures n in all <==> n == name || n in la || n in lb {
      assert n in all <==> n in multiset(all);
      assert n in la <==> n in multiset(la);
      assert n in lb <==> n in multiset(lb);
    }
  }
}
