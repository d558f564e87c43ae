/** LdapMapper.rename on values: the rename call sent to the server and the
    instance's fields afterwards. */
module Renaming {
  import opened Wrappers
  import opened Values
  import opened Text
  import opened Dn
  import opened Conversion

  /** rename_s(dn, newrdn, newsuperior, delold). */
  datatype RenameCall = RenameCall(dn: string, newRdn: string, newSuperior: Option<string>, delold: bool)

  /** What rename leaves behind: the call sent (none when obj.dn is
      missing), the fields after the in-memory update, and the exception
      raised, if any. */
  datatype RenameOutcome = RenameOutcome(call: Option<RenameCall>, attrs: Attrs, error: Option<Error>)

  /** Truth of an optional superior: None and "" are false. */
  predicate Given(sdn: Option<string>) {
    sdn.Some? && sdn.value != ""
  }

  /** The superior passed to rename_s: none when the given one is the
      current superior (no move). */
  function SentSuperior(oldSdn: string, newSdn: Option<string>): (r: Option<string>)
    ensures Given(newSdn) && newSdn.value == oldSdn ==> r == None
    ensures !(Given(newSdn) && newSdn.value == oldSdn) ==> r == newSdn
  {
    if Given(newSdn) && oldSdn == newSdn.value then None else newSdn
  }

  /** rename. The server call goes out before the instance is touched; then
      the old naming attribute is deleted when delold (AttributeError when
      the instance lacks it), the new naming attribute is set from the text
      after the first '=' of the new rdn (IndexError when there is none;
      the deletion has happened by then), and the dn is rebuilt. */
  function RenameOf(attrs: Attrs, newRdn: string, newSdn: Option<string>, delold: bool): RenameOutcome {
    var dn := DnOf(attrs);
    if dn.Err? then RenameOutcome(None, attrs, Some(dn.error))
    else
      var (oldRdn, oldSdn) := SplitDn(dn.value);
      var sent := SentSuperior(oldSdn, newSdn);
      var call := RenameCall(dn.value, newRdn, sent, delold);
      var superior := if Given(sent) then sent.value else oldSdn;
      var oldAttr := SplitOn(oldRdn, '=');
      var newAttr := SplitOn(newRdn, '=');
      if delold && oldAttr[0] !in attrs then RenameOutcome(Some(call), attrs, Some(AttributeError))
      else
        var kept := if delold then attrs - {oldAttr[0]} else attrs;
        if |newAttr| < 2 then RenameOutcome(Some(call), kept, Some(IndexError))
        else RenameOutcome(Some(call), kept[newAttr[0] := Str(newAttr[1])]["dn" := Str(newRdn + "," + superior)], None)
  }

  /** The naming attribute of an rdn: the text before its first '='. */
  function NamingAttribute(rdn: string): string {
    SplitOn(rdn, '=')[0]
  }

  /** A dn-less instance raises AttributeError before any call is sent. */
  lemma RenameWithoutDn(attrs: Attrs, newRdn: string, newSdn: Option<string>, delold: bool)
    requires DnOf(attrs).Err?
    ensures RenameOf(attrs, newRdn, newSdn, delold) == RenameOutcome(None, attrs, Some(AttributeError))
  {
  }

  /** The call names the instance's dn, the new rdn and delold, and moves
      the entry exactly when a superior other than the current one is given;
      a superior that is not the current one, None and "" included, is
      passed on as given. */
  lemma RenameCallSent(attrs: Attrs, newRdn: string, newSdn: Option<string>, delold: bool)
    requires DnOf(attrs).Ok?
    ensures var c := RenameOf(attrs, newRdn, newSdn, delold).call;
      c.Some? && c.value.dn == DnOf(attrs).value && c.value.newRdn == newRdn && c.value.delold == delold
    ensures var c := RenameOf(attrs, newRdn, newSdn, delold).call.value;
      Given(newSdn) && newSdn.value == ParentDn(DnOf(attrs).value) ==> c.newSuperior == None
    ensures var c := RenameOf(attrs, newRdn, newSdn, delold).call.value;
      Given(c.newSuperior) <==> Given(newSdn) && newSdn.value != ParentDn(DnOf(attrs).value)
    ensures var c := RenameOf(attrs, newRdn, newSdn, delold).call.value;
      !(Given(newSdn) && newSdn.value == ParentDn(DnOf(attrs).value)) ==> c.newSuperior == newSdn
  {
  }

  /** After a successful rename the dn is the new rdn under the given
      superior, or under the old one when none (or the same) is given. */
  lemma RenameDn(attrs: Attrs, newRdn: string, newSdn: Option<string>, delold: bool)
    requires RenameOf(attrs, newRdn, newSdn, delold).error.None?
    ensures DnOf(attrs).Ok?
    ensures RenameOf(attrs, newRdn, newSdn, delold).attrs["dn"] ==
      Str(newRdn + "," + (if Given(newSdn) then newSdn.value else ParentDn(DnOf(attrs).value)))
  {
  }

  /** The errors of the in-memory update: AttributeError when delold and the
      instance lacks the old naming attribute, otherwise IndexError exactly
      when the new rdn holds no '='. */
  lemma RenameErrors(attrs: Attrs, newRdn: string, newSdn: Option<string>, delold: bool)
    requires DnOf(attrs).Ok?
    ensures var o := RenameOf(attrs, newRdn, newSdn, delold);
      var oldAttr := NamingAttribute(SplitDn(DnOf(attrs).value).0);
      (delold && oldAttr !in attrs ==> o.error == Some(AttributeError) && o.attrs == attrs) &&
      (!(delold && oldAttr !in attrs) ==> (o.error == Some(IndexError) <==> '=' !in newRdn) && (o.error.None? <==> '=' in newRdn))
  {
    SplitOnCount(newRdn, '=');
  }

  /** The naming attribute: renaming to k=v (neither part holding '=', k not
      "dn") sets field k to v, and the old naming attribute is gone when
      delold and kept otherwise; every other field is untouched. */
  lemma RenameFields(attrs: Attrs, k: string, v: string, newSdn: Option<string>, delold: bool)
    requires DnOf(attrs).Ok?
    requires '=' !in k && '=' !in v && k != "dn"
    requires !delold || NamingAttribute(SplitDn(DnOf(attrs).value).0) in attrs
    ensures var o := RenameOf(attrs, k + "=" + v, newSdn, delold);
      o.error.None? && k in o.attrs && o.attrs[k] == Str(v)
    ensures var o := RenameOf(attrs, k + "=" + v, newSdn, delold);
      var oldAttr := NamingAttribute(SplitDn(DnOf(attrs).value).0);
      delold && oldAttr != k && oldAttr != "dn" ==> oldAttr !in o.attrs
    ensures var o := RenameOf(attrs, k + "=" + v, newSdn, delold);
      var oldAttr := NamingAttribute(SplitDn(DnOf(attrs).value).0);
      forall n :: n != k && n != "dn" && !(delold && n == oldAttr) ==> (n in o.attrs <==> n in attrs) && (n in attrs ==> o.attrs[n] == attrs[n])
  {
    SplitPair(k, '=', v);
  }

  /** The new naming value stops at its first '=': renaming to k=a=b sets
      field k to a, dropping the rest. */
  lemma RenameTruncatesValue(attrs: Attrs, k: string, a: string, b: string, newSdn: Option<string>, delold: bool)
    requires DnOf(attrs).Ok?
    requires '=' !in k && '=' !in a && k != "dn"
    requires !delold || NamingAttribute(SplitDn(DnOf(attrs).value).0) in attrs
    ensures var o := RenameOf(attrs, k + "=" + a + "=" + b, newSdn, delold);
      o.error.None? && k in o.attrs && o.attrs[k] == Str(a)
  {
    var rdn := k + "=" + a + "=" + b;
    assert rdn == k + ['='] + (a + ['='] + b);
    SplitFirst(k, '=', a + ['='] + b);
    SplitFirst(a, '=', b);
    RenameSetsNaming(attrs, rdn, newSdn, delold);
  }

  /** When the update gets past the deletion and the new rdn has a '=', the
      field before it gets the text between the first and second '='. */
  lemma RenameSetsNaming(attrs: Attrs, newRdn: string, newSdn: Option<string>, delold: bool)
    requires DnOf(attrs).Ok?
    requires !delold || NamingAttribute(SplitDn(DnOf(attrs).value).0) in attrs
    requires |SplitOn(newRdn, '=')| >= 2 && SplitOn(newRdn, '=')[0] != "dn"
    ensures var o := RenameOf(attrs, newRdn, newSdn, delold);
      o.error.None? && SplitOn(newRdn, '=')[0] in o.attrs && o.attrs[SplitOn(newRdn, '=')[0]] == Str(SplitOn(newRdn, '=')[1])
  {
  }

  /** Renaming k=old,S to k=new under another superior T with delold (the
      shape of renaming cn=old,dc=org,dc=com to cn=foo under dc=new,dc=com):
      the call moves the entry to T, and the instance ends with field k set
      to the new value and dn k=new,T, all else as before. */
  lemma RenameMove(attrs: Attrs, k: string, oldValue: string, oldSdn: string, newValue: string, newSdn: string)
    requires '=' !in k && '=' !in oldValue && '=' !in newValue && ',' !in k && ',' !in oldValue
    requires k != "dn" && k in attrs
    requires "dn" in attrs && attrs["dn"] == Str(k + "=" + oldValue + "," + oldSdn)
    requires newSdn != "" && newSdn != oldSdn
    ensures var o := RenameOf(attrs, k + "=" + newValue, Some(newSdn), true);
      o.call == Some(RenameCall(k + "=" + oldValue + "," + oldSdn, k + "=" + newValue, Some(newSdn), true)) &&
      o.error == None &&
      o.attrs == attrs[k := Str(newValue)]["dn" := Str(k + "=" + newValue + "," + newSdn)]
  {
    var oldRdn, newRdn := k + "=" + oldValue, k + "=" + newValue;
    var dn := oldRdn + "," + oldSdn;
    assert dn == k + "=" + oldValue + "," + oldSdn;
    assert DnOf(attrs) == Ok(dn);
    assert ',' !in oldRdn;
    SplitJoin(oldRdn, oldSdn);
    assert SentSuperior(oldSdn, Some(newSdn)) == Some(newSdn);
    assert oldRdn == k + ['='] + oldValue;
    SplitPair(k, '=', oldValue);
    assert newRdn == k + ['='] + newValue;
    SplitPair(k, '=', newValue);
    assert (attrs - {k})[k := Str(newValue)] == attrs[k := Str(newValue)];
  }
}
