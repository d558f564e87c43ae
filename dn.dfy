/** Distinguished names split naively on their first comma, as split_dn and
    parent_dn do (an escaped comma such as `\,` is split like any other). */
module Dn {
  import Text

  /** split_dn: (rdn, superior). With no comma, find() gives -1, so the rdn
      is the DN without its last character and the superior is the whole DN. */
  function SplitDn(dn: string): (string, string) {
    var i := Text.Find(dn, ',');
    if i >= 0 then (dn[..i], dn[i + 1..])
    else (if |dn| == 0 then "" else dn[..|dn| - 1], dn)
  }

  function ParentDn(dn: string): string {
    SplitDn(dn).1
  }

  /** With a comma present, the DN is rdn + "," + superior and the rdn holds
      no comma; parent_dn is that superior. */
  lemma SplitDnComma(dn: string)
    requires ',' in dn
    ensures SplitDn(dn).0 + "," + SplitDn(dn).1 == dn
    ensures ',' !in SplitDn(dn).0
    ensures ParentDn(dn) == SplitDn(dn).1
  {
    var i := Text.Find(dn, ',');
    assert dn == dn[..i] + [dn[i]] + dn[i + 1..];
  }

  /** Joining an rdn without commas to a superior and splitting again gives
      both parts back. */
  lemma SplitJoin(rdn: string, superior: string)
    requires ',' !in rdn
    ensures SplitDn(rdn + "," + superior) == (rdn, superior)
  {
    var dn := rdn + "," + superior;
    assert dn[|rdn|] == ',';
    assert dn[..|rdn|] == rdn;
    assert Text.Find(dn, ',') == |rdn|;
    assert dn[|rdn| + 1..] == superior;
  }

  /** The naive split on a DN without a comma: the superior is the DN itself,
      so the parent of a one-component DN is that DN. */
  lemma SplitDnNoComma(dn: string)
    requires ',' !in dn
    ensures ParentDn(dn) == dn
    ensures |dn| > 0 ==> SplitDn(dn).0 + [dn[|dn| - 1]] == dn
  {
  }
}
