/** The closed table of regions and the cost-center codes that belong to each. */
module Regions {
  import opened Wrappers

  datatype Region = Bordo | Popayan | Santander | Ambienta | Valle | Pasto | Tuquerres | Pitalito

  /** The regions in the order the table declares them, which is the order the assignment loop visits them. */
  const Declared: seq<Region> := [Bordo, Popayan, Santander, Ambienta, Valle, Pasto, Tuquerres, Pitalito]

  /** The region's key in the table, which is also the label written into the REGION column. */
  function Name(r: Region): string {
    match r
    case Bordo => "BORDO"
    case Popayan => "POPAYAN"
    case Santander => "SANTANDER"
    case Ambienta => "AMBIENTA"
    case Valle => "VALLE"
    case Pasto => "PASTO"
    case Tuquerres => "TUQUERRES"
    case Pitalito => "PITALITO"
  }

  /** The region whose label is `s`, if any: the inverse of `Name`. */
  function Named(s: string): Option<Region> {
    if s == "BORDO" then Some(Bordo)
    else if s == "POPAYAN" then Some(Popayan)
    else if s == "SANTANDER" then Some(Santander)
    else if s == "AMBIENTA" then Some(Ambienta)
    else if s == "VALLE" then Some(Valle)
    else if s == "PASTO" then Some(Pasto)
    else if s == "TUQUERRES" then Some(Tuquerres)
    else if s == "PITALITO" then Some(Pitalito)
    else None
  }

  /** Every label reads back as its region, so two regions never share a label. */
  lemma NamedName(r: Region)
    ensures Named(Name(r)) == Some(r)
  {
  }

  /** The cost-center codes listed for the region. */
  function Codes(r: Region): seq<string> {
    match r
    case Bordo => ["10201", "10204"]
    case Popayan => ["10101"]
    case Santander => ["103", "10301"]
    case Ambienta => ["10401"]
    case Valle => ["20101"]
    case Pasto => ["30101"]
    case Tuquerres => ["30301"]
    case Pitalito => ["70101", "70102", "70104"]
  }

  lemma DeclaredIsComplete(r: Region)
    ensures r in Declared
  {
  }

  /** No code is listed under two different regions. */
  lemma CodesDisjoint(r1: Region, r2: Region, code: string)
    requires code in Codes(r1) && code in Codes(r2)
    ensures r1 == r2
  {
  }

  /**
   * The region the assignment loop leaves for `code` after visiting `order`:
   * each visited region whose list holds the code overwrites the previous one,
   * so the last such region in `order` wins.
   */
  function Scan(order: seq<Region>, code: string): Option<Region> {
    if order == [] then None
    else if code in Codes(order[|order| - 1]) then Some(order[|order| - 1])
    else Scan(order[..|order| - 1], code)
  }

  /** The region of a (trimmed) cost-center code: what the loop over the declared table assigns. */
  function RegionOf(code: string): Option<Region> {
    Scan(Declared, code)
  }

  /** Whatever the visiting order, the loop picks a visited region whose list holds the code, if there is one. */
  lemma {:induction false} ScanFinds(order: seq<Region>, code: string)
    ensures Scan(order, code).Some? ==> Scan(order, code).value in order && code in Codes(Scan(order, code).value)
    ensures Scan(order, code).None? <==> forall r :: r in order ==> code !in Codes(r)
  {
    if order != [] {
      var last := order[|order| - 1];
      var init := order[..|order| - 1];
      assert order == init + [last];
      ScanFinds(init, code);
    }
  }

  /** With disjoint lists, the loop's result is the one region holding the code, in any visiting order. */
  lemma ScanExact(order: seq<Region>, code: string, r: Region)
    ensures Scan(order, code) == Some(r) <==> r in order && code in Codes(r)
  {
    ScanFinds(order, code);
    if r in order && code in Codes(r) {
      var found := Scan(order, code);
      assert found.Some?;
      CodesDisjoint(found.value, r, code);
    }
  }

  /** Two visiting orders over the same regions assign the same region: declaration order does not matter. */
  lemma ScanOrderIndependent(order1: seq<Region>, order2: seq<Region>, code: string)
    requires forall r :: r in order1 <==> r in order2
    ensures Scan(order1, code) == Scan(order2, code)
  {
    ScanFinds(order1, code);
    ScanFinds(order2, code);
    if Scan(order1, code).Some? {
      ScanExact(order2, code, Scan(order1, code).value);
    }
  }

  /** A code gets region `r` exactly when `r`'s list holds it (exact match, not prefix), and none when no list does. */
  lemma RegionOfExact(code: string, r: Region)
    ensures RegionOf(code) == Some(r) <==> code in Codes(r)
    ensures RegionOf(code).None? <==> forall q: Region :: code !in Codes(q)
  {
    DeclaredIsComplete(r);
    ScanExact(Declared, code, r);
    ScanFinds(Declared, code);
    forall q: Region ensures q in Declared {
      DeclaredIsComplete(q);
    }
  }
}
