/**
 * The two ways the shop narrows the catalog before showing it: the
 * inclusive price-range buttons and the case-insensitive text search over
 * product names and descriptions. Both keep catalog order.
 */
module Filters {
  import opened Catalog
  import Seqs

  /** Products priced from `min` to `max` cents, both ends included. */
  function FilterByPrice(catalog: seq<Product>, min: int, max: int): (r: seq<Product>)
    ensures Seqs.IsSubsequence(r, catalog)
    ensures forall p :: p in r <==> p in catalog && min <= p.price <= max
    ensures forall p :: multiset(r)[p] == if min <= p.price <= max then multiset(catalog)[p] else 0
  {
    var keep := (p: Product) => min <= p.price <= max;
    Seqs.FilterCounts(catalog, keep);
    Seqs.Filter(catalog, keep)
  }

  /** The filter buttons of the product section. */
  datatype PriceButton = Under100 | From100To300 | From300 | AllProducts

  /**
   * The products a button shows. The dollar bounds 0-100, 100-300 and
   * 300-1000 are inclusive at both ends; "All Products" shows everything.
   */
  function Shown(catalog: seq<Product>, b: PriceButton): (r: seq<Product>)
    ensures b != AllProducts ==> Seqs.IsSubsequence(r, catalog)
    ensures b == AllProducts ==> r == catalog
    ensures b == Under100 ==> forall p :: p in r <==> p in catalog && p.price <= 10000
    ensures b == From100To300 ==> forall p :: p in r <==> p in catalog && 10000 <= p.price <= 30000
    ensures b == From300 ==> forall p :: p in r <==> p in catalog && 30000 <= p.price <= 100000
  {
    match b
    case Under100 => FilterByPrice(catalog, 0, 10000)
    case From100To300 => FilterByPrice(catalog, 10000, 30000)
    case From300 => FilterByPrice(catalog, 30000, 100000)
    case AllProducts => catalog
  }

  /**
   * Reference scenario: the $100 - $300 button shows Smartwatch Pro,
   * Camera Pro (299.99 is within the inclusive bound) and Tablet Ultra,
   * in catalog order.
   */
  lemma MidBandOfReferenceCatalog()
    ensures Shown(Products, From100To300) == [Products[1], Products[3], Products[4]]
  {
    MidBandOfSix(Products[0], Products[1], Products[2], Products[3], Products[4], Products[5]);
    assert Products == [Products[0], Products[1], Products[2], Products[3], Products[4], Products[5]];
  }

  /** The mid band over six products priced like the reference catalog. */
  lemma MidBandOfSix(p0: Product, p1: Product, p2: Product, p3: Product, p4: Product, p5: Product)
    requires p0.price == 9999 && p1.price == 19999 && p2.price == 7999
    requires p3.price == 29999 && p4.price == 14999 && p5.price == 89999
    ensures FilterByPrice([p0, p1, p2, p3, p4, p5], 10000, 30000) == [p1, p3, p4]
  {
    var keep := (p: Product) => 10000 <= p.price <= 30000;
    assert Seqs.Filter([p0, p1, p2], keep) == [p1] by {
      Seqs.FilterOfThree(p0, p1, p2, keep);
    }
    assert Seqs.Filter([p3, p4, p5], keep) == [p3, p4] by {
      Seqs.FilterOfThree(p3, p4, p5, keep);
    }
    assert [p0, p1, p2, p3, p4, p5] == [p0, p1, p2] + [p3, p4, p5];
    Seqs.FilterAppend([p0, p1, p2], [p3, p4, p5], keep);
  }

  /**
   * The bands share their end points: a product priced exactly 100.00 is
   * shown under both "Under $100" and "$100 - $300".
   */
  lemma BandsShareBoundary(p: Product)
    requires p.price == 10000
    ensures p in Shown([p], Under100) && p in Shown([p], From100To300)
  {
  }

  /** ASCII lower-casing of one character. */
  function LowerChar(c: char): char {
    if 'A' <= c <= 'Z' then (c as int + 32) as char else c
  }

  /**
   * `s` with every ASCII capital replaced by its small letter and every
   * other character kept.
   */
  function Lower(s: string): (r: string)
    ensures |r| == |s|
    ensures forall i :: 0 <= i < |r| ==> !('A' <= r[i] <= 'Z')
    ensures forall i :: 0 <= i < |s| ==>
      r[i] == s[i] || ('A' <= s[i] <= 'Z' && r[i] as int == s[i] as int + 32)
  {
    seq(|s|, i requires 0 <= i < |s| => LowerChar(s[i]))
  }

  /** Lower-casing twice is lower-casing once. */
  lemma LowerIdempotent(s: string)
    ensures Lower(Lower(s)) == Lower(s)
  {
  }

  /** Lower-casing commutes with slicing. */
  lemma LowerSlice(s: string, i: nat, j: nat)
    requires i <= j <= |s|
    ensures Lower(s)[i..j] == Lower(s[i..j])
  {
  }

  /** `needle` occurs in `hay` starting at position `i`. */
  predicate OccursAt(hay: string, needle: string, i: nat) {
    i + |needle| <= |hay| && hay[i..i + |needle|] == needle
  }

  /** Occurrences in the tail of `hay` are the occurrences in `hay` one place later. */
  lemma OccursInTail(hay: string, needle: string)
    requires |hay| > 0
    ensures forall j: nat :: OccursAt(hay[1..], needle, j) <==> OccursAt(hay, needle, j + 1)
    ensures forall i: nat :: 1 <= i ==> (OccursAt(hay, needle, i) <==> OccursAt(hay[1..], needle, i - 1))
  {
  }

  /**
   * `needle` occurs as a contiguous piece of `hay`; the empty needle
   * occurs in every string.
   */
  function Includes(hay: string, needle: string): (r: bool)
    ensures r <==> exists i: nat :: OccursAt(hay, needle, i)
    decreases |hay|
  {
    if needle <= hay then
      assert OccursAt(hay, needle, 0);
      true
    else if |hay| == 0 then
      false
    else
      var r := Includes(hay[1..], needle);
      OccursInTail(hay, needle);
      assert !OccursAt(hay, needle, 0);
      r
  }

  /** A piece of a string stays a piece of it after lower-casing both. */
  lemma IncludesLower(hay: string, needle: string)
    requires Includes(hay, needle)
    ensures Includes(Lower(hay), Lower(needle))
  {
    var i: nat :| OccursAt(hay, needle, i);
    LowerSlice(hay, i, i + |needle|);
    assert OccursAt(Lower(hay), Lower(needle), i);
  }

  /** The search test: the term occurs in the name or the description, ignoring case. */
  predicate Matches(p: Product, term: string) {
    Includes(Lower(p.name), Lower(term)) || Includes(Lower(p.description), Lower(term))
  }

  /** Catalog products that match the search term, in catalog order. */
  function SearchProducts(catalog: seq<Product>, term: string): (r: seq<Product>)
    ensures Seqs.IsSubsequence(r, catalog)
    ensures forall p :: p in r <==> p in catalog && Matches(p, term)
    ensures forall p :: multiset(r)[p] == if Matches(p, term) then multiset(catalog)[p] else 0
  {
    var keep := (p: Product) => Matches(p, term);
    Seqs.FilterCounts(catalog, keep);
    Seqs.Filter(catalog, keep)
  }

  /** The empty search term shows the whole catalog. */
  lemma EmptyTermShowsAll(catalog: seq<Product>)
    ensures SearchProducts(catalog, "") == catalog
  {
    forall i | 0 <= i < |catalog|
      ensures Matches(catalog[i], "")
    {
      assert OccursAt(Lower(catalog[i].name), Lower(""), 0);
    }
  }

  /** The search does not depend on the case of the term. */
  lemma SearchIgnoresTermCase(catalog: seq<Product>, term: string)
    ensures SearchProducts(catalog, term) == SearchProducts(catalog, Lower(term))
  {
    LowerIdempotent(term);
    Seqs.FilterCongruent(catalog, (p: Product) => Matches(p, term), (p: Product) => Matches(p, Lower(term)));
  }

  /** A product whose name contains the term verbatim is always found. */
  lemma VerbatimNameIsFound(catalog: seq<Product>, p: Product, term: string)
    requires p in catalog
    requires Includes(p.name, term)
    ensures p in SearchProducts(catalog, term)
  {
    IncludesLower(p.name, term);
  }
}
