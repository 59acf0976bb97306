/**
 * The top-products query: for every branch that has products, one record
 * carrying a product of maximum stock, the earliest one on ties.
 */
module TopProducts {
  import opened Model

  /**
   * `products.stream().max(Comparator.comparing(Product::getStock))`: a left
   * fold that keeps the element seen so far unless the next one is strictly
   * larger, so the first product of maximum stock wins.
   */
  function MaxStockIndex(ps: seq<Product>): (k: nat)
    requires |ps| > 0
    ensures k < |ps|
    ensures forall j :: 0 <= j < |ps| ==> ps[j].stock <= ps[k].stock
    ensures forall j :: 0 <= j < k ==> ps[j].stock < ps[k].stock
    decreases |ps|
  {
    if |ps| == 1 then 0
    else
      var k := MaxStockIndex(ps[..|ps| - 1]);
      if ps[k].stock >= ps[|ps| - 1].stock then k else |ps| - 1
  }

  /** The record built for one branch; the source maps a branch without a maximum to `null`. */
  function TopRecord(b: Branch): (r: Option<TopProduct>)
    ensures r.None? <==> |b.products| == 0
  {
    if |b.products| == 0 then None
    else
      var p := b.products[MaxStockIndex(b.products)];
      Some(TopProduct(p.id, p.name, p.stock, b.id, b.name))
  }

  /**
   * `Flux.fromIterable(branches).filter(non-empty).map(TopRecord).filter(nonNull)`,
   * written as a fold from the last branch back.
   */
  function TopProductsOf(bs: seq<Branch>): (r: seq<TopProduct>)
    ensures |r| <= |bs|
  {
    if |bs| == 0 then []
    else
      var rest := TopProductsOf(bs[..|bs| - 1]);
      var b := bs[|bs| - 1];
      if |b.products| == 0 then rest
      else match TopRecord(b)
        case None => rest
        case Some(t) => rest + [t]
  }

  /** Positions of the branches that have at least one product, in branch order. */
  function NonEmptyBranches(bs: seq<Branch>): seq<nat> {
    if |bs| == 0 then []
    else
      var rest := NonEmptyBranches(bs[..|bs| - 1]);
      if |bs[|bs| - 1].products| == 0 then rest else rest + [|bs| - 1]
  }

  /**
   * `t` is the record of branch `b`: it copies the branch's id and name and
   * names a product of `b` whose stock is at least every product's stock in
   * `b` and strictly above that of every product before it.
   */
  predicate IsTopRecord(t: TopProduct, b: Branch) {
    && t.branchId == b.id
    && t.branchName == b.name
    && (exists k :: 0 <= k < |b.products|
         && b.products[k] == Product(t.productId, t.productName, t.stock)
         && (forall j :: 0 <= j < |b.products| ==> b.products[j].stock <= t.stock)
         && (forall j :: 0 <= j < k ==> b.products[j].stock < t.stock))
  }

  /** The null filter drops nothing: every branch that survives the emptiness filter has a record. */
  lemma NullFilterDropsNothing(b: Branch)
    requires |b.products| > 0
    ensures TopRecord(b).Some? && IsTopRecord(TopRecord(b).value, b)
  {
    var k := MaxStockIndex(b.products);
    assert b.products[k] == Product(TopRecord(b).value.productId, TopRecord(b).value.productName, TopRecord(b).value.stock);
  }

  /** The non-empty branch positions are increasing, in range, and miss no non-empty branch. */
  lemma {:induction false} NonEmptyBranchesSpec(bs: seq<Branch>)
    ensures forall i :: 0 <= i < |NonEmptyBranches(bs)| ==>
      NonEmptyBranches(bs)[i] < |bs| && |bs[NonEmptyBranches(bs)[i]].products| > 0
    ensures forall i, j :: 0 <= i < j < |NonEmptyBranches(bs)| ==> NonEmptyBranches(bs)[i] < NonEmptyBranches(bs)[j]
    ensures forall k :: 0 <= k < |bs| && |bs[k].products| > 0 ==> k in NonEmptyBranches(bs)
  {
    if |bs| > 0 {
      var front := bs[..|bs| - 1];
      NonEmptyBranchesSpec(front);
      assert forall k :: 0 <= k < |front| ==> front[k] == bs[k];
    }
  }

  /**
   * One record per non-empty branch, in branch order: the i-th record is the
   * record of the i-th branch that has products, and empty branches yield none.
   */
  lemma {:induction false} TopProductsSpec(bs: seq<Branch>)
    ensures |TopProductsOf(bs)| == |NonEmptyBranches(bs)|
    ensures forall i :: 0 <= i < |TopProductsOf(bs)| ==>
      NonEmptyBranches(bs)[i] < |bs| && IsTopRecord(TopProductsOf(bs)[i], bs[NonEmptyBranches(bs)[i]])
  {
    if |bs| > 0 {
      var front, b := bs[..|bs| - 1], bs[|bs| - 1];
      TopProductsSpec(front);
      var r, rf := TopProductsOf(bs), TopProductsOf(front);
      var n, nf := NonEmptyBranches(bs), NonEmptyBranches(front);
      if |b.products| == 0 {
        assert r == rf && n == nf;
      } else {
        NullFilterDropsNothing(b);
        assert r == rf + [TopRecord(b).value] && n == nf + [|bs| - 1];
      }
      forall i | 0 <= i < |r| ensures n[i] < |bs| && IsTopRecord(r[i], bs[n[i]]) {
        if i < |rf| {
          assert r[i] == rf[i] && n[i] == nf[i] && bs[n[i]] == front[nf[i]];
        }
      }
    }
  }

  /** A franchise whose branches are all empty yields no records: empty branches are skipped silently. */
  lemma {:induction false} TopProductsAllEmpty(bs: seq<Branch>)
    requires forall k :: 0 <= k < |bs| ==> |bs[k].products| == 0
    ensures TopProductsOf(bs) == []
  {
    if |bs| > 0 {
      TopProductsAllEmpty(bs[..|bs| - 1]);
    }
  }

  /** Concatenating branch lists concatenates their records. */
  lemma {:induction false} TopProductsAppend(a: seq<Branch>, b: seq<Branch>)
    ensures TopProductsOf(a + b) == TopProductsOf(a) + TopProductsOf(b)
    decreases |b|
  {
    if |b| == 0 {
      assert a + b == a;
    } else {
      assert (a + b)[..|a + b| - 1] == a + b[..|b| - 1];
      TopProductsAppend(a, b[..|b| - 1]);
    }
  }

  /** A branch with stocks 30, 100, 100 and an empty branch: one record, for the first product of stock 100. */
  lemma TopProductsTieExample(b1: Branch, b2: Branch)
    requires |b1.products| == 3
    requires b1.products[0].stock == 30 && b1.products[1].stock == 100 && b1.products[2].stock == 100
    requires b2.products == []
    ensures TopProductsOf([b1, b2]) == [TopProduct(
      b1.products[1].id, b1.products[1].name, 100, b1.id, b1.name)]
  {
    assert MaxStockIndex(b1.products) == 1;
    var t := TopProduct(b1.products[1].id, b1.products[1].name, 100, b1.id, b1.name);
    assert TopRecord(b1) == Some(t);
    assert [b1, b2][..1] == [b1];
    assert [b1][..0] == [];
    assert TopProductsOf([b1]) == TopProductsOf([]) + [t];
    assert TopProductsOf([b1, b2]) == TopProductsOf([b1]);
  }
}
