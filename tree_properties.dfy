/**
 * Properties of the write operations on one franchise: what a later lookup
 * sees, idempotence of the renames and updates, what each operation leaves
 * alone, and preservation of the validated shape of the tree.
 */
module TreeProperties {
  import opened Model
  import opened Tree

  // ---------------------------------------------------------------------
  // Projections that forget one kind of field
  // ---------------------------------------------------------------------

  /** The tree with every name blanked out: ids, stocks and list lengths remain. */
  function Unnamed(f: Franchise): Franchise {
    Franchise(f.id, "", seq(|f.branches|, k requires 0 <= k < |f.branches| =>
      var b := f.branches[k];
      Branch(b.id, "", seq(|b.products|, j requires 0 <= j < |b.products| => b.products[j].(name := "")))))
  }

  /** The tree with every stock zeroed: ids, names and list lengths remain. */
  function Unstocked(f: Franchise): Franchise {
    f.(branches := seq(|f.branches|, k requires 0 <= k < |f.branches| =>
      var b := f.branches[k];
      b.(products := seq(|b.products|, j requires 0 <= j < |b.products| => b.products[j].(stock := 0)))))
  }

  // ---------------------------------------------------------------------
  // addBranchToFranchise
  // ---------------------------------------------------------------------

  /**
   * The new branch goes at the end, earlier branches are untouched, and
   * every id that was found before is still found at the same place. The new
   * branch is reachable by its id exactly when no earlier branch had that id:
   * the id is never checked for uniqueness, so a colliding id is shadowed.
   */
  lemma AddBranchLookup(f: Franchise, branchId: string, name: string)
    ensures var r := AddBranch(f, branchId, name);
      && r.id == f.id && r.name == f.name
      && |r.branches| == |f.branches| + 1
      && r.branches[..|f.branches|] == f.branches
      && r.branches[|f.branches|] == NewBranch(branchId, name)
    ensures forall x :: BranchIndex(f.branches, x).Some? ==>
      BranchIndex(AddBranch(f, branchId, name).branches, x) == BranchIndex(f.branches, x)
    ensures BranchIndex(f.branches, branchId).None? ==>
      BranchIndex(AddBranch(f, branchId, name).branches, branchId) == Some(|f.branches|)
  {
    forall x | BranchIndex(f.branches, x).Some?
      ensures BranchIndex(AddBranch(f, branchId, name).branches, x) == BranchIndex(f.branches, x)
    {
      BranchIndexAppend(f.branches, NewBranch(branchId, name), x);
    }
    BranchIndexAppend(f.branches, NewBranch(branchId, name), branchId);
  }

  // ---------------------------------------------------------------------
  // addProductToBranch
  // ---------------------------------------------------------------------

  /**
   * After adding a product every branch lookup answers as before, and in the
   * target branch the new product is found by its id exactly when no earlier
   * product of that branch had the id.
   */
  lemma AddProductLookup(f: Franchise, branchId: string, productId: string, name: string, stock: int)
    requires AddProduct(f, branchId, productId, name, stock).Ok?
    ensures var g := AddProduct(f, branchId, productId, name, stock).value;
      forall x :: BranchIndex(g.branches, x) == BranchIndex(f.branches, x)
    ensures var g := AddProduct(f, branchId, productId, name, stock).value;
      var i := BranchIndex(f.branches, branchId).value;
      && (ProductIndex(f.branches[i].products, productId).None? ==>
            ProductIndex(g.branches[i].products, productId) == Some(|f.branches[i].products|))
      && (ProductIndex(f.branches[i].products, productId).Some? ==>
            ProductIndex(g.branches[i].products, productId) == ProductIndex(f.branches[i].products, productId))
  {
    var g := AddProduct(f, branchId, productId, name, stock).value;
    var i := BranchIndex(f.branches, branchId).value;
    forall x ensures BranchIndex(g.branches, x) == BranchIndex(f.branches, x) {
      BranchIndexSeesOnlyIds(g.branches, f.branches, x);
    }
    assert g.branches[i].products == f.branches[i].products + [Product(productId, name, stock)];
    ProductIndexAppend(f.branches[i].products, Product(productId, name, stock), productId);
  }

  // ---------------------------------------------------------------------
  // deleteProductFromBranch
  // ---------------------------------------------------------------------

  /** `removeIf` commutes with concatenation: what survives keeps its order. */
  lemma {:induction false} RemoveAllAppend(a: seq<Product>, b: seq<Product>, productId: string)
    ensures RemoveAll(a + b, productId) == RemoveAll(a, productId) + RemoveAll(b, productId)
  {
    if |a| > 0 {
      assert (a + b)[1..] == a[1..] + b;
      RemoveAllAppend(a[1..], b, productId);
    } else {
      assert a + b == b;
    }
  }

  /** Every product with the id goes; every other product stays, as often as it occurred. */
  lemma {:induction false} RemoveAllCounts(ps: seq<Product>, productId: string, p: Product)
    ensures multiset(RemoveAll(ps, productId))[p] == if p.id == productId then 0 else multiset(ps)[p]
  {
    if |ps| > 0 {
      RemoveAllCounts(ps[1..], productId, p);
      assert ps == [ps[0]] + ps[1..];
    }
  }

  /** When no product has the id, `removeIf` changes nothing. */
  lemma {:induction false} RemoveAllNoMatch(ps: seq<Product>, productId: string)
    requires ProductIndex(ps, productId).None?
    ensures RemoveAll(ps, productId) == ps
  {
    if |ps| > 0 {
      assert ProductIndex(ps[1..], productId).None?;
      RemoveAllNoMatch(ps[1..], productId);
    }
  }

  /** After a successful delete the id is gone from the branch, so deleting it again fails. */
  lemma DeleteProductTwice(f: Franchise, branchId: string, productId: string)
    requires DeleteProduct(f, branchId, productId).Ok?
    ensures var g := DeleteProduct(f, branchId, productId).value;
      && BranchIndex(g.branches, branchId) == BranchIndex(f.branches, branchId)
      && ProductIndex(g.branches[BranchIndex(f.branches, branchId).value].products, productId).None?
      && DeleteProduct(g, branchId, productId) == Err(NotFound(ProductEntity, productId))
  {
    var g := DeleteProduct(f, branchId, productId).value;
    BranchIndexSeesOnlyIds(g.branches, f.branches, branchId);
  }

  // ---------------------------------------------------------------------
  // updateProductStock
  // ---------------------------------------------------------------------

  /** Only stocks change: ids, names and list lengths are those of the loaded tree. */
  lemma UpdateStockKeepsAllButStock(f: Franchise, branchId: string, productId: string, stock: int)
    requires UpdateStock(f, branchId, productId, stock).Ok?
    ensures Unstocked(UpdateStock(f, branchId, productId, stock).value) == Unstocked(f)
  {
    var g := UpdateStock(f, branchId, productId, stock).value;
    var i := BranchIndex(f.branches, branchId).value;
    var j := ProductIndex(f.branches[i].products, productId).value;
    var a, b := Unstocked(g), Unstocked(f);
    forall k | 0 <= k < |f.branches| ensures a.branches[k] == b.branches[k] {
      if k == i {
        assert a.branches[k].products == b.branches[k].products;
      }
    }
  }

  /** Reading the product back finds it at the same place, holding the new stock. */
  lemma UpdateStockReadBack(f: Franchise, branchId: string, productId: string, stock: int)
    requires UpdateStock(f, branchId, productId, stock).Ok?
    ensures var g := UpdateStock(f, branchId, productId, stock).value;
      var i := BranchIndex(f.branches, branchId).value;
      && BranchIndex(g.branches, branchId) == Some(i)
      && ProductIndex(g.branches[i].products, productId) == ProductIndex(f.branches[i].products, productId)
      && g.branches[i].products[ProductIndex(f.branches[i].products, productId).value].stock == stock
  {
    var g := UpdateStock(f, branchId, productId, stock).value;
    var i := BranchIndex(f.branches, branchId).value;
    BranchIndexSeesOnlyIds(g.branches, f.branches, branchId);
    ProductIndexSeesOnlyIds(g.branches[i].products, f.branches[i].products, productId);
  }

  /** Setting the same stock twice is the same as setting it once. */
  lemma UpdateStockIdempotent(f: Franchise, branchId: string, productId: string, stock: int)
    requires UpdateStock(f, branchId, productId, stock).Ok?
    ensures var g := UpdateStock(f, branchId, productId, stock).value;
      UpdateStock(g, branchId, productId, stock) == Ok(g)
  {
    var g := UpdateStock(f, branchId, productId, stock).value;
    var i := BranchIndex(f.branches, branchId).value;
    var j := ProductIndex(f.branches[i].products, productId).value;
    UpdateStockReadBack(f, branchId, productId, stock);
    var h := UpdateStock(g, branchId, productId, stock).value;
    assert h.branches[i].products == g.branches[i].products;
    assert h.branches == g.branches;
  }

  // ---------------------------------------------------------------------
  // The renames
  // ---------------------------------------------------------------------

  /** Renaming the franchise keeps every id, stock and list; renaming twice equals renaming once. */
  lemma RenameFranchiseSpec(f: Franchise, name: string)
    ensures RenameFranchise(f, name).name == name
    ensures Unnamed(RenameFranchise(f, name)) == Unnamed(f)
    ensures RenameFranchise(f, name).branches == f.branches
    ensures RenameFranchise(RenameFranchise(f, name), name) == RenameFranchise(f, name)
  {
  }

  /** Renaming a branch keeps every id, stock and list; renaming it twice equals renaming it once. */
  lemma RenameBranchSpec(f: Franchise, branchId: string, name: string)
    requires RenameBranch(f, branchId, name).Ok?
    ensures Unnamed(RenameBranch(f, branchId, name).value) == Unnamed(f)
    ensures var g := RenameBranch(f, branchId, name).value;
      RenameBranch(g, branchId, name) == Ok(g)
  {
    var g := RenameBranch(f, branchId, name).value;
    var i := BranchIndex(f.branches, branchId).value;
    var a, b := Unnamed(g), Unnamed(f);
    forall k | 0 <= k < |f.branches| ensures a.branches[k] == b.branches[k] {
    }
    BranchIndexSeesOnlyIds(g.branches, f.branches, branchId);
    var h := RenameBranch(g, branchId, name).value;
    assert h.branches == g.branches;
  }

  /** Renaming a product keeps every id, stock and list; renaming it twice equals renaming it once. */
  lemma RenameProductSpec(f: Franchise, branchId: string, productId: string, name: string)
    requires RenameProduct(f, branchId, productId, name).Ok?
    ensures Unnamed(RenameProduct(f, branchId, productId, name).value) == Unnamed(f)
    ensures var g := RenameProduct(f, branchId, productId, name).value;
      RenameProduct(g, branchId, productId, name) == Ok(g)
  {
    var g := RenameProduct(f, branchId, productId, name).value;
    var i := BranchIndex(f.branches, branchId).value;
    var j := ProductIndex(f.branches[i].products, productId).value;
    var a, b := Unnamed(g), Unnamed(f);
    forall k | 0 <= k < |f.branches| ensures a.branches[k] == b.branches[k] {
      if k == i {
        assert a.branches[k].products == b.branches[k].products;
      }
    }
    BranchIndexSeesOnlyIds(g.branches, f.branches, branchId);
    ProductIndexSeesOnlyIds(g.branches[i].products, f.branches[i].products, productId);
    var h := RenameProduct(g, branchId, productId, name).value;
    assert h.branches[i].products == g.branches[i].products;
    assert h.branches == g.branches;
  }

  // ---------------------------------------------------------------------
  // Validation is preserved: names stay non-blank, stocks stay in range
  // ---------------------------------------------------------------------

  lemma RenameFranchisePreservesWellFormed(f: Franchise, name: string)
    requires WellFormed(f) && NonBlank(name)
    ensures WellFormed(RenameFranchise(f, name))
  {
  }

  lemma AddBranchPreservesWellFormed(f: Franchise, branchId: string, name: string)
    requires WellFormed(f) && NonBlank(name)
    ensures WellFormed(AddBranch(f, branchId, name))
  {
    var g := AddBranch(f, branchId, name);
    assert forall k :: 0 <= k < |f.branches| ==> g.branches[k] == f.branches[k];
  }

  lemma RenameBranchPreservesWellFormed(f: Franchise, branchId: string, name: string)
    requires WellFormed(f) && NonBlank(name)
    ensures RenameBranch(f, branchId, name).Ok? ==> WellFormed(RenameBranch(f, branchId, name).value)
  {
  }

  lemma AddProductPreservesWellFormed(f: Franchise, branchId: string, productId: string, name: string, stock: int)
    requires WellFormed(f) && NonBlank(name) && ValidStock(stock)
    ensures AddProduct(f, branchId, productId, name, stock).Ok? ==>
      WellFormed(AddProduct(f, branchId, productId, name, stock).value)
  {
    var r := AddProduct(f, branchId, productId, name, stock);
    if r.Ok? {
      var i := BranchIndex(f.branches, branchId).value;
      var ps := r.value.branches[i].products;
      assert forall k :: 0 <= k < |f.branches[i].products| ==> ps[k] == f.branches[i].products[k];
    }
  }

  /** Every product that survives `removeIf` was in the list. */
  lemma {:induction false} RemoveAllKeepsMembers(ps: seq<Product>, productId: string)
    ensures forall k :: 0 <= k < |RemoveAll(ps, productId)| ==> RemoveAll(ps, productId)[k] in ps
  {
    if |ps| > 0 {
      RemoveAllKeepsMembers(ps[1..], productId);
    }
  }

  lemma DeleteProductPreservesWellFormed(f: Franchise, branchId: string, productId: string)
    requires WellFormed(f)
    ensures DeleteProduct(f, branchId, productId).Ok? ==> WellFormed(DeleteProduct(f, branchId, productId).value)
  {
    var r := DeleteProduct(f, branchId, productId);
    if r.Ok? {
      var i := BranchIndex(f.branches, branchId).value;
      RemoveAllKeepsMembers(f.branches[i].products, productId);
    }
  }

  lemma UpdateStockPreservesWellFormed(f: Franchise, branchId: string, productId: string, stock: int)
    requires WellFormed(f) && ValidStock(stock)
    ensures UpdateStock(f, branchId, productId, stock).Ok? ==>
      WellFormed(UpdateStock(f, branchId, productId, stock).value)
  {
  }

  lemma RenameProductPreservesWellFormed(f: Franchise, branchId: string, productId: string, name: string)
    requires WellFormed(f) && NonBlank(name)
    ensures RenameProduct(f, branchId, productId, name).Ok? ==>
      WellFormed(RenameProduct(f, branchId, productId, name).value)
  {
  }
}
