/**
 * What each write operation of the franchise service does to one loaded
 * franchise document: the first-match lookups, the error it reports, and the
 * single field or list it changes. The service methods are proved to compute
 * exactly these values.
 */
module Tree {
  import opened Model

  // ---------------------------------------------------------------------
  // Lookups: `stream().filter(x -> x.getId().equals(id)).findFirst()`
  // ---------------------------------------------------------------------

  /** Index of the first branch whose id is `id`, if any. */
  function BranchIndex(bs: seq<Branch>, id: string): (r: Option<nat>)
    ensures r.Some? ==> r.value < |bs| && bs[r.value].id == id
    ensures r.Some? ==> forall k :: 0 <= k < r.value ==> bs[k].id != id
    ensures r.None? <==> forall k :: 0 <= k < |bs| ==> bs[k].id != id
  {
    if |bs| == 0 then None
    else if bs[0].id == id then Some(0)
    else match BranchIndex(bs[1..], id)
      case None => None
      case Some(i) => Some(i + 1)
  }

  /** Index of the first product whose id is `id`, if any. */
  function ProductIndex(ps: seq<Product>, id: string): (r: Option<nat>)
    ensures r.Some? ==> r.value < |ps| && ps[r.value].id == id
    ensures r.Some? ==> forall k :: 0 <= k < r.value ==> ps[k].id != id
    ensures r.None? <==> forall k :: 0 <= k < |ps| ==> ps[k].id != id
  {
    if |ps| == 0 then None
    else if ps[0].id == id then Some(0)
    else match ProductIndex(ps[1..], id)
      case None => None
      case Some(i) => Some(i + 1)
  }

  /** Two branch lists of one length whose ids agree position by position. */
  predicate SameBranchIds(a: seq<Branch>, b: seq<Branch>) {
    |a| == |b| && forall k :: 0 <= k < |a| ==> a[k].id == b[k].id
  }

  predicate SameProductIds(a: seq<Product>, b: seq<Product>) {
    |a| == |b| && forall k :: 0 <= k < |a| ==> a[k].id == b[k].id
  }

  /** A lookup sees only ids: lists with the same ids give the same answer. */
  lemma {:induction false} BranchIndexSeesOnlyIds(a: seq<Branch>, b: seq<Branch>, id: string)
    requires SameBranchIds(a, b)
    ensures BranchIndex(a, id) == BranchIndex(b, id)
  {
    if |a| > 0 && a[0].id != id {
      BranchIndexSeesOnlyIds(a[1..], b[1..], id);
    }
  }

  lemma {:induction false} ProductIndexSeesOnlyIds(a: seq<Product>, b: seq<Product>, id: string)
    requires SameProductIds(a, b)
    ensures ProductIndex(a, id) == ProductIndex(b, id)
  {
    if |a| > 0 && a[0].id != id {
      ProductIndexSeesOnlyIds(a[1..], b[1..], id);
    }
  }

  /** Appending a branch never changes an earlier match; it is found only if nothing earlier matched. */
  lemma {:induction false} BranchIndexAppend(bs: seq<Branch>, b: Branch, id: string)
    ensures BranchIndex(bs + [b], id) ==
      if BranchIndex(bs, id).Some? then BranchIndex(bs, id)
      else if b.id == id then Some(|bs|)
      else None
  {
    if |bs| > 0 && bs[0].id != id {
      assert (bs + [b])[1..] == bs[1..] + [b];
      BranchIndexAppend(bs[1..], b, id);
    }
  }

  lemma {:induction false} ProductIndexAppend(ps: seq<Product>, p: Product, id: string)
    ensures ProductIndex(ps + [p], id) ==
      if ProductIndex(ps, id).Some? then ProductIndex(ps, id)
      else if p.id == id then Some(|ps|)
      else None
  {
    if |ps| > 0 && ps[0].id != id {
      assert (ps + [p])[1..] == ps[1..] + [p];
      ProductIndexAppend(ps[1..], p, id);
    }
  }

  // ---------------------------------------------------------------------
  // Frames
  // ---------------------------------------------------------------------

  /** `a` and `b` have one length and agree everywhere except possibly at index `i`. */
  predicate BranchesAgreeExcept(a: seq<Branch>, b: seq<Branch>, i: nat) {
    |a| == |b| && forall k :: 0 <= k < |a| && k != i ==> a[k] == b[k]
  }

  predicate ProductsAgreeExcept(a: seq<Product>, b: seq<Product>, i: nat) {
    |a| == |b| && forall k :: 0 <= k < |a| && k != i ==> a[k] == b[k]
  }

  /** The franchise with branch `i` replaced by `b`: the in-place update of the loaded tree. */
  function WithBranch(f: Franchise, i: nat, b: Branch): Franchise
    requires i < |f.branches|
  {
    f.(branches := f.branches[i := b])
  }

  // ---------------------------------------------------------------------
  // The write operations on one loaded franchise
  // ---------------------------------------------------------------------

  /** `franchise.setName(name)`. */
  function RenameFranchise(f: Franchise, name: string): Franchise {
    f.(name := name)
  }

  /** `franchise.getBranches().add(branch)` with a branch that has a fresh id and no products. */
  function AddBranch(f: Franchise, branchId: string, name: string): Franchise {
    f.(branches := f.branches + [NewBranch(branchId, name)])
  }

  /** Find the first branch with `branchId` (else NotFound) and `setName(name)` on it. */
  function RenameBranch(f: Franchise, branchId: string, name: string): (r: Result<Franchise>)
    ensures r.Ok? <==> BranchIndex(f.branches, branchId).Some?
    ensures r.Err? ==> r.error == NotFound(BranchEntity, branchId)
    ensures r.Ok? ==>
      var i := BranchIndex(f.branches, branchId).value;
      && r.value.id == f.id && r.value.name == f.name
      && BranchesAgreeExcept(r.value.branches, f.branches, i)
      && r.value.branches[i].id == f.branches[i].id
      && r.value.branches[i].products == f.branches[i].products
      && r.value.branches[i].name == name
  {
    match BranchIndex(f.branches, branchId)
    case None => Err(NotFound(BranchEntity, branchId))
    case Some(i) => Ok(WithBranch(f, i, f.branches[i].(name := name)))
  }

  /** Find the first branch with `branchId` (else NotFound) and append a new product to it. */
  function AddProduct(f: Franchise, branchId: string, productId: string, name: string, stock: int)
    : (r: Result<Franchise>)
    ensures r.Ok? <==> BranchIndex(f.branches, branchId).Some?
    ensures r.Err? ==> r.error == NotFound(BranchEntity, branchId)
    ensures r.Ok? ==>
      var i := BranchIndex(f.branches, branchId).value;
      && r.value.id == f.id && r.value.name == f.name
      && BranchesAgreeExcept(r.value.branches, f.branches, i)
      && r.value.branches[i].id == f.branches[i].id
      && r.value.branches[i].name == f.branches[i].name
      && |r.value.branches[i].products| == |f.branches[i].products| + 1
      && r.value.branches[i].products[..|f.branches[i].products|] == f.branches[i].products
      && r.value.branches[i].products[|f.branches[i].products|] == Product(productId, name, stock)
  {
    match BranchIndex(f.branches, branchId)
    case None => Err(NotFound(BranchEntity, branchId))
    case Some(i) =>
      var b := f.branches[i];
      Ok(WithBranch(f, i, b.(products := b.products + [Product(productId, name, stock)])))
  }

  /** `products.removeIf(p -> p.getId().equals(productId))`: every match goes, the rest keep their order. */
  function RemoveAll(ps: seq<Product>, productId: string): (r: seq<Product>)
    ensures |r| <= |ps|
    ensures forall k :: 0 <= k < |r| ==> r[k].id != productId
    ensures |r| == |ps| <==> ProductIndex(ps, productId).None?
  {
    if |ps| == 0 then []
    else if ps[0].id == productId then RemoveAll(ps[1..], productId)
    else [ps[0]] + RemoveAll(ps[1..], productId)
  }

  /**
   * Find the first branch with `branchId` (else NotFound), remove every
   * product with `productId`, and fail with NotFound if none was removed.
   */
  function DeleteProduct(f: Franchise, branchId: string, productId: string): (r: Result<Franchise>)
    ensures BranchIndex(f.branches, branchId).None? ==> r == Err(NotFound(BranchEntity, branchId))
    ensures BranchIndex(f.branches, branchId).Some? ==>
      var i := BranchIndex(f.branches, branchId).value;
      && (ProductIndex(f.branches[i].products, productId).None? <==> r.Err?)
      && (r.Err? ==> r.error == NotFound(ProductEntity, productId))
      && (r.Ok? ==>
        && r.value.id == f.id && r.value.name == f.name
        && BranchesAgreeExcept(r.value.branches, f.branches, i)
        && r.value.branches[i].id == f.branches[i].id
        && r.value.branches[i].name == f.branches[i].name
        && r.value.branches[i].products == RemoveAll(f.branches[i].products, productId)
        && |r.value.branches[i].products| < |f.branches[i].products|)
  {
    match BranchIndex(f.branches, branchId)
    case None => Err(NotFound(BranchEntity, branchId))
    case Some(i) =>
      var b := f.branches[i];
      var kept := RemoveAll(b.products, productId);
      if |kept| == |b.products| then Err(NotFound(ProductEntity, productId))
      else Ok(WithBranch(f, i, b.(products := kept)))
  }

  /**
   * Find the first branch with `branchId`, then its first product with
   * `productId` (else NotFound, the branch checked first), and `setStock(stock)` on it.
   */
  function UpdateStock(f: Franchise, branchId: string, productId: string, stock: int)
    : (r: Result<Franchise>)
    ensures BranchIndex(f.branches, branchId).None? ==> r == Err(NotFound(BranchEntity, branchId))
    ensures BranchIndex(f.branches, branchId).Some? ==>
      var i := BranchIndex(f.branches, branchId).value;
      && (ProductIndex(f.branches[i].products, productId).None? <==> r.Err?)
      && (r.Err? ==> r.error == NotFound(ProductEntity, productId))
      && (r.Ok? ==>
        var j := ProductIndex(f.branches[i].products, productId).value;
        && r.value.id == f.id && r.value.name == f.name
        && BranchesAgreeExcept(r.value.branches, f.branches, i)
        && r.value.branches[i].id == f.branches[i].id
        && r.value.branches[i].name == f.branches[i].name
        && ProductsAgreeExcept(r.value.branches[i].products, f.branches[i].products, j)
        && var p, q := f.branches[i].products[j], r.value.branches[i].products[j];
           q.id == p.id && q.name == p.name && q.stock == stock)
  {
    match BranchIndex(f.branches, branchId)
    case None => Err(NotFound(BranchEntity, branchId))
    case Some(i) =>
      var b := f.branches[i];
      match ProductIndex(b.products, productId)
      case None => Err(NotFound(ProductEntity, productId))
      case Some(j) =>
        Ok(WithBranch(f, i, b.(products := b.products[j := b.products[j].(stock := stock)])))
  }

  /**
   * Find the first branch with `branchId`, then its first product with
   * `productId` (else NotFound, the branch checked first), and `setName(name)` on it.
   */
  function RenameProduct(f: Franchise, branchId: string, productId: string, name: string)
    : (r: Result<Franchise>)
    ensures BranchIndex(f.branches, branchId).None? ==> r == Err(NotFound(BranchEntity, branchId))
    ensures BranchIndex(f.branches, branchId).Some? ==>
      var i := BranchIndex(f.branches, branchId).value;
      && (ProductIndex(f.branches[i].products, productId).None? <==> r.Err?)
      && (r.Err? ==> r.error == NotFound(ProductEntity, productId))
      && (r.Ok? ==>
        var j := ProductIndex(f.branches[i].products, productId).value;
        && r.value.id == f.id && r.value.name == f.name
        && BranchesAgreeExcept(r.value.branches, f.branches, i)
        && r.value.branches[i].id == f.branches[i].id
        && r.value.branches[i].name == f.branches[i].name
        && ProductsAgreeExcept(r.value.branches[i].products, f.branches[i].products, j)
        && var p, q := f.branches[i].products[j], r.value.branches[i].products[j];
           q.id == p.id && q.stock == p.stock && q.name == name)
  {
    match BranchIndex(f.branches, branchId)
    case None => Err(NotFound(BranchEntity, branchId))
    case Some(i) =>
      var b := f.branches[i];
      match ProductIndex(b.products, productId)
      case None => Err(NotFound(ProductEntity, productId))
      case Some(j) =>
        Ok(WithBranch(f, i, b.(products := b.products[j := b.products[j].(name := name)])))
  }
}
