/**
 * The franchise service: each operation loads one franchise document from the
 * repository, fails with NotFound when it is absent, changes the loaded tree,
 * and saves the whole document back. The repository is a map from franchise
 * id to the stored document; fresh ids are supplied by the caller.
 */
module Service {
  import opened Model
  import opened Tree
  import opened TreeProperties
  import opened TopProducts

  class FranchiseService {
    /** The franchise repository: `findById` is a lookup, `save` a map update. */
    var store: map<string, Franchise>

    /** Each document is stored under its own id. */
    ghost predicate Valid()
      reads this
    {
      forall id :: id in store ==> store[id].id == id
    }

    /** Every stored document satisfies the request validation. */
    ghost predicate WellFormedStore()
      reads this
    {
      forall id :: id in store ==> WellFormed(store[id])
    }

    constructor ()
      ensures Valid() && WellFormedStore()
      ensures store == map[]
    {
      store := map[];
    }

    /** `franchiseRepository.save(franchise)`: the whole document replaces the one under its id. */
    method Save(f: Franchise)
      modifies this
      ensures store == old(store)[f.id := f]
    {
      store := store[f.id := f];
    }

    /** `createFranchise`: a franchise with no branches, saved under the id the store assigns. */
    method CreateFranchise(id: string, name: string) returns (f: Franchise)
      requires Valid()
      requires id !in store && NonBlank(name)
      modifies this
      ensures Valid()
      ensures f.id == id && f.name == name && f.branches == []
      ensures store == old(store)[id := f]
      ensures old(WellFormedStore()) ==> WellFormedStore()
    {
      f := Franchise(id, name, []);
      Save(f);
    }

    /** `getAllFranchises`: every stored franchise, each once; the store's order is not modelled. */
    method GetAllFranchises() returns (all: set<Franchise>)
      requires Valid()
      ensures forall f :: f in all <==> f.id in store && store[f.id] == f
    {
      all := store.Values;
      forall f | f in all ensures f.id in store && store[f.id] == f {
        var id :| id in store && store[id] == f;
      }
    }

    /** `getFranchiseById`: the stored franchise, or NotFound for an absent id. */
    method GetFranchiseById(id: string) returns (r: Result<Franchise>)
      requires Valid()
      ensures r.Ok? <==> id in store
      ensures r.Ok? ==> r.value == store[id] && r.value.id == id
      ensures r.Err? ==> r.error == NotFound(FranchiseEntity, id)
    {
      if id !in store {
        return Err(NotFound(FranchiseEntity, id));
      }
      r := Ok(store[id]);
    }

    /** `updateFranchiseName`. */
    method UpdateFranchiseName(id: string, name: string) returns (r: Result<Franchise>)
      requires Valid() && NonBlank(name)
      modifies this
      ensures Valid()
      ensures id !in old(store) ==> r == Err(NotFound(FranchiseEntity, id))
      ensures id in old(store) ==> r == Ok(RenameFranchise(old(store)[id], name))
      ensures store == if r.Ok? then old(store)[id := r.value] else old(store)
      ensures old(WellFormedStore()) ==> WellFormedStore()
    {
      ghost var wf := WellFormedStore();
      if id !in store {
        return Err(NotFound(FranchiseEntity, id));
      }
      var franchise := store[id];
      franchise := franchise.(name := name);
      Save(franchise);
      r := Ok(franchise);
      if wf {
        RenameFranchisePreservesWellFormed(old(store)[id], name);
      }
    }

    /** `addBranchToFranchise`, with `branchId` standing for the generated UUID. */
    method AddBranchToFranchise(franchiseId: string, branchId: string, name: string)
      returns (r: Result<Franchise>)
      requires Valid() && NonBlank(name)
      modifies this
      ensures Valid()
      ensures franchiseId !in old(store) ==> r == Err(NotFound(FranchiseEntity, franchiseId))
      ensures franchiseId in old(store) ==> r == Ok(AddBranch(old(store)[franchiseId], branchId, name))
      ensures store == if r.Ok? then old(store)[franchiseId := r.value] else old(store)
      ensures old(WellFormedStore()) ==> WellFormedStore()
    {
      ghost var wf := WellFormedStore();
      if franchiseId !in store {
        return Err(NotFound(FranchiseEntity, franchiseId));
      }
      var franchise := store[franchiseId];
      var branch := NewBranch(branchId, name);
      franchise := franchise.(branches := franchise.branches + [branch]);
      Save(franchise);
      r := Ok(franchise);
      if wf {
        AddBranchPreservesWellFormed(old(store)[franchiseId], branchId, name);
      }
    }

    /** `updateBranchName`. */
    method UpdateBranchName(franchiseId: string, branchId: string, name: string)
      returns (r: Result<Franchise>)
      requires Valid() && NonBlank(name)
      modifies this
      ensures Valid()
      ensures franchiseId !in old(store) ==> r == Err(NotFound(FranchiseEntity, franchiseId))
      ensures franchiseId in old(store) ==> r == RenameBranch(old(store)[franchiseId], branchId, name)
      ensures store == if r.Ok? then old(store)[franchiseId := r.value] else old(store)
      ensures old(WellFormedStore()) ==> WellFormedStore()
    {
      ghost var wf := WellFormedStore();
      if franchiseId !in store {
        return Err(NotFound(FranchiseEntity, franchiseId));
      }
      var franchise := store[franchiseId];
      var found := BranchIndex(franchise.branches, branchId);
      if found.None? {
        return Err(NotFound(BranchEntity, branchId));
      }
      var i := found.value;
      var branch := franchise.branches[i];
      branch := branch.(name := name);
      franchise := franchise.(branches := franchise.branches[i := branch]);
      Save(franchise);
      r := Ok(franchise);
      if wf {
        RenameBranchPreservesWellFormed(old(store)[franchiseId], branchId, name);
      }
    }

    /** `addProductToBranch`, with `productId` standing for the generated UUID. */
    method AddProductToBranch(franchiseId: string, branchId: string, productId: string, name: string, stock: int)
      returns (r: Result<Franchise>)
      requires Valid() && NonBlank(name) && ValidStock(stock)
      modifies this
      ensures Valid()
      ensures franchiseId !in old(store) ==> r == Err(NotFound(FranchiseEntity, franchiseId))
      ensures franchiseId in old(store) ==>
        r == AddProduct(old(store)[franchiseId], branchId, productId, name, stock)
      ensures store == if r.Ok? then old(store)[franchiseId := r.value] else old(store)
      ensures old(WellFormedStore()) ==> WellFormedStore()
    {
      ghost var wf := WellFormedStore();
      if franchiseId !in store {
        return Err(NotFound(FranchiseEntity, franchiseId));
      }
      var franchise := store[franchiseId];
      var found := BranchIndex(franchise.branches, branchId);
      if found.None? {
        return Err(NotFound(BranchEntity, branchId));
      }
      var i := found.value;
      var branch := franchise.branches[i];
      var product := Product(productId, name, stock);
      branch := branch.(products := branch.products + [product]);
      franchise := franchise.(branches := franchise.branches[i := branch]);
      Save(franchise);
      r := Ok(franchise);
      if wf {
        AddProductPreservesWellFormed(old(store)[franchiseId], branchId, productId, name, stock);
      }
    }

    /** `deleteProductFromBranch`: NotFound, and no save, when `removeIf` removed nothing. */
    method DeleteProductFromBranch(franchiseId: string, branchId: string, productId: string)
      returns (r: Result<Franchise>)
      requires Valid()
      modifies this
      ensures Valid()
      ensures franchiseId !in old(store) ==> r == Err(NotFound(FranchiseEntity, franchiseId))
      ensures franchiseId in old(store) ==> r == DeleteProduct(old(store)[franchiseId], branchId, productId)
      ensures store == if r.Ok? then old(store)[franchiseId := r.value] else old(store)
      ensures old(WellFormedStore()) ==> WellFormedStore()
    {
      ghost var wf := WellFormedStore();
      if franchiseId !in store {
        return Err(NotFound(FranchiseEntity, franchiseId));
      }
      var franchise := store[franchiseId];
      var found := BranchIndex(franchise.branches, branchId);
      if found.None? {
        return Err(NotFound(BranchEntity, branchId));
      }
      var i := found.value;
      var branch := franchise.branches[i];
      var kept := RemoveAll(branch.products, productId);
      var removed := |kept| < |branch.products|;
      branch := branch.(products := kept);
      if !removed {
        return Err(NotFound(ProductEntity, productId));
      }
      franchise := franchise.(branches := franchise.branches[i := branch]);
      Save(franchise);
      r := Ok(franchise);
      if wf {
        DeleteProductPreservesWellFormed(old(store)[franchiseId], branchId, productId);
      }
    }

    /** `updateProductStock`. */
    method UpdateProductStock(franchiseId: string, branchId: string, productId: string, stock: int)
      returns (r: Result<Franchise>)
      requires Valid() && ValidStock(stock)
      modifies this
      ensures Valid()
      ensures franchiseId !in old(store) ==> r == Err(NotFound(FranchiseEntity, franchiseId))
      ensures franchiseId in old(store) ==> r == UpdateStock(old(store)[franchiseId], branchId, productId, stock)
      ensures store == if r.Ok? then old(store)[franchiseId := r.value] else old(store)
      ensures old(WellFormedStore()) ==> WellFormedStore()
    {
      ghost var wf := WellFormedStore();
      if franchiseId !in store {
        return Err(NotFound(FranchiseEntity, franchiseId));
      }
      var franchise := store[franchiseId];
      var foundBranch := BranchIndex(franchise.branches, branchId);
      if foundBranch.None? {
        return Err(NotFound(BranchEntity, branchId));
      }
      var i := foundBranch.value;
      var branch := franchise.branches[i];
      var foundProduct := ProductIndex(branch.products, productId);
      if foundProduct.None? {
        return Err(NotFound(ProductEntity, productId));
      }
      var j := foundProduct.value;
      var product := branch.products[j];
      product := product.(stock := stock);
      branch := branch.(products := branch.products[j := product]);
      franchise := franchise.(branches := franchise.branches[i := branch]);
      Save(franchise);
      r := Ok(franchise);
      if wf {
        UpdateStockPreservesWellFormed(old(store)[franchiseId], branchId, productId, stock);
      }
    }

    /** `updateProductName`. */
    method UpdateProductName(franchiseId: string, branchId: string, productId: string, name: string)
      returns (r: Result<Franchise>)
      requires Valid() && NonBlank(name)
      modifies this
      ensures Valid()
      ensures franchiseId !in old(store) ==> r == Err(NotFound(FranchiseEntity, franchiseId))
      ensures franchiseId in old(store) ==> r == RenameProduct(old(store)[franchiseId], branchId, productId, name)
      ensures store == if r.Ok? then old(store)[franchiseId := r.value] else old(store)
      ensures old(WellFormedStore()) ==> WellFormedStore()
    {
      ghost var wf := WellFormedStore();
      if franchiseId !in store {
        return Err(NotFound(FranchiseEntity, franchiseId));
      }
      var franchise := store[franchiseId];
      var foundBranch := BranchIndex(franchise.branches, branchId);
      if foundBranch.None? {
        return Err(NotFound(BranchEntity, branchId));
      }
      var i := foundBranch.value;
      var branch := franchise.branches[i];
      var foundProduct := ProductIndex(branch.products, productId);
      if foundProduct.None? {
        return Err(NotFound(ProductEntity, productId));
      }
      var j := foundProduct.value;
      var product := branch.products[j];
      product := product.(name := name);
      branch := branch.(products := branch.products[j := product]);
      franchise := franchise.(branches := franchise.branches[i := branch]);
      Save(franchise);
      r := Ok(franchise);
      if wf {
        RenameProductPreservesWellFormed(old(store)[franchiseId], branchId, productId, name);
      }
    }

    /** `getTopProductsByBranch`: reads only; NotFound for an absent franchise. */
    method GetTopProductsByBranch(franchiseId: string) returns (r: Result<seq<TopProduct>>)
      requires Valid()
      ensures franchiseId !in store ==> r == Err(NotFound(FranchiseEntity, franchiseId))
      ensures franchiseId in store ==> r.Ok? && |r.value| == |NonEmptyBranches(store[franchiseId].branches)|
      ensures franchiseId in store ==>
        var bs := store[franchiseId].branches;
        forall i :: 0 <= i < |r.value| ==>
          NonEmptyBranches(bs)[i] < |bs| && IsTopRecord(r.value[i], bs[NonEmptyBranches(bs)[i]])
    {
      if franchiseId !in store {
        return Err(NotFound(FranchiseEntity, franchiseId));
      }
      var franchise := store[franchiseId];
      r := Ok(TopProductsOf(franchise.branches));
      TopProductsSpec(franchise.branches);
    }
  }
}
