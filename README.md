# Franchise service — a Dafny model

This project models the service layer of a small franchise-management
backend. A **franchise** document owns an ordered list of **branches**, each
branch owns an ordered list of **products**, and each product carries a stock
count. The service offers eleven operations: create, list and get franchises;
rename a franchise; add and rename branches; add, delete, re-stock and rename
products; and a query that reports, for every branch with products, the
product with the largest stock.

Every write operation follows one pattern. It loads the franchise by id and
fails with NotFound when it is absent. It locates the branch, and then the
product, by a first-match linear scan, failing with NotFound if either is
missing (the branch is checked first). It changes one field or one list of the
loaded tree and saves the whole document back.

Layout:

- `model.dfy` (module `Model`): the `Franchise`, `Branch`, `Product` and
  `TopProduct` values, the `NotFound` error, and the request validation
  (`NonBlank` names, `ValidStock` stocks) as predicates. `WellFormed` says that
  a whole tree passes that validation.
- `tree.dfy` (module `Tree`): what each write does to one loaded franchise.
  `BranchIndex` and `ProductIndex` are the first-match lookups.
  `RenameBranch`, `AddProduct`, `DeleteProduct`, `UpdateStock` and
  `RenameProduct` return `Ok` of the new tree or `Err` of the NotFound the
  source raises. Their contracts state the error cases and what stays the same.
- `tree_properties.dfy` (module `TreeProperties`): how later lookups see the
  result of each write, idempotence of the renames and the stock update, the
  "only names change" and "only stocks change" frames, `removeIf` semantics,
  and preservation of `WellFormed`.
- `top_products.dfy` (module `TopProducts`): the stable maximum by stock (the
  first maximal product wins, as with `Stream.max`) and the per-branch records.
- `service.dfy` (module `Service`): class `FranchiseService`. Its field
  `store` maps franchise ids to stored documents and stands for the
  repository. Each of the seven write methods after `CreateFranchise`
  performs the load, mutate and save steps and is proved to return exactly
  the value of the matching `Tree` function; on every error path it leaves
  `store` unchanged, so nothing is saved. `CreateFranchise` stores a new
  franchise directly. The three read methods change nothing;
  `GetTopProductsByBranch` is characterised through `NonEmptyBranches` and
  `IsTopRecord`.

Three points about the code that a reader may not expect; the model follows
the code:

- Deleting a product removes **every** product with that id (`removeIf`), not
  only the first one.
- Branch and product ids are never checked for uniqueness. The model does not
  assume they are unique. `AddBranchLookup` shows that a new branch whose id
  collides with an earlier branch is never found by id.
- Names must pass `@NotBlank`: a name must contain a character above U+0020.

## Model

| member | source | states |
|---|---|---|
| `Tree.BranchIndex` | src/main/java/com/franchise/api/service/FranchiseService.java:67-70 | returns the index of the first branch with the id; if it returns none, no branch has the id |
| `Tree.ProductIndex` | src/main/java/com/franchise/api/service/FranchiseService.java:125-128 | returns the index of the first product with the id; if it returns none, no product has the id |
| `Tree.BranchIndexSeesOnlyIds` | src/main/java/com/franchise/api/service/FranchiseService.java:81-84 | two branch lists with the same ids, position by position, give the same lookup answer |
| `Tree.ProductIndexSeesOnlyIds` | src/main/java/com/franchise/api/service/FranchiseService.java:144-147 | two product lists with the same ids, position by position, give the same lookup answer |
| `Tree.BranchIndexAppend` | src/main/java/com/franchise/api/service/FranchiseService.java:58 | after a branch is appended, earlier matches are unchanged; the new branch is found only when nothing earlier matched |
| `Tree.ProductIndexAppend` | src/main/java/com/franchise/api/service/FranchiseService.java:92 | after a product is appended, earlier matches are unchanged; the new product is found only when nothing earlier matched |
| `Tree.RenameBranch` | src/main/java/com/franchise/api/service/FranchiseService.java:63-75 | NotFound(branch) exactly when no branch matches; otherwise only the first matching branch's name changes, and every other branch, the franchise fields and the products stay the same |
| `Tree.AddProduct` | src/main/java/com/franchise/api/service/FranchiseService.java:77-95 | NotFound(branch) exactly when no branch matches; otherwise the first matching branch gets one product `(id, name, stock)` appended after its unchanged products, and nothing else changes |
| `Tree.RemoveAll` | src/main/java/com/franchise/api/service/FranchiseService.java:106 | no survivor has the id; the length is unchanged exactly when no product had the id |
| `Tree.DeleteProduct` | src/main/java/com/franchise/api/service/FranchiseService.java:97-114 | a missing branch gives NotFound(branch); a branch with no matching product gives NotFound(product); otherwise that branch's products become `RemoveAll` of them (strictly fewer) and nothing else changes |
| `Tree.UpdateStock` | src/main/java/com/franchise/api/service/FranchiseService.java:116-133 | a missing branch is reported before a missing product; on success only the stock of the first matching product of the first matching branch changes, and its id, its name and every other entity stay the same |
| `Tree.RenameProduct` | src/main/java/com/franchise/api/service/FranchiseService.java:135-152 | same errors as the stock update; on success only the name of the first matching product in the first matching branch changes |
| `TreeProperties.AddBranchLookup` | src/main/java/com/franchise/api/service/FranchiseService.java:50-61 | exactly one branch `(id, name, no products)` is appended, earlier branches are unchanged, every earlier lookup answers as before, and the new branch is found by its id exactly when that id was not already taken |
| `TreeProperties.AddProductLookup` | src/main/java/com/franchise/api/service/FranchiseService.java:86-92 | after adding a product every branch lookup is unchanged; in the target branch the new product is found by its id exactly when the id was not already taken |
| `TreeProperties.RemoveAllAppend` | src/main/java/com/franchise/api/service/FranchiseService.java:106 | `removeIf` commutes with concatenation, so the surviving products keep their order |
| `TreeProperties.RemoveAllCounts` | src/main/java/com/franchise/api/service/FranchiseService.java:106 | every product with the id is removed; every other product survives as many times as it occurred |
| `TreeProperties.RemoveAllNoMatch` | src/main/java/com/franchise/api/service/FranchiseService.java:106-110 | when no product has the id, `removeIf` leaves the list unchanged |
| `TreeProperties.DeleteProductTwice` | src/main/java/com/franchise/api/service/FranchiseService.java:106-110 | after a successful delete the branch is still found, the id is gone from it, and deleting again fails with NotFound(product) |
| `TreeProperties.UpdateStockKeepsAllButStock` | src/main/java/com/franchise/api/service/FranchiseService.java:125-131 | the tree with stocks zeroed is the same before and after: ids, names and list lengths are preserved |
| `TreeProperties.UpdateStockReadBack` | src/main/java/com/franchise/api/service/FranchiseService.java:130 | looking the branch and product up again finds the same positions, and the product now holds the new stock |
| `TreeProperties.UpdateStockIdempotent` | src/main/java/com/franchise/api/service/FranchiseService.java:116-133 | setting the same stock twice gives the same tree as setting it once |
| `TreeProperties.RenameFranchiseSpec` | src/main/java/com/franchise/api/service/FranchiseService.java:41-48 | the franchise takes the new name, keeps its branches, ids and stocks, and renaming twice equals renaming once |
| `TreeProperties.RenameBranchSpec` | src/main/java/com/franchise/api/service/FranchiseService.java:63-75 | ids, stocks and list lengths are preserved (only names can differ), and renaming twice equals renaming once |
| `TreeProperties.RenameProductSpec` | src/main/java/com/franchise/api/service/FranchiseService.java:135-152 | ids, stocks and list lengths are preserved (only names can differ), and renaming twice equals renaming once |
| `TreeProperties.RenameFranchisePreservesWellFormed` | src/main/java/com/franchise/api/dto/RequestDTOs.java:59-60 | with a non-blank new name, a well-formed franchise stays well-formed |
| `TreeProperties.AddBranchPreservesWellFormed` | src/main/java/com/franchise/api/dto/RequestDTOs.java:27-28 | with a non-blank branch name, a well-formed franchise stays well-formed |
| `TreeProperties.RenameBranchPreservesWellFormed` | src/main/java/com/franchise/api/dto/RequestDTOs.java:59-60 | with a non-blank new name, a well-formed franchise stays well-formed |
| `TreeProperties.AddProductPreservesWellFormed` | src/main/java/com/franchise/api/dto/RequestDTOs.java:36-41 | with a non-blank name and a stock of at least 0, a well-formed franchise stays well-formed |
| `TreeProperties.DeleteProductPreservesWellFormed` | src/main/java/com/franchise/api/model/Product.java:20-25 | deleting products keeps a well-formed franchise well-formed |
| `TreeProperties.UpdateStockPreservesWellFormed` | src/main/java/com/franchise/api/dto/RequestDTOs.java:49-51 | with a stock of at least 0, every stock stays at least 0 and every name stays non-blank |
| `TreeProperties.RenameProductPreservesWellFormed` | src/main/java/com/franchise/api/dto/RequestDTOs.java:59-60 | with a non-blank new name, a well-formed franchise stays well-formed |
| `Model.NonBlank` | src/main/java/com/franchise/api/dto/RequestDTOs.java:18-19 | `@NotBlank` on a name: the name holds at least one character above U+0020, so in particular it is not empty |
| `Model.ValidStock` | src/main/java/com/franchise/api/dto/RequestDTOs.java:49-51 | `@NotNull @Min(0)` on an `Integer` stock: the stock lies between 0 and the largest `Integer` |
| `Model.WellFormed` | src/main/java/com/franchise/api/model/Product.java:20-25 | every name in the tree passes `NonBlank` and every stock passes `ValidStock`; preserved by every write (the `...PreservesWellFormed` lemmas) |
| `Model.NewBranch` | src/main/java/com/franchise/api/model/Branch.java:23-24 | a branch built with an id and a name starts with an empty product list; used by `AddBranchLookup` |
| `Tree.RenameFranchise` | src/main/java/com/franchise/api/service/FranchiseService.java:45 | `franchise.setName`; characterised by `RenameFranchiseSpec` (new name, same branches and ids, idempotent) |
| `Tree.AddBranch` | src/main/java/com/franchise/api/service/FranchiseService.java:54-58 | the branch builder plus `getBranches().add`; characterised by `AddBranchLookup` (one branch appended at the end, earlier branches and lookups unchanged) |
| `TopProducts.TopProductsOf` | src/main/java/com/franchise/api/service/FranchiseService.java:157-177 | the query pipeline (non-empty filter, map to a record, null filter): at most one record per branch; characterised completely by `TopProductsSpec` and `TopProductsAppend` |
| `TopProducts.MaxStockIndex` | src/main/java/com/franchise/api/service/FranchiseService.java:160-162 | the chosen product's stock is at least every product's stock, and every earlier product has strictly less, so the first maximum wins on ties |
| `TopProducts.TopRecord` | src/main/java/com/franchise/api/service/FranchiseService.java:159-175 | the record is null exactly when the branch has no products |
| `TopProducts.NullFilterDropsNothing` | src/main/java/com/franchise/api/service/FranchiseService.java:158-176 | every branch that passes the non-empty filter has a record, which copies the branch id and name and names the first maximum-stock product of that branch |
| `TopProducts.NonEmptyBranchesSpec` | src/main/java/com/franchise/api/service/FranchiseService.java:157-158 | the positions of branches with products are in range, strictly increasing, and include every such branch |
| `TopProducts.TopProductsSpec` | src/main/java/com/franchise/api/service/FranchiseService.java:157-177 | the query yields one record per branch with products, in branch order; the i-th record belongs to the i-th such branch, and empty branches are skipped |
| `TopProducts.TopProductsAllEmpty` | src/main/java/com/franchise/api/service/FranchiseService.java:158 | when every branch has no products the query yields no records, and no error |
| `TopProducts.TopProductsAppend` | src/main/java/com/franchise/api/service/FranchiseService.java:157-177 | the query on concatenated branch lists is the concatenation of the queries |
| `TopProducts.TopProductsTieExample` | src/main/java/com/franchise/api/service/FranchiseService.java:160-162 | stocks 30, 100, 100 in one branch and an empty second branch yield exactly one record, for the first product of stock 100 |
| `Service.FranchiseService.Save` | src/main/java/com/franchise/api/service/FranchiseService.java:46 | the saved document replaces the one stored under its own id; nothing else in the store changes |
| `Service.FranchiseService.CreateFranchise` | src/main/java/com/franchise/api/service/FranchiseService.java:25-30 | stores a franchise with the given name, the store-assigned id and no branches, and returns it |
| `Service.FranchiseService.GetAllFranchises` | src/main/java/com/franchise/api/service/FranchiseService.java:32-34 | returns exactly the stored franchises |
| `Service.FranchiseService.GetFranchiseById` | src/main/java/com/franchise/api/service/FranchiseService.java:36-39 | returns the stored franchise for a present id, and NotFound(franchise) for an absent one |
| `Service.FranchiseService.UpdateFranchiseName` | src/main/java/com/franchise/api/service/FranchiseService.java:41-48 | an absent id gives NotFound and no save; otherwise the store holds `RenameFranchise` of the loaded franchise under the same id |
| `Service.FranchiseService.AddBranchToFranchise` | src/main/java/com/franchise/api/service/FranchiseService.java:50-61 | an absent id gives NotFound and no save; otherwise the store holds the loaded franchise with the new branch appended |
| `Service.FranchiseService.UpdateBranchName` | src/main/java/com/franchise/api/service/FranchiseService.java:63-75 | returns `RenameBranch` of the loaded franchise; saves only on success; every error leaves the store unchanged |
| `Service.FranchiseService.AddProductToBranch` | src/main/java/com/franchise/api/service/FranchiseService.java:77-95 | returns `AddProduct` of the loaded franchise; saves only on success; every error leaves the store unchanged |
| `Service.FranchiseService.DeleteProductFromBranch` | src/main/java/com/franchise/api/service/FranchiseService.java:97-114 | returns `DeleteProduct` of the loaded franchise; when nothing was removed it fails and saves nothing |
| `Service.FranchiseService.UpdateProductStock` | src/main/java/com/franchise/api/service/FranchiseService.java:116-133 | returns `UpdateStock` of the loaded franchise; saves only on success; well-formed stores stay well-formed |
| `Service.FranchiseService.UpdateProductName` | src/main/java/com/franchise/api/service/FranchiseService.java:135-152 | returns `RenameProduct` of the loaded franchise; saves only on success; well-formed stores stay well-formed |
| `Service.FranchiseService.GetTopProductsByBranch` | src/main/java/com/franchise/api/service/FranchiseService.java:154-178 | gives NotFound for an absent franchise; otherwise one record per branch with products, in branch order, each naming that branch's first maximum-stock product |

## Left out

- Reactive sequencing (`Mono`/`Flux`): each operation is one sequential load, mutate and save step.
- Concurrency: two requests that load the same franchise both save, and the last write wins. The model has no interleaving, so this race is not represented.
- Store failures and the document store itself: the repository is a map. Its `findById` is a lookup and its `save` is an update keyed by the document's id.
- Service.FranchiseService.CreateFranchise: the store assigns the franchise id. The model takes that id as a parameter that is not yet in the store, and it does not model how the id is generated.
- Service.FranchiseService.GetAllFranchises: returns a set. The store's enumeration order is unspecified and is not modelled.
- UUID generation for branches and products: the fresh ids are parameters. Their uniqueness is not assumed, because the code never checks it.
- Request validation (`@NotBlank`, `@NotNull`, `@Min(0)`): the validator is not modelled. It becomes `requires NonBlank(...)` and `requires ValidStock(...)` on the service methods that receive names and stocks.
- Documents in the store are not assumed to be well-formed. The methods only promise that a well-formed store stays well-formed.
- Java `null` fields: a stored document with a `null` list or stock cannot occur in the model.
- The HTTP controller, status codes, API documentation and application bootstrap are not part of this model.
