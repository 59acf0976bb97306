/**
 * The franchise document and its embedded branches and products, the
 * service's error values, and the validation the request objects impose
 * before a value reaches the service.
 */
module Model {

  /** A product in a branch; `stock` is a Java `Integer`. */
  datatype Product = Product(id: string, name: string, stock: int)

  /** A branch owns its products in insertion order. */
  datatype Branch = Branch(id: string, name: string, products: seq<Product>)

  /** A franchise is the unit of persistence: one document with every branch embedded. */
  datatype Franchise = Franchise(id: string, name: string, branches: seq<Branch>)

  /** One record of the top-products query. */
  datatype TopProduct = TopProduct(
    productId: string,
    productName: string,
    stock: int,
    branchId: string,
    branchName: string)

  datatype Option<T> = None | Some(value: T)

  /** Which lookup failed; the message names the entity and the id searched for. */
  datatype Entity = FranchiseEntity | BranchEntity | ProductEntity

  datatype Error = NotFound(entity: Entity, id: string)

  datatype Result<T> = Ok(value: T) | Err(error: Error)

  /** Largest value of a Java `Integer`. */
  const MaxInteger: int := 0x7fff_ffff

  /**
   * `@NotBlank`: the string is not empty once the characters at or below
   * U+0020 are trimmed from both ends, i.e. it holds one character above U+0020.
   */
  predicate NonBlank(s: string) {
    exists i :: 0 <= i < |s| && s[i] > ' '
  }

  /** `@NotNull @Min(0)` on an `Integer` stock. */
  predicate ValidStock(stock: int) {
    0 <= stock <= MaxInteger
  }

  predicate WellFormedProduct(p: Product) {
    NonBlank(p.name) && ValidStock(p.stock)
  }

  predicate WellFormedBranch(b: Branch) {
    NonBlank(b.name) && forall k :: 0 <= k < |b.products| ==> WellFormedProduct(b.products[k])
  }

  /** Every name in the tree is non-blank and every stock is a non-negative `Integer`. */
  predicate WellFormed(f: Franchise) {
    NonBlank(f.name) && forall k :: 0 <= k < |f.branches| ==> WellFormedBranch(f.branches[k])
  }

  /** `Branch.builder()...build()`: the product list defaults to an empty list. */
  function NewBranch(id: string, name: string): Branch {
    Branch(id, name, [])
  }
}
