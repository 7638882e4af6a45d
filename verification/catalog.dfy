/** The product catalog and the search filter over it. */
module Catalog {
  import opened Text
  import opened Seqs

  /** A product as the catalog lists it; `price` is in whole rupees. */
  datatype Product = Product(
    id: int,
    name: string,
    price: int,
    image: string,
    description: string,
    inStock: bool)

  /** `products.find(p => p.id === id)`, as an index: the position of the first product with
      that id, or `|products|` when there is none. */
  function ProductIndex(products: seq<Product>, id: int): (r: nat)
    ensures r <= |products|
    ensures r < |products| ==> products[r].id == id
    ensures forall j :: 0 <= j < r ==> products[j].id != id
  {
    if products == [] then 0
    else if products[0].id == id then 0
    else 1 + ProductIndex(products[1..], id)
  }

  /** The search query as stored after input: the lower-cased input with its leading and
      trailing whitespace removed. */
  function NormalizeQuery(raw: string): (q: string)
    ensures exists i :: OccursAt(ToLower(raw), q, i) && BlankOutside(ToLower(raw), i, i + |q|)
    ensures SpaceFreeEnds(q)
    ensures q == [] <==> IsBlank(raw)
  {
    var lower := ToLower(raw);
    LowerKeepsBlank(raw);
    Trim(lower)
  }

  /** The stored query holds no ASCII capital, so matching it against lower-cased text is a
      case-insensitive search. */
  lemma NormalizedHasNoCapitals(raw: string)
    ensures forall k :: 0 <= k < |NormalizeQuery(raw)| ==> !IsUpper(NormalizeQuery(raw)[k])
  {
    var lower := ToLower(raw);
    var q := NormalizeQuery(raw);
    var i :| OccursAt(lower, q, i) && BlankOutside(lower, i, i + |q|);
    PieceHasNoCapitals(lower, q, i);
  }

  /** A piece of a string without ASCII capitals has none either. */
  lemma PieceHasNoCapitals(s: string, piece: string, i: int)
    requires OccursAt(s, piece, i)
    requires forall k :: 0 <= k < |s| ==> !IsUpper(s[k])
    ensures forall k :: 0 <= k < |piece| ==> !IsUpper(piece[k])
  {
    forall k | 0 <= k < |piece| ensures !IsUpper(piece[k]) {
      assert piece[k] == s[i + k];
    }
  }

  /** The lower-cased name or the lower-cased description includes the query: some piece of
      the name or of the description lower-cases to the query. */
  predicate Matches(p: Product, query: string)
    ensures Matches(p, query) <==>
      (exists i :: OccursFolded(p.name, query, i)) || (exists i :: OccursFolded(p.description, query, i))
  {
    LowerContainsIff(p.name, query);
    LowerContainsIff(p.description, query);
    Contains(ToLower(p.name), query) || Contains(ToLower(p.description), query)
  }

  /** `products.filter(...)` with the match test: the matching products, in catalog order,
      each kept as many times as the catalog lists it. */
  function FilterByQuery(products: seq<Product>, query: string): (r: seq<Product>)
    ensures IsSubsequence(r, products)
    ensures forall k :: 0 <= k < |r| ==> Matches(r[k], query)
    ensures forall x {:trigger multiset(r)[x]} :: multiset(r)[x] == if Matches(x, query) then multiset(products)[x] else 0
  {
    if products == [] then []
    else
      var rest := FilterByQuery(products[1..], query);
      assert products == [products[0]] + products[1..];
      if Matches(products[0], query) then [products[0]] + rest
      else
        assert rest != [] ==> rest[0] != products[0];
        rest
  }

  /** What the product grid shows: the whole catalog for an empty query, otherwise the
      products that match it, in catalog order. */
  function FilteredProducts(products: seq<Product>, query: string): (r: seq<Product>)
    ensures query == [] ==> r == products
    ensures IsSubsequence(r, products)
    ensures forall p :: p in r <==> p in products && Matches(p, query)
    ensures forall x {:trigger multiset(r)[x]} :: multiset(r)[x] == if Matches(x, query) then multiset(products)[x] else 0
  {
    if query == [] then
      EmptyQueryKeepsAll(products);
      SubsequenceReflexive(products);
      products
    else
      var r := FilterByQuery(products, query);
      SubsequenceMembers(r, products);
      assert forall p :: p in products && Matches(p, query) ==> multiset(r)[p] > 0;
      r
  }

  /** The empty query matches every product, so filtering with it keeps the whole catalog:
      the early return for an empty query does not change what is shown. */
  lemma {:induction false} EmptyQueryKeepsAll(products: seq<Product>)
    ensures FilterByQuery(products, []) == products
    ensures forall p :: p in products ==> Matches(p, [])
  {
    if products != [] {
      EmptyQueryKeepsAll(products[1..]);
      assert Matches(products[0], []) by {
        assert OccursAt(ToLower(products[0].name), [], 0);
      }
      assert products == [products[0]] + products[1..];
    }
  }

  /** The short-cut for the empty query agrees with filtering. */
  lemma EarlyReturnAgrees(products: seq<Product>, query: string)
    ensures FilteredProducts(products, query) == FilterByQuery(products, query)
  {
    if query == [] {
      EmptyQueryKeepsAll(products);
    }
  }

  /** Typing only whitespace into the search box shows the whole catalog. */
  lemma BlankSearchShowsAll(products: seq<Product>, raw: string)
    requires IsBlank(raw)
    ensures FilteredProducts(products, NormalizeQuery(raw)) == products
  {
  }

  /** Search is case-insensitive in the query: lower-casing the input first changes nothing. */
  lemma SearchIgnoresQueryCase(products: seq<Product>, raw: string)
    ensures FilteredProducts(products, NormalizeQuery(ToLower(raw)))
         == FilteredProducts(products, NormalizeQuery(raw))
  {
    LowerIdempotent(raw);
  }
}
