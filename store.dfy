/**
 * The database context as the cart code sees it: the product and category
 * tables, which it only reads, and the cart-line table, which it changes.
 */
module Store {
  import opened Common
  import opened Models
  import opened Seqs

  /** `Products.FindAsync(id)`: the product with key `id`, if there is one. */
  function FindProduct(products: seq<Product>, id: int): (r: Option<Product>)
    ensures r.Some? ==> r.value in products && r.value.id == id
    ensures r.None? ==> forall p :: p in products ==> p.id != id
  {
    match FirstIndex(products, (p: Product) => p.id == id)
    case None => None
    case Some(i) => Some(products[i])
  }

  /** The order of `OrderByDescending(p => p.CreatedDate)`: newer first, ties in either order. */
  predicate NewerOrSame(a: Product, b: Product)
  {
    a.createdDate >= b.createdDate
  }

  lemma NewerOrSameIsTotalPreorder()
    ensures TotalPreorder(NewerOrSame)
  {
  }

  /** No two cart lines share a key. */
  predicate IdsUnique(lines: seq<CartLine>)
  {
    forall i, j :: 0 <= i < j < |lines| ==> lines[i].id != lines[j].id
  }

  /** Every key in use is below `next`, the key the table hands out next. */
  predicate IdsBelow(lines: seq<CartLine>, next: int)
  {
    forall i :: 0 <= i < |lines| ==> lines[i].id < next
  }

  /** Appending a line with a fresh key keeps the keys unique. */
  lemma AppendFreshKey(lines: seq<CartLine>, next: int, l: CartLine)
    requires IdsUnique(lines) && IdsBelow(lines, next) && l.id == next
    ensures IdsUnique(lines + [l]) && IdsBelow(lines + [l], next + 1)
  {
  }

  /** Changing a line's non-key fields keeps the keys unique and below `next`. */
  lemma ReplaceKeepsKeys(lines: seq<CartLine>, next: int, i: nat, l: CartLine)
    requires IdsUnique(lines) && IdsBelow(lines, next) && i < |lines| && l.id == lines[i].id
    ensures IdsUnique(lines[i := l]) && IdsBelow(lines[i := l], next)
  {
  }

  /** Deleting line `i` shifts the later lines down and keeps the keys unique and below `next`. */
  lemma RemoveKeepsKeys(lines: seq<CartLine>, next: int, i: nat)
    requires IdsUnique(lines) && i < |lines|
    ensures var r := lines[..i] + lines[i + 1..];
            && |r| == |lines| - 1
            && (forall k :: 0 <= k < |r| ==> r[k] == lines[if k < i then k else k + 1])
            && IdsUnique(r)
            && (IdsBelow(lines, next) ==> IdsBelow(r, next))
  {
    var r := lines[..i] + lines[i + 1..];
    forall k | 0 <= k < |r| ensures r[k] == lines[if k < i then k else k + 1] {
    }
    forall a, b | 0 <= a < b < |r| ensures r[a].id != r[b].id {
      assert r[a] == lines[if a < i then a else a + 1];
      assert r[b] == lines[if b < i then b else b + 1];
    }
  }

  /** With unique keys, deleting line `i` removes exactly the lines with its key. */
  lemma RemoveMembership(lines: seq<CartLine>, i: nat)
    requires IdsUnique(lines) && i < |lines|
    ensures forall l :: l in lines[..i] + lines[i + 1..] <==> l in lines && l.id != lines[i].id
  {
    var r := lines[..i] + lines[i + 1..];
    RemoveKeepsKeys(lines, 0, i);
    forall l ensures l in r <==> l in lines && l.id != lines[i].id {
      if l in r {
        var k :| 0 <= k < |r| && r[k] == l;
        assert l == lines[if k < i then k else k + 1];
      }
      if l in lines && l.id != lines[i].id {
        var k :| 0 <= k < |lines| && lines[k] == l;
        assert l == r[if k < i then k else k - 1];
      }
    }
  }

  class ShopDb {
    var products: seq<Product>
    var categories: seq<Category>
    var cartItems: seq<CartLine>
    var nextCartItemId: int

    /** Cart-line keys are unique and below the next key (the table's identity column). */
    ghost predicate Valid()
      reads this
    {
      IdsUnique(cartItems) && IdsBelow(cartItems, nextCartItemId)
    }

    constructor (products: seq<Product>, categories: seq<Category>)
      ensures Valid()
      ensures this.products == products && this.categories == categories && cartItems == []
    {
      this.products := products;
      this.categories := categories;
      cartItems := [];
      nextCartItemId := 1;
    }
  }
}
