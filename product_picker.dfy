/** The product picker: a selection of products, toggled one product at a time and capped
    at `max` entries, next to a searchable grid of all products. */
module ProductPicker {
  import opened Common
  import opened Text
  import opened Catalog

  /** The cap when the caller gives none. */
  const DefaultMax: int := 6

  /** `isSelected(id)`: some selected entry has that id. */
  function IsSelected(selected: seq<Product>, id: string): (r: bool)
    ensures r <==> exists p :: p in selected && p.id == id
  {
    var r := Any(HasId(id), selected);
    assert r ==> exists p :: p in selected && p.id == id by {
      if r {
        var i :| 0 <= i < |selected| && HasId(id)(selected[i]);
        assert selected[i] in selected;
      }
    }
    assert (exists p :: p in selected && p.id == id) ==> r by {
      if exists p :: p in selected && p.id == id {
        var p :| p in selected && p.id == id;
        var i :| 0 <= i < |selected| && selected[i] == p;
        assert HasId(id)(selected[i]);
      }
    }
    r
  }

  function IdIsNot(id: string): Product -> bool {
    (p: Product) => p.id != id
  }

  /** The selection after `handleToggle(product)`: a selected product is removed (every
      entry with its id); an unselected one is appended when there is room; a full
      selection stays as it is. */
  function Toggled(selected: seq<Product>, product: Product, max: int): (r: seq<Product>)
    ensures forall p :: p in r ==> p in selected || p == product
    ensures |r| <= |selected| + 1
  {
    if IsSelected(selected, product.id) then Filter(IdIsNot(product.id), selected)
    else if |selected| >= max then selected
    else selected + [product]
  }

  /** No two entries share an id. */
  predicate UniqueIds(s: seq<Product>) {
    forall i, j :: 0 <= i < |s| && 0 <= j < |s| && i != j ==> s[i].id != s[j].id
  }

  /** After a toggle, `product` is selected exactly when it was not selected before and there
      was room for it; whether any other id is selected does not change. */
  lemma ToggleSelects(selected: seq<Product>, product: Product, max: int, id: string)
    ensures IsSelected(Toggled(selected, product, max), id) <==>
              if id == product.id then !IsSelected(selected, id) && |selected| < max
              else IsSelected(selected, id)
  {
    var r := Toggled(selected, product, max);
    if !IsSelected(selected, product.id) && |selected| < max {
      assert product in r;
      forall p | p in r ensures p in selected || p == product {
        assert p in selected + [product];
      }
    }
  }

  /** Toggling a selected product removes every entry with its id and keeps the rest, in
      order. */
  lemma ToggleRemoves(selected: seq<Product>, product: Product, max: int)
    requires IsSelected(selected, product.id)
    ensures forall p :: p in Toggled(selected, product, max) <==> p in selected && p.id != product.id
    ensures |Toggled(selected, product, max)| < |selected|
  {
    var p :| p in selected && p.id == product.id;
    FilterDropsOne(IdIsNot(product.id), selected, p);
  }

  /** A filter that rejects some element of the input is strictly shorter than it. */
  lemma {:induction false} FilterDropsOne(keep: Product -> bool, s: seq<Product>, x: Product)
    requires x in s && !keep(x)
    ensures |Filter(keep, s)| < |s|
    decreases |s|
  {
    if s[0] != x {
      FilterDropsOne(keep, s[1..], x);
    }
  }

  /** Toggling an unselected product with room appends it at the end. */
  lemma ToggleAppends(selected: seq<Product>, product: Product, max: int)
    requires !IsSelected(selected, product.id) && |selected| < max
    ensures Toggled(selected, product, max) == selected + [product]
  {
  }

  /** A selection of `max` or more refuses a product it does not hold. */
  lemma ToggleFullIsUnchanged(selected: seq<Product>, product: Product, max: int)
    requires !IsSelected(selected, product.id) && |selected| >= max
    ensures Toggled(selected, product, max) == selected
  {
  }

  /** The cap holds after every toggle. */
  lemma ToggleKeepsCap(selected: seq<Product>, product: Product, max: int)
    requires |selected| <= max
    ensures |Toggled(selected, product, max)| <= max
  {
  }

  /** A toggle never brings in a second entry with the same id. */
  lemma ToggleKeepsIdsUnique(selected: seq<Product>, product: Product, max: int)
    requires UniqueIds(selected)
    ensures UniqueIds(Toggled(selected, product, max))
  {
    if IsSelected(selected, product.id) {
      FilterKeepsUniqueIds(IdIsNot(product.id), selected);
    } else if |selected| < max {
      var r := selected + [product];
      forall i, j | 0 <= i < |r| && 0 <= j < |r| && i != j ensures r[i].id != r[j].id {
        if i == |selected| { assert r[j] in selected; }
        else if j == |selected| { assert r[i] in selected; }
      }
    }
  }

  lemma {:induction false} FilterKeepsUniqueIds(keep: Product -> bool, s: seq<Product>)
    requires UniqueIds(s)
    ensures UniqueIds(Filter(keep, s))
    decreases |s|
  {
    if s != [] {
      var tail := s[1..];
      assert UniqueIds(tail) by {
        forall i, j | 0 <= i < |tail| && 0 <= j < |tail| && i != j ensures tail[i].id != tail[j].id {
          assert tail[i] == s[i + 1] && tail[j] == s[j + 1];
        }
      }
      FilterKeepsUniqueIds(keep, tail);
      var rest := Filter(keep, tail);
      if keep(s[0]) {
        var r := [s[0]] + rest;
        forall i, j | 0 <= i < |r| && 0 <= j < |r| && i != j ensures r[i].id != r[j].id {
          if i == 0 || j == 0 {
            var k := if i == 0 then j else i;
            assert r[k] in tail;
            var m :| 0 <= m < |tail| && tail[m] == r[k];
            assert s[m + 1] == r[k];
          } else {
            assert r[i] == rest[i - 1] && r[j] == rest[j - 1];
          }
        }
      }
    }
  }

  /** Toggling an unselected product twice, with room for it, gives back the selection. */
  lemma ToggleTwiceRestores(selected: seq<Product>, product: Product, max: int)
    requires !IsSelected(selected, product.id) && |selected| < max
    ensures Toggled(Toggled(selected, product, max), product, max) == selected
  {
    var once := selected + [product];
    assert IsSelected(once, product.id) by { assert product in once; }
    FilterConcat(IdIsNot(product.id), selected, [product]);
    FilterKeepsAll(IdIsNot(product.id), selected);
  }

  /** The picker: the selection it edits (owned by the caller), the products it lists and
      the search term. */
  class Picker {
    var selected: seq<Product>
    const max: int
    var allProducts: seq<Product>
    var searchTerm: string

    /** The selection is within the cap and holds each product once. */
    ghost predicate Valid()
      reads this
    {
      |selected| <= max && UniqueIds(selected)
    }

    constructor (selected: seq<Product>, max: int := DefaultMax)
      ensures this.selected == selected && this.max == max
      ensures allProducts == [] && searchTerm == ""
    {
      this.selected := selected;
      this.max := max;
      allProducts := [];
      searchTerm := "";
    }

    /** `fetchProducts`; `fetched` is `None` when the request failed, which keeps the list. */
    method FetchProducts(fetched: Option<seq<Product>>)
      modifies this
      ensures allProducts == fetched.GetOr(old(allProducts))
      ensures selected == old(selected) && searchTerm == old(searchTerm)
    {
      if fetched.Some? {
        allProducts := fetched.value;
      }
    }

    /** `handleToggle(product)`; `capped` is true when the cap refused the product (the
        alert). */
    method Toggle(product: Product) returns (capped: bool)
      modifies this
      ensures selected == Toggled(old(selected), product, max)
      ensures capped <==> !IsSelected(old(selected), product.id) && |old(selected)| >= max
      ensures old(Valid()) ==> Valid()
      ensures allProducts == old(allProducts) && searchTerm == old(searchTerm)
    {
      ghost var before := selected;
      capped := false;
      var found := FindFirst(HasId(product.id), selected);
      if found.Some? {
        assert IsSelected(selected, product.id) by {
          var i :| 0 <= i < |selected| && selected[i] == found.value && HasId(product.id)(selected[i]);
          assert selected[i] in selected;
        }
        selected := Filter(IdIsNot(product.id), selected);
      } else {
        assert !IsSelected(selected, product.id) by {
          forall p | p in selected ensures p.id != product.id {
            var i :| 0 <= i < |selected| && selected[i] == p;
            assert !HasId(product.id)(selected[i]);
          }
        }
        if |selected| >= max {
          capped := true;
          return;
        }
        selected := selected + [product];
      }
      if old(Valid()) {
        ToggleKeepsCap(before, product, max);
        ToggleKeepsIdsUnique(before, product, max);
      }
    }

    /** The grid: the products whose title contains the search term, ignoring case, in
        list order. */
    function Grid(): (r: seq<Product>)
      reads this
      ensures forall p :: p in r <==>
                (p in allProducts && Contains(ToLower(p.title), ToLower(searchTerm)))
    {
      SearchByTitle(allProducts, searchTerm)
    }
  }
}
