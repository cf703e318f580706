/**
  The state of the customer menu screen (frontend-customer/src/components/Menu.js):
  the catalog, the visible part of it, the selected filter and the cart, each
  overwritten as a whole by the screen's operations. Network answers are
  parameters: the catalog fetch delivers a catalog or nothing, the order post
  is answered by a Response.
 */
module Session {
  import opened Wrappers
  import opened Catalog
  import opened Cart
  import opened Order

  class MenuSession {
    const tableId: TableId
    var menu: seq<MenuItem>
    var filteredMenu: seq<MenuItem>
    var activeFilter: string
    var cart: seq<CartLine>

    /** The cart invariants, kept by every operation. */
    ghost predicate Valid()
      reads this
    {
      WellFormed(cart)
    }

    /** The total shown under the cart, recomputed from the lines every time. */
    function TotalPrice(): nat
      reads this
    {
      Total(cart)
    }

    /** A fresh screen: nothing loaded, the wildcard filter selected, an empty cart. */
    constructor (tableId: TableId)
      ensures this.tableId == tableId
      ensures menu == [] && filteredMenu == [] && activeFilter == ALL_TAG && cart == []
      ensures Valid() && TotalPrice() == 0
    {
      this.tableId := tableId;
      menu := [];
      filteredMenu := [];
      activeFilter := ALL_TAG;
      cart := [];
    }

    /**
      The catalog fetch: a delivered catalog replaces both the catalog and the
      visible items wholesale; a failed fetch changes nothing.
     */
    method LoadMenu(response: Option<seq<MenuItem>>)
      modifies this
      ensures response.Some? ==> menu == response.value && filteredMenu == response.value
      ensures response.None? ==> menu == old(menu) && filteredMenu == old(filteredMenu)
      ensures activeFilter == old(activeFilter) && cart == old(cart)
    {
      if response.Some? {
        menu := response.value;
        filteredMenu := response.value;
      }
    }

    /** Selecting a filter tag: the visible items become the catalog filtered by it. */
    method FilterMenu(tag: string)
      modifies this
      ensures activeFilter == tag && filteredMenu == Filter(menu, tag)
      ensures tag == ALL_TAG ==> filteredMenu == menu
      ensures menu == old(menu) && cart == old(cart)
    {
      activeFilter := tag;
      filteredMenu := Filter(menu, tag);
    }

    /** Adding a catalog item to the cart. */
    method AddToCart(item: MenuItem)
      modifies this
      ensures cart == Cart.AddToCart(old(cart), item)
      ensures old(Valid()) ==> Valid()
      ensures old(Valid()) ==>
        TotalPrice() == old(TotalPrice()) + (if Find(old(cart), item.id).Some? then Find(old(cart), item.id).value.price else item.price)
      ensures menu == old(menu) && filteredMenu == old(filteredMenu) && activeFilter == old(activeFilter)
    {
      if Valid() {
        AddKeepsWellFormed(cart, item);
        AddTotal(cart, item);
      }
      cart := Cart.AddToCart(cart, item);
    }

    /** Editing the note of the line for item `id`. */
    method UpdateNote(id: int, note: string)
      modifies this
      ensures cart == Cart.UpdateNote(old(cart), id, note)
      ensures Find(old(cart), id).None? ==> cart == old(cart)
      ensures old(Valid()) ==> Valid()
      ensures TotalPrice() == old(TotalPrice())
      ensures menu == old(menu) && filteredMenu == old(filteredMenu) && activeFilter == old(activeFilter)
    {
      UpdateNoteKeeps(cart, id, note, id);
      if Find(cart, id).None? {
        UpdateNoteMissing(cart, id, note);
      }
      cart := Cart.UpdateNote(cart, id, note);
    }

    /**
      Sending the order: returns the request that was posted (none for an
      empty cart) and how the submission ended.
     */
    method SendOrder(response: Response) returns (request: Option<OrderRequest>, status: Status)
      modifies this
      ensures var s := Submit(tableId, old(cart), response);
        request == s.request && status == s.status && cart == s.cart
      ensures old(cart) == [] ==> request.None? && status == EmptyCart && cart == []
      ensures request.Some? ==> request.value == OrderRequest(tableId, old(cart))
      ensures status == Sent ==> cart == [] && TotalPrice() == 0
      ensures status != Sent ==> cart == old(cart)
      ensures old(Valid()) ==> Valid()
      ensures menu == old(menu) && filteredMenu == old(filteredMenu) && activeFilter == old(activeFilter)
    {
      var s := Submit(tableId, cart, response);
      request, status := s.request, s.status;
      cart := s.cart;
    }
  }

  /**
    A catalog with a dish and a drink: two dishes and one drink give two lines
    and a total of 115000; a note edit touches only the dish's line; a failed
    submission keeps everything and a successful one empties the cart.
   */
  method PhoAndCokeScenario(accepted: bool)
  {
    var pho := MenuItem(1, "Pho", "", 50000, "food", "");
    var coke := MenuItem(2, "Coke", "", 15000, "drink", "");
    var session := new MenuSession("7");
    session.LoadMenu(Some([pho, coke]));
    session.FilterMenu("drink");
    assert ByCategory([pho], "drink") == [] by {
      assert [pho][..0] == [];
    }
    assert ByCategory([pho, coke], "drink") == [coke] by {
      assert [pho, coke][..1] == [pho];
    }
    assert session.filteredMenu == [coke];
    session.AddToCart(pho);
    session.AddToCart(pho);
    session.AddToCart(coke);
    assert session.cart == [CartLine(1, "Pho", 50000, 2, ""), CartLine(2, "Coke", 15000, 1, "")];
    assert session.TotalPrice() == 115000;
    session.UpdateNote(1, "no onions");
    assert session.cart == [CartLine(1, "Pho", 50000, 2, "no onions"), CartLine(2, "Coke", 15000, 1, "")];
    assert session.TotalPrice() == 115000;
    var before := session.cart;
    var request, status := session.SendOrder(Rejected);
    assert status == Failed && session.cart == before && session.TotalPrice() == 115000;
    request, status := session.SendOrder(Accepted);
    assert request == Some(OrderRequest("7", before));
    assert status == Sent && session.cart == [] && session.TotalPrice() == 0;
    request, status := session.SendOrder(if accepted then Accepted else Rejected);
    assert request.None? && status == EmptyCart;
  }
}
