/** A small concrete cache: one view at the start of a file of two views, with some holders. */
module CacheExample {
  import opened VacbCache

  const FILE: nat := 7

  ghost function TwoViewsLong(): seq<byte> { seq(2 * GRANULARITY, i => 0) }

  ghost function OneView(held: nat): Cache {
    Cache(map[0 := Vacb(FILE, 0, 1 + held, false, 0)], map[FILE := [0]], [0], [], 0, map[FILE := 0], map[0 := held],
          map[FILE := TwoViewsLong()], map[FILE := TwoViewsLong()])
  }

  lemma OneViewFields(held: nat)
    ensures var c := OneView(held);
            && (forall v :: v in c.vacbs <==> v == 0) && c.vacbs[0] == Vacb(FILE, 0, 1 + held, false, 0)
            && (forall f :: f in c.views <==> f == FILE) && c.views[FILE] == [0]
            && (forall v :: v in c.holders <==> v == 0) && c.holders[0] == held
  {
  }

  lemma OneViewViewed(held: nat)
    ensures Viewed(OneView(held))
  {
    hide OneView;
    OneViewFields(held);
    var s := OneView(held);
    assert ListOf(s, s.views[FILE], FILE) by { assert forall v :: v in [0] <==> v == 0; }
  }

  lemma OneViewInv(held: nat)
    ensures Inv(OneView(held))
  {
    hide Viewed, Pages;
    OneViewFields(held);
    OneViewViewed(held);
    var s := OneView(held);
    assert DirtyOf(s, FILE) == {};
    PagesSum(0, 0);
    assert Linked(s);
    assert Referenced(s);
    assert Totalled(s);
  }
}
