/**
 * Navigation entries and the role filter both sidebars apply:
 * `menuItems.filter(item => !item.adminOnly || isAdmin)`.
 */
module Menu {
  import opened Types

  /** A navigation entry; the icon is presentation and is not modelled. */
  datatype MenuItem = MenuItem(name: string, href: string, adminOnly: bool)

  /** `user.tipo === 'administrador'`. */
  predicate IsAdministrator(user: User)
  {
    user.tipo == Administrador
  }

  /** True when a user with the given role sees `item`. */
  predicate Visible(item: MenuItem, isAdmin: bool)
  {
    !item.adminOnly || isAdmin
  }

  /** `a` is `b` with some entries left out and the rest in their original order. */
  predicate IsSubsequence<T(==)>(a: seq<T>, b: seq<T>)
  {
    if a == [] then true
    else if b == [] then false
    else if a[0] == b[0] then IsSubsequence(a[1..], b[1..])
    else IsSubsequence(a, b[1..])
  }

  /** The entries a user with the given role sees, in menu order. */
  function FilterMenu(items: seq<MenuItem>, isAdmin: bool): (shown: seq<MenuItem>)
    ensures isAdmin ==> shown == items
    ensures |shown| <= |items|
  {
    if items == [] then []
    else
      var rest := FilterMenu(items[1..], isAdmin);
      if Visible(items[0], isAdmin) then [items[0]] + rest else rest
  }

  /** The filtered menu keeps the entries it shows in their original order. */
  lemma {:induction false} FilterMenuKeepsOrder(items: seq<MenuItem>, isAdmin: bool)
    ensures IsSubsequence(FilterMenu(items, isAdmin), items)
  {
    if items != [] {
      var rest := FilterMenu(items[1..], isAdmin);
      FilterMenuKeepsOrder(items[1..], isAdmin);
      if Visible(items[0], isAdmin) {
        assert ([items[0]] + rest)[1..] == rest;
      } else {
        if rest != [] {
          FilterMenuMembers(items[1..], isAdmin, rest[0]);
        }
      }
    }
  }

  /** An entry is shown exactly when it is in the menu and the user's role sees it. */
  lemma {:induction false} FilterMenuMembers(items: seq<MenuItem>, isAdmin: bool, item: MenuItem)
    ensures item in FilterMenu(items, isAdmin) <==> item in items && Visible(item, isAdmin)
  {
    if items != [] {
      FilterMenuMembers(items[1..], isAdmin, item);
      assert items == [items[0]] + items[1..];
    }
  }

  /** A proof step: the filter looks at the first entry, then filters the rest. */
  lemma FilterMenuCons(item: MenuItem, rest: seq<MenuItem>, isAdmin: bool)
    ensures FilterMenu([item] + rest, isAdmin)
            == (if Visible(item, isAdmin) then [item] else []) + FilterMenu(rest, isAdmin)
  {
    assert ([item] + rest)[1..] == rest;
  }

  /** Filtering a longer menu filters its two parts one after the other. */
  lemma {:induction false} FilterMenuAppend(a: seq<MenuItem>, b: seq<MenuItem>, isAdmin: bool)
    ensures FilterMenu(a + b, isAdmin) == FilterMenu(a, isAdmin) + FilterMenu(b, isAdmin)
  {
    if a == [] {
      assert a + b == b;
    } else {
      assert (a + b)[1..] == a[1..] + b;
      FilterMenuAppend(a[1..], b, isAdmin);
    }
  }
}
