/**
 * The page frame of the application: it sends a visitor without a session to the login page,
 * shows the login page bare, and otherwise frames the page with a role-filtered menu, the user's
 * initials and a mobile sidebar that opens and closes.  Unlike the sidebar component, an entry is
 * highlighted only on its own route.
 */
module AppLayout {
  import opened Types
  import opened Menu
  import Initials
  import Sidebar
  import AuthContext

  /**
   * `menuItems`: the sidebar's entries without the alerts entry, with the same names, routes and
   * role flags.
   */
  const LayoutItems: seq<MenuItem> :=
    [Sidebar.Dashboard, Sidebar.Estudantes, Sidebar.Empresas, Sidebar.Orientadores, Sidebar.Obrigatorios,
     Sidebar.NaoObrigatorios, Sidebar.Certificados, Sidebar.Relatorios, Sidebar.Configuracoes]

  /** What the layout renders. */
  datatype Render =
    | RedirectToLogin
    | Bare
    | Framed(menu: seq<MenuItem>, initials: string)

  /**
   * The render guard: without a signed-in user, every page but the login page redirects to it;
   * the login page is shown without the frame; any other page is framed for the signed-in user.
   */
  function RenderFor(user: Option<User>, pathname: string): (r: Render)
    ensures r.RedirectToLogin? <==> user.None? && pathname != AuthContext.LoginPath
    ensures r.Bare? <==> pathname == AuthContext.LoginPath
    ensures r.Framed? ==> user.Some? && pathname != AuthContext.LoginPath
    ensures r.Framed? ==> r.menu == FilterMenu(LayoutItems, IsAdministrator(user.value))
    ensures r.Framed? ==> r.initials == Initials.Take(Initials.WordStarts(user.value.nome), 2)
  {
    if user.None? && pathname != AuthContext.LoginPath then RedirectToLogin
    else if pathname == AuthContext.LoginPath then Bare
    else Framed(FilterMenu(LayoutItems, IsAdministrator(user.value)), Initials.Initials(user.value.nome))
  }

  /** The layout's list is the sidebar's list with the alerts entry taken out. */
  lemma LayoutItemsWithoutAlerts()
    ensures LayoutItems == Sidebar.SidebarItems[..6] + Sidebar.SidebarItems[7..]
    ensures Sidebar.SidebarItems[6] == Sidebar.Alertas && Sidebar.Alertas !in LayoutItems
  {
  }

  /** The last four entries, as a non-administrator sees them. */
  lemma NonAdministratorTail()
    ensures FilterMenu([Sidebar.NaoObrigatorios, Sidebar.Certificados, Sidebar.Relatorios, Sidebar.Configuracoes], false)
            == [Sidebar.NaoObrigatorios, Sidebar.Certificados, Sidebar.Relatorios]
  {
    FilterMenuCons(Sidebar.Configuracoes, [], false);
    FilterMenuCons(Sidebar.Relatorios, [Sidebar.Configuracoes], false);
    FilterMenuCons(Sidebar.Certificados, [Sidebar.Relatorios, Sidebar.Configuracoes], false);
    FilterMenuCons(Sidebar.NaoObrigatorios, [Sidebar.Certificados, Sidebar.Relatorios, Sidebar.Configuracoes], false);
  }

  /**
   * A non-administrator sees five entries, the same ones, in the same order, as in the sidebar
   * component; the four administrator entries are not among them.
   */
  lemma NonAdministratorMenu()
    ensures FilterMenu(LayoutItems, false)
            == [Sidebar.Dashboard, Sidebar.Obrigatorios, Sidebar.NaoObrigatorios, Sidebar.Certificados, Sidebar.Relatorios]
    ensures FilterMenu(LayoutItems, false) == FilterMenu(Sidebar.SidebarItems, false)
    ensures && Sidebar.Estudantes !in FilterMenu(LayoutItems, false)
            && Sidebar.Empresas !in FilterMenu(LayoutItems, false)
            && Sidebar.Orientadores !in FilterMenu(LayoutItems, false)
            && Sidebar.Configuracoes !in FilterMenu(LayoutItems, false)
  {
    var head := [Sidebar.Dashboard, Sidebar.Estudantes, Sidebar.Empresas, Sidebar.Orientadores, Sidebar.Obrigatorios];
    var tail := [Sidebar.NaoObrigatorios, Sidebar.Certificados, Sidebar.Relatorios, Sidebar.Configuracoes];
    Sidebar.NonAdministratorHead();
    NonAdministratorTail();
    FilterMenuAppend(head, tail, false);
    assert head + tail == LayoutItems;
    Sidebar.NonAdministratorMenu();
  }

  /** An administrator sees all nine entries; a signed-in user sees them in the list's order. */
  lemma FramedMenu(user: User, pathname: string)
    requires pathname != AuthContext.LoginPath
    ensures RenderFor(Some(user), pathname).Framed?
    ensures IsAdministrator(user) ==> RenderFor(Some(user), pathname).menu == LayoutItems
    ensures IsSubsequence(RenderFor(Some(user), pathname).menu, LayoutItems)
  {
    FilterMenuKeepsOrder(LayoutItems, IsAdministrator(user));
  }

  /** `currentPath === item.href`: the layout highlights an entry on its own route only. */
  predicate LayoutActive(pathname: string, href: string)
  {
    pathname == href
  }

  /** An entry the layout highlights is also highlighted by the sidebar component. */
  lemma LayoutActiveIsSidebarActive(pathname: string, href: string)
    requires LayoutActive(pathname, href)
    ensures Sidebar.IsActive(pathname, href)
  {
  }

  /** The converse fails: below an entry's route only the sidebar component highlights it. */
  lemma BelowRouteOnlySidebarActive()
    ensures Sidebar.IsActive("/estudantes/novo", "/estudantes")
    ensures !LayoutActive("/estudantes/novo", "/estudantes")
  {
    Sidebar.ActiveBelowOwnRoute("/estudantes", "/novo");
    assert "/estudantes" + "/novo" == "/estudantes/novo";
  }

  /** Entries with different routes are never highlighted together. */
  lemma AtMostOneLayoutActive(pathname: string, i: nat, j: nat)
    requires i < |LayoutItems| && j < |LayoutItems| && LayoutItems[i].href != LayoutItems[j].href
    ensures !(LayoutActive(pathname, LayoutItems[i].href) && LayoutActive(pathname, LayoutItems[j].href))
  {
  }

  /** The open/closed state of the mobile sidebar. */
  class LayoutState {
    var sidebarOpen: bool

    /** The mobile sidebar starts closed. */
    constructor ()
      ensures !sidebarOpen
    {
      sidebarOpen := false;
    }

    /** The header's menu button opens the mobile sidebar. */
    method OpenSidebar()
      modifies this
      ensures sidebarOpen
    {
      sidebarOpen := true;
    }

    /** The backdrop, the close button and a click on an entry close the mobile sidebar. */
    method CloseSidebar()
      modifies this
      ensures !sidebarOpen
    {
      sidebarOpen := false;
    }

    /** The mobile logout button: the session ends first, then the mobile sidebar closes. */
    method MobileLogout(provider: AuthContext.AuthProvider)
      modifies this, provider
      ensures !sidebarOpen
      ensures provider.Valid() && !provider.IsAuthenticated()
      ensures provider.cookies == old(provider.cookies) - {AuthContext.AuthToken, AuthContext.UserData}
      ensures provider.location == Some(AuthContext.LoginPath)
      ensures provider.isLoading == old(provider.isLoading)
    {
      provider.Logout();
      CloseSidebar();
    }
  }

  /** After the mobile logout, the next render of any other page redirects to the login page. */
  method LogoutThenRender(provider: AuthContext.AuthProvider, pathname: string) returns (r: Render)
    modifies provider
    requires pathname != AuthContext.LoginPath
    ensures r == RedirectToLogin
  {
    var state := new LayoutState();
    state.OpenSidebar();
    state.MobileLogout(provider);
    r := RenderFor(provider.user, pathname);
  }
}
