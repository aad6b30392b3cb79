/**
 * The sidebar of the page layout: ten navigation entries, five of them for administrators only,
 * an entry highlighted when the current route is its own or lies below it (except the
 * dashboard, highlighted only on its own route).  The user box shows `Initials.Initials`.
 */
module Sidebar {
  import opened Types
  import opened Menu

  const DashboardPath: string := "/dashboard"

  const Dashboard: MenuItem := MenuItem("Dashboard", DashboardPath, false)
  const Estudantes: MenuItem := MenuItem("Estudantes", "/estudantes", true)
  const Empresas: MenuItem := MenuItem("Empresas", "/empresas", true)
  const Orientadores: MenuItem := MenuItem("Orientadores", "/orientadores", true)
  const Obrigatorios: MenuItem := MenuItem("Estágios Obrigatórios", "/estagios/obrigatorios", false)
  const NaoObrigatorios: MenuItem := MenuItem("Estágios Não Obrigatórios", "/estagios/nao-obrigatorios", false)
  const Alertas: MenuItem := MenuItem("Central de Alertas", "/alertas", true)
  const Certificados: MenuItem := MenuItem("Certificados", "/certificados", false)
  const Relatorios: MenuItem := MenuItem("Relatórios", "/relatorios", false)
  const Configuracoes: MenuItem := MenuItem("Configurações", "/configuracoes", true)

  /** `menuItems`, in display order. */
  const SidebarItems: seq<MenuItem> :=
    [Dashboard, Estudantes, Empresas, Orientadores, Obrigatorios, NaoObrigatorios,
     Alertas, Certificados, Relatorios, Configuracoes]

  /** What `filteredMenuItems` holds for `user`. */
  function SidebarMenu(user: User): (shown: seq<MenuItem>)
    ensures IsAdministrator(user) ==> shown == SidebarItems
    ensures !IsAdministrator(user) ==> shown == [Dashboard, Obrigatorios, NaoObrigatorios, Certificados, Relatorios]
    ensures !IsAdministrator(user) ==> Estudantes !in shown && Empresas !in shown && Orientadores !in shown
                                       && Alertas !in shown && Configuracoes !in shown
  {
    NonAdministratorMenu();
    FilterMenu(SidebarItems, IsAdministrator(user))
  }

  /** The first five entries, as a non-administrator sees them. */
  lemma NonAdministratorHead()
    ensures FilterMenu([Dashboard, Estudantes, Empresas, Orientadores, Obrigatorios], false) == [Dashboard, Obrigatorios]
  {
    FilterMenuCons(Obrigatorios, [], false);
    FilterMenuCons(Orientadores, [Obrigatorios], false);
    FilterMenuCons(Empresas, [Orientadores, Obrigatorios], false);
    FilterMenuCons(Estudantes, [Empresas, Orientadores, Obrigatorios], false);
    FilterMenuCons(Dashboard, [Estudantes, Empresas, Orientadores, Obrigatorios], false);
  }

  /** The last five entries, as a non-administrator sees them. */
  lemma NonAdministratorTail()
    ensures FilterMenu([NaoObrigatorios, Alertas, Certificados, Relatorios, Configuracoes], false)
            == [NaoObrigatorios, Certificados, Relatorios]
  {
    FilterMenuCons(Configuracoes, [], false);
    FilterMenuCons(Relatorios, [Configuracoes], false);
    FilterMenuCons(Certificados, [Relatorios, Configuracoes], false);
    FilterMenuCons(Alertas, [Certificados, Relatorios, Configuracoes], false);
    FilterMenuCons(NaoObrigatorios, [Alertas, Certificados, Relatorios, Configuracoes], false);
  }

  /** The menu a non-administrator sees: the two halves of the list filtered one after the other. */
  lemma NonAdministratorMenu()
    ensures FilterMenu(SidebarItems, false) == [Dashboard, Obrigatorios, NaoObrigatorios, Certificados, Relatorios]
  {
    var head := [Dashboard, Estudantes, Empresas, Orientadores, Obrigatorios];
    var tail := [NaoObrigatorios, Alertas, Certificados, Relatorios, Configuracoes];
    NonAdministratorHead();
    NonAdministratorTail();
    FilterMenuAppend(head, tail, false);
    assert head + tail == SidebarItems;
  }

  /** `router.pathname === item.href || (item.href !== '/dashboard' && router.pathname.startsWith(item.href))`. */
  predicate IsActive(pathname: string, href: string)
  {
    pathname == href || (href != DashboardPath && href <= pathname)
  }

  /** The dashboard entry is highlighted only on the dashboard route itself. */
  lemma DashboardActiveOnlyThere(pathname: string)
    ensures IsActive(pathname, DashboardPath) <==> pathname == DashboardPath
  {
  }

  /** Any other entry is highlighted on its own route and every route below it. */
  lemma ActiveBelowOwnRoute(href: string, rest: string)
    requires href != DashboardPath
    ensures IsActive(href + rest, href)
  {
    assert href <= href + rest;
  }

  /** An entry is only ever highlighted on a route that starts with its `href`. */
  lemma ActiveMeansPrefix(pathname: string, href: string)
    requires IsActive(pathname, href)
    ensures href <= pathname
  {
  }

  /** The `href`s of `SidebarItems`, listed apart so that their characters can be compared. */
  const Hrefs: seq<string> :=
    ["/dashboard", "/estudantes", "/empresas", "/orientadores", "/estagios/obrigatorios",
     "/estagios/nao-obrigatorios", "/alertas", "/certificados", "/relatorios", "/configuracoes"]

  /** Two different entries' `href`s differ at some position both of them have. */
  lemma HrefsDiffer(i: nat, j: nat) returns (k: nat)
    requires i < |Hrefs| && j < |Hrefs| && i != j
    ensures k < |Hrefs[i]| && k < |Hrefs[j]| && Hrefs[i][k] != Hrefs[j][k]
  {
    var a, b := Hrefs[i], Hrefs[j];
    if a[1] != b[1] {
      k := 1;
    } else if a[2] != b[2] {
      k := 2;
    } else if a[4] != b[4] {
      k := 4;
    } else {
      k := 10;
    }
  }

  /** Two texts that differ at a position both have cannot both start a third text. */
  lemma NotBothPrefixes(a: string, b: string, s: string, k: nat)
    requires k < |a| && k < |b| && a[k] != b[k]
    ensures !(a <= s && b <= s)
  {
  }

  /** Whatever the route, at most one entry is highlighted. */
  lemma AtMostOneActive(pathname: string, i: nat, j: nat)
    requires i < |SidebarItems| && j < |SidebarItems| && i != j
    ensures !(IsActive(pathname, SidebarItems[i].href) && IsActive(pathname, SidebarItems[j].href))
  {
    assert forall n :: 0 <= n < |SidebarItems| ==> SidebarItems[n].href == Hrefs[n];
    var k := HrefsDiffer(i, j);
    NotBothPrefixes(Hrefs[i], Hrefs[j], pathname, k);
  }
}
