/** The sidebar (`AppSidebar`) and the dashboard dispatch (`Dashboard`):
    which navigation entries and which dashboard each role gets. */
module Navigation {
  import opened Domain
  import Seqs
  import Login

  /** A sidebar entry and the roles it is shown to. */
  datatype NavItem = NavItem(caption: string, href: string, roles: seq<Role>)

  /** The entries, in display order. */
  const NavItems: seq<NavItem> := [
    NavItem("Dashboard", "/dashboard", [Master, Admin, Analyst]),
    NavItem("Projetos", "/projetos", [Admin, Analyst]),
    NavItem("Nova Análise", "/analise/nova", [Analyst]),
    NavItem("Calendário", "/calendario", [Admin, Analyst]),
    NavItem("Analistas", "/analistas", [Admin]),
    NavItem("Prefeituras", "/prefeituras", [Master]),
    NavItem("Relatórios", "/relatorios", [Master, Admin])
  ]

  /** `item => user && item.roles.includes(user.role)`. */
  function VisibleTo(user: Option<User>): NavItem -> bool
  {
    (item: NavItem) => user.Some? && user.value.role in item.roles
  }

  /** `filteredItems`: the entries the current user is shown. */
  function FilteredItems(user: Option<User>): (items: seq<NavItem>)
    ensures forall i :: 0 <= i < |items| ==> user.Some? && user.value.role in items[i].roles
    ensures user.None? ==> items == []
  {
    Seqs.Filter(NavItems, VisibleTo(user))
  }

  /** The visible entries are exactly the entries carrying the user's role,
      in table order. */
  lemma FilteredItemsExact(user: Option<User>)
    ensures Seqs.IsSubsequence(FilteredItems(user), NavItems)
    ensures forall i :: 0 <= i < |NavItems| && user.Some? && user.value.role in NavItems[i].roles ==>
              NavItems[i] in FilteredItems(user)
    ensures forall i :: 0 <= i < |FilteredItems(user)| ==> FilteredItems(user)[i] in NavItems
  {
    Seqs.FilterIsSubsequence(NavItems, VisibleTo(user));
    Seqs.FilterMembership(NavItems, VisibleTo(user));
  }

  /** The entries that carry role `r`. */
  function HasRole(r: Role): NavItem -> bool
  {
    (item: NavItem) => r in item.roles
  }

  /** The captions of a list of entries. */
  function Captions(items: seq<NavItem>): seq<string>
  {
    seq(|items|, i requires 0 <= i < |items| => items[i].caption)
  }

  /** A signed-in user sees the entries of their role. */
  lemma FilteredItemsOfUser(u: User)
    ensures FilteredItems(Some(u)) == Seqs.Filter(NavItems, HasRole(u.role))
  {
    Seqs.FilterCongruence(NavItems, VisibleTo(Some(u)), HasRole(u.role));
  }

  /** What each role is shown, in order. */
  lemma MenuPerRole(u: User)
    ensures u.role == Master ==> Captions(FilteredItems(Some(u))) == ["Dashboard", "Prefeituras", "Relatórios"]
    ensures u.role == Admin ==> Captions(FilteredItems(Some(u))) == ["Dashboard", "Projetos", "Calendário", "Analistas", "Relatórios"]
    ensures u.role == Analyst ==> Captions(FilteredItems(Some(u))) == ["Dashboard", "Projetos", "Nova Análise", "Calendário"]
  {
    FilteredItemsOfUser(u);
    match u.role
    case Master => MasterMenu(); MasterCaptions();
    case Admin => AdminMenu(); AdminCaptions();
    case Analyst => AnalystMenu(); AnalystCaptions();
  }

  lemma MasterCaptions()
    ensures Captions([NavItems[0], NavItems[5], NavItems[6]]) == ["Dashboard", "Prefeituras", "Relatórios"]
  {
  }

  lemma AdminCaptions()
    ensures Captions([NavItems[0], NavItems[1], NavItems[3], NavItems[4], NavItems[6]])
         == ["Dashboard", "Projetos", "Calendário", "Analistas", "Relatórios"]
  {
  }

  lemma AnalystCaptions()
    ensures Captions([NavItems[0], NavItems[1], NavItems[2], NavItems[3]])
         == ["Dashboard", "Projetos", "Nova Análise", "Calendário"]
  {
  }

  lemma MasterMenu()
    ensures Seqs.Filter(NavItems, HasRole(Master)) == [NavItems[0], NavItems[5], NavItems[6]]
  {
    Seqs.Filter7(NavItems, HasRole(Master));
    MasterKeeps();
    MasterShape(NavItems[0], NavItems[5], NavItems[6]);
  }

  lemma MasterShape(a: NavItem, b: NavItem, c: NavItem)
    ensures [a] + ([] + ([] + ([] + ([] + ([b] + ([c])))))) == [a, b, c]
  {
  }

  lemma MasterKeeps()
    ensures Seqs.Keep(NavItems[0], HasRole(Master)) == [NavItems[0]]
    ensures Seqs.Keep(NavItems[1], HasRole(Master)) == []
    ensures Seqs.Keep(NavItems[2], HasRole(Master)) == []
    ensures Seqs.Keep(NavItems[3], HasRole(Master)) == []
    ensures Seqs.Keep(NavItems[4], HasRole(Master)) == []
    ensures Seqs.Keep(NavItems[5], HasRole(Master)) == [NavItems[5]]
    ensures Seqs.Keep(NavItems[6], HasRole(Master)) == [NavItems[6]]
  {
  }

  lemma AdminMenu()
    ensures Seqs.Filter(NavItems, HasRole(Admin)) == [NavItems[0], NavItems[1], NavItems[3], NavItems[4], NavItems[6]]
  {
    Seqs.Filter7(NavItems, HasRole(Admin));
    AdminKeeps();
    AdminShape(NavItems[0], NavItems[1], NavItems[3], NavItems[4], NavItems[6]);
  }

  lemma AdminShape(a: NavItem, b: NavItem, c: NavItem, d: NavItem, e: NavItem)
    ensures [a] + ([b] + ([] + ([c] + ([d] + ([] + ([e])))))) == [a, b, c, d, e]
  {
  }

  lemma AdminKeeps()
    ensures Seqs.Keep(NavItems[0], HasRole(Admin)) == [NavItems[0]]
    ensures Seqs.Keep(NavItems[1], HasRole(Admin)) == [NavItems[1]]
    ensures Seqs.Keep(NavItems[2], HasRole(Admin)) == []
    ensures Seqs.Keep(NavItems[3], HasRole(Admin)) == [NavItems[3]]
    ensures Seqs.Keep(NavItems[4], HasRole(Admin)) == [NavItems[4]]
    ensures Seqs.Keep(NavItems[5], HasRole(Admin)) == []
    ensures Seqs.Keep(NavItems[6], HasRole(Admin)) == [NavItems[6]]
  {
  }

  lemma AnalystMenu()
    ensures Seqs.Filter(NavItems, HasRole(Analyst)) == [NavItems[0], NavItems[1], NavItems[2], NavItems[3]]
  {
    Seqs.Filter7(NavItems, HasRole(Analyst));
    AnalystKeeps();
    AnalystShape(NavItems[0], NavItems[1], NavItems[2], NavItems[3]);
  }

  lemma AnalystShape(a: NavItem, b: NavItem, c: NavItem, d: NavItem)
    ensures [a] + ([b] + ([c] + ([d] + ([] + ([] + ([])))))) == [a, b, c, d]
  {
  }

  lemma AnalystKeeps()
    ensures Seqs.Keep(NavItems[0], HasRole(Analyst)) == [NavItems[0]]
    ensures Seqs.Keep(NavItems[1], HasRole(Analyst)) == [NavItems[1]]
    ensures Seqs.Keep(NavItems[2], HasRole(Analyst)) == [NavItems[2]]
    ensures Seqs.Keep(NavItems[3], HasRole(Analyst)) == [NavItems[3]]
    ensures Seqs.Keep(NavItems[4], HasRole(Analyst)) == []
    ensures Seqs.Keep(NavItems[5], HasRole(Analyst)) == []
    ensures Seqs.Keep(NavItems[6], HasRole(Analyst)) == []
  {
  }

  /** Every entry is meant for someone, and every role sees the dashboard
      entry. */
  lemma TableShape(u: User)
    ensures forall i :: 0 <= i < |NavItems| ==> |NavItems[i].roles| > 0
    ensures NavItems[0] in FilteredItems(Some(u)) && NavItems[0].href == "/dashboard"
  {
    EntriesHaveRoles();
    DashboardVisible(u);
  }

  lemma EntriesHaveRoles()
    ensures forall i :: 0 <= i < |NavItems| ==> |NavItems[i].roles| > 0
  {
  }

  lemma DashboardVisible(u: User)
    ensures NavItems[0] in FilteredItems(Some(u))
  {
    RoleSeesDashboard(u);
    Seqs.FilterKeeps(NavItems, VisibleTo(Some(u)), 0);
  }

  lemma RoleSeesDashboard(u: User)
    ensures VisibleTo(Some(u))(NavItems[0])
  {
    assert u.role == Master || u.role == Admin || u.role == Analyst;
  }

  /** `location.pathname === item.href`. */
  predicate IsActiveLink(pathname: string, item: NavItem)
  {
    pathname == item.href
  }

  /** Entries have distinct targets, so whatever the path, at most one entry
      of any user's menu is highlighted. */
  lemma AtMostOneActive(pathname: string, user: Option<User>)
    ensures DistinctHrefs(NavItems)
    ensures forall i, j :: 0 <= i < |FilteredItems(user)| && 0 <= j < |FilteredItems(user)|
              && IsActiveLink(pathname, FilteredItems(user)[i]) && IsActiveLink(pathname, FilteredItems(user)[j])
              ==> i == j
  {
    TableHrefsDistinct();
    FilteredItemsExact(user);
    DistinctHrefsInSubsequence(FilteredItems(user), NavItems);
  }

  /** The targets differ pairwise: each is told apart by its length and its
      first letter after the slash. */
  lemma TableHrefsDistinct()
    ensures DistinctHrefs(NavItems)
  {
    var n := NavItems;
    forall i, j | 0 <= i < |n| && 0 <= j < |n| && n[i].href == n[j].href
      ensures i == j
    {
      assert |n[i].href| == |n[j].href| && n[i].href[1] == n[j].href[1];
    }
  }

  predicate DistinctHrefs(items: seq<NavItem>)
  {
    forall i, j :: 0 <= i < |items| && 0 <= j < |items| && items[i].href == items[j].href ==> i == j
  }

  lemma {:induction false} DistinctHrefsInSubsequence(a: seq<NavItem>, b: seq<NavItem>)
    requires Seqs.IsSubsequence(a, b)
    requires DistinctHrefs(b)
    ensures DistinctHrefs(a)
    decreases |b|
  {
    if |b| > 0 {
      assert DistinctHrefs(b[1..]) by {
        forall i, j | 0 <= i < |b[1..]| && 0 <= j < |b[1..]| && b[1..][i].href == b[1..][j].href
          ensures i == j
        {
          assert b[i + 1].href == b[j + 1].href;
        }
      }
      if Seqs.IsSubsequence(a, b[1..]) {
        DistinctHrefsInSubsequence(a, b[1..]);
      } else {
        DistinctHrefsInSubsequence(a[1..], b[1..]);
        forall i, j | 0 <= i < |a| && 0 <= j < |a| && a[i].href == a[j].href
          ensures i == j
        {
          if i > 0 && j > 0 {
            assert a[1..][i - 1].href == a[1..][j - 1].href;
          } else if i != j {
            var k := if i == 0 then j else i;
            HrefFromTail(a[1..], b[1..], k - 1);
            assert false;
          }
        }
      }
    }
  }

  lemma {:induction false} HrefFromTail(a: seq<NavItem>, b: seq<NavItem>, k: nat)
    requires Seqs.IsSubsequence(a, b)
    requires k < |a|
    ensures exists m :: 0 <= m < |b| && b[m] == a[k]
    decreases |b|
  {
    if |b| > 0 {
      if Seqs.IsSubsequence(a, b[1..]) {
        HrefFromTail(a, b[1..], k);
        var m :| 0 <= m < |b[1..]| && b[1..][m] == a[k];
        assert b[m + 1] == a[k];
      } else if k == 0 {
        assert b[0] == a[0];
      } else {
        HrefFromTail(a[1..], b[1..], k - 1);
        var m :| 0 <= m < |b[1..]| && b[1..][m] == a[1..][k - 1];
        assert b[m + 1] == a[k];
      }
    }
  }

  /** The quick action above the menu: `user?.role === 'user'`. */
  predicate ShowsQuickAction(user: Option<User>)
  {
    user.Some? && user.value.role == Analyst
  }

  /** The new-analysis target is offered, as menu entry and as quick action,
      exactly to analysts. */
  lemma NovaAnaliseOnlyForAnalysts(user: Option<User>)
    ensures (exists it :: it in FilteredItems(user) && it.href == "/analise/nova") <==> ShowsQuickAction(user)
  {
    if ShowsQuickAction(user) {
      AnalystSeesNovaAnalise(user);
    }
    forall it | it in FilteredItems(user) && it.href == "/analise/nova"
      ensures ShowsQuickAction(user)
    {
      NovaAnaliseEntryIsForAnalysts(user, it);
    }
  }

  lemma AnalystSeesNovaAnalise(user: Option<User>)
    requires ShowsQuickAction(user)
    ensures NavItems[2] in FilteredItems(user) && NavItems[2].href == "/analise/nova"
  {
    assert VisibleTo(user)(NavItems[2]);
    Seqs.FilterKeeps(NavItems, VisibleTo(user), 2);
  }

  lemma NovaAnaliseEntryIsForAnalysts(user: Option<User>, it: NavItem)
    requires it in FilteredItems(user) && it.href == "/analise/nova"
    ensures ShowsQuickAction(user)
  {
    Seqs.FilterSource(NavItems, VisibleTo(user), it);
    var i :| 0 <= i < |NavItems| && NavItems[i] == it;
    NovaAnaliseHref(i);
    assert it.roles == [Analyst];
  }

  /** Only the third entry leads to the new analysis. */
  lemma NovaAnaliseHref(i: nat)
    requires i < |NavItems| && NavItems[i].href == "/analise/nova"
    ensures i == 2 && NavItems[i].roles == [Analyst]
  {
    TableHrefsDistinct();
  }

  /** `getRoleLabel`: the display name of a role string; any other string is
      shown as it is. */
  function GetRoleLabel(role: string): (shown: string)
    ensures ParseRole(role).None? ==> shown == role
  {
    match role
    case "master" => "Master"
    case "admin" => "Secretário"
    case "user" => "Analista"
    case _ => role
  }

  /** The sidebar and the login page name the roles alike. */
  lemma RoleLabelsAgree(r: Role)
    ensures GetRoleLabel(RoleKey(r)) == Login.DemoLabel(r)
    ensures GetRoleLabel(RoleKey(r)) != RoleKey(r)
  {
  }

  /** The footer's role line, `getRoleLabel(user?.role || '')`. */
  function FooterRoleLabel(user: Option<User>): (shown: string)
    ensures user.None? ==> shown == ""
    ensures user.Some? ==> shown == Login.DemoLabel(user.value.role)
  {
    GetRoleLabel(if user.Some? then RoleKey(user.value.role) else "")
  }

  /** The dashboards. */
  datatype DashboardView = MasterDashboard | AdminDashboard | AnalystDashboard

  /** `Dashboard`: nothing without a user, otherwise the role's dashboard
      (`'user'` and the default case give the analyst's). */
  function DashboardFor(user: Option<User>): (v: Option<DashboardView>)
    ensures v.None? <==> user.None?
    ensures v == Some(MasterDashboard) <==> user.Some? && user.value.role == Master
    ensures v == Some(AdminDashboard) <==> user.Some? && user.value.role == Admin
    ensures v == Some(AnalystDashboard) <==> user.Some? && user.value.role == Analyst
  {
    match user
    case None => None
    case Some(u) =>
      match u.role
      case Master => Some(MasterDashboard)
      case Admin => Some(AdminDashboard)
      case Analyst => Some(AnalystDashboard)
  }
}
