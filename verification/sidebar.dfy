/**
 * The back-office sidebar: which navigation entry is highlighted for the
 * current path, and the signed-in user's avatar initial, name and role.
 */
module Sidebar {
  import opened Optional
  import Text

  datatype NavItem = NavItem(name: string, href: string)

  const Dashboard := "/manager"

  const Navigation := [
    NavItem("Dashboard", "/manager"),
    NavItem("Clientes", "/manager/clients"),
    NavItem("Funil de Vendas", "/manager/crm"),
    NavItem("Cat\U{E1}logo de Servi\U{E7}os", "/manager/services"),
    NavItem("Or\U{E7}amentos", "/manager/quotes"),
    NavItem("Agenda", "/manager/schedule"),
    NavItem("Ordens de Servi\U{E7}o", "/manager/service-orders"),
    NavItem("Financeiro", "/manager/financial"),
    NavItem("Contratos", "/manager/contracts"),
    NavItem("Estoque", "/manager/inventory"),
    NavItem("Equipamentos", "/manager/equipment")
  ]

  /**
   * An entry is highlighted on its own path and, except for the dashboard,
   * on every path that starts with its href; the prefix test does not
   * stop at a "/" boundary.
   */
  predicate IsActive(pathname: string, href: string) {
    pathname == href || (href != Dashboard && href <= pathname)
  }

  /** The dashboard entry is highlighted only on "/manager" itself. */
  lemma DashboardOnlyExact(pathname: string)
    ensures IsActive(pathname, Dashboard) <==> pathname == Dashboard
  {
  }

  /** Every other entry is highlighted exactly on the paths it is a prefix of. */
  lemma SectionByPrefix(pathname: string, href: string)
    requires href != Dashboard
    ensures IsActive(pathname, href) <==> href <= pathname
  {
  }

  /** Sub-pages keep their section highlighted. */
  lemma SubPageActive(href: string, rest: string)
    requires href != Dashboard
    ensures IsActive(href + rest, href)
  {
    assert (href + rest)[..|href|] == href;
  }

  /** With no segment boundary, a path that merely extends the href's last segment also highlights it. */
  lemma PrefixWithoutBoundary()
    ensures IsActive("/manager/clients-archive", "/manager/clients")
  {
    SubPageActive("/manager/clients", "-archive");
    assert "/manager/clients" + "-archive" == "/manager/clients-archive";
  }

  /** On the path of any entry, that entry and no other is highlighted. */
  lemma ExactlyOneActiveOnEachHref(i: nat, j: nat)
    requires i < |Navigation| && j < |Navigation|
    ensures IsActive(Navigation[i].href, Navigation[j].href) <==> i == j
  {
    var a, b := Navigation[i].href, Navigation[j].href;
    if i != j && IsActive(a, b) {
      assert b != Dashboard && b <= a;
      assert b == a[..|b|];
      Distinguishing(i, j);
      assert false;
    }
  }

  /** Two distinct entries' hrefs differ at a position inside the shorter one, the dashboard aside. */
  lemma Distinguishing(i: nat, j: nat)
    requires i < |Navigation| && j < |Navigation| && i != j && j != 0
    ensures var a, b := Navigation[i].href, Navigation[j].href;
      |a| < |b| || exists k :: 0 <= k < |b| && a[k] != b[k]
  {
    var a, b := Navigation[i].href, Navigation[j].href;
    if |b| <= |a| {
      if a[9] != b[9] {
      } else if a[10] != b[10] {
      } else {
        assert a[16] != b[16];
      }
    }
  }

  // ----------------------------------------------------------- profile

  /**
   * `full_name?.charAt(0)?.toUpperCase() || "U"`: the empty string from an
   * empty name falls back too. Strings here are sequences of Unicode
   * characters, so the first character is taken whole; a character beyond
   * U+FFFF, which `charAt` would split, is shown as it is.
   */
  function AvatarInitial(fullName: Option<string>): (r: string)
    ensures fullName.None? || fullName.value == "" ==> r == "U"
    ensures fullName.Some? && fullName.value != "" ==> r == Text.UpperOf(fullName.value[0])
    ensures fullName.Some? && fullName.value != "" && fullName.value[0] as int > 0xFFFF ==> r == fullName.value[..1]
    ensures |r| > 0
  {
    if fullName.None? || fullName.value == "" then "U" else Text.UpperOf(fullName.value[0])
  }

  /** The initial is "U" exactly when there is no name or the name starts with "u" or "U". */
  lemma InitialIsU(fullName: Option<string>)
    ensures AvatarInitial(fullName) == "U" <==>
      fullName.None? || fullName.value == "" || fullName.value[0] == 'u' || fullName.value[0] == 'U'
  {
    if fullName.Some? && fullName.value != "" {
      var c := fullName.value[0];
      if Text.IsLowerPaired(c) {
        assert Text.LowerChar('U') == 'u';
        if Text.UpperOf(c) == "U" {
          assert c == Text.LowerChar('U');
        }
      }
    }
  }

  /**
   * `value || fallback` on an optional string: a missing or empty value
   * gives way to the fallback.
   */
  function OrElse(value: Option<string>, fallback: string): (r: string)
    ensures value.Some? && value.value != "" ==> r == value.value
    ensures value.None? || value.value == "" ==> r == fallback
    ensures fallback != "" ==> r != ""
  {
    if value.Some? && value.value != "" then value.value else fallback
  }

  /** The name line under the avatar. */
  function DisplayName(fullName: Option<string>): string {
    OrElse(fullName, "Usu\U{E1}rio")
  }

  /** The role line under the name. */
  function DisplayRole(role: Option<string>): string {
    OrElse(role, "field_team")
  }

}
