/** The project lists: the search and status filter of the projects page
    (`Projetos`), its per-status counts and filter badges, the analyst's
    pending projects and greeting (`AnalystDashboard`), what a project card
    shows (`ProjectCard`) and the municipality totals of the operator's
    dashboard (`MasterDashboard`). */
module Projects {
  import opened Domain
  import Seqs

  // ---------------------------------------------------------------------
  // Strings

  /** `needle` occurs in `hay` starting at position `k`. */
  predicate OccursAt(hay: string, needle: string, k: nat)
  {
    k + |needle| <= |hay| && hay[k..k + |needle|] == needle
  }

  /** `String.prototype.includes`: case-sensitive substring test. The empty
      string occurs in every string. */
  predicate Contains(hay: string, needle: string)
    decreases |hay|
  {
    if |needle| == 0 then true
    else if |hay| < |needle| then false
    else hay[..|needle|] == needle || Contains(hay[1..], needle)
  }

  /** `Contains` holds exactly when the needle occurs at some position. */
  lemma {:induction false} ContainsIffOccurs(hay: string, needle: string)
    ensures Contains(hay, needle) <==> exists k: nat :: OccursAt(hay, needle, k)
    decreases |hay|
  {
    if |needle| == 0 {
      assert OccursAt(hay, needle, 0);
    } else if |hay| < |needle| {
      assert forall k: nat :: !OccursAt(hay, needle, k);
    } else {
      ContainsIffOccurs(hay[1..], needle);
      if hay[..|needle|] == needle {
        assert OccursAt(hay, needle, 0);
      } else {
        if Contains(hay[1..], needle) {
          var k: nat :| OccursAt(hay[1..], needle, k);
          assert hay[k + 1..k + 1 + |needle|] == hay[1..][k..k + |needle|];
          assert OccursAt(hay, needle, k + 1);
        }
        if exists k: nat :: OccursAt(hay, needle, k) {
          var k: nat :| OccursAt(hay, needle, k);
          assert k != 0;
          assert hay[1..][k - 1..k - 1 + |needle|] == hay[k..k + |needle|];
          assert OccursAt(hay[1..], needle, k - 1);
        }
      }
    }
  }

  /** `toLowerCase` on one character, for the ASCII letters only. */
  function LowerChar(c: char): (d: char)
    ensures 'A' <= c <= 'Z' ==> 'a' <= d <= 'z'
    ensures !('A' <= c <= 'Z') ==> d == c
  {
    if 'A' <= c <= 'Z' then (c as int + 32) as char else c
  }

  /** `toLowerCase`, restricted to ASCII letters. */
  function Lower(s: string): (t: string)
    ensures |t| == |s|
    ensures forall i :: 0 <= i < |s| ==> t[i] == LowerChar(s[i])
  {
    seq(|s|, i requires 0 <= i < |s| => LowerChar(s[i]))
  }

  /** Lowering leaves no capital behind, so lowering twice is lowering once. */
  lemma LowerIdempotent(s: string)
    ensures forall i :: 0 <= i < |Lower(s)| ==> !('A' <= Lower(s)[i] <= 'Z')
    ensures Lower(Lower(s)) == Lower(s)
  {
  }

  // ---------------------------------------------------------------------
  // The projects page

  /** The status buttons: `'all'` or one status. */
  datatype StatusFilter = All | Only(status: ProjetoStatus)

  /** `matchesSearch`: the protocol contains the query as it is, or the
      lowered address contains the lowered query. */
  predicate MatchesSearch(p: Projeto, search: string)
  {
    Contains(p.protocolo, search) || Contains(Lower(p.endereco), Lower(search))
  }

  /** `matchesStatus`. */
  predicate MatchesStatus(p: Projeto, f: StatusFilter)
  {
    f.All? || p.status == f.status
  }

  /** The predicate handed to `filter`. */
  function Matches(search: string, f: StatusFilter): Projeto -> bool
  {
    (p: Projeto) => MatchesSearch(p, search) && MatchesStatus(p, f)
  }

  /** `filteredProjetos`. */
  function FilteredProjetos(ps: seq<Projeto>, search: string, f: StatusFilter): (r: seq<Projeto>)
    ensures |r| <= |ps|
    ensures forall i :: 0 <= i < |r| ==> MatchesSearch(r[i], search) && MatchesStatus(r[i], f)
  {
    Seqs.Filter(ps, Matches(search, f))
  }

  /** The filtered list is the order-preserving subsequence of the projects
      that match both the query and the status, and nothing else: a list is
      the result exactly when it is such a subsequence of full length. */
  lemma FilteredProjetosExact(ps: seq<Projeto>, search: string, f: StatusFilter, r: seq<Projeto>)
    ensures Seqs.IsSubsequence(FilteredProjetos(ps, search, f), ps)
    ensures forall i :: 0 <= i < |ps| && MatchesSearch(ps[i], search) && MatchesStatus(ps[i], f) ==>
              ps[i] in FilteredProjetos(ps, search, f)
    ensures r == FilteredProjetos(ps, search, f) <==>
              Seqs.IsSubsequence(r, ps)
              && (forall i :: 0 <= i < |r| ==> MatchesSearch(r[i], search) && MatchesStatus(r[i], f))
              && |r| == Seqs.CountWhere(ps, Matches(search, f))
  {
    Seqs.FilterIsSubsequence(ps, Matches(search, f));
    Seqs.FilterMembership(ps, Matches(search, f));
    Seqs.FilterCharacterisation(ps, Matches(search, f), r);
  }

  /** The empty query matches every project. */
  lemma EmptySearchMatches(p: Projeto)
    ensures MatchesSearch(p, "")
  {
  }

  /** `p => p.status === s`. */
  function StatusIs(s: ProjetoStatus): Projeto -> bool
  {
    (p: Projeto) => p.status == s
  }

  /** With the empty query the status filter alone decides: `all` keeps the
      whole list and a status keeps the projects of that status. */
  lemma EmptySearch(ps: seq<Projeto>, f: StatusFilter)
    ensures f.All? ==> FilteredProjetos(ps, "", f) == ps
    ensures f.Only? ==> FilteredProjetos(ps, "", f) == Seqs.Filter(ps, StatusIs(f.status))
  {
    if f.All? {
      Seqs.FilterKeepsAll(ps, Matches("", f));
    } else {
      Seqs.FilterCongruence(ps, Matches("", f), StatusIs(f.status));
    }
  }

  // ---------------------------------------------------------------------
  // Counts and badges

  /** Count of a status in a tally: the `|| 0` of the badge. */
  function CountOf(m: map<ProjetoStatus, nat>, s: ProjetoStatus): nat
  {
    if s in m then m[s] else 0
  }

  /** `statusCounts`: the `reduce` over the list, bumping the entry of each
      project's status in turn. */
  function StatusCounts(ps: seq<Projeto>): (m: map<ProjetoStatus, nat>)
    ensures forall s :: s in m ==> 0 < m[s] <= |ps|
    decreases |ps|
  {
    if |ps| == 0 then map[]
    else
      var acc := StatusCounts(ps[..|ps| - 1]);
      var s := ps[|ps| - 1].status;
      acc[s := CountOf(acc, s) + 1]
  }

  /** Each entry of the tally is the number of projects with that status,
      and a status has an entry exactly when some project has it. */
  lemma {:induction false} StatusCountsCount(ps: seq<Projeto>, s: ProjetoStatus)
    ensures CountOf(StatusCounts(ps), s) == Seqs.CountWhere(ps, StatusIs(s))
    ensures s in StatusCounts(ps) <==> exists i :: 0 <= i < |ps| && ps[i].status == s
    decreases |ps|
  {
    if |ps| > 0 {
      var init := ps[..|ps| - 1];
      var x := ps[|ps| - 1];
      StatusCountsCount(init, s);
      assert init + [x] == ps;
      Seqs.CountWhereSnoc(init, x, StatusIs(s));
      PresenceSnoc(init, x, s);
      var acc := StatusCounts(init);
      CountOfUpdate(acc, x.status, CountOf(acc, x.status) + 1, s);
    }
  }

  /** Reading a tally right after bumping one entry. */
  lemma CountOfUpdate(m: map<ProjetoStatus, nat>, k: ProjetoStatus, v: nat, s: ProjetoStatus)
    ensures CountOf(m[k := v], s) == if s == k then v else CountOf(m, s)
    ensures s in m[k := v] <==> s == k || s in m
  {
  }

  /** Some element of `init + [x]` has status `s` iff `x` does or some element
      of `init` does. */
  lemma PresenceSnoc(init: seq<Projeto>, x: Projeto, s: ProjetoStatus)
    ensures (exists i :: 0 <= i < |init + [x]| && (init + [x])[i].status == s)
        <==> x.status == s || exists i :: 0 <= i < |init| && init[i].status == s
  {
    var ps := init + [x];
    if exists i :: 0 <= i < |init| && init[i].status == s {
      var i :| 0 <= i < |init| && init[i].status == s;
      assert ps[i] == init[i];
    }
    if x.status == s {
      assert ps[|init|] == x;
    }
    if exists i :: 0 <= i < |ps| && ps[i].status == s {
      var i :| 0 <= i < |ps| && ps[i].status == s;
      if i < |init| {
        assert init[i] == ps[i];
      }
    }
  }

  /** The five per-status counts add up to the length of the list. */
  lemma {:induction false} StatusCountsSum(ps: seq<Projeto>)
    ensures Seqs.CountWhere(ps, StatusIs(Pendente)) + Seqs.CountWhere(ps, StatusIs(EmAnalise))
          + Seqs.CountWhere(ps, StatusIs(Aprovado)) + Seqs.CountWhere(ps, StatusIs(Reprovado))
          + Seqs.CountWhere(ps, StatusIs(Pendencias)) == |ps|
    decreases |ps|
  {
    if |ps| > 0 {
      StatusCountsSum(ps[1..]);
    }
  }

  /** The badge of a status button: the list length for `all`, otherwise the
      tally entry or 0. */
  function BadgeCount(ps: seq<Projeto>, f: StatusFilter): (n: nat)
    ensures n <= |ps|
    ensures f.Only? ==> n == Seqs.CountWhere(ps, StatusIs(f.status))
  {
    match f
    case All => |ps|
    case Only(s) =>
      StatusCountsCount(ps, s);
      CountOf(StatusCounts(ps), s)
  }

  /** The buttons, in display order. */
  const StatusFilters: seq<StatusFilter> :=
    [All, Only(Pendente), Only(EmAnalise), Only(Aprovado), Only(Reprovado), Only(Pendencias)]

  /** With the empty query every badge shows how many cards its button
      leaves, and the `all` badge is the sum of the other five. */
  lemma BadgesAgree(ps: seq<Projeto>, f: StatusFilter)
    ensures |FilteredProjetos(ps, "", f)| == BadgeCount(ps, f)
    ensures BadgeCount(ps, All) == BadgeCount(ps, Only(Pendente)) + BadgeCount(ps, Only(EmAnalise))
              + BadgeCount(ps, Only(Aprovado)) + BadgeCount(ps, Only(Reprovado))
              + BadgeCount(ps, Only(Pendencias))
  {
    EmptySearch(ps, f);
    if f.Only? {
      StatusCountsCount(ps, f.status);
    }
    StatusCountsCount(ps, Pendente);
    StatusCountsCount(ps, EmAnalise);
    StatusCountsCount(ps, Aprovado);
    StatusCountsCount(ps, Reprovado);
    StatusCountsCount(ps, Pendencias);
    StatusCountsSum(ps);
  }

  // ---------------------------------------------------------------------
  // The mock tables

  /** The projects page's table. Project `k` was created `k - 1` days before
      the page loaded and every project was updated then; `daysAgo(n)` is the
      timestamp `n` days before that moment. */
  function MockProjetos(daysAgo: nat -> string): (ps: seq<Projeto>)
    ensures |ps| == 6
  {
    [
      Projeto("1", "emp-1", "2024-00145", Residencial, "Rua das Palmeiras, 234 - Centro", Pendente, None, daysAgo(0), daysAgo(0)),
      Projeto("2", "emp-1", "2024-00144", Comercial, "Av. Beira Mar Norte, 1200", EmAnalise, Some("3"), daysAgo(1), daysAgo(0)),
      Projeto("3", "emp-1", "2024-00143", Misto, "Rua Lauro Linhares, 500", Aprovado, Some("3"), daysAgo(2), daysAgo(0)),
      Projeto("4", "emp-1", "2024-00142", Industrial, "Rod. SC-401, km 5", Reprovado, Some("3"), daysAgo(3), daysAgo(0)),
      Projeto("5", "emp-1", "2024-00141", Residencial, "Rua Bocaiúva, 89", Pendencias, Some("3"), daysAgo(4), daysAgo(0)),
      Projeto("6", "emp-1", "2024-00140", Comercial, "Av. Rio Branco, 456", Aprovado, Some("3"), daysAgo(5), daysAgo(0))
    ]
  }

  /** On the page's table the empty query with `all` shows all six projects,
      and the badges read 6 for all, then 1, 1, 2, 1, 1 for pending, under
      analysis, approved, rejected and with issues. */
  lemma MockPage(daysAgo: nat -> string)
    ensures FilteredProjetos(MockProjetos(daysAgo), "", All) == MockProjetos(daysAgo)
    ensures BadgeCount(MockProjetos(daysAgo), All) == 6
    ensures BadgeCount(MockProjetos(daysAgo), Only(Pendente)) == 1
    ensures BadgeCount(MockProjetos(daysAgo), Only(EmAnalise)) == 1
    ensures BadgeCount(MockProjetos(daysAgo), Only(Aprovado)) == 2
    ensures BadgeCount(MockProjetos(daysAgo), Only(Reprovado)) == 1
    ensures BadgeCount(MockProjetos(daysAgo), Only(Pendencias)) == 1
  {
    EmptySearch(MockProjetos(daysAgo), All);
    MockBadge(daysAgo, Pendente);
    MockBadge(daysAgo, EmAnalise);
    MockBadge(daysAgo, Aprovado);
    MockBadge(daysAgo, Reprovado);
    MockBadge(daysAgo, Pendencias);
  }

  /** The badge of one status on the page's table. */
  lemma MockBadge(daysAgo: nat -> string, s: ProjetoStatus)
    ensures BadgeCount(MockProjetos(daysAgo), Only(s)) == if s == Aprovado then 2 else 1
  {
    var ps := MockProjetos(daysAgo);
    StatusCountsCount(ps, s);
    Seqs.Count6(ps, StatusIs(s));
    MockStatuses(daysAgo);
  }

  /** The statuses of the page's table, in order. */
  lemma MockStatuses(daysAgo: nat -> string)
    ensures var ps := MockProjetos(daysAgo);
      && ps[0].status == Pendente && ps[1].status == EmAnalise && ps[2].status == Aprovado
      && ps[3].status == Reprovado && ps[4].status == Pendencias && ps[5].status == Aprovado
  {
  }

  // ---------------------------------------------------------------------
  // The analyst's dashboard

  /** `p.status === 'pendente' || p.status === 'em_analise'`. */
  function IsPendingWork(): Projeto -> bool
  {
    (p: Projeto) => p.status == Pendente || p.status == EmAnalise
  }

  /** `pendingProjects`: the projects still waiting for or under analysis. */
  function PendingProjects(ps: seq<Projeto>): (r: seq<Projeto>)
    ensures |r| <= |ps|
    ensures forall i :: 0 <= i < |r| ==> r[i].status == Pendente || r[i].status == EmAnalise
  {
    Seqs.Filter(ps, IsPendingWork())
  }

  /** The pending list only removes projects, keeps their order, and keeps
      every pending one. */
  lemma PendingProjectsExact(ps: seq<Projeto>)
    ensures Seqs.IsSubsequence(PendingProjects(ps), ps)
    ensures forall i :: 0 <= i < |ps| && (ps[i].status == Pendente || ps[i].status == EmAnalise) ==>
              ps[i] in PendingProjects(ps)
    ensures forall i :: 0 <= i < |PendingProjects(ps)| ==> PendingProjects(ps)[i] in ps
  {
    Seqs.FilterIsSubsequence(ps, IsPendingWork());
    Seqs.FilterMembership(ps, IsPendingWork());
  }

  /** The dashboard's table is the first three projects of the page's. */
  function AnalystMockProjetos(daysAgo: nat -> string): (ps: seq<Projeto>)
    ensures ps == MockProjetos(daysAgo)[..3]
  {
    [
      Projeto("1", "emp-1", "2024-00145", Residencial, "Rua das Palmeiras, 234 - Centro", Pendente, None, daysAgo(0), daysAgo(0)),
      Projeto("2", "emp-1", "2024-00144", Comercial, "Av. Beira Mar Norte, 1200", EmAnalise, Some("3"), daysAgo(1), daysAgo(0)),
      Projeto("3", "emp-1", "2024-00143", Misto, "Rua Lauro Linhares, 500", Aprovado, Some("3"), daysAgo(2), daysAgo(0))
    ]
  }

  /** On the dashboard's table the pending projects are those with ids 1
      and 2. */
  lemma MockPendingProjects(daysAgo: nat -> string)
    ensures |PendingProjects(AnalystMockProjetos(daysAgo))| == 2
    ensures PendingProjects(AnalystMockProjetos(daysAgo))[0].id == "1"
    ensures PendingProjects(AnalystMockProjetos(daysAgo))[1].id == "2"
  {
    var ps := AnalystMockProjetos(daysAgo);
    var p := IsPendingWork();
    assert Seqs.Filter(ps[2..], p) == [] by { assert ps[2..][1..] == []; }
    assert Seqs.Filter(ps[1..], p) == [ps[1]] by { assert ps[1..][1..] == ps[2..]; }
  }

  /** `name.split(' ')[0]`: the name up to its first space. */
  function FirstName(name: string): (first: string)
    ensures |first| <= |name| && first == name[..|first|]
    ensures ' ' !in first
    ensures |first| < |name| ==> name[|first|] == ' '
    decreases |name|
  {
    if |name| == 0 || name[0] == ' ' then ""
    else [name[0]] + FirstName(name[1..])
  }

  /** The analyst demo user is greeted as Maria. */
  lemma FirstNameOfAnalyst()
    ensures FirstName("Maria Santos") == "Maria"
  {
    var n := "Maria Santos";
    assert n[5] == ' ';
    assert FirstName(n) == n[..5];
  }

  /** The greeting's name, `user?.name?.split(' ')[0]`: nothing without a
      user. */
  function GreetingName(user: Option<User>): (shown: Option<string>)
    ensures shown.None? <==> user.None?
    ensures shown.Some? ==> shown.value <= user.value.name && ' ' !in shown.value
    ensures shown.Some? ==> shown.value == FirstName(user.value.name)
  {
    match user
    case None => None
    case Some(u) => Some(FirstName(u.name))
  }

  // ---------------------------------------------------------------------
  // Project cards

  /** 'Iniciar Análise': a pending project on a card given an analyse
      handler. */
  predicate ShowsIniciar(p: Projeto, hasOnAnalyze: bool)
  {
    p.status == Pendente && hasOnAnalyze
  }

  /** 'Continuar Análise': a project under analysis. */
  predicate ShowsContinuar(p: Projeto)
  {
    p.status == EmAnalise
  }

  /** A card shows at most one action, and a decided or blocked project
      shows none. */
  lemma CardActions(p: Projeto, hasOnAnalyze: bool)
    ensures !(ShowsIniciar(p, hasOnAnalyze) && ShowsContinuar(p))
    ensures p.status in {Aprovado, Reprovado, Pendencias} ==> !ShowsIniciar(p, hasOnAnalyze) && !ShowsContinuar(p)
    ensures ShowsIniciar(p, hasOnAnalyze) || ShowsContinuar(p) ==> IsPendingWork()(p)
  {
  }

  /** Both lists offer the analyse handler, so on either page every pending
      card carries exactly one action. */
  lemma PendingCardsHaveOneAction(ps: seq<Projeto>)
    ensures forall i :: 0 <= i < |PendingProjects(ps)| ==>
              ShowsIniciar(PendingProjects(ps)[i], true) != ShowsContinuar(PendingProjects(ps)[i])
  {
  }

  /** The 'Analista atribuído' line: `analista_id` is present and truthy,
      that is, not the empty string. */
  predicate ShowsAnalystLine(p: Projeto)
  {
    p.analistaId.Some? && p.analistaId.value != ""
  }

  /** On the page's table the assignment line is missing only on the pending
      project, the one no analyst has taken yet. */
  lemma MockAnalystLines(daysAgo: nat -> string)
    ensures forall i :: 0 <= i < |MockProjetos(daysAgo)| ==>
              (ShowsAnalystLine(MockProjetos(daysAgo)[i]) <==> MockProjetos(daysAgo)[i].status != Pendente)
  {
    MockStatuses(daysAgo);
  }

  /** The badge text of a status. */
  function StatusLabel(s: ProjetoStatus): string
  {
    match s
    case Pendente => "Pendente"
    case EmAnalise => "Em Análise"
    case Aprovado => "Aprovado"
    case Reprovado => "Reprovado"
    case Pendencias => "Pendências"
  }

  /** The heading of a type. */
  function TipoLabel(t: ProjetoTipo): string
  {
    match t
    case Residencial => "Residencial"
    case Comercial => "Comercial"
    case Industrial => "Industrial"
    case Misto => "Misto"
  }

  /** The label maps cover every status and type and tell them apart. */
  lemma LabelsDistinct()
    ensures forall a: ProjetoStatus, b: ProjetoStatus :: StatusLabel(a) == StatusLabel(b) ==> a == b
    ensures forall a: ProjetoTipo, b: ProjetoTipo :: TipoLabel(a) == TipoLabel(b) ==> a == b
    ensures forall s: ProjetoStatus :: |StatusLabel(s)| > 0
  {
  }

  // ---------------------------------------------------------------------
  // The operator's dashboard

  /** A municipality of the operator's table; `status` is one of the keys of
      the badge map on the mock data. */
  datatype Prefeitura = Prefeitura(id: string, nome: string, estado: string, analistas: nat, projetos: nat, status: string)

  const MockPrefeituras: seq<Prefeitura> := [
    Prefeitura("1", "Florianópolis", "SC", 4, 156, "ativo"),
    Prefeitura("2", "Joinville", "SC", 3, 98, "ativo"),
    Prefeitura("3", "Blumenau", "SC", 2, 67, "ativo"),
    Prefeitura("4", "Curitiba", "PR", 5, 203, "pendente"),
    Prefeitura("5", "Porto Alegre", "RS", 0, 0, "inativo")
  ]

  /** `reduce((acc, p) => acc + f(p), 0)`, folding from the left. */
  function Sum(ps: seq<Prefeitura>, f: Prefeitura -> nat): (total: nat)
    ensures forall i :: 0 <= i < |ps| ==> f(ps[i]) <= total
    ensures total == 0 <==> forall i :: 0 <= i < |ps| ==> f(ps[i]) == 0
    decreases |ps|
  {
    if |ps| == 0 then 0
    else
      var init := ps[..|ps| - 1];
      var rest := Sum(init, f);
      assert forall i :: 0 <= i < |init| ==> ps[i] == init[i];
      rest + f(ps[|ps| - 1])
  }

  /** The fold is additive over concatenation and bounds each term. */
  lemma {:induction false} SumConcat(a: seq<Prefeitura>, b: seq<Prefeitura>, f: Prefeitura -> nat)
    ensures Sum(a + b, f) == Sum(a, f) + Sum(b, f)
    decreases |b|
  {
    if |b| > 0 {
      assert (a + b)[..|a + b| - 1] == a + b[..|b| - 1];
      assert (a + b)[|a + b| - 1] == b[|b| - 1];
      SumConcat(a, b[..|b| - 1], f);
    } else {
      assert a + b == a;
    }
  }

  function Projetos(): Prefeitura -> nat
  {
    (p: Prefeitura) => p.projetos
  }

  function Analistas(): Prefeitura -> nat
  {
    (p: Prefeitura) => p.analistas
  }

  function IsAtivo(): Prefeitura -> bool
  {
    (p: Prefeitura) => p.status == "ativo"
  }

  /** `prefeituraAtivas`. */
  function PrefeiturasAtivas(ps: seq<Prefeitura>): (n: nat)
    ensures n <= |ps|
    ensures n == |ps| <==> forall i :: 0 <= i < |ps| ==> ps[i].status == "ativo"
    ensures n == Seqs.CountWhere(ps, IsAtivo())
  {
    |Seqs.Filter(ps, IsAtivo())|
  }

  /** `statusConfig[status]`: the badge text, when the status is a key. */
  function PrefeituraStatusLabel(status: string): (shown: Option<string>)
    ensures shown.Some? <==> status in {"ativo", "pendente", "inativo"}
  {
    if status == "ativo" then Some("Ativo")
    else if status == "pendente" then Some("Pendente")
    else if status == "inativo" then Some("Inativo")
    else None
  }

  /** On the mock table: 524 projects, 14 analysts, 3 of the 5 municipalities
      active, and every status has a badge. */
  lemma MockTotals()
    ensures Sum(MockPrefeituras, Projetos()) == 524
    ensures Sum(MockPrefeituras, Analistas()) == 14
    ensures PrefeiturasAtivas(MockPrefeituras) == 3 && |MockPrefeituras| == 5
    ensures forall i :: 0 <= i < |MockPrefeituras| ==> PrefeituraStatusLabel(MockPrefeituras[i].status).Some?
  {
    Sum5(MockPrefeituras, Projetos());
    Sum5(MockPrefeituras, Analistas());
    Seqs.Count5(MockPrefeituras, IsAtivo());
    MockPrefeiturasShape();
  }

  /** The figures of the mock table, row by row. */
  lemma MockPrefeiturasShape()
    ensures var ps := MockPrefeituras;
      && |ps| == 5
      && ps[0].projetos == 156 && ps[1].projetos == 98 && ps[2].projetos == 67
      && ps[3].projetos == 203 && ps[4].projetos == 0
      && ps[0].analistas == 4 && ps[1].analistas == 3 && ps[2].analistas == 2
      && ps[3].analistas == 5 && ps[4].analistas == 0
      && ps[0].status == "ativo" && ps[1].status == "ativo" && ps[2].status == "ativo"
      && ps[3].status == "pendente" && ps[4].status == "inativo"
  {
  }

  /** The fold over a table of five, term by term. */
  lemma Sum5(ps: seq<Prefeitura>, f: Prefeitura -> nat)
    requires |ps| == 5
    ensures Sum(ps, f) == f(ps[0]) + f(ps[1]) + f(ps[2]) + f(ps[3]) + f(ps[4])
  {
    SumStep(ps, f, 1);
    assert ps[..0] == [];
    SumStep(ps, f, 2);
    SumStep(ps, f, 3);
    SumStep(ps, f, 4);
    SumStep(ps, f, 5);
    assert ps[..5] == ps;
  }

  /** One step of the fold at prefix length `k`. */
  lemma SumStep(ps: seq<Prefeitura>, f: Prefeitura -> nat, k: nat)
    requires 0 < k <= |ps|
    ensures Sum(ps[..k], f) == Sum(ps[..k - 1], f) + f(ps[k - 1])
  {
    assert ps[..k][..k - 1] == ps[..k - 1];
  }
}
