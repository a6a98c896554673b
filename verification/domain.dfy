/** The records of the platform: users and their roles, projects, tasks.
    Timestamps are opaque strings; a task deadline is the local calendar date
    it falls on. */
module Domain {

  datatype Option<+T> = None | Some(value: T)

  datatype Result<+T, +E> = Ok(value: T) | Err(error: E)

  /** The three roles. `Analyst` is the role the code spells 'user'. */
  datatype Role = Master | Admin | Analyst

  /** The string that stands for a role in the code. */
  function RoleKey(r: Role): string
  {
    match r
    case Master => "master"
    case Admin => "admin"
    case Analyst => "user"
  }

  /** Reads a role back from its string; any other string is no role. */
  function ParseRole(k: string): (r: Option<Role>)
    ensures r.Some? ==> RoleKey(r.value) == k
  {
    if k == "master" then Some(Master)
    else if k == "admin" then Some(Admin)
    else if k == "user" then Some(Analyst)
    else None
  }

  /** Role strings are a faithful encoding: distinct roles have distinct keys
      and every key reads back as the role it came from. */
  lemma RoleKeyRoundTrip(r: Role)
    ensures ParseRole(RoleKey(r)) == Some(r)
    ensures forall q: Role :: RoleKey(q) == RoleKey(r) ==> q == r
  {
  }

  datatype User = User(
    id: string,
    email: string,
    name: string,
    role: Role,
    empresaId: Option<string>,
    avatarUrl: Option<string>,
    createdAt: string)

  datatype ProjetoTipo = Residencial | Comercial | Industrial | Misto

  datatype ProjetoStatus = Pendente | EmAnalise | Aprovado | Reprovado | Pendencias

  datatype Projeto = Projeto(
    id: string,
    empresaId: string,
    protocolo: string,
    tipo: ProjetoTipo,
    endereco: string,
    status: ProjetoStatus,
    analistaId: Option<string>,
    createdAt: string,
    updatedAt: string)

  datatype TarefaStatus = TarefaPendente | EmAndamento | Concluida

  datatype Prioridade = Baixa | Media | Alta

  /** A local calendar date; `month` counts from 0 as `Date.getMonth` does. */
  datatype CalDate = CalDate(year: int, month: int, day: int)

  datatype Tarefa = Tarefa(
    id: string,
    userId: string,
    titulo: string,
    descricao: Option<string>,
    projetoId: Option<string>,
    dataLimite: CalDate,
    status: TarefaStatus,
    prioridade: Prioridade,
    createdAt: string)
}
