/** The link-creation form (`LinkForm.tsx`): the kind of link chosen, the candidates it
    offers, the four form fields with their submit check and reset, and the name lookups
    of the links table. */
module LinkForm {
  import opened Wrappers
  import opened Seqs
  import opened Types
  import Exporter

  /** The link-kind select: nothing chosen yet, guardian or staff. */
  datatype TipoSelecao = SemTipo | TipoResponsavel | TipoFuncionario

  /** A person the form can offer: a guardian or a staff member. */
  datatype Pessoa = DeResponsavel(r: Responsavel) | DeFuncionario(f: Funcionario)
  {
    function Id(): nat
    {
      match this
      case DeResponsavel(r) => r.id
      case DeFuncionario(f) => f.id
    }

    function Nome(): string
    {
      match this
      case DeResponsavel(r) => r.nome
      case DeFuncionario(f) => f.nome
    }
  }

  /** `pessoasDisponiveis`: every guardian for a guardian link, the staff members with a
      child at the school for a staff link, nobody before a kind is chosen. */
  function PessoasDisponiveis(tipo: TipoSelecao, d: AppData): seq<Pessoa>
  {
    match tipo
    case TipoResponsavel => Map((r: Responsavel) => DeResponsavel(r), d.responsaveis)
    case TipoFuncionario => Map((f: Funcionario) => DeFuncionario(f), Filter(d.funcionarios, (f: Funcionario) => f.temFilho))
    case SemTipo => []
  }

  /** The staff candidates are exactly the staff members with `temFilho`, in collection
      order and as often as they occur there; the guardian candidates are all guardians,
      in order. */
  lemma PessoasDisponiveisSpec(d: AppData)
    ensures var c := PessoasDisponiveis(TipoFuncionario, d);
      && (forall i :: 0 <= i < |c| ==> c[i].DeFuncionario? && c[i].f.temFilho && c[i].f in d.funcionarios)
      && (forall i :: 0 <= i < |d.funcionarios| && d.funcionarios[i].temFilho ==> DeFuncionario(d.funcionarios[i]) in c)
      && |StaffIn(c)| == |c| && IsSubsequence(StaffIn(c), d.funcionarios)
      && (forall f :: multiset(StaffIn(c))[f] == if f.temFilho then multiset(d.funcionarios)[f] else 0)
    ensures var c := PessoasDisponiveis(TipoResponsavel, d);
      |c| == |d.responsaveis| && forall i :: 0 <= i < |c| ==> c[i] == DeResponsavel(d.responsaveis[i])
    ensures PessoasDisponiveis(SemTipo, d) == []
  {
    StaffCandidates(d);
    StaffCandidatesCount(d);
  }

  /** Membership and order of the staff candidates. */
  lemma StaffCandidates(d: AppData)
    ensures var c := PessoasDisponiveis(TipoFuncionario, d);
      && (forall i :: 0 <= i < |c| ==> c[i].DeFuncionario? && c[i].f.temFilho && c[i].f in d.funcionarios)
      && (forall i :: 0 <= i < |d.funcionarios| && d.funcionarios[i].temFilho ==> DeFuncionario(d.funcionarios[i]) in c)
      && |StaffIn(c)| == |c| && IsSubsequence(StaffIn(c), d.funcionarios)
  {
    var kept := Filter(d.funcionarios, (f: Funcionario) => f.temFilho);
    var c := PessoasDisponiveis(TipoFuncionario, d);
    FilterIsSubsequence(d.funcionarios, (f: Funcionario) => f.temFilho);
    FilterMembers(d.funcionarios, (f: Funcionario) => f.temFilho);
    forall i | 0 <= i < |d.funcionarios| && d.funcionarios[i].temFilho
      ensures DeFuncionario(d.funcionarios[i]) in c
    {
      var j :| 0 <= j < |kept| && kept[j] == d.funcionarios[i];
      assert c[j] == DeFuncionario(kept[j]);
    }
    StaffInOfStaff(kept);
  }

  /** Multiplicity of the staff candidates. */
  lemma StaffCandidatesCount(d: AppData)
    ensures var c := PessoasDisponiveis(TipoFuncionario, d);
      forall f :: multiset(StaffIn(c))[f] == if f.temFilho then multiset(d.funcionarios)[f] else 0
  {
    var kept := Filter(d.funcionarios, (f: Funcionario) => f.temFilho);
    StaffInOfStaff(kept);
    FilterCount(d.funcionarios, (f: Funcionario) => f.temFilho);
  }

  /** The staff members among some candidates, in their order. */
  function StaffIn(c: seq<Pessoa>): seq<Funcionario>
  {
    if c == [] then []
    else if c[0].DeFuncionario? then [c[0].f] + StaffIn(c[1..])
    else StaffIn(c[1..])
  }

  lemma {:induction false} StaffInOfStaff(s: seq<Funcionario>)
    ensures StaffIn(Map((f: Funcionario) => DeFuncionario(f), s)) == s
  {
    if s != [] {
      var m := Map((f: Funcionario) => DeFuncionario(f), s);
      assert m[1..] == Map((f: Funcionario) => DeFuncionario(f), s[1..]);
      StaffInOfStaff(s[1..]);
    }
  }

  /** `getPessoaNome`: the name of the first guardian (for a guardian link) or staff member
      (otherwise) whose id is the reference read as a number; nothing when none matches. */
  function GetPessoaNome(tipo: TipoVinculo, pId: string, d: AppData): (r: Option<string>)
    ensures tipo == VinculoResponsavel ==>
      && (r.None? <==> forall i :: 0 <= i < |d.responsaveis| ==> !RefersTo(pId, d.responsaveis[i].id))
      && (r.Some? ==>
            exists i :: (0 <= i < |d.responsaveis| && RefersTo(pId, d.responsaveis[i].id)
              && r.value == d.responsaveis[i].nome
              && forall j :: 0 <= j < i ==> !RefersTo(pId, d.responsaveis[j].id)))
    ensures tipo == VinculoFuncionario ==>
      && (r.None? <==> forall i :: 0 <= i < |d.funcionarios| ==> !RefersTo(pId, d.funcionarios[i].id))
      && (r.Some? ==>
            exists i :: (0 <= i < |d.funcionarios| && RefersTo(pId, d.funcionarios[i].id)
              && r.value == d.funcionarios[i].nome
              && forall j :: 0 <= j < i ==> !RefersTo(pId, d.funcionarios[j].id)))
  {
    if tipo == VinculoResponsavel then
      match Find(d.responsaveis, (x: Responsavel) => RefersTo(pId, x.id))
      case Some(x) => Some(x.nome)
      case None => None
    else
      match Find(d.funcionarios, (x: Funcionario) => RefersTo(pId, x.id))
      case Some(x) => Some(x.nome)
      case None => None
  }

  /** `getAlunoNome`: the name of the first student whose id is the reference read as a
      number; nothing when none matches. */
  function GetAlunoNome(aId: string, d: AppData): (r: Option<string>)
    ensures r.None? <==> forall i :: 0 <= i < |d.alunos| ==> !RefersTo(aId, d.alunos[i].id)
    ensures r.Some? ==>
      exists i :: (0 <= i < |d.alunos| && RefersTo(aId, d.alunos[i].id)
        && r.value == d.alunos[i].nome && forall j :: 0 <= j < i ==> !RefersTo(aId, d.alunos[j].id))
  {
    match Exporter.FindAluno(d.alunos, aId)
    case Some(a) => Some(a.nome)
    case None => None
  }

  /** A link made by the form (whose person and student references are the decimal ids
      the selects hold) shows the names of the records it was made from, as long as ids
      are unique. */
  lemma NamesOfFormLink(tipo: TipoVinculo, p: Pessoa, a: Aluno, d: AppData)
    requires tipo == VinculoResponsavel ==> p.DeResponsavel? && p.r in d.responsaveis
    requires tipo == VinculoFuncionario ==> p.DeFuncionario? && p.f in d.funcionarios
    requires a in d.alunos
    requires forall i, j :: 0 <= i < j < |d.alunos| ==> d.alunos[i].id != d.alunos[j].id
    requires forall i, j :: 0 <= i < j < |d.responsaveis| ==> d.responsaveis[i].id != d.responsaveis[j].id
    requires forall i, j :: 0 <= i < j < |d.funcionarios| ==> d.funcionarios[i].id != d.funcionarios[j].id
    ensures GetPessoaNome(tipo, DecimalString(p.Id()), d) == Some(p.Nome())
    ensures GetAlunoNome(DecimalString(a.id), d) == Some(a.nome)
  {
    NumberOfDecimalString(a.id);
    var ra := DecimalString(a.id);
    ReferenceSelectsOne(d.alunos, (x: Aluno) => RefersTo(ra, x.id), a);
    NumberOfDecimalString(p.Id());
    var rp := DecimalString(p.Id());
    if tipo == VinculoResponsavel {
      ReferenceSelectsOne(d.responsaveis, (x: Responsavel) => RefersTo(rp, x.id), p.r);
    } else {
      ReferenceSelectsOne(d.funcionarios, (x: Funcionario) => RefersTo(rp, x.id), p.f);
    }
  }

  /** A search whose condition holds of one element and of no other finds that element. */
  lemma ReferenceSelectsOne<T>(s: seq<T>, p: T -> bool, x: T)
    requires x in s && p(x)
    requires forall i :: 0 <= i < |s| && p(s[i]) ==> s[i] == x
    ensures Find(s, p) == Some(x)
  {
  }

  /** The relationship select: each tag with the text shown for it. */
  const ParentescoOptions: seq<(string, string)> := [
    ("pai", "Pai"), ("mae", "Mãe"), ("avo_m", "Avó"), ("avo_h", "Avô"), ("tio", "Tio(a)"),
    ("irmao", "Irmão(ã)"), ("responsavel_legal", "Responsável Legal"), ("outro", "Outro")]

  /** The form offers exactly the eight tags the exporter labels, and shows each with the
      label the export will write for it. */
  lemma ParentescoOptionsMatchLabels()
    ensures (set i | 0 <= i < |ParentescoOptions| :: ParentescoOptions[i].0) == Exporter.ParentescoLabels.Keys
    ensures forall i :: 0 <= i < |ParentescoOptions| ==>
      Exporter.CapitalizeParentesco(ParentescoOptions[i].0) == ParentescoOptions[i].1
  {
    ParentescoOptionTags();
    ParentescoOptionLabels();
  }

  lemma ParentescoOptionTags()
    ensures (set i | 0 <= i < |ParentescoOptions| :: ParentescoOptions[i].0) == Exporter.ParentescoLabels.Keys
  {
    Exporter.CapitalizeParentescoTags("");
    var values := set i | 0 <= i < |ParentescoOptions| :: ParentescoOptions[i].0;
    assert ParentescoOptions[0].0 == "pai" && ParentescoOptions[1].0 == "mae";
    assert ParentescoOptions[2].0 == "avo_m" && ParentescoOptions[3].0 == "avo_h";
    assert ParentescoOptions[4].0 == "tio" && ParentescoOptions[5].0 == "irmao";
    assert ParentescoOptions[6].0 == "responsavel_legal" && ParentescoOptions[7].0 == "outro";
    assert values == {"pai", "mae", "avo_m", "avo_h", "tio", "irmao", "responsavel_legal", "outro"};
  }

  lemma ParentescoOptionLabels()
    ensures forall i :: 0 <= i < |ParentescoOptions| ==>
      Exporter.CapitalizeParentesco(ParentescoOptions[i].0) == ParentescoOptions[i].1
  {
    Exporter.CapitalizeParentescoTags("");
  }

  function TipoOf(t: TipoSelecao): TipoVinculo
    requires t != SemTipo
  {
    if t == TipoResponsavel then VinculoResponsavel else VinculoFuncionario
  }

  /** The state of the form: the chosen kind and the three other fields, all as the selects
      hold them. */
  class LinkFormState {
    var tipo: TipoSelecao
    var pessoaId: string
    var alunoId: string
    var parentesco: string

    constructor()
      ensures tipo == SemTipo && pessoaId == "" && alunoId == "" && parentesco == ""
    {
      tipo := SemTipo;
      pessoaId := "";
      alunoId := "";
      parentesco := "";
    }

    /** The kind select: choosing a kind clears the chosen person. */
    method SelectTipo(t: TipoSelecao)
      modifies this
      ensures tipo == t && pessoaId == ""
      ensures alunoId == old(alunoId) && parentesco == old(parentesco)
    {
      tipo := t;
      pessoaId := "";
    }

    method SelectPessoa(id: string)
      modifies this
      ensures pessoaId == id && tipo == old(tipo) && alunoId == old(alunoId) && parentesco == old(parentesco)
    {
      pessoaId := id;
    }

    method SelectAluno(id: string)
      modifies this
      ensures alunoId == id && tipo == old(tipo) && pessoaId == old(pessoaId) && parentesco == old(parentesco)
    {
      alunoId := id;
    }

    method SelectParentesco(p: string)
      modifies this
      ensures parentesco == p && tipo == old(tipo) && pessoaId == old(pessoaId) && alunoId == old(alunoId)
    {
      parentesco := p;
    }

    /** `handleSubmit`: with all four fields filled, hands the new link to the store and
        clears the person, student and relationship, keeping the kind; with any field
        empty, hands over nothing and changes nothing. */
    method HandleSubmit() returns (added: Option<NovoVinculo>)
      modifies this
      ensures added.Some? <==>
        old(tipo) != SemTipo && old(pessoaId) != "" && old(alunoId) != "" && old(parentesco) != ""
      ensures added.Some? ==>
        && added.value == NovoVinculo(TipoOf(old(tipo)), old(pessoaId), old(alunoId), old(parentesco))
        && tipo == old(tipo) && pessoaId == "" && alunoId == "" && parentesco == ""
      ensures added.None? ==>
        tipo == old(tipo) && pessoaId == old(pessoaId) && alunoId == old(alunoId) && parentesco == old(parentesco)
    {
      if tipo == SemTipo || pessoaId == "" || alunoId == "" || parentesco == "" {
        return None;
      }
      added := Some(NovoVinculo(TipoOf(tipo), pessoaId, alunoId, parentesco));
      pessoaId := "";
      alunoId := "";
      parentesco := "";
    }
  }
}
