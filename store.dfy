/** The session state of the data-entry screen (`App.tsx`): the four collections, the school
    code and the handlers that change them. Each handler replaces a collection by a filtered
    or extended copy; the cascades of the remove handlers compare link references with
    `String(id)`. */
module Store {
  import opened Wrappers
  import opened Seqs
  import opened Types
  import Csv
  import Exporter

  // ---------------------------------------------------------------------------
  // `String.prototype.trim`

  /** The characters `trim` removes: the white space and line terminators of ECMAScript
      (tab, vertical tab, form feed, space, no-break space, byte order mark, the other space
      separators, line feed, carriage return, line and paragraph separators). */
  predicate IsJsSpace(c: char)
  {
    c == '\t' || c == '\U{b}' || c == '\U{c}' || c == ' ' || c == '\U{a0}' || c == '\U{feff}'
    || c == '\U{1680}' || ('\U{2000}' <= c <= '\U{200a}') || c == '\U{202f}' || c == '\U{205f}'
    || c == '\U{3000}' || c == '\n' || c == '\r' || c == '\U{2028}' || c == '\U{2029}'
  }

  predicate AllSpace(s: string)
  {
    forall k :: 0 <= k < |s| ==> IsJsSpace(s[k])
  }

  /** Where the white space that starts at `k` ends: the first index at or after `k` that
      holds no white space, or the length of `s`. */
  function SpaceRunEnd(s: string, k: nat): (r: nat)
    requires k <= |s|
    ensures k <= r <= |s| && (r < |s| ==> !IsJsSpace(s[r]))
    ensures forall j :: k <= j < r ==> IsJsSpace(s[j])
    decreases |s| - k
  {
    if k < |s| && IsJsSpace(s[k]) then SpaceRunEnd(s, k + 1) else k
  }

  /** Where the white space that ends at `k` starts: the index just after the last
      character before `k` that is not white space, or zero. */
  function SpaceRunStart(s: string, k: nat): (r: nat)
    requires k <= |s|
    ensures r <= k && (r > 0 ==> !IsJsSpace(s[r - 1]))
    ensures forall j :: r <= j < k ==> IsJsSpace(s[j])
  {
    if k > 0 && IsJsSpace(s[k - 1]) then SpaceRunStart(s, k - 1) else k
  }

  /** Drops the leading white space: what remains is a suffix that does not start with
      white space, and everything dropped was white space. */
  function TrimStart(s: string): (r: string)
    ensures |r| <= |s| && r == s[|s| - |r|..]
    ensures AllSpace(s[..|s| - |r|])
    ensures r != [] ==> !IsJsSpace(r[0])
  {
    s[SpaceRunEnd(s, 0)..]
  }

  /** Drops the trailing white space: what remains is a prefix that does not end with
      white space, and everything dropped was white space. */
  function TrimEnd(s: string): (r: string)
    ensures |r| <= |s| && r == s[..|r|]
    ensures AllSpace(s[|r|..])
    ensures r != [] ==> !IsJsSpace(r[|r| - 1])
  {
    s[..SpaceRunStart(s, |s|)]
  }

  function Trim(s: string): string
  {
    TrimEnd(TrimStart(s))
  }

  /** `trim` keeps a middle stretch of the text that neither starts nor ends with white
      space, and removes only white space around it. */
  lemma TrimShape(s: string)
    ensures var i := |s| - |TrimStart(s)|; var r := Trim(s);
      && i + |r| <= |s| && r == s[i..i + |r|]
      && AllSpace(s[..i]) && AllSpace(s[i + |r|..])
  {
    var t := TrimStart(s);
    var r := TrimEnd(t);
    SliceOfSuffix(s, |s| - |t|, t, r);
  }

  /** A prefix `r` of the suffix `t` of `s` that starts at `i` is the slice of `s` from `i`,
      and when the rest of `t` is white space, so is the rest of `s`. */
  lemma SliceOfSuffix(s: string, i: nat, t: string, r: string)
    requires i <= |s| && t == s[i..] && |r| <= |t| && r == t[..|r|] && AllSpace(t[|r|..])
    ensures i + |r| <= |s| && r == s[i..i + |r|] && AllSpace(s[i + |r|..])
  {
    assert s[i + |r|..] == t[|r|..];
  }

  lemma TrimEnds(s: string)
    ensures var r := Trim(s); r != [] ==> !IsJsSpace(r[0]) && !IsJsSpace(r[|r| - 1])
  {
    var t := TrimStart(s);
    var r := TrimEnd(t);
    assert r != [] ==> r[0] == t[0];
  }

  /** The trimmed text is empty exactly when the text is all white space. */
  lemma TrimEmpty(s: string)
    ensures Trim(s) == [] <==> AllSpace(s)
  {
    var t := TrimStart(s);
    if Trim(s) == [] {
      assert t == [];
      assert s[..|s|] == s;
    }
  }

  lemma {:induction false} TrimEndOfUnspaced(t: string)
    requires t == [] || !IsJsSpace(t[|t| - 1])
    ensures TrimEnd(t) == t
  {
  }

  lemma {:induction false} TrimStartOfUnspaced(t: string)
    requires t == [] || !IsJsSpace(t[0])
    ensures TrimStart(t) == t
  {
  }

  /** Trimming twice is trimming once. */
  lemma TrimIdempotent(s: string)
    ensures Trim(Trim(s)) == Trim(s)
  {
    var r := Trim(s);
    TrimEnds(s);
    TrimStartOfUnspaced(r);
    TrimEndOfUnspaced(r);
  }

  // ---------------------------------------------------------------------------
  // The collections after each remove handler

  /** `removeAluno`: drops the students with this id and every link whose `alunoId` is
      `String(id)`. */
  function RemoveAlunoFrom(d: AppData, id: nat): AppData
  {
    d.(alunos := Filter(d.alunos, (a: Aluno) => a.id != id),
       vinculos := Filter(d.vinculos, (v: Vinculo) => v.alunoId != DecimalString(id)))
  }

  /** `removeResponsavel`: drops the guardians with this id and the guardian links whose
      `pessoaId` is `String(id)`. */
  function RemoveResponsavelFrom(d: AppData, id: nat): AppData
  {
    d.(responsaveis := Filter(d.responsaveis, (r: Responsavel) => r.id != id),
       vinculos := Filter(d.vinculos, (v: Vinculo) => !(v.tipo == VinculoResponsavel && v.pessoaId == DecimalString(id))))
  }

  /** `removeFuncionario`: drops the staff members with this id and the staff links whose
      `pessoaId` is `String(id)`. */
  function RemoveFuncionarioFrom(d: AppData, id: nat): AppData
  {
    d.(funcionarios := Filter(d.funcionarios, (f: Funcionario) => f.id != id),
       vinculos := Filter(d.vinculos, (v: Vinculo) => !(v.tipo == VinculoFuncionario && v.pessoaId == DecimalString(id))))
  }

  /** `removeVinculo`: drops the links with this id. */
  function RemoveVinculoFrom(d: AppData, id: nat): AppData
  {
    d.(vinculos := Filter(d.vinculos, (v: Vinculo) => v.id != id))
  }

  /** Removing a student keeps guardians and staff, keeps every other student and every
      link to another student in their order, and leaves no student with that id and no
      link whose `alunoId` is `String(id)`. */
  lemma RemoveAlunoCascade(d: AppData, id: nat)
    ensures var r := RemoveAlunoFrom(d, id);
      && r.responsaveis == d.responsaveis && r.funcionarios == d.funcionarios
      && IsSubsequence(r.alunos, d.alunos) && IsSubsequence(r.vinculos, d.vinculos)
      && (forall i :: 0 <= i < |r.alunos| ==> r.alunos[i].id != id)
      && (forall i :: 0 <= i < |d.alunos| && d.alunos[i].id != id ==> d.alunos[i] in r.alunos)
      && (forall i :: 0 <= i < |r.vinculos| ==> r.vinculos[i].alunoId != DecimalString(id))
      && (forall i :: 0 <= i < |d.vinculos| && d.vinculos[i].alunoId != DecimalString(id) ==> d.vinculos[i] in r.vinculos)
      && (forall a :: multiset(r.alunos)[a] == if a.id != id then multiset(d.alunos)[a] else 0)
      && (forall v :: multiset(r.vinculos)[v] == if v.alunoId != DecimalString(id) then multiset(d.vinculos)[v] else 0)
  {
    RemoveAlunoStudents(d, id);
    RemoveAlunoLinks(d, id);
  }

  /** The students half of a student removal. */
  lemma RemoveAlunoStudents(d: AppData, id: nat)
    ensures var r := RemoveAlunoFrom(d, id);
      && IsSubsequence(r.alunos, d.alunos)
      && (forall i :: 0 <= i < |r.alunos| ==> r.alunos[i].id != id)
      && (forall i :: 0 <= i < |d.alunos| && d.alunos[i].id != id ==> d.alunos[i] in r.alunos)
      && (forall a :: multiset(r.alunos)[a] == if a.id != id then multiset(d.alunos)[a] else 0)
  {
    FilterCount(d.alunos, (a: Aluno) => a.id != id);
    FilterIsSubsequence(d.alunos, (a: Aluno) => a.id != id);
    FilterMembers(d.alunos, (a: Aluno) => a.id != id);
  }

  /** The links half of a student removal. */
  lemma RemoveAlunoLinks(d: AppData, id: nat)
    ensures var r := RemoveAlunoFrom(d, id);
      && IsSubsequence(r.vinculos, d.vinculos)
      && (forall i :: 0 <= i < |r.vinculos| ==> r.vinculos[i].alunoId != DecimalString(id))
      && (forall i :: 0 <= i < |d.vinculos| && d.vinculos[i].alunoId != DecimalString(id) ==> d.vinculos[i] in r.vinculos)
      && (forall v :: multiset(r.vinculos)[v] == if v.alunoId != DecimalString(id) then multiset(d.vinculos)[v] else 0)
  {
    FilterCount(d.vinculos, (v: Vinculo) => v.alunoId != DecimalString(id));
    FilterIsSubsequence(d.vinculos, (v: Vinculo) => v.alunoId != DecimalString(id));
    FilterMembers(d.vinculos, (v: Vinculo) => v.alunoId != DecimalString(id));
  }

  /** Removing a guardian keeps students and staff, drops only guardian links that name it,
      and keeps every staff link, even one whose `pessoaId` is the same text. */
  lemma RemoveResponsavelCascade(d: AppData, id: nat)
    ensures var r := RemoveResponsavelFrom(d, id);
      && r.alunos == d.alunos && r.funcionarios == d.funcionarios
      && IsSubsequence(r.responsaveis, d.responsaveis) && IsSubsequence(r.vinculos, d.vinculos)
      && (forall i :: 0 <= i < |r.responsaveis| ==> r.responsaveis[i].id != id)
      && (forall i :: 0 <= i < |d.responsaveis| && d.responsaveis[i].id != id ==> d.responsaveis[i] in r.responsaveis)
      && (forall i :: 0 <= i < |r.vinculos| ==>
            !(r.vinculos[i].tipo == VinculoResponsavel && r.vinculos[i].pessoaId == DecimalString(id)))
      && (forall i :: 0 <= i < |d.vinculos| && d.vinculos[i].tipo == VinculoFuncionario ==> d.vinculos[i] in r.vinculos)
      && (forall i :: 0 <= i < |d.vinculos| && d.vinculos[i].pessoaId != DecimalString(id) ==> d.vinculos[i] in r.vinculos)
      && (forall x :: multiset(r.responsaveis)[x] == if x.id != id then multiset(d.responsaveis)[x] else 0)
      && (forall v :: multiset(r.vinculos)[v] ==
            if v.tipo == VinculoResponsavel && v.pessoaId == DecimalString(id) then 0 else multiset(d.vinculos)[v])
  {
    RemoveResponsavelPeople(d, id);
    RemoveResponsavelLinks(d, id);
  }

  /** The guardians half of a guardian removal. */
  lemma RemoveResponsavelPeople(d: AppData, id: nat)
    ensures var r := RemoveResponsavelFrom(d, id);
      && IsSubsequence(r.responsaveis, d.responsaveis)
      && (forall i :: 0 <= i < |r.responsaveis| ==> r.responsaveis[i].id != id)
      && (forall i :: 0 <= i < |d.responsaveis| && d.responsaveis[i].id != id ==> d.responsaveis[i] in r.responsaveis)
      && (forall x :: multiset(r.responsaveis)[x] == if x.id != id then multiset(d.responsaveis)[x] else 0)
  {
    FilterCount(d.responsaveis, (x: Responsavel) => x.id != id);
    FilterIsSubsequence(d.responsaveis, (x: Responsavel) => x.id != id);
    FilterMembers(d.responsaveis, (x: Responsavel) => x.id != id);
  }

  /** The links half of a guardian removal. */
  lemma RemoveResponsavelLinks(d: AppData, id: nat)
    ensures var r := RemoveResponsavelFrom(d, id);
      && IsSubsequence(r.vinculos, d.vinculos)
      && (forall i :: 0 <= i < |r.vinculos| ==>
            !(r.vinculos[i].tipo == VinculoResponsavel && r.vinculos[i].pessoaId == DecimalString(id)))
      && (forall i :: 0 <= i < |d.vinculos| && d.vinculos[i].tipo == VinculoFuncionario ==> d.vinculos[i] in r.vinculos)
      && (forall i :: 0 <= i < |d.vinculos| && d.vinculos[i].pessoaId != DecimalString(id) ==> d.vinculos[i] in r.vinculos)
      && (forall v :: multiset(r.vinculos)[v] ==
            if v.tipo == VinculoResponsavel && v.pessoaId == DecimalString(id) then 0 else multiset(d.vinculos)[v])
  {
    FilterCount(d.vinculos, (v: Vinculo) => !(v.tipo == VinculoResponsavel && v.pessoaId == DecimalString(id)));
    FilterIsSubsequence(d.vinculos, (v: Vinculo) => !(v.tipo == VinculoResponsavel && v.pessoaId == DecimalString(id)));
    FilterMembers(d.vinculos, (v: Vinculo) => !(v.tipo == VinculoResponsavel && v.pessoaId == DecimalString(id)));
  }

  /** The symmetric statement for staff: guardian links survive. */
  lemma RemoveFuncionarioCascade(d: AppData, id: nat)
    ensures var r := RemoveFuncionarioFrom(d, id);
      && r.alunos == d.alunos && r.responsaveis == d.responsaveis
      && IsSubsequence(r.funcionarios, d.funcionarios) && IsSubsequence(r.vinculos, d.vinculos)
      && (forall i :: 0 <= i < |r.funcionarios| ==> r.funcionarios[i].id != id)
      && (forall i :: 0 <= i < |d.funcionarios| && d.funcionarios[i].id != id ==> d.funcionarios[i] in r.funcionarios)
      && (forall i :: 0 <= i < |r.vinculos| ==>
            !(r.vinculos[i].tipo == VinculoFuncionario && r.vinculos[i].pessoaId == DecimalString(id)))
      && (forall i :: 0 <= i < |d.vinculos| && d.vinculos[i].tipo == VinculoResponsavel ==> d.vinculos[i] in r.vinculos)
      && (forall i :: 0 <= i < |d.vinculos| && d.vinculos[i].pessoaId != DecimalString(id) ==> d.vinculos[i] in r.vinculos)
      && (forall x :: multiset(r.funcionarios)[x] == if x.id != id then multiset(d.funcionarios)[x] else 0)
      && (forall v :: multiset(r.vinculos)[v] ==
            if v.tipo == VinculoFuncionario && v.pessoaId == DecimalString(id) then 0 else multiset(d.vinculos)[v])
  {
    RemoveFuncionarioPeople(d, id);
    RemoveFuncionarioLinks(d, id);
  }

  /** The staff half of a staff removal. */
  lemma RemoveFuncionarioPeople(d: AppData, id: nat)
    ensures var r := RemoveFuncionarioFrom(d, id);
      && IsSubsequence(r.funcionarios, d.funcionarios)
      && (forall i :: 0 <= i < |r.funcionarios| ==> r.funcionarios[i].id != id)
      && (forall i :: 0 <= i < |d.funcionarios| && d.funcionarios[i].id != id ==> d.funcionarios[i] in r.funcionarios)
      && (forall x :: multiset(r.funcionarios)[x] == if x.id != id then multiset(d.funcionarios)[x] else 0)
  {
    FilterCount(d.funcionarios, (x: Funcionario) => x.id != id);
    FilterIsSubsequence(d.funcionarios, (x: Funcionario) => x.id != id);
    FilterMembers(d.funcionarios, (x: Funcionario) => x.id != id);
  }

  /** The links half of a staff removal. */
  lemma RemoveFuncionarioLinks(d: AppData, id: nat)
    ensures var r := RemoveFuncionarioFrom(d, id);
      && IsSubsequence(r.vinculos, d.vinculos)
      && (forall i :: 0 <= i < |r.vinculos| ==>
            !(r.vinculos[i].tipo == VinculoFuncionario && r.vinculos[i].pessoaId == DecimalString(id)))
      && (forall i :: 0 <= i < |d.vinculos| && d.vinculos[i].tipo == VinculoResponsavel ==> d.vinculos[i] in r.vinculos)
      && (forall i :: 0 <= i < |d.vinculos| && d.vinculos[i].pessoaId != DecimalString(id) ==> d.vinculos[i] in r.vinculos)
      && (forall v :: multiset(r.vinculos)[v] ==
            if v.tipo == VinculoFuncionario && v.pessoaId == DecimalString(id) then 0 else multiset(d.vinculos)[v])
  {
    FilterCount(d.vinculos, (v: Vinculo) => !(v.tipo == VinculoFuncionario && v.pessoaId == DecimalString(id)));
    FilterIsSubsequence(d.vinculos, (v: Vinculo) => !(v.tipo == VinculoFuncionario && v.pessoaId == DecimalString(id)));
    FilterMembers(d.vinculos, (v: Vinculo) => !(v.tipo == VinculoFuncionario && v.pessoaId == DecimalString(id)));
  }

  /** Removing a link touches no entity collection and drops exactly the links with that id. */
  lemma RemoveVinculoOnlyLinks(d: AppData, id: nat)
    ensures var r := RemoveVinculoFrom(d, id);
      && r.alunos == d.alunos && r.responsaveis == d.responsaveis && r.funcionarios == d.funcionarios
      && IsSubsequence(r.vinculos, d.vinculos)
      && (forall i :: 0 <= i < |r.vinculos| ==> r.vinculos[i].id != id)
      && (forall i :: 0 <= i < |d.vinculos| && d.vinculos[i].id != id ==> d.vinculos[i] in r.vinculos)
      && (forall v :: multiset(r.vinculos)[v] == if v.id != id then multiset(d.vinculos)[v] else 0)
  {
    FilterCount(d.vinculos, (v: Vinculo) => v.id != id);
    FilterIsSubsequence(d.vinculos, (v: Vinculo) => v.id != id);
    FilterMembers(d.vinculos, (v: Vinculo) => v.id != id);
  }

  /** Every link reference is the decimal text of an id, as the link form produces it. */
  predicate CanonicalLinks(d: AppData)
  {
    forall i :: 0 <= i < |d.vinculos| ==> CanonicalRef(d.vinculos[i].pessoaId) && CanonicalRef(d.vinculos[i].alunoId)
  }

  /** With decimal references, the cascade's text comparison and the exporter's numeric one
      agree: after removing a student, a guardian or a staff member, no remaining link is
      matched to that id by the exporter. */
  lemma CascadeMatchesExporter(d: AppData, id: nat)
    requires CanonicalLinks(d)
    ensures var r := RemoveAlunoFrom(d, id);
      forall i :: 0 <= i < |r.vinculos| ==> !RefersTo(r.vinculos[i].alunoId, id)
    ensures var r := RemoveResponsavelFrom(d, id);
      forall i :: 0 <= i < |r.vinculos| ==>
        !(r.vinculos[i].tipo == VinculoResponsavel && RefersTo(r.vinculos[i].pessoaId, id))
    ensures var r := RemoveFuncionarioFrom(d, id);
      forall i :: 0 <= i < |r.vinculos| ==>
        !(r.vinculos[i].tipo == VinculoFuncionario && RefersTo(r.vinculos[i].pessoaId, id))
  {
    RemoveAlunoCascade(d, id);
    RemoveResponsavelCascade(d, id);
    RemoveFuncionarioCascade(d, id);
    FilterMembers(d.vinculos, (v: Vinculo) => v.alunoId != DecimalString(id));
    FilterMembers(d.vinculos, (v: Vinculo) => !(v.tipo == VinculoResponsavel && v.pessoaId == DecimalString(id)));
    FilterMembers(d.vinculos, (v: Vinculo) => !(v.tipo == VinculoFuncionario && v.pessoaId == DecimalString(id)));
    var ra := RemoveAlunoFrom(d, id);
    forall i | 0 <= i < |ra.vinculos| ensures !RefersTo(ra.vinculos[i].alunoId, id) {
      var v := ra.vinculos[i];
      assert v in d.vinculos;
      ReferenceComparisonsAgree(v.alunoId, id);
    }
    var rr := RemoveResponsavelFrom(d, id);
    forall i | 0 <= i < |rr.vinculos|
      ensures !(rr.vinculos[i].tipo == VinculoResponsavel && RefersTo(rr.vinculos[i].pessoaId, id))
    {
      var v := rr.vinculos[i];
      assert v in d.vinculos;
      ReferenceComparisonsAgree(v.pessoaId, id);
    }
    var rf := RemoveFuncionarioFrom(d, id);
    forall i | 0 <= i < |rf.vinculos|
      ensures !(rf.vinculos[i].tipo == VinculoFuncionario && RefersTo(rf.vinculos[i].pessoaId, id))
    {
      var v := rf.vinculos[i];
      assert v in d.vinculos;
      ReferenceComparisonsAgree(v.pessoaId, id);
    }
  }
  /** After a student is removed, no person's exported student list (the
      `vinculos_responsavel_alunos` and `alunos_funcionario` cells) holds a student with
      that id. */
  lemma RemoveAlunoLeavesExport(d: AppData, id: nat)
    requires CanonicalLinks(d)
    ensures var r := RemoveAlunoFrom(d, id);
      forall tipo, pid, a :: a in Exporter.LinkedAlunos(tipo, pid, r) ==> a.id != id
  {
    var r := RemoveAlunoFrom(d, id);
    CascadeMatchesExporter(d, id);
    forall tipo, pid, a | a in Exporter.LinkedAlunos(tipo, pid, r) ensures a.id != id {
      Exporter.LinkedAlunosAlongFromLinks(tipo, pid, r.vinculos, r.alunos);
      var v :| v in r.vinculos && v.tipo == tipo && RefersTo(v.pessoaId, pid) && RefersTo(v.alunoId, a.id);
      var i :| 0 <= i < |r.vinculos| && r.vinculos[i] == v;
    }
  }

  /** Entry `g` of student `a` comes from a link of `r` that names the student, whose
      person resolves to `g`, and that is not a link of kind `tipo` to person `id`. */
  predicate EntryFromOtherLink(r: AppData, a: Aluno, g: Exporter.GuardianEntry, tipo: TipoVinculo, id: nat)
  {
    exists v :: v in r.vinculos && RefersTo(v.alunoId, a.id) && Exporter.EntryOf(v, r) == Some(g)
      && !(v.tipo == tipo && RefersTo(v.pessoaId, id))
  }

  /** After a guardian is removed, every entry of a student's exported guardian list
      (`responsaveis_do_aluno`) comes from a remaining link to that student that does not
      name the removed guardian. */
  lemma RemoveResponsavelLeavesExport(d: AppData, id: nat)
    requires CanonicalLinks(d)
    ensures var r := RemoveResponsavelFrom(d, id);
      forall a: Aluno, g :: g in Exporter.StudentGuardians(a, r) ==> EntryFromOtherLink(r, a, g, VinculoResponsavel, id)
  {
    CascadeMatchesExporter(d, id);
    EntriesAvoid(RemoveResponsavelFrom(d, id), VinculoResponsavel, id);
  }

  /** After a staff member is removed, every entry of a student's exported guardian list
      comes from a remaining link to that student that does not name the removed staff
      member. */
  lemma RemoveFuncionarioLeavesExport(d: AppData, id: nat)
    requires CanonicalLinks(d)
    ensures var r := RemoveFuncionarioFrom(d, id);
      forall a: Aluno, g :: g in Exporter.StudentGuardians(a, r) ==> EntryFromOtherLink(r, a, g, VinculoFuncionario, id)
  {
    CascadeMatchesExporter(d, id);
    EntriesAvoid(RemoveFuncionarioFrom(d, id), VinculoFuncionario, id);
  }

  /** When no link of kind `tipo` names person `id`, every guardian entry of every student
      comes from a link that does not name that person. */
  lemma EntriesAvoid(r: AppData, tipo: TipoVinculo, id: nat)
    requires forall i :: 0 <= i < |r.vinculos| ==> !(r.vinculos[i].tipo == tipo && RefersTo(r.vinculos[i].pessoaId, id))
    ensures forall a: Aluno, g :: g in Exporter.StudentGuardians(a, r) ==> EntryFromOtherLink(r, a, g, tipo, id)
  {
    forall a: Aluno, g | g in Exporter.StudentGuardians(a, r) {
      EntryAvoids(r, tipo, id, a, g);
    }
  }

  lemma EntryAvoids(r: AppData, tipo: TipoVinculo, id: nat, a: Aluno, g: Exporter.GuardianEntry)
    requires forall i :: 0 <= i < |r.vinculos| ==> !(r.vinculos[i].tipo == tipo && RefersTo(r.vinculos[i].pessoaId, id))
    requires g in Exporter.StudentGuardians(a, r)
    ensures EntryFromOtherLink(r, a, g, tipo, id)
  {
    Exporter.GuardiansAlongFromLinks(a.id, r.vinculos, r);
    var v :| v in r.vinculos && RefersTo(v.alunoId, a.id) && Exporter.EntryOf(v, r) == Some(g);
    var i :| 0 <= i < |r.vinculos| && r.vinculos[i] == v;
  }

  // ---------------------------------------------------------------------------
  // The store

  /** The state the screen holds: the four collections and the school code typed in. */
  class SessionStore {
    var alunos: seq<Aluno>
    var responsaveis: seq<Responsavel>
    var funcionarios: seq<Funcionario>
    var vinculos: seq<Vinculo>
    var inepCode: string

    function Data(): AppData
      reads this
    {
      AppData(alunos, responsaveis, funcionarios, vinculos)
    }

    /** Everything starts empty. */
    constructor()
      ensures Data() == EmptyData && inepCode == ""
    {
      alunos := [];
      responsaveis := [];
      funcionarios := [];
      vinculos := [];
      inepCode := "";
    }

    /** `addAluno`: appends the student with the given id (`Date.now()` in the source). */
    method AddAluno(aluno: Aluno, id: nat)
      modifies this
      ensures alunos == old(alunos) + [aluno.(id := id)]
      ensures responsaveis == old(responsaveis) && funcionarios == old(funcionarios)
      ensures vinculos == old(vinculos) && inepCode == old(inepCode)
    {
      alunos := alunos + [aluno.(id := id)];
    }

    method AddResponsavel(responsavel: Responsavel, id: nat)
      modifies this
      ensures responsaveis == old(responsaveis) + [responsavel.(id := id)]
      ensures alunos == old(alunos) && funcionarios == old(funcionarios)
      ensures vinculos == old(vinculos) && inepCode == old(inepCode)
    {
      responsaveis := responsaveis + [responsavel.(id := id)];
    }

    method AddFuncionario(funcionario: Funcionario, id: nat)
      modifies this
      ensures funcionarios == old(funcionarios) + [funcionario.(id := id)]
      ensures alunos == old(alunos) && responsaveis == old(responsaveis)
      ensures vinculos == old(vinculos) && inepCode == old(inepCode)
    {
      funcionarios := funcionarios + [funcionario.(id := id)];
    }

    /** `addVinculo`: appends the link the form built, with the given id. */
    method AddVinculo(vinculo: NovoVinculo, id: nat)
      modifies this
      ensures vinculos == old(vinculos) + [Vinculo(id, vinculo.tipo, vinculo.pessoaId, vinculo.alunoId, vinculo.parentesco)]
      ensures alunos == old(alunos) && responsaveis == old(responsaveis)
      ensures funcionarios == old(funcionarios) && inepCode == old(inepCode)
    {
      vinculos := vinculos + [Vinculo(id, vinculo.tipo, vinculo.pessoaId, vinculo.alunoId, vinculo.parentesco)];
    }

    /** `removeAluno`: when the user confirms, the student and its links go; otherwise
        nothing changes. */
    method RemoveAluno(id: nat, confirmed: bool)
      modifies this
      ensures Data() == if confirmed then RemoveAlunoFrom(old(Data()), id) else old(Data())
      ensures inepCode == old(inepCode)
    {
      if confirmed {
        alunos := Filter(alunos, (a: Aluno) => a.id != id);
        vinculos := Filter(vinculos, (v: Vinculo) => v.alunoId != DecimalString(id));
      }
    }

    method RemoveResponsavel(id: nat, confirmed: bool)
      modifies this
      ensures Data() == if confirmed then RemoveResponsavelFrom(old(Data()), id) else old(Data())
      ensures inepCode == old(inepCode)
    {
      if confirmed {
        responsaveis := Filter(responsaveis, (r: Responsavel) => r.id != id);
        vinculos := Filter(vinculos, (v: Vinculo) => !(v.tipo == VinculoResponsavel && v.pessoaId == DecimalString(id)));
      }
    }

    method RemoveFuncionario(id: nat, confirmed: bool)
      modifies this
      ensures Data() == if confirmed then RemoveFuncionarioFrom(old(Data()), id) else old(Data())
      ensures inepCode == old(inepCode)
    {
      if confirmed {
        funcionarios := Filter(funcionarios, (f: Funcionario) => f.id != id);
        vinculos := Filter(vinculos, (v: Vinculo) => !(v.tipo == VinculoFuncionario && v.pessoaId == DecimalString(id)));
      }
    }

    method RemoveVinculo(id: nat, confirmed: bool)
      modifies this
      ensures Data() == if confirmed then RemoveVinculoFrom(old(Data()), id) else old(Data())
      ensures inepCode == old(inepCode)
    {
      if confirmed {
        vinculos := Filter(vinculos, (v: Vinculo) => v.id != id);
      }
    }

    /** The school-code input. */
    method SetInepCode(code: string)
      modifies this
      ensures inepCode == code && Data() == old(Data())
    {
      inepCode := code;
    }

    /** `handleExport`: refused when the trimmed school code is empty; otherwise the export
        of the current data under the trimmed code. The state is not changed either way. */
    method HandleExport(loteId: string, currentDate: string) returns (csv: Option<string>)
      ensures csv.None? <==> AllSpace(inepCode)
      ensures csv.Some? ==> csv.value == Csv.ConverterParaCsv(Exporter.ExportRows(
        Exporter.ExportContext(loteId, currentDate, Trim(inepCode)), Data()))
    {
      var code := Trim(inepCode);
      TrimEmpty(inepCode);
      if code == [] {
        return None;
      }
      var text := Exporter.ExportDataAsCsv(Data(), code, loteId, currentDate);
      return Some(text);
    }
  }
}
