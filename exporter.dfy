/** `exportDataAsCsv` up to the CSV text (lines 47-152 of the exporter): one flat row per
    guardian, per student and per staff member, in that order, each carrying the batch id,
    the process id, its category and, in one JSON column, the records it is linked to. */
module Exporter {
  import opened Wrappers
  import opened Seqs
  import opened Types
  import opened Csv
  import Json
  import CsvParse

  // ---------------------------------------------------------------------------
  // Relationship labels

  /** The labels of the eight relationship tags. */
  const ParentescoLabels: map<string, string> := map[
    "pai" := "Pai", "mae" := "Mãe", "avo_m" := "Avó", "avo_h" := "Avô",
    "tio" := "Tio(a)", "irmao" := "Irmão(ã)", "responsavel_legal" := "Responsável Legal",
    "outro" := "Outro"]

  /** `capitalizeParentesco`: the label of a known tag; any other text is kept as it is
      (`map[p] || p`, where no label is empty). */
  function CapitalizeParentesco(p: string): string
  {
    if p in ParentescoLabels then ParentescoLabels[p] else p
  }

  /** Exactly the eight tags have labels, each its own; anything else comes back unchanged. */
  lemma CapitalizeParentescoTags(p: string)
    ensures ParentescoLabels.Keys == {"pai", "mae", "avo_m", "avo_h", "tio", "irmao", "responsavel_legal", "outro"}
    ensures CapitalizeParentesco("pai") == "Pai" && CapitalizeParentesco("mae") == "Mãe"
    ensures CapitalizeParentesco("avo_m") == "Avó" && CapitalizeParentesco("avo_h") == "Avô"
    ensures CapitalizeParentesco("tio") == "Tio(a)" && CapitalizeParentesco("irmao") == "Irmão(ã)"
    ensures CapitalizeParentesco("responsavel_legal") == "Responsável Legal"
    ensures CapitalizeParentesco("outro") == "Outro"
    ensures p !in ParentescoLabels ==> CapitalizeParentesco(p) == p
  {
  }

  /** No label is itself a tag, so labelling twice is labelling once; and distinct tags
      get distinct labels, so the tag can be told back from its label. */
  lemma CapitalizeParentescoIdempotent(p: string)
    ensures CapitalizeParentesco(CapitalizeParentesco(p)) == CapitalizeParentesco(p)
    ensures CapitalizeParentesco(p) == "" <==> p == ""
  {
  }

  lemma CapitalizeParentescoInjectiveOnTags(p: string, q: string)
    requires p in ParentescoLabels && q in ParentescoLabels
    ensures CapitalizeParentesco(p) == CapitalizeParentesco(q) <==> p == q
  {
  }

  // ---------------------------------------------------------------------------
  // The values fixed by one export call

  /** The batch id, the date of the export (`YYYY-MM-DD`) and the school's INEP code. The
      first two come from `crypto.randomUUID()` and the clock in the source. */
  datatype ExportContext = ExportContext(loteId: string, currentDate: string, inepCode: string)

  /** `IMPORTACAO-<date>-<inep>`. */
  function ProcessoOf(ctx: ExportContext): string
  {
    "IMPORTACAO-" + ctx.currentDate + "-" + ctx.inepCode
  }

  const OrigemWeb := "Sistema Web"

  /** The four columns every row carries. */
  function BaseRow(ctx: ExportContext, categoria: string): Row
  {
    map[LoteId := ctx.loteId, ProcessoId := ProcessoOf(ctx), CategoriaEntrada := categoria,
        OrigemDados := OrigemWeb]
  }

  // ---------------------------------------------------------------------------
  // Joins through the links

  /** `alunos.find(a => a.id === Number(ref))`. */
  function FindAluno(alunos: seq<Aluno>, ref: string): Option<Aluno>
  {
    Find(alunos, (a: Aluno) => RefersTo(ref, a.id))
  }

  /** The links of kind `tipo` whose person is `id`, in link order. */
  function LinksOf(tipo: TipoVinculo, id: nat, vs: seq<Vinculo>): seq<Vinculo>
  {
    Filter(vs, (v: Vinculo) => v.tipo == tipo && RefersTo(v.pessoaId, id))
  }

  /** What one link contributes to the students of person `id` of kind `tipo`: its student
      when the link is of that kind, names this person and the student resolves. */
  function LinkedAluno(tipo: TipoVinculo, id: nat, v: Vinculo, alunos: seq<Aluno>): seq<Aluno>
  {
    if v.tipo == tipo && RefersTo(v.pessoaId, id) && FindAluno(alunos, v.alunoId).Some?
    then [FindAluno(alunos, v.alunoId).value] else []
  }

  /** The students linked to person `id` through the links `vs`, one link at a time. */
  function LinkedAlunosAlong(tipo: TipoVinculo, id: nat, vs: seq<Vinculo>, alunos: seq<Aluno>): (r: seq<Aluno>)
    ensures |r| <= |vs|
    decreases |vs|
  {
    if vs == [] then []
    else LinkedAlunosAlong(tipo, id, vs[..|vs| - 1], alunos) + LinkedAluno(tipo, id, vs[|vs| - 1], alunos)
  }

  /** The students linked to person `id` of kind `tipo`: one per link, in link order,
      dropping links whose student does not resolve. */
  function LinkedAlunos(tipo: TipoVinculo, id: nat, d: AppData): seq<Aluno>
  {
    LinkedAlunosAlong(tipo, id, d.vinculos, d.alunos)
  }

  /** The source's own pipeline for the same list: filter the links, map each to its
      student, drop the ones not found. */
  function LinkedAlunosPipeline(tipo: TipoVinculo, id: nat, d: AppData): seq<Aluno>
  {
    Somes(Map((v: Vinculo) => FindAluno(d.alunos, v.alunoId), LinksOf(tipo, id, d.vinculos)))
  }

  /** The keys of the JSON objects in the link columns, in the order the source writes them. */
  const MatriculaKeys: seq<string> := ["matricula"]
  const GuardianKeys: seq<string> := ["cpf", "parentesco"]

  function MatriculaRows(alunos: seq<Aluno>): (r: seq<seq<string>>)
    ensures Json.Rectangular(MatriculaKeys, r)
  {
    Map((a: Aluno) => [a.matricula], alunos)
  }

  /** `JSON.stringify(alunos.map(a => ({ matricula: a.matricula })))`, or the empty text
      when there is no student. */
  function MatriculasJson(alunos: seq<Aluno>): string
  {
    if |alunos| > 0 then Json.ArrayJson(MatriculaKeys, MatriculaRows(alunos)) else ""
  }

  /** One entry of a student's guardian list: the person's CPF and the link's label. */
  datatype GuardianEntry = GuardianEntry(cpf: string, parentesco: string)

  /** The person a link points at, looked up among the guardians for a guardian link and
      among the staff otherwise; nothing when the person does not resolve. */
  function EntryOf(v: Vinculo, d: AppData): Option<GuardianEntry>
  {
    if v.tipo == VinculoResponsavel then
      match Find(d.responsaveis, (r: Responsavel) => RefersTo(v.pessoaId, r.id))
      case Some(r) => Some(GuardianEntry(r.cpf, CapitalizeParentesco(v.parentesco)))
      case None => None
    else
      match Find(d.funcionarios, (f: Funcionario) => RefersTo(v.pessoaId, f.id))
      case Some(f) => Some(GuardianEntry(f.cpf, CapitalizeParentesco(v.parentesco)))
      case None => None
  }

  /** The links of any kind that point at student `id`, in link order. */
  function LinksToAluno(id: nat, vs: seq<Vinculo>): seq<Vinculo>
  {
    Filter(vs, (v: Vinculo) => RefersTo(v.alunoId, id))
  }

  /** What one link contributes to the guardian list of student `id`: the entry of its
      person when the link names this student and the person resolves. */
  function GuardianOfLink(id: nat, v: Vinculo, d: AppData): seq<GuardianEntry>
  {
    if RefersTo(v.alunoId, id) && EntryOf(v, d).Some? then [EntryOf(v, d).value] else []
  }

  /** The guardian list of student `id` through the links `vs`, one link at a time; the
      people are looked up in `d`. */
  function GuardiansAlong(id: nat, vs: seq<Vinculo>, d: AppData): (r: seq<GuardianEntry>)
    ensures |r| <= |vs|
    decreases |vs|
  {
    if vs == [] then []
    else GuardiansAlong(id, vs[..|vs| - 1], d) + GuardianOfLink(id, vs[|vs| - 1], d)
  }

  /** The guardian list of a student: one entry per link to it, in link order, dropping
      links whose person does not resolve. */
  function StudentGuardians(aluno: Aluno, d: AppData): seq<GuardianEntry>
  {
    GuardiansAlong(aluno.id, d.vinculos, d)
  }

  /** The source's own pipeline for the same list: filter the links to the student, map
      each to its person's entry, drop the ones not found. */
  function StudentGuardiansPipeline(aluno: Aluno, d: AppData): seq<GuardianEntry>
  {
    Somes(Map((v: Vinculo) => EntryOf(v, d), LinksToAluno(aluno.id, d.vinculos)))
  }

  function EntryRows(gs: seq<GuardianEntry>): (r: seq<seq<string>>)
    ensures Json.Rectangular(GuardianKeys, r)
  {
    Map((g: GuardianEntry) => [g.cpf, g.parentesco], gs)
  }

  /** `JSON.stringify` of the `{cpf, parentesco}` list, or the empty text when it is empty. */
  function GuardiansJson(gs: seq<GuardianEntry>): string
  {
    if |gs| > 0 then Json.ArrayJson(GuardianKeys, EntryRows(gs)) else ""
  }

  // ---------------------------------------------------------------------------
  // Rows

  function GuardianRow(ctx: ExportContext, r: Responsavel, d: AppData): Row
  {
    GuardianRowWith(ctx, r, MatriculasJson(LinkedAlunos(VinculoResponsavel, r.id, d)))
  }

  /** A guardian's row whose link column holds the text `alunos`. */
  function GuardianRowWith(ctx: ExportContext, r: Responsavel, alunos: string): Row
  {
    BaseRow(ctx, "RESPONSAVEL")[NomeResponsavel := r.nome][CpfResponsavel := r.cpf]
      [WhatsappResponsavel := r.whatsapp][EmailResponsavel := r.email]
      [VinculosResponsavelAlunos := alunos]
  }

  function StudentRow(ctx: ExportContext, a: Aluno, d: AppData): Row
  {
    StudentRowWith(ctx, a, GuardiansJson(StudentGuardians(a, d)))
  }

  /** A student's row whose guardian column holds the text `responsaveis`. */
  function StudentRowWith(ctx: ExportContext, a: Aluno, responsaveis: string): Row
  {
    BaseRow(ctx, "ESTUDANTE")[NomeEstudante := a.nome][MatriculaEstudante := a.matricula]
      [SerieTurma := a.serie][ResponsaveisDoAluno := responsaveis]
  }

  function StaffRow(ctx: ExportContext, f: Funcionario, d: AppData): Row
  {
    StaffRowWith(ctx, f, MatriculasJson(LinkedAlunos(VinculoFuncionario, f.id, d)))
  }

  /** A staff member's row whose student column holds the text `alunos`. */
  function StaffRowWith(ctx: ExportContext, f: Funcionario, alunos: string): Row
  {
    BaseRow(ctx, "FUNCIONARIO")[NomeFuncionario := f.nome][CpfFuncionario := f.cpf]
      [WhatsappFuncionario := f.whatsapp][EmailFuncionario := f.email]
      [MatriculaServidor := f.matricula][Cargo := f.cargo][AtribuicaoCargo := f.atribuicao]
      [AppAutorizado := if f.appAutorizado then "Sim" else "Não"]
      [FuncionarioTambemResponsavel := if f.temFilho then "TRUE" else "FALSE"]
      [AlunosFuncionario := alunos]
  }

  function GuardianRows(ctx: ExportContext, d: AppData): seq<Row>
  {
    Map((r: Responsavel) => GuardianRow(ctx, r, d), d.responsaveis)
  }

  function StudentRows(ctx: ExportContext, d: AppData): seq<Row>
  {
    Map((a: Aluno) => StudentRow(ctx, a, d), d.alunos)
  }

  function StaffRows(ctx: ExportContext, d: AppData): seq<Row>
  {
    Map((f: Funcionario) => StaffRow(ctx, f, d), d.funcionarios)
  }

  /** The rows of an export: guardians, then students, then staff. */
  function ExportRows(ctx: ExportContext, d: AppData): seq<Row>
  {
    GuardianRows(ctx, d) + StudentRows(ctx, d) + StaffRows(ctx, d)
  }

  /** `exportDataAsCsv` up to `converterParaCSV(dadosExportacao)`: three passes push one
      row per guardian, per student and per staff member. */
  method ExportDataAsCsv(data: AppData, inepCode: string, loteId: string, currentDate: string)
    returns (csv: string)
    ensures csv == ConverterParaCsv(ExportRows(ExportContext(loteId, currentDate, inepCode), data))
  {
    var ctx := ExportContext(loteId, currentDate, inepCode);
    var dados: seq<Row> := [];
    dados := PushGuardianRows(ctx, data, dados);
    assert dados == GuardianRows(ctx, data);
    dados := PushStudentRows(ctx, data, dados);
    dados := PushStaffRows(ctx, data, dados);
    csv := ConverterParaCsv(dados);
  }

  lemma GuardianRowsAt(ctx: ExportContext, data: AppData, i: nat)
    requires i < |data.responsaveis|
    ensures |GuardianRows(ctx, data)| == |data.responsaveis|
    ensures GuardianRows(ctx, data)[i] == GuardianRow(ctx, data.responsaveis[i], data)
  {
  }

  /** `responsaveis.forEach(...)`: pushes one row per guardian, in order. */
  method PushGuardianRows(ctx: ExportContext, data: AppData, dados: seq<Row>) returns (out: seq<Row>)
    ensures out == dados + GuardianRows(ctx, data)
  {
    ghost var rows := GuardianRows(ctx, data);
    out := dados;
    for i := 0 to |data.responsaveis|
      invariant out == dados + rows[..i]
    {
      GuardianRowsAt(ctx, data, i);
      out := out + [GuardianRow(ctx, data.responsaveis[i], data)];
      assert rows[..i + 1] == rows[..i] + [rows[i]];
    }
    assert rows[..|rows|] == rows;
  }

  lemma StudentRowsAt(ctx: ExportContext, data: AppData, i: nat)
    requires i < |data.alunos|
    ensures |StudentRows(ctx, data)| == |data.alunos|
    ensures StudentRows(ctx, data)[i] == StudentRow(ctx, data.alunos[i], data)
  {
  }

  /** `alunos.forEach(...)`: pushes one row per student, in order. */
  method PushStudentRows(ctx: ExportContext, data: AppData, dados: seq<Row>) returns (out: seq<Row>)
    ensures out == dados + StudentRows(ctx, data)
  {
    ghost var rows := StudentRows(ctx, data);
    out := dados;
    for i := 0 to |data.alunos|
      invariant out == dados + rows[..i]
    {
      StudentRowsAt(ctx, data, i);
      out := out + [StudentRow(ctx, data.alunos[i], data)];
      assert rows[..i + 1] == rows[..i] + [rows[i]];
    }
    assert rows[..|rows|] == rows;
  }

  lemma StaffRowsAt(ctx: ExportContext, data: AppData, i: nat)
    requires i < |data.funcionarios|
    ensures |StaffRows(ctx, data)| == |data.funcionarios|
    ensures StaffRows(ctx, data)[i] == StaffRow(ctx, data.funcionarios[i], data)
  {
  }

  /** `funcionarios.forEach(...)`: pushes one row per staff member, in order. */
  method PushStaffRows(ctx: ExportContext, data: AppData, dados: seq<Row>) returns (out: seq<Row>)
    ensures out == dados + StaffRows(ctx, data)
  {
    ghost var rows := StaffRows(ctx, data);
    out := dados;
    for i := 0 to |data.funcionarios|
      invariant out == dados + rows[..i]
    {
      StaffRowsAt(ctx, data, i);
      out := out + [StaffRow(ctx, data.funcionarios[i], data)];
      assert rows[..i + 1] == rows[..i] + [rows[i]];
    }
    assert rows[..|rows|] == rows;
  }

  // ---------------------------------------------------------------------------
  // Layout of the rows

  /** One row per guardian, then one per student, then one per staff member, each group
      in collection order; links add no rows of their own. */
  lemma ExportRowsLayout(ctx: ExportContext, d: AppData)
    ensures var rows := ExportRows(ctx, d); var nr := |d.responsaveis|; var na := |d.alunos|;
      && |rows| == nr + na + |d.funcionarios|
      && (forall i :: 0 <= i < nr ==> rows[i] == GuardianRow(ctx, d.responsaveis[i], d))
      && (forall i :: 0 <= i < na ==> rows[nr + i] == StudentRow(ctx, d.alunos[i], d))
      && (forall i :: 0 <= i < |d.funcionarios| ==> rows[nr + na + i] == StaffRow(ctx, d.funcionarios[i], d))
  {
    forall i | 0 <= i < |d.responsaveis|
      ensures ExportRows(ctx, d)[i] == GuardianRow(ctx, d.responsaveis[i], d)
    {
      GuardianRowAt(ctx, d, i);
    }
    forall i | 0 <= i < |d.alunos|
      ensures ExportRows(ctx, d)[|d.responsaveis| + i] == StudentRow(ctx, d.alunos[i], d)
    {
      StudentRowAt(ctx, d, i);
    }
    forall i | 0 <= i < |d.funcionarios|
      ensures ExportRows(ctx, d)[|d.responsaveis| + |d.alunos| + i] == StaffRow(ctx, d.funcionarios[i], d)
    {
      StaffRowAt(ctx, d, i);
    }
  }

  lemma GuardianRowAt(ctx: ExportContext, d: AppData, i: nat)
    requires i < |d.responsaveis|
    ensures |ExportRows(ctx, d)| == |d.responsaveis| + |d.alunos| + |d.funcionarios|
    ensures ExportRows(ctx, d)[i] == GuardianRow(ctx, d.responsaveis[i], d)
  {
    ConcatIndex(GuardianRows(ctx, d), StudentRows(ctx, d), StaffRows(ctx, d), i);
  }

  /** The columns a guardian row fills; every other column is an empty cell. */
  const GuardianColumns: set<Column> := {LoteId, ProcessoId, CategoriaEntrada, OrigemDados,
    NomeResponsavel, CpfResponsavel, WhatsappResponsavel, EmailResponsavel, VinculosResponsavelAlunos}

  const StudentColumns: set<Column> := {LoteId, ProcessoId, CategoriaEntrada, OrigemDados,
    NomeEstudante, MatriculaEstudante, SerieTurma, ResponsaveisDoAluno}

  const StaffColumns: set<Column> := {LoteId, ProcessoId, CategoriaEntrada, OrigemDados,
    NomeFuncionario, CpfFuncionario, WhatsappFuncionario, EmailFuncionario, MatriculaServidor,
    Cargo, AtribuicaoCargo, AppAutorizado, FuncionarioTambemResponsavel, AlunosFuncionario}

  /** Each kind of row sets exactly its own columns, so the others export as empty cells. */
  lemma RowColumns(ctx: ExportContext, d: AppData, r: Responsavel, a: Aluno, f: Funcionario)
    ensures GuardianRow(ctx, r, d).Keys == GuardianColumns
    ensures StudentRow(ctx, a, d).Keys == StudentColumns
    ensures StaffRow(ctx, f, d).Keys == StaffColumns
    ensures forall c :: c !in GuardianColumns ==> FieldText(GuardianRow(ctx, r, d), c) == ""
    ensures forall c :: c !in StudentColumns ==> FieldText(StudentRow(ctx, a, d), c) == ""
    ensures forall c :: c !in StaffColumns ==> FieldText(StaffRow(ctx, f, d), c) == ""
  {
    GuardianRowWithColumns(ctx, r, MatriculasJson(LinkedAlunos(VinculoResponsavel, r.id, d)));
    StudentRowWithColumns(ctx, a, GuardiansJson(StudentGuardians(a, d)));
    StaffRowWithColumns(ctx, f, MatriculasJson(LinkedAlunos(VinculoFuncionario, f.id, d)));
  }

  lemma GuardianRowWithColumns(ctx: ExportContext, r: Responsavel, alunos: string)
    ensures GuardianRowWith(ctx, r, alunos).Keys == GuardianColumns
    ensures forall c :: c !in GuardianColumns ==> FieldText(GuardianRowWith(ctx, r, alunos), c) == ""
  {
  }

  lemma StudentRowWithColumns(ctx: ExportContext, a: Aluno, responsaveis: string)
    ensures StudentRowWith(ctx, a, responsaveis).Keys == StudentColumns
    ensures forall c :: c !in StudentColumns ==> FieldText(StudentRowWith(ctx, a, responsaveis), c) == ""
  {
  }

  lemma StaffRowWithColumns(ctx: ExportContext, f: Funcionario, alunos: string)
    ensures StaffRowWith(ctx, f, alunos).Keys == StaffColumns
    ensures forall c :: c !in StaffColumns ==> FieldText(StaffRowWith(ctx, f, alunos), c) == ""
  {
  }

  /** The category of the row at position `i`. */
  function CategoryAt(d: AppData, i: nat): string
  {
    if i < |d.responsaveis| then "RESPONSAVEL"
    else if i < |d.responsaveis| + |d.alunos| then "ESTUDANTE"
    else "FUNCIONARIO"
  }

  /** The batch id, `IMPORTACAO-<date>-<inep>`, the origin `Sistema Web` and the
      category, as a row exports them. */
  predicate CarriesContext(row: Row, ctx: ExportContext, categoria: string)
  {
    && FieldText(row, LoteId) == ctx.loteId
    && FieldText(row, ProcessoId) == "IMPORTACAO-" + ctx.currentDate + "-" + ctx.inepCode
    && FieldText(row, OrigemDados) == "Sistema Web"
    && FieldText(row, CategoriaEntrada) == categoria
  }

  lemma GuardianRowContext(ctx: ExportContext, r: Responsavel, d: AppData)
    ensures CarriesContext(GuardianRow(ctx, r, d), ctx, "RESPONSAVEL")
  {
    GuardianRowWithContext(ctx, r, MatriculasJson(LinkedAlunos(VinculoResponsavel, r.id, d)));
  }

  lemma GuardianRowWithContext(ctx: ExportContext, r: Responsavel, alunos: string)
    ensures CarriesContext(GuardianRowWith(ctx, r, alunos), ctx, "RESPONSAVEL")
  {
    var row := GuardianRowWith(ctx, r, alunos);
    assert FieldText(row, LoteId) == ctx.loteId;
    assert FieldText(row, ProcessoId) == "IMPORTACAO-" + ctx.currentDate + "-" + ctx.inepCode;
    assert FieldText(row, OrigemDados) == "Sistema Web";
    assert FieldText(row, CategoriaEntrada) == "RESPONSAVEL";
  }

  lemma StudentRowContext(ctx: ExportContext, a: Aluno, d: AppData)
    ensures CarriesContext(StudentRow(ctx, a, d), ctx, "ESTUDANTE")
  {
    StudentRowWithContext(ctx, a, GuardiansJson(StudentGuardians(a, d)));
  }

  lemma StudentRowWithContext(ctx: ExportContext, a: Aluno, responsaveis: string)
    ensures CarriesContext(StudentRowWith(ctx, a, responsaveis), ctx, "ESTUDANTE")
  {
    var row := StudentRowWith(ctx, a, responsaveis);
    assert FieldText(row, LoteId) == ctx.loteId;
    assert FieldText(row, ProcessoId) == "IMPORTACAO-" + ctx.currentDate + "-" + ctx.inepCode;
    assert FieldText(row, OrigemDados) == "Sistema Web";
    assert FieldText(row, CategoriaEntrada) == "ESTUDANTE";
  }

  lemma StaffRowContext(ctx: ExportContext, f: Funcionario, d: AppData)
    ensures CarriesContext(StaffRow(ctx, f, d), ctx, "FUNCIONARIO")
  {
    StaffRowWithContext(ctx, f, MatriculasJson(LinkedAlunos(VinculoFuncionario, f.id, d)));
  }

  lemma StaffRowWithContext(ctx: ExportContext, f: Funcionario, alunos: string)
    ensures CarriesContext(StaffRowWith(ctx, f, alunos), ctx, "FUNCIONARIO")
  {
    var row := StaffRowWith(ctx, f, alunos);
    assert FieldText(row, LoteId) == ctx.loteId;
    assert FieldText(row, ProcessoId) == "IMPORTACAO-" + ctx.currentDate + "-" + ctx.inepCode;
    assert FieldText(row, OrigemDados) == "Sistema Web";
    assert FieldText(row, CategoriaEntrada) == "FUNCIONARIO";
  }

  /** Every row carries the batch id, `IMPORTACAO-<date>-<inep>`, the origin `Sistema Web`
      and the category of its group. */
  lemma FixedColumns(ctx: ExportContext, d: AppData)
    ensures var rows := ExportRows(ctx, d);
      forall i :: 0 <= i < |rows| ==> CarriesContext(rows[i], ctx, CategoryAt(d, i))
  {
    ExportRowsLayout(ctx, d);
    var rows := ExportRows(ctx, d);
    var nr := |d.responsaveis|;
    var na := |d.alunos|;
    forall i | 0 <= i < |rows|
      ensures CarriesContext(rows[i], ctx, CategoryAt(d, i))
    {
      if i < nr {
        GuardianRowContext(ctx, d.responsaveis[i], d);
      } else if i < nr + na {
        assert rows[nr + (i - nr)] == StudentRow(ctx, d.alunos[i - nr], d);
        StudentRowContext(ctx, d.alunos[i - nr], d);
      } else {
        assert rows[nr + na + (i - nr - na)] == StaffRow(ctx, d.funcionarios[i - nr - na], d);
        StaffRowContext(ctx, d.funcionarios[i - nr - na], d);
      }
    }
  }

  /** Staff rows spell the authorisation flag as `Sim`/`Não` and the has-a-child flag as
      `TRUE`/`FALSE`. */
  lemma StaffFlags(ctx: ExportContext, d: AppData)
    ensures var rows := ExportRows(ctx, d); var k := |d.responsaveis| + |d.alunos|;
      forall i :: 0 <= i < |d.funcionarios| ==>
        && FieldText(rows[k + i], AppAutorizado) == (if d.funcionarios[i].appAutorizado then "Sim" else "Não")
        && FieldText(rows[k + i], FuncionarioTambemResponsavel) == (if d.funcionarios[i].temFilho then "TRUE" else "FALSE")
  {
    forall i | 0 <= i < |d.funcionarios|
      ensures var row := ExportRows(ctx, d)[|d.responsaveis| + |d.alunos| + i];
        && FieldText(row, AppAutorizado) == (if d.funcionarios[i].appAutorizado then "Sim" else "Não")
        && FieldText(row, FuncionarioTambemResponsavel) == (if d.funcionarios[i].temFilho then "TRUE" else "FALSE")
    {
      StaffRowAt(ctx, d, i);
      StaffRowFlags(ctx, d.funcionarios[i], d);
    }
  }

  lemma StaffRowFlags(ctx: ExportContext, f: Funcionario, d: AppData)
    ensures FieldText(StaffRow(ctx, f, d), AppAutorizado) == (if f.appAutorizado then "Sim" else "Não")
    ensures FieldText(StaffRow(ctx, f, d), FuncionarioTambemResponsavel) == (if f.temFilho then "TRUE" else "FALSE")
  {
  }

  // ---------------------------------------------------------------------------
  // What the links contribute

  function AddLink(d: AppData, v: Vinculo): AppData
  {
    d.(vinculos := d.vinculos + [v])
  }

  /** Without links, nobody is linked to anything. */
  lemma NoLinksNoEntries(tipo: TipoVinculo, id: nat, a: Aluno, d: AppData)
    requires d.vinculos == []
    ensures LinkedAlunos(tipo, id, d) == [] && StudentGuardians(a, d) == []
  {
  }

  /** A further link adds its student at the end of the list, and only when it is of the
      right kind, names this person and its student resolves; otherwise the list stays
      as it was. By induction on the links this fixes the list: link order, and dangling
      links dropped. */
  lemma LinkedAlunosAddLink(tipo: TipoVinculo, id: nat, d: AppData, v: Vinculo)
    ensures LinkedAlunos(tipo, id, AddLink(d, v)) ==
      LinkedAlunos(tipo, id, d) +
        (if v.tipo == tipo && RefersTo(v.pessoaId, id) && FindAluno(d.alunos, v.alunoId).Some?
         then [FindAluno(d.alunos, v.alunoId).value] else [])
  {
    var vs := d.vinculos + [v];
    assert vs[..|vs| - 1] == d.vinculos && vs[|vs| - 1] == v;
  }

  /** The guardian list depends on the links and on the people, not on the students. */
  lemma {:induction false} GuardiansAlongPeople(id: nat, vs: seq<Vinculo>, d: AppData, e: AppData)
    requires d.responsaveis == e.responsaveis && d.funcionarios == e.funcionarios
    ensures GuardiansAlong(id, vs, d) == GuardiansAlong(id, vs, e)
    decreases |vs|
  {
    if vs != [] {
      GuardiansAlongPeople(id, vs[..|vs| - 1], d, e);
    }
  }

  /** The same for a student's guardian list: a further link adds the entry of its person,
      looked up by the link's kind, when it names this student and the person resolves. */
  lemma StudentGuardiansAddLink(a: Aluno, d: AppData, v: Vinculo)
    ensures StudentGuardians(a, AddLink(d, v)) ==
      StudentGuardians(a, d) +
        (if RefersTo(v.alunoId, a.id) && EntryOf(v, d).Some? then [EntryOf(v, d).value] else [])
  {
    var vs := d.vinculos + [v];
    assert vs[..|vs| - 1] == d.vinculos && vs[|vs| - 1] == v;
    GuardiansAlongPeople(a.id, d.vinculos, AddLink(d, v), d);
  }

  lemma {:induction false} LinkedAlunosAlongIsPipeline(tipo: TipoVinculo, id: nat, vs: seq<Vinculo>, alunos: seq<Aluno>)
    ensures LinkedAlunosAlong(tipo, id, vs, alunos) ==
      Somes(Map((v: Vinculo) => FindAluno(alunos, v.alunoId), Filter(vs, (v: Vinculo) => v.tipo == tipo && RefersTo(v.pessoaId, id))))
    decreases |vs|
  {
    if vs != [] {
      var keep := (v: Vinculo) => v.tipo == tipo && RefersTo(v.pessoaId, id);
      var find := (v: Vinculo) => FindAluno(alunos, v.alunoId);
      var init, last := vs[..|vs| - 1], vs[|vs| - 1];
      assert vs == init + [last];
      LinkedAlunosAlongIsPipeline(tipo, id, init, alunos);
      FilterConcat(init, [last], keep);
      MapConcat(find, Filter(init, keep), Filter([last], keep));
      SomesConcat(Map(find, Filter(init, keep)), Map(find, Filter([last], keep)));
      OneLinkPipeline(tipo, id, last, alunos);
    }
  }

  lemma OneLinkPipeline(tipo: TipoVinculo, id: nat, link: Vinculo, alunos: seq<Aluno>)
    ensures LinkedAluno(tipo, id, link, alunos) ==
      Somes(Map((v: Vinculo) => FindAluno(alunos, v.alunoId), Filter([link], (v: Vinculo) => v.tipo == tipo && RefersTo(v.pessoaId, id))))
  {
  }

  /** Taking the links one at a time gives the list the source's filter/map/filter
      pipeline builds. */
  lemma LinkedAlunosIsPipeline(tipo: TipoVinculo, id: nat, d: AppData)
    ensures LinkedAlunos(tipo, id, d) == LinkedAlunosPipeline(tipo, id, d)
  {
    LinkedAlunosAlongIsPipeline(tipo, id, d.vinculos, d.alunos);
  }

  lemma {:induction false} GuardiansAlongIsPipeline(id: nat, vs: seq<Vinculo>, d: AppData)
    ensures GuardiansAlong(id, vs, d) ==
      Somes(Map((v: Vinculo) => EntryOf(v, d), Filter(vs, (v: Vinculo) => RefersTo(v.alunoId, id))))
    decreases |vs|
  {
    if vs != [] {
      var keep := (v: Vinculo) => RefersTo(v.alunoId, id);
      var entry := (v: Vinculo) => EntryOf(v, d);
      var init, last := vs[..|vs| - 1], vs[|vs| - 1];
      assert vs == init + [last];
      GuardiansAlongIsPipeline(id, init, d);
      FilterConcat(init, [last], keep);
      MapConcat(entry, Filter(init, keep), Filter([last], keep));
      SomesConcat(Map(entry, Filter(init, keep)), Map(entry, Filter([last], keep)));
      OneGuardianPipeline(id, last, d);
    }
  }

  lemma OneGuardianPipeline(id: nat, link: Vinculo, d: AppData)
    ensures GuardianOfLink(id, link, d) ==
      Somes(Map((v: Vinculo) => EntryOf(v, d), Filter([link], (v: Vinculo) => RefersTo(v.alunoId, id))))
  {
  }

  /** The same for a student's guardian list. */
  lemma StudentGuardiansIsPipeline(a: Aluno, d: AppData)
    ensures StudentGuardians(a, d) == StudentGuardiansPipeline(a, d)
  {
    GuardiansAlongIsPipeline(a.id, d.vinculos, d);
  }

  /** Every linked student is one of the students and comes from a link of that kind that
      names both the person and the student. */
  lemma {:induction false} LinkedAlunosAlongFromLinks(tipo: TipoVinculo, id: nat, vs: seq<Vinculo>, alunos: seq<Aluno>)
    ensures forall a :: a in LinkedAlunosAlong(tipo, id, vs, alunos) ==>
      a in alunos && exists v :: v in vs && v.tipo == tipo && RefersTo(v.pessoaId, id) && RefersTo(v.alunoId, a.id)
    decreases |vs|
  {
    if vs != [] {
      var init, last := vs[..|vs| - 1], vs[|vs| - 1];
      LinkedAlunosAlongFromLinks(tipo, id, init, alunos);
      forall a | a in LinkedAlunosAlong(tipo, id, vs, alunos)
        ensures a in alunos && exists v :: v in vs && v.tipo == tipo && RefersTo(v.pessoaId, id) && RefersTo(v.alunoId, a.id)
      {
        if a in LinkedAlunosAlong(tipo, id, init, alunos) {
          var v :| v in init && v.tipo == tipo && RefersTo(v.pessoaId, id) && RefersTo(v.alunoId, a.id);
          assert v in vs;
        } else {
          assert a in LinkedAluno(tipo, id, last, alunos);
          assert FindAluno(alunos, last.alunoId) == Some(a);
          assert last in vs;
        }
      }
    }
  }

  /** Every guardian entry of student `id` is the entry of a link that names the student. */
  lemma {:induction false} GuardiansAlongFromLinks(id: nat, vs: seq<Vinculo>, d: AppData)
    ensures forall g :: g in GuardiansAlong(id, vs, d) ==>
      exists v :: v in vs && RefersTo(v.alunoId, id) && EntryOf(v, d) == Some(g)
    decreases |vs|
  {
    if vs != [] {
      var init, last := vs[..|vs| - 1], vs[|vs| - 1];
      GuardiansAlongFromLinks(id, init, d);
      forall g | g in GuardiansAlong(id, vs, d)
        ensures exists v :: v in vs && RefersTo(v.alunoId, id) && EntryOf(v, d) == Some(g)
      {
        if g in GuardiansAlong(id, init, d) {
          var v :| v in init && RefersTo(v.alunoId, id) && EntryOf(v, d) == Some(g);
          assert v in vs;
        } else {
          assert g in GuardianOfLink(id, last, d);
          assert last in vs;
        }
      }
    }
  }

  /** A guardian link resolves to the first guardian with the referenced id and a staff
      link to the first staff member with it; the entry carries that person's CPF and the
      label `capitalizeParentesco` gives the relationship. */
  lemma EntryOfResolves(v: Vinculo, d: AppData)
    ensures v.tipo == VinculoResponsavel ==>
      (EntryOf(v, d).Some? <==> exists i :: 0 <= i < |d.responsaveis| && RefersTo(v.pessoaId, d.responsaveis[i].id))
    ensures v.tipo == VinculoFuncionario ==>
      (EntryOf(v, d).Some? <==> exists i :: 0 <= i < |d.funcionarios| && RefersTo(v.pessoaId, d.funcionarios[i].id))
    ensures EntryOf(v, d).Some? ==> EntryOf(v, d).value.parentesco == CapitalizeParentesco(v.parentesco)
    ensures v.tipo == VinculoResponsavel && EntryOf(v, d).Some? ==>
      exists i :: 0 <= i < |d.responsaveis| && RefersTo(v.pessoaId, d.responsaveis[i].id)
        && (forall j :: 0 <= j < i ==> !RefersTo(v.pessoaId, d.responsaveis[j].id))
        && EntryOf(v, d).value.cpf == d.responsaveis[i].cpf
    ensures v.tipo == VinculoFuncionario && EntryOf(v, d).Some? ==>
      exists i :: 0 <= i < |d.funcionarios| && RefersTo(v.pessoaId, d.funcionarios[i].id)
        && (forall j :: 0 <= j < i ==> !RefersTo(v.pessoaId, d.funcionarios[j].id))
        && EntryOf(v, d).value.cpf == d.funcionarios[i].cpf
  {
  }

  // ---------------------------------------------------------------------------
  // The JSON cells read back

  /** The cell of linked students is empty exactly when there is none, never `[]`;
      otherwise it parses back to one `{matricula}` object per student, in order. */
  lemma MatriculasJsonReadsBack(alunos: seq<Aluno>)
    ensures MatriculasJson(alunos) == "" <==> alunos == []
    ensures alunos != [] ==>
      && MatriculasJson(alunos)[0] == '['
      && Json.DecodeArray(MatriculasJson(alunos), MatriculaKeys).Some?
      && var objs := Json.DecodeArray(MatriculasJson(alunos), MatriculaKeys).value;
         |objs| == |alunos| && forall i :: 0 <= i < |alunos| ==> objs[i] == [alunos[i].matricula]
  {
    if alunos != [] {
      Json.ArrayDecodes(MatriculaKeys, MatriculaRows(alunos));
    }
  }

  /** The guardian-list cell is empty exactly when the list is, and otherwise parses back
      to one `{cpf, parentesco}` object per entry, in order. */
  lemma GuardiansJsonReadsBack(gs: seq<GuardianEntry>)
    ensures GuardiansJson(gs) == "" <==> gs == []
    ensures gs != [] ==>
      && GuardiansJson(gs)[0] == '['
      && Json.DecodeArray(GuardiansJson(gs), GuardianKeys).Some?
      && var objs := Json.DecodeArray(GuardiansJson(gs), GuardianKeys).value;
         |objs| == |gs| && forall i :: 0 <= i < |gs| ==> objs[i] == [gs[i].cpf, gs[i].parentesco]
  {
    if gs != [] {
      Json.ArrayDecodes(GuardianKeys, EntryRows(gs));
    }
  }

  // ---------------------------------------------------------------------------
  // End to end

  lemma GuardianLinkCell(ctx: ExportContext, r: Responsavel, d: AppData)
    ensures FieldText(GuardianRow(ctx, r, d), VinculosResponsavelAlunos) == MatriculasJson(LinkedAlunos(VinculoResponsavel, r.id, d))
  {
  }

  lemma StudentLinkCell(ctx: ExportContext, a: Aluno, d: AppData)
    ensures FieldText(StudentRow(ctx, a, d), ResponsaveisDoAluno) == GuardiansJson(StudentGuardians(a, d))
  {
    StudentRowWithCell(ctx, a, GuardiansJson(StudentGuardians(a, d)));
  }

  lemma StudentRowWithCell(ctx: ExportContext, a: Aluno, responsaveis: string)
    ensures FieldText(StudentRowWith(ctx, a, responsaveis), ResponsaveisDoAluno) == responsaveis
  {
  }

  lemma StaffLinkCell(ctx: ExportContext, f: Funcionario, d: AppData)
    ensures FieldText(StaffRow(ctx, f, d), AlunosFuncionario) == MatriculasJson(LinkedAlunos(VinculoFuncionario, f.id, d))
  {
  }

  /** Reading the exported text back, the record of the `i`-th guardian (after the header)
      holds in its link column the students linked to that guardian. */
  lemma ExportedGuardianLinks(ctx: ExportContext, d: AppData, i: nat)
    requires i < |d.responsaveis|
    ensures var recs := CsvParse.ParseDocument(ConverterParaCsv(ExportRows(ctx, d)));
      && recs.Some? && |recs.value| == 1 + |d.responsaveis| + |d.alunos| + |d.funcionarios|
      && |recs.value[1 + i]| == |Headers|
      && recs.value[1 + i][11] == MatriculasJson(LinkedAlunos(VinculoResponsavel, d.responsaveis[i].id, d))
  {
    var rows := ExportRows(ctx, d);
    ExportRowsLayout(ctx, d);
    JsonColumnPositions();
    CsvParse.ReadBackField(rows, i, 11);
    assert rows[i] == GuardianRow(ctx, d.responsaveis[i], d);
    GuardianLinkCell(ctx, d.responsaveis[i], d);
  }

  lemma StudentRowAt(ctx: ExportContext, d: AppData, i: nat)
    requires i < |d.alunos|
    ensures |ExportRows(ctx, d)| == |d.responsaveis| + |d.alunos| + |d.funcionarios|
    ensures ExportRows(ctx, d)[|d.responsaveis| + i] == StudentRow(ctx, d.alunos[i], d)
  {
    ConcatIndex(GuardianRows(ctx, d), StudentRows(ctx, d), StaffRows(ctx, d), i);
  }

  /** Reading the exported text back, the record of row `k`, which is a student's (after
      the header and the guardians), holds in its link column the student's guardians. */
  lemma ExportedStudentLinks(ctx: ExportContext, d: AppData, k: nat)
    requires |d.responsaveis| <= k < |d.responsaveis| + |d.alunos|
    ensures var recs := CsvParse.ParseDocument(ConverterParaCsv(ExportRows(ctx, d)));
      var a := d.alunos[k - |d.responsaveis|];
      && recs.Some? && |recs.value| == 1 + |d.responsaveis| + |d.alunos| + |d.funcionarios|
      && |recs.value[1 + k]| == |Headers|
      && recs.value[1 + k][6] == GuardiansJson(StudentGuardians(a, d))
  {
    var i := k - |d.responsaveis|;
    StudentRowAt(ctx, d, i);
    assert |d.responsaveis| + i == k;
    JsonColumnPositions();
    StudentLinkCell(ctx, d.alunos[i], d);
    CsvParse.ReadBackField(ExportRows(ctx, d), k, 6);
  }

  lemma StaffRowAt(ctx: ExportContext, d: AppData, i: nat)
    requires i < |d.funcionarios|
    ensures |ExportRows(ctx, d)| == |d.responsaveis| + |d.alunos| + |d.funcionarios|
    ensures ExportRows(ctx, d)[|d.responsaveis| + |d.alunos| + i] == StaffRow(ctx, d.funcionarios[i], d)
  {
    ConcatIndex(GuardianRows(ctx, d), StudentRows(ctx, d), StaffRows(ctx, d), i);
  }

  /** The record of the staff member at row `k` (after the guardians and the students)
      holds in its link column the students linked to that staff member. */
  lemma ExportedStaffLinks(ctx: ExportContext, d: AppData, k: nat)
    requires |d.responsaveis| + |d.alunos| <= k < |d.responsaveis| + |d.alunos| + |d.funcionarios|
    ensures var recs := CsvParse.ParseDocument(ConverterParaCsv(ExportRows(ctx, d)));
      var f := d.funcionarios[k - |d.responsaveis| - |d.alunos|];
      && recs.Some? && |recs.value| == 1 + |d.responsaveis| + |d.alunos| + |d.funcionarios|
      && |recs.value[1 + k]| == |Headers|
      && recs.value[1 + k][21] == MatriculasJson(LinkedAlunos(VinculoFuncionario, f.id, d))
  {
    var i := k - |d.responsaveis| - |d.alunos|;
    StaffRowAt(ctx, d, i);
    assert |d.responsaveis| + |d.alunos| + i == k;
    JsonColumnPositions();
    StaffLinkCell(ctx, d.funcionarios[i], d);
    CsvParse.ReadBackField(ExportRows(ctx, d), k, 21);
  }
}
