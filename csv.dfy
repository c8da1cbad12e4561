/** `converterParaCSV`: the fixed 23-column header, the quoting of each cell and the
    joining of lines. Cells are quoted as in rules 6 and 7 of section 2 of RFC 4180 (wrap
    in `"`, double every inner `"`); unlike rule 1 of that section, lines are separated by
    a bare line feed. */
module Csv {
  import opened Seqs

  /** The columns of the export, in header order. */
  datatype Column =
    | LoteId | ProcessoId | CategoriaEntrada | NomeEstudante | MatriculaEstudante
    | SerieTurma | ResponsaveisDoAluno | NomeResponsavel | CpfResponsavel
    | WhatsappResponsavel | EmailResponsavel | VinculosResponsavelAlunos
    | NomeFuncionario | CpfFuncionario | WhatsappFuncionario | EmailFuncionario
    | MatriculaServidor | Cargo | AtribuicaoCargo | AppAutorizado
    | FuncionarioTambemResponsavel | AlunosFuncionario | OrigemDados

  const Headers: seq<Column> := [
    LoteId, ProcessoId, CategoriaEntrada, NomeEstudante, MatriculaEstudante,
    SerieTurma, ResponsaveisDoAluno, NomeResponsavel, CpfResponsavel,
    WhatsappResponsavel, EmailResponsavel, VinculosResponsavelAlunos,
    NomeFuncionario, CpfFuncionario, WhatsappFuncionario, EmailFuncionario,
    MatriculaServidor, Cargo, AtribuicaoCargo, AppAutorizado,
    FuncionarioTambemResponsavel, AlunosFuncionario, OrigemDados]

  /** The header name of a column, as the import pipeline expects it. */
  function ColumnName(c: Column): string
  {
    match c
    case LoteId => "lote_id"
    case ProcessoId => "processo_id"
    case CategoriaEntrada => "categoria_entrada"
    case NomeEstudante => "nome_estudante"
    case MatriculaEstudante => "matricula_estudante"
    case SerieTurma => "serie_turma"
    case ResponsaveisDoAluno => "responsaveis_do_aluno"
    case NomeResponsavel => "nome_responsavel"
    case CpfResponsavel => "cpf_responsavel"
    case WhatsappResponsavel => "whatsapp_responsavel"
    case EmailResponsavel => "email_responsavel"
    case VinculosResponsavelAlunos => "vinculos_responsavel_alunos"
    case NomeFuncionario => "nome_funcionario"
    case CpfFuncionario => "cpf_funcionario"
    case WhatsappFuncionario => "whatsapp_funcionario"
    case EmailFuncionario => "email_funcionario"
    case MatriculaServidor => "matricula_servidor"
    case Cargo => "cargo"
    case AtribuicaoCargo => "atribuicao_cargo"
    case AppAutorizado => "app_autorizado"
    case FuncionarioTambemResponsavel => "funcionario_tambem_responsavel"
    case AlunosFuncionario => "alunos_funcionario"
    case OrigemDados => "origem_dados"
  }

  /** Where the three JSON columns sit in the header. */
  lemma JsonColumnPositions()
    ensures Headers[6] == ResponsaveisDoAluno && Headers[11] == VinculosResponsavelAlunos
    ensures Headers[21] == AlunosFuncionario
  {
  }

  /** One export row: the columns the row sets, with their text. Columns a row does not
      set are absent, as properties missing from a JavaScript object. */
  type Row = map<Column, string>

  /** `String(row[header] ?? '')`. */
  function FieldText(row: Row, c: Column): string
  {
    if c in row then row[c] else ""
  }

  /** The three columns that hold JSON arrays. */
  predicate IsJsonColumn(c: Column)
  {
    c == ResponsaveisDoAluno || c == VinculosResponsavelAlunos || c == AlunosFuncionario
  }

  /** The text contains a comma, a double quote or a line feed. */
  predicate HasSpecial(s: string)
  {
    ',' in s || '"' in s || '\n' in s
  }

  /** `s.replace(/"/g, '""')`. */
  function DoubleQuotes(s: string): string
  {
    if s == [] then [] else (if s[0] == '"' then "\"\"" else [s[0]]) + DoubleQuotes(s[1..])
  }

  /** `"${s.replace(/"/g, '""')}"`. */
  function QuotedCell(s: string): string
  {
    "\"" + DoubleQuotes(s) + "\""
  }

  /** The cell for column `c` of `row`: a JSON column whose text starts with `[` is always
      quoted; any other text is quoted only when it contains a comma, a double quote or a
      line feed. */
  function Cell(c: Column, row: Row): string
  {
    var v := FieldText(row, c);
    if IsJsonColumn(c) && v != [] && v[0] == '[' then QuotedCell(v)
    else if HasSpecial(v) then QuotedCell(v)
    else v
  }

  function HeaderNames(): seq<string>
  {
    Map(ColumnName, Headers)
  }

  /** `headers.join(',')`. */
  function HeaderLine(): string
  {
    Join(HeaderNames(), ",")
  }

  /** `headers.map(header => …)`: the cells of one row, in header order. */
  function Cells(row: Row): seq<string>
  {
    Map((c: Column) => Cell(c, row), Headers)
  }

  /** One data line: the cells of a row joined by commas. */
  function RowLine(row: Row): string
  {
    Join(Cells(row), ",")
  }

  /** `converterParaCSV`: the header line, then one line per row, joined by line feeds.
      Without rows the result is the header line alone. */
  function ConverterParaCsv(rows: seq<Row>): string
  {
    if |rows| == 0 then HeaderLine()
    else Join([HeaderLine()] + Map(RowLine, rows), "\n")
  }

  // ---------------------------------------------------------------------------
  // Undoing the quoting of one cell

  /** Turns every `""` back into `"`. */
  function UndoubleQuotes(s: string): string
    decreases |s|
  {
    if s == [] then []
    else if |s| >= 2 && s[0] == '"' && s[1] == '"' then "\"" + UndoubleQuotes(s[2..])
    else [s[0]] + UndoubleQuotes(s[1..])
  }

  predicate IsQuoted(cell: string)
  {
    |cell| >= 2 && cell[0] == '"' && cell[|cell| - 1] == '"'
  }

  /** Strips the surrounding quotes of a quoted cell and un-doubles the inner quotes. */
  function Unquote(cell: string): string
    requires IsQuoted(cell)
  {
    UndoubleQuotes(cell[1..|cell| - 1])
  }

  lemma {:induction false} UndoubleDoubled(s: string)
    ensures UndoubleQuotes(DoubleQuotes(s)) == s
    decreases |s|
  {
    if s != [] {
      UndoubleDoubled(s[1..]);
      var d := DoubleQuotes(s[1..]);
      if s[0] == '"' {
        assert DoubleQuotes(s) == "\"\"" + d;
        assert ("\"\"" + d)[2..] == d;
      } else {
        assert DoubleQuotes(s) == [s[0]] + d;
        assert ([s[0]] + d)[1..] == d;
      }
    }
  }

  /** Un-doubling a quoted cell gives back the text it was made from. */
  lemma UnquoteQuoted(s: string)
    ensures IsQuoted(QuotedCell(s)) && Unquote(QuotedCell(s)) == s
  {
    var q := QuotedCell(s);
    assert q[1..|q| - 1] == DoubleQuotes(s);
    UndoubleDoubled(s);
  }

  /** Quoting of one cell: the cell is quoted iff its text contains a comma, a double
      quote or a line feed, or it is one of the JSON columns and its text starts with `[`.
      A quoted cell un-quotes to the text; an unquoted cell is the text itself. */
  lemma CellQuoting(c: Column, row: Row)
    ensures var v := FieldText(row, c); var r := Cell(c, row);
      && (IsQuoted(r) <==> HasSpecial(v) || (IsJsonColumn(c) && v != [] && v[0] == '['))
      && (IsQuoted(r) ==> Unquote(r) == v)
      && (!IsQuoted(r) ==> r == v)
  {
    var v := FieldText(row, c);
    UnquoteQuoted(v);
  }

  /** A cell never ends with a line feed: a text holding one is quoted, and a quoted cell
      ends with the closing quote. */
  lemma CellEnd(c: Column, row: Row)
    ensures var t := Cell(c, row); t == [] || t[|t| - 1] != '\n'
  {
  }

  /** A data line is never empty and never ends with a line feed: it ends with its last
      cell, after a comma. */
  lemma RowLineEnd(row: Row)
    ensures var t := RowLine(row); t != [] && t[|t| - 1] != '\n'
  {
    var cells := Cells(row);
    JoinLast(cells, ",");
    CellEnd(Headers[|Headers| - 1], row);
  }
}
