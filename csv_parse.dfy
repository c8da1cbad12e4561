/** A reference reader for the text `converterParaCSV` writes: fields are unquoted text
    without commas, quotes or line feeds, or quoted text with doubled inner quotes (section 2
    of RFC 4180, rules 5 to 7); records are separated by a line feed. The round-trip lemma
    at the end shows that the export loses nothing: every cell reads back as the text it
    was made from. */
module CsvParse {
  import opened Wrappers
  import opened Seqs
  import opened Csv

  /** Reads the inside of a quoted field, just after its opening quote: a doubled quote
      stands for one quote, a single quote closes the field. Returns the field's text and
      what follows the closing quote. */
  function ParseQuoted(s: string): (r: Option<(string, string)>)
    ensures r.Some? ==> |r.value.1| < |s|
    decreases |s|
  {
    if s == [] then None
    else if s[0] == '"' then
      if |s| >= 2 && s[1] == '"' then
        var q :- ParseQuoted(s[2..]);
        Some(("\"" + q.0, q.1))
      else Some(("", s[1..]))
    else
      var q :- ParseQuoted(s[1..]);
      Some(([s[0]] + q.0, q.1))
  }

  /** Reads an unquoted field: everything up to the next comma or line feed. */
  function ParseUnquoted(s: string): (r: (string, string))
    ensures r.0 + r.1 == s
    ensures r.1 == [] || r.1[0] == ',' || r.1[0] == '\n'
    ensures forall i :: 0 <= i < |r.0| ==> r.0[i] != ',' && r.0[i] != '\n'
  {
    if s == [] || s[0] == ',' || s[0] == '\n' then ("", s)
    else
      var q := ParseUnquoted(s[1..]);
      ([s[0]] + q.0, q.1)
  }

  function ParseField(s: string): (r: Option<(string, string)>)
    ensures r.Some? ==> |r.value.1| <= |s|
  {
    if s != [] && s[0] == '"' then ParseQuoted(s[1..])
    else Some(ParseUnquoted(s))
  }

  /** Reads the fields of one record and what follows its line feed. */
  function ParseRecord(s: string): (r: Option<(seq<string>, string)>)
    ensures r.Some? ==> |r.value.1| < |s| || (s == [] && r.value.1 == [])
    decreases |s|
  {
    var f :- ParseField(s);
    if f.1 == [] then Some(([f.0], []))
    else if f.1[0] == ',' then
      var more :- ParseRecord(f.1[1..]);
      Some(([f.0] + more.0, more.1))
    else if f.1[0] == '\n' then Some(([f.0], f.1[1..]))
    else None
  }

  /** Reads all records of a document. */
  function ParseDocument(s: string): Option<seq<seq<string>>>
    decreases |s|
  {
    if s == [] then Some([])
    else
      var r :- ParseRecord(s);
      var more :- ParseDocument(r.1);
      Some([r.0] + more)
  }

  // ---------------------------------------------------------------------------
  // Round trip

  /** The cell text is how the writer puts down `val`: quoted, or bare when it needs no
      quoting. */
  predicate FieldEncodes(cell: string, val: string)
  {
    cell == QuotedCell(val) || (cell == val && !HasSpecial(val))
  }

  /** What may follow a field: nothing, a comma or a line feed. */
  predicate EndsField(t: string)
  {
    t == [] || t[0] == ',' || t[0] == '\n'
  }

  /** A line of at least two cells, each encoding the matching value. */
  predicate LineEncodes(cells: seq<string>, vals: seq<string>)
  {
    |cells| == |vals| >= 2 && forall j :: 0 <= j < |cells| ==> FieldEncodes(cells[j], vals[j])
  }

  lemma {:induction false} QuotedBodyDecodes(v: string, t: string)
    requires t == [] || t[0] != '"'
    ensures ParseQuoted(DoubleQuotes(v) + "\"" + t) == Some((v, t))
    decreases |v|
  {
    if v == [] {
      assert DoubleQuotes(v) + "\"" + t == "\"" + t;
    } else {
      QuotedBodyDecodes(v[1..], t);
      var rest := DoubleQuotes(v[1..]) + "\"" + t;
      DoubleQuotesFirst(v, t);
      if v[0] == '"' {
        DoubledQuoteDecodes(rest, v[1..], t);
        assert "\"" + v[1..] == v;
      } else {
        QuotedCharDecodes(v[0], rest, v[1..], t);
        assert [v[0]] + v[1..] == v;
      }
    }
  }

  lemma DoubleQuotesFirst(v: string, t: string)
    requires v != []
    ensures DoubleQuotes(v) + "\"" + t ==
      (if v[0] == '"' then "\"\"" else [v[0]]) + (DoubleQuotes(v[1..]) + "\"" + t)
  {
  }

  /** A doubled quote inside a quoted field reads as one quote. */
  lemma DoubledQuoteDecodes(rest: string, v: string, t: string)
    requires ParseQuoted(rest) == Some((v, t))
    ensures ParseQuoted("\"\"" + rest) == Some(("\"" + v, t))
  {
    assert ("\"\"" + rest)[2..] == rest;
  }

  /** Any other character inside a quoted field reads as itself. */
  lemma QuotedCharDecodes(c: char, rest: string, v: string, t: string)
    requires c != '"' && ParseQuoted(rest) == Some((v, t))
    ensures ParseQuoted([c] + rest) == Some(([c] + v, t))
  {
    assert ([c] + rest)[1..] == rest;
  }

  lemma {:induction false} UnquotedDecodes(v: string, t: string)
    requires !HasSpecial(v) && EndsField(t)
    ensures ParseUnquoted(v + t) == (v, t)
    decreases |v|
  {
    if v == [] {
      assert v + t == t;
    } else {
      assert v[0] in v;
      assert (v + t)[1..] == v[1..] + t;
      assert !HasSpecial(v[1..]) by {
        forall c | c in v[1..] ensures c in v { }
      }
      UnquotedDecodes(v[1..], t);
      assert [v[0]] + v[1..] == v;
    }
  }

  lemma FieldDecodes(cell: string, val: string, t: string)
    requires FieldEncodes(cell, val) && EndsField(t)
    ensures ParseField(cell + t) == Some((val, t))
  {
    if cell == QuotedCell(val) {
      assert cell + t == "\"" + (DoubleQuotes(val) + "\"" + t);
      QuotedBodyDecodes(val, t);
    } else {
      if val != [] {
        assert val[0] in val;
      } else {
        assert cell + t == t;
      }
      UnquotedDecodes(val, t);
    }
  }

  lemma JoinedThenLater(parts: seq<string>, sep: string, close: string)
    requires parts != []
    ensures JoinedThen(parts, sep, false, close) == sep + JoinedThen(parts, sep, true, close)
  {
    var x := parts[0] + JoinedThen(parts[1..], sep, false, close);
    assert "" + x == x;
  }

  /** One record reads back field by field, and the reader stops after its line feed. */
  lemma {:induction false} RecordDecodes(cells: seq<string>, vals: seq<string>, close: string)
    requires |cells| == |vals| >= 1
    requires forall j :: 0 <= j < |cells| ==> FieldEncodes(cells[j], vals[j])
    requires close == [] || close[0] == '\n'
    ensures ParseRecord(JoinedThen(cells, ",", true, close))
      == Some((vals, if close == [] then [] else close[1..]))
    decreases |cells|
  {
    var rest := JoinedThen(cells[1..], ",", false, close);
    var text := JoinedThen(cells, ",", true, close);
    assert text == cells[0] + rest by {
      assert "" + (cells[0] + rest) == cells[0] + rest;
    }
    if |cells| == 1 {
      assert rest == close;
      FieldDecodes(cells[0], vals[0], close);
      LastFieldDecodes(text, vals[0], close);
      assert [vals[0]] == vals;
    } else {
      JoinedThenLater(cells[1..], ",", close);
      var more := JoinedThen(cells[1..], ",", true, close);
      assert rest == "," + more;
      FieldDecodes(cells[0], vals[0], rest);
      assert ("," + more)[1..] == more;
      RecordDecodes(cells[1..], vals[1..], close);
      NextFieldDecodes(text, vals[0], rest, vals[1..], if close == [] then [] else close[1..]);
      assert [vals[0]] + vals[1..] == vals;
    }
  }

  /** The last field of a record: the record ends with the text or with a line feed. */
  lemma LastFieldDecodes(s: string, v: string, close: string)
    requires ParseField(s) == Some((v, close)) && (close == [] || close[0] == '\n')
    ensures ParseRecord(s) == Some(([v], if close == [] then [] else close[1..]))
  {
  }

  /** A field followed by a comma: the reader goes on with the next field. */
  lemma NextFieldDecodes(s: string, v: string, rest: string, more: seq<string>, after: string)
    requires ParseField(s) == Some((v, rest)) && rest != [] && rest[0] == ','
    requires ParseRecord(rest[1..]) == Some((more, after))
    ensures ParseRecord(s) == Some(([v] + more, after))
  {
  }

  /** A line of two or more cells is never empty: it holds a comma. */
  lemma JoinNonEmpty(parts: seq<string>)
    requires |parts| >= 2
    ensures Join(parts, ",") != []
  {
  }

  /** A whole document reads back line by line. */
  lemma {:induction false} DocumentDecodes(lines: seq<seq<string>>, vals: seq<seq<string>>, texts: seq<string>)
    requires |lines| == |vals| == |texts| >= 1
    requires forall i :: 0 <= i < |lines| ==> LineEncodes(lines[i], vals[i]) && texts[i] == Join(lines[i], ",")
    ensures ParseDocument(JoinedThen(texts, "\n", true, "")) == Some(vals)
    decreases |texts|
  {
    var rest := JoinedThen(texts[1..], "\n", false, "");
    var text := JoinedThen(texts, "\n", true, "");
    assert text == texts[0] + rest by {
      assert "" + (texts[0] + rest) == texts[0] + rest;
    }
    assert LineEncodes(lines[0], vals[0]);
    JoinNonEmpty(lines[0]);
    JoinIsJoinedThen(lines[0], ",", rest);
    if |texts| == 1 {
      assert rest == "";
      RecordDecodes(lines[0], vals[0], "");
      assert text != [];
      assert ParseRecord(text) == Some((vals[0], []));
      assert ParseDocument([]) == Some([]);
      assert [vals[0]] + [] == [vals[0]];
      assert ParseDocument(text) == Some([vals[0]]);
      assert [vals[0]] == vals;
    } else {
      JoinedThenLater(texts[1..], "\n", "");
      var more := JoinedThen(texts[1..], "\n", true, "");
      assert rest == "\n" + more;
      RecordDecodes(lines[0], vals[0], rest);
      assert ("\n" + more)[1..] == more;
      DocumentDecodes(lines[1..], vals[1..], texts[1..]);
      assert [vals[0]] + vals[1..] == vals;
    }
  }

  /** The values of a row in header order, absent columns read as empty text. */
  function RowFields(row: Row): (r: seq<string>)
    ensures |r| == |Headers|
  {
    Map((c: Column) => FieldText(row, c), Headers)
  }

  /** No comma, double quote or line feed anywhere in the text. */
  predicate Plain(s: string)
  {
    forall i :: 0 <= i < |s| ==> s[i] != ',' && s[i] != '"' && s[i] != '\n'
  }

  lemma StudentKeyColumnsPlain(c: Column)
    requires c == LoteId || c == ProcessoId || c == CategoriaEntrada
    ensures Plain(ColumnName(c))
  {
    if c == LoteId { assert Plain("lote_id"); }
    else if c == ProcessoId { assert Plain("processo_id"); }
  }

  lemma StudentColumnsPlain(c: Column)
    requires c == NomeEstudante || c == MatriculaEstudante || c == SerieTurma
    ensures Plain(ColumnName(c))
  {
    if c == NomeEstudante { assert Plain("nome_estudante"); }
    else if c == MatriculaEstudante { assert Plain("matricula_estudante"); }
  }

  lemma GuardianIdColumnsPlain(c: Column)
    requires c == ResponsaveisDoAluno || c == NomeResponsavel || c == CpfResponsavel
    ensures Plain(ColumnName(c))
  {
    if c == ResponsaveisDoAluno { assert Plain("responsaveis_do_aluno"); }
    else if c == NomeResponsavel { assert Plain("nome_responsavel"); }
  }

  lemma GuardianContactColumnsPlain(c: Column)
    requires c == WhatsappResponsavel || c == EmailResponsavel || c == VinculosResponsavelAlunos
    ensures Plain(ColumnName(c))
  {
    if c == WhatsappResponsavel { assert Plain("whatsapp_responsavel"); }
    else if c == EmailResponsavel { assert Plain("email_responsavel"); }
  }

  lemma StaffIdColumnsPlain(c: Column)
    requires c == NomeFuncionario || c == CpfFuncionario || c == WhatsappFuncionario
    ensures Plain(ColumnName(c))
  {
    if c == NomeFuncionario { assert Plain("nome_funcionario"); }
    else if c == CpfFuncionario { assert Plain("cpf_funcionario"); }
  }

  lemma StaffJobColumnsPlain(c: Column)
    requires c == EmailFuncionario || c == MatriculaServidor || c == Cargo
    ensures Plain(ColumnName(c))
  {
    if c == EmailFuncionario { assert Plain("email_funcionario"); }
    else if c == MatriculaServidor { assert Plain("matricula_servidor"); }
  }

  lemma StaffFlagColumnsPlain(c: Column)
    requires c == AtribuicaoCargo || c == AppAutorizado || c == FuncionarioTambemResponsavel
    ensures Plain(ColumnName(c))
  {
    if c == AtribuicaoCargo { assert Plain("atribuicao_cargo"); }
    else if c == AppAutorizado { assert Plain("app_autorizado"); }
  }

  lemma LastColumnsPlain(c: Column)
    requires c == AlunosFuncionario || c == OrigemDados
    ensures Plain(ColumnName(c))
  {
    if c == AlunosFuncionario { assert Plain("alunos_funcionario"); }
  }

  /** The header names need no quoting. */
  lemma ColumnNamePlain(c: Column)
    ensures !HasSpecial(ColumnName(c))
  {
    ColumnNameIsPlain(c);
    PlainHasNoSpecial(ColumnName(c));
  }

  lemma PlainHasNoSpecial(s: string)
    requires Plain(s)
    ensures !HasSpecial(s)
  {
  }

  lemma ColumnNameIsPlain(c: Column)
    ensures Plain(ColumnName(c))
  {
    if c == LoteId || c == ProcessoId || c == CategoriaEntrada {
      StudentKeyColumnsPlain(c);
    } else if c == NomeEstudante || c == MatriculaEstudante || c == SerieTurma {
      StudentColumnsPlain(c);
    } else if c == ResponsaveisDoAluno || c == NomeResponsavel || c == CpfResponsavel {
      GuardianIdColumnsPlain(c);
    } else if c == WhatsappResponsavel || c == EmailResponsavel || c == VinculosResponsavelAlunos {
      GuardianContactColumnsPlain(c);
    } else if c == NomeFuncionario || c == CpfFuncionario || c == WhatsappFuncionario {
      StaffIdColumnsPlain(c);
    } else if c == EmailFuncionario || c == MatriculaServidor || c == Cargo {
      StaffJobColumnsPlain(c);
    } else if c == AtribuicaoCargo || c == AppAutorizado || c == FuncionarioTambemResponsavel {
      StaffFlagColumnsPlain(c);
    } else {
      LastColumnsPlain(c);
    }
  }

  /** The exported text reads back as the header names followed by every row's values:
      whatever the fields hold (commas, quotes, line feeds, JSON), no cell spills into
      another and no text is lost. */
  lemma ConverterParaCsvRoundTrip(rows: seq<Row>)
    ensures ParseDocument(ConverterParaCsv(rows)) == Some([HeaderNames()] + Map(RowFields, rows))
  {
    var lines := [HeaderNames()] + Map(Cells, rows);
    var vals := [HeaderNames()] + Map(RowFields, rows);
    var texts := [HeaderLine()] + Map(RowLine, rows);
    LinesEncode(rows, lines, vals, texts);
    JoinIsJoinedThen(texts, "\n", "");
    assert Join(texts, "\n") + "" == Join(texts, "\n");
    if |rows| == 0 {
      assert texts == [HeaderLine()];
    }
    DocumentDecodes(lines, vals, texts);
  }

  /** The text ends with its last line: it is never empty and never ends with a line
      feed, and without rows it is the header line alone, which holds no line feed. */
  lemma ConverterParaCsvEnd(rows: seq<Row>)
    ensures var t := ConverterParaCsv(rows); t != [] && t[|t| - 1] != '\n'
    ensures '\n' !in ConverterParaCsv([])
  {
    HeaderLineEnd();
    if |rows| > 0 {
      var last := RowLine(rows[|rows| - 1]);
      RowLineEnd(rows[|rows| - 1]);
      LinesEnd([HeaderLine()] + Map(RowLine, rows), last);
    }
  }

  /** Lines joined by line feeds end as the last line does. */
  lemma LinesEnd(texts: seq<string>, last: string)
    requires |texts| >= 2 && texts[|texts| - 1] == last
    requires last != [] && last[|last| - 1] != '\n'
    ensures var t := Join(texts, "\n"); t != [] && t[|t| - 1] != '\n'
  {
    JoinLast(texts, "\n");
  }

  /** The header line is not empty and holds no line feed. */
  lemma HeaderLineEnd()
    ensures HeaderLine() != [] && '\n' !in HeaderLine()
  {
    var names := HeaderNames();
    forall i | 0 <= i < |names| ensures '\n' !in names[i] {
      ColumnNamePlain(Headers[i]);
    }
    JoinAvoids(names, ",", '\n');
    JoinLast(names, ",");
  }

  /** Line by line, the document's cells encode the header names and the rows' values. */
  lemma LinesEncode(rows: seq<Row>, lines: seq<seq<string>>, vals: seq<seq<string>>, texts: seq<string>)
    requires lines == [HeaderNames()] + Map(Cells, rows)
    requires vals == [HeaderNames()] + Map(RowFields, rows)
    requires texts == [HeaderLine()] + Map(RowLine, rows)
    ensures |lines| == |vals| == |texts| == 1 + |rows|
    ensures forall i :: 0 <= i < |lines| ==> LineEncodes(lines[i], vals[i]) && texts[i] == Join(lines[i], ",")
  {
    forall i | 0 <= i < |lines|
      ensures LineEncodes(lines[i], vals[i]) && texts[i] == Join(lines[i], ",")
    {
      if i == 0 {
        HeaderLineAt(rows, lines, vals, texts);
      } else {
        RowLineAt(rows, lines, vals, texts, i - 1);
      }
    }
  }

  lemma RowLineAt(rows: seq<Row>, lines: seq<seq<string>>, vals: seq<seq<string>>, texts: seq<string>, k: nat)
    requires lines == [HeaderNames()] + Map(Cells, rows)
    requires vals == [HeaderNames()] + Map(RowFields, rows)
    requires texts == [HeaderLine()] + Map(RowLine, rows)
    requires k < |rows|
    ensures |lines| == |vals| == |texts| == 1 + |rows|
    ensures LineEncodes(lines[1 + k], vals[1 + k]) && texts[1 + k] == Join(lines[1 + k], ",")
  {
    assert lines[1 + k] == Map(Cells, rows)[k] == Cells(rows[k]);
    assert vals[1 + k] == Map(RowFields, rows)[k] == RowFields(rows[k]);
    assert texts[1 + k] == Map(RowLine, rows)[k] == RowLine(rows[k]);
    RowLineEncodes(rows[k]);
  }

  lemma HeaderLineAt(rows: seq<Row>, lines: seq<seq<string>>, vals: seq<seq<string>>, texts: seq<string>)
    requires lines == [HeaderNames()] + Map(Cells, rows)
    requires vals == [HeaderNames()] + Map(RowFields, rows)
    requires texts == [HeaderLine()] + Map(RowLine, rows)
    ensures LineEncodes(lines[0], vals[0]) && texts[0] == Join(lines[0], ",")
  {
    assert lines[0] == HeaderNames() && vals[0] == HeaderNames() && texts[0] == HeaderLine();
    HeaderLineEncodes();
  }

  /** The header line is the header names, unquoted. */
  lemma HeaderLineEncodes()
    ensures LineEncodes(HeaderNames(), HeaderNames())
  {
    forall j | 0 <= j < |Headers| ensures FieldEncodes(HeaderNames()[j], HeaderNames()[j]) {
      ColumnNamePlain(Headers[j]);
    }
  }

  /** Each cell of a data line encodes the row's text for its column. */
  lemma RowLineEncodes(row: Row)
    ensures LineEncodes(Cells(row), RowFields(row))
  {
  }

  /** One cell of the read-back document: record `1 + i` is row `i`, and its field `j` is
      the row's text for the `j`-th header column. */
  lemma ReadBackField(rows: seq<Row>, i: nat, j: nat)
    requires i < |rows| && j < |Headers|
    ensures var recs := ParseDocument(ConverterParaCsv(rows));
      && recs.Some? && |recs.value| == 1 + |rows|
      && |recs.value[1 + i]| == |Headers|
      && recs.value[1 + i][j] == FieldText(rows[i], Headers[j])
  {
    ConverterParaCsvRoundTrip(rows);
    RecordAt(rows, i, j);
  }

  lemma RecordAt(rows: seq<Row>, i: nat, j: nat)
    requires i < |rows| && j < |Headers|
    ensures var vals := [HeaderNames()] + Map(RowFields, rows);
      |vals| == 1 + |rows| && |vals[1 + i]| == |Headers| && vals[1 + i][j] == FieldText(rows[i], Headers[j])
  {
    assert ([HeaderNames()] + Map(RowFields, rows))[1 + i] == RowFields(rows[i]);
  }
}
