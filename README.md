# School onboarding data — a Dafny model

The application collects a school's onboarding data in the browser. Staff register
students (*alunos*), guardians (*responsáveis*) and staff members (*funcionários*),
and link each guardian or staff member who has a child at the school to a student
(*vínculos*). They then export everything as one CSV sheet for a bulk import. The
sheet has 23 fixed columns and holds one row per guardian, per student and per staff
member, in that order. Each row's links are written as JSON arrays inside the cells.

This project models that core and proves properties of it:

- `types.dfy`: the four records and the store (`AppData`). It also models how link
  references are compared:
  - The store writes an id as `String(id)` (`DecimalString`).
  - The exporter and the link form read a reference back with `Number(ref)`
    (`NumberOf`, `RefersTo`).
  - Both agree on the canonical decimal strings the form produces
    (`ReferenceComparisonsAgree`).
- `formatters.dfy`: the CPF and telephone input masks. They are modelled as the
  regex rewrites they are (first-match search, `$`-anchored search). Each is proved
  equal to a plain reference mask, and each mask is proved to keep the digits, put
  the punctuation in place and be idempotent.
- `json.dfy`: the `JSON.stringify` output for arrays of flat string objects. String
  escaping follows section 7 of RFC 8259. A reference decoder is proved to read every
  encoded array back.
- `csv.dfy`: `converterParaCSV`. This covers the header line, the cell quoting rule
  (the three JSON columns, and cells holding `,` `"` or a line feed) and the line
  joining.
- `csv_parse.dfy`: a reference reader for quoted CSV, as in section 2 of RFC 4180,
  with line-feed record separators. It is proved to read back, from every generated
  sheet, the header names and every cell's original text.
- `exporter.dfy`: `capitalizeParentesco` and `exportDataAsCsv`.
  - The rows for each kind of person are built in the source's order.
  - The link joins go through `Number(...)` and `find`.
  - The method builds the rows with three loops and is proved to produce the
    specified sheet.
  - Lemmas relate the exported cells to the stored data and the links.
- `store.dfy`: the session state of `App.tsx` as a class:
  - adding records;
  - the confirmed removals with their link cascades;
  - the INEP code;
  - the export guard, with JavaScript's `trim`.
- `summary.dfy`: the completion percentage of the summary tab.
- `link_form.dfy`: the link form as a class. It covers the kind select, which clears
  the person; the submit check and its reset; the candidates each kind offers; the
  name lookups; and the relationship options.

`seqs.dfy` and `wrappers.dfy` hold the sequence helpers (`filter`, `find`, `map`,
`join`) and the `Option` type the rest is written with.

Outside inputs are parameters:
- the time-based ids (`Date.now()`);
- the export's batch id (`crypto.randomUUID()`);
- the export date (`new Date()`);
- the user's answer to `window.confirm`.

## Model

| member | source | states |
|---|---|---|
| Types.NumberOfDecimalString | App.tsx:38 | reading back (`Number`) the decimal text a removal compares with (`String(id)`) gives the id back, and that text is canonical |
| Types.DecimalStringInjective | App.tsx:38 | distinct ids have distinct `String(id)` texts, so a removal's string comparison singles out one id |
| Types.ReferenceComparisonsAgree | services/csvExporter.ts:59 | on a canonical decimal reference, `Number(ref) === id` holds exactly when `ref === String(id)`, so the exporter's and the store's comparisons agree |
| Formatters.StripNonDigits | utils/formatters.ts:3 | removing every non-digit leaves only digits and never lengthens the text |
| Formatters.Truncate11 | utils/formatters.ts:4 | the digit string is cut to at most 11 characters |
| Formatters.FormatarCpfIsMask | utils/formatters.ts:2-9 | the three regex rewrites equal the mask `ddd.ddd.ddd-dd` applied to the first 11 digits of the input |
| Formatters.CpfRewritesIsMask | utils/formatters.ts:5-7 | on at most 11 digits, the two first-match rewrites and the end-anchored rewrite produce the reference mask |
| Formatters.FormatarCpfDigits | utils/formatters.ts:2-9 | the formatted CPF holds exactly the input's first 11 digits, in order, and otherwise only `.` and `-` |
| Formatters.CpfMaskDigits | utils/formatters.ts:5-7 | the CPF mask keeps the digits and adds only `.` and `-` |
| Formatters.CpfMaskPunctuation | utils/formatters.ts:5-7 | the CPF mask puts `.` after the 3rd and 6th digit when more digits follow, and `-` before the last one or two digits once there are more than 9 |
| Formatters.FormatarCpfPunctuation | utils/formatters.ts:2-9 | the punctuation positions of the formatted CPF, by the number of digits typed |
| Formatters.FormatarCpfIdempotent | utils/formatters.ts:2-9 | formatting an already formatted CPF changes nothing |
| Formatters.FormatarTelefoneIsMask | utils/formatters.ts:11-21 | the telephone rewrites equal the mask `(dd) ddddd-dddd` / `(dd) dddd-dddd` applied to the first 11 digits |
| Formatters.TelefoneRewritesIsMask | utils/formatters.ts:14-19 | on at most 11 digits, the area-code rewrite and the length-dependent hyphen rewrite produce the reference mask |
| Formatters.FourDigitBranchNeverMatches | utils/formatters.ts:17-18 | the four-digit hyphen rewrite never finds a match, because at most 9 characters leave no 5-digit run after the area code |
| Formatters.PhoneMaskDigits | utils/formatters.ts:14-19 | the telephone mask keeps the digits |
| Formatters.FormatarTelefoneDigits | utils/formatters.ts:11-21 | the formatted telephone holds exactly the input's first 11 digits, in order |
| Formatters.PhoneMaskPunctuation | utils/formatters.ts:14-19 | where the mask puts the parentheses, the space and the hyphen, by the number of digits |
| Formatters.FormatarTelefonePunctuation | utils/formatters.ts:11-21 | the punctuation positions of the formatted telephone, by the number of digits typed |
| Formatters.FormatarTelefoneIdempotent | utils/formatters.ts:11-21 | formatting an already formatted telephone changes nothing |
| Formatters.StripConcat | utils/formatters.ts:3 | removing non-digits distributes over concatenation |
| Formatters.StripAppendSeparated | utils/formatters.ts:5 | inserting a separator without digits does not change the digits |
| Json.HexRoundTrip | services/csvExporter.ts:66-68 | every hex digit written in a `\u` escape reads back as its value |
| Json.EscapeDecodes | services/csvExporter.ts:66-68 | every escaped string body reads back as the original string, whatever follows the closing quote |
| Json.QuoteDecodes | services/csvExporter.ts:66-68 | a quoted JSON string reads back as the original string and leaves the rest of the text |
| Json.ObjectDecodes | services/csvExporter.ts:66-68 | an object written with given keys and values reads back as those values |
| Json.MembersDecode | services/csvExporter.ts:66-68 | a comma-separated member list reads back as its values, in order |
| Json.ElementsDecode | services/csvExporter.ts:66-68 | a non-empty list of objects reads back as its rows |
| Json.ArrayJson | services/csvExporter.ts:66-68 | an encoded array starts with `[`, so the sheet quotes it as a JSON cell |
| Json.ArrayDecodes | services/csvExporter.ts:106 | `JSON.stringify` of an array of flat string objects reads back as exactly those rows |
| Json.DecodeArray | services/csvExporter.ts:106 | whatever the decoder accepts has every object carrying all the keys |
| Csv.JsonColumnPositions | services/csvExporter.ts:13-20 | the three JSON columns are at header positions 6, 11 and 21 |
| Csv.UndoubleDoubled | services/csvExporter.ts:34 | undoubling the `""` pairs made by `replace(/"/g, '""')` gives back the original text |
| Csv.UnquoteQuoted | services/csvExporter.ts:34 | a quoted cell is recognised as quoted and unquotes to its value |
| Csv.CellQuoting | services/csvExporter.ts:28-40 | a cell is quoted exactly when its text holds `,`, `"` or a line feed, or it is a JSON column whose text starts with `[`; quoted cells unquote to the text, unquoted cells are the text |
| CsvParse.ParseUnquoted | services/csvExporter.ts:40-41 | a bare field runs up to the next `,` or line feed, which is left in place |
| CsvParse.QuotedBodyDecodes | services/csvExporter.ts:34 | a doubled-quote body followed by the closing quote reads back as the value |
| CsvParse.UnquotedDecodes | services/csvExporter.ts:40 | a value without special characters reads back unchanged |
| CsvParse.FieldDecodes | services/csvExporter.ts:28-40 | every cell the exporter can write reads back as its value, whatever separator follows |
| CsvParse.RecordDecodes | services/csvExporter.ts:41 | a comma-joined line of cells reads back as the list of their values |
| CsvParse.DocumentDecodes | services/csvExporter.ts:44 | line-feed-joined lines read back as the list of their records |
| CsvParse.ColumnNamePlain | services/csvExporter.ts:13-20 | no header name needs quoting |
| CsvParse.RowFields | services/csvExporter.ts:28-29 | one field per header, in header order |
| CsvParse.ConverterParaCsvRoundTrip | services/csvExporter.ts:12-45 | reading the generated sheet gives the header names, then for each row its 23 field texts in header order, with missing fields empty; this also holds with no rows |
| CsvParse.ConverterParaCsvEnd | services/csvExporter.ts:44 | the sheet is never empty and never ends with a line feed, so it ends with its last row; with no rows it is the header line alone and holds no line feed |
| CsvParse.ReadBackField | services/csvExporter.ts:12-45 | the sheet has one record per row plus the header, and cell j of record 1+i is row i's text for column j |
| Exporter.CapitalizeParentescoTags | services/csvExporter.ts:3-10 | the eight relationship tags get their labels, and any other text is returned unchanged |
| Exporter.CapitalizeParentescoIdempotent | services/csvExporter.ts:3-10 | labelling a label changes nothing, and only the empty tag gives the empty text |
| Exporter.CapitalizeParentescoInjectiveOnTags | services/csvExporter.ts:3-10 | distinct tags get distinct labels |
| Exporter.LinkedAlunosAlong | services/csvExporter.ts:58-64 | a person has at most as many linked students as links, because links to unknown students are dropped |
| Exporter.LinkedAlunosIsPipeline | services/csvExporter.ts:58-64 | the linked students, built one link at a time, are exactly what the source's filter, map to `find` and drop-missing pipeline gives |
| Exporter.MatriculaRows | services/csvExporter.ts:67 | each linked student becomes one `{matricula}` object |
| Exporter.GuardiansAlong | services/csvExporter.ts:85-104 | a student has at most as many guardian entries as links to them |
| Exporter.StudentGuardiansIsPipeline | services/csvExporter.ts:85-104 | the guardian entries, built one link at a time, are exactly what the source's filter, map to the person's entry and drop-missing pipeline gives |
| Exporter.EntryRows | services/csvExporter.ts:97-100 | each guardian entry becomes one `{cpf, parentesco}` object |
| Exporter.PushGuardianRows | services/csvExporter.ts:57-81 | the loop over the guardians appends exactly the guardian rows, in order, to the rows built so far |
| Exporter.PushStudentRows | services/csvExporter.ts:84-118 | the loop over the students appends exactly the student rows, in order |
| Exporter.PushStaffRows | services/csvExporter.ts:121-150 | the loop over the staff appends exactly the staff rows, in order |
| Exporter.ExportDataAsCsv | services/csvExporter.ts:47-152 | the three loops build exactly the guardian rows, then the student rows, then the staff rows, and the result is their CSV |
| Exporter.ExportRowsLayout | services/csvExporter.ts:56-150 | the sheet has one row per guardian, student and staff member, in that order, each built from the record at its position |
| Exporter.RowColumns | services/csvExporter.ts:70-80 | each kind of row fills exactly its own columns, and every other column is empty |
| Exporter.GuardianRowContext | services/csvExporter.ts:70-79 | a guardian row carries the batch id, the process id `IMPORTACAO-<date>-<INEP>`, category `RESPONSAVEL` and origin `Sistema Web` |
| Exporter.StudentRowContext | services/csvExporter.ts:108-117 | a student row carries the batch id, the process id, category `ESTUDANTE` and the origin |
| Exporter.StaffRowContext | services/csvExporter.ts:134-149 | a staff row carries the batch id, the process id, category `FUNCIONARIO` and the origin |
| Exporter.FixedColumns | services/csvExporter.ts:51-54 | every row of one export carries the same batch id, process id and origin, and the category of its kind |
| Exporter.StaffFlags | services/csvExporter.ts:145-146 | a staff row writes `Sim`/`Não` for app authorisation and `TRUE`/`FALSE` for having a child at the school |
| Exporter.NoLinksNoEntries | services/csvExporter.ts:66-68 | with no links, no person has linked students and no student has guardians |
| Exporter.LinkedAlunosAddLink | services/csvExporter.ts:58-64 | a new link adds its student at the end of the person's linked students exactly when it is of the person's kind, refers to them, and its student exists; otherwise nothing changes |
| Exporter.StudentGuardiansAddLink | services/csvExporter.ts:85-104 | a new link to a student adds one entry at the end exactly when its person exists; otherwise nothing changes |
| Exporter.EntryOfResolves | services/csvExporter.ts:88-102 | a link resolves against the guardians or the staff according to its kind; the entry exists exactly when some person of that kind has the referenced id, and it carries the CPF of the first such person and the labelled relationship |
| Exporter.MatriculasJsonReadsBack | services/csvExporter.ts:66-68 | the cell is empty exactly when there are no linked students; otherwise it is a JSON array that reads back as their enrolment numbers, in order |
| Exporter.GuardiansJsonReadsBack | services/csvExporter.ts:106 | the cell is empty exactly when there are no entries; otherwise it reads back as each entry's CPF and relationship label, in order |
| Exporter.GuardianLinkCell | services/csvExporter.ts:78 | a guardian row's link column holds the JSON of that guardian's linked students |
| Exporter.StudentLinkCell | services/csvExporter.ts:115 | a student row's guardians column holds the JSON of that student's guardian entries |
| Exporter.StaffLinkCell | services/csvExporter.ts:147 | a staff row's students column holds the JSON of that staff member's linked students |
| Exporter.StudentRowAt | services/csvExporter.ts:84-118 | the i-th student's row follows all guardian rows |
| Exporter.StaffRowAt | services/csvExporter.ts:121-150 | the i-th staff member's row follows all guardian and student rows |
| Exporter.ExportedGuardianLinks | services/csvExporter.ts:57-81 | reading the exported sheet back, guardian i's `vinculos_responsavel_alunos` cell is the JSON of their linked students |
| Exporter.ExportedStudentLinks | services/csvExporter.ts:84-118 | reading the exported sheet back, record 1+k, for a row k past the guardian rows, is that student's row, and its `responsaveis_do_aluno` cell is the JSON of the student's guardian entries |
| Exporter.ExportedStaffLinks | services/csvExporter.ts:121-150 | reading the exported sheet back, a staff row's `alunos_funcionario` cell is the JSON of that staff member's linked students |
| Store.TrimStart | App.tsx:85 | the text minus its leading JavaScript whitespace: a suffix of the input, preceded only by whitespace, and not starting with whitespace |
| Store.TrimEnd | App.tsx:85 | the text minus its trailing whitespace: a prefix of the input, followed only by whitespace |
| Store.TrimShape | App.tsx:85 | `trim` gives a contiguous piece of the input with only whitespace around it |
| Store.TrimEnds | App.tsx:85 | a non-empty trimmed text neither starts nor ends with whitespace |
| Store.TrimEmpty | App.tsx:85 | the trimmed code is empty exactly when the code is all whitespace |
| Store.TrimIdempotent | App.tsx:90 | trimming twice is trimming once |
| Store.RemoveAlunoCascade | App.tsx:33-41 | removing a student drops the students with that id and exactly the links whose student reference is its `String(id)`; every other record is kept, in order and as many times as it occurred |
| Store.RemoveResponsavelCascade | App.tsx:48-56 | removing a guardian drops it and exactly its guardian links, keeping every other record in order and with its multiplicity; a staff link with the same reference survives |
| Store.RemoveFuncionarioCascade | App.tsx:63-71 | removing a staff member drops it and exactly its staff links, keeping every other record in order and with its multiplicity; a guardian link with the same reference survives |
| Store.RemoveVinculoOnlyLinks | App.tsx:78-82 | removing a link drops the links with that id and changes nothing else: every other link stays, in order and as many times as it occurred |
| Store.CascadeMatchesExporter | App.tsx:33-71 | when references are canonical, no link left after a removal still refers to the removed record in the exporter's `Number` comparison |
| Store.RemoveAlunoLeavesExport | App.tsx:33-41 | after a student is removed, no guardian's or staff member's exported student list holds a student with that id |
| Store.RemoveResponsavelLeavesExport | App.tsx:48-56 | after a guardian is removed, every entry of a student's exported guardian list comes from a remaining link to that student that does not name the removed guardian |
| Store.RemoveFuncionarioLeavesExport | App.tsx:63-71 | after a staff member is removed, every entry of a student's exported guardian list comes from a remaining link that does not name the removed staff member |
| Store.SessionStore.constructor | App.tsx:15-22 | the session starts with empty collections and an empty INEP code |
| Store.SessionStore.AddAluno | App.tsx:28-31 | appends the student with the given id and leaves the rest unchanged |
| Store.SessionStore.AddResponsavel | App.tsx:43-46 | appends the guardian with the given id and leaves the rest unchanged |
| Store.SessionStore.AddFuncionario | App.tsx:58-61 | appends the staff member with the given id and leaves the rest unchanged |
| Store.SessionStore.AddVinculo | App.tsx:73-76 | appends the submitted link with the given id and leaves the rest unchanged |
| Store.SessionStore.RemoveAluno | App.tsx:33-41 | when confirmed, the store becomes the cascade removal; otherwise it is unchanged |
| Store.SessionStore.RemoveResponsavel | App.tsx:48-56 | when confirmed, the store becomes the guardian cascade removal; otherwise it is unchanged |
| Store.SessionStore.RemoveFuncionario | App.tsx:63-71 | when confirmed, the store becomes the staff cascade removal; otherwise it is unchanged |
| Store.SessionStore.RemoveVinculo | App.tsx:78-82 | when confirmed, the link is removed; otherwise the store is unchanged |
| Store.SessionStore.SetInepCode | App.tsx:22 | sets the code and leaves the data unchanged |
| Store.SessionStore.HandleExport | App.tsx:84-96 | refuses (nothing exported) exactly when the INEP code is blank; otherwise exports the current data with the trimmed code |
| Summary.Progress | components/Summary.tsx:34-43 | the percentage is 25 per completed step, and at most 100 |
| Summary.ProgressValues | components/Summary.tsx:34-43 | the percentage is one of 0, 25, 50, 75 and 100 |
| Summary.ProgressExtremes | components/Summary.tsx:34-43 | an empty session is at 0%, and one with every collection filled is at 100% |
| Summary.FullProgress | components/Summary.tsx:37-40 | 100% exactly when there are students, staff and links, and either guardians or a staff member with a child; a staff parent alone completes the guardian step |
| Summary.ProgressMonotone | components/Summary.tsx:34-43 | appending records never lowers the percentage |
| LinkForm.PessoasDisponiveisSpec | components/LinkForm.tsx:23-27 | a guardian link offers every guardian, in order; a staff link offers exactly the staff with a child at the school, in their order and as many times as they occur; before a kind is chosen nobody is offered |
| LinkForm.GetPessoaNome | components/LinkForm.tsx:41-47 | the name of the first guardian or staff member (by link kind) whose id the reference reads as, and nothing exactly when none matches |
| LinkForm.GetAlunoNome | components/LinkForm.tsx:49-52 | the name of the first student whose id the reference reads as, and nothing exactly when none matches |
| LinkForm.NamesOfFormLink | components/LinkForm.tsx:41-52 | with unique ids, a link made from a selected person and student shows their names |
| LinkForm.ParentescoOptionsMatchLabels | components/LinkForm.tsx:88-96 | the form offers exactly the eight tags the exporter labels, each shown with the label the sheet will carry |
| LinkForm.LinkFormState.constructor | components/LinkForm.tsx:18-21 | the form starts with every field empty |
| LinkForm.LinkFormState.SelectTipo | components/LinkForm.tsx:65 | choosing a kind sets it and clears the chosen person, keeping student and relationship |
| LinkForm.LinkFormState.SelectPessoa | components/LinkForm.tsx:74 | sets the person and nothing else |
| LinkForm.LinkFormState.SelectAluno | components/LinkForm.tsx:80 | sets the student and nothing else |
| LinkForm.LinkFormState.SelectParentesco | components/LinkForm.tsx:87 | sets the relationship and nothing else |
| LinkForm.LinkFormState.HandleSubmit | components/LinkForm.tsx:29-39 | hands over a link exactly when all four fields are filled, with exactly those values; then clears person, student and relationship and keeps the kind; otherwise changes nothing |

## Left out

- The download of the sheet is not modelled: the byte-order mark, the `Blob`, the
  temporary link and the dated file name (services/csvExporter.ts:153-160). These are
  browser I/O. `ExportDataAsCsv` returns the text instead.
- `crypto.randomUUID()` and `new Date()` (services/csvExporter.ts:51-52) are
  parameters. The date is taken as the `YYYY-MM-DD` text the code cuts from the ISO
  timestamp.
- The `Date.now()` ids of the add handlers are parameters. They are not assumed to be
  unique; `LinkForm.NamesOfFormLink` takes uniqueness as a precondition.
- `window.confirm` is the `confirmed` parameter. The success modals, `alert` and the
  `try`/`catch` around the export (App.tsx:89-95) are left out: they are user
  interface, and the model's export cannot throw.
- The store keeps the state that React holds with `setData`. Its updates are modelled
  as direct field updates, without the asynchronous batching of React state.
- The entry forms for students, guardians and staff, their required-field checks and
  all rendering are not part of this model.
- `NumberOf` (`Number(ref)`) is modelled only on digit strings, where the empty string
  reads as 0 as in JavaScript. It gives nothing for other text. The form only ever
  stores decimal ids, so other texts never meet a comparison.
- Exporter.CapitalizeParentesco: looks the tag up in an eight-entry map. It does not
  model JavaScript's inherited object keys (`"constructor"`, `"toString"`, ...), for
  which the source's `map[parentesco] || parentesco` would yield a function.
- Json.Escape: characters are Dafny `char`s. Strings are not modelled as UTF-16 code
  units, so the escaping of lone surrogates is not modelled.
- Summary.Progress: computes `(steps * 100) / 4`, which is exact for 0 to 4 steps. It
  stands for `Math.round((steps / 4) * 100)` without floating point.
