/** The records of the session (students, guardians, staff, links) and the textual
    id references that links hold. */
module Types {
  import opened Wrappers

  /** A student. Its `categoria` is always the literal tag ESTUDANTE and is not stored. */
  datatype Aluno = Aluno(id: nat, nome: string, matricula: string, serie: string)

  /** A guardian; `cpf` and `whatsapp` hold the masked text the form produced. */
  datatype Responsavel = Responsavel(id: nat, nome: string, cpf: string, whatsapp: string, email: string)

  /** A staff member. `temFilho` says the member has a child enrolled at the school. */
  datatype Funcionario = Funcionario(
    id: nat, nome: string, cpf: string, whatsapp: string, email: string,
    matricula: string, cargo: string, atribuicao: string,
    appAutorizado: bool, temFilho: bool)

  /** The discriminant of a link: it points at a guardian or at a staff member. */
  datatype TipoVinculo = VinculoResponsavel | VinculoFuncionario

  /** A link between one guardian or staff member and one student. The references are
      kept as text, as the source keeps them. */
  datatype Vinculo = Vinculo(id: nat, tipo: TipoVinculo, pessoaId: string, alunoId: string, parentesco: string)

  /** A link as the link form hands it over, before the session gives it an id. */
  datatype NovoVinculo = NovoVinculo(tipo: TipoVinculo, pessoaId: string, alunoId: string, parentesco: string)

  /** The whole session state: four ordered collections. */
  datatype AppData = AppData(alunos: seq<Aluno>, responsaveis: seq<Responsavel>, funcionarios: seq<Funcionario>, vinculos: seq<Vinculo>)

  const EmptyData := AppData([], [], [], [])

  // ---------------------------------------------------------------------------
  // Decimal references

  /** An ASCII decimal digit (what a regular expression's `\d` matches). */
  predicate IsDigit(c: char) {
    '0' <= c <= '9'
  }

  predicate AllDigits(s: string) {
    forall i :: 0 <= i < |s| ==> IsDigit(s[i])
  }

  function DigitChar(d: nat): (c: char)
    requires d < 10
    ensures IsDigit(c)
  {
    ('0' as int + d) as char
  }

  function DigitValue(c: char): nat
    requires IsDigit(c)
  {
    c as int - '0' as int
  }

  /** `String(n)` for a non-negative integer: its decimal digits, without leading zeros. */
  function DecimalString(n: nat): (s: string)
    ensures |s| >= 1 && AllDigits(s)
    ensures |s| > 1 ==> s[0] != '0'
  {
    if n < 10 then [DigitChar(n)] else DecimalString(n / 10) + [DigitChar(n % 10)]
  }

  /** The value of a string of decimal digits (the empty string has value 0). */
  function DigitsValue(s: string): nat
    requires AllDigits(s)
  {
    if s == [] then 0 else 10 * DigitsValue(s[..|s| - 1]) + DigitValue(s[|s| - 1])
  }

  /** `Number(s)` on the reference strings the source handles: a string of ASCII digits
      (including the empty string, which JavaScript reads as 0) is read as a decimal number;
      any other string has no numeric value here, as `NaN` equals no id. */
  function NumberOf(s: string): (r: Option<nat>)
    ensures r.Some? <==> AllDigits(s)
  {
    if AllDigits(s) then Some(DigitsValue(s)) else None
  }

  /** `Number(ref) === id`, for references that are digit strings. */
  predicate RefersTo(ref: string, id: nat)
  {
    NumberOf(ref) == Some(id)
  }

  /** A reference in the form every link created through the link form has: `String(id)`
      of some id. */
  predicate CanonicalRef(s: string) {
    NumberOf(s).Some? && s == DecimalString(NumberOf(s).value)
  }

  /** Reading back `String(n)` gives `n`. */
  lemma {:induction false} NumberOfDecimalString(n: nat)
    ensures NumberOf(DecimalString(n)) == Some(n)
    ensures CanonicalRef(DecimalString(n))
    decreases n
  {
    var s := DecimalString(n);
    if n >= 10 {
      NumberOfDecimalString(n / 10);
      assert s[..|s| - 1] == DecimalString(n / 10);
      assert DigitValue(s[|s| - 1]) == n % 10;
      assert DigitsValue(s) == 10 * (n / 10) + n % 10;
    }
  }

  /** Distinct ids have distinct decimal strings. */
  lemma DecimalStringInjective(m: nat, n: nat)
    ensures DecimalString(m) == DecimalString(n) <==> m == n
  {
    NumberOfDecimalString(m);
    NumberOfDecimalString(n);
  }

  /** On a canonical reference the session's comparison `ref === String(id)` and the
      exporter's comparison `Number(ref) === id` agree. */
  lemma ReferenceComparisonsAgree(ref: string, id: nat)
    requires CanonicalRef(ref)
    ensures RefersTo(ref, id) <==> ref == DecimalString(id)
  {
    NumberOfDecimalString(id);
  }
}
