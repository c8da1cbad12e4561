/** The fill-in progress bar of the summary screen (`Summary.tsx`, lines 34-43): one of four
    steps for each kind of record entered, shown as a percentage. */
module Summary {
  import opened Types

  /** `funcionarios.some(f => f.temFilho)`. */
  predicate SomeTemFilho(fs: seq<Funcionario>)
  {
    exists i :: 0 <= i < |fs| && fs[i].temFilho
  }

  /** The second step: a guardian entered, or a staff member with a child at the school. */
  predicate GuardianStepDone(d: AppData)
  {
    |d.responsaveis| > 0 || SomeTemFilho(d.funcionarios)
  }

  /** The number of steps done, counted one condition at a time. */
  function CompletedSteps(d: AppData): nat
  {
    (if |d.alunos| > 0 then 1 else 0)
    + (if GuardianStepDone(d) then 1 else 0)
    + (if |d.funcionarios| > 0 then 1 else 0)
    + (if |d.vinculos| > 0 then 1 else 0)
  }

  /** `progress`: counts the steps done out of four and scales to a percentage. The
      quotient is exact in integers, since a quarter of 100 is 25, so `Math.round` has
      nothing to round. */
  method Progress(d: AppData) returns (progress: nat)
    ensures progress == 25 * CompletedSteps(d)
    ensures progress <= 100
  {
    var totalSteps := 4;
    var completedSteps := 0;
    if |d.alunos| > 0 {
      completedSteps := completedSteps + 1;
    }
    if |d.responsaveis| > 0 || SomeTemFilho(d.funcionarios) {
      completedSteps := completedSteps + 1;
    }
    if |d.funcionarios| > 0 {
      completedSteps := completedSteps + 1;
    }
    if |d.vinculos| > 0 {
      completedSteps := completedSteps + 1;
    }
    progress := (completedSteps * 100) / totalSteps;
  }

  /** The bar only ever shows 0, 25, 50, 75 or 100. */
  lemma ProgressValues(d: AppData)
    ensures CompletedSteps(d) <= 4
    ensures 25 * CompletedSteps(d) in {0, 25, 50, 75, 100}
  {
  }

  /** Nothing entered: 0. Students, guardians, staff and links all entered: 100. */
  lemma ProgressExtremes(d: AppData)
    ensures d == EmptyData ==> 25 * CompletedSteps(d) == 0
    ensures |d.alunos| > 0 && |d.responsaveis| > 0 && |d.funcionarios| > 0 && |d.vinculos| > 0
      ==> 25 * CompletedSteps(d) == 100
  {
  }

  /** Full marks need a student, staff and a link, but a staff member with a child can
      stand in for the guardians. */
  lemma FullProgress(d: AppData)
    ensures CompletedSteps(d) == 4 <==>
      |d.alunos| > 0 && |d.funcionarios| > 0 && |d.vinculos| > 0 && GuardianStepDone(d)
    ensures (|d.responsaveis| == 0 && SomeTemFilho(d.funcionarios)) ==> GuardianStepDone(d)
  {
  }

  /** Entering more records never lowers the bar: when every collection of `e` extends the
      matching collection of `d`, `e` has at least as many steps done. */
  lemma ProgressMonotone(d: AppData, e: AppData)
    requires d.alunos <= e.alunos && d.responsaveis <= e.responsaveis
    requires d.funcionarios <= e.funcionarios && d.vinculos <= e.vinculos
    ensures CompletedSteps(d) <= CompletedSteps(e)
  {
    if SomeTemFilho(d.funcionarios) {
      var i :| 0 <= i < |d.funcionarios| && d.funcionarios[i].temFilho;
      assert e.funcionarios[i] == d.funcionarios[i];
    }
  }
}
