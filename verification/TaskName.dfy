/** Task names derived from job names (api/v1alpha1/bmc/job.go:138-141). */
module TaskName {
  import opened Prelude
  import opened Decimal

  const SEPARATOR := "-task-"

  function FormatTaskName(job: string, n: int): string {
    job + SEPARATOR + Itoa(n)
  }

  predicate OccursAt(s: string, k: nat) {
    k + |SEPARATOR| <= |s| && s[k..k + |SEPARATOR|] == SEPARATOR
  }

  /** The largest position below `bound` at which the separator occurs. */
  function LastSeparator(s: string, bound: nat): (r: Option<nat>)
    requires bound <= |s|
  {
    if bound == 0 then None
    else if OccursAt(s, bound - 1) then Some(bound - 1)
    else LastSeparator(s, bound - 1)
  }

  function ParseTaskName(s: string): Option<(string, int)> {
    match LastSeparator(s, |s|)
    case None => None
    case Some(k) =>
      if !OccursAt(s, k) then None
      else match Atoi(s[k + |SEPARATOR|..])
        case None => None
        case Some(n) => Some((s[..k], n))
  }

  lemma {:induction false} LastSeparatorIs(s: string, bound: nat, k: nat)
    requires k < bound <= |s| && OccursAt(s, k)
    requires forall j :: k < j < bound ==> !OccursAt(s, j)
    ensures LastSeparator(s, bound) == Some(k)
  {
    if bound - 1 != k { LastSeparatorIs(s, bound - 1, k); }
  }

  /** The separator does not occur again behind the one that was inserted. */
  lemma NoLaterSeparator(job: string, n: int, j: nat)
    requires |job| < j < |FormatTaskName(job, n)|
    ensures !OccursAt(FormatTaskName(job, n), j)
  {
    var s := FormatTaskName(job, n);
    AtoiItoa(n);
    var d := j - |job|;
    if j + 6 <= |s| {
      assert s[j] == if d < 6 then SEPARATOR[d] else Itoa(n)[d - 6];
      assert d >= 5 ==> s[j + 1] == Itoa(n)[d - 5];
      assert s[j..j + 6][0] == s[j] && s[j..j + 6][1] == s[j + 1];
      assert SEPARATOR[0] == '-' && SEPARATOR[1] == 't';
    }
  }

  /** Splitting at the last "-task-" recovers the job name and the index, for
      every name, also one that itself contains "-task-" and digits. */
  lemma TaskNameRoundTrip(job: string, n: int)
    ensures ParseTaskName(FormatTaskName(job, n)) == Some((job, n))
  {
    var s := FormatTaskName(job, n);
    assert s[|job|..|job| + 6] == SEPARATOR;
    forall j | |job| < j < |s| ensures !OccursAt(s, j) { NoLaterSeparator(job, n, j); }
    LastSeparatorIs(s, |s|, |job|);
    assert s[|job| + 6..] == Itoa(n) && s[..|job|] == job;
    AtoiItoa(n);
  }

  /** The name, in characters: the job name, "-task-", and the index in canonical
      decimal notation. */
  lemma TaskNameIs(job: string, n: int, digits: string)
    requires Canonical(digits, if n < 0 then -n else n)
    ensures FormatTaskName(job, n) == job + "-task-" + (if n < 0 then "-" + digits else digits)
  {
    ItoaIs(n, digits);
  }

  /** Two tasks share a name only if they are the same task of the same job. */
  lemma TaskNameInjective(job1: string, n1: int, job2: string, n2: int)
    requires FormatTaskName(job1, n1) == FormatTaskName(job2, n2)
    ensures job1 == job2 && n1 == n2
  {
    TaskNameRoundTrip(job1, n1);
    TaskNameRoundTrip(job2, n2);
  }
}
