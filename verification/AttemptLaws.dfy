/** Who is let through, told from the moments of the failures themselves. */
module AttemptLaws {
  import opened Prelude
  import opened Attempts

  // One check after the other on one account; a cleanup may come between them.
  datatype Deed = Tried(at: Time, verdict: Verdict) | Swept(at: Time)

  function Done(row: Option<Row>, limit: nat, d: Deed): Option<Row> {
    match d
    case Tried(at, verdict) => if Open(row, limit, at) then Record(row, row.Some?, at, verdict) else row
    case Swept(at) => if row.Some? && row.value.start < at - WINDOW then None else row
  }

  function RowOf(limit: nat, ds: seq<Deed>): Option<Row> {
    if ds == [] then None else Done(RowOf(limit, ds[..|ds| - 1]), limit, ds[|ds| - 1])
  }

  /** The quarter of an hour that began with the first of these failures is over. */
  predicate Over(failed: seq<Time>, at: Time) {
    failed != [] && at - failed[0] >= 15 * 60
  }

  /** Let through: not as many failures as the limit yet, or the quarter of an hour since the first of them is over. */
  predicate LetThrough(failed: seq<Time>, limit: nat, at: Time) {
    failed == [] || |failed| < limit || Over(failed, at)
  }

  /** The failures that count: those since the last success, in the quarter of an hour since the first of them. One that
      comes later starts anew. */
  function Counting(limit: nat, ds: seq<Deed>): seq<Time> {
    if ds == [] then []
    else
      var failed, d := Counting(limit, ds[..|ds| - 1]), ds[|ds| - 1];
      match d
      case Tried(at, verdict) =>
        if !LetThrough(failed, limit, at) then failed
        else
          (match verdict
           case Correct => []
           case Wrong => if Over(failed, at) then [at] else failed + [at]
           case OtherError => failed)
      case Swept(at) => if failed != [] && at - failed[0] > 15 * 60 then [] else failed
  }

  function Summary(failed: seq<Time>): Option<Row> {
    if failed == [] then None else Some(Row(|failed|, failed[0]))
  }

  /** The row keeps their number and the first of them, and that is all it takes. */
  lemma {:induction false} RowSummarises(limit: nat, ds: seq<Deed>)
    ensures RowOf(limit, ds) == Summary(Counting(limit, ds))
  {
    if ds != [] {
      RowSummarises(limit, ds[..|ds| - 1]);
    }
  }

  /** So a check is let through exactly if fewer failures than the limit count, or their quarter of an hour is over. */
  lemma {:induction false} LetThroughExactlyIf(limit: nat, ds: seq<Deed>, at: Time)
    requires limit >= 1
    ensures Open(RowOf(limit, ds), limit, at) <==> LetThrough(Counting(limit, ds), limit, at)
  {
    RowSummarises(limit, ds);
    hide RowOf, Counting;
  }

  /** `n` wrong checks at one time. */
  function Misses(n: nat, at: Time): seq<Deed> {
    if n == 0 then [] else Misses(n - 1, at) + [Tried(at, Wrong)]
  }

  lemma {:induction false} MissesCount(limit: nat, n: nat, at: Time)
    requires n <= limit
    ensures |Counting(limit, Misses(n, at))| == n
    ensures n > 0 ==> Counting(limit, Misses(n, at))[0] == at
  {
    if n > 0 {
      MissesCount(limit, n - 1, at);
      assert Misses(n, at)[..|Misses(n, at)| - 1] == Misses(n - 1, at);
    }
  }

  /** As many failures as the limit lock the account for a quarter of an hour from the first, not for a second more. */
  lemma {:induction false} LockLasts(limit: nat, at: Time, later: Time)
    requires limit >= 1
    ensures Open(RowOf(limit, Misses(limit, at)), limit, later) <==> later >= at + 15 * 60
    ensures Open(RowOf(limit, Misses(limit - 1, at)), limit, later)
  {
    MissesCount(limit, limit, at);
    MissesCount(limit, limit - 1, at);
    LetThroughExactlyIf(limit, Misses(limit, at), later);
    LetThroughExactlyIf(limit, Misses(limit - 1, at), later);
    hide Open, RowOf, Counting, Misses;
  }
}
