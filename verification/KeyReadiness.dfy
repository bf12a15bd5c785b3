/** When the key handler is ready: every key manager has reported once, if only with an
    empty key. */
module KeyReadiness {
  import opened Lists

  datatype Readiness = Readiness(managers: seq<nat>, ready: seq<nat>, signals: nat)

  predicate IsReady(r: Readiness) {
    |r.ready| == |r.managers|
  }

  /** A key manager reports; the last one to do so for the first time triggers the
      ready signal. */
  function Reported(r: Readiness, manager: nat): Readiness {
    if IsReady(r) || manager in r.ready then r
    else
      var q := r.(ready := r.ready + [manager]);
      if IsReady(q) then q.(signals := q.signals + 1) else q
  }

  function AfterReports(managers: seq<nat>, run: seq<nat>): Readiness {
    if run == [] then Readiness(managers, [], 0)
    else Reported(AfterReports(managers, run[..|run| - 1]), run[|run| - 1])
  }

  lemma {:induction false} DistinctSize(list: seq<nat>)
    requires Distinct(list)
    ensures |Elements(list)| == |list|
  {
    if list != [] {
      var front, last := list[..|list| - 1], list[|list| - 1];
      DistinctSize(front);
      assert Elements(list) == Elements(front) + {last} && last !in front;
    }
  }

  lemma SameSizeMeansAll(part: seq<nat>, all: seq<nat>)
    requires Distinct(part) && Distinct(all) && Elements(part) <= Elements(all)
    ensures |part| <= |all|
    ensures |part| == |all| <==> Elements(part) == Elements(all)
  {
    DistinctSize(part);
    DistinctSize(all);
    assert |Elements(all)| == |Elements(part)| + |Elements(all) - Elements(part)|;
  }

  /** On every run of reports by registered managers, the handler is ready exactly when
      all of them have reported, and the signal has been emitted exactly once then, but
      never if there are no managers at all. */
  lemma {:induction false} ReadyExactlyWhenAllReported(managers: seq<nat>, run: seq<nat>)
    requires Distinct(managers) && Elements(run) <= Elements(managers)
    ensures var r := AfterReports(managers, run);
            && r.managers == managers && Distinct(r.ready) && Elements(r.ready) == Elements(run)
            && (IsReady(r) <==> Elements(run) == Elements(managers))
            && r.signals == if IsReady(r) && managers != [] then 1 else 0
  {
    var r := AfterReports(managers, run);
    if run == [] {
      SameSizeMeansAll([], managers);
    } else {
      var front, m := run[..|run| - 1], run[|run| - 1];
      var before := AfterReports(managers, front);
      assert Elements(run) == Elements(front) + {m};
      ReadyExactlyWhenAllReported(managers, front);
      assert Elements(before.ready + [m]) == Elements(before.ready) + {m};
      SameSizeMeansAll(before.ready, managers);
      SameSizeMeansAll(r.ready, managers);
    }
  }
}
